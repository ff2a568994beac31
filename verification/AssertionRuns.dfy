/** Whole runs of the authenticator: commands, resets, store failures, crashes,
    reloads and maintenance by other processes. The store directory is locked by
    the running process, so any other process finds an empty handler. */
module AssertionRuns {
  import opened Base
  import opened Users
  import opened Credentials
  import opened StoreDocument
  import opened StoreProtocol
  import opened AssertionMatches
  import opened CommandHandler
  import opened StoreSanity
  import Runs = StoreRuns
  import Seq = AssertionSequence

  datatype Event =
    | Get(cid: u32, parsed: Option<Request>, env: Env)
    | Next(cid: u32, extraBytes: bool, env: Env)
    | Make(cred: StoredCredential, owner: u32, reached: bool, io: SaveIo)
    | OtherCommand
    | Reset
    | Process(e: Runs.Event)

  /** The GetAssertion a sequence was opened by, and what the user approved. */
  datatype Opening = Opening(cid: u32, binding: Binding, request: Request, presence: bool, verification: bool)

  function OpeningOf(cid: u32, q: Request, env: Env): (o: Opening)
    requires env.user.Some?
  {
    var i := InteractionFor(q.up, q.uv);
    Opening(cid, env.user.value.Bound(), q,
      i.Presence? && env.answer.Approved?, i.Verification? && env.answer.Approved?)
  }

  datatype Emission = Emission(a: Assertion, opening: Opening)

  datatype World = World(sys: Sys, handler: Handler, opening: Option<Opening>, log: seq<Emission>)

  function Start(): (w: World) {
    World(Runs.Start().sys, Fresh(), None, [])
  }

  function Logged(log: seq<Emission>, r: Response, o: Option<Opening>): (l: seq<Emission>) {
    if r.Answer? && o.Some? then log + [Emission(r.a, o.value)] else log
  }

  ghost function Respond(w: World, e: Event): (r: Outcome) {
    match e
    case Get(cid, parsed, env) => Executed(w.sys, env, GetAssertion(w.sys, cid, parsed, env))
    case Next(cid, extraBytes, env) => Executed(w.sys, env, GetNext(w.sys, w.handler, cid, extraBytes, env))
    case Make(cred, owner, reached, io) => MakeCredential(w.sys, cred, owner, reached, io)
    case OtherCommand => Outcome(w.sys, Fresh(), Failed)
    case Reset => Outcome(w.sys, Fresh(), Failed)
    case Process(e) => Outcome(Runs.Perform(w.sys, e).0, Fresh(), Failed)
  }

  function NewOpening(w: World, e: Event): (o: Option<Opening>) {
    if e.Get? && e.parsed.Some? && e.env.user.Some? then Some(OpeningOf(e.cid, e.parsed.value, e.env))
    else if e.Next? then w.opening
    else None
  }

  ghost function Step(w: World, e: Event): (r: World) {
    var out := Respond(w, e);
    var o := NewOpening(w, e);
    World(out.sys, out.handler, o, Logged(w.log, out.response, o))
  }

  ghost function Run(w: World, events: seq<Event>): (r: World) {
    if events == [] then w else Step(Run(w, events[..|events| - 1]), events[|events| - 1])
  }

  // ----- the invariant -----

  function MarkOf(a: Assertion): (m: Mark) {
    Mark(KeyOf(a.cred.id), a.cred.creationOrder, a.count)
  }

  /** Every snapshot still to be returned equals the store's credential, and no two
      have the same ID. */
  ghost predicate Mirrors(rest: seq<StoredCredential>, s: Storage, uid: u32) {
    && (forall i :: 0 <= i < |rest| ==> Current(rest[i], s) && rest[i].ownerUid == uid)
    && (forall i, j :: 0 <= i < j < |rest| ==> KeyOf(rest[i].id) != KeyOf(rest[j].id))
  }

  /** A live sequence belongs to the last opening and carries its approvals. */
  ghost predicate Attached(h: Handler, o: Option<Opening>) {
    Seq.Live(h.pending) ==>
      && o.Some?
      && h.pending.originCid == o.value.cid
      && h.pending.owner == Some(o.value.binding)
      && Honest(h.userPresent, h.userVerified, o.value)
  }

  predicate Honest(present: bool, verified: bool, o: Opening) {
    && (verified <==> o.verification)
    && (present <==> o.presence || (o.verification && o.request.up))
  }

  ghost predicate MirrorsStore(h: Handler, s: Sys) {
    Seq.Live(h.pending) ==>
      h.pending.owner.Some? && Mirrors(Seq.Remaining(h.pending), s.mem.stored, h.pending.owner.value.uid)
  }

  ghost predicate LogMarked(log: seq<Emission>, s: Sys) {
    forall i :: 0 <= i < |log| ==> Marked(s, MarkOf(log[i].a))
  }

  /** Counts reported for one registration strictly increase. */
  ghost predicate Increasing(log: seq<Emission>) {
    forall i, j :: 0 <= i < j < |log| ==> Grows(MarkOf(log[i].a), MarkOf(log[j].a))
  }

  predicate Grows(m: Mark, n: Mark) {
    m.key == n.key && m.order == n.order ==> m.count < n.count
  }

  ghost predicate LogHonest(log: seq<Emission>) {
    forall i :: 0 <= i < |log| ==> Faithful(log[i])
  }

  /** An assertion goes to the channel and the user of its opening, and its flag
      bits say exactly what was approved there. */
  predicate Faithful(e: Emission) {
    && e.a.cid == e.opening.cid
    && e.a.binding == e.opening.binding
    && Honest(e.a.flags % 2 == 1, e.a.flags / 4 % 2 == 1, e.opening)
  }

  ghost predicate Inv(w: World) {
    && Sane(w.sys)
    && LogMarked(w.log, w.sys)
    && Increasing(w.log)
    && LogHonest(w.log)
    && Attached(w.handler, w.opening)
    && MirrorsStore(w.handler, w.sys)
  }

  // ----- signing one assertion -----

  /** What holds after the store update behind an answer: the count in the answer
      is the count now durable, it is no wrap-around, and it is above every count
      reported for the registration before. */
  ghost predicate Reported(s: Sys, t: Sys, c: StoredCredential, log: seq<Emission>) {
    var k := KeyOf(c.id);
    && c.signCount < MAX_U32 && NextCount(c) == c.signCount + 1
    && t.mem.stored == s.mem.stored[k := Bumped(c)]
    && t.dev.images == {t.dev.visible} && Content(t.dev.visible) == Some(t.mem.stored)
    && Generation(t.dev.visible) == t.dev.counter
    && t.mem.stored[k].signCount == NextCount(c)
    && Marked(t, Mark(k, c.creationOrder, NextCount(c)))
    && forall i :: 0 <= i < |log| ==> Grows(MarkOf(log[i].a), Mark(k, c.creationOrder, NextCount(c)))
  }

  lemma SignedReports(s: Sys, c: StoredCredential, uid: u32, env: Env, log: seq<Emission>)
    requires Sane(s) && LogMarked(log, s) && Current(c, s.mem.stored) && Signed(s, c, uid, env).1
    ensures Reported(s, Signed(s, c, uid, env).0, c, log)
  {
    hide Sane, Operate, Marked, KeyOf, Content;
    IncrementReturns(s, c.id, uid, env.io);
    forall i | 0 <= i < |log|
      ensures Grows(MarkOf(log[i].a), Mark(KeyOf(c.id), c.creationOrder, NextCount(c)))
    {
      assert Marked(s, MarkOf(log[i].a));
    }
  }

  lemma SignedKeeps(s: Sys, c: StoredCredential, uid: u32, env: Env, log: seq<Emission>)
    requires Sane(s) && LogMarked(log, s)
    ensures Sane(Signed(s, c, uid, env).0) && LogMarked(log, Signed(s, c, uid, env).0)
  {
    hide Sane, Operate, Marked;
    if env.proceeds {
      OperateKeeps(s, Increment(c.id, uid), env.io, log);
    }
  }

  lemma OperateKeeps(s: Sys, change: Change, io: SaveIo, log: seq<Emission>)
    requires Sane(s) && LogMarked(log, s)
    ensures Sane(Operate(s, change, io).0) && LogMarked(log, Operate(s, change, io).0)
  {
    hide Sane, Operate, Marked;
    SaveSane(s, change, io);
    forall i | 0 <= i < |log| ensures Marked(Operate(s, change, io).0, MarkOf(log[i].a)) {
      SaveMarked(s, change, io, MarkOf(log[i].a));
    }
  }

  /** Raising the count of one credential leaves the other snapshots current. */
  lemma MirrorsRest(c: StoredCredential, rest: seq<StoredCredential>, s: Storage, uid: u32, t: Storage)
    requires Mirrors([c] + rest, s, uid) && c.signCount < MAX_U32 && t == s[KeyOf(c.id) := Bumped(c)]
    ensures Mirrors(rest, t, uid)
  {
    hide KeyOf;
    var all := [c] + rest;
    forall i | 0 <= i < |rest| ensures Current(rest[i], t) && rest[i].ownerUid == uid {
      assert all[i + 1] == rest[i] && all[0] == c;
    }
    forall i, j | 0 <= i < j < |rest| ensures KeyOf(rest[i].id) != KeyOf(rest[j].id) {
      assert all[i + 1] == rest[i] && all[j + 1] == rest[j];
    }
  }

  lemma LogExtends(log: seq<Emission>, e: Emission, t: Sys)
    requires LogMarked(log, t) && Increasing(log) && LogHonest(log)
    requires Marked(t, MarkOf(e.a)) && Faithful(e)
    requires forall i :: 0 <= i < |log| ==> Grows(MarkOf(log[i].a), MarkOf(e.a))
    ensures LogMarked(log + [e], t) && Increasing(log + [e]) && LogHonest(log + [e])
  {
    hide Marked, MarkOf, Grows, Faithful;
  }

  // ----- every event keeps the invariant -----

  lemma GetKeeps(w: World, cid: u32, parsed: Option<Request>, env: Env)
    requires Inv(w)
    ensures Inv(Step(w, Get(cid, parsed, env)))
  {
    hide Sane, Operate, Marked, Found, KeyOf, FirstAnswer;
    var out := GetAssertion(w.sys, cid, parsed, env);
    if parsed.Some? && env.user.Some? && !w.sys.mem.requiresReload {
      var q, user := parsed.value, env.user.value;
      var matches := Found(w.sys.mem.stored, q.rpId, q.allow, user.uid);
      if q.refused.None? && Approves(q, env) && matches != [] {
        FoundMirrors(w.sys, q, user.uid);
        FirstAnswerKeeps(w, cid, q, user, matches, env);
      }
    }
  }

  lemma FoundMirrors(s: Sys, q: Request, uid: u32)
    requires Sane(s)
    ensures Mirrors(Found(s.mem.stored, q.rpId, q.allow, uid), s.mem.stored, uid)
  {
    hide StorageOk, Found, KeyOf, Current;
    FoundCurrent(s.mem.stored, s.mem.generation, q.rpId, q.allow, uid);
    var r := Found(s.mem.stored, q.rpId, q.allow, uid);
    forall i | 0 <= i < |r| ensures Current(r[i], s.mem.stored) && r[i].ownerUid == uid {
      assert r[i] in r;
    }
  }

  lemma FirstAnswerKeeps(w: World, cid: u32, q: Request, user: UserContext, matches: seq<StoredCredential>, env: Env)
    requires Inv(w) && matches != [] && Mirrors(matches, w.sys.mem.stored, user.uid)
    requires env.user == Some(user) && Approves(q, env)
    ensures var out := FirstAnswer(w.sys, cid, q, user, matches, env);
      var o := Some(OpeningOf(cid, q, env));
      Inv(World(out.sys, out.handler, o, Logged(w.log, out.response, o)))
  {
    hide Sane, Operate, Marked, KeyOf, Signed, NextCount;
    var out := FirstAnswer(w.sys, cid, q, user, matches, env);
    var o := OpeningOf(cid, q, env);
    SignedKeeps(w.sys, matches[0], user.uid, env, w.log);
    if out.response.Answer? {
      SignedReports(w.sys, matches[0], user.uid, env, w.log);
      assert matches == [matches[0]] + matches[1..];
      MirrorsRest(matches[0], matches[1..], w.sys.mem.stored, user.uid, out.sys.mem.stored);
      LogExtends(w.log, Emission(out.response.a, o), out.sys);
    }
  }

  lemma NextKeeps(w: World, cid: u32, extraBytes: bool, env: Env)
    requires Inv(w)
    ensures Inv(Step(w, Next(cid, extraBytes, env)))
  {
    hide Sane, Operate, Marked, KeyOf, Signed, NextCount, Seq.Advanced;
    var h := w.handler;
    var out := GetNext(w.sys, h, cid, extraBytes, env);
    if Seq.Live(h.pending) && h.pending.originCid == cid && !extraBytes && env.user.Some? {
      var user := env.user.value;
      Seq.AdvancedIff(h.pending, cid, user, env.now);
      var (pending, c) := Seq.Advanced(h.pending, cid, user, env.now);
      if c.Some? {
        SignedKeeps(w.sys, c.value, user.uid, env, w.log);
        if out.response.Answer? {
          var rest := Seq.Remaining(h.pending);
          assert rest == [c.value] + rest[1..];
          assert Current(rest[0], w.sys.mem.stored);
          SignedReports(w.sys, c.value, user.uid, env, w.log);
          MirrorsRest(c.value, rest[1..], w.sys.mem.stored, user.uid, out.sys.mem.stored);
          LogExtends(w.log, Emission(out.response.a, w.opening.value), out.sys);
        }
      }
    }
  }

  lemma ProcessKeeps(s: Sys, e: Runs.Event, log: seq<Emission>)
    requires Sane(s) && LogMarked(log, s)
    ensures Sane(Runs.Perform(s, e).0) && LogMarked(log, Runs.Perform(s, e).0)
  {
    hide Sane, Marked, Runs.Perform;
    StepSane(s, e);
    forall i | 0 <= i < |log| ensures Marked(Runs.Perform(s, e).0, MarkOf(log[i].a)) {
      StepMarked(s, e, MarkOf(log[i].a));
    }
  }

  lemma StepKeeps(w: World, e: Event)
    requires Inv(w)
    ensures Inv(Step(w, e))
  {
    hide Sane, Operate, Marked, KeyOf, GetAssertion, GetNext, Runs.Perform;
    match e
    case Get(cid, parsed, env) => GetKeeps(w, cid, parsed, env);
    case Next(cid, extraBytes, env) => NextKeeps(w, cid, extraBytes, env);
    case Make(cred, owner, reached, io) => OperateKeeps(w.sys, Put(cred, owner), io, w.log);
    case Process(p) => ProcessKeeps(w.sys, p, w.log);
    case OtherCommand =>
    case Reset =>
  }

  lemma {:induction false} RunKeeps(events: seq<Event>)
    ensures Inv(Run(Start(), events))
  {
    hide Inv, Step;
    if events == [] {
      StartInv();
    } else {
      RunKeeps(events[..|events| - 1]);
      StepKeeps(Run(Start(), events[..|events| - 1]), events[|events| - 1]);
    }
  }

  lemma StartInv()
    ensures Inv(Start())
  {
    StartSane();
  }

  // ----- theorems -----

  /** In every run, the counts emitted for one registration strictly increase. */
  lemma EmittedCountsIncrease(events: seq<Event>)
    ensures Increasing(Run(Start(), events).log)
  {
    RunKeeps(events);
  }

  ghost predicate Durable(w: World, out: Outcome)
    requires out.response.Answer?
  {
    var a := out.response.a;
    Reported(w.sys, out.sys, a.cred, w.log) && a.count == a.cred.signCount + 1 && Current(a.cred, w.sys.mem.stored)
  }

  lemma GetDurable(w: World, cid: u32, parsed: Option<Request>, env: Env)
    requires Inv(w) && GetAssertion(w.sys, cid, parsed, env).response.Answer?
    ensures Durable(w, GetAssertion(w.sys, cid, parsed, env))
  {
    hide Sane, Operate, Marked, KeyOf, Signed, Found;
    var q, user := parsed.value, env.user.value;
    FoundMirrors(w.sys, q, user.uid);
    var matches := Found(w.sys.mem.stored, q.rpId, q.allow, user.uid);
    SignedReports(w.sys, matches[0], user.uid, env, w.log);
  }

  lemma NextDurable(w: World, cid: u32, extraBytes: bool, env: Env)
    requires Inv(w) && GetNext(w.sys, w.handler, cid, extraBytes, env).response.Answer?
    ensures Durable(w, GetNext(w.sys, w.handler, cid, extraBytes, env))
  {
    hide Sane, Operate, Marked, KeyOf, Signed, Seq.Advanced;
    var user := env.user.value;
    Seq.AdvancedIff(w.handler.pending, cid, user, env.now);
    var (pending, c) := Seq.Advanced(w.handler.pending, cid, user, env.now);
    assert Current(c.value, w.sys.mem.stored);
    SignedReports(w.sys, c.value, user.uid, env, w.log);
  }

  /** Whenever an assertion is emitted, its count is the stored count plus one
      without wrap-around, and is the count in memory and in the only file that can
      survive. */
  lemma EmittedCountIsDurable(events: seq<Event>, e: Event)
    requires Respond(Run(Start(), events), e).response.Answer?
    ensures Durable(Run(Start(), events), Respond(Run(Start(), events), e))
  {
    hide Inv, Durable, Run, GetAssertion, GetNext;
    RunKeeps(events);
    var w := Run(Start(), events);
    match e
    case Get(cid, parsed, env) => GetDurable(w, cid, parsed, env);
    case Next(cid, extraBytes, env) => NextDurable(w, cid, extraBytes, env);
  }

  /** The opening named in the log is a GetAssertion of the run. */
  ghost predicate OpenedIn(o: Opening, events: seq<Event>) {
    exists i :: 0 <= i < |events| && Opens(events[i], o)
  }

  predicate Opens(e: Event, o: Opening) {
    e.Get? && e.parsed.Some? && e.env.user.Some? && OpeningOf(e.cid, e.parsed.value, e.env) == o
  }

  lemma {:induction false} OpeningsAreReal(events: seq<Event>)
    ensures Run(Start(), events).opening.Some? ==> OpenedIn(Run(Start(), events).opening.value, events)
    ensures forall j :: 0 <= j < |Run(Start(), events).log| ==> OpenedIn(Run(Start(), events).log[j].opening, events)
  {
    hide Respond;
    if events == [] {
    } else {
      var n := |events| - 1;
      OpeningsAreReal(events[..n]);
      forall o | OpenedIn(o, events[..n]) ensures OpenedIn(o, events) {
        var i :| 0 <= i < n && Opens(events[..n][i], o);
        assert Opens(events[i], o);
      }
      var o := NewOpening(Run(Start(), events[..n]), events[n]);
      assert o.Some? && !events[n].Next? ==> Opens(events[n], o.value);
    }
  }

  /** In every run, an assertion has the UV bit if and only if the GetAssertion that
      start its sequence had verification approved, the UP bit if and only if
      presence was approved there or verification with `up` requested, and it goes
      only to the channel and the user binding of that GetAssertion. */
  lemma FlagsAreApproved(events: seq<Event>)
    ensures var log := Run(Start(), events).log;
      forall j :: 0 <= j < |log| ==> Faithful(log[j]) && OpenedIn(log[j].opening, events)
  {
    RunKeeps(events);
    OpeningsAreReal(events);
  }

  // ----- continuations return exactly the list -----

  /** GetNextAssertion on another channel is refused and touches nothing, if and only if
      it is not stopped before the handler is entered; then it drops the sequence. */
  lemma ForeignUndisturbedIff(w: World, e: Event)
    requires e.Next? && e.cid != w.handler.pending.originCid
    ensures Respond(w, e) == Outcome(w.sys, w.handler, Refused(NOT_ALLOWED)) <==> !e.env.stoppedEarly
    ensures Seq.Live(w.handler.pending) ==>
      (Respond(w, e).handler.pending == w.handler.pending <==> !e.env.stoppedEarly)
  {
  }

  /** Whatever is asked after a foreign request was stopped early, the rest of the
      sequence is not returned: until the next GetAssertion nothing is answered. */
  lemma {:induction false} StoppedForeignDrops(w: World, e: Event, after: seq<Event>)
    requires e.Next? && e.env.stoppedEarly
    requires forall n :: 0 <= n < |after| ==> !after[n].Get?
    ensures var t := Run(Step(w, e), after);
      t.log == w.log && !Seq.Live(t.handler.pending)
  {
    hide Operate, Signed, GetAssertion, Runs.Perform;
    if after == [] {
    } else {
      StoppedForeignDrops(w, e, after[..|after| - 1]);
    }
  }

  /** GetNextAssertion is answered exactly when a credential is left for that
      channel and user, at most 30 s after the last answer, and nothing fails. */
  lemma NextAnsweredIff(w: World, cid: u32, extraBytes: bool, env: Env)
    ensures Respond(w, Next(cid, extraBytes, env)).response.Answer? <==>
      var p := w.handler.pending;
      && !env.stoppedEarly && Seq.Live(p) && p.originCid == cid && !extraBytes
      && env.user.Some? && p.owner == Some(env.user.value.Bound())
      && env.now - p.lastUse <= Seq.TIMEOUT && Seq.Remaining(p) != []
      && Signed(w.sys, Seq.Remaining(p)[0], env.user.value.uid, env).1 && !env.tooLarge
  {
    hide Signed, Seq.Advanced;
    if env.user.Some? {
      var user := env.user.value;
      Seq.AdvancedIff(w.handler.pending, cid, user, env.now);
      var (pending, c) := Seq.Advanced(w.handler.pending, cid, user, env.now);
      assert c.Some? ==> c.value == Seq.Remaining(w.handler.pending)[0];
    }
  }

  /** GetAssertion is answered exactly when the request is well formed, the user approved
      what it asks for, a credential matches and its count was committed; and unless it
      is answered no continuation state is left. */
  lemma GetAnsweredIff(w: World, cid: u32, parsed: Option<Request>, env: Env)
    ensures var out := Respond(w, Get(cid, parsed, env));
      && (out.response.Answer? <==>
            && !env.stoppedEarly && parsed.Some? && env.user.Some? && !w.sys.mem.requiresReload && parsed.value.refused.None?
            && Approves(parsed.value, env) && !env.tooLarge
            && var matches := Found(w.sys.mem.stored, parsed.value.rpId, parsed.value.allow, env.user.value.uid);
               matches != [] && Signed(w.sys, matches[0], env.user.value.uid, env).1
               && (|matches| > 1 && parsed.value.allow == [] ==>
                     Seq.Begun(cid, env.user.value, matches[1..], env.now).Some?))
      && (Seq.Live(out.handler.pending) ==> out.response.Answer?)
      && (out.response.Answer? ==>
            out.response.a.cred == Found(w.sys.mem.stored, parsed.value.rpId, parsed.value.allow, env.user.value.uid)[0])
  {
    hide Found, Signed;
  }

  /** Signing and counting work exactly if nothing fails before the store update, the
      store holds that credential for that user with a count left, and the save returns. */
  lemma SignedIff(s: Sys, c: StoredCredential, uid: u32, env: Env)
    requires Sane(s)
    ensures Signed(s, c, uid, env).1 <==>
      && env.proceeds && !s.mem.requiresReload
      && (exists k :: k in s.mem.stored && s.mem.stored[k].id == c.id && s.mem.stored[k].ownerUid == uid
            && s.mem.stored[k].signCount < MAX_U32)
      && env.io.firstRead && s.dev.counter == s.mem.generation < MAX_U64
      && Dumps(env.io.doc, Target(s.mem.stored, s.mem.generation, Increment(c.id, uid)).value)
      && env.io.write.Written?
      && ((env.io.bump.Moved? && env.io.checkRead) || (!env.io.bump.Unmoved? && env.io.retryRead))
  {
    hide StorageOk, Commit, Dumps, IncrementTarget;
    IncrementExactly(s.mem.stored, s.mem.generation, c.id, uid);
    var target := Target(s.mem.stored, s.mem.generation, Increment(c.id, uid));
    if target.Ok? {
      CommitReturnsIff(s, target.value, env.io);
    }
  }

  /** What GetAssertion answers otherwise, in this order of precedence: malformed CBOR;
      no user or a store to be reloaded; the request's own refusal; the user's; and only
      to a user who approved, that there is no credential or that the response is too
      large. An answer says how many credentials there are exactly if there are more. */
  lemma GetRefusals(w: World, cid: u32, q: Request, env: Env)
    requires !env.stoppedEarly
    ensures Respond(w, Get(cid, None, env)).response == Refused(0x12)
    ensures var r := Respond(w, Get(cid, Some(q), env)).response;
      if env.user.None? || w.sys.mem.requiresReload then r == Failed
      else
        var asked, matches := q.up || q.uv, Found(w.sys.mem.stored, q.rpId, q.allow, env.user.value.uid);
        && (q.refused.Some? ==> r == Refused(q.refused.value))
        && (q.refused.None? && asked && (env.answer.Denied? || env.answer.Cancelled?) ==> r == Refused(0x27))
        && (q.refused.None? && asked && env.answer.Raised? ==> r == Failed)
        && (q.refused.None? && (!asked || env.answer.Approved?) ==>
              && (matches == [] ==> r == Refused(0x2E))
              && (matches != [] && !Signed(w.sys, matches[0], env.user.value.uid, env).1 ==> r == Failed)
              && (r.Refused? ==> matches == [] || (env.tooLarge && r.code == 0x39))
              && (r.Answer? ==>
                    r.a.total == if q.allow == [] && |matches| > 1 then Some(|matches|) else None))
  {
    hide Found, Signed, Seq.Begun;
  }

  /** What GetNextAssertion answers otherwise: NOT_ALLOWED off its channel, for another
      user or session, late or with none left; and any refusal on its own channel ends
      the sequence. */
  lemma NextRefusals(w: World, cid: u32, extraBytes: bool, env: Env)
    requires !env.stoppedEarly
    ensures var out := Respond(w, Next(cid, extraBytes, env));
      var p := w.handler.pending;
      if !Seq.Live(p) || p.originCid != cid then out == Outcome(w.sys, w.handler, Refused(0x30))
      else
        && (extraBytes ==> out.response == Refused(0x01))
        && (!extraBytes && env.user.None? ==> out.response == Failed)
        && (!extraBytes && env.user.Some? &&
              (p.owner != Some(env.user.value.Bound()) || env.now - p.lastUse > Seq.TIMEOUT || Seq.Remaining(p) == [])
            ==> out.response == Refused(0x30) && out.sys == w.sys)
        && (!out.response.Answer? ==> out.handler == Fresh())
        && (out.response.Answer? ==> out.response.a.total == None)
  {
    hide Signed, Seq.Advanced, Seq.Remaining;
    if env.user.Some? {
      var p := w.handler.pending;
      Seq.AdvancedIff(p, cid, env.user.value, env.now);
      var (pending, c) := Seq.Advanced(p, cid, env.user.value, env.now);
      assert c.Some? ==>
        p.owner == Some(env.user.value.Bound()) && env.now - p.lastUse <= Seq.TIMEOUT && Seq.Remaining(p) != [];
    }
  }

  /** Every command but the two, a reset and a restart drop the sequence; registering
      does to the store what a registration does, if it gets that far. */
  lemma OthersDrop(w: World, e: Event)
    requires !e.Get? && !e.Next?
    ensures Respond(w, e).handler == Fresh() && !Respond(w, e).response.Answer?
    ensures e.OtherCommand? || e.Reset? ==> Respond(w, e).sys == w.sys
    ensures e.Make? ==> Respond(w, e).sys == if e.reached then Operate(w.sys, Put(e.cred, e.owner), e.io).0 else w.sys
  {
    hide Operate;
  }

  function Creds(log: seq<Emission>): (r: seq<StoredCredential>)
    ensures |r| == |log|
  {
    if log == [] then [] else Creds(log[..|log| - 1]) + [log[|log| - 1].a.cred]
  }

  /** Number of GetNextAssertion commands on channel `cid`. */
  function Own(events: seq<Event>, cid: u32): (n: nat) {
    if events == [] then 0 else
    Own(events[..|events| - 1], cid) + (if events[|events| - 1].Next? && events[|events| - 1].cid == cid then 1 else 0)
  }

  /** When channel `cid` was last answered: at the opening or by its last continuation. */
  function LastAnswer(events: seq<Event>, cid: u32, start: int): (t: int) {
    if events == [] then start
    else if events[|events| - 1].Next? && events[|events| - 1].cid == cid then events[|events| - 1].env.now
    else LastAnswer(events[..|events| - 1], cid, start)
  }

  /** Nothing stands in the way of answering e with c but the clock: it is well formed,
      not stopped early, of the same user and session, and signing, counting and sending
      work. */
  ghost predicate Served(w: World, e: Event, c: StoredCredential, binding: Binding) {
    && e.Next? && !e.env.stoppedEarly && !e.extraBytes && !e.env.tooLarge
    && e.env.user.Some? && e.env.user.value.Bound() == binding
    && Signed(w.sys, c, binding.uid, e.env).1
  }

  /** The events after an opening: GetNextAssertion commands only, none stopped early;
      those on the channel come at most 30 s after the answer before, and nothing else
      stands in their way while a credential is left. */
  ghost predicate Continues(
      w: World, events: seq<Event>, cid: u32, binding: Binding, start: int, list: seq<StoredCredential>)
  {
    forall n :: 0 <= n < |events| ==> ContinuesAt(w, events, n, cid, binding, start, list)
  }

  ghost predicate ContinuesAt(
      w: World, events: seq<Event>, n: nat, cid: u32, binding: Binding, start: int, list: seq<StoredCredential>)
    requires n < |events|
  {
    var e, sent := events[n], 1 + Own(events[..n], cid);
    && e.Next? && !e.env.stoppedEarly
    && (e.cid == cid && sent < |list| ==>
          && Served(Run(w, events[..n]), e, list[sent], binding)
          && e.env.now - LastAnswer(events[..n], cid, start) <= Seq.TIMEOUT)
  }

  /** `sent` of the credentials in `list` are in the log; the rest wait for the channel
      and the user of the opening, timed from the last answer. */
  ghost predicate Progress(
      w: World, before: seq<Emission>, list: seq<StoredCredential>, sent: nat, cid: u32, binding: Binding, last: int)
  {
    && sent <= |list|
    && Creds(w.log) == Creds(before) + list[..sent]
    && Seq.Remaining(w.handler.pending) == list[sent..]
    && (Seq.Live(w.handler.pending) <==> sent < |list|)
    && (Seq.Live(w.handler.pending) ==>
          && w.handler.pending.originCid == cid && w.opening.Some?
          && w.handler.pending.owner == Some(binding) && w.handler.pending.lastUse == last)
  }

  lemma OpeningProgress(w: World, cid: u32, q: Request, env: Env)
    requires Inv(w) && cid != 0 && q.allow == []
    requires Respond(w, Get(cid, Some(q), env)).response.Answer?
    ensures env.user.Some?
    ensures NewestFirst(Found(w.sys.mem.stored, q.rpId, [], env.user.value.uid), w.sys.mem.stored, q.rpId, env.user.value.uid)
    ensures Progress(Step(w, Get(cid, Some(q), env)), w.log,
      Found(w.sys.mem.stored, q.rpId, [], env.user.value.uid), 1, cid, env.user.value.Bound(), env.now)
  {
    hide StorageOk, LogMarked, Increasing, LogHonest, Attached, MirrorsStore, FirstAnswer, Found, NewestFirst, Creds;
    var user := env.user.value;
    FoundNewestFirst(w.sys.mem.stored, w.sys.mem.generation, q.rpId, user.uid);
    var list := Found(w.sys.mem.stored, q.rpId, [], user.uid);
    FirstAnswerShape(w.sys, cid, q, user, list, env);
    var t := Step(w, Get(cid, Some(q), env));
    CredsAppend(w.log, t.log[|w.log|]);
    assert list[..1] == [list[0]];
  }

  lemma FirstAnswerShape(s: Sys, cid: u32, q: Request, user: UserContext, list: seq<StoredCredential>, env: Env)
    requires list != [] && q.allow == [] && cid != 0
    requires FirstAnswer(s, cid, q, user, list, env).response.Answer?
    ensures var out := FirstAnswer(s, cid, q, user, list, env);
      var p := out.handler.pending;
      && out.response.a.cred == list[0]
      && Seq.Remaining(p) == list[1..]
      && (Seq.Live(p) <==> |list| > 1)
      && (Seq.Live(p) ==> p.originCid == cid && p.owner == Some(user.Bound()) && p.lastUse == env.now)
  {
    hide Signed, Seq.Begun;
    Seq.BegunIff(cid, user, list[1..], env.now);
  }

  lemma CredsAppend(log: seq<Emission>, e: Emission)
    ensures Creds(log + [e]) == Creds(log) + [e.a.cred]
  {
    assert (log + [e])[..|log|] == log;
  }

  /** With a credential left, a GetNextAssertion of the channel is answered exactly if
      nothing else stands in its way and it comes at most 30 s after the last answer;
      then with the next credential of the list. One that is only late is refused with
      NOT_ALLOWED, and ends the sequence. */
  lemma OwnNextIff(
      w: World, before: seq<Emission>, list: seq<StoredCredential>, sent: nat, cid: u32, binding: Binding, last: int, e: Event)
    requires Progress(w, before, list, sent, cid, binding, last) && sent < |list| && e.Next? && e.cid == cid
    ensures var out := Respond(w, e);
      && (out.response.Answer? <==> Served(w, e, list[sent], binding) && e.env.now - last <= Seq.TIMEOUT)
      && (out.response.Answer? ==> out.response.a.cred == list[sent])
      && (Served(w, e, list[sent], binding) && e.env.now - last > Seq.TIMEOUT ==>
            out == Outcome(w.sys, Fresh(), Refused(NOT_ALLOWED)))
  {
    hide Signed, Creds, Seq.Advanced, Seq.Remaining;
    assert list[sent..][0] == list[sent];
    assert e == Next(cid, e.extraBytes, e.env);
    NextAnsweredIff(w, cid, e.extraBytes, e.env);
    if e.env.user.Some? {
      Seq.AdvancedIff(w.handler.pending, cid, e.env.user.value, e.env.now);
      var (pending, c) := Seq.Advanced(w.handler.pending, cid, e.env.user.value, e.env.now);
      assert c.Some? ==> c.value == list[sent];
    }
  }

  lemma OwnProgress(
      w: World, before: seq<Emission>, list: seq<StoredCredential>, sent: nat, cid: u32, binding: Binding, last: int, e: Event)
    requires Progress(w, before, list, sent, cid, binding, last) && sent < |list| && e.Next? && e.cid == cid
    requires Respond(w, e).response.Answer?
    ensures Progress(Step(w, e), before, list, sent + 1, cid, binding, e.env.now)
  {
    hide Signed, Creds, Seq.Advanced, Seq.Remaining;
    assert list[sent..][0] == list[sent] && list[sent..][1..] == list[sent + 1..];
    Seq.AdvancedIff(w.handler.pending, cid, e.env.user.value, e.env.now);
    var (pending, c) := Seq.Advanced(w.handler.pending, cid, e.env.user.value, e.env.now);
    assert c.Some? && c.value == list[sent];
    CredsAppend(w.log, Step(w, e).log[|w.log|]);
    assert list[..sent + 1] == list[..sent] + [list[sent]];
    assert Creds(before) + list[..sent] + [list[sent]] == Creds(before) + list[..sent + 1];
  }

  /** Another channel, or a channel whose list is finished: refused, nothing changes. */
  lemma OtherProgress(
      w: World, before: seq<Emission>, list: seq<StoredCredential>, sent: nat, cid: u32, binding: Binding, last: int, e: Event)
    requires Progress(w, before, list, sent, cid, binding, last) && e.Next? && !e.env.stoppedEarly
    requires e.cid != cid || sent == |list|
    ensures Respond(w, e) == Outcome(w.sys, w.handler, Refused(NOT_ALLOWED))
    ensures forall later :: later == last || sent == |list| ==>
      Progress(Step(w, e), before, list, sent, cid, binding, later)
  {
    hide Signed, Creds;
  }

  function Sent(events: seq<Event>, cid: u32, list: seq<StoredCredential>): (n: nat) {
    if 1 + Own(events, cid) < |list| then 1 + Own(events, cid) else |list|
  }

  lemma {:induction false} RunProgress(
      w: World, before: seq<Emission>, list: seq<StoredCredential>, cid: u32, binding: Binding, start: int, events: seq<Event>)
    requires Progress(w, before, list, 1, cid, binding, start) && Continues(w, events, cid, binding, start, list)
    ensures Progress(Run(w, events), before, list, Sent(events, cid, list), cid, binding, LastAnswer(events, cid, start))
  {
    hide Step, Respond, ContinuesAt;
    if events == [] {
    } else {
      var n := |events| - 1;
      forall m | 0 <= m < n ensures ContinuesAt(w, events[..n], m, cid, binding, start, list) {
        ContinuesBefore(w, events, m, cid, binding, start, list);
      }
      RunProgress(w, before, list, cid, binding, start, events[..n]);
      assert ContinuesAt(w, events, n, cid, binding, start, list);
      LastProgress(w, before, list, cid, binding, start, events);
    }
  }

  lemma ContinuesBefore(
      w: World, events: seq<Event>, m: nat, cid: u32, binding: Binding, start: int, list: seq<StoredCredential>)
    requires m < |events| - 1 && ContinuesAt(w, events, m, cid, binding, start, list)
    ensures ContinuesAt(w, events[..|events| - 1], m, cid, binding, start, list)
  {
    hide Run, Served, Own, LastAnswer;
    assert events[..|events| - 1][..m] == events[..m];
  }

  lemma LastProgress(
      w: World, before: seq<Emission>, list: seq<StoredCredential>, cid: u32, binding: Binding, start: int, events: seq<Event>)
    requires events != [] && ContinuesAt(w, events, |events| - 1, cid, binding, start, list)
    requires var front := events[..|events| - 1];
      Progress(Run(w, front), before, list, Sent(front, cid, list), cid, binding, LastAnswer(front, cid, start))
    ensures Progress(Run(w, events), before, list, Sent(events, cid, list), cid, binding, LastAnswer(events, cid, start))
  {
    hide Progress, Step, Respond, Served;
    var front, e := events[..|events| - 1], events[|events| - 1];
    var last := LastAnswer(front, cid, start);
    if e.cid == cid && 1 + Own(front, cid) < |list| {
      OwnNextIff(Run(w, front), before, list, Sent(front, cid, list), cid, binding, last, e);
      OwnProgress(Run(w, front), before, list, Sent(front, cid, list), cid, binding, last, e);
    } else {
      OtherProgress(Run(w, front), before, list, Sent(front, cid, list), cid, binding, last, e);
    }
  }

  lemma ProgressEnds(
      w: World, before: seq<Emission>, list: seq<StoredCredential>, sent: nat, cid: u32, binding: Binding, last: int)
    requires Progress(w, before, list, sent, cid, binding, last)
    ensures sent <= |list| && Creds(w.log) == Creds(before) + list[..sent]
    ensures sent == |list| ==>
      forall e: Event :: e.Next? && !e.env.stoppedEarly ==> Respond(w, e) == Outcome(w.sys, w.handler, Refused(NOT_ALLOWED))
  {
  }

  /** The situation of the next two theorems: after any run, an answered GetAssertion
      with an empty allow list, then continuations as the caller can arrange them. */
  ghost predicate Arranged(events: seq<Event>, cid: u32, q: Request, env: Env, after: seq<Event>) {
    var w := Run(Start(), events);
    && cid != 0 && q.allow == [] && Respond(w, Get(cid, Some(q), env)).response.Answer? && env.user.Some?
    && Continues(Step(w, Get(cid, Some(q), env)), after, cid, env.user.value.Bound(), env.now,
         Found(w.sys.mem.stored, q.rpId, [], env.user.value.uid))
  }

  lemma ArrangedProgress(events: seq<Event>, cid: u32, q: Request, env: Env, after: seq<Event>)
    requires Arranged(events, cid, q, env, after)
    ensures var w := Run(Start(), events);
      var list := Found(w.sys.mem.stored, q.rpId, [], env.user.value.uid);
      && NewestFirst(list, w.sys.mem.stored, q.rpId, env.user.value.uid)
      && Progress(Run(Step(w, Get(cid, Some(q), env)), after), w.log, list, Sent(after, cid, list), cid,
           env.user.value.Bound(), LastAnswer(after, cid, env.now))
  {
    hide Inv, Found, NewestFirst, Step, Run, Progress, Respond, Continues, Creds;
    var w := Run(Start(), events);
    RunKeeps(events);
    OpeningProgress(w, cid, q, env);
    var list := Found(w.sys.mem.stored, q.rpId, [], env.user.value.uid);
    RunProgress(Step(w, Get(cid, Some(q), env)), w.log, list, cid, env.user.value.Bound(), env.now, after);
  }

  /** A GetAssertion with an empty allow list, then GetNextAssertion commands of the same
      channel, user and session at most 30 s apart, with any number of foreign ones in
      between and nothing failing: the answers are the newest-first list, each credential
      once and in order; after the last one every GetNextAssertion is refused with
      NOT_ALLOWED. */
  lemma SequenceIsTheList(events: seq<Event>, cid: u32, q: Request, env: Env, after: seq<Event>)
    requires Arranged(events, cid, q, env, after)
    ensures var w := Run(Start(), events);
      var uid := env.user.value.uid;
      var list := Found(w.sys.mem.stored, q.rpId, [], uid);
      var t := Run(Step(w, Get(cid, Some(q), env)), after);
      && NewestFirst(list, w.sys.mem.stored, q.rpId, uid)
      && Creds(t.log) == Creds(w.log) + list[..Sent(after, cid, list)]
      && (Sent(after, cid, list) == |list| ==>
            forall e: Event :: e.Next? && !e.env.stoppedEarly ==> Respond(t, e) == Outcome(t.sys, t.handler, Refused(NOT_ALLOWED)))
  {
    hide Continues, Found, NewestFirst, Step, Run, Progress, Respond, Creds;
    ArrangedProgress(events, cid, q, env, after);
    var w := Run(Start(), events);
    var list := Found(w.sys.mem.stored, q.rpId, [], env.user.value.uid);
    ProgressEnds(Run(Step(w, Get(cid, Some(q), env)), after), w.log, list, Sent(after, cid, list), cid,
      env.user.value.Bound(), LastAnswer(after, cid, env.now));
  }

  /** In that situation, with credentials left, the next request of the channel gets the
      next credential if and only if it comes at most 30 s after the answer before it,
      the opening included, and nothing else stands in its way. */
  lemma NextInTimeIff(events: seq<Event>, cid: u32, q: Request, env: Env, after: seq<Event>, e: Event)
    requires Arranged(events, cid, q, env, after) && e.Next? && e.cid == cid
    requires 1 + Own(after, cid) < |Found(Run(Start(), events).sys.mem.stored, q.rpId, [], env.user.value.uid)|
    ensures var w := Run(Start(), events);
      var c := Found(w.sys.mem.stored, q.rpId, [], env.user.value.uid)[1 + Own(after, cid)];
      var t := Run(Step(w, Get(cid, Some(q), env)), after);
      var out := Respond(t, e);
      && (out.response.Answer? <==>
            && Served(t, e, c, env.user.value.Bound())
            && e.env.now - LastAnswer(after, cid, env.now) <= 30_000_000_000)
      && (out.response.Answer? ==> out.response.a.cred == c)
  {
    hide Continues, Found, NewestFirst, Step, Run, Progress, Respond, Served, Creds;
    ArrangedProgress(events, cid, q, env, after);
    var w := Run(Start(), events);
    var list := Found(w.sys.mem.stored, q.rpId, [], env.user.value.uid);
    OwnNextIff(Run(Step(w, Get(cid, Some(q), env)), after), w.log, list, 1 + Own(after, cid), cid,
      env.user.value.Bound(), LastAnswer(after, cid, env.now), e);
  }
}
