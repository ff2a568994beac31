/** The client's tracker of the daemon's interaction events, and how it fares on what
    the registry publishes to one agent generation. */
module InteractionTracker {
  import opened Base
  import opened Users
  import opened InteractionRegistry

  datatype Event = Event(generation: u64, requestId: u64, promptId: u64, state: InteractionState)

  datatype Tracker = Tracker(generation: u64, active: Option<u64>, prompt: u64)

  function New(generation: u64): (t: Tracker) {
    Tracker(generation, None, 0)
  }

  predicate Accepts(t: Tracker, e: Event) {
    && e.generation == t.generation && e.requestId != 0
    && (e.state.SecretRequired? <==> e.promptId != 0)
    && (t.active == Some(e.requestId) || (t.active.None? && StartState(e.state)))
    && (e.state.SecretRequired? ==> e.promptId != t.prompt)
  }

  function Accept(t: Tracker, e: Event): (r: Tracker) {
    if !Accepts(t, e) then t
    else if Terminal(e.state) then Tracker(t.generation, None, 0)
    else Tracker(t.generation, Some(e.requestId), e.promptId)
  }

  function Feed(t: Tracker, events: seq<Event>): (r: Tracker) {
    if events == [] then t else Accept(Feed(t, events[..|events| - 1]), events[|events| - 1])
  }

  /** The tracker object of the client. */
  class Client {
    const generation: u64
    var activeRequestId: Option<u64>
    var activePromptId: u64

    constructor (g: u64)
      ensures State() == New(g)
    {
      generation := g;
      activeRequestId := None;
      activePromptId := 0;
    }

    function State(): (t: Tracker)
      reads this
    {
      Tracker(generation, activeRequestId, activePromptId)
    }

    method Receive(e: Event) returns (ok: bool)
      modifies this
      ensures ok == Accepts(old(State()), e)
      ensures State() == Accept(old(State()), e)
    {
      if e.generation != generation || e.requestId == 0 {
        return false;
      }
      if e.state.SecretRequired? != (e.promptId != 0) {
        return false;
      }
      if StartState(e.state) {
        if activeRequestId.Some? && activeRequestId.value != e.requestId {
          return false;
        }
        activeRequestId := Some(e.requestId);
      } else if activeRequestId.None? || activeRequestId.value != e.requestId {
        return false;
      }
      if e.state.SecretRequired? {
        if e.promptId == activePromptId {
          return false;
        }
        activePromptId := e.promptId;
      } else {
        activePromptId := 0;
      }
      if Terminal(e.state) {
        activeRequestId := None;
        activePromptId := 0;
      }
      return true;
    }
  }

  /** Events the tracker never accepts, whatever it has seen: of another generation,
      without a request, or with a prompt exactly where none belongs. */
  predicate Misfit(e: Event, generation: u64) {
    || e.generation != generation || e.requestId == 0
    || (e.promptId != 0 && e.state != SecretRequired) || (e.promptId == 0 && e.state == SecretRequired)
  }

  /** The events that are not misfits, in order. */
  function Fitting(events: seq<Event>, generation: u64): (r: seq<Event>) {
    if events == [] then []
    else
      var e := events[|events| - 1];
      Fitting(events[..|events| - 1], generation) + (if Misfit(e, generation) then [] else [e])
  }

  /** Misfits are rejected and leave no trace: among any events the tracker is where the
      others alone would have brought it. */
  lemma {:induction false} MisfitsLeaveNoTrace(g: u64, events: seq<Event>)
    ensures Feed(New(g), events) == Feed(New(g), Fitting(events, g)) && Feed(New(g), events).generation == g
    ensures forall e :: Misfit(e, g) ==> !Accepts(Feed(New(g), events), e)
  {
    if events == [] {
    } else {
      var front, e := events[..|events| - 1], events[|events| - 1];
      MisfitsLeaveNoTrace(g, front);
      var f := Fitting(front, g);
      if Misfit(e, g) {
        assert Fitting(events, g) == f;
      } else {
        assert (f + [e])[..|f|] == f;
      }
    }
  }

  /** Of the others, a start is accepted with no request or the same one active, any
      other state only for the active request, and a prompt only once. */
  lemma FittingAcceptedIff(t: Tracker, e: Event)
    requires !Misfit(e, t.generation)
    ensures Accepts(t, e) <==>
      && (if e.state in {PresenceRequired, VerificationStarted} then t.active.None? || t.active.value == e.requestId
          else t.active == Some(e.requestId))
      && (e.promptId != 0 ==> e.promptId != t.prompt)
    ensures Accepts(t, e) ==>
      var over := e.state in {PresenceApproved, PresenceDenied, VerificationSucceeded, VerificationFailed, Cancelled, TimedOut};
      Accept(t, e) == Tracker(t.generation, if over then None else Some(e.requestId), if over then 0 else e.promptId)
  {
  }

  // ----- what the registry publishes to one agent -----

  /** The events sent to the agent bound as b, in order. */
  function EventsFor(log: seq<Entry>, b: Binding): (es: seq<Event>) {
    if log == [] then []
    else
      var e := log[|log| - 1];
      EventsFor(log[..|log| - 1], b) +
      (if e.Published? && e.user == b then [Event(GenerationOf(b), e.id, e.prompt, e.s)] else [])
  }

  function GenerationOf(b: Binding): (g: u64) {
    if b.session.Some? then b.session.value.generation else 0
  }

  /** How an event of one agent follows the one before it: it goes on with the same
      request, or it starts a later one. */
  predicate Follows(p: Event, e: Event) {
    && (e.promptId != 0 ==> p.promptId < e.promptId)
    && (if p.requestId == e.requestId then ValidTransition(Some(p.state), e.state)
        else p.requestId < e.requestId && StartState(e.state))
  }

  ghost predicate Shaped(es: seq<Event>, g: u64) {
    es != [] ==>
      var before, e := es[..|es| - 1], es[|es| - 1];
      && Shaped(before, g)
      && e.generation == g && e.requestId != 0 && (e.state.SecretRequired? <==> e.promptId != 0)
      && (if before == [] then StartState(e.state) else Follows(before[|before| - 1], e))
  }

  /** No request is followed by another before it reached a terminal state. */
  ghost predicate Orderly(es: seq<Event>) {
    |es| >= 2 ==>
      && Orderly(es[..|es| - 1])
      && (es[|es| - 2].requestId != es[|es| - 1].requestId ==> Terminal(es[|es| - 2].state))
  }

  /** Every event was accepted when it came. */
  ghost predicate AllAccepted(es: seq<Event>, g: u64) {
    es != [] ==>
      && AllAccepted(es[..|es| - 1], g)
      && Accepts(Feed(New(g), es[..|es| - 1]), es[|es| - 1])
  }

  /** The tracker as long as the events were orderly. */
  lemma {:induction false} FeedOrderly(es: seq<Event>, g: u64)
    requires Shaped(es, g) && Orderly(es)
    ensures Feed(New(g), es) ==
      if es == [] || Terminal(es[|es| - 1].state) then New(g)
      else Tracker(g, Some(es[|es| - 1].requestId), es[|es| - 1].promptId)
  {
    if es == [] {
    } else {
      FeedOrderly(es[..|es| - 1], g);
    }
  }

  lemma {:induction false} ShapedPrefix(es: seq<Event>, g: u64, n: nat)
    requires Shaped(es, g) && n <= |es|
    ensures Shaped(es[..n], g)
  {
    if n < |es| {
      ShapedPrefix(es[..|es| - 1], g, n);
      assert es[..|es| - 1][..n] == es[..n];
    } else {
      assert es[..n] == es;
    }
  }

  lemma {:induction false} RequestsGrow(es: seq<Event>, g: u64, i: nat)
    requires Shaped(es, g) && i < |es|
    ensures es[i].requestId <= es[|es| - 1].requestId
  {
    if i == |es| - 1 {
    } else {
      RequestsGrow(es[..|es| - 1], g, i);
    }
  }

  /** Where the order first breaks the tracker stops for good: it goes on waiting for
      the end of the request that was left. */
  lemma {:induction false} Stuck(es: seq<Event>, g: u64, k: nat)
    requires Shaped(es, g) && 0 < k < |es| && Orderly(es[..k])
    requires es[k - 1].requestId != es[k].requestId && !Terminal(es[k - 1].state)
    ensures Feed(New(g), es) == Tracker(g, Some(es[k - 1].requestId), es[k - 1].promptId)
    ensures !Accepts(Feed(New(g), es[..|es| - 1]), es[|es| - 1])
  {
    var before := es[..|es| - 1];
    if k == |es| - 1 {
      FeedOrderly(before, g);
    } else {
      assert before[..k] == es[..k];
      Stuck(before, g, k);
      RequestsGrow(es, g, k);
      ShapedPrefix(es, g, k + 1);
      assert es[..k + 1][..k] == es[..k];
    }
  }

  /** The first place where the order breaks. */
  lemma {:induction false} FirstBreak(es: seq<Event>) returns (k: nat)
    requires !Orderly(es)
    ensures 0 < k < |es| && Orderly(es[..k])
    ensures es[k - 1].requestId != es[k].requestId && !Terminal(es[k - 1].state)
  {
    var before := es[..|es| - 1];
    if Orderly(before) {
      k := |es| - 1;
    } else {
      k := FirstBreak(before);
      assert before[..k] == es[..k];
    }
  }

  /** An event is accepted exactly when all events up to it are orderly. */
  lemma AcceptedIff(es: seq<Event>, g: u64)
    requires Shaped(es, g) && es != []
    ensures Accepts(Feed(New(g), es[..|es| - 1]), es[|es| - 1]) <==> Orderly(es)
  {
    if Orderly(es) {
      FeedOrderly(es[..|es| - 1], g);
    } else {
      var k := FirstBreak(es);
      Stuck(es, g, k);
    }
  }

  lemma {:induction false} AllAcceptedIsOrderly(es: seq<Event>, g: u64)
    requires Shaped(es, g)
    ensures AllAccepted(es, g) <==> Orderly(es)
  {
    if es == [] {
    } else {
      AllAcceptedIsOrderly(es[..|es| - 1], g);
      AcceptedIff(es, g);
    }
  }

  // ----- what the registry publishes is shaped, and when it is orderly -----

  /** The interaction whose last published state the agent still shows is the current
      one of the registry, or it was closed without a terminal state. */
  ghost predicate Linked(w: World, b: Binding) {
    var es := EventsFor(w.log, b);
    && Shaped(es, GenerationOf(b))
    && (es != [] ==>
          es[|es| - 1].requestId < w.reg.nextRequestId && es[|es| - 1].promptId < w.reg.nextPromptId)
    && (w.reg.current.Some? ==>
          var c := w.reg.current.value;
          if c.user == b && c.state.Some? then
            es != [] && es[|es| - 1].requestId == c.requestId && es[|es| - 1].state == c.state.value
          else es != [] ==> es[|es| - 1].requestId < c.requestId)
  }

  /** The agent was left with a request that is over but has shown no terminal state. */
  ghost predicate Dangling(w: World, b: Binding) {
    var es := EventsFor(w.log, b);
    && es != [] && !Terminal(es[|es| - 1].state)
    && !(w.reg.current.Some? && w.reg.current.value.requestId == es[|es| - 1].requestId)
  }

  /** The call takes away b's interaction after it showed a state, and shows no
      terminal one. */
  predicate SilentlyCloses(r: Registry, c: Call, b: Binding) {
    && r.current.Some? && r.current.value.user == b && r.current.value.state.Some?
    && (c.DoEnd? || c.DoClearFor?) && Apply(r, c).0.current.None?
  }

  lemma EventsStep(w: World, c: Call, b: Binding)
    ensures var e := Apply(w.reg, c).1;
      EventsFor(Step(w, c).log, b) == EventsFor(w.log, b) +
        (if e.Some? && e.value.Published? && e.value.user == b
         then [Event(GenerationOf(b), e.value.id, e.value.prompt, e.value.s)] else [])
  {
    hide Apply;
    var e := Apply(w.reg, c).1;
    if e.Some? {
      assert (w.log + [e.value])[..|w.log|] == w.log;
    }
  }

  lemma ShapedAppend(es: seq<Event>, e: Event, g: u64)
    requires Shaped(es, g) && e.generation == g && e.requestId != 0
    requires e.state.SecretRequired? <==> e.promptId != 0
    requires if es == [] then StartState(e.state) else Follows(es[|es| - 1], e)
    ensures Shaped(es + [e], g)
  {
    assert (es + [e])[..|es|] == es;
  }

  /** What becomes of the current interaction in a call that publishes nothing to b. */
  lemma QuietCurrent(r: Registry, c: Call, b: Binding)
    requires PendingOk(r)
    requires var e := Apply(r, c).1; !(e.Some? && e.value.Published? && e.value.user == b)
    ensures var t := Apply(r, c).0;
      && t.nextRequestId >= r.nextRequestId && t.nextPromptId >= r.nextPromptId
      && (t.current.Some? ==>
            var d := t.current.value;
            if r.current.Some? then
              && d.requestId == r.current.value.requestId && d.user == r.current.value.user
              && (d.user == b ==> d.state == r.current.value.state)
            else d.requestId == r.nextRequestId && d.state.None?)
      && (SilentlyCloses(r, c, b) <==>
            r.current.Some? && r.current.value.user == b && r.current.value.state.Some? && t.current.None?)
  {
    hide ValidTransition, SameUser;
    if r.current.Some? {
      SameUserIsBinding(r.current.value.user, c.u);
    }
  }

  /** A call that publishes nothing to b. */
  lemma QuietKeeps(w: World, c: Call, b: Binding)
    requires PendingOk(w.reg) && Linked(w, b)
    requires var e := Apply(w.reg, c).1; !(e.Some? && e.value.Published? && e.value.user == b)
    ensures EventsFor(Step(w, c).log, b) == EventsFor(w.log, b)
    ensures Linked(Step(w, c), b)
    ensures Dangling(Step(w, c), b) <==> Dangling(w, b) || SilentlyCloses(w.reg, c, b)
  {
    hide Shaped, EventsFor, Apply, SilentlyCloses;
    EventsStep(w, c, b);
    QuietCurrent(w.reg, c, b);
  }

  /** A call that publishes to b. */
  lemma PublishKeeps(w: World, c: Call, b: Binding)
    requires PendingOk(w.reg) && Linked(w, b)
    requires var e := Apply(w.reg, c).1; e.Some? && e.value.Published? && e.value.user == b
    ensures EventsFor(Step(w, c).log, b) != EventsFor(w.log, b)
    ensures Linked(Step(w, c), b) && !Dangling(Step(w, c), b) && !SilentlyCloses(w.reg, c, b)
    ensures Orderly(EventsFor(Step(w, c).log, b)) <==> Orderly(EventsFor(w.log, b)) && !Dangling(w, b)
  {
    hide Shaped, EventsFor, SameUser;
    var es, e := EventsFor(w.log, b), Apply(w.reg, c).1.value;
    var ev := Event(GenerationOf(b), e.id, e.prompt, e.s);
    EventsStep(w, c, b);
    SameUserIsBinding(w.reg.current.value.user, c.u);
    ShapedAppend(es, ev, GenerationOf(b));
    assert (es + [ev])[..|es|] == es;
  }

  lemma {:induction false} RunLinked(calls: seq<Call>, b: Binding)
    ensures Linked(Run(calls), b)
  {
    if calls == [] {
    } else {
      var w, c := Run(calls[..|calls| - 1]), calls[|calls| - 1];
      RunLinked(calls[..|calls| - 1], b);
      RunKeeps(calls[..|calls| - 1]);
      hide Linked, Step, Apply, PendingOk, ResponsesOk, HeldOk, IdsOk, SecretsOk;
      var e := Apply(w.reg, c).1;
      if e.Some? && e.value.Published? && e.value.user == b {
        PublishKeeps(w, c, b);
      } else {
        QuietKeeps(w, c, b);
      }
    }
  }

  /** Some interaction of b was closed silently. */
  ghost predicate Silenced(calls: seq<Call>, b: Binding) {
    calls != [] &&
    var before := calls[..|calls| - 1];
    Silenced(before, b) || SilentlyCloses(Run(before).reg, calls[|calls| - 1], b)
  }

  /** Nothing was published to b after such a close. */
  ghost predicate NothingAfter(calls: seq<Call>, b: Binding) {
    calls != [] ==>
      var before := calls[..|calls| - 1];
      && NothingAfter(before, b)
      && (Silenced(before, b) ==> EventsFor(Run(calls).log, b) == EventsFor(Run(before).log, b))
  }

  lemma {:induction false} OrderlyIff(calls: seq<Call>, b: Binding)
    ensures Orderly(EventsFor(Run(calls).log, b)) <==> NothingAfter(calls, b)
    ensures NothingAfter(calls, b) ==> (Silenced(calls, b) <==> Dangling(Run(calls), b))
  {
    if calls == [] {
    } else {
      var before := calls[..|calls| - 1];
      var w, c := Run(before), calls[|calls| - 1];
      OrderlyIff(before, b);
      RunLinked(before, b);
      RunKeeps(before);
      hide Linked, Step, Apply, PendingOk, ResponsesOk, HeldOk, IdsOk, SecretsOk, Dangling, Orderly, SilentlyCloses;
      var e := Apply(w.reg, c).1;
      if e.Some? && e.value.Published? && e.value.user == b {
        PublishKeeps(w, c, b);
      } else {
        QuietKeeps(w, c, b);
      }
    }
  }

  /** Over every run of the registry, the client of one agent generation accepts every
      event it is sent if and only if nothing is sent to it after one of its
      interactions was closed silently. */
  lemma AllAcceptedIff(calls: seq<Call>, b: Binding)
    ensures AllAccepted(EventsFor(Run(calls).log, b), GenerationOf(b)) <==> NothingAfter(calls, b)
  {
    RunLinked(calls, b);
    OrderlyIff(calls, b);
    AllAcceptedIsOrderly(EventsFor(Run(calls).log, b), GenerationOf(b));
  }

  /** The order broke right after the first k events. */
  predicate BrokenAt(es: seq<Event>, k: nat) {
    0 < k < |es| && es[k - 1].requestId != es[k].requestId
  }

  /** The agent had seen events d when it was left dangling; the next one breaks the order. */
  ghost predicate LeftBehind(d: seq<Event>, w: World, b: Binding) {
    var es := EventsFor(w.log, b);
    d <= es && if es == d then Dangling(w, b) else BrokenAt(es, |d|)
  }

  lemma LeftBehindStep(d: seq<Event>, w: World, c: Call, b: Binding)
    requires PendingOk(w.reg) && Linked(w, b) && LeftBehind(d, w, b)
    ensures LeftBehind(d, Step(w, c), b)
  {
    hide Shaped, EventsFor, SameUser, ValidTransition;
    EventsStep(w, c, b);
    var e := Apply(w.reg, c).1;
    if e.Some? && e.value.Published? && e.value.user == b {
      SameUserIsBinding(w.reg.current.value.user, c.u);
    } else {
      QuietKeeps(w, c, b);
    }
  }

  lemma {:induction false} StaysLeftBehind(calls: seq<Call>, more: seq<Call>, b: Binding)
    requires Dangling(Run(calls), b)
    ensures LeftBehind(EventsFor(Run(calls).log, b), Run(calls + more), b)
  {
    if more == [] {
      assert calls + more == calls;
    } else {
      var before, c := more[..|more| - 1], more[|more| - 1];
      StaysLeftBehind(calls, before, b);
      RunLinked(calls + before, b);
      RunKeeps(calls + before);
      RunSnoc(calls + before, c);
      assert (calls + before) + [c] == calls + more;
      hide Run, EventsFor, Linked, LeftBehind, Apply, Step, Dangling, PendingOk, ResponsesOk, HeldOk, IdsOk, SecretsOk;
      LeftBehindStep(EventsFor(Run(calls).log, b), Run(calls + before), c, b);
    }
  }

  /** After a silent close the client accepts nothing more in that generation. */
  lemma RejectedFromThenOn(calls: seq<Call>, more: seq<Call>, b: Binding)
    requires AllAccepted(EventsFor(Run(calls).log, b), GenerationOf(b)) && Silenced(calls, b)
    requires |EventsFor(Run(calls).log, b)| < |EventsFor(Run(calls + more).log, b)|
    ensures var es, g := EventsFor(Run(calls + more).log, b), GenerationOf(b);
      !Accepts(Feed(New(g), es[..|es| - 1]), es[|es| - 1])
  {
    hide Run, EventsFor, NothingAfter, Silenced, AllAccepted, Feed, Accepts, Shaped, Orderly, GenerationOf;
    var d, es, g := EventsFor(Run(calls).log, b), EventsFor(Run(calls + more).log, b), GenerationOf(b);
    AllAcceptedIff(calls, b);
    OrderlyIff(calls, b);
    StaysLeftBehind(calls, more, b);
    RunLinked(calls + more, b);
    assert es[..|d|] == d;
    Stuck(es, g, |d|);
  }
}
