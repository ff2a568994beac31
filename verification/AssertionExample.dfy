/** A run in which a foreign GetNextAssertion, stopped before the handler is entered,
    takes another channel's sequence away. */
module AssertionExample {
  import opened Base
  import opened Users
  import opened Credentials
  import opened StoreDocument
  import opened StoreProtocol
  import opened StoreSanity
  import opened AssertionMatches
  import opened CommandHandler
  import opened AssertionRuns
  import Seq = AssertionSequence
  import Hex

  lemma {:induction false} SomeWalk(s: Storage, left: set<Key>) returns (keys: seq<Key>)
    requires left <= s.Keys
    ensures |keys| == |left|
    ensures forall k :: k in keys <==> k in left
    ensures forall i, j :: 0 <= i < j < |keys| ==> keys[i] != keys[j]
    decreases left
  {
    if left == {} {
      keys := [];
    } else {
      var k :| k in left;
      keys := SomeWalk(s, left - {k});
      keys := keys + [k];
    }
  }

  /** Every map has a document. */
  lemma SomeDocument(s: Storage) returns (doc: Json)
    ensures Dumps(doc, s)
  {
    var keys := SomeWalk(s, s.Keys);
    doc := Arr(seq(|keys|, i requires 0 <= i < |keys| => EntryOf(if keys[i] in s then s[keys[i]] else Example(0))));
    assert DumpsBy(doc, s, keys);
  }

  /** An operation on a ready store works when nothing fails. */
  lemma WorkingSave(s: Sys, change: Change) returns (io: SaveIo)
    requires Sane(s) && !s.mem.requiresReload && s.dev.counter == s.mem.generation < MAX_U64
    requires Target(s.mem.stored, s.mem.generation, change).Ok?
    ensures Operate(s, change, io).1
    ensures var t := Operate(s, change, io).0;
      && Sane(t) && t.mem == Memory(Target(s.mem.stored, s.mem.generation, change).value, s.mem.generation + 1, false)
      && t.dev.counter == t.mem.generation
  {
    hide Target, Dumps, StorageOk, ParseStorage;
    var doc := SomeDocument(Target(s.mem.stored, s.mem.generation, change).value);
    io := SaveIo(true, doc, 0, Written, Moved, true, true);
    SaveSane(s, change, io);
  }

  function Zeros(n: nat): (s: seq<byte>)
    ensures |s| == n
  {
    seq(n, _ => 0)
  }

  /** A discoverable credential for user b at one relying party. */
  function Example(b: byte): (c: StoredCredential) {
    StoredCredential([b] + Zeros(15), 7, [1], [b], [], [], -7, 0, [1], [1], true, 1)
  }

  function User(): (u: UserContext) {
    UserContext(7, [], None)
  }

  function Question(): (q: Request) {
    Request([1], [], true, false, None)
  }

  function Calm(io: SaveIo): (env: Env) {
    Env(false, Some(User()), Answered.Approved, true, io, false, 0)
  }

  /** The store after registering both credentials. */
  function Both(): (s: Storage) {
    map[KeyOf(Example(1).id) := Registered(Example(1), 7, 0), KeyOf(Example(2).id) := Registered(Example(2), 7, 1)]
  }

  lemma KeysDiffer()
    ensures KeyOf(Example(1).id) != KeyOf(Example(2).id)
  {
    Hex.DecodeEncode(Example(1).id);
    Hex.DecodeEncode(Example(2).id);
    assert Example(1).id[0] != Example(2).id[0];
  }

  lemma Targets()
    ensures PutTarget(map[], 0, Example(1), 7) == Ok(map[KeyOf(Example(1).id) := Registered(Example(1), 7, 0)])
    ensures PutTarget(map[KeyOf(Example(1).id) := Registered(Example(1), 7, 0)], 1, Example(2), 7) == Ok(Both())
  {
    KeysDiffer();
    hide KeyOf;
    var one := map[KeyOf(Example(1).id) := Registered(Example(1), 7, 0)];
    assert WithoutAccount(map[], Registered(Example(1), 7, 0)) == map[];
    assert WithoutAccount(one, Registered(Example(2), 7, 1)) == one;
  }

  lemma RunSnoc(events: seq<Event>, e: Event)
    ensures Run(Start(), events + [e]) == Step(Run(Start(), events), e)
  {
    assert (events + [e])[..|events|] == events;
  }

  ghost predicate Holds(s: Sys, stored: Storage, gen: u64) {
    Sane(s) && s.mem == Memory(stored, gen, false) && s.dev.counter == gen
  }

  lemma Registration(events: seq<Event>, s: Storage, gen: u64, b: byte) returns (e: Event)
    requires Holds(Run(Start(), events).sys, s, gen) && gen < MAX_U64 && PutTarget(s, gen, Example(b), 7).Ok?
    ensures Holds(Run(Start(), events + [e]).sys, PutTarget(s, gen, Example(b), 7).value, gen + 1)
  {
    hide PutTarget, Operate, Sane, Run;
    var w := Run(Start(), events);
    var io := WorkingSave(w.sys, Put(Example(b), 7));
    e := Make(Example(b), 7, true, io);
    RunSnoc(events, e);
  }

  /** Two registrations lead from the start to a store with both credentials. */
  lemma Registrations() returns (events: seq<Event>)
    ensures Holds(Run(Start(), events).sys, Both(), 2)
  {
    StartSane();
    Targets();
    hide PutTarget, Both, Sane;
    assert Holds(Run(Start(), []).sys, map[], 0);
    var e1 := Registration([], map[], 0, 1);
    var e2 := Registration([] + [e1], map[KeyOf(Example(1).id) := Registered(Example(1), 7, 0)], 1, 2);
    events := [] + [e1] + [e2];
  }

  lemma BothFound(gen: u64)
    requires StorageOk(Both(), gen)
    ensures var list := Found(Both(), [1], [], 7);
      && |list| > 1 && (forall c :: c in list ==> KeyOf(c.id) in Both() && Both()[KeyOf(c.id)] == c && c.ownerUid == 7 && c.signCount == 0)
  {
    KeysDiffer();
    hide KeyOf, StorageOk, Found;
    FoundNewestFirst(Both(), gen, [1], 7);
    FoundCurrent(Both(), gen, [1], [], 7);
    var list := Found(Both(), [1], [], 7);
    var a, b := Registered(Example(1), 7, 0), Registered(Example(2), 7, 1);
    assert Both()[KeyOf(Example(1).id)] == a && Both()[KeyOf(Example(2).id)] == b;
    assert Offered(a, Both(), [1], 7) && Offered(b, Both(), [1], 7);
    assert a in list && b in list && a != b;
  }

  /** Signing with the first match works, and the other is the user's own. */
  lemma Signing(s: Sys) returns (io: SaveIo)
    requires Holds(s, Both(), 2)
    ensures var list := Found(Both(), [1], [], 7);
      && |list| > 1 && Signed(s, list[0], 7, Calm(io)).1
      && forall now :: Seq.Begun(1, User(), list[1..], now).Some?
  {
    hide Both, Found, Operate, StorageOk, KeyOf;
    BothFound(2);
    var list := Found(Both(), [1], [], 7);
    assert list[0] in list;
    io := WorkingSave(s, Increment(list[0].id, 7));
    forall i | 0 <= i < |list[1..]| ensures list[1..][i].ownerUid == 7 {
      assert list[1..][i] in list;
    }
  }

  /** A GetAssertion on channel 1 is answered and leaves a live sequence. */
  lemma Opening(w: World) returns (e: Event)
    requires Inv(w) && Holds(w.sys, Both(), 2)
    ensures var p := Step(w, e).handler.pending; Seq.Live(p) && p.originCid == 1
  {
    hide Inv, Both, Found, Signed, Step, Respond, Sane, Seq.Begun, Creds, NewestFirst;
    var io := Signing(w.sys);
    e := Get(1, Some(Question()), Calm(io));
    GetAnsweredIff(w, 1, Some(Question()), Calm(io));
    OpeningProgress(w, 1, Question(), Calm(io));
  }

  lemma Opened() returns (events: seq<Event>)
    ensures var p := Run(Start(), events).handler.pending; Seq.Live(p) && p.originCid == 1
  {
    hide Inv, Step, Run, Holds;
    var before := Registrations();
    RunKeeps(before);
    var e := Opening(Run(Start(), before));
    RunSnoc(before, e);
    events := before + [e];
  }

  /** That foreign requests never disturb a sequence is false: in this run channel 2
      asks, is stopped before its handler is entered, and channel 1's sequence is gone. */
  lemma ForeignStopDisturbs() returns (events: seq<Event>, e: Event)
    ensures var w := Run(Start(), events);
      && Seq.Live(w.handler.pending) && w.handler.pending.originCid == 1
      && e.Next? && e.cid == 2 && !Seq.Live(Step(w, e).handler.pending)
  {
    events := Opened();
    var io := SaveIo(true, Null, 0, Written, Moved, true, true);
    e := Next(2, false, Calm(io).(stoppedEarly := true));
  }
}
