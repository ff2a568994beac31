/** Whole runs of the store: any sequence of operations and loads with any I/O
    outcomes, process exits and power losses. A crash inside a save is that save
    cut short by an I/O failure and followed by a halt (CutShort), so no separate
    event is needed for it. */
module StoreRuns {
  import opened Base
  import opened Credentials
  import opened StoreDocument
  import opened StoreProtocol

  datatype Event =
    | Save(change: Change, io: SaveIo)
    | LoadStore(loadIo: LoadIo)
    | Halt(crash: Crash)

  /** The state with its history: the file the counter last moved to, and the last
      generation and map that a call returning normally left in memory. */
  datatype World = World(sys: Sys, base: Option<Image>, acknowledged: u64, acked: Storage)

  function Start(): (w: World) {
    World(Sys(Device(None, {None}, 0), FreshMemory()), None, 0, map[])
  }

  ghost function Perform(s: Sys, e: Event): (r: (Sys, bool)) {
    match e
    case Save(change, io) => Operate(s, change, io)
    case LoadStore(io) => Load(s, io)
    case Halt(crash) => (Sys(AfterCrash(s.dev, crash), FreshMemory()), false)
  }

  ghost function Step(w: World, e: Event): (r: World) {
    var (t, returned) := Perform(w.sys, e);
    World(t,
      if t.dev.counter != w.sys.dev.counter then t.dev.visible else w.base,
      if returned then t.mem.generation else w.acknowledged,
      if returned then t.mem.stored else w.acked)
  }

  ghost function Run(w: World, events: seq<Event>): (r: World) {
    if events == [] then w else Step(Run(w, events[..|events| - 1]), events[|events| - 1])
  }

  // ----- every crash point is covered -----

  /** I/O outcomes that stop a save after exactly `k` of its three effects. */
  function StopAfter(io: SaveIo, k: nat): (r: SaveIo)
    requires k <= 3
  {
    match k
    case 0 => io.(write := NotRenamed)
    case 1 => io.(write := NotSynced)
    case 2 => io.(write := NotClosed)
    case 3 => io.(write := Written, bump := ReplyLost, retryRead := false)
  }

  /** Dying after any number of a save's effects is the failing save that stops
      there, then the death. */
  lemma CutShort(s: Sys, change: Change, io: SaveIo, k: nat, crash: Crash)
    requires k <= 3 && !s.mem.requiresReload
    requires Target(s.mem.stored, s.mem.generation, change).Ok?
    requires MayWrite(s, Target(s.mem.stored, s.mem.generation, change).value, io)
    ensures var image := Image(s.dev.counter + 1, io.doc, io.size);
      var stopped := Perform(s, Save(change, StopAfter(io, k)));
      && !stopped.1
      && Perform(stopped.0, Halt(crash)).0
         == Sys(AfterCrash(SaveEffects(s.dev, image, k), crash), FreshMemory())
  {
    hide Dumps, PutTarget, EraseTarget, IncrementTarget;
    var target := Target(s.mem.stored, s.mem.generation, change).value;
    assert MayWrite(s, target, StopAfter(io, k));
  }

  // ----- the generation relation -----

  ghost predicate Sound(image: Option<Image>, gen: u64) {
    && Generation(image) == gen
    && (image.Some? ==> gen > 0)
    && Content(image).Some?
    && StorageOk(Content(image).value, gen)
  }

  /** Every file that may be on disk is the base file, at the counter, or a newer
      file exactly one ahead; memory that a commit could build on is the base. */
  ghost predicate Good(w: World) {
    var d, m := w.sys.dev, w.sys.mem;
    && d.visible in d.images
    && Sound(w.base, d.counter)
    && (forall i :: i in d.images ==> i == w.base || OneAhead(d, i))
    && m.generation <= d.counter
    && StorageOk(m.stored, m.generation)
    && (m.generation == d.counter && !m.requiresReload ==> Content(w.base) == Some(m.stored))
    && w.acknowledged <= d.counter
    && (w.acknowledged == d.counter ==> Content(w.base) == Some(w.acked))
  }

  ghost predicate OneAhead(d: Device, image: Option<Image>) {
    image.Some? && d.counter < MAX_U64 && Sound(image, d.counter + 1)
  }

  /** The only file that can survive is the one a read returns. */
  predicate Settled(d: Device) {
    d.images == {d.visible}
  }

  /** A load that moves the counter. */
  predicate Recovers(s: Sys, e: Event) {
    e.LoadStore? && Load(s, e.loadIo).0.dev.counter != s.dev.counter
  }

  lemma StartGood()
    ensures Good(Start())
  {
    EmptyOk(0);
  }

  lemma CommitGood(w: World, change: Change, io: SaveIo)
    requires Good(w)
    ensures Good(Step(w, Save(change, io)))
  {
    hide StorageOk, ParseStorage, Dumps, Target;
    var s := w.sys;
    var target := Target(s.mem.stored, s.mem.generation, change);
    if !s.mem.requiresReload && target.Ok? && MayWrite(s, target.value, io) && !io.write.NotRenamed? {
      TargetOk(s.mem.stored, s.mem.generation, change);
      ParseAcceptsDump(io.doc, target.value);
      var image := Some(Image(s.dev.counter + 1, io.doc, io.size));
      assert Sound(image, s.dev.counter + 1);
      WrittenGood(w, target.value, io);
    }
  }

  /** The effects of a save whose target map is sound, case by case. */
  lemma WrittenGood(w: World, storage: Storage, io: SaveIo)
    requires Good(w) && MayWrite(w.sys, storage, io) && !io.write.NotRenamed?
    requires StorageOk(storage, w.sys.dev.counter + 1)
    requires ParseStorage(io.doc) == Some(storage)
    ensures var (t, ok) := Commit(w.sys, storage, io);
      Good(World(t, if t.dev.counter != w.sys.dev.counter then t.dev.visible else w.base,
        if ok then t.mem.generation else w.acknowledged, if ok then t.mem.stored else w.acked))
  {
    hide StorageOk, ParseStorage, Dumps, Target;
    var (t, ok) := Commit(w.sys, storage, io);
    assert StorageOk(w.sys.mem.stored, w.sys.mem.generation);
  }

  lemma HaltGood(w: World, crash: Crash)
    requires Good(w)
    ensures Good(Step(w, Halt(crash)))
  {
    hide StorageOk, ParseStorage, Dumps, Target;
    EmptyOk(0);
  }

  lemma LoadGood(w: World, io: LoadIo)
    requires Good(w) && (Recovers(w.sys, LoadStore(io)) ==> Settled(w.sys.dev))
    ensures Good(Step(w, LoadStore(io)))
  {
    hide StorageOk, ParseStorage, Dumps, Target;
    var d := w.sys.dev;
    assert d.visible == w.base || OneAhead(d, d.visible);
  }

  /** Every event keeps the relation, if a counter-moving load finds a settled
      directory. */
  lemma StepGood(w: World, e: Event)
    requires Good(w) && (Recovers(w.sys, e) ==> Settled(w.sys.dev))
    ensures Good(Step(w, e))
  {
    match e
    case Save(change, io) => CommitGood(w, change, io);
    case LoadStore(io) => LoadGood(w, io);
    case Halt(crash) => HaltGood(w, crash);
  }

  /** The condition is exact: a recovery on an unsettled directory leaves a file
      behind the counter, or two different files at it. */
  lemma RecoveryGoodIff(w: World, e: Event)
    requires Good(w) && Recovers(w.sys, e)
    ensures Good(Step(w, e)) <==> Settled(w.sys.dev)
  {
    hide StorageOk, ParseStorage, Dumps, Target;
    var d := w.sys.dev;
    if Settled(d) {
      StepGood(w, e);
    } else {
      var t := Step(w, e);
      assert t.base == d.visible && t.sys.dev.images == d.images;
      var i :| i in d.images && i != d.visible;
      assert i == w.base || OneAhead(d, i);
      assert !OneAhead(t.sys.dev, i);
    }
  }

  ghost predicate GoodThroughout(w: World, events: seq<Event>) {
    forall n :: 0 <= n <= |events| ==> Good(Run(w, events[..n]))
  }

  /** No load in the run moves the counter while the directory is unsettled. */
  ghost predicate RecoversSettled(w: World, events: seq<Event>) {
    forall n :: 0 <= n < |events| && Recovers(Run(w, events[..n]).sys, events[n])
      ==> Settled(Run(w, events[..n]).sys.dev)
  }

  lemma RunPrefix(w: World, events: seq<Event>, n: nat)
    requires n < |events|
    ensures Run(w, events[..n + 1]) == Step(Run(w, events[..n]), events[n])
  {
    assert events[..n + 1][..n] == events[..n];
  }

  /** In every run the relation holds in every state if and only if every recovery
      found a settled directory. */
  lemma {:induction false} GoodThroughoutIff(w: World, events: seq<Event>)
    requires Good(w)
    ensures GoodThroughout(w, events) <==> RecoversSettled(w, events)
  {
    if GoodThroughout(w, events) {
      forall n | 0 <= n < |events| && Recovers(Run(w, events[..n]).sys, events[n])
        ensures Settled(Run(w, events[..n]).sys.dev)
      {
        RunPrefix(w, events, n);
        assert Good(Run(w, events[..n])) && Good(Run(w, events[..n + 1]));
        RecoveryGoodIff(Run(w, events[..n]), events[n]);
      }
    }
    if RecoversSettled(w, events) {
      forall n | 0 <= n <= |events| ensures Good(Run(w, events[..n])) {
        SettledRunGood(w, events, n);
      }
    }
  }

  lemma {:induction false} SettledRunGood(w: World, events: seq<Event>, n: nat)
    requires Good(w) && RecoversSettled(w, events) && n <= |events|
    ensures Good(Run(w, events[..n]))
  {
    hide Good, Step, Recovers, Settled;
    if n == 0 {
    } else {
      SettledRunGood(w, events, n - 1);
      RunPrefix(w, events, n - 1);
      StepGood(Run(w, events[..n - 1]), events[n - 1]);
    }
  }

  // ----- rollback protection, in all runs -----

  lemma CounterMonotone(s: Sys, e: Event)
    ensures s.dev.counter <= Perform(s, e).0.dev.counter
    ensures Perform(s, e).1 ==> Perform(s, e).0.mem.generation == Perform(s, e).0.dev.counter
  {
  }

  lemma {:induction false} AcknowledgedBelowCounter(w: World, events: seq<Event>)
    requires w.acknowledged <= w.sys.dev.counter
    ensures w.acknowledged <= Run(w, events).acknowledged <= Run(w, events).sys.dev.counter
    ensures w.sys.dev.counter <= Run(w, events).sys.dev.counter
  {
    if events == [] {
    } else {
      var front := events[..|events| - 1];
      AcknowledgedBelowCounter(w, front);
      CounterMonotone(Run(w, front).sys, events[|events| - 1]);
    }
  }

  /** Once a commit of some generation has returned, no load in any continuation,
      settled or not, accepts an older file. */
  lemma NoRollback(w: World, events: seq<Event>, io: LoadIo)
    requires w.acknowledged <= w.sys.dev.counter
    requires Load(Run(w, events).sys, io).1
    ensures Load(Run(w, events).sys, io).0.mem.generation >= w.acknowledged
    ensures Generation(Run(w, events).sys.dev.visible) >= w.acknowledged
  {
    AcknowledgedBelowCounter(w, events);
    LoadSucceedsIff(Run(w, events).sys, io);
  }

  /** After an interrupted commit, whatever is tried next is refused; only a
      successful load, or a new process, makes the store usable again. */
  lemma ReloadOnly(w: World, e: Event)
    requires w.sys.mem.requiresReload && !Step(w, e).sys.mem.requiresReload
    ensures e.Halt? || (e.LoadStore? && Load(w.sys, e.loadIo).1)
  {
  }
}
