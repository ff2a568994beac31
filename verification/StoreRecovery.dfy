/** What survives a power loss, and what the next load makes of it: over every run
    from an empty machine. */
module StoreRecovery {
  import opened Base
  import opened Credentials
  import opened StoreDocument
  import opened StoreProtocol
  import opened StoreRuns
  import opened StoreSanity

  // ----- every file comes from a save -----

  /** Event n is a save that got as far as writing the file i. */
  ghost predicate SavedAt(events: seq<Event>, n: nat, i: Image) {
    n < |events| && events[n].Save? &&
    var s, io := Run(Start(), events[..n]).sys, events[n].io;
    var target := Target(s.mem.stored, s.mem.generation, events[n].change);
    && target.Ok? && MayWrite(s, target.value, io) && !io.write.NotRenamed?
    && i == Image(s.dev.counter + 1, io.doc, io.size)
    && Content(Some(i)) == Some(target.value)
  }

  ghost predicate WasSaved(events: seq<Event>, i: Image) {
    exists n: nat :: SavedAt(events, n, i)
  }

  lemma SavedBefore(events: seq<Event>, e: Event, i: Image)
    requires WasSaved(events, i)
    ensures WasSaved(events + [e], i)
  {
    var n: nat :| SavedAt(events, n, i);
    assert (events + [e])[..n] == events[..n];
    assert SavedAt(events + [e], n, i);
  }

  /** The one file a step can add to those that may survive is the one its save wrote. */
  lemma StepAdds(s: Sys, e: Event, i: Image)
    requires Some(i) in Perform(s, e).0.dev.images && Some(i) !in s.dev.images && s.dev.visible in s.dev.images
    ensures e.Save?
    ensures var target := Target(s.mem.stored, s.mem.generation, e.change);
      && target.Ok? && MayWrite(s, target.value, e.io) && !e.io.write.NotRenamed?
      && i == Image(s.dev.counter + 1, e.io.doc, e.io.size)
  {
    hide Target, Dumps, ParseStorage;
  }

  /** In every run, each file that may survive was written by a save of that run: it is
      one above the counter of its time and holds the map that save was to store. */
  lemma {:induction false} SurvivorWasSaved(events: seq<Event>, i: Image)
    requires Some(i) in Run(Start(), events).sys.dev.images
    ensures WasSaved(events, i)
  {
    if events == [] {
      assert false;
    } else {
      var front, e := events[..|events| - 1], events[|events| - 1];
      var s := Run(Start(), front).sys;
      assert front + [e] == events;
      EveryRunSane(front);
      if Some(i) in s.dev.images {
        SurvivorWasSaved(front, i);
        SavedBefore(front, e, i);
      } else {
        StepAdds(s, e, i);
        SaveIsSound(s, e.change, e.io);
        assert SavedAt(events, |front|, i);
      }
    }
  }

  lemma SaveIsSound(s: Sys, change: Change, io: SaveIo)
    requires Sane(s) && Target(s.mem.stored, s.mem.generation, change).Ok?
    requires MayWrite(s, Target(s.mem.stored, s.mem.generation, change).value, io)
    ensures ParseStorage(io.doc) == Some(Target(s.mem.stored, s.mem.generation, change).value)
  {
    hide Target, Dumps, StorageOk, ParseStorage;
    TargetOk(s.mem.stored, s.mem.generation, change);
    SavedImageSound(io.doc, io.size, Target(s.mem.stored, s.mem.generation, change).value, s.dev.counter + 1);
  }

  // ----- which survivors load -----

  /** The file is at the counter or one ahead of it. */
  predicate Near(d: Device, i: Option<Image>) {
    Generation(i) == d.counter || Generation(i) == d.counter + 1
  }

  predicate Fits(i: Option<Image>) {
    i.None? || i.value.size <= MAX_STORE_SIZE
  }

  function Flawless(): (io: LoadIo) {
    LoadIo(true, true, Moved, true)
  }

  /** In every run, whichever file survives a power loss: the next load takes it if and
      only if it is at the counter or one ahead and within the size that load accepts,
      which save does not look at. Then its map is the one the file was saved with, and
      file, counter and memory agree; otherwise no load takes it. */
  lemma SurvivorLoadsIff(events: seq<Event>, survivor: Option<Image>)
    requires survivor in Run(Start(), events).sys.dev.images
    ensures var s := Run(Start(), events).sys;
      var lost := Perform(s, Halt(PowerLoss(survivor))).0;
      var (t, ok) := Load(lost, Flawless());
      && (ok <==> Near(s.dev, survivor) && Fits(survivor))
      && (!ok ==> forall io :: !Load(lost, io).1)
      && (ok ==>
            && t.dev.counter == t.mem.generation == Generation(survivor)
            && Some(t.mem.stored) == Content(survivor) && StorageOk(t.mem.stored, t.mem.generation)
            && if survivor.None? then t.mem.stored == map[] else WasSaved(events, survivor.value))
  {
    hide StorageOk, ParseStorage, Run, WasSaved;
    var s := Run(Start(), events).sys;
    var lost := Perform(s, Halt(PowerLoss(survivor))).0;
    EveryRunSane(events);
    assert Sound(survivor, Generation(survivor));
    assert Acceptable(lost.dev) <==> Near(s.dev, survivor) && Fits(survivor);
    if survivor.Some? {
      SurvivorWasSaved(events, survivor.value);
    }
    forall io ensures Load(lost, io).1 ==> Acceptable(lost.dev) {
      LoadSucceedsIff(lost, io);
    }
  }

  // ----- when all of them load -----

  ghost predicate AllNear(d: Device) {
    forall i :: i in d.images ==> Near(d, i)
  }

  /** No file that may survive is still at the counter, so none is passed when the
      counter moves. */
  ghost predicate NonePassed(d: Device) {
    forall i :: i in d.images ==> Generation(i) != d.counter
  }

  /** One step keeps every survivor near the counter if and only if it is not a load
      that moves the counter past one. */
  lemma StepNearIff(s: Sys, e: Event)
    requires s.dev.visible in s.dev.images && AllNear(s.dev)
    ensures AllNear(Perform(s, e).0.dev) <==> (Recovers(s, e) ==> NonePassed(s.dev))
  {
    hide Target, Dumps, ParseStorage;
    var t := Perform(s, e).0;
    if Recovers(s, e) {
      assert t.dev.images == s.dev.images && t.dev.counter == s.dev.counter + 1;
      if !NonePassed(s.dev) {
        var i :| i in s.dev.images && Generation(i) == s.dev.counter;
        assert !Near(t.dev, i);
      }
    }
  }

  /** A settled directory is enough: the only file is the one the counter moves to. */
  lemma SettledIsNotPassed(s: Sys, e: Event)
    requires Recovers(s, e) && Settled(s.dev)
    ensures NonePassed(s.dev)
  {
  }

  ghost predicate NearThroughout(events: seq<Event>) {
    forall n :: 0 <= n <= |events| ==> AllNear(Run(Start(), events[..n]).sys.dev)
  }

  /** No load in the run moves the counter past a file that could still survive. */
  ghost predicate NeverPasses(events: seq<Event>) {
    forall n :: 0 <= n < |events| && Recovers(Run(Start(), events[..n]).sys, events[n])
      ==> NonePassed(Run(Start(), events[..n]).sys.dev)
  }

  lemma VisibleSurvives(events: seq<Event>)
    ensures Run(Start(), events).sys.dev.visible in Run(Start(), events).sys.dev.images
  {
    EveryRunSane(events);
  }

  /** In every run: all files that may survive are at the counter or one ahead in every
      state, so that each that fits is loadable, if and only if no load moved the
      counter past a file that could still survive. */
  lemma NearThroughoutIff(events: seq<Event>)
    ensures NearThroughout(events) <==> NeverPasses(events)
  {
    if NearThroughout(events) {
      forall n | 0 <= n < |events| && Recovers(Run(Start(), events[..n]).sys, events[n])
        ensures NonePassed(Run(Start(), events[..n]).sys.dev)
      {
        RunPrefix(Start(), events, n);
        VisibleSurvives(events[..n]);
        assert AllNear(Run(Start(), events[..n]).sys.dev) && AllNear(Run(Start(), events[..n + 1]).sys.dev);
        StepNearIff(Run(Start(), events[..n]).sys, events[n]);
      }
    }
    if NeverPasses(events) {
      forall n | 0 <= n <= |events| ensures AllNear(Run(Start(), events[..n]).sys.dev) {
        NeverPassingIsNear(events, n);
      }
    }
  }

  lemma StartNear()
    ensures AllNear(Run(Start(), []).sys.dev)
  {
  }

  lemma StepPerforms(w: World, e: Event)
    ensures Step(w, e).sys == Perform(w.sys, e).0
  {
  }

  lemma {:induction false} NeverPassingIsNear(events: seq<Event>, n: nat)
    requires NeverPasses(events) && n <= |events|
    ensures AllNear(Run(Start(), events[..n]).sys.dev)
  {
    hide AllNear, NonePassed, Recovers, Perform, Run, Step;
    if n == 0 {
      assert events[..0] == [];
      StartNear();
    } else {
      NeverPassingIsNear(events, n - 1);
      RunPrefix(Start(), events, n - 1);
      VisibleSurvives(events[..n - 1]);
      StepPerforms(Run(Start(), events[..n - 1]), events[n - 1]);
      StepNearIff(Run(Start(), events[..n - 1]).sys, events[n - 1]);
    }
  }

  // ----- what was acknowledged -----

  /** A map that a commit returned with: any file still loadable at its generation
      holds it, and so does memory at that generation. */
  ghost predicate Pinned(s: Sys, g: u64, m: Storage) {
    && g <= s.dev.counter
    && (s.dev.counter == g ==> forall i :: i in s.dev.images ==> Generation(i) == g + 1 || Content(i) == Some(m))
  }

  lemma StepPinned(s: Sys, e: Event, g: u64, m: Storage)
    requires s.dev.visible in s.dev.images && Pinned(s, g, m)
    ensures Pinned(Perform(s, e).0, g, m)
  {
    hide Target, Dumps, ParseStorage;
  }

  lemma {:induction false} RunPinned(w: World, events: seq<Event>, g: u64, m: Storage)
    requires Sane(w.sys) && Pinned(w.sys, g, m)
    ensures Sane(Run(w, events).sys) && Pinned(Run(w, events).sys, g, m)
  {
    if events == [] {
    } else {
      var front, e := events[..|events| - 1], events[|events| - 1];
      RunPinned(w, front, g, m);
      hide Pinned, Perform;
      StepSane(Run(w, front).sys, e);
      StepPinned(Run(w, front).sys, e, g, m);
    }
  }

  /** Once a commit has returned, every load in any continuation of any run, with any
      failures and crashes, either yields exactly the committed map or a file of a
      later generation. */
  lemma CommittedStays(events: seq<Event>, change: Change, io: SaveIo, more: seq<Event>, loadIo: LoadIo)
    requires Operate(Run(Start(), events).sys, change, io).1
    requires Load(Run(Start(), events + [Save(change, io)] + more).sys, loadIo).1
    ensures var t := Operate(Run(Start(), events).sys, change, io).0;
      var loaded := Load(Run(Start(), events + [Save(change, io)] + more).sys, loadIo).0;
      loaded.mem == t.mem || loaded.mem.generation > t.mem.generation
  {
    hide StorageOk, ParseStorage, Target, Dumps;
    var s, e := Run(Start(), events).sys, Save(change, io);
    var t := Operate(s, change, io).0;
    EveryRunSane(events);
    TargetOk(s.mem.stored, s.mem.generation, change);
    CommitIsDurable(s, Target(s.mem.stored, s.mem.generation, change).value, io);
    assert (events + [e])[..|events|] == events;
    StepSane(s, e);
    RunPinned(Run(Start(), events + [e]), more, t.mem.generation, t.mem.stored);
    RunAppend(events + [e], more);
    var last := Run(Start(), events + [e] + more).sys;
    LoadSucceedsIff(last, loadIo);
    assert last.dev.visible in last.dev.images;
  }

  lemma {:induction false} RunAppend(events: seq<Event>, more: seq<Event>)
    ensures Run(Start(), events + more) == Run(Run(Start(), events), more)
  {
    if more == [] {
      assert events + more == events;
    } else {
      RunAppend(events, more[..|more| - 1]);
      assert (events + more)[..|events + more| - 1] == events + more[..|more| - 1];
    }
  }

  /** If every recovery found a settled directory, the last map that a save or a load
      returned with is still there: anything else that can survive is the newer file
      of an interrupted save. */
  lemma AcknowledgedSurvives(events: seq<Event>, survivor: Option<Image>)
    requires RecoversSettled(Start(), events)
    requires survivor in Run(Start(), events).sys.dev.images
    requires Run(Start(), events).acknowledged == Run(Start(), events).sys.dev.counter
    ensures var w := Run(Start(), events);
      || Content(survivor) == Some(w.acked)
      || (Generation(survivor) == w.acknowledged + 1 && survivor.Some? && WasSaved(events, survivor.value))
  {
    StartGood();
    SettledRunGood(Start(), events, |events|);
    assert events[..|events|] == events;
    if survivor.Some? {
      SurvivorWasSaved(events, survivor.value);
    }
    hide WasSaved, Run, RecoversSettled;
    var w := Run(Start(), events);
    assert survivor == w.base || OneAhead(w.sys.dev, survivor);
  }

  // ----- the failing family, by example -----

  /** A save of the empty map whose directory fsync fails, and the file it leaves. */
  function FailedSave(): (e: Event) {
    Save(Clear, SaveIo(true, Arr([]), 0, NotSynced, Moved, true, true))
  }

  function LeftFile(): (i: Image) {
    Image(1, Arr([]), 0)
  }

  lemma FailedSaveLeavesTwo(w: World)
    requires w.sys == Start().sys
    ensures Step(w, FailedSave()).sys.dev == Device(Some(LeftFile()), {None, Some(LeftFile())}, 0)
  {
    assert DumpsBy(Arr([]), map[], []);
    assert Dumps(Arr([]), map[]);
  }

  lemma LoadTakesLeftFile(w: World, e: Event)
    requires w.sys.dev == Device(Some(LeftFile()), {None, Some(LeftFile())}, 0)
    requires e == LoadStore(LoadIo(true, true, Moved, true))
    ensures Step(w, e).sys.dev == Device(Some(LeftFile()), {None, Some(LeftFile())}, 1)
  {
    assert ParseEntries([]) == Some(map[]);
  }

  function LockOut(): (events: seq<Event>) {
    [FailedSave(), Halt(ProcessExit),
     LoadStore(LoadIo(true, true, Moved, true)), Halt(PowerLoss(None))]
  }

  lemma LockOutEnds()
    ensures Run(Start(), LockOut()).sys.dev == Device(None, {None}, 1)
  {
    hide Operate, Load;
    var e := LockOut();
    var w1 := Step(Start(), e[0]);
    FailedSaveLeavesTwo(Start());
    var w2 := Step(w1, e[1]);
    LoadTakesLeftFile(w2, e[2]);
    Unroll(e);
  }

  /** The unconditional claim is false. The directory fsync of a save fails, the
      process is restarted and its load moves the counter to the file it reads; a
      power loss then brings back the older directory, and no load accepts it. */
  lemma UnsettledRecoveryLocksOut()
    ensures !NearThroughout(LockOut())
    ensures forall io :: !Load(Run(Start(), LockOut()).sys, io).1
  {
    LockOutEnds();
    hide Run;
    var w := Run(Start(), LockOut());
    forall io ensures !Load(w.sys, io).1 {
      LoadSucceedsIff(w.sys, io);
    }
    assert LockOut()[..4] == LockOut();
    assert !Near(w.sys.dev, None);
  }

  lemma Unroll(events: seq<Event>)
    requires |events| == 4
    ensures Run(Start(), events)
         == Step(Step(Step(Step(Start(), events[0]), events[1]), events[2]), events[3])
  {
    var w := Start();
    assert events[..0] == [] && events[..4] == events;
    RunPrefix(w, events, 0);
    RunPrefix(w, events, 1);
    RunPrefix(w, events, 2);
    RunPrefix(w, events, 3);
  }
}
