/** What holds of the store in every run without any condition: each file that may
    survive is well formed at its own generation, and a signature count that was
    reported can never be seen smaller again. */
module StoreSanity {
  import opened Base
  import opened Credentials
  import opened StoreDocument
  import opened StoreProtocol
  import opened StoreRuns
  import Hex

  ghost predicate Sane(s: Sys) {
    && s.dev.visible in s.dev.images
    && (forall i :: i in s.dev.images ==> Sound(i, Generation(i)))
    && s.mem.generation <= s.dev.counter
    && StorageOk(s.mem.stored, s.mem.generation)
  }

  lemma StartSane()
    ensures Sane(Start().sys)
  {
    EmptyOk(0);
  }

  lemma SaveSane(s: Sys, change: Change, io: SaveIo)
    requires Sane(s)
    ensures Sane(Operate(s, change, io).0)
  {
    hide StorageOk, ParseStorage, Dumps, Target;
    var target := Target(s.mem.stored, s.mem.generation, change);
    if !s.mem.requiresReload && target.Ok? && MayWrite(s, target.value, io) {
      TargetOk(s.mem.stored, s.mem.generation, change);
      SavedImageSound(io.doc, io.size, target.value, s.dev.counter + 1);
    }
  }

  lemma SavedImageSound(doc: Json, size: nat, storage: Storage, gen: u64)
    requires Dumps(doc, storage) && StorageOk(storage, gen) && gen > 0
    ensures ParseStorage(doc) == Some(storage)
    ensures Sound(Some(Image(gen, doc, size)), gen)
  {
    ParseAcceptsDump(doc, storage);
  }

  lemma LoadSane(s: Sys, io: LoadIo)
    requires Sane(s)
    ensures Sane(Load(s, io).0)
  {
    hide StorageOk, ParseStorage;
  }

  lemma HaltSane(s: Sys, crash: Crash)
    requires Sane(s)
    ensures Sane(Perform(s, Halt(crash)).0)
  {
    hide StorageOk, ParseStorage;
    EmptyOk(0);
  }

  lemma StepSane(s: Sys, e: Event)
    requires Sane(s)
    ensures Sane(Perform(s, e).0)
  {
    hide Sane, Operate, Load, AfterCrash;
    match e
    case Save(change, io) => SaveSane(s, change, io);
    case LoadStore(io) => LoadSane(s, io);
    case Halt(crash) => HaltSane(s, crash);
  }

  /** In every run, the map in memory and the map of every file that may survive
      have unique IDs, at most 4096 entries, distinct creation orders not above
      their generation and one discoverable credential for each account. */
  lemma {:induction false} EveryRunSane(events: seq<Event>)
    ensures Sane(Run(Start(), events).sys)
  {
    if events == [] {
      StartSane();
    } else {
      var front := events[..|events| - 1];
      EveryRunSane(front);
      StepSane(Run(Start(), front).sys, events[|events| - 1]);
    }
  }

  // ----- signature counts -----

  /** A reported count: registration `order` of credential `key` signed with `count`. */
  datatype Mark = Mark(key: Key, order: u64, count: u32)

  /** The map does not contradict the mark: that registration is gone or its count
      is at least the reported one. */
  predicate Covers(s: Storage, m: Mark) {
    m.key in s && s[m.key].creationOrder == m.order ==> s[m.key].signCount >= m.count
  }

  /** Everything a later operation or load could start from covers the mark. */
  ghost predicate Marked(s: Sys, m: Mark) {
    && m.order <= s.dev.counter
    && (forall i :: i in s.dev.images && Generation(i) >= s.dev.counter && Content(i).Some?
          ==> Covers(Content(i).value, m))
    && (s.mem.generation == s.dev.counter && !s.mem.requiresReload ==> Covers(s.mem.stored, m))
  }

  /** No change to the map lowers the count of a registration it keeps. */
  lemma TargetCovers(s: Storage, gen: u64, change: Change, m: Mark)
    requires Covers(s, m) && m.order <= gen && Target(s, gen, change).Ok?
    ensures Covers(Target(s, gen, change).value, m)
  {
    hide ValidCredential, Hex.Encode;
  }

  lemma SaveMarked(s: Sys, change: Change, io: SaveIo, m: Mark)
    requires Sane(s) && Marked(s, m)
    ensures Marked(Operate(s, change, io).0, m)
  {
    hide StorageOk, ParseStorage, Dumps, Target, Covers;
    var target := Target(s.mem.stored, s.mem.generation, change);
    if !s.mem.requiresReload && target.Ok? && MayWrite(s, target.value, io) {
      TargetOk(s.mem.stored, s.mem.generation, change);
      SavedImageSound(io.doc, io.size, target.value, s.dev.counter + 1);
      TargetCovers(s.mem.stored, s.mem.generation, change, m);
    }
  }

  lemma LoadMarked(s: Sys, io: LoadIo, m: Mark)
    requires Sane(s) && Marked(s, m)
    ensures Marked(Load(s, io).0, m)
  {
    hide StorageOk, ParseStorage, Covers;
  }

  lemma HaltMarked(s: Sys, crash: Crash, m: Mark)
    requires Marked(s, m)
    ensures Marked(Perform(s, Halt(crash)).0, m)
  {
    hide ParseStorage;
  }

  lemma StepMarked(s: Sys, e: Event, m: Mark)
    requires Sane(s) && Marked(s, m)
    ensures Marked(Perform(s, e).0, m)
  {
    hide Sane, Marked, Operate, Load, AfterCrash;
    match e
    case Save(change, io) => SaveMarked(s, change, io, m);
    case LoadStore(io) => LoadMarked(s, io, m);
    case Halt(crash) => HaltMarked(s, crash, m);
  }

  // ----- what an operation leaves when it returns -----

  /** Memory and the only file that can survive hold the map m, at one generation. */
  ghost predicate Stored(s: Sys, t: Sys, m: Storage) {
    && t.mem.stored == m && t.mem.generation == s.dev.counter + 1 && !t.mem.requiresReload
    && t.dev.images == {t.dev.visible} && Content(t.dev.visible) == Some(m)
    && Generation(t.dev.visible) == t.dev.counter == s.dev.counter + 1
  }

  lemma OperationReturns(s: Sys, change: Change, io: SaveIo)
    requires Sane(s) && Operate(s, change, io).1
    ensures var target := Target(s.mem.stored, s.mem.generation, change);
      target.Ok? && Stored(s, Operate(s, change, io).0, target.value)
  {
    hide StorageOk, ParseStorage, Dumps, Target;
    TargetOk(s.mem.stored, s.mem.generation, change);
    CommitIsDurable(s, Target(s.mem.stored, s.mem.generation, change).value, io);
  }

  /** Once an erase has returned, the credential of that ID, which belonged to that
      owner, is gone from memory and from the only file that can survive; every other
      credential is there unchanged. */
  lemma EraseReturns(s: Sys, id: seq<byte>, owner: u32, io: SaveIo)
    requires Sane(s) && Operate(s, Erase(id, owner), io).1
    ensures var t := Operate(s, Erase(id, owner), io).0;
      var m := t.mem.stored;
      && Owns(s.mem.stored, id, owner) && Stored(s, t, m)
      && !HasId(m, id)
      && (forall k :: k in s.mem.stored && s.mem.stored[k].id != id ==> k in m && m[k] == s.mem.stored[k])
      && (forall k :: k in m ==> k in s.mem.stored)
  {
    hide Operate, StorageOk, Owns, HasId;
    OperationReturns(s, Erase(id, owner), io);
    EraseExactly(s.mem.stored, s.mem.generation, id, owner);
  }

  lemma ClearReturns(s: Sys, io: SaveIo)
    requires Sane(s) && Operate(s, Clear, io).1
    ensures Stored(s, Operate(s, Clear, io).0, map[])
  {
    hide Operate, StorageOk;
    OperationReturns(s, Clear, io);
  }

  /** Once a registration has returned, the new credential is stored as given, with its
      owner and the generation as its creation order; what it replaces is gone, at most
      one; every other credential is there unchanged. */
  lemma PutReturns(s: Sys, cred: StoredCredential, owner: u32, io: SaveIo)
    requires Sane(s) && Operate(s, Put(cred, owner), io).1
    ensures var t := Operate(s, Put(cred, owner), io).0;
      var m, k := t.mem.stored, KeyOf(cred.id);
      && Stored(s, t, m)
      && k !in s.mem.stored && k in m && m[k] == cred.(ownerUid := owner, creationOrder := t.mem.generation)
      && (forall l :: l in s.mem.stored ==> (l in m <==> !Replaces(cred, owner, s.mem.stored[l])))
      && (forall l :: l in m && l != k ==> l in s.mem.stored && m[l] == s.mem.stored[l])
  {
    hide StorageOk, PutTarget, Replaces, KeyOf, Dumps, ParseStorage;
    OperationReturns(s, Put(cred, owner), io);
    PutReplacesOne(s.mem.stored, s.mem.generation, cred, owner);
  }

  /** A count update that returns has raised the count by one in memory and in the
      only file that can survive, above every count reported before; the new count
      becomes a mark of its own. */
  lemma IncrementReturns(s: Sys, id: seq<byte>, owner: u32, io: SaveIo)
    requires Sane(s) && Operate(s, Increment(id, owner), io).1
    ensures var t := Operate(s, Increment(id, owner), io).0;
      var k := KeyOf(id);
      && k in s.mem.stored && s.mem.stored[k].ownerUid == owner && s.mem.stored[k].signCount < MAX_U32
      && t.mem.stored == s.mem.stored[k := s.mem.stored[k].(signCount := s.mem.stored[k].signCount + 1)]
      && t.dev.images == {t.dev.visible} && Content(t.dev.visible) == Some(t.mem.stored)
      && Generation(t.dev.visible) == t.dev.counter == t.mem.generation == s.dev.counter + 1
      && Marked(t, Mark(k, s.mem.stored[k].creationOrder, s.mem.stored[k].signCount + 1))
      && forall m :: Marked(s, m) && m.key == k && m.order == s.mem.stored[k].creationOrder
           ==> m.count <= s.mem.stored[k].signCount
  {
    hide StorageOk, ParseStorage, Dumps;
    var k := KeyOf(id);
    TargetOk(s.mem.stored, s.mem.generation, Increment(id, owner));
    var target := Target(s.mem.stored, s.mem.generation, Increment(id, owner)).value;
    CommitIsDurable(s, target, io);
    assert s.mem.stored[k].creationOrder <= s.mem.generation by {
      OrderWithin(s.mem.stored, s.mem.generation, k);
    }
  }

  lemma OrderWithin(s: Storage, gen: u64, k: Key)
    requires StorageOk(s, gen) && k in s
    ensures s[k].creationOrder <= gen && WellKeyed(s, k)
  {
  }
}
