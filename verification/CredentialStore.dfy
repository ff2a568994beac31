/** The credential store object. Each method is the source's sequence of steps and
    is proved to do to the machine and to memory exactly what the functions of
    StoreProtocol say, so that every theorem about runs is about these methods. */
module CredentialStore {
  import opened Base
  import opened Credentials
  import opened StoreDocument
  import opened StoreProtocol
  import opened AssertionMatches

  /** The store file and the rollback counter. */
  class Machine {
    var dev: Device

    constructor (dev: Device)
      ensures this.dev == dev
    {
      this.dev := dev;
    }

    method Rename(image: Image)
      modifies this
      ensures dev == Renamed(old(dev), image)
    {
      dev := dev.(visible := Some(image), images := dev.images + {Some(image)});
    }

    method SyncDirectory()
      modifies this
      ensures dev == Synced(old(dev))
    {
      dev := dev.(images := {dev.visible});
    }

    /** increment(): the flag says whether the call returned. */
    method Increment(outcome: BumpOutcome) returns (returned: bool)
      requires dev.counter < MAX_U64
      modifies this
      ensures dev == if outcome.Unmoved? then old(dev) else Advanced(old(dev))
      ensures returned <==> outcome.Moved?
    {
      if !outcome.Unmoved? {
        dev := dev.(counter := dev.counter + 1);
      }
      returned := outcome.Moved?;
    }
  }

  /** atomic_write_file: rename, then fsync and close of the directory. */
  method AtomicWrite(machine: Machine, image: Image, outcome: WriteOutcome) returns (ok: bool)
    requires machine.dev.counter < MAX_U64
    modifies machine
    ensures ok <==> outcome.Written?
    ensures machine.dev == SaveEffects(old(machine.dev), image,
      match outcome case NotRenamed => 0 case NotSynced => 1 case _ => 2)
  {
    if outcome.NotRenamed? {
      return false;
    }
    machine.Rename(image);
    if outcome.NotSynced? {
      return false;
    }
    machine.SyncDirectory();
    return outcome.Written?;
  }

  class Store {
    var stored: Storage
    var generation: u64
    var requiresReload: bool
    const machine: Machine

    constructor (machine: Machine)
      ensures this.machine == machine && Mem() == FreshMemory()
    {
      stored := map[];
      generation := 0;
      requiresReload := false;
      this.machine := machine;
    }

    function Mem(): (m: Memory)
      reads this
    {
      Memory(stored, generation, requiresReload)
    }

    function State(): (s: Sys)
      reads this, machine
    {
      Sys(machine.dev, Mem())
    }

    /** save_storage. `doc` is the document it built, in the order the hash map was
        walked; the map in memory is left for the caller to swap. */
    method SaveStorage(storage: Storage, io: SaveIo) returns (ok: bool, doc: Json)
      modifies this, machine
      ensures var (t, returned) := Commit(old(State()), storage, io.(doc := doc));
        && ok == returned
        && machine.dev == t.dev
        && generation == t.mem.generation && requiresReload == t.mem.requiresReload
      ensures stored == old(stored)
    {
      hide Dumps;
      doc := Null;
      if requiresReload || !io.firstRead || machine.dev.counter != generation || machine.dev.counter == MAX_U64 {
        return false, doc;
      }
      var next := machine.dev.counter + 1;
      doc := Dump(storage);
      var written := AtomicWrite(machine, Image(next, doc, io.size), io.write);
      if !written {
        return false, doc;
      }
      var returned := machine.Increment(io.bump);
      if !(returned && io.checkRead && machine.dev.counter == next) {
        requiresReload := true;
        if !(io.retryRead && machine.dev.counter == next) {
          return false, doc;
        }
        requiresReload := false;
      }
      generation := next;
      return true, doc;
    }

    /** The common ending of the four operations: save, then swap. */
    method SaveAndSwap(updated: Storage, io: SaveIo) returns (ok: bool, doc: Json)
      modifies this, machine
      ensures (State(), ok) == Commit(old(State()), updated, io.(doc := doc))
    {
      hide Dumps;
      ok, doc := SaveStorage(updated, io);
      if ok {
        stored := updated;
      }
    }

    method Put(cred: StoredCredential, owner: u32, io: SaveIo) returns (ok: bool, doc: Json)
      modifies this, machine
      ensures (State(), ok) == Operate(old(State()), Change.Put(cred, owner), io.(doc := doc))
    {
      hide Commit, ValidCredential, KeyOf;
      doc := Null;
      if requiresReload || generation == MAX_U64 {
        return false, doc;
      }
      var c := cred.(ownerUid := owner, creationOrder := generation + 1);
      if !ValidCredential(c) {
        return false, doc;
      }
      var k := KeyOf(c.id);
      if k in stored {
        return false, doc;
      }
      var updated := stored;
      if c.discoverable {
        updated := map l | l in stored && !SameAccount(stored[l], c) :: stored[l];
      }
      assert updated == WithoutAccount(stored, c);
      if |updated| >= MAX_CREDENTIALS {
        return false, doc;
      }
      updated := updated[k := c];
      ok, doc := SaveAndSwap(updated, io);
    }

    method Erase(id: seq<byte>, owner: u32, io: SaveIo) returns (ok: bool, doc: Json)
      modifies this, machine
      ensures (State(), ok) == Operate(old(State()), Change.Erase(id, owner), io.(doc := doc))
    {
      hide Commit, KeyOf;
      doc := Null;
      var k := KeyOf(id);
      if requiresReload || k !in stored || stored[k].ownerUid != owner {
        return false, doc;
      }
      ok, doc := SaveAndSwap(stored - {k}, io);
    }

    method ClearStore(io: SaveIo) returns (ok: bool, doc: Json)
      modifies this, machine
      ensures (State(), ok) == Operate(old(State()), Change.Clear, io.(doc := doc))
    {
      ok, doc := SaveAndSwap(map[], io);
    }

    method IncrementSigCount(id: seq<byte>, owner: u32, io: SaveIo) returns (ok: bool, doc: Json)
      modifies this, machine
      ensures (State(), ok) == Operate(old(State()), Change.Increment(id, owner), io.(doc := doc))
    {
      hide Commit, KeyOf;
      doc := Null;
      var k := KeyOf(id);
      if requiresReload || k !in stored || stored[k].ownerUid != owner || stored[k].signCount == MAX_U32 {
        return false, doc;
      }
      var updated := stored[k := stored[k].(signCount := stored[k].signCount + 1)];
      ok, doc := SaveAndSwap(updated, io);
    }

    method LoadStore(io: LoadIo) returns (ok: bool)
      modifies this, machine
      ensures (State(), ok) == Load(old(State()), io)
    {
      if !io.readOk || !io.counterRead {
        return false;
      }
      var file := machine.dev.visible;
      if file.None? {
        if machine.dev.counter != 0 {
          return false;
        }
        stored, generation, requiresReload := map[], 0, false;
        return true;
      }
      var image, counter := file.value, machine.dev.counter;
      if image.size > MAX_STORE_SIZE || image.generation < counter {
        return false;
      }
      if image.generation > counter && (counter == MAX_U64 || image.generation != counter + 1) {
        return false;
      }
      var loaded := ParseDocument(image.doc);
      if loaded.None? {
        return false;
      }
      var next: int := counter;
      if image.generation == (next + 1) % (MAX_U64 + 1) {
        var returned := machine.Increment(io.bump);
        if !returned || !io.verifyRead {
          return false;
        }
      }
      stored, generation, requiresReload := loaded.value, image.generation, false;
      return true;
    }

    /** find_for_assertion; None is the refusal of a store that must be reloaded.
        The map invariant it relies on holds in every run (StoreSanity). */
    method FindForAssertion(rp: Text, allow: seq<Descriptor>, owner: u32) returns (r: Option<seq<StoredCredential>>)
      requires StorageOk(stored, generation)
      ensures r.None? <==> requiresReload
      ensures r.Some? && allow == [] ==> NewestFirst(r.value, stored, rp, owner)
      ensures r.Some? && allow != [] ==>
        forall c :: c in r.value <==>
          && Current(c, stored) && c.ownerUid == owner && c.rpId == rp
          && exists i :: 0 <= i < |allow| && allow[i].isPublicKey && allow[i].id == c.id
      ensures r.Some? ==> r.value == Found(stored, rp, allow, owner)
    {
      hide Listed, NewestFirst, Current, KeyOf, ValidCredential;
      if requiresReload {
        return None;
      }
      if allow != [] {
        ListedExactly(allow, stored, generation, rp, owner);
        var listed := CollectListed(allow, stored, rp, owner);
        return Some(listed);
      }
      var newest := CollectDiscoverable(stored, generation, rp, owner);
      FoundNewestFirst(stored, generation, rp, owner);
      NewestFirstUnique(newest, Found(stored, rp, [], owner), stored, rp, owner);
      return Some(newest);
    }
  }
}
