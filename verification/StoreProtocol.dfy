/** The commit protocol: how a save moves the file and the rollback counter, how
    `load` reconciles them, and what a crash at any point leaves behind. I/O
    outcomes are parameters; the functions below are what the methods of class
    CredentialStore do to the state. */
module StoreProtocol {
  import opened Base
  import opened Credentials
  import opened StoreDocument

  /** A complete store file. Encryption is authenticated, so a file that decrypts
      is one the store wrote: its generation and document are as written. */
  datatype Image = Image(generation: u64, doc: Json, size: nat)

  /** What is on the machine. `visible` is the file a read returns now; `images`
      are the files (or None) that may be there after a power loss. */
  datatype Device = Device(visible: Option<Image>, images: set<Option<Image>>, counter: u64)

  datatype Memory = Memory(stored: Storage, generation: u64, requiresReload: bool)

  datatype Sys = Sys(dev: Device, mem: Memory)

  const MAX_STORE_SIZE: nat := 16 * 1024 * 1024

  function Generation(image: Option<Image>): (g: u64) {
    if image.None? then 0 else image.value.generation
  }

  /** The map a file holds; a missing file holds the empty map. */
  function Content(image: Option<Image>): (r: Option<Storage>) {
    if image.None? then Some(map[]) else ParseStorage(image.value.doc)
  }

  function FreshMemory(): (m: Memory) {
    Memory(map[], 0, false)
  }

  // ----- effects on the machine, in the order a save performs them -----

  /** rename(2) over the store file: visible at once, durable not yet. */
  function Renamed(d: Device, image: Image): (r: Device) {
    d.(visible := Some(image), images := d.images + {Some(image)})
  }

  /** fsync of the directory: only the visible file can survive. */
  function Synced(d: Device): (r: Device) {
    d.(images := {d.visible})
  }

  function Advanced(d: Device): (r: Device)
    requires d.counter < MAX_U64
  {
    d.(counter := d.counter + 1)
  }

  /** The machine after the first `k` effects of saving `image`. */
  function SaveEffects(d: Device, image: Image, k: nat): (r: Device)
    requires d.counter < MAX_U64
  {
    if k == 0 then d
    else if k == 1 then Renamed(d, image)
    else if k == 2 then Synced(Renamed(d, image))
    else Advanced(Synced(Renamed(d, image)))
  }

  // ----- saving -----

  /** How atomic_write_file ends. All but Written throw: before the rename, at the
      directory fsync, or at the directory close that follows it. */
  datatype WriteOutcome = NotRenamed | NotSynced | NotClosed | Written

  /** increment(): throws without moving, throws after moving, or returns. */
  datatype BumpOutcome = Unmoved | ReplyLost | Moved

  datatype SaveIo = SaveIo(
    firstRead: bool, doc: Json, size: nat, write: WriteOutcome,
    bump: BumpOutcome, checkRead: bool, retryRead: bool)

  /** The checks that precede any effect: save_storage goes on to write. */
  ghost predicate MayWrite(s: Sys, storage: Storage, io: SaveIo) {
    && !s.mem.requiresReload
    && io.firstRead
    && s.dev.counter == s.mem.generation
    && s.dev.counter < MAX_U64
    && Dumps(io.doc, storage)
  }

  /** save_storage followed by the swap into memory: the new state, and whether it
      returned normally. */
  ghost function Commit(s: Sys, storage: Storage, io: SaveIo): (r: (Sys, bool)) {
    if !MayWrite(s, storage, io) || io.write.NotRenamed? then (s, false) else
    var next := s.dev.counter + 1;
    var image := Image(next, io.doc, io.size);
    if io.write.NotSynced? then (s.(dev := SaveEffects(s.dev, image, 1)), false)
    else if io.write.NotClosed? then (s.(dev := SaveEffects(s.dev, image, 2)), false)
    else
      var dev := SaveEffects(s.dev, image, if io.bump.Unmoved? then 2 else 3);
      var confirmed := io.bump.Moved? && io.checkRead;
      if confirmed || (io.retryRead && dev.counter == next)
      then (Sys(dev, Memory(storage, next, false)), true)
      else (Sys(dev, s.mem.(requiresReload := true)), false)
  }

  /** A public operation: require_ready, the change, then the commit. */
  ghost function Operate(s: Sys, change: Change, io: SaveIo): (r: (Sys, bool)) {
    if s.mem.requiresReload then (s, false) else
    var target := Target(s.mem.stored, s.mem.generation, change);
    if target.Err? then (s, false) else Commit(s, target.value, io)
  }

  // ----- loading -----

  datatype LoadIo = LoadIo(readOk: bool, counterRead: bool, bump: BumpOutcome, verifyRead: bool)

  /** The file passes every check that precedes crash recovery. */
  predicate Acceptable(d: Device) {
    match d.visible
    case None => d.counter == 0
    case Some(image) =>
      && image.size <= MAX_STORE_SIZE
      && d.counter <= image.generation
      && (image.generation > d.counter ==> d.counter < MAX_U64 && image.generation == d.counter + 1)
      && ParseStorage(image.doc).Some?
  }

  /** The file is one ahead of the counter: load must advance the counter. */
  predicate MustRecover(d: Device) {
    Acceptable(d) && Generation(d.visible) != d.counter
  }

  function Load(s: Sys, io: LoadIo): (r: (Sys, bool)) {
    if !io.readOk || !io.counterRead || !Acceptable(s.dev) then (s, false)
    else if MustRecover(s.dev) then
      if io.bump.Unmoved? then (s, false)
      else if io.bump.ReplyLost? || !io.verifyRead then (s.(dev := Advanced(s.dev)), false)
      else (Sys(Advanced(s.dev), LoadedMemory(s.dev)), true)
    else (Sys(s.dev, LoadedMemory(s.dev)), true)
  }

  function LoadedMemory(d: Device): (m: Memory)
    requires Acceptable(d)
  {
    Memory(Content(d.visible).value, Generation(d.visible), false)
  }

  // ----- crashes -----

  /** A process exit keeps the page cache; a power loss keeps one of the images. */
  datatype Crash = ProcessExit | PowerLoss(survivor: Option<Image>)

  function AfterCrash(d: Device, crash: Crash): (r: Device) {
    match crash
    case ProcessExit => d
    case PowerLoss(image) => if image in d.images then Device(image, {image}, d.counter) else d
  }

  // ----- per-call laws -----

  /** An operation that does not return normally leaves the map and the generation
      in memory as they were. */
  lemma FailureKeepsMemory(s: Sys, change: Change, io: SaveIo)
    requires !Operate(s, change, io).1
    ensures Operate(s, change, io).0.mem.stored == s.mem.stored
    ensures Operate(s, change, io).0.mem.generation == s.mem.generation
  {
  }

  /** After an interrupted commit every operation is refused and changes nothing. */
  lemma RefusedUntilReload(s: Sys, change: Change, io: SaveIo)
    requires s.mem.requiresReload
    ensures Operate(s, change, io) == (s, false)
  {
  }

  /** A commit that returns has made its map the only file that can survive, with
      file, counter and memory at one generation. */
  lemma CommitIsDurable(s: Sys, storage: Storage, io: SaveIo)
    requires Commit(s, storage, io).1 && StorageOk(storage, s.dev.counter + 1)
    ensures var t := Commit(s, storage, io).0;
      && t.dev.counter == s.dev.counter + 1 == t.mem.generation
      && t.mem.stored == storage && !t.mem.requiresReload
      && t.dev.images == {t.dev.visible}
      && Generation(t.dev.visible) == t.dev.counter
      && Content(t.dev.visible) == Some(storage)
  {
    ParseAcceptsDump(io.doc, storage);
  }

  /** When a commit returns: nothing failed before the counter step, the file was
      written, and the step was either seen to work or found done by a second reading,
      even if its own reply was lost. */
  lemma CommitReturnsIff(s: Sys, storage: Storage, io: SaveIo)
    ensures Commit(s, storage, io).1 <==>
      && !s.mem.requiresReload && io.firstRead && s.dev.counter == s.mem.generation < MAX_U64
      && Dumps(io.doc, storage) && io.write.Written?
      && ((io.bump.Moved? && io.checkRead) || (!io.bump.Unmoved? && io.retryRead))
  {
    hide Dumps;
  }

  /** What a commit that throws leaves: nothing before the rename; the new file beside
      the old ones if the directory was not synced; the new file alone after that. The
      counter has moved exactly if the step moved it, and a reload is demanded exactly
      from the counter step on. */
  lemma CommitThrows(s: Sys, storage: Storage, io: SaveIo)
    requires !Commit(s, storage, io).1 && !s.mem.requiresReload
    ensures var t := Commit(s, storage, io).0;
      var began := io.firstRead && s.dev.counter == s.mem.generation < MAX_U64 && Dumps(io.doc, storage);
      && (!began || io.write.NotRenamed? ==> t == s)
      && (began && !io.write.NotRenamed? ==>
            var image := Some(Image(s.dev.counter + 1, io.doc, io.size));
            && t.dev.visible == image
            && t.dev.images == (if io.write.NotSynced? then s.dev.images + {image} else {image})
            && t.dev.counter == (if io.write.Written? && !io.bump.Unmoved? then s.dev.counter + 1 else s.dev.counter)
            && t.mem == s.mem.(requiresReload := io.write.Written?))
  {
    hide Dumps;
  }

  /** `load` needs a reload-free store exactly when nothing failed and the file is
      at the counter or one ahead of it; then all three generations agree. */
  lemma LoadSucceedsIff(s: Sys, io: LoadIo)
    ensures Load(s, io).1 <==>
      && io.readOk && io.counterRead && Acceptable(s.dev)
      && (Generation(s.dev.visible) != s.dev.counter ==> io.bump.Moved? && io.verifyRead)
    ensures Load(s, io).1 ==>
      var t := Load(s, io).0;
      && t.dev.counter == t.mem.generation == Generation(s.dev.visible)
      && Some(t.mem.stored) == Content(s.dev.visible)
      && !t.mem.requiresReload
      && t.dev.visible == s.dev.visible && t.dev.images == s.dev.images
    ensures !Load(s, io).1 ==> Load(s, io).0.mem == s.mem
  {
  }
}
