/** The daemon's event loop: the main thread, its one worker and the slot through
    which the worker hands over a result. An iteration is two steps, reading a frame
    and collecting, with the worker free to publish before, between and after. */
module EventLoop {
  import opened Base
  import opened Packet
  import opened FrameProcessor

  datatype Task = Task(generation: nat, cid: u32, nextKeepalive: int, cancelRequested: bool, discardResult: bool)

  datatype TaskResult = TaskResult(generation: nat, cid: u32, packet: CtapPacket)

  /** A worker thread that has not been joined, with the request it was given. */
  datatype Worker = Worker(generation: nat, request: Report, published: bool)

  /** How the worker's call of the command handler ends: with a response, with an error
      code, or with one of the exceptions the worker catches. */
  datatype Exit = Responds(payload: seq<byte>) | Refuses(code: byte) | OperationCancelled | UserActionTimedOut | Throws

  const REQUEST_TOO_LARGE: byte := 0x39
  const KEEPALIVE_CANCEL: byte := 0x2D
  const OPERATION_DENIED: byte := 0x27
  const OTHER: byte := 0x7F

  /** make_cbor_error. */
  function CborError(cid: u32, code: byte): (p: CtapPacket) {
    CtapPacket(cid, CMD_CBOR + 0x80, 1, [code])
  }

  /** The packet the worker stores: the handler's, or one for the exception. */
  function PacketFor(request: Report, exit: Exit): (p: CtapPacket) {
    match exit
    case Responds(payload) =>
      if |payload| > MAX_PAYLOAD then CborError(request.cid, REQUEST_TOO_LARGE)
      else CtapPacket(request.cid, CMD_CBOR + 0x80, |payload|, payload)
    case Refuses(code) => CborError(request.cid, code)
    case OperationCancelled => CborError(request.cid, KEEPALIVE_CANCEL)
    case UserActionTimedOut => CborError(request.cid, OPERATION_DENIED)
    case Throws => CborError(request.cid, OTHER)
  }

  /** What concerns one task, in the order it happens. */
  datatype What =
    | Started | KeepaliveSent | CancelRequested | AbortRequested | FinalSent(packet: CtapPacket) | ResultDropped

  datatype Entry = Entry(generation: nat, cid: u32, what: What)

  /** `collecting` is the point between the two halves of an iteration. `guardFired`
      records that one of the loop's own length, busy or channel checks on a completed
      report fired; `handlerShared` that the main thread used the command handler
      while a worker had not been joined. */
  datatype Loop = Loop(
    incoming: Option<Incoming>, channels: set<u32>, active: Option<Task>, completion: Option<TaskResult>,
    worker: Option<Worker>, nextGeneration: nat, collecting: bool,
    guardFired: bool, handlerShared: bool, log: seq<Entry>)

  /** 100 ms in nanoseconds. */
  const KEEPALIVE: int := 100_000_000

  function Initial(): (l: Loop) {
    Loop(None, {}, None, None, None, 1, false, false, false, [])
  }

  function ActiveCid(l: Loop): (c: Option<u32>) {
    if l.active.Some? then Some(l.active.value.cid) else None
  }

  function Note(l: Loop, what: What): (r: Loop)
    requires l.active.Some?
  {
    l.(log := l.log + [Entry(l.active.value.generation, l.active.value.cid, what)])
  }

  /** command_handler.reset() on the main thread. */
  function TouchHandler(l: Loop): (r: Loop) {
    l.(handlerShared := l.handlerShared || l.worker.Some?)
  }

  function OnCancel(l: Loop, r: Report): (t: Loop) {
    if l.active.Some? && l.active.value.cid == r.cid && !l.active.value.discardResult
    then Note(l, CancelRequested).(active := Some(l.active.value.(cancelRequested := true)))
    else l
  }

  /** `drawn` is the channel that allocate_cid draws. */
  function OnInit(l: Loop, r: Report, drawn: u32): (t: Loop) {
    if r.payload == [] || (l.active.Some? && r.cid != l.active.value.cid) then l.(guardFired := true)
    else if r.cid == BROADCAST then l.(channels := l.channels + {drawn})
    else if r.cid !in l.channels then l.(guardFired := true)
    else if l.active.Some? && l.active.value.cid == r.cid then
      Note(l, AbortRequested).(active := Some(l.active.value.(cancelRequested := true, discardResult := true)))
    else TouchHandler(l)
  }

  /** A CBOR request starts the worker. */
  function StartTask(l: Loop, r: Report, now: int): (t: Loop) {
    var g := l.nextGeneration;
    var s := l.(
      nextGeneration := g + 1,
      active := Some(Task(g, r.cid, now + KEEPALIVE, false, false)),
      worker := Some(Worker(g, r, false)),
      collecting := true);
    Note(s, Started)
  }

  /** A completed report. The loop goes on to collecting only after starting a task. */
  function OnReport(l: Loop, r: Report, drawn: u32, now: int): (t: Loop) {
    if r.cmd == CMD_CANCEL then OnCancel(l, r)
    else if r.cmd == CMD_INIT then OnInit(l, r, drawn)
    else if r.cid !in l.channels || l.active.Some? then l.(guardFired := true)
    else if r.cmd != CMD_CBOR || r.payload == [] then l
    else StartTask(l, r, now)
  }

  /** What poll and read gave: nothing for this loop, a failed read, or a frame. */
  datatype Arrival = NoFrame | Unreadable | Arrived(raw: seq<byte>)

  /** The first half: expire, read a frame, act on it. */
  function Front(l: Loop, arrival: Arrival, drawn: u32, now: int): (t: Loop) {
    var e := l.(incoming := Expire(l.incoming, now).0);
    match arrival
    case NoFrame => e.(collecting := true)
    case Unreadable => e
    case Arrived(raw) =>
      var (incoming, out) := Process(e.incoming, raw, ActiveCid(e), e.channels, now);
      var p := e.(incoming := incoming);
      match out
      case Fault(_, _) => p
      case Nothing => p.(collecting := true)
      case Complete(r) => OnReport(p, r, drawn, now)
  }

  /** The second half: collect a result, then perhaps send a keepalive. */
  function Collect(l: Loop): (t: Loop) {
    var s := l.(completion := None);
    if l.completion.Some? && l.active.Some? && l.completion.value.generation == l.active.value.generation then
      var joined := s.(worker := None);
      if l.active.value.discardResult then TouchHandler(Note(joined, ResultDropped)).(active := None)
      else Note(joined, FinalSent(l.completion.value.packet)).(active := None)
    else s
  }

  function Keepalive(l: Loop, now: int): (t: Loop) {
    if l.active.Some? && now >= l.active.value.nextKeepalive && !l.active.value.cancelRequested
    then Note(l, KeepaliveSent).(active := Some(l.active.value.(nextKeepalive := now + KEEPALIVE)))
    else l
  }

  function Back(l: Loop, now: int): (t: Loop) {
    Keepalive(Collect(l), now).(collecting := false)
  }

  /** The worker stores its result. */
  function Publish(l: Loop, exit: Exit): (t: Loop)
    requires l.worker.Some?
  {
    var w := l.worker.value;
    l.(completion := Some(TaskResult(w.generation, w.request.cid, PacketFor(w.request, exit))),
       worker := Some(w.(published := true)))
  }

  datatype Step = DoFront(arrival: Arrival, drawn: u32, now: int) | DoBack(now: int) | DoPublish(exit: Exit)

  /** allocate_cid draws a free channel that is neither 0 nor the broadcast channel. */
  predicate Possible(l: Loop, s: Step) {
    match s
    case DoFront(_, drawn, _) => !l.collecting && drawn !in l.channels && drawn != 0 && drawn != BROADCAST
    case DoBack(_) => l.collecting
    case DoPublish(_) => l.worker.Some? && !l.worker.value.published
  }

  function After(l: Loop, s: Step): (t: Loop)
    requires Possible(l, s)
  {
    match s
    case DoFront(arrival, drawn, now) => Front(l, arrival, drawn, now)
    case DoBack(now) => Back(l, now)
    case DoPublish(exit) => Publish(l, exit)
  }

  // ----- the life of a task -----

  datatype Life =
    | Unborn
    | Live(cid: u32, cancelled: bool, aborted: bool)
    | Answered(cid: u32)
    | Dropped(cid: u32)

  /** The only order in which things may happen to a task: started once; keepalives on
      its channel until cancellation is requested; then one final packet, which is
      addressed to its channel and can be framed, or none if it was aborted; then
      nothing. */
  function Grow(life: Life, e: Entry): (r: Option<Life>) {
    match life
    case Unborn => if e.what.Started? then Some(Live(e.cid, false, false)) else None
    case Live(cid, cancelled, aborted) =>
      if e.cid != cid then None else
      (match e.what
       case Started => None
       case KeepaliveSent => if cancelled then None else Some(life)
       case CancelRequested => if aborted then None else Some(Live(cid, true, false))
       case AbortRequested => Some(Live(cid, true, true))
       case FinalSent(packet) =>
         if aborted || packet.cid != cid || !Framable(packet) then None else Some(Answered(cid))
       case ResultDropped => if aborted then Some(Dropped(cid)) else None)
    case Answered(_) => None
    case Dropped(_) => None
  }

  /** The life of generation g according to the log; None if the log breaks the order. */
  function LifeOf(log: seq<Entry>, g: nat): (r: Option<Life>) {
    if log == [] then Some(Unborn) else
    var before :- LifeOf(log[..|log| - 1], g);
    var e := log[|log| - 1];
    if e.generation == g then Grow(before, e) else Some(before)
  }

  // ----- the invariant -----

  ghost predicate AssemblyOk(l: Loop) {
    && Assembling(l.incoming)
    && (l.incoming.Some? ==>
          l.active.None? && l.incoming.value.report.cid in l.channels
          && l.incoming.value.report.cmd != CMD_INIT && l.incoming.value.report.cmd != CMD_CANCEL)
  }

  ghost predicate ChannelsOk(l: Loop) {
    && 0 !in l.channels && BROADCAST !in l.channels
    && (l.active.Some? ==> l.active.value.cid in l.channels)
  }

  /** There is an unjoined worker exactly while a task is active, and it is that
      task's; the slot is full exactly when that worker has published. */
  ghost predicate WorkerOk(l: Loop) {
    && (l.active.Some? <==> l.worker.Some?)
    && (l.active.Some? ==>
          l.worker.value.generation == l.active.value.generation && l.worker.value.request.cid == l.active.value.cid
          && l.active.value.generation < l.nextGeneration)
    && (l.completion.Some? <==> l.worker.Some? && l.worker.value.published)
    && (l.completion.Some? ==>
          && l.completion.value.generation == l.worker.value.generation
          && l.completion.value.cid == l.worker.value.request.cid
          && l.completion.value.packet.cid == l.worker.value.request.cid && Framable(l.completion.value.packet))
  }

  ghost predicate LivesOk(l: Loop) {
    && (l.active.Some? ==>
          LifeOf(l.log, l.active.value.generation)
          == Some(Live(l.active.value.cid, l.active.value.cancelRequested, l.active.value.discardResult)))
    && (l.active.Some? && l.active.value.discardResult ==> l.active.value.cancelRequested)
    && (forall g: nat :: g >= l.nextGeneration ==> LifeOf(l.log, g) == Some(Unborn))
    && (forall g: nat :: 1 <= g < l.nextGeneration && (l.active.None? || g != l.active.value.generation)
          ==> Over(LifeOf(l.log, g)))
    && LifeOf(l.log, 0) == Some(Unborn) && l.nextGeneration >= 1
    && (l.active.Some? ==> l.active.value.generation >= 1)
  }

  predicate Over(life: Option<Life>) {
    life.Some? && (life.value.Answered? || life.value.Dropped?)
  }

  ghost predicate Inv(l: Loop) {
    AssemblyOk(l) && ChannelsOk(l) && WorkerOk(l) && LivesOk(l) && !l.guardFired && !l.handlerShared
  }

  lemma Append(log: seq<Entry>, e: Entry, g: nat)
    ensures LifeOf(log + [e], g) ==
      if LifeOf(log, g).None? then None
      else if e.generation == g then Grow(LifeOf(log, g).value, e) else LifeOf(log, g)
  {
    assert (log + [e])[..|log|] == log;
  }

  /** What `process` guarantees about a completed report: the loop's own checks on
      length, busy channel and channel repeat it. */
  lemma CompletedReport(incoming: Option<Incoming>, raw: seq<byte>, active: Option<u32>, channels: set<u32>, now: int)
    requires Assembling(incoming)
    requires incoming.Some? ==>
      active.None? && incoming.value.report.cid in channels
      && incoming.value.report.cmd != CMD_INIT && incoming.value.report.cmd != CMD_CANCEL
    ensures var (next, out) := Process(incoming, raw, active, channels, now);
      && Assembling(next)
      && (next.Some? ==>
            active.None? && next.value.report.cid in channels
            && next.value.report.cmd != CMD_INIT && next.value.report.cmd != CMD_CANCEL)
      && (out.Complete? ==>
            var r := out.report;
            && next.None?
            && (r.cmd == CMD_INIT ==> |r.payload| == 8)
            && (r.cmd == CMD_CANCEL ==> active == Some(r.cid))
            && (active.Some? ==> r.cid == active.value && (r.cmd == CMD_INIT || r.cmd == CMD_CANCEL))
            && (r.cid in channels || (r.cid == BROADCAST && r.cmd == CMD_INIT)))
  {
    hide Cid;
    ProcessKeeps(incoming, raw, active, channels, now);
  }

  // ----- every step keeps the invariant -----

  /** Logging one legal entry about the active task leaves all other lives alone. */
  lemma NoteLives(l: Loop, what: What, life: Life)
    requires LivesOk(l) && l.active.Some?
    requires Grow(LifeOf(l.log, l.active.value.generation).value,
                  Entry(l.active.value.generation, l.active.value.cid, what)) == Some(life)
    ensures LifeOf(Note(l, what).log, l.active.value.generation) == Some(life)
    ensures forall g: nat :: g != l.active.value.generation ==> LifeOf(Note(l, what).log, g) == LifeOf(l.log, g)
  {
    var e := Entry(l.active.value.generation, l.active.value.cid, what);
    Append(l.log, e, l.active.value.generation);
    forall g: nat | g != l.active.value.generation ensures LifeOf(Note(l, what).log, g) == LifeOf(l.log, g) {
      Append(l.log, e, g);
    }
  }

  lemma CancelKeeps(l: Loop, r: Report)
    requires Inv(l)
    ensures Inv(OnCancel(l, r))
  {
    hide LifeOf;
    if OnCancel(l, r) != l {
      NoteLives(l, CancelRequested, Live(l.active.value.cid, true, false));
    }
  }

  lemma InitKeeps(l: Loop, r: Report, drawn: u32)
    requires Inv(l) && drawn != 0 && drawn != BROADCAST
    requires |r.payload| == 8 && (l.active.Some? ==> r.cid == l.active.value.cid)
    requires r.cid in l.channels || r.cid == BROADCAST
    ensures Inv(OnInit(l, r, drawn))
  {
    hide LifeOf, Assembling;
    if l.active.Some? && r.cid != BROADCAST {
      NoteLives(l, AbortRequested, Live(l.active.value.cid, true, true));
    }
  }

  lemma StartKeeps(l: Loop, r: Report, now: int)
    requires Inv(l) && l.active.None? && l.incoming.None? && r.cid in l.channels
    ensures Inv(StartTask(l, r, now))
  {
    hide LifeOf, Assembling;
    var g := l.nextGeneration;
    var e := Entry(g, r.cid, Started);
    forall h: nat ensures LifeOf(l.log + [e], h) == if h == g then Some(Live(r.cid, false, false)) else LifeOf(l.log, h) {
      Append(l.log, e, h);
    }
  }

  lemma FrontKeeps(l: Loop, arrival: Arrival, drawn: u32, now: int)
    requires Inv(l) && drawn != 0 && drawn != BROADCAST
    ensures Inv(Front(l, arrival, drawn, now))
  {
    hide LivesOk, Process, OnInit, OnCancel, StartTask;
    var e := l.(incoming := Expire(l.incoming, now).0);
    LivesSame(l, e);
    if arrival.Arrived? {
      CompletedReport(e.incoming, arrival.raw, ActiveCid(e), e.channels, now);
      var (incoming, out) := Process(e.incoming, arrival.raw, ActiveCid(e), e.channels, now);
      var p := e.(incoming := incoming);
      LivesSame(l, p);
      LivesSame(l, p.(collecting := true));
      assert Inv(p);
      if out.Complete? {
        ReportKeeps(p, out.report, drawn, now);
      }
    } else {
      LivesSame(l, e.(collecting := true));
    }
  }

  /** The lives depend on the log, the active task and the generation counter only. */
  lemma LivesSame(l: Loop, t: Loop)
    requires LivesOk(l) && t.log == l.log && t.active == l.active && t.nextGeneration == l.nextGeneration
    ensures LivesOk(t)
  {
  }

  lemma ReportKeeps(l: Loop, r: Report, drawn: u32, now: int)
    requires Inv(l) && drawn != 0 && drawn != BROADCAST && l.incoming.None?
    requires r.cmd == CMD_INIT ==> |r.payload| == 8
    requires l.active.Some? ==> r.cid == l.active.value.cid && (r.cmd == CMD_INIT || r.cmd == CMD_CANCEL)
    requires r.cid in l.channels || (r.cid == BROADCAST && r.cmd == CMD_INIT)
    ensures Inv(OnReport(l, r, drawn, now))
  {
    hide Inv, OnInit, OnCancel, StartTask;
    if r.cmd == CMD_CANCEL {
      CancelKeeps(l, r);
    } else if r.cmd == CMD_INIT {
      InitKeeps(l, r, drawn);
    } else if r.cmd == CMD_CBOR && r.payload != [] {
      StartKeeps(l, r, now);
    }
  }

  lemma CollectKeeps(l: Loop)
    requires Inv(l)
    ensures Inv(Collect(l))
  {
    hide LifeOf, Assembling;
    if l.completion.Some? {
      var a := l.active.value;
      var joined := l.(completion := None, worker := None);
      LivesSame(l, joined);
      if a.discardResult {
        NoteLives(joined, ResultDropped, Dropped(a.cid));
      } else {
        NoteLives(joined, FinalSent(l.completion.value.packet), Answered(a.cid));
      }
    }
  }

  lemma KeepaliveKeeps(l: Loop, now: int)
    requires Inv(l)
    ensures Inv(Keepalive(l, now))
  {
    hide LifeOf, Assembling;
    if Keepalive(l, now) != l {
      var a := l.active.value;
      NoteLives(l, KeepaliveSent, Live(a.cid, a.cancelRequested, a.discardResult));
    }
  }

  /** What a final packet carries: the handler's response when it fits; otherwise one
      byte, the code for that exit. */
  predicate Carries(p: CtapPacket, cid: u32, exit: Exit) {
    && p.cid == cid && p.cmd == 0x90 && p.len == |p.payload|
    && p.payload == match exit
         case Responds(payload) => if |payload| <= 7609 then payload else [0x39]
         case Refuses(code) => [code]
         case OperationCancelled => [0x2D]
         case UserActionTimedOut => [0x27]
         case Throws => [0x7F]
  }

  /** However the handler ends, the worker's packet is for the channel of its request,
      carries what belongs to that end, and can be framed. */
  lemma PacketIsAddressed(request: Report, exit: Exit)
    ensures Carries(PacketFor(request, exit), request.cid, exit) && Framable(PacketFor(request, exit))
  {
  }

  lemma StepKeeps(l: Loop, s: Step)
    requires Inv(l) && Possible(l, s)
    ensures Inv(After(l, s))
  {
    hide LivesOk, Front, Collect, Keepalive, Assembling;
    match s
    case DoFront(arrival, drawn, now) => FrontKeeps(l, arrival, drawn, now);
    case DoBack(now) =>
      CollectKeeps(l);
      KeepaliveKeeps(Collect(l), now);
      var t := Keepalive(Collect(l), now);
      LivesSame(t, t.(collecting := false));
    case DoPublish(exit) =>
      PacketIsAddressed(l.worker.value.request, exit);
      LivesSame(l, Publish(l, exit));
  }

  // ----- runs -----

  function Run(steps: seq<Step>): (r: Option<Loop>) {
    if steps == [] then Some(Initial()) else
    var l :- Run(steps[..|steps| - 1]);
    if Possible(l, steps[|steps| - 1]) then Some(After(l, steps[|steps| - 1])) else None
  }

  lemma {:induction false} RunKeeps(steps: seq<Step>)
    requires Run(steps).Some?
    ensures Inv(Run(steps).value)
  {
    hide Inv, After, Possible;
    if steps == [] {
      InitialInv();
    } else {
      RunKeeps(steps[..|steps| - 1]);
      StepKeeps(Run(steps[..|steps| - 1]).value, steps[|steps| - 1]);
    }
  }

  lemma InitialInv()
    ensures Inv(Initial())
  {
    assert forall g: nat :: LifeOf([], g) == Some(Unborn);
  }

  /** In every reachable state: an active task means no partial message; channel 0 and
      the broadcast channel are never allocated; the main thread has never used the
      command handler beside an unjoined worker; and none of the loop's own checks on
      completed reports has ever fired. */
  lemma LoopIsSafe(steps: seq<Step>)
    requires Run(steps).Some?
    ensures var l := Run(steps).value;
      && (l.active.Some? ==> l.incoming.None?)
      && 0 !in l.channels && BROADCAST !in l.channels
      && !l.handlerShared && !l.guardFired
  {
    RunKeeps(steps);
  }

  /** In every run, the log of every task follows the order of Grow: one final packet
      at most, on its own channel; keepalives only on that channel, only before the
      final packet and never after cancellation was requested. A task no longer active
      has had its final packet, or none if a same-channel INIT aborted it. */
  lemma TasksAreAnswered(steps: seq<Step>, g: nat)
    requires Run(steps).Some?
    ensures var l := Run(steps).value;
      var life := LifeOf(l.log, g);
      && life.Some?
      && (life.value.Live? <==> l.active.Some? && l.active.value.generation == g)
      && (life.value.Live? ==> life.value.cid == l.active.value.cid)
      && (life.value.Unborn? <==> g == 0 || g >= l.nextGeneration)
  {
    RunKeeps(steps);
  }

  /** A result is never stored over another, it is for the active task, and the next
      collection ends that task: it sends that result's packet, unless the task was
      aborted. */
  lemma SlotIsExclusive(steps: seq<Step>, exit: Exit)
    requires Run(steps).Some? && Possible(Run(steps).value, DoPublish(exit))
    ensures var l := Run(steps).value;
      && l.completion.None? && l.active.Some?
      && var t := Publish(l, exit);
         var a, packet := l.active.value, t.completion.value.packet;
         && t.completion.value.generation == a.generation && packet.cid == a.cid && Framable(packet)
         && Collect(t).active.None? && Collect(t).worker.None?
         && Collect(t).log == l.log + [Entry(a.generation, a.cid, if a.discardResult then ResultDropped else FinalSent(packet))]
  {
    hide LivesOk, AssemblyOk;
    RunKeeps(steps);
    PacketIsAddressed(Run(steps).value.worker.value.request, exit);
  }

  // ----- what the final packet of a task is -----

  /** Step n is the publication of generation g's worker, and the packet is what its
      handler's exit calls for. */
  predicate PublishedAt(steps: seq<Step>, n: nat, g: nat, packet: CtapPacket) {
    && n < |steps| && steps[n].DoPublish? && Run(steps[..n]).Some?
    && var w := Run(steps[..n]).value.worker;
       w.Some? && w.value.generation == g && Carries(packet, w.value.request.cid, steps[n].exit)
  }

  ghost predicate WasPublished(steps: seq<Step>, g: nat, packet: CtapPacket) {
    exists n: nat :: PublishedAt(steps, n, g, packet)
  }

  lemma PublishedBefore(steps: seq<Step>, s: Step, g: nat, packet: CtapPacket)
    requires WasPublished(steps, g, packet)
    ensures WasPublished(steps + [s], g, packet)
  {
    hide Run, Carries;
    var n: nat :| PublishedAt(steps, n, g, packet);
    assert (steps + [s])[..n] == steps[..n];
    assert PublishedAt(steps + [s], n, g, packet);
  }

  /** A final packet is sent only from the slot, and the slot is filled only by a
      publication. */
  lemma PacketStep(l: Loop, s: Step)
    requires Possible(l, s)
    ensures var t := After(l, s);
      && (t.completion.Some? && t.completion != l.completion ==>
            && s.DoPublish? && l.worker.Some? && t.completion.value.generation == l.worker.value.generation
            && Carries(t.completion.value.packet, l.worker.value.request.cid, s.exit))
      && (forall e :: e in t.log && e !in l.log && e.what.FinalSent? ==>
            l.completion.Some? && e.generation == l.completion.value.generation
            && e.what.packet == l.completion.value.packet)
  {
    hide Front, Carries, PacketFor;
    match s
    case DoFront(arrival, drawn, now) => FrontSendsNoFinal(l, arrival, drawn, now);
    case DoBack(_) =>
    case DoPublish(exit) => PacketIsAddressed(l.worker.value.request, exit);
  }

  lemma FrontSendsNoFinal(l: Loop, arrival: Arrival, drawn: u32, now: int)
    ensures var t := Front(l, arrival, drawn, now);
      t.completion == l.completion && forall e :: e in t.log && e !in l.log ==> !e.what.FinalSent?
  {
    hide Process, Expire, OnReport;
    if arrival.Arrived? {
      var e := l.(incoming := Expire(l.incoming, now).0);
      var (incoming, out) := Process(e.incoming, arrival.raw, ActiveCid(e), e.channels, now);
      if out.Complete? {
        ReportLogs(e.(incoming := incoming), out.report, drawn, now);
      }
    }
  }

  lemma ReportLogs(l: Loop, r: Report, drawn: u32, now: int)
    ensures var t := OnReport(l, r, drawn, now);
      && t.completion == l.completion
      && (t.log == l.log || (t.log != [] && t.log[..|t.log| - 1] == l.log && !t.log[|t.log| - 1].what.FinalSent?))
  {
  }

  /** In every run, the final packet of a task is what its own worker published: exactly
      the response its handler returned, or the code for how the handler ended. */
  lemma {:induction false} FinalIsTheHandlers(steps: seq<Step>)
    requires Run(steps).Some?
    ensures var l := Run(steps).value;
      && (forall e :: e in l.log && e.what.FinalSent? ==> WasPublished(steps, e.generation, e.what.packet))
      && (l.completion.Some? ==> WasPublished(steps, l.completion.value.generation, l.completion.value.packet))
  {
    hide Possible, After, Carries, WasPublished;
    if steps == [] {
    } else {
      var front, s := steps[..|steps| - 1], steps[|steps| - 1];
      var l, t := Run(front).value, Run(steps).value;
      assert steps == front + [s];
      FinalIsTheHandlers(front);
      PacketStep(l, s);
      forall g, packet | WasPublished(front, g, packet) ensures WasPublished(steps, g, packet) {
        PublishedBefore(front, s, g, packet);
      }
      if t.completion.Some? && t.completion != l.completion {
        Publication(front, s, t.completion.value.generation, t.completion.value.packet);
      }
    }
  }

  lemma Publication(front: seq<Step>, s: Step, g: nat, packet: CtapPacket)
    requires Run(front).Some? && s.DoPublish? && Run(front).value.worker.Some?
    requires var w := Run(front).value.worker.value;
      w.generation == g && Carries(packet, w.request.cid, s.exit)
    ensures WasPublished(front + [s], g, packet)
  {
    hide Run, Carries;
    assert (front + [s])[..|front|] == front;
    assert PublishedAt(front + [s], |front|, g, packet);
  }

  // ----- what a report and a due keepalive do -----

  /** In a sound state, when a frame completes a report: a CBOR request with a payload
      starts a worker for it; a broadcast INIT allocates the drawn channel; an INIT on
      the active channel aborts its task; a CANCEL is taken by the active task unless
      it was aborted; anything else changes nothing. */
  lemma ReportEffects(l: Loop, raw: seq<byte>, drawn: u32, now: int, r: Report)
    requires Inv(l)
    requires Process(Expire(l.incoming, now).0, raw, ActiveCid(l), l.channels, now).1 == Complete(r)
    ensures var t, idle := Front(l, Arrived(raw), drawn, now), l.(incoming := None);
      && (r.cmd == 0x10 && r.payload != [] ==>
            && l.active.None?
            && t == idle.(
                 active := Some(Task(l.nextGeneration, r.cid, now + 100_000_000, false, false)),
                 worker := Some(Worker(l.nextGeneration, r, false)),
                 nextGeneration := l.nextGeneration + 1, collecting := true,
                 log := l.log + [Entry(l.nextGeneration, r.cid, Started)]))
      && (r.cmd == 0x06 && r.cid == 0xFFFF_FFFF ==> t == idle.(channels := l.channels + {drawn}))
      && (r.cmd == 0x06 && r.cid != 0xFFFF_FFFF && l.active.Some? ==>
            t == Note(idle, AbortRequested).(active := Some(l.active.value.(cancelRequested := true, discardResult := true))))
      && (r.cmd == 0x06 && r.cid != 0xFFFF_FFFF && l.active.None? ==> t == idle)
      && (r.cmd == 0x11 ==>
            && l.active.Some?
            && t == if l.active.value.discardResult then idle
                    else Note(idle, CancelRequested).(active := Some(l.active.value.(cancelRequested := true))))
      && (r.cmd != 0x06 && r.cmd != 0x11 && !(r.cmd == 0x10 && r.payload != []) ==> t == idle)
  {
    hide LivesOk, Process, Expire, Assembling;
    ExpireKeeps(l, now);
    CompletedReport(Expire(l.incoming, now).0, raw, ActiveCid(l), l.channels, now);
  }

  lemma ExpireKeeps(l: Loop, now: int)
    requires AssemblyOk(l)
    ensures AssemblyOk(l.(incoming := Expire(l.incoming, now).0))
  {
  }

  /** Anything that completes no report leaves tasks, channels and the log alone. */
  lemma NoReportNoEffect(l: Loop, arrival: Arrival, drawn: u32, now: int)
    requires arrival.Arrived? ==>
      !Process(Expire(l.incoming, now).0, arrival.raw, ActiveCid(l), l.channels, now).1.Complete?
    ensures var t := Front(l, arrival, drawn, now);
      t == l.(incoming := t.incoming, collecting := t.collecting)
  {
    hide Process, Expire;
  }

  /** After collecting, a keepalive is sent exactly if a task is active, not cancelled,
      and its 100 ms are over; the next one is due 100 ms later. */
  lemma KeepaliveIff(l: Loop, now: int)
    ensures var c, t := Collect(l), Back(l, now);
      if c.active.Some? && !c.active.value.cancelRequested && now >= c.active.value.nextKeepalive then
        && t.log == c.log + [Entry(c.active.value.generation, c.active.value.cid, KeepaliveSent)]
        && t.active == Some(c.active.value.(nextKeepalive := now + 100_000_000))
      else t.log == c.log && t.active == c.active
  {
    hide Collect;
  }

  // ----- the loop as an object -----

  /** The local variables of run(), updated in place. */
  class Running {
    var incoming: Option<Incoming>
    var channels: set<u32>
    var active: Option<Task>
    var completion: Option<TaskResult>
    var worker: Option<Worker>
    var nextGeneration: nat
    var collecting: bool
    ghost var guardFired: bool
    ghost var handlerShared: bool
    ghost var log: seq<Entry>

    ghost function State(): (l: Loop)
      reads this
    {
      Loop(incoming, channels, active, completion, worker, nextGeneration, collecting, guardFired, handlerShared, log)
    }

    constructor ()
      ensures State() == Initial()
    {
      incoming, channels, active, completion, worker := None, {}, None, None, None;
      nextGeneration, collecting := 1, false;
      guardFired, handlerShared, log := false, false, [];
    }

    /** From the timeout check to the end of the frame handling. */
    method FrontHalf(arrival: Arrival, drawn: u32, now: int)
      modifies this
      ensures State() == Front(old(State()), arrival, drawn, now)
    {
      hide Process, OnReport;
      if incoming.Some? && now >= incoming.value.deadline {
        incoming := None;
      }
      match arrival {
        case NoFrame => collecting := true;
        case Unreadable =>
        case Arrived(raw) =>
          var activeCid := if active.Some? then Some(active.value.cid) else None;
          var (next, out) := Process(incoming, raw, activeCid, channels, now);
          incoming := next;
          match out {
            case Fault(_, _) =>
            case Nothing => collecting := true;
            case Complete(r) => Act(r, drawn, now);
          }
      }
    }

    /** The dispatch on a completed report. */
    method Act(r: Report, drawn: u32, now: int)
      modifies this
      ensures State() == OnReport(old(State()), r, drawn, now)
    {
      if r.cmd == CMD_CANCEL {
        if active.Some? && active.value.cid == r.cid && !active.value.discardResult {
          log := log + [Entry(active.value.generation, active.value.cid, CancelRequested)];
          active := Some(active.value.(cancelRequested := true));
        }
        return;
      }
      if r.cmd == CMD_INIT {
        if r.payload == [] || (active.Some? && r.cid != active.value.cid) {
          guardFired := true;
          return;
        }
        if r.cid == BROADCAST {
          channels := channels + {drawn};
        } else if r.cid !in channels {
          guardFired := true;
        } else if active.Some? && active.value.cid == r.cid {
          log := log + [Entry(active.value.generation, active.value.cid, AbortRequested)];
          active := Some(active.value.(cancelRequested := true, discardResult := true));
        } else {
          handlerShared := handlerShared || worker.Some?;
        }
        return;
      }
      if r.cid !in channels || active.Some? {
        guardFired := true;
        return;
      }
      if r.cmd != CMD_CBOR || r.payload == [] {
        return;
      }
      var generation := nextGeneration;
      nextGeneration := nextGeneration + 1;
      active := Some(Task(generation, r.cid, now + KEEPALIVE, false, false));
      worker := Some(Worker(generation, r, false));
      log := log + [Entry(generation, r.cid, Started)];
      collecting := true;
    }

    /** From taking the completion slot to the keepalive. */
    method BackHalf(now: int)
      modifies this
      ensures State() == Back(old(State()), now)
    {
      var ready := completion;
      completion := None;
      if ready.Some? && active.Some? && ready.value.generation == active.value.generation {
        worker := None;
        if !active.value.discardResult {
          log := log + [Entry(active.value.generation, active.value.cid, FinalSent(ready.value.packet))];
        } else {
          log := log + [Entry(active.value.generation, active.value.cid, ResultDropped)];
          handlerShared := handlerShared || worker.Some?;
        }
        active := None;
      }
      if active.Some? && now >= active.value.nextKeepalive && !active.value.cancelRequested {
        log := log + [Entry(active.value.generation, active.value.cid, KeepaliveSent)];
        active := Some(active.value.(nextKeepalive := now + KEEPALIVE));
      }
      collecting := false;
    }

    /** The worker's function: the handler's packet or one for the exception, then the
        slot. */
    method WorkerPublishes(exit: Exit)
      requires worker.Some?
      modifies this
      ensures State() == Publish(old(State()), exit)
    {
      var request := worker.value.request;
      var packet;
      match exit {
        case Responds(payload) =>
          packet := CtapPacket(request.cid, CMD_CBOR + 0x80, 0, []);
          if |payload| > MAX_PAYLOAD {
            packet := CborError(request.cid, REQUEST_TOO_LARGE);
          } else {
            packet := packet.(len := |payload|, payload := payload);
          }
        case Refuses(code) => packet := CborError(request.cid, code);
        case OperationCancelled => packet := CborError(request.cid, KEEPALIVE_CANCEL);
        case UserActionTimedOut => packet := CborError(request.cid, OPERATION_DENIED);
        case Throws => packet := CborError(request.cid, OTHER);
      }
      completion := Some(TaskResult(worker.value.generation, request.cid, packet));
      worker := Some(worker.value.(published := true));
    }
  }
}
