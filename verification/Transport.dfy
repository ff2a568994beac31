/** Fragmentation and reassembly together: what a host cuts into frames is what the
    authenticator puts together, whatever arrives on other channels in between. */
module Transport {
  import opened Base
  import opened Packet
  import opened FrameProcessor
  import BigEndian

  datatype Input =
    | Frame(raw: seq<byte>, active: Option<u32>, channels: set<u32>, now: int)
    | Tick(now: int)

  function One(incoming: Option<Incoming>, i: Input): (r: (Option<Incoming>, Outcome)) {
    match i
    case Frame(raw, active, channels, now) => Process(incoming, raw, active, channels, now)
    case Tick(now) => Expire(incoming, now)
  }

  /** The processor after a sequence of inputs, and the reports it completed. */
  function Feed(incoming: Option<Incoming>, inputs: seq<Input>): (r: (Option<Incoming>, seq<Report>))
    decreases |inputs|
  {
    if inputs == [] then (incoming, []) else
    var (next, out) := One(incoming, inputs[0]);
    var (end, reports) := Feed(next, inputs[1..]);
    (end, (if out.Complete? then [out.report] else []) + reports)
  }

  /** Nothing to do with channel `cid`: a frame of another channel or of the wrong
      size, or a clock tick before the deadline. */
  predicate Foreign(i: Input, cid: u32, deadline: int) {
    match i
    case Frame(raw, _, _, _) => Body(raw).None? || Cid(Body(raw).value) != cid
    case Tick(now) => now < deadline
  }

  /** The inputs are the frames, in order, with foreign inputs before any of them. */
  predicate Interleaved(inputs: seq<Input>, frames: seq<seq<byte>>, cid: u32, deadline: int) {
    if inputs == [] then frames == []
    else if frames == [] then false
    else if inputs[0].Frame? && Body(inputs[0].raw) == Some(frames[0])
    then Interleaved(inputs[1..], frames[1..], cid, deadline)
    else Foreign(inputs[0], cid, deadline) && Interleaved(inputs[1..], frames, cid, deadline)
  }

  /** An idle processor takes the packet's message: its length rules, the channel and
      the task now active allow it. */
  predicate Admits(p: CtapPacket, active: Option<u32>, channels: set<u32>) {
    var command := p.cmd % 0x80;
    && (command == CMD_INIT ==> p.len == 8)
    && (command == CMD_CANCEL ==> p.len == 0 && active == Some(p.cid))
    && (active.Some? ==> active.value == p.cid && (command == CMD_CANCEL || command == CMD_INIT))
    && (p.cid in channels || (p.cid == BROADCAST && command == CMD_INIT))
  }

  function Finished(p: CtapPacket, frames: byte): (r: Report) {
    Report(p.cid, p.cmd % 0x80, p.len, p.payload, frames)
  }

  /** The message after its first frame and k continuation frames. */
  function Partial(p: CtapPacket, k: nat, deadline: int): (i: Incoming)
    requires Framable(p) && INIT_PAYLOAD + CONT_PAYLOAD * k < p.len
  {
    Incoming(Report(p.cid, p.cmd % 0x80, p.len, p.payload[..INIT_PAYLOAD + CONT_PAYLOAD * k], k), deadline)
  }

  lemma FirstFrameReads(p: CtapPacket)
    requires Framable(p) && p.cmd >= 0x80
    ensures var f := FirstFrame(p);
      && Cid(f) == p.cid && IsInitial(f) && Command(f) == p.cmd % 0x80 && Length(f) == p.len
      && f[7..7 + Min(p.len, INIT_PAYLOAD)] == p.payload[..Min(p.len, INIT_PAYLOAD)]
  {
    hide BigEndian.Bytes4, BigEndian.Value4;
    var rest := [p.cmd, p.len / 256, p.len % 256] + Chunk(p.payload, 0, INIT_PAYLOAD);
    BigEndian.Value4Bytes4(p.cid, rest);
    assert FirstFrame(p) == BigEndian.Bytes4(p.cid) + rest;
  }

  lemma ContFrameReads(p: CtapPacket, offset: nat, sequence: byte)
    requires offset <= |p.payload| && sequence < 0x80
    ensures var f := ContFrame(p, offset, sequence);
      var n := Min(CONT_PAYLOAD, |p.payload| - offset);
      Cid(f) == p.cid && !IsInitial(f) && f[4] == sequence && f[5..5 + n] == p.payload[offset..offset + n]
  {
    hide BigEndian.Bytes4, BigEndian.Value4;
    var rest := [sequence] + Chunk(p.payload, offset, CONT_PAYLOAD);
    BigEndian.Value4Bytes4(p.cid, rest);
    assert ContFrame(p, offset, sequence) == BigEndian.Bytes4(p.cid) + rest;
  }

  /** The first frame on an idle processor starts or completes the message exactly if
      it is admitted. */
  lemma FirstStep(p: CtapPacket, i: Input)
    requires Framable(p) && p.cmd >= 0x80 && i.Frame? && Body(i.raw) == Some(FirstFrame(p))
    ensures !Admits(p, i.active, i.channels) ==> One(None, i).0.None? && !One(None, i).1.Complete?
    ensures Admits(p, i.active, i.channels) && p.len <= INIT_PAYLOAD ==>
      One(None, i) == (None, Complete(Finished(p, 0)))
    ensures Admits(p, i.active, i.channels) && p.len > INIT_PAYLOAD ==>
      One(None, i) == (Some(Partial(p, 0, i.now + ASSEMBLY_TIMEOUT)), Nothing)
  {
    hide FirstFrame, Cid, IsInitial, Command, Length, Body;
    FirstFrameReads(p);
    assert p.payload[..|p.payload|] == p.payload;
  }

  /** A continuation frame in its turn. */
  lemma NextStep(p: CtapPacket, k: nat, deadline: int, i: Input)
    requires Framable(p) && INIT_PAYLOAD + CONT_PAYLOAD * k < p.len
    requires i.Frame? && k < 0x80 && Body(i.raw) == Some(ContFrame(p, INIT_PAYLOAD + CONT_PAYLOAD * k, k))
    ensures One(Some(Partial(p, k, deadline)), i) ==
      if INIT_PAYLOAD + CONT_PAYLOAD * (k + 1) < p.len then (Some(Partial(p, k + 1, deadline)), Nothing)
      else (None, Complete(Finished(p, k + 1)))
  {
    hide ContFrame, Cid, IsInitial, Body;
    var offset := INIT_PAYLOAD + CONT_PAYLOAD * k;
    ContFrameReads(p, offset, k);
    var n := Min(CONT_PAYLOAD, |p.payload| - offset);
    assert p.payload[..offset] + p.payload[offset..offset + n] == p.payload[..offset + n];
    assert p.payload[..|p.payload|] == p.payload;
  }

  lemma ForeignStep(current: Incoming, i: Input)
    requires Foreign(i, current.report.cid, current.deadline)
    ensures One(Some(current), i).0 == Some(current) && !One(Some(current), i).1.Complete?
  {
    hide Cid, Body;
  }

  lemma {:induction false} RestAssembles(p: CtapPacket, k: nat, deadline: int, inputs: seq<Input>)
    requires Framable(p) && INIT_PAYLOAD + CONT_PAYLOAD * k < p.len && k < 0x80
    requires Interleaved(inputs, Continuations(p, INIT_PAYLOAD + CONT_PAYLOAD * k, k), p.cid, deadline)
    ensures var (end, reports) := Feed(Some(Partial(p, k, deadline)), inputs);
      end.None? && |reports| == 1 && reports[0].(sequence := 0) == Finished(p, 0)
    decreases |inputs|
  {
    hide One, ContFrame, Body, Foreign;
    var offset := INIT_PAYLOAD + CONT_PAYLOAD * k;
    var frames := Continuations(p, offset, k);
    assert frames[0] == ContFrame(p, offset, k);
    assert frames[1..] == Continuations(p, offset + CONT_PAYLOAD, k + 1);
    if inputs[0].Frame? && Body(inputs[0].raw) == Some(frames[0]) {
      NextStep(p, k, deadline, inputs[0]);
      if INIT_PAYLOAD + CONT_PAYLOAD * (k + 1) < p.len {
        RestAssembles(p, k + 1, deadline, inputs[1..]);
      } else {
        assert inputs[1..] == [];
      }
    } else {
      ForeignStep(Partial(p, k, deadline), inputs[0]);
      RestAssembles(p, k, deadline, inputs[1..]);
    }
  }

  /** Channel `cid` is not being assembled. */
  predicate Elsewhere(incoming: Option<Incoming>, cid: u32) {
    incoming.Some? ==> incoming.value.report.cid != cid
  }

  lemma ElsewhereStep(incoming: Option<Incoming>, i: Input, cid: u32)
    requires Elsewhere(incoming, cid)
    requires i.Frame? ==> Body(i.raw).None? || Cid(Body(i.raw).value) != cid || !IsInitial(Body(i.raw).value)
    ensures Elsewhere(One(incoming, i).0, cid)
    ensures One(incoming, i).1.Complete? ==> One(incoming, i).1.report.cid != cid
  {
    hide Cid, Body;
  }

  lemma {:induction false} RefusedStaysOut(p: CtapPacket, k: nat, incoming: Option<Incoming>, deadline: int, inputs: seq<Input>)
    requires Framable(p) && Elsewhere(incoming, p.cid) && k <= 129
    requires INIT_PAYLOAD + CONT_PAYLOAD * k < p.len ==> k < 0x80
    requires Interleaved(inputs, Continuations(p, INIT_PAYLOAD + CONT_PAYLOAD * k, k), p.cid, deadline)
    ensures forall r :: r in Feed(incoming, inputs).1 ==> r.cid != p.cid
    decreases |inputs|
  {
    hide One, ContFrame, Cid, IsInitial, Body;
    if inputs == [] {
    } else {
      var offset := INIT_PAYLOAD + CONT_PAYLOAD * k;
      var frames := Continuations(p, offset, k);
      ContFrameReads(p, offset, k);
      assert frames[0] == ContFrame(p, offset, k);
      assert frames[1..] == Continuations(p, offset + CONT_PAYLOAD, k + 1);
      ElsewhereStep(incoming, inputs[0], p.cid);
      var own := inputs[0].Frame? && Body(inputs[0].raw) == Some(frames[0]);
      RefusedStaysOut(p, if own then k + 1 else k, One(incoming, inputs[0]).0, deadline, inputs[1..]);
    }
  }

  /** The round trip. Cut a packet into frames and feed them to an idle processor,
      with or without report IDs, with any frames of other channels and any ticks
      before the deadline after the first one: if the packet is admitted, exactly one
      report comes out, with the packet's channel, command, length and payload, and
      the processor is idle again; if not, its channel completes nothing. */
  lemma RoundTrip(p: CtapPacket, first: Input, rest: seq<Input>)
    requires Framable(p) && p.cmd >= 0x80
    requires first.Frame? && Body(first.raw) == Some(Frames(p)[0])
    requires Interleaved(rest, Frames(p)[1..], p.cid, first.now + ASSEMBLY_TIMEOUT)
    ensures var (end, reports) := Feed(None, [first] + rest);
      if Admits(p, first.active, first.channels)
      then end.None? && |reports| == 1 && reports[0].(sequence := 0) == Finished(p, 0)
      else forall r :: r in reports ==> r.cid != p.cid
  {
    hide One, FirstFrame, Body, Foreign, Admits;
    assert Frames(p)[0] == FirstFrame(p);
    assert Frames(p)[1..] == Continuations(p, INIT_PAYLOAD, 0);
    FirstStep(p, first);
    assert ([first] + rest)[1..] == rest;
    var deadline := first.now + ASSEMBLY_TIMEOUT;
    if !Admits(p, first.active, first.channels) {
      RefusedStaysOut(p, 0, None, deadline, rest);
    } else if p.len > INIT_PAYLOAD {
      RestAssembles(p, 0, deadline, rest);
    } else {
      assert Continuations(p, INIT_PAYLOAD, 0) == [];
      assert rest == [];
    }
  }
}
