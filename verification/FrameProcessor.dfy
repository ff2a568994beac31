/** Reassembly of CTAPHID messages from frames, and the round trip through
    fragmentation and reassembly (section 8.1.5 of the FIDO CTAP 2.0 specification). */
module FrameProcessor {
  import opened Base
  import opened Packet
  import BigEndian

  const BROADCAST: u32 := 0xFFFF_FFFF
  const CMD_INIT: byte := 0x06
  const CMD_CBOR: byte := 0x10
  const CMD_CANCEL: byte := 0x11

  datatype HidError = InvalidLength | InvalidSeq | Timeout | ChannelBusy | InvalidChannel

  datatype Report = Report(cid: u32, cmd: byte, len: u16, payload: seq<byte>, sequence: byte)

  datatype Incoming = Incoming(report: Report, deadline: int)

  datatype Outcome = Nothing | Fault(cid: u32, error: HidError) | Complete(report: Report)

  /** 3 s in nanoseconds. */
  const ASSEMBLY_TIMEOUT: int := 3_000_000_000

  /** The 64 bytes of a raw frame, without the report ID the kernel may prepend. */
  function Body(raw: seq<byte>): (f: Option<seq<byte>>)
    ensures f.Some? ==> |f.value| == FRAME
  {
    var f := if |raw| == 65 && raw[0] == 0 then raw[1..] else raw;
    if |f| == FRAME then Some(f) else None
  }

  function Cid(f: seq<byte>): (c: u32)
    requires |f| == FRAME
  {
    BigEndian.Value4(f)
  }

  predicate IsInitial(f: seq<byte>)
    requires |f| == FRAME
  {
    f[4] >= 0x80
  }

  function Command(f: seq<byte>): (c: byte)
    requires |f| == FRAME
  {
    f[4] % 0x80
  }

  function Length(f: seq<byte>): (n: u16)
    requires |f| == FRAME
  {
    var high: int := f[5];
    high * 256 + f[6]
  }

  /** A continuation frame on the channel being assembled. */
  function Continue(current: Incoming, f: seq<byte>): (r: (Option<Incoming>, Outcome))
    requires |f| == FRAME
  {
    var c := current.report;
    if f[4] != c.sequence then (None, Fault(c.cid, InvalidSeq)) else
    var remaining := (c.len - |c.payload|) % 0x1_0000_0000_0000_0000;
    var amount := Min(remaining, CONT_PAYLOAD);
    var next := c.(sequence := (c.sequence + 1) % 256, payload := c.payload + f[5..5 + amount]);
    if |next.payload| != next.len then (Some(current.(report := next)), Nothing)
    else (None, Complete(next))
  }

  /** The error an initial frame meets before it touches the message being assembled.
      `Some(None)` is the silent refusal of a stray CANCEL. */
  function Refusal(incoming: Option<Incoming>, f: seq<byte>, active: Option<u32>, channels: set<u32>): (r: Option<Option<HidError>>)
    requires |f| == FRAME
  {
    var cid, command, length := Cid(f), Command(f), Length(f);
    if length > MAX_PAYLOAD then Some(Some(InvalidLength))
    else if (command == CMD_INIT && length != 8) || (command == CMD_CANCEL && length != 0) then Some(Some(InvalidLength))
    else if command == CMD_CANCEL && active != Some(cid) then Some(None)
    else if active.Some? && !(cid == active.value && (command == CMD_CANCEL || command == CMD_INIT)) then Some(Some(ChannelBusy))
    else if incoming.Some? && cid != incoming.value.report.cid then Some(Some(ChannelBusy))
    else if !(cid == BROADCAST && command == CMD_INIT) && cid !in channels then Some(Some(InvalidChannel))
    else None
  }

  function Begin(f: seq<byte>, now: int): (r: (Option<Incoming>, Outcome))
    requires |f| == FRAME
  {
    var length := Length(f);
    var next := Report(Cid(f), Command(f), length, f[7..7 + Min(length, INIT_PAYLOAD)], 0);
    if |next.payload| == next.len then (None, Complete(next))
    else (Some(Incoming(next, now + ASSEMBLY_TIMEOUT)), Nothing)
  }

  /** process() */
  function Process(incoming: Option<Incoming>, raw: seq<byte>, active: Option<u32>, channels: set<u32>, now: int):
      (r: (Option<Incoming>, Outcome))
  {
    var body := Body(raw);
    if body.None? then (incoming, Nothing) else
    var f := body.value;
    if !IsInitial(f) then
      if incoming.None? || Cid(f) != incoming.value.report.cid then (incoming, Nothing)
      else Continue(incoming.value, f)
    else
      var refusal := Refusal(incoming, f, active, channels);
      if refusal == Some(None) then (incoming, Nothing)
      else if refusal.Some? then (incoming, Fault(Cid(f), refusal.value.value))
      else if incoming.Some? && Command(f) != CMD_INIT then (None, Fault(incoming.value.report.cid, InvalidSeq))
      else Begin(f, now)
  }

  /** expire() */
  function Expire(incoming: Option<Incoming>, now: int): (r: (Option<Incoming>, Outcome)) {
    if incoming.None? || now < incoming.value.deadline then (incoming, Nothing)
    else (None, Fault(incoming.value.report.cid, Timeout))
  }

  // ----- the assembly invariant -----

  /** While assembling, the payload is exactly the full frames received, short of the
      announced length, which is within the transport limit. */
  predicate Assembling(incoming: Option<Incoming>) {
    incoming.Some? ==>
      var c := incoming.value.report;
      |c.payload| == INIT_PAYLOAD + CONT_PAYLOAD * c.sequence && |c.payload| < c.len <= MAX_PAYLOAD
  }

  /** Every frame and every timeout keeps the invariant, so the sequence number stays
      below 128, neither the subtraction nor the counter ever wraps, and a completed
      message has exactly the announced length, within the transport limit. */
  lemma ProcessKeeps(incoming: Option<Incoming>, raw: seq<byte>, active: Option<u32>, channels: set<u32>, now: int)
    requires Assembling(incoming)
    ensures Assembling(Process(incoming, raw, active, channels, now).0)
    ensures Assembling(Expire(incoming, now).0)
    ensures incoming.Some? ==> incoming.value.report.sequence < 128
    ensures incoming.Some? ==> incoming.value.report.len - |incoming.value.report.payload| > 0
    ensures var r := Process(incoming, raw, active, channels, now).1;
      r.Complete? ==> |r.report.payload| == r.report.len <= MAX_PAYLOAD
  {
    hide Cid;
  }

  // ----- what is refused, and how -----

  /** A message past its deadline is dropped and reported on its channel; nothing else
      expires. */
  lemma ExpireIff(incoming: Option<Incoming>, now: int)
    ensures Expire(incoming, now) ==
      if incoming.Some? && incoming.value.deadline <= now then (None, Fault(incoming.value.report.cid, Timeout))
      else (incoming, Nothing)
  {
  }

  /** The length a first frame announces is beyond the transport, or wrong for its
      command. */
  predicate BadLength(command: byte, length: u16) {
    length > 7609 || (command == 0x06 && length != 8) || (command == 0x11 && length != 0)
  }

  /** The active task leaves its channel only INIT and CANCEL, and others nothing. */
  predicate TaskForbids(active: Option<u32>, cid: u32, command: byte) {
    active.Some? && (active.value != cid || (command != 0x06 && command != 0x11))
  }

  /** The answers to a first frame that is not taken, in order of precedence. All but
      the last leave a message being assembled alone. */
  lemma FirstFrameRefusals(
      incoming: Option<Incoming>, raw: seq<byte>, active: Option<u32>, channels: set<u32>, now: int, f: seq<byte>)
    requires Body(raw) == Some(f) && f[4] >= 0x80
    ensures var r := Process(incoming, raw, active, channels, now);
      var cid, command, length := Cid(f), f[4] % 0x80, Length(f);
      var stray := command == 0x11 && active != Some(cid);
      var busy := TaskForbids(active, cid, command) || (incoming.Some? && incoming.value.report.cid != cid);
      var unknown := cid !in channels && !(cid == 0xFFFF_FFFF && command == 0x06);
      && (BadLength(command, length) ==> r == (incoming, Fault(cid, InvalidLength)))
      && (!BadLength(command, length) && stray ==> r == (incoming, Nothing))
      && (!BadLength(command, length) && !stray && busy ==> r == (incoming, Fault(cid, ChannelBusy)))
      && (!BadLength(command, length) && !stray && !busy && unknown ==> r == (incoming, Fault(cid, InvalidChannel)))
      && (!BadLength(command, length) && !stray && !busy && !unknown ==>
            if incoming.Some? && command != 0x06 then r == (None, Fault(cid, InvalidSeq)) else !r.1.Fault?)
  {
    hide Cid, Length;
  }

  /** A continuation frame out of order drops the message and is reported; one for
      another channel, or of the wrong size, is ignored. */
  lemma ContinuationRefusals(
      incoming: Option<Incoming>, raw: seq<byte>, active: Option<u32>, channels: set<u32>, now: int)
    ensures var r, body := Process(incoming, raw, active, channels, now), Body(raw);
      && (body.None? <==> |raw| != 64 && !(|raw| == 65 && raw[0] == 0))
      && (body.None? ==> r == (incoming, Nothing))
      && (body.Some? && body.value[4] < 0x80 ==>
            if incoming.None? || Cid(body.value) != incoming.value.report.cid then r == (incoming, Nothing)
            else if body.value[4] != incoming.value.report.sequence then
              r == (None, Fault(incoming.value.report.cid, InvalidSeq))
            else !r.1.Fault?)
  {
    hide Cid;
  }

  class Processor {
    var incoming: Option<Incoming>

    constructor ()
      ensures incoming.None?
    {
      incoming := None;
    }

    method ProcessFrame(raw: seq<byte>, active: Option<u32>, channels: set<u32>, now: int) returns (r: Outcome)
      requires Assembling(incoming)
      modifies this
      ensures (incoming, r) == Process(old(incoming), raw, active, channels, now)
      ensures Assembling(incoming)
    {
      hide Cid;
      ProcessKeeps(incoming, raw, active, channels, now);
      var f := raw;
      if |f| == 65 && f[0] == 0 {
        f := f[1..];
      }
      if |f| != FRAME {
        return Nothing;
      }
      var cid := Cid(f);
      if f[4] < 0x80 {
        if incoming.None? || cid != incoming.value.report.cid {
          return Nothing;
        }
        var current := incoming.value.report;
        if f[4] != current.sequence {
          incoming := None;
          return Fault(current.cid, InvalidSeq);
        }
        var amount := Min(current.len - |current.payload|, CONT_PAYLOAD);
        current := current.(sequence := current.sequence + 1, payload := current.payload + f[5..5 + amount]);
        incoming := Some(incoming.value.(report := current));
        if |current.payload| != current.len {
          return Nothing;
        }
        incoming := None;
        return Complete(current);
      }
      var command, length := Command(f), Length(f);
      if length > MAX_PAYLOAD || (command == CMD_INIT && length != 8) || (command == CMD_CANCEL && length != 0) {
        return Fault(cid, InvalidLength);
      }
      if command == CMD_CANCEL && (active.None? || cid != active.value) {
        return Nothing;
      }
      if active.Some? && !(cid == active.value && (command == CMD_CANCEL || command == CMD_INIT)) {
        return Fault(cid, ChannelBusy);
      }
      if incoming.Some? && cid != incoming.value.report.cid {
        return Fault(cid, ChannelBusy);
      }
      if !(cid == BROADCAST && command == CMD_INIT) && cid !in channels {
        return Fault(cid, InvalidChannel);
      }
      if incoming.Some? {
        var interrupted := incoming.value.report.cid;
        incoming := None;
        if command != CMD_INIT {
          return Fault(interrupted, InvalidSeq);
        }
      }
      var next := Report(cid, command, length, f[7..7 + Min(length, INIT_PAYLOAD)], 0);
      if |next.payload| == next.len {
        return Complete(next);
      }
      incoming := Some(Incoming(next, now + ASSEMBLY_TIMEOUT));
      return Nothing;
    }

    method ExpireIncoming(now: int) returns (r: Outcome)
      modifies this
      ensures (incoming, r) == Expire(old(incoming), now)
    {
      if incoming.None? || now < incoming.value.deadline {
        return Nothing;
      }
      r := Fault(incoming.value.report.cid, Timeout);
      incoming := None;
    }
  }
}
