/** CTAPHID packets and the 64-byte frames they are cut into (section 8.1.4 of the
    FIDO CTAP 2.0 specification). */
module Packet {
  import opened Base
  import BigEndian

  const FRAME: nat := 64
  const MAX_PAYLOAD: nat := 7609
  const INIT_PAYLOAD: nat := 57
  const CONT_PAYLOAD: nat := 59

  type u16 = x: int | 0 <= x <= 0xFFFF

  datatype CtapPacket = CtapPacket(cid: u32, cmd: byte, len: u16, payload: seq<byte>)

  function Min(a: nat, b: nat): (m: nat) {
    if a <= b then a else b
  }

  function Zeros(n: nat): (z: seq<byte>)
    ensures |z| == n
  {
    if n == 0 then [] else Zeros(n - 1) + [0]
  }

  /** `room` bytes of the payload from `offset` on, zero-padded at the end. */
  function Chunk(payload: seq<byte>, offset: nat, room: nat): (s: seq<byte>)
    requires offset <= |payload|
    ensures |s| == room
  {
    var n := Min(room, |payload| - offset);
    payload[offset..offset + n] + Zeros(room - n)
  }

  function FirstFrame(p: CtapPacket): (f: seq<byte>)
    ensures |f| == FRAME
  {
    BigEndian.Bytes4(p.cid) + [p.cmd, p.len / 256, p.len % 256] + Chunk(p.payload, 0, INIT_PAYLOAD)
  }

  function ContFrame(p: CtapPacket, offset: nat, sequence: byte): (f: seq<byte>)
    requires offset <= |p.payload|
    ensures |f| == FRAME
  {
    BigEndian.Bytes4(p.cid) + [sequence] + Chunk(p.payload, offset, CONT_PAYLOAD)
  }

  /** The continuation frames from `offset` on. */
  function Continuations(p: CtapPacket, offset: nat, sequence: byte): (fs: seq<seq<byte>>)
    decreases |p.payload| - offset
  {
    if offset >= |p.payload| then []
    else [ContFrame(p, offset, sequence)] + Continuations(p, offset + CONT_PAYLOAD, (sequence + 1) % 256)
  }

  predicate Framable(p: CtapPacket) {
    |p.payload| == p.len && |p.payload| <= MAX_PAYLOAD
  }

  function Frames(p: CtapPacket): (fs: seq<seq<byte>>) {
    [FirstFrame(p)] + Continuations(p, INIT_PAYLOAD, 0)
  }

  /** Every continuation frame is 64 bytes on the packet's channel, numbered in turn,
      and none is without payload. */
  lemma {:induction false} ContinuationsShape(p: CtapPacket, offset: nat, sequence: nat)
    requires sequence < 256 && |p.payload| - offset + CONT_PAYLOAD * sequence <= CONT_PAYLOAD * 256
    ensures var fs := Continuations(p, offset, sequence);
      && (forall i :: 0 <= i < |fs| ==>
            |fs[i]| == FRAME && fs[i][..4] == BigEndian.Bytes4(p.cid) && fs[i][4] == sequence + i)
      && (fs != [] ==> CONT_PAYLOAD * (|fs| - 1) < |p.payload| - offset <= CONT_PAYLOAD * |fs|)
    decreases |p.payload| - offset
  {
    if offset >= |p.payload| {
    } else {
      hide Chunk;
      var fs := Continuations(p, offset, sequence);
      assert fs[0][..4] == BigEndian.Bytes4(p.cid);
      if offset + CONT_PAYLOAD < |p.payload| {
        ContinuationsShape(p, offset + CONT_PAYLOAD, sequence + 1);
        assert fs[1..] == Continuations(p, offset + CONT_PAYLOAD, sequence + 1);
        assert forall i :: 1 <= i < |fs| ==> fs[i] == fs[1..][i - 1];
      }
    }
  }

  /** At most 128 continuation frames, numbered 0 to 127: bit 7 of the byte that tells
      initial from continuation frames stays clear. */
  lemma FrameNumbersFit(p: CtapPacket)
    requires Framable(p)
    ensures |Continuations(p, INIT_PAYLOAD, 0)| <= 128
    ensures forall i :: 0 <= i < |Continuations(p, INIT_PAYLOAD, 0)| ==>
      |Continuations(p, INIT_PAYLOAD, 0)[i]| == FRAME && Continuations(p, INIT_PAYLOAD, 0)[i][4] == i
  {
    ContinuationsShape(p, INIT_PAYLOAD, 0);
  }

  /** A first frame: the channel and the length most significant byte first, and as
      much of the payload as fits, then zeros. */
  lemma FirstFrameLayout(p: CtapPacket)
    ensures var f := FirstFrame(p);
      && f[..4] == [p.cid / 0x100_0000, p.cid / 0x1_0000 % 256, p.cid / 0x100 % 256, p.cid % 256]
      && f[4] == p.cmd && f[5] == p.len / 256 && f[6] == p.len % 256
      && (forall i :: 0 <= i < 57 ==> f[7 + i] == if i < |p.payload| then p.payload[i] else 0)
  {
    AllZeros(INIT_PAYLOAD - Min(INIT_PAYLOAD, |p.payload|));
  }

  lemma {:induction false} AllZeros(n: nat)
    ensures forall i :: 0 <= i < n ==> Zeros(n)[i] == 0
  {
    if n == 0 {
    } else {
      AllZeros(n - 1);
    }
  }

  /** stringify; None is either of its exceptions. */
  method Stringify(p: CtapPacket) returns (r: Option<seq<seq<byte>>>)
    ensures r == if Framable(p) then Some(Frames(p)) else None
  {
    if |p.payload| != p.len || |p.payload| > MAX_PAYLOAD {
      return None;
    }
    hide Chunk, Continuations;
    var channel := Channel(p.cid);
    var frame: seq<byte> := channel + [p.cmd, p.len / 256, p.len % 256];
    var offset := 0;
    frame, offset := Fill(p.payload, frame, 0);
    FirstStep(p);
    var frames: seq<seq<byte>> := [frame];
    var sequence: byte := 0;
    while offset < |p.payload|
      invariant offset <= |p.payload|
      invariant Frames(p) == frames + Continuations(p, offset, sequence)
      decreases |p.payload| - offset
    {
      ContinuationStep(p, offset, sequence);
      var continuation: seq<byte> := channel + [sequence];
      continuation, offset := Fill(p.payload, continuation, offset);
      sequence := (sequence + 1) % 256;
      frames := frames + [continuation];
    }
    FinishedStep(p, offset, sequence);
    assert frames + [] == frames;
    return Some(frames);
  }

  /** The channel ID bytes, by shifts and masks. */
  method Channel(cid: u32) returns (s: seq<byte>)
    ensures s == BigEndian.Bytes4(cid)
  {
    var top := cid / 0x100_0000;
    assert 0 <= top < 256;
    s := [top % 256, cid / 0x1_0000 % 256, cid / 0x100 % 256, cid % 256];
  }

  lemma FinishedStep(p: CtapPacket, offset: nat, sequence: byte)
    requires offset >= |p.payload|
    ensures Continuations(p, offset, sequence) == []
  {
  }

  lemma FirstStep(p: CtapPacket)
    ensures Frames(p) == [FirstFrame(p)] + Continuations(p, Min(INIT_PAYLOAD, |p.payload|), 0)
  {
    if |p.payload| <= INIT_PAYLOAD {
      FinishedStep(p, INIT_PAYLOAD, 0);
      FinishedStep(p, |p.payload|, 0);
    }
  }

  lemma ContinuationStep(p: CtapPacket, offset: nat, sequence: byte)
    requires offset < |p.payload|
    ensures Continuations(p, offset, sequence) == [ContFrame(p, offset, sequence)]
      + Continuations(p, offset + Min(CONT_PAYLOAD, |p.payload| - offset), (sequence + 1) % 256)
  {
    if offset + CONT_PAYLOAD >= |p.payload| {
      FinishedStep(p, offset + CONT_PAYLOAD, (sequence + 1) % 256);
      FinishedStep(p, |p.payload|, (sequence + 1) % 256);
    }
  }

  /** The inner loop: bytes of the payload, then zeros, until the frame is full. */
  method Fill(payload: seq<byte>, head: seq<byte>, start: nat) returns (frame: seq<byte>, offset: nat)
    requires start <= |payload| && |head| < FRAME
    ensures frame == head + Chunk(payload, start, FRAME - |head|)
    ensures offset == start + Min(FRAME - |head|, |payload| - start)
  {
    frame, offset := head, start;
    while |frame| < FRAME
      invariant |head| <= |frame| <= FRAME
      invariant offset == start + Min(|frame| - |head|, |payload| - start)
      invariant frame == head + Chunk(payload, start, |frame| - |head|)
    {
      if offset < |payload| {
        frame := frame + [payload[offset]];
        offset := offset + 1;
      } else {
        frame := frame + [0];
      }
    }
  }
}
