/** Big-endian integers: the store generation in the file header, channel IDs in
    frames and the user ID in verifier packets. */
module BigEndian {
  import opened Base

  function Pow256(n: nat): (p: int)
    ensures p > 0
  {
    if n == 0 then 1 else Pow256(n - 1) * 256
  }

  /** The n low-order bytes of v, most significant first. */
  function Bytes(v: nat, n: nat): (s: seq<byte>)
    ensures |s| == n
  {
    if n == 0 then [] else Bytes(v / 256, n - 1) + [v % 256]
  }

  function Value(s: seq<byte>): (v: nat) {
    if s == [] then 0 else Value(s[..|s| - 1]) * 256 + s[|s| - 1]
  }

  lemma {:induction false} ValueBound(s: seq<byte>)
    ensures Value(s) < Pow256(|s|)
  {
    if s == [] {
    } else {
      ValueBound(s[..|s| - 1]);
    }
  }

  lemma {:induction false} ValueOfBytes(v: nat, n: nat)
    requires v < Pow256(n)
    ensures Value(Bytes(v, n)) == v
  {
    hide Pow256, Value;
    if n == 0 {
      NoBytes(v);
    } else {
      QuotientBound(v, n);
      ValueOfBytes(v / 256, n - 1);
      ValueSnoc(Bytes(v / 256, n - 1), v % 256);
    }
  }

  lemma NoBytes(v: nat)
    ensures v < Pow256(0) ==> Value([]) == v
  {
  }

  lemma QuotientBound(v: nat, n: nat)
    requires n > 0 && v < Pow256(n)
    ensures 0 <= v / 256 < Pow256(n - 1)
  {
  }

  lemma ValueSnoc(s: seq<byte>, b: byte)
    ensures Value(s + [b]) == Value(s) * 256 + b
  {
    assert (s + [b])[..|s|] == s;
  }

  lemma {:induction false} BytesOfValue(s: seq<byte>)
    ensures Bytes(Value(s), |s|) == s
  {
    if s == [] {
    } else {
      BytesOfValue(s[..|s| - 1]);
      assert s == s[..|s| - 1] + [s[|s| - 1]];
    }
  }

  lemma Powers()
    ensures Pow256(0) == 1 && Pow256(1) == 0x100 && Pow256(2) == 0x1_0000 && Pow256(3) == 0x100_0000
    ensures Pow256(4) == 0x1_0000_0000 && Pow256(5) == 0x100_0000_0000
    ensures Pow256(6) == 0x1_0000_0000_0000 && Pow256(7) == 0x100_0000_0000_0000
    ensures Pow256(8) == MAX_U64 + 1
  {
    assert Pow256(2) == 0x1_0000;
    assert Pow256(4) == 0x1_0000_0000;
    assert Pow256(6) == 0x1_0000_0000_0000;
  }

  /** A shift to the right by k bytes. */
  function Shifted(v: u64, k: nat): (r: nat) {
    assert 0 <= v / Pow256(k) by {
      QuotientNatural(v, Pow256(k));
    }
    v / Pow256(k)
  }

  lemma QuotientNatural(v: nat, p: int)
    requires p > 0
    ensures v / p >= 0
  {
  }

  /** Shifting by one more byte: the step from one byte position to the next. */
  lemma ShiftByte(v: u64, k: nat)
    requires k < 8
    ensures Shifted(v, k) / 256 == Shifted(v, k + 1)
  {
    Powers();
    match k {
      case 0 => case 1 => case 2 => case 3 => case 4 => case 5 => case 6 => case 7 =>
    }
  }

  /** append_uint64_be: eight shifts, most significant byte first. */
  method AppendUint64(output: seq<byte>, value: u64) returns (r: seq<byte>)
    ensures r == output + Bytes(value, 8)
  {
    r := output;
    var k := 8;
    Unshifted(value);
    hide Bytes, Shifted;
    while k > 0
      invariant 0 <= k <= 8
      invariant r == output + Bytes(Shifted(value, k), 8 - k)
    {
      k := k - 1;
      OneMoreByte(value, k);
      r := r + [Shifted(value, k) % 256];
    }
  }

  lemma OneMoreByte(v: u64, k: nat)
    requires k < 8
    ensures Bytes(Shifted(v, k), 8 - k) == Bytes(Shifted(v, k + 1), 8 - k - 1) + [Shifted(v, k) % 256]
  {
    hide Shifted;
    ShiftByte(v, k);
  }

  lemma Unshifted(v: u64)
    ensures Bytes(Shifted(v, 8), 0) == [] && Shifted(v, 0) == v
  {
  }

  /** read_uint64_be: accumulate from the most significant byte. */
  method ReadUint64(bytes: seq<byte>) returns (value: u64)
    requires |bytes| == 8
    ensures value == Value(bytes)
    ensures Bytes(value, 8) == bytes
  {
    var v: nat := 0;
    for i := 0 to 8
      invariant v == Value(bytes[..i])
    {
      assert bytes[..i + 1][..i] == bytes[..i];
      v := v * 256 + bytes[i];
    }
    assert bytes[..8] == bytes;
    ValueBound(bytes);
    Powers();
    BytesOfValue(bytes);
    value := v;
  }

  /** The generation written to a header is the generation read from it. */
  lemma GenerationRoundTrip(v: u64)
    ensures Value(Bytes(v, 8)) == v
  {
    Powers();
    ValueOfBytes(v, 8);
  }

  function Bytes4(v: u32): (s: seq<byte>)
    ensures |s| == 4
  {
    [v / 0x100_0000, v / 0x1_0000 % 256, v / 0x100 % 256, v % 256]
  }

  function Value4(s: seq<byte>): (v: u32)
    requires |s| >= 4
  {
    var a: int, b: int, c: int := s[0], s[1], s[2];
    a * 0x100_0000 + b * 0x1_0000 + c * 0x100 + s[3]
  }

  lemma Value4Bytes4(v: u32, rest: seq<byte>)
    ensures Value4(Bytes4(v) + rest) == v
  {
    var a, b, c := v / 0x100, v / 0x1_0000, v / 0x100_0000;
    assert v == a * 256 + v % 256;
    assert a == b * 256 + a % 256;
    assert b == c * 256 + b % 256;
  }

  lemma Bytes4Value4(s: seq<byte>)
    requires |s| == 4
    ensures Bytes4(Value4(s)) == s
  {
    var v := Value4(s);
    var a: int, b: int, c: int := s[0], s[1], s[2];
    assert v / 0x100 == a * 0x1_0000 + b * 0x100 + c;
    assert v / 0x1_0000 == a * 0x100 + b;
    assert v / 0x100_0000 == a;
  }
}
