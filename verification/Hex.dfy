/** The hexadecimal text form of a credential ID, which is the key of the
    credential map and the form in which IDs are saved. */
module Hex {
  import opened Base

  /** Upper-case digit, as `%02X` prints it. */
  function Digit(n: int): (d: byte)
    requires 0 <= n < 16
  {
    if n < 10 then 48 + n else 55 + n
  }

  /** Value of a digit in either case; None for any other character. */
  function DigitValue(d: byte): (n: Option<int>)
    ensures n.Some? ==> 0 <= n.value < 16
  {
    if 48 <= d <= 57 then Some(d - 48)
    else if 97 <= d <= 102 then Some(d - 97 + 10)
    else if 65 <= d <= 70 then Some(d - 65 + 10)
    else None
  }

  function Upper(d: byte): (u: byte) {
    if 97 <= d <= 102 then d - 32 else d
  }

  function Digits(b: byte): (s: Text) {
    [Digit(b / 16), Digit(b % 16)]
  }

  function Pair(high: byte, low: byte): (b: Option<byte>) {
    if DigitValue(high).None? || DigitValue(low).None? then None
    else Some(DigitValue(high).value * 16 + DigitValue(low).value)
  }

  function Encode(v: seq<byte>): (s: Text)
    ensures |s| == 2 * |v|
  {
    if v == [] then [] else Encode(v[..|v| - 1]) + Digits(v[|v| - 1])
  }

  function Decode(s: Text): (r: Option<seq<byte>>) {
    if s == [] then Some([])
    else if |s| == 1 then None
    else
      var front :- Decode(s[..|s| - 2]);
      var last :- Pair(s[|s| - 2], s[|s| - 1]);
      Some(front + [last])
  }

  method HexEncode(v: seq<byte>) returns (s: Text)
    ensures s == Encode(v)
  {
    s := [];
    for i := 0 to |v|
      invariant s == Encode(v[..i])
    {
      assert v[..i + 1][..i] == v[..i];
      s := s + Digits(v[i]);
    }
    assert v[..|v|] == v;
  }

  method HexDecode(s: Text) returns (r: Option<seq<byte>>)
    ensures r == Decode(s)
  {
    if |s| % 2 != 0 {
      OddRejected(s);
      return None;
    }
    var v: seq<byte> := [];
    var i := 0;
    while i < |s|
      invariant 0 <= i <= |s| && i % 2 == 0
      invariant Decode(s[..i]) == Some(v)
    {
      assert s[..i + 2][..i] == s[..i];
      var b := Pair(s[i], s[i + 1]);
      if b.None? {
        PrefixRejected(s, i + 2);
        return None;
      }
      v := v + [b.value];
      i := i + 2;
    }
    assert s[..|s|] == s;
    return Some(v);
  }

  lemma {:induction false} OddRejected(s: Text)
    requires |s| % 2 == 1
    ensures Decode(s).None?
  {
    if |s| <= 1 {
    } else {
      OddRejected(s[..|s| - 2]);
    }
  }

  lemma {:induction false} PrefixRejected(s: Text, n: nat)
    requires n <= |s| && n % 2 == 0 && |s| % 2 == 0 && Decode(s[..n]).None?
    ensures Decode(s).None?
  {
    if n == |s| {
      assert s[..n] == s;
    } else {
      assert s[..|s| - 2][..n] == s[..n];
      PrefixRejected(s[..|s| - 2], n);
    }
  }

  lemma PairOfDigits(b: byte)
    ensures Pair(Digits(b)[0], Digits(b)[1]) == Some(b)
  {
    var h, l := b / 16, b % 16;
    assert DigitValue(Digit(h)) == Some(h) && DigitValue(Digit(l)) == Some(l);
  }

  lemma DigitsOfPair(high: byte, low: byte)
    requires Pair(high, low).Some?
    ensures Digits(Pair(high, low).value) == [Upper(high), Upper(low)]
  {
    var h, l := DigitValue(high).value, DigitValue(low).value;
    assert (h * 16 + l) / 16 == h && (h * 16 + l) % 16 == l;
  }

  /** Decoding what was encoded gives the bytes back. */
  lemma {:induction false} DecodeEncode(v: seq<byte>)
    ensures Decode(Encode(v)) == Some(v)
  {
    hide Pair, Digit;
    if v == [] {
    } else {
      var n := |v| - 1;
      DecodeEncode(v[..n]);
      PairOfDigits(v[n]);
      var s := Encode(v);
      assert s[..|s| - 2] == Encode(v[..n]);
      assert v == v[..n] + [v[n]];
    }
  }

  /** Distinct IDs have distinct keys. */
  lemma EncodeInjective(v: seq<byte>, w: seq<byte>)
    requires Encode(v) == Encode(w)
    ensures v == w
  {
    DecodeEncode(v);
    DecodeEncode(w);
  }

  function UpperText(s: Text): (u: Text) {
    seq(|s|, i requires 0 <= i < |s| => Upper(s[i]))
  }

  /** Accepted text re-encodes to itself with letters in upper case. */
  lemma {:induction false} EncodeDecode(s: Text)
    requires Decode(s).Some?
    ensures Encode(Decode(s).value) == UpperText(s)
  {
    hide Encode, Decode, UpperText, Digits, Upper, Pair;
    if s == [] {
      EmptyText();
    } else {
      var n := |s| - 2;
      DecodeLast(s);
      EncodeDecode(s[..n]);
      DigitsOfPair(s[n], s[n + 1]);
      EncodeLast(Decode(s[..n]).value, Pair(s[n], s[n + 1]).value);
      UpperLast(s);
    }
  }

  lemma EmptyText()
    ensures Decode([]) == Some([]) && Encode([]) == [] && UpperText([]) == []
  {
  }

  predicate IsHexDigit(d: byte) {
    '0' as int <= d <= '9' as int || 'a' as int <= d <= 'f' as int || 'A' as int <= d <= 'F' as int
  }

  /** Exactly the texts of even length made of hexadecimal digits are decoded. */
  lemma {:induction false} DecodeIff(s: Text)
    ensures Decode(s).Some? <==> |s| % 2 == 0 && forall i :: 0 <= i < |s| ==> IsHexDigit(s[i])
  {
    hide IsHexDigit, Pair;
    if |s| <= 1 {
    } else {
      var n := |s| - 2;
      DecodeIff(s[..n]);
      PairIff(s[n], s[n + 1]);
      assert forall i :: 0 <= i < n ==> s[..n][i] == s[i];
    }
  }

  lemma PairIff(high: byte, low: byte)
    ensures Pair(high, low).Some? <==> IsHexDigit(high) && IsHexDigit(low)
  {
  }

  /** The digits are those of the text 0123456789ABCDEF. */
  lemma DigitIs(n: int)
    requires 0 <= n < 16
    ensures Digit(n) == "0123456789ABCDEF"[n] as int
  {
  }

  lemma DecodeLast(s: Text)
    requires s != [] && Decode(s).Some?
    ensures var n := |s| - 2;
      n >= 0 && Decode(s[..n]).Some? && Pair(s[n], s[n + 1]).Some?
      && Decode(s).value == Decode(s[..n]).value + [Pair(s[n], s[n + 1]).value]
  {
    hide Pair;
  }

  lemma EncodeLast(v: seq<byte>, b: byte)
    ensures Encode(v + [b]) == Encode(v) + Digits(b)
  {
    hide Digits;
    assert (v + [b])[..|v|] == v;
  }

  lemma UpperLast(s: Text)
    requires |s| >= 2
    ensures var n := |s| - 2; UpperText(s) == UpperText(s[..n]) + [Upper(s[n]), Upper(s[n + 1])]
  {
    hide Upper;
  }
}
