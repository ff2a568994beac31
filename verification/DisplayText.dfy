/** Display text of the verifier protocol: validate_display_text against section 4
    of RFC 3629. */
module DisplayText {
  import opened Base

  const MAX_TEXT: nat := 512

  // ----- what is to be accepted -----

  /** A Unicode scalar value. */
  type Scalar = c: int | 0 <= c <= 0x10FFFF && !(0xD800 <= c <= 0xDFFF)

  /** C0, DEL and C1. */
  predicate Control(c: Scalar) {
    c < 0x20 || 0x7F <= c <= 0x9F
  }

  function Utf8(c: Scalar): (s: Text)
    ensures 1 <= |s| <= 4
  {
    if c < 0x80 then [c]
    else if c < 0x800 then [0xC0 + c / 0x40, 0x80 + c % 0x40]
    else if c < 0x1_0000 then [0xE0 + c / 0x1000, 0x80 + c / 0x40 % 0x40, 0x80 + c % 0x40]
    else [0xF0 + c / 0x4_0000, 0x80 + c / 0x1000 % 0x40, 0x80 + c / 0x40 % 0x40, 0x80 + c % 0x40]
  }

  function Utf8All(cs: seq<Scalar>): (s: Text) {
    if cs == [] then [] else Utf8(cs[0]) + Utf8All(cs[1..])
  }

  ghost predicate Printable(cs: seq<Scalar>) {
    forall i :: 0 <= i < |cs| ==> !Control(cs[i])
  }

  /** At most 512 bytes that encode scalar values, none of them a control. */
  ghost predicate IsDisplayText(s: Text) {
    |s| <= MAX_TEXT && exists cs: seq<Scalar> :: Printable(cs) && Utf8All(cs) == s
  }

  // ----- what the loop checks -----

  predicate Continuation(b: byte) {
    0x80 <= b <= 0xBF
  }

  /** Bytes one turn of the loop consumes; 0 when it rejects. */
  function Unit(s: Text): (n: nat)
    requires s != []
    ensures n <= |s| && n <= 4
  {
    var a := s[0];
    if a <= 0x7F then (if a < 0x20 || a == 0x7F then 0 else 1)
    else if 0xC2 <= a <= 0xDF then
      (if |s| < 2 || !Continuation(s[1]) || (a == 0xC2 && s[1] <= 0x9F) then 0 else 2)
    else if 0xE0 <= a <= 0xEF then
      (if |s| < 3 || !SecondOfThree(a, s[1]) || !Continuation(s[2]) then 0 else 3)
    else if 0xF0 <= a <= 0xF4 then
      (if |s| < 4 || !SecondOfFour(a, s[1]) || !Continuation(s[2]) || !Continuation(s[3]) then 0 else 4)
    else 0
  }

  predicate SecondOfThree(a: byte, b: byte) {
    || (a == 0xE0 && 0xA0 <= b <= 0xBF)
    || (0xE1 <= a <= 0xEC && Continuation(b))
    || (a == 0xED && 0x80 <= b <= 0x9F)
    || (0xEE <= a <= 0xEF && Continuation(b))
  }

  predicate SecondOfFour(a: byte, b: byte) {
    || (a == 0xF0 && 0x90 <= b <= 0xBF)
    || (0xF1 <= a <= 0xF3 && Continuation(b))
    || (a == 0xF4 && 0x80 <= b <= 0x8F)
  }

  predicate Scans(s: Text) {
    s == [] || (Unit(s) > 0 && Scans(s[Unit(s)..]))
  }

  // ----- the two agree -----

  lemma UnitOfScalar(c: Scalar, rest: Text)
    ensures Unit(Utf8(c) + rest) == if Control(c) then 0 else |Utf8(c)|
  {
    if 0x80 <= c < 0x800 {
      TwoBytes(c, rest);
    } else if 0x800 <= c < 0x1_0000 {
      ThreeBytes(c, rest);
    } else if c >= 0x1_0000 {
      FourBytes(c, rest);
    }
  }

  lemma TwoBytes(c: Scalar, rest: Text)
    requires 0x80 <= c < 0x800
    ensures Unit(Utf8(c) + rest) == if Control(c) then 0 else 2
  {
    var q, r := c / 0x40, c % 0x40;
    assert c == q * 0x40 + r && 2 <= q < 0x20;
    var s := Utf8(c) + rest;
    assert s[0] == 0xC0 + q && s[1] == 0x80 + r;
  }

  lemma ThreeBytes(c: Scalar, rest: Text)
    requires 0x800 <= c < 0x1_0000
    ensures Unit(Utf8(c) + rest) == 3
  {
    var q, m, r := c / 0x1000, c / 0x40 % 0x40, c % 0x40;
    assert c / 0x40 == q * 0x40 + m;
    assert c == q * 0x1000 + m * 0x40 + r && 0 <= q < 0x10;
    var s := Utf8(c) + rest;
    assert s[0] == 0xE0 + q && s[1] == 0x80 + m && s[2] == 0x80 + r;
  }

  lemma FourBytes(c: Scalar, rest: Text)
    requires c >= 0x1_0000
    ensures Unit(Utf8(c) + rest) == 4
  {
    var q, k, m, r := c / 0x4_0000, c / 0x1000 % 0x40, c / 0x40 % 0x40, c % 0x40;
    assert c / 0x1000 == q * 0x40 + k;
    assert c / 0x40 == (q * 0x40 + k) * 0x40 + m;
    assert c == q * 0x4_0000 + k * 0x1000 + m * 0x40 + r && 0 <= q <= 4;
    var s := Utf8(c) + rest;
    assert s[0] == 0xF0 + q && s[1] == 0x80 + k && s[2] == 0x80 + m && s[3] == 0x80 + r;
  }

  /** The scalar value of an accepted unit. */
  function ScalarOf(s: Text): (c: int)
    requires s != [] && Unit(s) > 0
  {
    var a: int, n := s[0], Unit(s);
    if n == 1 then a
    else
      var b: int := s[1];
      if n == 2 then (a - 0xC0) * 0x40 + (b - 0x80)
      else
        var d: int := s[2];
        if n == 3 then (a - 0xE0) * 0x1000 + (b - 0x80) * 0x40 + (d - 0x80)
        else
          var e: int := s[3];
          (a - 0xF0) * 0x4_0000 + (b - 0x80) * 0x1000 + (d - 0x80) * 0x40 + (e - 0x80)
  }

  lemma ScalarOfInRange(s: Text)
    requires s != [] && Unit(s) > 0
    ensures 0 <= ScalarOf(s) <= 0x10FFFF && !(0xD800 <= ScalarOf(s) <= 0xDFFF)
    ensures !Control(ScalarOf(s))
    ensures Unit(s) == 1 <==> ScalarOf(s) < 0x80
    ensures Unit(s) == 2 <==> 0x80 <= ScalarOf(s) < 0x800
    ensures Unit(s) == 3 <==> 0x800 <= ScalarOf(s) < 0x1_0000
  {
  }

  /** The 6-bit digits of a number put together from them. */
  lemma SixBitDigits(x: nat, y: nat, z: nat, w: nat)
    requires y < 0x40 && z < 0x40 && w < 0x40
    ensures var c := x * 0x4_0000 + y * 0x1000 + z * 0x40 + w;
      c % 0x40 == w && c / 0x40 == x * 0x1000 + y * 0x40 + z
      && c / 0x40 % 0x40 == z && c / 0x1000 == x * 0x40 + y
      && c / 0x1000 % 0x40 == y && c / 0x4_0000 == x
  {
  }

  lemma Utf8OfScalarOf(s: Text)
    requires s != [] && Unit(s) > 0
    ensures var c := ScalarOf(s);
      0 <= c <= 0x10FFFF && !(0xD800 <= c <= 0xDFFF) && Utf8(c) == s[..Unit(s)]
  {
    ScalarOfInRange(s);
    var n := Unit(s);
    if n == 1 {
    } else if n == 2 {
      TwoByteScalar(s);
    } else if n == 3 {
      ThreeByteScalar(s);
    } else {
      FourByteScalar(s);
    }
  }

  lemma TwoByteScalar(s: Text)
    requires s != [] && Unit(s) == 2
    ensures 0x80 <= ScalarOf(s) < 0x800 && Utf8(ScalarOf(s)) == s[..2]
  {
    ScalarOfInRange(s);
    SixBitDigits(0, 0, s[0] - 0xC0, s[1] - 0x80);
  }

  lemma ThreeByteScalar(s: Text)
    requires s != [] && Unit(s) == 3
    ensures 0x800 <= ScalarOf(s) < 0x1_0000 && !(0xD800 <= ScalarOf(s) <= 0xDFFF)
    ensures Utf8(ScalarOf(s)) == s[..3]
  {
    ScalarOfInRange(s);
    SixBitDigits(0, s[0] - 0xE0, s[1] - 0x80, s[2] - 0x80);
  }

  lemma FourByteScalar(s: Text)
    requires s != [] && Unit(s) == 4
    ensures 0x1_0000 <= ScalarOf(s) <= 0x10FFFF && Utf8(ScalarOf(s)) == s[..4]
  {
    ScalarOfInRange(s);
    SixBitDigits(s[0] - 0xF0, s[1] - 0x80, s[2] - 0x80, s[3] - 0x80);
  }

  lemma {:induction false} EncodingScans(cs: seq<Scalar>)
    requires Printable(cs)
    ensures Scans(Utf8All(cs))
  {
    if cs == [] {
    } else {
      var rest := Utf8All(cs[1..]);
      UnitOfScalar(cs[0], rest);
      EncodingScans(cs[1..]);
      assert (Utf8(cs[0]) + rest)[|Utf8(cs[0])|..] == rest;
    }
  }

  lemma {:induction false} ScannedDecodes(s: Text) returns (cs: seq<Scalar>)
    requires Scans(s)
    ensures Printable(cs) && Utf8All(cs) == s
    decreases |s|
  {
    hide Unit, ScalarOf, Utf8, Control;
    cs := [];
    if s == [] {
    } else {
      var n := Unit(s);
      var rest := ScannedDecodes(s[n..]);
      ScalarOfInRange(s);
      Utf8OfScalarOf(s);
      cs := [ScalarOf(s)] + rest;
      assert cs[1..] == rest;
      assert s == s[..n] + s[n..];
    }
  }

  /** The checks accept exactly the display texts of the definition. */
  lemma ScansIff(s: Text)
    ensures |s| <= MAX_TEXT && Scans(s) <==> IsDisplayText(s)
  {
    if |s| <= MAX_TEXT && Scans(s) {
      var cs := ScannedDecodes(s);
    }
    if IsDisplayText(s) {
      var cs: seq<Scalar> :| Printable(cs) && Utf8All(cs) == s;
      EncodingScans(cs);
    }
  }

  /** validate_display_text: true where it returns, false where it throws. */
  method ValidateDisplayText(text: Text) returns (ok: bool)
    ensures ok <==> IsDisplayText(text)
  {
    ScansIff(text);
    if |text| > MAX_TEXT {
      return false;
    }
    var index := 0;
    while index < |text|
      invariant index <= |text|
      invariant Scans(text) <==> Scans(text[index..])
      decreases |text| - index
    {
      var tail := text[index..];
      var first := text[index];
      assert tail[0] == first;
      var step := 0;
      if first <= 0x7F {
        if first < 0x20 || first == 0x7F {
          return false;
        }
        step := 1;
      } else if 0xC2 <= first <= 0xDF {
        if index + 1 >= |text| {
          return false;
        }
        var second := text[index + 1];
        if !Continuation(second) || (first == 0xC2 && second <= 0x9F) {
          return false;
        }
        step := 2;
      } else if 0xE0 <= first <= 0xEF {
        if index + 2 >= |text| {
          return false;
        }
        var second, third := text[index + 1], text[index + 2];
        if !SecondOfThree(first, second) || !Continuation(third) {
          return false;
        }
        step := 3;
      } else if 0xF0 <= first <= 0xF4 {
        if index + 3 >= |text| {
          return false;
        }
        var second, third, fourth := text[index + 1], text[index + 2], text[index + 3];
        if !SecondOfFour(first, second) || !Continuation(third) || !Continuation(fourth) {
          return false;
        }
        step := 4;
      } else {
        return false;
      }
      assert Unit(tail) == step;
      assert tail[step..] == text[index + step..];
      index := index + step;
    }
    return true;
  }
}
