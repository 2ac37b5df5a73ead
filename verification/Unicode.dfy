/** Unicode scalar values with their UTF-8 form (Rust strings, `TextEncoder`) and their UTF-16
    form (`encode_utf16`). Decoding is strict: overlong forms, surrogates and values above
    0x10FFFF are refused, as `std::str::from_utf8` refuses them. */
module Unicode {
  import opened Bytes

  type Scalar = c: int | 0 <= c < 0xD800 || 0xE000 <= c < 0x11_0000
  type Text = seq<Scalar>

  const CR: Scalar := 13
  const LF: Scalar := 10

  predicate IsContinuation(b: U8) { 0x80 <= b < 0xC0 }

  function Utf8Char(c: Scalar): (b: seq<U8>)
    ensures 1 <= |b| <= 4
  {
    if c < 0x80 then [c]
    else if c < 0x800 then [0xC0 + c / 64, 0x80 + c % 64]
    else if c < 0x1_0000 then [0xE0 + c / 4096, 0x80 + c / 64 % 64, 0x80 + c % 64]
    else [0xF0 + c / 262144, 0x80 + c / 4096 % 64, 0x80 + c / 64 % 64, 0x80 + c % 64]
  }

  function Utf8(s: Text): (b: seq<U8>)
  {
    if s == [] then [] else Utf8Char(s[0]) + Utf8(s[1..])
  }

  /** The first scalar of b, when b begins with a well-formed sequence. */
  function FirstScalar(b: seq<U8>): (r: Option<Scalar>)
    ensures r.Some? ==> |Utf8Char(r.value)| <= |b|
  {
    if |b| >= 1 && b[0] < 0x80 then Some(b[0])
    else if |b| >= 2 && 0xC0 <= b[0] < 0xE0 && IsContinuation(b[1]) then
      var c := (b[0] as int - 0xC0) * 64 + (b[1] as int - 0x80);
      if 0x80 <= c then Some(c) else None
    else if |b| >= 3 && 0xE0 <= b[0] < 0xF0 && IsContinuation(b[1]) && IsContinuation(b[2]) then
      var c := (b[0] as int - 0xE0) * 4096 + (b[1] as int - 0x80) * 64 + (b[2] as int - 0x80);
      if 0x800 <= c && !(0xD800 <= c < 0xE000) then Some(c) else None
    else if |b| >= 4 && 0xF0 <= b[0] < 0xF8 && IsContinuation(b[1]) && IsContinuation(b[2]) && IsContinuation(b[3]) then
      var c := (b[0] as int - 0xF0) * 262144 + (b[1] as int - 0x80) * 4096 + (b[2] as int - 0x80) * 64 + (b[3] as int - 0x80);
      if 0x1_0000 <= c < 0x11_0000 then Some(c) else None
    else None
  }

  function FromUtf8(b: seq<U8>): (r: Option<Text>)
  {
    if b == [] then Some([])
    else
      match FirstScalar(b)
      case None => None
      case Some(c) =>
        match FromUtf8(b[|Utf8Char(c)|..])
        case None => None
        case Some(rest) => Some([c] + rest)
  }

  lemma TwoBytes(c: Scalar, rest: seq<U8>)
    requires 0x80 <= c < 0x800
    ensures FirstScalar(Utf8Char(c) + rest) == Some(c)
  {
    var b := Utf8Char(c) + rest;
    assert b[0] == 0xC0 + c / 64 && b[1] == 0x80 + c % 64;
  }

  lemma ThreeBytes(c: Scalar, rest: seq<U8>)
    requires 0x800 <= c < 0x1_0000
    ensures FirstScalar(Utf8Char(c) + rest) == Some(c)
  {
    var b := Utf8Char(c) + rest;
    assert b[0] == 0xE0 + c / 4096 && b[1] == 0x80 + c / 64 % 64 && b[2] == 0x80 + c % 64;
    assert c / 4096 == c / 64 / 64;
  }

  lemma FourBytes(c: Scalar, rest: seq<U8>)
    requires 0x1_0000 <= c
    ensures FirstScalar(Utf8Char(c) + rest) == Some(c)
  {
    var b := Utf8Char(c) + rest;
    assert b[0] == 0xF0 + c / 262144 && b[1] == 0x80 + c / 4096 % 64;
    assert b[2] == 0x80 + c / 64 % 64 && b[3] == 0x80 + c % 64;
    assert c / 4096 == c / 64 / 64 && c / 262144 == c / 4096 / 64;
  }

  lemma FirstScalarOfEncoding(c: Scalar, rest: seq<U8>)
    ensures FirstScalar(Utf8Char(c) + rest) == Some(c)
  {
    if c < 0x80 {
    } else {
      hide FirstScalar, Utf8Char;
      if c < 0x800 { TwoBytes(c, rest); } else if c < 0x1_0000 { ThreeBytes(c, rest); } else { FourBytes(c, rest); }
    }
  }

  lemma FromTwoBytes(b: seq<U8>)
    requires FirstScalar(b).Some? && 0x80 <= FirstScalar(b).value < 0x800
    ensures Utf8Char(FirstScalar(b).value) == b[..2]
  {
    var c := FirstScalar(b).value;
    assert c / 64 == b[0] as int - 0xC0 && c % 64 == b[1] as int - 0x80;
  }

  lemma FromThreeBytes(b: seq<U8>)
    requires FirstScalar(b).Some? && 0x800 <= FirstScalar(b).value < 0x1_0000
    ensures Utf8Char(FirstScalar(b).value) == b[..3]
  {
    var c := FirstScalar(b).value;
    assert c / 64 == (b[0] as int - 0xE0) * 64 + (b[1] as int - 0x80) && c % 64 == b[2] as int - 0x80;
    assert c / 4096 == c / 64 / 64;
  }

  lemma FromFourBytes(b: seq<U8>)
    requires FirstScalar(b).Some? && 0x1_0000 <= FirstScalar(b).value
    ensures Utf8Char(FirstScalar(b).value) == b[..4]
  {
    var c := FirstScalar(b).value;
    assert c / 64 == (b[0] as int - 0xF0) * 4096 + (b[1] as int - 0x80) * 64 + (b[2] as int - 0x80) &&
      c % 64 == b[3] as int - 0x80;
    assert c / 4096 == c / 64 / 64 == (b[0] as int - 0xF0) * 64 + (b[1] as int - 0x80);
    assert c / 262144 == c / 4096 / 64;
  }

  lemma EncodingOfFirstScalar(b: seq<U8>)
    requires FirstScalar(b).Some?
    ensures Utf8Char(FirstScalar(b).value) == b[..|Utf8Char(FirstScalar(b).value)|]
  {
    var c := FirstScalar(b).value;
    if c < 0x80 {
    } else if c < 0x800 {
      FromTwoBytes(b);
    } else if c < 0x1_0000 {
      FromThreeBytes(b);
    } else {
      FromFourBytes(b);
    }
  }

  /** UTF-8 decoding undoes encoding. */
  lemma {:induction false} Utf8RoundTrip(s: Text)
    ensures FromUtf8(Utf8(s)) == Some(s)
  {
    hide FirstScalar, Utf8Char;
    if s != [] {
      var head := Utf8Char(s[0]);
      FirstScalarOfEncoding(s[0], Utf8(s[1..]));
      assert Utf8(s)[|head|..] == Utf8(s[1..]);
      Utf8RoundTrip(s[1..]);
      assert [s[0]] + s[1..] == s;
    }
  }

  /** Only encodings decode: every byte sequence stands for at most one text, written one way. */
  lemma {:induction false} Utf8IsCanonical(b: seq<U8>)
    requires FromUtf8(b).Some?
    ensures Utf8(FromUtf8(b).value) == b
  {
    hide FirstScalar, Utf8Char;
    if b != [] {
      var c := FirstScalar(b).value;
      var n := |Utf8Char(c)|;
      EncodingOfFirstScalar(b);
      Utf8IsCanonical(b[n..]);
      var s := FromUtf8(b).value;
      assert s[0] == c && s[1..] == FromUtf8(b[n..]).value;
      assert b == b[..n] + b[n..];
    }
  }

  lemma {:induction false} Utf8Append(s: Text, t: Text)
    ensures Utf8(s + t) == Utf8(s) + Utf8(t)
  {
    hide Utf8Char;
    if s == [] {
      assert s + t == t;
    } else {
      assert (s + t)[1..] == s[1..] + t;
      Utf8Append(s[1..], t);
      assert (s + t)[0] == s[0];
    }
  }

  function Utf16Char(c: Scalar): (u: seq<U16>)
    ensures 1 <= |u| <= 2
  {
    if c < 0x1_0000 then [c]
    else [0xD800 + (c - 0x1_0000) / 0x400, 0xDC00 + (c - 0x1_0000) % 0x400]
  }

  /** The first scalar of a UTF-16 sequence. */
  function FirstOfUtf16(u: seq<U16>): (r: Option<Scalar>)
    ensures r.Some? ==> |Utf16Char(r.value)| <= |u|
  {
    if |u| >= 2 && 0xD800 <= u[0] < 0xDC00 && 0xDC00 <= u[1] < 0xE000 then
      Some(0x1_0000 + (u[0] as int - 0xD800) * 0x400 + (u[1] as int - 0xDC00))
    else if |u| >= 1 && !(0xD800 <= u[0] < 0xE000) then Some(u[0])
    else None
  }

  lemma FirstOfUtf16Encoding(c: Scalar, rest: seq<U16>)
    ensures FirstOfUtf16(Utf16Char(c) + rest) == Some(c)
  {
  }

  function Utf16(s: Text): seq<U16> {
    if s == [] then [] else Utf16Char(s[0]) + Utf16(s[1..])
  }

  const REPLACEMENT: Scalar := 0xFFFD

  /** The text that `TextEncoder` sees in a JavaScript string: a surrogate without its partner is replaced. */
  function WellFormed(u: seq<U16>): Text {
    if u == [] then []
    else
      match FirstOfUtf16(u)
      case Some(c) => [c] + WellFormed(u[|Utf16Char(c)|..])
      case None => [REPLACEMENT] + WellFormed(u[1..])
  }

  /** Nothing is replaced in the UTF-16 form of a text. */
  lemma {:induction false} WellFormedStays(s: Text)
    ensures WellFormed(Utf16(s)) == s
  {
    hide FirstOfUtf16, Utf16Char;
    if s != [] {
      var head := Utf16Char(s[0]);
      FirstOfUtf16Encoding(s[0], Utf16(s[1..]));
      assert Utf16(s)[|head|..] == Utf16(s[1..]);
      WellFormedStays(s[1..]);
      assert [s[0]] + s[1..] == s;
    }
  }
}
