/** `parse_range`: the single byte range of a Range header, as section 14.1.2 of RFC 9110 writes it. */
module Ranges {
  import opened Bytes
  import Transfer

  datatype ByteRange = ByteRange(start: nat, end: nat)

  const TWO64: int := 0x1_0000_0000_0000_0000

  predicate IsDigit(c: char) { '0' <= c <= '9' }

  function ParseDigits(s: string): Option<nat> {
    if s == "" then Some(0)
    else
      var front := ParseDigits(s[..|s| - 1]);
      var last := s[|s| - 1];
      if front.None? || !IsDigit(last) then None else Some(10 * front.value + (last as int - '0' as int))
  }

  /** `str::parse::<u64>`: digits, at least one, after an optional plus sign, below 2^64. */
  function ParseU64(s: string): (r: Option<nat>)
    ensures r.Some? ==> r.value < TWO64
  {
    var digits := if s != "" && s[0] == '+' then s[1..] else s;
    var value := if digits == "" then None else ParseDigits(digits);
    if value.Some? && value.value < TWO64 then value else None
  }

  /** Where a character first stands in a string. */
  function Find(s: string, c: char): (k: Option<nat>)
    ensures k.Some? ==> k.value < |s| && s[k.value] == c && c !in s[..k.value]
    ensures k.None? ==> c !in s
  {
    if s == "" then None
    else if s[0] == c then Some(0)
    else
      var k := Find(s[1..], c);
      assert k.Some? ==> s[..k.value + 1] == [s[0]] + s[1..][..k.value];
      if k.None? then None else Some(k.value + 1)
  }

  const UNIT := "bytes="

  /** The range that the text before and after the dash stand for; None stands for every way of answering
      with the error Range. */
  function Halves(first: string, last: string, size: nat): (r: Option<ByteRange>)
    requires size > 0
    ensures r.Some? ==> r.value.start <= r.value.end < size
  {
    var range :=
      if first == "" then
        var suffix := ParseU64(last);
        if suffix.None? || suffix.value == 0 then None
        else Some(ByteRange(size - Transfer.Min(suffix.value, size), size - 1))
      else
        var start := ParseU64(first);
        var end := if last == "" then Some(size - 1) else ParseU64(last);
        if start.None? || end.None? then None
        else Some(ByteRange(start.value, Transfer.Min(end.value, size - 1)));
    if range.None? || range.value.start >= size || range.value.start > range.value.end then None else range
  }

  function ParseSpec(spec: string, size: nat): (r: Option<ByteRange>)
    requires size > 0
    ensures r.Some? ==> r.value.start <= r.value.end < size
  {
    var dash := Find(spec, '-');
    if ',' in spec || dash.None? then None
    else Halves(spec[..dash.value], spec[dash.value + 1..], size)
  }

  function ParseRange(header: Option<string>, size: nat): (r: Result<Option<ByteRange>, ()>)
    ensures r.Ok? && r.value.Some? ==> r.value.value.start <= r.value.value.end < size
  {
    if header.None? then Ok(None)
    else if size == 0 then Err(())
    else if !(UNIT <= header.value) then Err(())
    else
      var r := ParseSpec(header.value[|UNIT|..], size);
      if r.None? then Err(()) else Ok(r)
  }

  // ----- what a header means -----

  /** The three forms a client can send. */
  datatype Wanted = Between(first: nat, last: nat) | From(first: nat) | Last(length: nat)

  function Header(w: Wanted): string {
    UNIT + match w
      case Between(first, last) => Transfer.Decimal(first) + "-" + Transfer.Decimal(last)
      case From(first) => Transfer.Decimal(first) + "-"
      case Last(length) => "-" + Transfer.Decimal(length)
  }

  /** The positions of a file that a form asks for. */
  predicate Asks(w: Wanted, size: nat, position: nat) {
    position < size &&
    match w
    case Between(first, last) => first <= position <= last
    case From(first) => first <= position
    case Last(length) => size <= position + length
  }

  predicate Fits(w: Wanted) {
    match w
    case Between(first, last) => first < TWO64 && last < TWO64
    case From(first) => first < TWO64
    case Last(length) => length < TWO64
  }

  lemma {:induction false} DecimalDigits(n: nat)
    ensures Transfer.Decimal(n) != "" && forall c :: c in Transfer.Decimal(n) ==> IsDigit(c)
    ensures ParseDigits(Transfer.Decimal(n)) == Some(n)
  {
    var d := Transfer.Decimal(n);
    if n >= 10 {
      DecimalDigits(n / 10);
      assert d[..|d| - 1] == Transfer.Decimal(n / 10);
    } else {
      assert d[..0] == "";
    }
  }

  predicate Zeros(s: string) { forall c :: c in s ==> c == '0' }

  /** The ways to write a number: leading zeros, and a plus sign before them. */
  predicate SpelledWith(s: string, plus: string, zeros: string, n: nat) {
    (plus == "" || plus == "+") && Zeros(zeros) && s == plus + (zeros + Transfer.Decimal(n))
  }

  ghost predicate Spells(s: string, n: nat) { exists plus, zeros :: SpelledWith(s, plus, zeros, n) }

  lemma {:induction false} ZerosAreSilent(zeros: string, s: string)
    requires Zeros(zeros) && s != "" && ParseDigits(s).Some?
    ensures ParseDigits(zeros + s) == ParseDigits(s)
    decreases |s|
  {
    var all := zeros + s;
    assert all[..|all| - 1] == zeros + s[..|s| - 1];
    if |s| > 1 {
      ZerosAreSilent(zeros, s[..|s| - 1]);
    } else {
      assert s[..0] == "" && zeros + "" == zeros;
      ZerosAreZero(zeros);
    }
  }

  lemma {:induction false} ZerosAreZero(zeros: string)
    requires Zeros(zeros)
    ensures ParseDigits(zeros) == Some(0)
  {
    if zeros != "" {
      var front := zeros[..|zeros| - 1];
      assert zeros[|zeros| - 1] in zeros && forall c :: c in front ==> c in zeros;
      ZerosAreZero(front);
    }
  }

  /** Digits are zeros and the number they stand for. */
  lemma {:induction false} DigitsSpell(s: string) returns (zeros: string)
    requires s != "" && ParseDigits(s).Some?
    ensures Zeros(zeros) && s == zeros + Transfer.Decimal(ParseDigits(s).value)
    decreases |s|
  {
    var front, last := s[..|s| - 1], s[|s| - 1];
    assert s == front + [last];
    if front == "" {
      assert ParseDigits(s).value == last as int - '0' as int;
      zeros := "";
    } else {
      zeros := DigitsSpell(front);
      if ParseDigits(front).value == 0 {
        assert Transfer.Decimal(0) == "0";
        zeros := zeros + "0";
      } else {
        assert Transfer.Decimal(ParseDigits(s).value) == Transfer.Decimal(ParseDigits(front).value) + [last];
      }
    }
  }

  /** What `parse` accepts is what spells a number below 2^64. */
  lemma ParsesIff(s: string, n: nat)
    ensures ParseU64(s) == Some(n) <==> n < TWO64 && Spells(s, n)
  {
    if ParseU64(s) == Some(n) {
      var digits := if s[0] == '+' then s[1..] else s;
      var zeros := DigitsSpell(digits);
      assert SpelledWith(s, if s[0] == '+' then "+" else "", zeros, n);
    }
    if Spells(s, n) { SpelledParses(s, n); }
  }

  lemma DigitsAlone(plus: string, digits: string)
    requires (plus == "" || plus == "+") && digits != "" && forall c :: c in digits ==> IsDigit(c)
    ensures ParseU64(plus + digits) ==
      if ParseDigits(digits).Some? && ParseDigits(digits).value < TWO64 then ParseDigits(digits) else None
    ensures '-' !in plus + digits && ',' !in plus + digits
  {
    hide ParseDigits;
    var s := plus + digits;
    assert digits[0] in digits;
    if plus == "+" { assert s[1..] == digits; } else { assert s == digits; }
    assert forall c :: c in s ==> c in plus || c in digits;
  }

  lemma SpelledParses(s: string, n: nat)
    requires Spells(s, n)
    ensures ParseU64(s) == if n < TWO64 then Some(n) else None
    ensures s != "" && '-' !in s && ',' !in s
  {
    var plus, zeros :| SpelledWith(s, plus, zeros, n);
    hide ParseDigits, ParseU64;
    var digits := zeros + Transfer.Decimal(n);
    DecimalDigits(n);
    ZerosAreSilent(zeros, Transfer.Decimal(n));
    assert forall c :: c in digits ==> c in zeros || c in Transfer.Decimal(n);
    DigitsAlone(plus, digits);
  }

  lemma DecimalSpells(n: nat)
    ensures Spells(Transfer.Decimal(n), n)
  {
    assert SpelledWith(Transfer.Decimal(n), "", "", n);
  }

  lemma {:induction false} DashIsFound(first: string, last: string)
    requires '-' !in first
    ensures Find(first + "-" + last, '-') == Some(|first|)
  {
    var s := first + "-" + last;
    if first != "" {
      assert s[0] == first[0] && first[0] in first;
      assert s[1..] == first[1..] + "-" + last;
      DashIsFound(first[1..], last);
    }
  }

  /** A header writes what is wanted with these two halves around the dash. */
  ghost predicate WritesWith(h: string, w: Wanted, first: string, last: string) {
    && h == UNIT + (first + "-" + last)
    && match w
       case Between(a, b) => Spells(first, a) && Spells(last, b)
       case From(a) => Spells(first, a) && last == ""
       case Last(length) => first == "" && Spells(last, length)
  }

  ghost predicate Writes(h: string, w: Wanted) { exists first, last :: WritesWith(h, w, first, last) }

  /** What comes of the two halves of a range. */
  function Chosen(w: Wanted, size: nat): ByteRange
    requires size > 0
  {
    match w
    case Between(first, last) => ByteRange(first, Transfer.Min(last, size - 1))
    case From(first) => ByteRange(first, size - 1)
    case Last(length) => ByteRange(size - Transfer.Min(length, size), size - 1)
  }

  lemma SpecIsHalves(first: string, last: string, size: nat)
    requires size > 0 && '-' !in first && ',' !in first && ',' !in last
    ensures ParseSpec(first + "-" + last, size) == Halves(first, last, size)
  {
    hide Find, Halves;
    var spec := first + "-" + last;
    DashIsFound(first, last);
    assert spec[..|first|] == first && spec[|first| + 1..] == last;
    assert forall c :: c in spec ==> c in first || c == '-' || c in last;
  }

  predicate Satisfiable(w: Wanted, size: nat)
    requires size > 0
  {
    var chosen := Chosen(w, size);
    Fits(w) && (w.Last? ==> w.length > 0) && chosen.start <= chosen.end && chosen.start < size
  }

  lemma WrittenParses(h: string, w: Wanted, size: nat)
    requires size > 0 && Writes(h, w)
    ensures UNIT <= h && ParseSpec(h[|UNIT|..], size) == if Satisfiable(w, size) then Some(Chosen(w, size)) else None
  {
    hide ParseSpec, ParseU64, Spells;
    var first, last :| WritesWith(h, w, first, last);
    assert h[|UNIT|..] == first + "-" + last;
    match w
    case Between(a, b) =>
      SpelledParses(first, a);
      SpelledParses(last, b);
      SpecIsHalves(first, last, size);
    case From(a) =>
      SpelledParses(first, a);
      SpecIsHalves(first, last, size);
    case Last(length) =>
      SpelledParses(last, length);
      SpecIsHalves(first, last, size);
  }

  /** Whatever is parsed was written. */
  lemma ParsedIsWritten(h: string, size: nat) returns (w: Wanted)
    requires size > 0 && UNIT <= h && ParseSpec(h[|UNIT|..], size).Some?
    ensures Writes(h, w)
  {
    hide ParseU64, Spells;
    var spec := h[|UNIT|..];
    var dash := Find(spec, '-').value;
    var first, last := spec[..dash], spec[dash + 1..];
    assert spec == first + "-" + last && h == UNIT + spec;
    if first == "" {
      ParsesIff(last, ParseU64(last).value);
      w := Last(ParseU64(last).value);
    } else {
      ParsesIff(first, ParseU64(first).value);
      if last == "" {
        w := From(ParseU64(first).value);
      } else {
        ParsesIff(last, ParseU64(last).value);
        w := Between(ParseU64(first).value, ParseU64(last).value);
      }
    }
    assert WritesWith(h, w, first, last);
  }

  ghost predicate Covers(r: ByteRange, w: Wanted, size: nat) {
    forall position: nat :: Asks(w, size, position) <==> r.start <= position <= r.end
  }

  /** Asks for some byte of the file, in numbers that fit 64 bits. */
  ghost predicate Grantable(w: Wanted, size: nat) { Fits(w) && exists position :: Asks(w, size, position) }

  lemma SatisfiableIff(w: Wanted, size: nat)
    requires size > 0
    ensures Satisfiable(w, size) <==> Grantable(w, size)
    ensures Satisfiable(w, size) ==> Covers(Chosen(w, size), w, size)
  {
    var chosen := Chosen(w, size);
    assert Asks(w, size, chosen.start) || !(chosen.start <= chosen.end && chosen.start < size);
  }

  /** Any header at all is granted if and only if it writes down a range that asks for some byte of the file in
      numbers that fit 64 bits, and what is granted are exactly the bytes it asks for. */
  lemma GrantedIsAsked(h: string, size: nat)
    ensures var r := ParseRange(Some(h), size);
      && (r.Ok? <==> exists w :: Writes(h, w) && Grantable(w, size))
      && (r.Ok? ==> r.value.Some? && forall w :: Writes(h, w) ==> Covers(r.value.value, w, size))
  {
    hide ParseSpec, Writes, Covers, Satisfiable;
    if size > 0 {
      forall w | Writes(h, w)
        ensures UNIT <= h && ParseSpec(h[|UNIT|..], size) == if Satisfiable(w, size) then Some(Chosen(w, size)) else None
        ensures Satisfiable(w, size) <==> Grantable(w, size)
        ensures Satisfiable(w, size) ==> Covers(Chosen(w, size), w, size)
      {
        WrittenParses(h, w, size);
        SatisfiableIff(w, size);
      }
      if ParseRange(Some(h), size).Ok? {
        var w := ParsedIsWritten(h, size);
        assert Writes(h, w) && Grantable(w, size);
      }
    }
  }

  lemma HeaderIsWritten(w: Wanted)
    ensures Writes(Header(w), w)
  {
    hide Spells;
    match w
    case Between(first, last) =>
      DecimalSpells(first);
      DecimalSpells(last);
      assert WritesWith(Header(w), w, Transfer.Decimal(first), Transfer.Decimal(last));
    case From(first) =>
      DecimalSpells(first);
      assert Header(w) == UNIT + (Transfer.Decimal(first) + "-" + "");
      assert WritesWith(Header(w), w, Transfer.Decimal(first), "");
    case Last(length) =>
      DecimalSpells(length);
      assert Header(w) == UNIT + ("" + "-" + Transfer.Decimal(length));
      assert WritesWith(Header(w), w, "", Transfer.Decimal(length));
  }

  /** In particular the header that writes a range in the plain way. */
  lemma HeaderIsGranted(w: Wanted, size: nat)
    ensures var r := ParseRange(Some(Header(w)), size);
      && (r.Ok? <==> Fits(w) && exists position :: Asks(w, size, position))
      && (r.Ok? ==> r.value.Some? && Covers(r.value.value, w, size))
  {
    hide ParseSpec, Writes, Covers, Satisfiable;
    HeaderIsWritten(w);
    GrantedIsAsked(Header(w), size);
    if size > 0 {
      WrittenParses(Header(w), w, size);
      SatisfiableIff(w, size);
    }
  }
}
