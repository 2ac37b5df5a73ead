/** The name under which an upload is published: the one it came with, or numbered before its extension. */
module FileNames {
  import opened Bytes
  import opened Transfer
  import Ranges

  /** `Path::extension` with its dot: what follows the last dot, unless that is the first character. */
  predicate IsExtension(name: string, stem: string, extension: string) {
    && name == stem + extension && stem != ""
    && (extension != "" ==> extension[0] == '.' && '.' !in extension[1..])
    && (extension == "" ==> '.' !in name[1..])
  }

  lemma {:induction false} LastDotIs(name: string)
    ensures var k := LastDot(name);
      if k < 0 then '.' !in name else name[k] == '.' && '.' !in name[k + 1..]
  {
    if name != "" {
      var front, last := name[..|name| - 1], name[|name| - 1];
      assert name == front + [last];
      if last == '.' {
        assert name[|name|..] == [];
      } else {
        LastDotIs(front);
        var k := LastDot(front);
        if k >= 0 { assert name[k + 1..] == front[k + 1..] + [last]; }
      }
    }
  }

  /** Every name but the empty one has a stem and an extension, and only one. */
  lemma ExtensionIs(name: string)
    requires name != ""
    ensures var k := LastDot(name);
      if k <= 0 then IsExtension(name, name, "") else IsExtension(name, name[..k], name[k..])
  {
    LastDotIs(name);
    var k := LastDot(name);
    if k <= 0 {
      assert forall c :: c in name[1..] ==> c in name;
      if k == 0 { assert name[1..] == name[k + 1..]; }
      assert name + "" == name;
    } else {
      assert name[k..][1..] == name[k + 1..];
      assert name == name[..k] + name[k..];
    }
  }

  lemma OneExtension(name: string, s: string, e: string, s': string, e': string)
    requires IsExtension(name, s, e) && IsExtension(name, s', e')
    ensures s == s' && e == e'
  {
    NoLongerStem(name, s, e, s', e');
    NoLongerStem(name, s', e', s, e);
    assert s == name[..|s|] && e == name[|s|..] && s' == name[..|s'|] && e' == name[|s'|..];
  }

  lemma LaterIsIn(name: string, i: nat, j: nat)
    ensures i < j < |name| ==> name[j] in name[i + 1..]
  {
    if i < j < |name| { assert name[i + 1..][j - i - 1] == name[j]; }
  }

  /** The dot of a longer stem's extension would be one more in the other's. */
  lemma NoLongerStem(name: string, s: string, e: string, s': string, e': string)
    requires IsExtension(name, s, e) && IsExtension(name, s', e')
    ensures |s'| <= |s|
  {
    assert e[|e|..] == [] && name[|s|..] == e && name[|s'|..] == e';
    if e != "" { assert e[1..] == name[|s| + 1..]; }
    LaterIsIn(name, 0, |s|);
    LaterIsIn(name, |s|, |s'|);
  }

  /** A numbered name has the stem with the number behind it, and the same extension. */
  lemma NumberedKeepsExtension(name: string, suffix: nat, stem: string, extension: string)
    requires IsExtension(name, stem, extension)
    ensures IsExtension(Candidate(name, suffix), stem + " (" + Decimal(suffix) + ")", extension)
  {
    ExtensionIs(name);
    var k := LastDot(name);
    OneExtension(name, stem, extension, if k <= 0 then name else name[..k], if k <= 0 then "" else name[k..]);
    var numbered := stem + " (" + Decimal(suffix) + ")";
    NumberHasNoDot(suffix);
    assert Candidate(name, suffix) == numbered + extension;
    if extension == "" {
      assert numbered[1..] == stem[1..] + (" (" + Decimal(suffix) + ")");
      assert forall c :: c in numbered[1..] ==> c in stem[1..] || c in " (" + Decimal(suffix) + ")";
      assert name[1..] == stem[1..];
    }
  }

  lemma NumberHasNoDot(n: nat)
    ensures '.' !in " (" + Decimal(n) + ")"
  {
    Ranges.DecimalDigits(n);
    assert forall c :: c in " (" + Decimal(n) + ")" ==> c == ' ' || c == '(' || c == ')' || c in Decimal(n);
  }

  /** Different numbers make different names. */
  lemma NumbersDiffer(name: string, m: nat, n: nat)
    requires name != "" && Candidate(name, m) == Candidate(name, n)
    ensures m == n
  {
    ExtensionIs(name);
    var k := LastDot(name);
    var stem, extension := if k <= 0 then name else name[..k], if k <= 0 then "" else name[k..];
    NumberedKeepsExtension(name, m, stem, extension);
    NumberedKeepsExtension(name, n, stem, extension);
    var a, b := stem + " (" + Decimal(m) + ")", stem + " (" + Decimal(n) + ")";
    OneExtension(Candidate(name, m), a, extension, b, extension);
    assert Decimal(m) == a[|stem| + 2..|a| - 1] == b[|stem| + 2..|b| - 1] == Decimal(n);
    Ranges.DecimalDigits(m);
    Ranges.DecimalDigits(n);
  }

  /** An upload is published under its own name if that is free, else under the first numbered one that is, from 1
      to 99,999, else under the fallback. */
  lemma FirstFreeName(taken: set<string>, name: string, fallback: string)
    ensures var d := UniqueDestination(taken, name, fallback);
      || (d == name && name !in taken)
      || (name in taken && exists n :: IsFirstFree(taken, name, n) && d == Candidate(name, n))
      || (name in taken && d == fallback && forall n :: 1 <= n < LAST_SUFFIX ==> Candidate(name, n) in taken)
  {
    if name in taken { FirstFreeFrom(taken, name, 1, fallback); }
  }

  predicate IsFirstFree(taken: set<string>, name: string, n: nat) {
    && 1 <= n < LAST_SUFFIX && Candidate(name, n) !in taken
    && forall k :: 1 <= k < n ==> Candidate(name, k) in taken
  }

  lemma {:induction false} FirstFreeFrom(taken: set<string>, name: string, suffix: nat, fallback: string)
    requires 1 <= suffix <= LAST_SUFFIX && forall k :: 1 <= k < suffix ==> Candidate(name, k) in taken
    ensures var d := NumberedDestination(taken, name, suffix, fallback);
      || (exists n :: IsFirstFree(taken, name, n) && d == Candidate(name, n))
      || (d == fallback && forall n :: 1 <= n < LAST_SUFFIX ==> Candidate(name, n) in taken)
    decreases LAST_SUFFIX - suffix
  {
    hide Candidate;
    if suffix < LAST_SUFFIX {
      if Candidate(name, suffix) !in taken {
        assert IsFirstFree(taken, name, suffix);
      } else {
        FirstFreeFrom(taken, name, suffix + 1, fallback);
      }
    }
  }
}
