/** `String.prototype.trim` as ECMA-262 defines it: strip the longest prefix and
    the longest suffix made of WhiteSpace and LineTerminator code points. */
module JsString {

  /** WhiteSpace (TAB, VT, FF, ZWNBSP and every Unicode "Zs" space separator)
      and LineTerminator (LF, CR, LS, PS). */
  predicate IsWhitespace(c: char)
  {
    || c == '\t' || c == '\U{000B}' || c == '\U{000C}' || c == ' ' || c == '\U{00A0}' || c == '\U{FEFF}'
    || c == '\U{1680}' || ('\U{2000}' <= c <= '\U{200A}') || c == '\U{202F}' || c == '\U{205F}' || c == '\U{3000}'
    || c == '\n' || c == '\r' || c == '\U{2028}' || c == '\U{2029}'
  }

  predicate AllWhitespace(s: string)
  {
    forall i :: 0 <= i < |s| ==> IsWhitespace(s[i])
  }

  /** Neither end of `s` is whitespace (vacuously true of the empty string). */
  predicate NoOuterWhitespace(s: string)
  {
    s == [] || (!IsWhitespace(s[0]) && !IsWhitespace(s[|s| - 1]))
  }

  /** `r` is what trimming `s` must give: a slice of `s` with only whitespace
      cut off on either side and no whitespace left at its ends. */
  ghost predicate IsTrimOf(s: string, r: string)
  {
    exists a, b | 0 <= a <= b <= |s| ::
      && r == s[a..b]
      && AllWhitespace(s[..a])
      && AllWhitespace(s[b..])
      && NoOuterWhitespace(r)
  }

  function TrimStart(s: string): (r: string)
    ensures |r| <= |s| && r == s[|s| - |r|..]
    ensures AllWhitespace(s[..|s| - |r|])
    ensures r == [] || !IsWhitespace(r[0])
  {
    if s != [] && IsWhitespace(s[0]) then
      var r := TrimStart(s[1..]);
      assert s[..|s| - |r|] == [s[0]] + s[1..][..|s| - 1 - |r|];
      r
    else s
  }

  function TrimEnd(s: string): (r: string)
    ensures |r| <= |s| && r == s[..|r|]
    ensures AllWhitespace(s[|r|..])
    ensures r == [] || !IsWhitespace(r[|r| - 1])
  {
    if s != [] && IsWhitespace(s[|s| - 1]) then
      var r := TrimEnd(s[..|s| - 1]);
      assert s[|r|..] == s[..|s| - 1][|r|..] + [s[|s| - 1]];
      r
    else s
  }

  function Trim(s: string): (r: string)
    ensures IsTrimOf(s, r)
    ensures r == [] <==> AllWhitespace(s)
  {
    var t := TrimStart(s);
    var r := TrimEnd(t);
    TrimSlice(s, t, r);
    r
  }

  /** The two half-trims compose to a slice `s[a..b]` meeting `IsTrimOf`. */
  lemma TrimSlice(s: string, t: string, r: string)
    requires |t| <= |s| && t == s[|s| - |t|..] && AllWhitespace(s[..|s| - |t|])
    requires t == [] || !IsWhitespace(t[0])
    requires |r| <= |t| && r == t[..|r|] && AllWhitespace(t[|r|..])
    requires r == [] || !IsWhitespace(r[|r| - 1])
    ensures IsTrimOf(s, r)
    ensures r == [] <==> AllWhitespace(s)
  {
    var a := |s| - |t|;
    var b := a + |r|;
    assert r == s[a..b];
    assert s[b..] == t[|r|..];
    assert NoOuterWhitespace(r) by {
      if r != [] { assert r[0] == t[0]; }
    }
    PrefixWhitespace(s, a);
    SuffixWhitespace(s, b);
    if r == [] {
      assert AllWhitespace(s);
    } else {
      assert r[0] == s[a];
    }
    TrimOfIntro(s, r, a, b);
  }

  lemma TrimOfIntro(s: string, r: string, a: int, b: int)
    requires 0 <= a <= b <= |s| && r == s[a..b]
    requires AllWhitespace(s[..a]) && AllWhitespace(s[b..]) && NoOuterWhitespace(r)
    ensures IsTrimOf(s, r)
  {
  }

  /** Whitespace-only prefixes: every index below `a` holds whitespace. */
  lemma PrefixWhitespace(s: string, a: int)
    requires 0 <= a <= |s| && AllWhitespace(s[..a])
    ensures forall i :: 0 <= i < a ==> IsWhitespace(s[i])
  {
    forall i | 0 <= i < a ensures IsWhitespace(s[i]) {
      assert s[..a][i] == s[i];
    }
  }

  lemma SuffixWhitespace(s: string, b: int)
    requires 0 <= b <= |s| && AllWhitespace(s[b..])
    ensures forall i :: b <= i < |s| ==> IsWhitespace(s[i])
  {
    forall i | b <= i < |s| ensures IsWhitespace(s[i]) {
      assert s[b..][i - b] == s[i];
    }
  }

  /** What a witness slice of `IsTrimOf` says, index by index. */
  lemma TrimOfFacts(s: string, r: string, a: int, b: int)
    requires 0 <= a <= b <= |s| && r == s[a..b]
    requires AllWhitespace(s[..a]) && AllWhitespace(s[b..]) && NoOuterWhitespace(r)
    ensures forall i :: 0 <= i < a ==> IsWhitespace(s[i])
    ensures forall i :: b <= i < |s| ==> IsWhitespace(s[i])
    ensures r == [] ==> a == b
    ensures r != [] ==> !IsWhitespace(s[a]) && !IsWhitespace(s[b - 1])
  {
    PrefixWhitespace(s, a);
    SuffixWhitespace(s, b);
    if r != [] {
      assert r[0] == s[a] && r[|r| - 1] == s[b - 1];
    }
  }

  /** The trimming relation is a function: at most one string is the trim of `s`.
      With `Trim`'s postcondition this pins `Trim` down completely. */
  lemma {:induction false} TrimOfIsUnique(s: string, r1: string, r2: string)
    requires IsTrimOf(s, r1) && IsTrimOf(s, r2)
    ensures r1 == r2
  {
    var a1, b1 :| 0 <= a1 <= b1 <= |s| && r1 == s[a1..b1] && AllWhitespace(s[..a1]) && AllWhitespace(s[b1..]) && NoOuterWhitespace(r1);
    var a2, b2 :| 0 <= a2 <= b2 <= |s| && r2 == s[a2..b2] && AllWhitespace(s[..a2]) && AllWhitespace(s[b2..]) && NoOuterWhitespace(r2);
    TrimOfFacts(s, r1, a1, b1);
    TrimOfFacts(s, r2, a2, b2);
    // A non-empty trim starts at the first non-whitespace index and ends at
    // the last one; an empty trim leaves no such index at all.
    assert r1 == [] <==> r2 == [];
    if r1 != [] {
      assert a1 == a2 && b1 == b2;
    }
  }

  /** Trimming an already trimmed string changes nothing. */
  lemma TrimIdempotent(s: string)
    ensures Trim(Trim(s)) == Trim(s)
  {
    var r := Trim(s);
    assert r[..0] == [] && r[|r|..] == [] && r[0..|r|] == r;
    assert IsTrimOf(r, r);
    TrimOfIsUnique(r, r, Trim(r));
  }

}
