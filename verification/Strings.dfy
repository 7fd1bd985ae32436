// The parts of Go's strings, strconv and path/filepath packages that the readers of /proc and of the cgroup files use.
module Strings {
  import opened Options

  // ---- Substrings

  predicate OccursAt(s: string, pat: string, i: nat) {
    i + |pat| <= |s| && s[i..i + |pat|] == pat
  }

  // strings.Index
  function Index(s: string, pat: string): (r: Option<nat>)
    ensures r.Some? ==> OccursAt(s, pat, r.value)
  {
    if OccursAt(s, pat, 0) then Some(0)
    else if s == [] then None
    else
      match Index(s[1..], pat)
      case None => None
      case Some(i) =>
        assert s[1..][i..i + |pat|] == s[i + 1..i + 1 + |pat|];
        Some(i + 1)
  }

  // r is where pat occurs in s for the first time, if it occurs at all.
  ghost predicate FirstAt(s: string, pat: string, r: Option<nat>) {
    match r
    case Some(i) => OccursAt(s, pat, i) && forall j: nat :: j < i ==> !OccursAt(s, pat, j)
    case None => forall j: nat :: !OccursAt(s, pat, j)
  }

  lemma {:induction false} IndexIsFirst(s: string, pat: string)
    ensures FirstAt(s, pat, Index(s, pat))
  {
    if s != [] && !OccursAt(s, pat, 0) {
      IndexIsFirst(s[1..], pat);
      forall j: nat | j > 0
        ensures OccursAt(s, pat, j) <==> OccursAt(s[1..], pat, j - 1)
      {
        if j + |pat| <= |s| {
          assert s[1..][j - 1..j - 1 + |pat|] == s[j..j + |pat|];
        }
      }
    }
  }

  lemma FirstIsUnique(s: string, pat: string, r: Option<nat>)
    requires FirstAt(s, pat, r)
    ensures Index(s, pat) == r
  {
    IndexIsFirst(s, pat);
  }

  // strings.Contains
  predicate Contains(s: string, pat: string) {
    Index(s, pat).Some?
  }

  lemma ContainsAt(s: string, pat: string, i: nat)
    requires OccursAt(s, pat, i)
    ensures Contains(s, pat)
  {
    IndexIsFirst(s, pat);
  }

  ghost predicate Around(s: string, x: string, pat: string, y: string) {
    s == x + pat + y
  }

  // pat is somewhere in s.
  ghost predicate Has(s: string, pat: string) {
    exists x, y :: Around(s, x, pat, y)
  }

  lemma ContainsIsHas(s: string, pat: string)
    ensures Contains(s, pat) <==> Has(s, pat)
  {
    if Contains(s, pat) {
      var i := Index(s, pat).value;
      assert Around(s, s[..i], pat, s[i + |pat|..]);
    }
    if Has(s, pat) {
      var x, y :| Around(s, x, pat, y);
      assert s[|x|..|x| + |pat|] == pat;
      ContainsAt(s, pat, |x|);
    }
  }

  // Index finds the shortest part of s that stands before an occurrence.
  lemma IndexIsShortest(s: string, x: string, pat: string, y: string)
    requires Around(s, x, pat, y) && forall x', y' :: Around(s, x', pat, y') ==> |x| <= |x'|
    ensures Index(s, pat) == Some(|x|)
  {
    assert s[|x|..|x| + |pat|] == pat;
    forall j: nat | OccursAt(s, pat, j)
      ensures |x| <= j
    {
      assert Around(s, s[..j], pat, s[j + |pat|..]);
    }
    FirstIsUnique(s, pat, Some(|x|));
  }

  // ---- Decimal numbers

  predicate IsDigit(c: char) { '0' <= c <= '9' }

  predicate AllDigits(s: string) { forall c :: c in s ==> IsDigit(c) }

  function DigitValue(c: char): nat
    requires IsDigit(c)
  {
    c as nat - '0' as nat
  }

  // The number that a string of digits denotes.
  function Decimal(s: string): nat
    requires AllDigits(s)
  {
    if s == [] then 0 else 10 * Decimal(s[..|s| - 1]) + DigitValue(s[|s| - 1])
  }

  // Decimal notation, digit by digit.
  lemma DecimalIsPositional(s: string, d: nat)
    requires AllDigits(s) && d < 10
    ensures IsDigit("0123456789"[d]) && DigitValue("0123456789"[d]) == d
    ensures var t := s + ["0123456789"[d]];
            AllDigits(t) && Decimal(t) == 10 * Decimal(s) + d
    ensures Decimal("") == 0
    ensures forall c: char :: IsDigit(c) ==> c in "0123456789"
  {
    assert (s + ["0123456789"[d]])[..|s|] == s;
  }

  // ---- White space: unicode.IsSpace

  predicate IsSpace(c: char) {
    || '\t' <= c <= '\r' || c == ' ' || c == '\U{85}' || c == '\U{A0}' || c == '\U{1680}'
    || '\U{2000}' <= c <= '\U{200A}' || c == '\U{2028}' || c == '\U{2029}' || c == '\U{202F}' || c == '\U{205F}'
    || c == '\U{3000}'
  }

  function TrimLeft(s: string): string {
    if s != [] && IsSpace(s[0]) then TrimLeft(s[1..]) else s
  }

  function TrimRight(s: string): string {
    if s != [] && IsSpace(s[|s| - 1]) then TrimRight(s[..|s| - 1]) else s
  }

  // strings.TrimSpace
  function Trim(s: string): string {
    TrimRight(TrimLeft(s))
  }

  // What counts as white space.
  lemma SpacesAre(c: char)
    ensures IsSpace(c) <==>
            c in {' ', '\t', '\n', '\U{b}', '\U{c}', '\r', '\U{85}', '\U{a0}', '\U{1680}',
                  '\U{2000}', '\U{2001}', '\U{2002}', '\U{2003}', '\U{2004}', '\U{2005}', '\U{2006}', '\U{2007}',
                  '\U{2008}', '\U{2009}', '\U{200a}', '\U{2028}', '\U{2029}', '\U{202f}', '\U{205f}', '\U{3000}'}
  {
  }

  ghost predicate AllSpace(s: string) {
    forall c :: c in s ==> IsSpace(c)
  }

  // Trimming takes white space off both ends, all of it and nothing else.
  lemma TrimIsExact(s: string) returns (left: string, right: string)
    ensures s == left + Trim(s) + right && AllSpace(left) && AllSpace(right)
    ensures Trim(s) != [] ==> !IsSpace(Trim(s)[0]) && !IsSpace(Trim(s)[|Trim(s)| - 1])
  {
    left := LeftIsSpace(s);
    right := RightIsSpace(TrimLeft(s));
  }

  lemma {:induction false} LeftIsSpace(s: string) returns (left: string)
    ensures s == left + TrimLeft(s) && AllSpace(left)
    ensures TrimLeft(s) != [] ==> !IsSpace(TrimLeft(s)[0])
  {
    left := [];
    if s != [] && IsSpace(s[0]) {
      var rest := LeftIsSpace(s[1..]);
      left := [s[0]] + rest;
      assert s == [s[0]] + s[1..];
    }
  }

  lemma {:induction false} RightIsSpace(s: string) returns (right: string)
    ensures s == TrimRight(s) + right && AllSpace(right)
    ensures TrimRight(s) != [] ==> TrimRight(s)[0] == s[0] && !IsSpace(TrimRight(s)[|TrimRight(s)| - 1])
  {
    right := [];
    if s != [] && IsSpace(s[|s| - 1]) {
      var rest := RightIsSpace(s[..|s| - 1]);
      right := rest + [s[|s| - 1]];
      assert s == s[..|s| - 1] + [s[|s| - 1]];
    }
  }
}
