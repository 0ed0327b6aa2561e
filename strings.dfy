/**
 * The few Python `str` operations the core relies on, over `seq<char>`:
 * `sep.join(parts)`, `s.split(c)` (as the inverse of join), `str(n)` for an
 * integer, `s.find(p)`, `s.replace(p, "")` and `s.strip()`.
 */
module Strings {

  function Min(a: int, b: int): int { if a <= b then a else b }

  // ---------------------------------------------------------------------
  // join and split

  /** `sep.join(parts)`. */
  function Join(parts: seq<string>, sep: string): string
  {
    if |parts| == 0 then ""
    else if |parts| == 1 then parts[0]
    else parts[0] + sep + Join(parts[1..], sep)
  }

  /** `s.split(c)` for a one-character separator: never empty, `""` splits to `[""]`. */
  function Split(s: string, c: char): (r: seq<string>)
    ensures |r| >= 1
    ensures forall i :: 0 <= i < |r| ==> c !in r[i]
    decreases |s|
  {
    if |s| == 0 then [""]
    else
      var rest := Split(s[1..], c);
      if s[0] == c then [""] + rest
      else [[s[0]] + rest[0]] + rest[1..]
  }

  lemma {:induction false} SplitWithoutSeparator(p: string, c: char)
    requires c !in p
    ensures Split(p, c) == [p]
    decreases |p|
  {
    if |p| > 0 {
      SplitWithoutSeparator(p[1..], c);
      assert [p[0]] + p[1..] == p;
    }
  }

  lemma {:induction false} SplitAtFirstSeparator(p: string, c: char, t: string)
    requires c !in p
    ensures Split(p + [c] + t, c) == [p] + Split(t, c)
    decreases |p|
  {
    var s := p + [c] + t;
    if |p| == 0 {
      assert s[0] == c && s[1..] == t;
    } else {
      assert s[0] == p[0] && s[1..] == p[1..] + [c] + t;
      SplitAtFirstSeparator(p[1..], c, t);
      assert [p[0]] + p[1..] == p;
    }
  }

  /**
   * Splitting on the separator recovers the joined parts, provided no part
   * contains the separator.
   */
  lemma {:induction false} SplitJoin(parts: seq<string>, c: char)
    requires |parts| >= 1
    requires forall i :: 0 <= i < |parts| ==> c !in parts[i]
    ensures Split(Join(parts, [c]), c) == parts
    decreases |parts|
  {
    if |parts| == 1 {
      SplitWithoutSeparator(parts[0], c);
    } else {
      SplitJoin(parts[1..], c);
      SplitAtFirstSeparator(parts[0], c, Join(parts[1..], [c]));
      assert [parts[0]] + parts[1..] == parts;
    }
  }

  // ---------------------------------------------------------------------
  // str(n) for an integer

  predicate IsDigit(ch: char) { '0' <= ch <= '9' }

  function DigitChar(d: nat): (ch: char)
    requires d < 10
    ensures IsDigit(ch) && ch as int - '0' as int == d
  {
    ['0', '1', '2', '3', '4', '5', '6', '7', '8', '9'][d]
  }

  /**
   * The shape of `str(n)`: an optional `-`, then at least one digit, with
   * no leading zero unless the whole text is `"0"`.
   */
  predicate IsCanonicalDecimal(t: string)
  {
    var d := if |t| > 0 && t[0] == '-' then t[1..] else t;
    && |d| >= 1
    && (forall i :: 0 <= i < |d| ==> IsDigit(d[i]))
    && (d[0] == '0' ==> t == "0")
  }

  /** Decimal rendering of a natural number, most significant digit first. */
  function NatToDecimal(n: nat): (r: string)
    ensures |r| >= 1
    ensures forall i :: 0 <= i < |r| ==> IsDigit(r[i])
    ensures r[0] == '0' <==> n == 0
    ensures n == 0 ==> r == "0"
  {
    if n < 10 then [DigitChar(n)] else NatToDecimal(n / 10) + [DigitChar(n % 10)]
  }

  /** `str(n)`: a leading `-` for negative numbers, no leading zeros. */
  function IntToDecimal(n: int): (r: string)
    ensures IsCanonicalDecimal(r)
    ensures |r| >= 1
    ensures forall i :: 0 <= i < |r| ==> IsDigit(r[i]) || (i == 0 && r[i] == '-')
    ensures r[0] == '-' <==> n < 0
  {
    if n < 0 then
      var r := "-" + NatToDecimal(-n);
      assert r[1..] == NatToDecimal(-n);
      r
    else NatToDecimal(n)
  }

  /** `int(s)` for the strings `IntToDecimal` produces. */
  function ParseNat(s: string): nat
  {
    if |s| == 0 then 0
    else
      var d := s[|s| - 1] as int - '0' as int;
      ParseNat(s[..|s| - 1]) * 10 + (if 0 <= d then d else 0)
  }

  function ParseInt(s: string): int
  {
    if |s| > 0 && s[0] == '-' then 0 - ParseNat(s[1..]) as int else ParseNat(s)
  }

  lemma {:induction false} ParseNatDecimal(n: nat)
    ensures ParseNat(NatToDecimal(n)) == n
  {
    var s := NatToDecimal(n);
    if n >= 10 {
      ParseNatDecimal(n / 10);
      assert s[..|s| - 1] == NatToDecimal(n / 10);
    }
  }

  /** Reading back the decimal rendering gives the number again. */
  lemma ParseIntDecimal(n: int)
    ensures ParseInt(IntToDecimal(n)) == n
  {
    var s := IntToDecimal(n);
    if n < 0 {
      var m: nat := -n;
      ParseNatDecimal(m);
      assert s == "-" + NatToDecimal(m);
      assert s[1..] == NatToDecimal(m);
    } else {
      ParseNatDecimal(n);
      assert s[0] != '-';
    }
  }

  /** Distinct integers have distinct renderings. */
  lemma DecimalInjective(a: int, b: int)
    ensures IntToDecimal(a) == IntToDecimal(b) <==> a == b
  {
    ParseIntDecimal(a);
    ParseIntDecimal(b);
  }

  // ---------------------------------------------------------------------
  // find and replace

  /** `pat` occurs in `s` at index `i`. */
  predicate OccursAt(s: string, pat: string, i: int)
  {
    0 <= i && i + |pat| <= |s| && s[i..i + |pat|] == pat
  }

  /**
   * `s.find(pat, i)` for a non-empty pattern: the least index at or after
   * `i` where `pat` occurs, or -1.
   */
  function FindFrom(s: string, pat: string, i: nat): (r: int)
    requires |pat| > 0 && i <= |s|
    ensures r == -1 || (i <= r && OccursAt(s, pat, r))
    decreases |s| - i
  {
    if i + |pat| > |s| then -1
    else if OccursAt(s, pat, i) then i
    else FindFrom(s, pat, i + 1)
  }

  /** The index `find` reports is the first occurrence: none starts between `i` and it (or anywhere after `i` for -1). */
  lemma {:induction false} FindFromIsFirst(s: string, pat: string, i: nat)
    requires |pat| > 0 && i <= |s|
    ensures var r := FindFrom(s, pat, i);
      forall j :: i <= j && (r < 0 || j < r) ==> !OccursAt(s, pat, j)
    decreases |s| - i
  {
    if i + |pat| <= |s| && !OccursAt(s, pat, i) {
      FindFromIsFirst(s, pat, i + 1);
    }
  }

  /**
   * `s[i:].replace(pat, "")` for a non-empty pattern, the way CPython does
   * it: find the leftmost occurrence, drop it, and search again after it.
   */
  function RemoveFrom(s: string, pat: string, i: nat): string
    requires |pat| > 0 && i <= |s|
    decreases |s| - i
  {
    var f := FindFrom(s, pat, i);
    if f < 0 then s[i..] else s[i..f] + RemoveFrom(s, pat, f + |pat|)
  }

  /**
   * `s.replace(pat, "")`. An empty pattern leaves `s` as it is (Python
   * inserts the empty replacement between characters, which changes nothing).
   */
  function RemoveAll(s: string, pat: string): string
  {
    if |pat| == 0 then s else RemoveFrom(s, pat, 0)
  }

  /**
   * An independent reading of left-to-right non-overlapping deletion: walk
   * the text one character at a time, skipping a whole occurrence whenever
   * one starts here.
   */
  function ScanFrom(s: string, pat: string, i: nat): string
    requires |pat| > 0 && i <= |s|
    decreases |s| - i
  {
    if i == |s| then ""
    else if OccursAt(s, pat, i) then ScanFrom(s, pat, i + |pat|)
    else [s[i]] + ScanFrom(s, pat, i + 1)
  }

  lemma {:induction false} RemoveFromIsScan(s: string, pat: string, i: nat)
    requires |pat| > 0 && i <= |s|
    ensures RemoveFrom(s, pat, i) == ScanFrom(s, pat, i)
    decreases |s| - i
  {
    if i == |s| {
    } else if OccursAt(s, pat, i) {
      RemoveFromIsScan(s, pat, i + |pat|);
      RemoveFromSkipsMatch(s, pat, i);
    } else {
      RemoveFromIsScan(s, pat, i + 1);
      RemoveFromKeepsChar(s, pat, i);
    }
  }

  /** Where an occurrence starts, it is dropped and the search resumes after it. */
  lemma RemoveFromSkipsMatch(s: string, pat: string, i: nat)
    requires |pat| > 0 && OccursAt(s, pat, i)
    ensures RemoveFrom(s, pat, i) == RemoveFrom(s, pat, i + |pat|)
  {
    assert FindFrom(s, pat, i) == i;
    assert s[i..i] == [];
  }

  /** Where no occurrence starts, the character is kept and the search moves on by one. */
  lemma RemoveFromKeepsChar(s: string, pat: string, i: nat)
    requires |pat| > 0 && i < |s| && !OccursAt(s, pat, i)
    ensures RemoveFrom(s, pat, i) == [s[i]] + RemoveFrom(s, pat, i + 1)
  {
    FindFromSkips(s, pat, i);
    if FindFrom(s, pat, i + 1) < 0 {
      SliceCons(s, i, |s|);
    } else {
      KeepsCharBeforeMatch(s, pat, i);
    }
  }

  lemma KeepsCharBeforeMatch(s: string, pat: string, i: nat)
    requires |pat| > 0 && i < |s|
    requires FindFrom(s, pat, i) == FindFrom(s, pat, i + 1) >= 0
    ensures RemoveFrom(s, pat, i) == [s[i]] + RemoveFrom(s, pat, i + 1)
  {
    var f := FindFrom(s, pat, i);
    var tail := RemoveFrom(s, pat, f + |pat|);
    assert RemoveFrom(s, pat, i) == s[i..f] + tail;
    assert RemoveFrom(s, pat, i + 1) == s[i + 1..f] + tail;
    SliceCons(s, i, f);
    ConsAppend(s[i], s[i + 1..f], tail);
  }

  lemma SliceCons(s: string, i: nat, j: nat)
    requires i < j <= |s|
    ensures s[i..j] == [s[i]] + s[i + 1..j]
  {
  }

  lemma FindFromSkips(s: string, pat: string, i: nat)
    requires |pat| > 0 && i < |s| && !OccursAt(s, pat, i)
    ensures FindFrom(s, pat, i) == FindFrom(s, pat, i + 1)
  {
  }

  lemma ConsAppend(c: char, a: string, b: string)
    ensures ([c] + a) + b == [c] + (a + b)
  {
  }

  /** CPython's find-and-delete loop removes exactly what the left-to-right scan skips. */
  lemma RemoveAllIsScan(s: string, pat: string)
    requires |pat| > 0
    ensures RemoveAll(s, pat) == ScanFrom(s, pat, 0)
  {
    RemoveFromIsScan(s, pat, 0);
  }

  /** With no occurrence of the pattern, deletion changes nothing. */
  lemma RemoveAllAbsent(s: string, pat: string)
    requires forall j :: !OccursAt(s, pat, j)
    ensures RemoveAll(s, pat) == s
  {
    if |pat| > 0 {
      assert FindFrom(s, pat, 0) < 0;
    }
  }

  /** A leading occurrence is deleted and the search resumes right after it. */
  lemma RemoveAllLeading(pat: string, t: string)
    requires |pat| > 0
    ensures RemoveAll(pat + t, pat) == RemoveAll(t, pat)
  {
    var s := pat + t;
    assert OccursAt(s, pat, 0);
    RemoveAllIsScan(s, pat);
    RemoveAllIsScan(t, pat);
    ScanSuffix(s, pat, |pat|, 0);
    assert s[|pat|..] == t;
  }

  /** Scanning from `n + i` is scanning the suffix that starts at `n` from `i`. */
  lemma {:induction false} ScanSuffix(s: string, p: string, n: nat, i: nat)
    requires |p| > 0 && n + i <= |s|
    ensures ScanFrom(s, p, n + i) == ScanFrom(s[n..], p, i)
    decreases |s| - n - i
  {
    if n + i < |s| {
      OccursInSuffix(s, p, n, i);
      if OccursAt(s, p, n + i) {
        ScanSuffix(s, p, n, i + |p|);
      } else {
        ScanSuffix(s, p, n, i + 1);
      }
    }
  }

  lemma OccursInSuffix(s: string, p: string, n: nat, i: nat)
    requires n + i <= |s|
    ensures OccursAt(s, p, n + i) <==> OccursAt(s[n..], p, i)
  {
    if n + i + |p| <= |s| {
      assert s[n..][i..i + |p|] == s[n + i..n + i + |p|];
    }
  }

  // ---------------------------------------------------------------------
  // strip

  /** Python's `str.isspace()` for one character. */
  predicate IsSpace(ch: char)
  {
    || ch == ' ' || ('\t' <= ch <= '\r') || ('\U{1C}' <= ch <= '\U{1F}')
    || ch == '\U{85}' || ch == '\U{A0}' || ch == '\U{1680}'
    || ('\U{2000}' <= ch <= '\U{200A}') || ch == '\U{2028}' || ch == '\U{2029}'
    || ch == '\U{202F}' || ch == '\U{205F}' || ch == '\U{3000}'
  }

  /** Index of the first non-whitespace character, or `|s|`. */
  function ContentStart(s: string): (i: nat)
    ensures i <= |s|
    ensures forall k :: 0 <= k < i ==> IsSpace(s[k])
    ensures i < |s| ==> !IsSpace(s[i])
    decreases |s|
  {
    if |s| == 0 || !IsSpace(s[0]) then 0 else 1 + ContentStart(s[1..])
  }

  /** One past the last non-whitespace character, or 0. */
  function ContentEnd(s: string): (j: nat)
    ensures j <= |s|
    ensures forall k :: j <= k < |s| ==> IsSpace(s[k])
    ensures j > 0 ==> !IsSpace(s[j - 1])
    decreases |s|
  {
    if |s| == 0 || !IsSpace(s[|s| - 1]) then |s| else ContentEnd(s[..|s| - 1])
  }

  /**
   * `s.strip()`: the text between the leading and the trailing whitespace;
   * empty when `s` is all whitespace.
   */
  function Strip(s: string): (r: string)
    ensures r == "" || (!IsSpace(r[0]) && !IsSpace(r[|r| - 1]))
    ensures r == "" <==> forall k :: 0 <= k < |s| ==> IsSpace(s[k])
    ensures r != "" ==> r == s[ContentStart(s)..ContentEnd(s)]
  {
    var i, j := ContentStart(s), ContentEnd(s);
    if i < j then s[i..j] else ""
  }

  /** Stripping twice is stripping once. */
  lemma StripIdempotent(s: string)
    ensures Strip(Strip(s)) == Strip(s)
  {
    var r := Strip(s);
    if r != "" {
      assert ContentStart(r) == 0;
      assert ContentEnd(r) == |r|;
      assert r[0..|r|] == r;
    }
  }
}
