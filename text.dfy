/** Strings as sequences of characters: the ASCII case mappings, the
    whitespace trimming, substring search, regular-expression word matches
    and the lexicographic order that the portfolio engine relies on. */
module Text {

  // ----- case mapping (ASCII letters only) -----

  function UpperChar(c: char): char {
    if 'a' <= c <= 'z' then (c as int - 32) as char else c
  }

  function LowerChar(c: char): char {
    if 'A' <= c <= 'Z' then (c as int + 32) as char else c
  }

  /** Python's str.upper() restricted to ASCII letters. */
  function Upper(s: string): (r: string)
    ensures |r| == |s|
  {
    seq(|s|, i requires 0 <= i < |s| => UpperChar(s[i]))
  }

  /** Python's str.lower() restricted to ASCII letters. */
  function Lower(s: string): (r: string)
    ensures |r| == |s|
  {
    seq(|s|, i requires 0 <= i < |s| => LowerChar(s[i]))
  }

  lemma UpperOfLower(s: string)
    ensures Upper(Lower(s)) == Upper(s)
  {
    assert forall i :: 0 <= i < |s| ==> Upper(Lower(s))[i] == Upper(s)[i];
  }

  lemma UpperOfUpper(s: string)
    ensures Upper(Upper(s)) == Upper(s)
  {
    assert forall i :: 0 <= i < |s| ==> Upper(Upper(s))[i] == Upper(s)[i];
  }

  lemma LowerOfUpper(s: string)
    ensures Lower(Upper(s)) == Lower(s)
  {
    assert forall i :: 0 <= i < |s| ==> Lower(Upper(s))[i] == Lower(s)[i];
  }

  lemma LowerOfLower(s: string)
    ensures Lower(Lower(s)) == Lower(s)
  {
    assert forall i :: 0 <= i < |s| ==> Lower(Lower(s))[i] == Lower(s)[i];
  }

  lemma UpperConcat(a: string, b: string)
    ensures Upper(a + b) == Upper(a) + Upper(b)
  {
    assert forall i :: 0 <= i < |a + b| ==> Upper(a + b)[i] == (Upper(a) + Upper(b))[i];
  }

  // ----- whitespace (the ASCII characters for which str.isspace() holds) -----

  predicate IsSpace(c: char) {
    c == ' ' || c == '\t' || c == '\n' || c == '\r' || c == '\U{0B}' || c == '\U{0C}'
    || c == '\U{1C}' || c == '\U{1D}' || c == '\U{1E}' || c == '\U{1F}'
  }

  function TrimLeft(s: string): (r: string)
    ensures |r| <= |s|
    ensures r == [] || !IsSpace(r[0])
  {
    if s != [] && IsSpace(s[0]) then TrimLeft(s[1..]) else s
  }

  function TrimRight(s: string): (r: string)
    ensures |r| <= |s|
    ensures r == [] || !IsSpace(r[|r| - 1])
  {
    if s != [] && IsSpace(s[|s| - 1]) then TrimRight(s[..|s| - 1]) else s
  }

  /** Python's str.strip() with no argument. */
  function Strip(s: string): (r: string)
    ensures |r| <= |s|
    ensures r == [] || (!IsSpace(r[0]) && !IsSpace(r[|r| - 1]))
  {
    TrimRightPrefix(TrimLeft(s));
    TrimRight(TrimLeft(s))
  }

  /** TrimLeft keeps a suffix of its argument. */
  lemma {:induction false} TrimLeftSuffix(s: string)
    ensures TrimLeft(s) == s[|s| - |TrimLeft(s)|..]
    decreases |s|
  {
    if s != [] && IsSpace(s[0]) {
      TrimLeftSuffix(s[1..]);
      assert s[1..][|s| - 1 - |TrimLeft(s)|..] == s[|s| - |TrimLeft(s)|..];
    }
  }

  /** TrimRight keeps a prefix of its argument. */
  lemma {:induction false} TrimRightPrefix(s: string)
    ensures TrimRight(s) == s[..|TrimRight(s)|]
    decreases |s|
  {
    if s != [] && IsSpace(s[|s| - 1]) {
      TrimRightPrefix(s[..|s| - 1]);
      assert s[..|s| - 1][..|TrimRight(s)|] == s[..|TrimRight(s)|];
    }
  }

  lemma LowerCharSpace(c: char)
    ensures IsSpace(LowerChar(c)) == IsSpace(c)
  {
  }

  lemma {:induction false} LowerTrimLeft(s: string)
    ensures Lower(TrimLeft(s)) == TrimLeft(Lower(s))
    decreases |s|
  {
    if s != [] {
      assert Lower(s)[1..] == Lower(s[1..]);
      LowerCharSpace(s[0]);
      assert Lower(s)[0] == LowerChar(s[0]);
      if IsSpace(s[0]) {
        LowerTrimLeft(s[1..]);
      }
    }
  }

  lemma {:induction false} LowerTrimRight(s: string)
    ensures Lower(TrimRight(s)) == TrimRight(Lower(s))
    decreases |s|
  {
    if s != [] {
      assert Lower(s)[..|s| - 1] == Lower(s[..|s| - 1]);
      LowerCharSpace(s[|s| - 1]);
      assert Lower(s)[|s| - 1] == LowerChar(s[|s| - 1]);
      if IsSpace(s[|s| - 1]) {
        LowerTrimRight(s[..|s| - 1]);
      }
    }
  }

  lemma LowerStrip(s: string)
    ensures Lower(Strip(s)) == Strip(Lower(s))
  {
    LowerTrimLeft(s);
    LowerTrimRight(TrimLeft(s));
  }

  /** What TrimLeft drops is whitespace. */
  lemma {:induction false} TrimLeftDropsSpace(s: string, k: int)
    requires 0 <= k < |s| - |TrimLeft(s)|
    ensures IsSpace(s[k])
    decreases |s|
  {
    if k > 0 {
      TrimLeftDropsSpace(s[1..], k - 1);
    }
  }

  /** What TrimRight drops is whitespace. */
  lemma {:induction false} TrimRightDropsSpace(s: string, k: int)
    requires |TrimRight(s)| <= k < |s|
    ensures IsSpace(s[k])
    decreases |s|
  {
    if k < |s| - 1 {
      TrimRightDropsSpace(s[..|s| - 1], k);
    }
  }

  // ----- substring search -----

  predicate OccursAt(hay: string, needle: string, i: int) {
    0 <= i && i + |needle| <= |hay| && hay[i..i + |needle|] == needle
  }

  /** Python's `needle in hay` for strings. */
  predicate Contains(hay: string, needle: string) {
    exists i | 0 <= i <= |hay| :: OccursAt(hay, needle, i)
  }

  /** An occurrence of a string that itself has no space lies, inside
      `a + " " + b`, entirely in `a` or entirely in `b`. */
  lemma {:induction false} ContainsAcrossSpace(a: string, b: string, needle: string)
    requires ' ' !in needle && needle != []
    ensures Contains(a + " " + b, needle) <==> Contains(a, needle) || Contains(b, needle)
  {
    var s := a + " " + b;
    if Contains(s, needle) {
      var i :| 0 <= i <= |s| && OccursAt(s, needle, i);
      assert s[|a|] == ' ';
      forall k | i <= k < i + |needle| ensures s[k] != ' ' {
        assert s[k] == s[i..i + |needle|][k - i] == needle[k - i];
      }
      if i + |needle| <= |a| {
        assert a[i..i + |needle|] == s[i..i + |needle|];
        assert OccursAt(a, needle, i);
      } else {
        assert i > |a|;
        assert b[i - |a| - 1..i - |a| - 1 + |needle|] == s[i..i + |needle|];
        assert OccursAt(b, needle, i - |a| - 1);
      }
    }
    if Contains(a, needle) {
      var i :| 0 <= i <= |a| && OccursAt(a, needle, i);
      assert s[i..i + |needle|] == a[i..i + |needle|];
      assert OccursAt(s, needle, i);
    }
    if Contains(b, needle) {
      var i :| 0 <= i <= |b| && OccursAt(b, needle, i);
      assert s[|a| + 1..] == b;
      assert s[|a| + 1 + i..|a| + 1 + i + |needle|] == s[|a| + 1..][i..i + |needle|];
      assert OccursAt(s, needle, |a| + 1 + i);
    }
  }

  /** A string in which the first two characters of `needle` never occur
      side by side does not contain it. */
  lemma NoPairNoOccurrence(hay: string, needle: string)
    requires |needle| >= 2
    requires forall i :: 0 <= i < |hay| - 1 ==> !(hay[i] == needle[0] && hay[i + 1] == needle[1])
    ensures !Contains(hay, needle)
  {
    forall i | 0 <= i <= |hay| ensures !OccursAt(hay, needle, i) {
      if i + |needle| <= |hay| {
        assert hay[i..i + |needle|][0] == hay[i] && hay[i..i + |needle|][1] == hay[i + 1];
      }
    }
  }

  /** Strip(s) is the slice of `s` after the dropped leading whitespace. */
  lemma StripSlice(s: string)
    ensures |s| - |TrimLeft(s)| + |Strip(s)| <= |s|
    ensures Strip(s) == s[|s| - |TrimLeft(s)|..|s| - |TrimLeft(s)| + |Strip(s)|]
  {
    var l := TrimLeft(s);
    var r := TrimRight(l);
    TrimLeftSuffix(s);
    TrimRightPrefix(l);
    SliceOfSuffix(s, |s| - |l|, |r|);
  }

  lemma SliceOfSuffix(s: string, off: int, m: int)
    requires 0 <= off <= off + m <= |s|
    ensures s[off..][..m] == s[off..off + m]
  {
  }

  lemma SliceOfSlice(s: string, off: int, m: int, i: int, n: int)
    requires 0 <= off && off + m <= |s| && 0 <= i && 0 <= n && i + n <= m
    ensures s[off..off + m][i..i + n] == s[off + i..off + i + n]
  {
    var got, want := s[off..off + m][i..i + n], s[off + i..off + i + n];
    forall k | 0 <= k < n ensures got[k] == want[k] {
      assert got[k] == s[off + i + k];
    }
  }

  /** `s[lo..hi]` is all whitespace. */
  predicate Blank(s: string, lo: int, hi: int)
    requires 0 <= lo <= hi <= |s|
  {
    forall k :: lo <= k < hi ==> IsSpace(s[k])
  }

  /** An occurrence of a needle of no whitespace in a string whose ends
      outside `s[off..off + m]` are whitespace lies inside that slice. */
  lemma OccursInSlice(s: string, needle: string, i: int, off: int, m: int)
    requires 0 <= off <= off + m <= |s|
    requires needle != [] && forall k :: 0 <= k < |needle| ==> !IsSpace(needle[k])
    requires Blank(s, 0, off) && Blank(s, off + m, |s|)
    requires OccursAt(s, needle, i)
    ensures OccursAt(s[off..off + m], needle, i - off)
  {
    var n := |needle|;
    assert s[i..i + n][0] == s[i] && s[i..i + n][n - 1] == s[i + n - 1];
    var r := s[off..off + m];
    var got, want := r[i - off..i - off + n], s[i..i + n];
    forall k | 0 <= k < n ensures got[k] == want[k] {
      assert r[i - off + k] == s[i + k];
    }
  }

  /** What Strip drops on either side is whitespace. */
  lemma StripBlankEnds(s: string)
    ensures |s| - |TrimLeft(s)| + |Strip(s)| <= |s|
    ensures Blank(s, 0, |s| - |TrimLeft(s)|)
    ensures Blank(s, |s| - |TrimLeft(s)| + |Strip(s)|, |s|)
  {
    var l := TrimLeft(s);
    var off := |s| - |l|;
    var m := |Strip(s)|;
    forall k | 0 <= k < off ensures IsSpace(s[k]) {
      TrimLeftDropsSpace(s, k);
    }
    TrimLeftSuffix(s);
    forall k | off + m <= k < |s| ensures IsSpace(s[k]) {
      TrimRightDropsSpace(l, k - off);
      assert l[k - off] == s[k];
    }
  }

  /** An occurrence of a needle of no whitespace lies inside the stripped part. */
  lemma OccurrenceInStripped(s: string, needle: string, i: int)
    requires needle != [] && forall k :: 0 <= k < |needle| ==> !IsSpace(needle[k])
    requires OccursAt(s, needle, i)
    ensures OccursAt(Strip(s), needle, i - (|s| - |TrimLeft(s)|))
  {
    var l := TrimLeft(s);
    var off := |s| - |l|;
    var m := |Strip(s)|;
    StripSlice(s);
    StripBlankEnds(s);
    OccursInSlice(s, needle, i, off, m);
  }

  /** A needle of no whitespace occurs in a string exactly when it occurs
      in the stripped string. */
  lemma StripKeepsNeedle(s: string, needle: string)
    requires needle != [] && forall k :: 0 <= k < |needle| ==> !IsSpace(needle[k])
    ensures Contains(Strip(s), needle) <==> Contains(s, needle)
  {
    var off := |s| - |TrimLeft(s)|;
    var r := Strip(s);
    StripSlice(s);
    if Contains(s, needle) {
      var i :| 0 <= i <= |s| && OccursAt(s, needle, i);
      OccurrenceInStripped(s, needle, i);
    }
    if Contains(r, needle) {
      var i :| 0 <= i <= |r| && OccursAt(r, needle, i);
      SliceOfSlice(s, off, |r|, i, |needle|);
      assert OccursAt(s, needle, off + i);
    }
  }

  /** A string that contains `small` contains every string that `small` contains. */
  lemma ContainsTransitive(hay: string, mid: string, needle: string)
    requires Contains(hay, mid) && Contains(mid, needle)
    ensures Contains(hay, needle)
  {
    var i :| 0 <= i <= |hay| && OccursAt(hay, mid, i);
    var j :| 0 <= j <= |mid| && OccursAt(mid, needle, j);
    forall k | 0 <= k < |needle| ensures hay[i + j + k] == needle[k] {
      assert needle[k] == mid[j..j + |needle|][k] == mid[j + k];
      assert mid[j + k] == hay[i..i + |mid|][j + k] == hay[i + j + k];
    }
    assert hay[i + j..i + j + |needle|] == needle;
    assert OccursAt(hay, needle, i + j);
  }

  // ----- regular-expression pieces: \bword\b and \ba\b.*\bb\b -----

  /** The characters Python's `\b` treats as word characters (ASCII part). */
  predicate IsWordChar(c: char) {
    ('a' <= c <= 'z') || ('A' <= c <= 'Z') || ('0' <= c <= '9') || c == '_'
  }

  predicate WordAt(s: string, w: string, i: int) {
    OccursAt(s, w, i)
    && (i == 0 || !IsWordChar(s[i - 1]))
    && (i + |w| == |s| || !IsWordChar(s[i + |w|]))
  }

  /** `\bw\b` for a word `w` that starts and ends with a word character. */
  predicate HasWord(s: string, w: string) {
    exists i | 0 <= i <= |s| :: WordAt(s, w, i)
  }

  predicate NoNewline(s: string, lo: int, hi: int)
    requires 0 <= lo <= hi <= |s|
  {
    forall k :: lo <= k < hi ==> s[k] != '\n'
  }

  /** `\ba\b.*\bb\b`: the word `a`, then anything but a line break, then the word `b`. */
  predicate HasWordThenWord(s: string, a: string, b: string) {
    exists i, j | 0 <= i <= |s| && 0 <= j <= |s| :: WordAt(s, a, i) && WordAt(s, b, j) && i + |a| <= j && NoNewline(s, i + |a|, j)
  }

  // ----- lexicographic order on code points (Python's str <) -----

  predicate StrLt(a: string, b: string)
    decreases |a|
  {
    if a == [] then b != []
    else if b == [] then false
    else a[0] < b[0] || (a[0] == b[0] && StrLt(a[1..], b[1..]))
  }

  lemma {:induction false} StrLtIrreflexive(a: string)
    ensures !StrLt(a, a)
    decreases |a|
  {
    if a != [] { StrLtIrreflexive(a[1..]); }
  }

  lemma {:induction false} StrLtTransitive(a: string, b: string, c: string)
    requires StrLt(a, b) && StrLt(b, c)
    ensures StrLt(a, c)
    decreases |a|
  {
    if a != [] && b != [] && c != [] && a[0] == b[0] == c[0] {
      StrLtTransitive(a[1..], b[1..], c[1..]);
    }
  }

  lemma {:induction false} StrLtTotal(a: string, b: string)
    ensures a == b || StrLt(a, b) || StrLt(b, a)
    decreases |a|
  {
    if a != [] && b != [] && a[0] == b[0] {
      StrLtTotal(a[1..], b[1..]);
      if a[1..] == b[1..] {
        assert a == [a[0]] + a[1..] && b == [b[0]] + b[1..];
      }
    }
  }

  predicate StrictlySorted(s: seq<string>) {
    forall i, j :: 0 <= i < j < |s| ==> StrLt(s[i], s[j])
  }

  /** Inserts `x` into a strictly sorted list unless it is already there. */
  function InsertSorted(s: seq<string>, x: string): (r: seq<string>)
    requires StrictlySorted(s)
    ensures StrictlySorted(r)
    ensures forall y :: y in r <==> y in s || y == x
  {
    if s == [] then [x]
    else if s[0] == x then s
    else if StrLt(x, s[0]) then
      assert forall j :: 0 < j < |s| ==> StrLt(x, s[j]) by {
        forall j | 0 < j < |s| { StrLtTransitive(x, s[0], s[j]); }
      }
      [x] + s
    else
      StrLtTotal(x, s[0]);
      var rest := InsertSorted(s[1..], x);
      assert forall y :: y in s <==> y == s[0] || y in s[1..] by {
        assert s == [s[0]] + s[1..];
      }
      assert forall k :: 0 <= k < |rest| ==> StrLt(s[0], rest[k]) by {
        forall k | 0 <= k < |rest| ensures StrLt(s[0], rest[k]) {
          assert rest[k] in rest;
        }
      }
      [s[0]] + rest
  }

  /** The distinct elements of `xs` in ascending order, as pandas' groupby
      and Python's sorted(set(...)) give them. */
  function SortedDistinct(xs: seq<string>): (r: seq<string>)
    ensures StrictlySorted(r)
    ensures forall y :: y in r <==> y in xs
  {
    if xs == [] then [] else InsertSorted(SortedDistinct(xs[..|xs| - 1]), xs[|xs| - 1])
  }

  lemma StrictlySortedDistinct(s: seq<string>, i: int, j: int)
    requires StrictlySorted(s) && 0 <= i < |s| && 0 <= j < |s| && i != j
    ensures s[i] != s[j]
  {
    if i < j { StrLtIrreflexive(s[i]); } else { StrLtIrreflexive(s[j]); }
  }
}
