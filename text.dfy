/**
 * The Python string built-ins the application relies on, stated over
 * `string` (a sequence of Unicode scalar values): `str.isspace`,
 * `str.strip`, `str.splitlines`, `sep.join`, the substring test `in`,
 * `str.lower` (ASCII and Latin-1 letters only), and the maximal runs that
 * both `str.split()` and `re.findall(r"[...]+", ...)` return.
 */
module Text {

  /** Python's `str.isspace` for one character (also what `\s` matches). */
  predicate IsSpace(c: char) {
    var n := c as int;
    (0x09 <= n <= 0x0D) || (0x1C <= n <= 0x20) || n == 0x85 || n == 0xA0 || n == 0x1680
    || (0x2000 <= n <= 0x200A) || n == 0x2028 || n == 0x2029 || n == 0x202F
    || n == 0x205F || n == 0x3000
  }

  predicate IsNotSpace(c: char) {
    !IsSpace(c)
  }

  /** The characters at which `str.splitlines` ends a line. */
  predicate IsLineBreak(c: char) {
    var n := c as int;
    (0x0A <= n <= 0x0D) || (0x1C <= n <= 0x1E) || n == 0x85 || n == 0x2028 || n == 0x2029
  }

  /** An ASCII decimal digit: within Latin-1, exactly what `\d` matches. */
  predicate IsDigit(c: char) {
    '0' <= c <= '9'
  }

  /** A non-empty string of ASCII decimal digits. */
  predicate IsDigits(s: string) {
    |s| > 0 && forall i :: 0 <= i < |s| ==> IsDigit(s[i])
  }

  /**
   * Python's `str.isdigit` for one character of Latin-1: the ASCII digits
   * and the superscripts one, two and three (U+00B9, U+00B2, U+00B3).
   */
  predicate IsDecimalOrSuperscript(c: char) {
    IsDigit(c) || c == '\U{B9}' || c == '\U{B2}' || c == '\U{B3}'
  }

  /** `s.isdigit()`: non-empty and made of such characters only. */
  predicate IsDigitString(s: string) {
    |s| > 0 && forall i :: 0 <= i < |s| ==> IsDecimalOrSuperscript(s[i])
  }

  predicate AllChars(s: string, p: char -> bool) {
    forall i :: 0 <= i < |s| ==> p(s[i])
  }

  predicate NoLineBreak(s: string) {
    forall i :: 0 <= i < |s| ==> !IsLineBreak(s[i])
  }

  // ---------------------------------------------------------------------
  // Substrings

  /** `pat` occurs in `s` at index `i`. */
  predicate At(s: string, pat: string, i: int) {
    0 <= i && i + |pat| <= |s| && s[i..i + |pat|] == pat
  }

  /** Python's `pat in s` for strings. */
  predicate Contains(s: string, pat: string) {
    exists i :: 0 <= i <= |s| - |pat| && At(s, pat, i)
  }

  predicate StartsWith(s: string, pat: string) {
    |pat| <= |s| && s[..|pat|] == pat
  }

  /** A slice of a string that does not contain `pat` does not contain it either. */
  lemma SliceNotContains(s: string, pat: string, a: int, b: int)
    requires 0 <= a <= b <= |s|
    requires !Contains(s, pat)
    ensures !Contains(s[a..b], pat)
  {
    if Contains(s[a..b], pat) {
      var i :| 0 <= i <= |s[a..b]| - |pat| && At(s[a..b], pat, i);
      assert a + i + |pat| <= b;
      var window := s[a..b][i..i + |pat|];
      forall j | 0 <= j < |pat| ensures window[j] == s[a + i + j] {
        assert window[j] == s[a..b][i + j];
      }
      assert window == s[a + i..a + i + |pat|];
      assert At(s, pat, a + i);
    }
  }

  // ---------------------------------------------------------------------
  // strip

  /** Number of leading whitespace characters. */
  function LeadingSpaces(s: string): (n: nat)
    ensures n <= |s|
    ensures forall i :: 0 <= i < n ==> IsSpace(s[i])
    ensures n < |s| ==> !IsSpace(s[n])
  {
    if s == [] || !IsSpace(s[0]) then 0 else 1 + LeadingSpaces(s[1..])
  }

  /** Index where the trailing whitespace of `s` begins. */
  function TrailingStart(s: string): (n: nat)
    ensures n <= |s|
    ensures forall i :: n <= i < |s| ==> IsSpace(s[i])
    ensures n > 0 ==> !IsSpace(s[n - 1])
  {
    if s == [] || !IsSpace(s[|s| - 1]) then |s| else TrailingStart(s[..|s| - 1])
  }

  /** Python's `s.strip()`: the slice of `s` without leading or trailing whitespace. */
  function Strip(s: string): (r: string)
    ensures |r| <= |s| - LeadingSpaces(s)
    ensures r == s[LeadingSpaces(s)..LeadingSpaces(s) + |r|]
    ensures r == [] <==> AllChars(s, IsSpace)
    ensures r != [] ==> !IsSpace(r[0]) && !IsSpace(r[|r| - 1])
    ensures AllChars(s[LeadingSpaces(s) + |r|..], IsSpace)
  {
    var t := s[LeadingSpaces(s)..];
    var n := TrailingStart(t);
    assert n == 0 ==> t == [];
    assert s[LeadingSpaces(s) + n..] == t[n..];
    t[..n]
  }

  /** Stripping keeps only characters of the input. */
  lemma StripChars(s: string, k: int)
    requires 0 <= k < |Strip(s)|
    ensures Strip(s)[k] == s[LeadingSpaces(s) + k]
  {
  }

  lemma StripNoLineBreak(s: string)
    requires NoLineBreak(s)
    ensures NoLineBreak(Strip(s))
  {
    forall k | 0 <= k < |Strip(s)| ensures !IsLineBreak(Strip(s)[k]) {
      StripChars(s, k);
    }
  }

  /** A string with neither leading nor trailing whitespace is its own strip. */
  lemma StripTrimmed(s: string)
    requires s != [] ==> !IsSpace(s[0]) && !IsSpace(s[|s| - 1])
    ensures Strip(s) == s
  {
    assert LeadingSpaces(s) == 0;
    assert s[0..] == s;
    assert TrailingStart(s) == |s|;
  }

  /** Stripping cannot create an occurrence of a pattern. */
  lemma StripNotContains(s: string, pat: string)
    requires !Contains(s, pat)
    ensures !Contains(Strip(s), pat)
  {
    var stripped := Strip(s);
    var a := LeadingSpaces(s);
    assert stripped == s[a..a + |stripped|];
    SliceNotContains(s, pat, a, a + |stripped|);
  }

  lemma {:induction false} LeadingSpacesOfPadded(a: string, x: string)
    requires AllChars(a, IsSpace)
    requires x != [] && !IsSpace(x[0])
    ensures LeadingSpaces(a + x) == |a|
  {
    if a != [] {
      assert (a + x)[1..] == a[1..] + x;
      LeadingSpacesOfPadded(a[1..], x);
    } else {
      assert a + x == x;
    }
  }

  lemma {:induction false} TrailingStartOfPadded(b: string, c: string)
    requires AllChars(c, IsSpace)
    requires b != [] && !IsSpace(b[|b| - 1])
    ensures TrailingStart(b + c) == |b|
  {
    if c != [] {
      var c' := c[..|c| - 1];
      assert (b + c)[..|b + c| - 1] == b + c';
      TrailingStartOfPadded(b, c');
    } else {
      assert b + c == b;
    }
  }

  /** Whitespace around a trimmed string is exactly what `strip()` removes. */
  lemma StripPadded(a: string, b: string, c: string)
    requires AllChars(a, IsSpace) && AllChars(c, IsSpace)
    requires b != [] ==> !IsSpace(b[0]) && !IsSpace(b[|b| - 1])
    ensures Strip(a + b + c) == b
  {
    var s := a + b + c;
    if b == [] {
      forall i | 0 <= i < |s| ensures IsSpace(s[i]) {
        if i < |a| {
          assert s[i] == a[i];
        } else {
          assert s[i] == c[i - |a|];
        }
      }
    } else {
      assert s == a + (b + c);
      LeadingSpacesOfPadded(a, b + c);
      assert s[|a|..] == b + c;
      TrailingStartOfPadded(b, c);
      assert (b + c)[..|b|] == b;
    }
  }

  // ---------------------------------------------------------------------
  // join

  /** Python's `sep.join(parts)`. */
  function Join(parts: seq<string>, sep: string): (r: string)
  {
    if |parts| == 0 then ""
    else if |parts| == 1 then parts[0]
    else parts[0] + sep + Join(parts[1..], sep)
  }

  lemma JoinCons(w: string, rest: seq<string>, sep: string)
    ensures Join([w] + rest, sep) == if rest == [] then w else w + sep + Join(rest, sep)
  {
    assert ([w] + rest)[1..] == rest;
  }

  predicate NonEmptyTrimmed(parts: seq<string>) {
    forall k :: 0 <= k < |parts| ==>
      parts[k] != [] && !IsSpace(parts[k][0]) && !IsSpace(parts[k][|parts[k]| - 1])
  }

  lemma NonEmptyTrimmedAppend(a: seq<string>, b: seq<string>)
    requires NonEmptyTrimmed(a) && NonEmptyTrimmed(b)
    ensures NonEmptyTrimmed(a + b)
  {
    forall k | 0 <= k < |a + b| ensures (a + b)[k] == if k < |a| then a[k] else b[k - |a|] { }
  }

  /**
   * Joining non-empty pieces that neither start nor end with whitespace,
   * with a single space, gives a string that is empty exactly when there
   * are no pieces and otherwise neither starts nor ends with whitespace.
   */
  lemma {:induction false} JoinTrimmed(parts: seq<string>)
    requires NonEmptyTrimmed(parts)
    ensures Join(parts, " ") == [] <==> parts == []
    ensures parts != [] ==> Join(parts, " ")[0] == parts[0][0]
    ensures parts != [] ==>
      var r := Join(parts, " ");
      var z := parts[|parts| - 1];
      r[|r| - 1] == z[|z| - 1]
  {
    if |parts| >= 2 {
      var rest := parts[1..];
      assert NonEmptyTrimmed(rest) by {
        forall k | 0 <= k < |rest| ensures rest[k] == parts[k + 1] { }
      }
      JoinTrimmed(rest);
      var tail := Join(rest, " ");
      var r := Join(parts, " ");
      assert r == parts[0] + " " + tail;
      assert r[0] == parts[0][0];
      assert r[|r| - 1] == tail[|tail| - 1];
      assert rest[|rest| - 1] == parts[|parts| - 1];
    }
  }

  /** Joining pieces without line breaks by a space adds no line break. */
  lemma {:induction false} JoinNoLineBreak(parts: seq<string>)
    requires forall k :: 0 <= k < |parts| ==> NoLineBreak(parts[k])
    ensures NoLineBreak(Join(parts, " "))
  {
    if |parts| >= 2 {
      JoinNoLineBreak(parts[1..]);
      var r := Join(parts, " ");
      var tail := Join(parts[1..], " ");
      assert r == parts[0] + " " + tail;
      forall i | 0 <= i < |r| ensures !IsLineBreak(r[i]) {
        if i < |parts[0]| {
          assert r[i] == parts[0][i];
        } else if i > |parts[0]| {
          assert r[i] == tail[i - |parts[0]| - 1];
        }
      }
    }
  }

  // ---------------------------------------------------------------------
  // Maximal runs: str.split() and re.findall over a character class

  /** Length of the longest prefix of `s` whose characters satisfy `p`. */
  function RunLength(s: string, p: char -> bool): (n: nat)
    ensures n <= |s|
    ensures forall i :: 0 <= i < n ==> p(s[i])
    ensures n < |s| ==> !p(s[n])
  {
    if s == [] || !p(s[0]) then 0 else 1 + RunLength(s[1..], p)
  }

  /** A non-empty string all of whose characters satisfy `p`. */
  predicate IsRun(w: string, p: char -> bool) {
    w != [] && AllChars(w, p)
  }

  /**
   * The maximal runs of characters satisfying `p`, left to right. With
   * `IsNotSpace` this is Python's `s.split()`; with a character class it
   * is `re.findall` of that class followed by `+`.
   */
  function Runs(s: string, p: char -> bool): (r: seq<string>)
    ensures forall k :: 0 <= k < |r| ==> IsRun(r[k], p)
    decreases |s|
  {
    if s == [] then []
    else if !p(s[0]) then Runs(s[1..], p)
    else
      var n := RunLength(s, p);
      [s[..n]] + Runs(s[n..], p)
  }

  /** A string with no character satisfying `p` has no runs. */
  lemma {:induction false} RunsOfNone(s: string, p: char -> bool)
    requires forall i :: 0 <= i < |s| ==> !p(s[i])
    ensures Runs(s, p) == []
  {
    if s != [] {
      RunsOfNone(s[1..], p);
    }
  }

  lemma {:induction false} RunLengthOfRun(w: string, t: string, p: char -> bool)
    requires IsRun(w, p)
    requires t == [] || !p(t[0])
    ensures RunLength(w + t, p) == |w|
  {
    if |w| > 1 {
      assert (w + t)[1..] == w[1..] + t;
      RunLengthOfRun(w[1..], t, p);
    } else {
      assert (w + t)[1..] == t;
    }
  }

  /** Runs of a run followed by a separator-led rest. */
  lemma RunsOfPrefix(w: string, t: string, p: char -> bool)
    requires IsRun(w, p)
    requires t == [] || !p(t[0])
    ensures Runs(w + t, p) == [w] + Runs(t, p)
  {
    RunLengthOfRun(w, t, p);
    assert (w + t)[..|w|] == w;
    assert (w + t)[|w|..] == t;
  }

  /**
   * Splitting the single-separator join of runs gives back the runs:
   * re-joining the tokens of a text and tokenising again is the identity.
   */
  lemma {:induction false} RunsOfJoin(ws: seq<string>, sep: char, p: char -> bool)
    requires !p(sep)
    requires forall k :: 0 <= k < |ws| ==> IsRun(ws[k], p)
    ensures Runs(Join(ws, [sep]), p) == ws
  {
    if |ws| == 1 {
      RunsOfPrefix(ws[0], [], p);
      assert ws[0] + [] == ws[0];
    } else if |ws| >= 2 {
      var rest := Join(ws[1..], [sep]);
      RunsOfJoin(ws[1..], sep, p);
      assert Join(ws, [sep]) == ws[0] + ([sep] + rest);
      RunsOfPrefix(ws[0], [sep] + rest, p);
      assert ([sep] + rest)[1..] == rest;
      assert ws == [ws[0]] + ws[1..];
    }
  }

  /**
   * `w` occurs in `s` at index `i` as a whole run: neither the character
   * before it nor the one after it satisfies `p`.
   */
  predicate MaximalRunAt(s: string, p: char -> bool, i: int, w: string) {
    0 <= i && i + |w| <= |s| && s[i..i + |w|] == w
    && (i == 0 || !p(s[i - 1]))
    && (i + |w| == |s| || !p(s[i + |w|]))
  }

  /** The characters of `s` that satisfy `p`, in order. */
  function Filter(s: string, p: char -> bool): (r: string)
    ensures |r| <= |s|
    ensures AllChars(r, p)
  {
    if s == [] then [] else (if p(s[0]) then [s[0]] else []) + Filter(s[1..], p)
  }

  lemma {:induction false} FilterSkips(s: string, p: char -> bool, n: nat)
    requires n <= |s|
    requires forall i :: 0 <= i < n ==> !p(s[i])
    ensures Filter(s, p) == Filter(s[n..], p)
  {
    if n > 0 {
      FilterSkips(s[1..], p, n - 1);
      assert s[1..][n - 1..] == s[n..];
    }
  }

  lemma {:induction false} FilterOfRunPrefix(s: string, p: char -> bool, n: nat)
    requires n <= |s|
    requires forall i :: 0 <= i < n ==> p(s[i])
    ensures Filter(s, p) == s[..n] + Filter(s[n..], p)
  {
    if n > 0 {
      FilterOfRunPrefix(s[1..], p, n - 1);
      assert s[1..][n - 1..] == s[n..];
      assert [s[0]] + s[1..][..n - 1] == s[..n];
    }
  }

  /**
   * The runs, put back together, are exactly the characters of `s` that
   * satisfy `p`: no such character is lost and no other one is taken.
   */
  lemma {:induction false} RunsCover(s: string, p: char -> bool)
    ensures Join(Runs(s, p), "") == Filter(s, p)
    decreases |s|
  {
    if s != [] {
      if !p(s[0]) {
        RunsCover(s[1..], p);
      } else {
        var n := RunLength(s, p);
        var rest := Runs(s[n..], p);
        assert Runs(s, p) == [s[..n]] + rest;
        RunsCover(s[n..], p);
        FilterOfRunPrefix(s, p, n);
        JoinCons(s[..n], rest, "");
      }
    }
  }

  /**
   * The number of indices `i`, from `j` on, at which a run starts: `s[i]`
   * satisfies `p` and `s[i - 1]`, if there is one, does not.
   */
  function RunStarts(s: string, p: char -> bool, j: nat): nat
    requires j <= |s|
    decreases |s| - j
  {
    if j == |s| then 0
    else (if p(s[j]) && (j == 0 || !p(s[j - 1])) then 1 else 0) + RunStarts(s, p, j + 1)
  }

  lemma {:induction false} RunStartsShift(s: string, p: char -> bool, k: nat, j: nat)
    requires k < j <= |s|
    ensures RunStarts(s, p, j) == RunStarts(s[k..], p, j - k)
    decreases |s| - j
  {
    if j < |s| {
      assert s[k..][j - k] == s[j] && s[k..][j - k - 1] == s[j - 1];
      RunStartsShift(s, p, k, j + 1);
    }
  }

  lemma RunStartsAt(s: string, p: char -> bool, k: nat)
    requires k <= |s|
    requires k == 0 || k == |s| || !p(s[k - 1]) || !p(s[k])
    ensures RunStarts(s, p, k) == RunStarts(s[k..], p, 0)
  {
    if k < |s| {
      RunStartsShift(s, p, k, k + 1);
    }
  }

  lemma {:induction false} RunStartsInRun(s: string, p: char -> bool, j: nat, n: nat)
    requires 1 <= j <= n <= |s|
    requires forall i :: 0 <= i < n ==> p(s[i])
    ensures RunStarts(s, p, j) == RunStarts(s, p, n)
    decreases n - j
  {
    if j < n {
      RunStartsInRun(s, p, j + 1, n);
    }
  }

  /** There is one run per index at which a run starts. */
  lemma {:induction false} RunsCount(s: string, p: char -> bool)
    ensures |Runs(s, p)| == RunStarts(s, p, 0)
    decreases |s|
  {
    if s != [] {
      if !p(s[0]) {
        RunStartsAt(s, p, 1);
        RunsCount(s[1..], p);
      } else {
        var n := RunLength(s, p);
        RunStartsInRun(s, p, 1, n);
        RunStartsAt(s, p, n);
        RunsCount(s[n..], p);
      }
    }
  }

  /**
   * `w` occurs in `s` as a whole run that starts at the `k`-th run start:
   * exactly `k` run starts come before it.
   */
  predicate OccursAsKthRun(s: string, p: char -> bool, k: int, w: string) {
    exists i | 0 <= i <= |s| :: MaximalRunAt(s, p, i, w) && RunStarts(s, p, i) == RunStarts(s, p, 0) - k
  }

  lemma MaximalRunShift(s: string, p: char -> bool, m: nat, i: int, w: string)
    requires m <= |s|
    requires MaximalRunAt(s[m..], p, i, w)
    requires i == 0 ==> m == 0 || !p(s[m - 1])
    ensures MaximalRunAt(s, p, i + m, w)
  {
    assert s[i + m..i + m + |w|] == s[m..][i..i + |w|];
  }

  /** Counting run starts from an index of the tail `s[m..]`. */
  lemma RunStartsOfTail(s: string, p: char -> bool, m: nat, i: nat)
    requires 0 < m <= |s| && i <= |s| - m
    requires i == 0 ==> m == |s| || !p(s[m - 1]) || !p(s[m])
    ensures RunStarts(s, p, i + m) == RunStarts(s[m..], p, i)
  {
    if i == 0 {
      RunStartsAt(s, p, m);
    } else {
      RunStartsShift(s, p, m, i + m);
    }
  }

  /**
   * The runs in order: the `k`-th element of `Runs(s, p)` is the maximal
   * run that begins at the `k`-th run start of `s`.
   */
  lemma {:induction false} RunsAtRunStarts(s: string, p: char -> bool)
    ensures forall k :: 0 <= k < |Runs(s, p)| ==> OccursAsKthRun(s, p, k, Runs(s, p)[k])
    decreases |s|
  {
    if s != [] {
      var r := Runs(s, p);
      if !p(s[0]) {
        RunsAtRunStarts(s[1..], p);
        assert r == Runs(s[1..], p);
        RunStartsAt(s, p, 1);
        forall k | 0 <= k < |r| ensures OccursAsKthRun(s, p, k, r[k]) {
          var i :| 0 <= i <= |s[1..]| && MaximalRunAt(s[1..], p, i, r[k])
            && RunStarts(s[1..], p, i) == RunStarts(s[1..], p, 0) - k;
          MaximalRunShift(s, p, 1, i, r[k]);
          RunStartsOfTail(s, p, 1, i);
          assert MaximalRunAt(s, p, i + 1, r[k]) && RunStarts(s, p, i + 1) == RunStarts(s, p, 0) - k;
        }
      } else {
        var n := RunLength(s, p);
        var rest := Runs(s[n..], p);
        RunsAtRunStarts(s[n..], p);
        assert r == [s[..n]] + rest;
        RunStartsInRun(s, p, 1, n);
        RunStartsAt(s, p, n);
        assert RunStarts(s, p, 0) == 1 + RunStarts(s[n..], p, 0);
        forall k | 0 <= k < |r| ensures OccursAsKthRun(s, p, k, r[k]) {
          if k == 0 {
            assert MaximalRunAt(s, p, 0, r[0]);
          } else {
            var w := rest[k - 1];
            assert r[k] == w;
            var i :| 0 <= i <= |s[n..]| && MaximalRunAt(s[n..], p, i, w)
              && RunStarts(s[n..], p, i) == RunStarts(s[n..], p, 0) - (k - 1);
            assert i != 0 by {
              assert p(w[0]) && w[0] == s[n..][i];
            }
            MaximalRunShift(s, p, n, i, w);
            RunStartsOfTail(s, p, n, i);
            assert MaximalRunAt(s, p, i + n, r[k]) && RunStarts(s, p, i + n) == RunStarts(s, p, 0) - k;
          }
        }
      }
    } else {
      assert Runs(s, p) == [];
    }
  }

  lemma {:induction false} RunStartsMonotone(s: string, p: char -> bool, a: nat, b: nat)
    requires a <= b <= |s|
    ensures RunStarts(s, p, a) >= RunStarts(s, p, b)
    decreases b - a
  {
    if a < b {
      RunStartsMonotone(s, p, a + 1, b);
    }
  }

  /** Two runs with as many run starts from their first index on are the same run. */
  lemma MaximalRunUnique(s: string, p: char -> bool, i: int, w: string, j: int, v: string)
    requires MaximalRunAt(s, p, i, w) && IsRun(w, p)
    requires MaximalRunAt(s, p, j, v) && IsRun(v, p)
    requires RunStarts(s, p, i) == RunStarts(s, p, j)
    ensures w == v
  {
    assert s[i] == w[0] && s[j] == v[0];
    if i < j {
      RunStartsMonotone(s, p, i + 1, j);
    } else if j < i {
      RunStartsMonotone(s, p, j + 1, i);
    }
    assert i == j;
    assert forall m :: 0 <= m < |w| ==> s[i + m] == w[m];
    assert forall m :: 0 <= m < |v| ==> s[i + m] == v[m];
  }

  /** Every maximal run of the text is one of the runs. */
  lemma RunsComplete(s: string, p: char -> bool, i: int, w: string)
    requires MaximalRunAt(s, p, i, w) && IsRun(w, p)
    ensures w in Runs(s, p)
  {
    var runs := Runs(s, p);
    RunsCount(s, p);
    RunsAtRunStarts(s, p);
    assert s[i] == w[0];
    assert RunStarts(s, p, i) == 1 + RunStarts(s, p, i + 1);
    RunStartsMonotone(s, p, 0, i);
    var k := RunStarts(s, p, 0) - RunStarts(s, p, i);
    assert OccursAsKthRun(s, p, k, runs[k]);
    var j :| 0 <= j <= |s| && MaximalRunAt(s, p, j, runs[k]) && RunStarts(s, p, j) == RunStarts(s, p, 0) - k;
    MaximalRunUnique(s, p, i, w, j, runs[k]);
  }

  /**
   * The facts above determine the result: a list of runs with one element
   * per run start, the `k`-th at the `k`-th run start, is `Runs(s, p)`.
   */
  lemma RunsDetermined(s: string, p: char -> bool, r: seq<string>)
    requires |r| == RunStarts(s, p, 0)
    requires forall k :: 0 <= k < |r| ==> IsRun(r[k], p) && OccursAsKthRun(s, p, k, r[k])
    ensures r == Runs(s, p)
  {
    var runs := Runs(s, p);
    RunsCount(s, p);
    RunsAtRunStarts(s, p);
    forall k | 0 <= k < |r| ensures r[k] == runs[k] {
      var i :| 0 <= i <= |s| && MaximalRunAt(s, p, i, r[k]) && RunStarts(s, p, i) == RunStarts(s, p, 0) - k;
      assert OccursAsKthRun(s, p, k, runs[k]);
      var j :| 0 <= j <= |s| && MaximalRunAt(s, p, j, runs[k]) && RunStarts(s, p, j) == RunStarts(s, p, 0) - k;
      MaximalRunUnique(s, p, i, r[k], j, runs[k]);
    }
  }

  // ---------------------------------------------------------------------
  // lower

  /** `str.lower` on one character: ASCII and Latin-1 capitals only. */
  function LowerChar(c: char): char {
    if 'A' <= c <= 'Z' || (0xC0 <= c as int <= 0xDE && c as int != 0xD7)
    then (c as int + 32) as char
    else c
  }

  function Lower(s: string): (r: string)
    ensures |r| == |s|
  {
    seq(|s|, i requires 0 <= i < |s| => LowerChar(s[i]))
  }

  // ---------------------------------------------------------------------
  // splitlines

  /** Index of the first line break in `s`, or `|s|` when there is none. */
  function LineEnd(s: string): (n: nat)
    ensures n <= |s|
    ensures NoLineBreak(s[..n])
    ensures n < |s| ==> IsLineBreak(s[n])
  {
    if s == [] || IsLineBreak(s[0]) then 0
    else
      var m := LineEnd(s[1..]);
      assert s[..1 + m] == [s[0]] + s[1..][..m];
      1 + m
  }

  /**
   * Python's `s.splitlines()`: lines without their terminators, a CR LF
   * pair counting as one terminator, and no empty final line after a
   * trailing terminator.
   */
  function SplitLines(s: string): (r: seq<string>)
    ensures forall k :: 0 <= k < |r| ==> NoLineBreak(r[k])
    decreases |s|
  {
    if s == [] then []
    else
      var n := LineEnd(s);
      if n == |s| then [s]
      else
        var k := if s[n] == '\r' && n + 1 < |s| && s[n + 1] == '\n' then 2 else 1;
        [s[..n]] + SplitLines(s[n + k..])
  }

  /**
   * The number of line terminators in `s` as `str.splitlines` counts them:
   * every line-break character except a LF directly after a CR. `afterCr`
   * says whether the character just before `s` was a CR.
   */
  function Terminators(s: string, afterCr: bool): nat
    decreases |s|
  {
    if s == [] then 0
    else
      (if IsLineBreak(s[0]) && !(afterCr && s[0] == '\n') then 1 else 0)
      + Terminators(s[1..], s[0] == '\r')
  }

  /** 1 when `s` ends in a non-empty line that has no terminator. */
  function OpenTail(s: string): nat {
    if s != [] && !IsLineBreak(s[|s| - 1]) then 1 else 0
  }

  lemma {:induction false} TerminatorsSkipLine(s: string, n: nat)
    requires n <= |s| && NoLineBreak(s[..n])
    ensures Terminators(s, false) == Terminators(s[n..], false)
  {
    if n > 0 {
      assert !IsLineBreak(s[..n][0]);
      assert s[1..][..n - 1] == s[..n][1..];
      TerminatorsSkipLine(s[1..], n - 1);
      assert s[1..][n - 1..] == s[n..];
    }
  }

  lemma TerminatorsAtBreak(s: string, n: nat, k: nat)
    requires n < |s| && IsLineBreak(s[n])
    requires k == if s[n] == '\r' && n + 1 < |s| && s[n + 1] == '\n' then 2 else 1
    ensures Terminators(s[n..], false) == 1 + Terminators(s[n + k..], false)
  {
    assert s[n..][1..] == s[n + 1..];
    if k == 2 {
      assert s[n + 1..][1..] == s[n + 2..];
    } else if s[n] == '\r' && n + 1 < |s| {
      assert s[n + 1..][0] != '\n';
    }
  }

  lemma OpenTailOfRest(s: string, j: nat)
    requires 0 < j <= |s| && IsLineBreak(s[j - 1])
    ensures OpenTail(s[j..]) == OpenTail(s)
  {
    if j < |s| {
      assert s[j..][|s| - j - 1] == s[|s| - 1];
    }
  }

  lemma SplitLinesAtBreak(s: string, n: nat, k: nat)
    requires s != [] && n == LineEnd(s) && n < |s|
    requires k == if s[n] == '\r' && n + 1 < |s| && s[n + 1] == '\n' then 2 else 1
    ensures n + k <= |s| && SplitLines(s) == [s[..n]] + SplitLines(s[n + k..])
  {
    assert n != |s|;
    assert n + k <= |s|;
    var rest := SplitLines(s[n + k..]);
    assert SplitLines(s) == [s[..n]] + rest;
  }

  lemma SplitLinesOneLine(s: string)
    requires s != [] && LineEnd(s) == |s|
    ensures |SplitLines(s)| == Terminators(s, false) + OpenTail(s)
  {
    TerminatorsSkipLine(s, |s|);
    assert !IsLineBreak(s[..|s|][|s| - 1]);
    assert s[|s|..] == [];
  }

  /** One line per terminator, plus one for an unterminated last line. */
  lemma {:induction false} SplitLinesCount(s: string)
    ensures |SplitLines(s)| == Terminators(s, false) + OpenTail(s)
    decreases |s|
  {
    if s != [] {
      var n := LineEnd(s);
      if n == |s| {
        SplitLinesOneLine(s);
      } else {
        var k := if s[n] == '\r' && n + 1 < |s| && s[n + 1] == '\n' then 2 else 1;
        var rest := s[n + k..];
        calc {
          |SplitLines(s)|;
          == { SplitLinesAtBreak(s, n, k); }
          1 + |SplitLines(rest)|;
          == { SplitLinesCount(rest); }
          1 + Terminators(rest, false) + OpenTail(rest);
          == { TerminatorsAtBreak(s, n, k); }
          Terminators(s[n..], false) + OpenTail(rest);
          == { TerminatorsSkipLine(s, n); OpenTailOfRest(s, n + k); }
          Terminators(s, false) + OpenTail(s);
        }
      }
    }
  }

  /** Every line break in `s` is a LF, and `s` does not end in one. */
  predicate LfSeparated(s: string) {
    (forall i :: 0 <= i < |s| && IsLineBreak(s[i]) ==> s[i] == '\n')
    && (s == [] || s[|s| - 1] != '\n')
  }

  lemma LfSeparatedRest(s: string, n: nat)
    requires LfSeparated(s) && n < |s| && IsLineBreak(s[n])
    ensures s[n] == '\n' && n + 1 < |s| && LfSeparated(s[n + 1..])
  {
    var rest := s[n + 1..];
    forall i | 0 <= i < |rest| && IsLineBreak(rest[i]) ensures rest[i] == '\n' {
      assert rest[i] == s[n + 1 + i];
    }
  }

  /** Joining the lines of a LF-separated string with LF gives it back. */
  lemma {:induction false} SplitLinesJoin(s: string)
    requires LfSeparated(s)
    ensures Join(SplitLines(s), "\n") == s
    decreases |s|
  {
    if s != [] {
      var n := LineEnd(s);
      if n == |s| {
        assert SplitLines(s) == [s];
      } else {
        LfSeparatedRest(s, n);
        var rest := s[n + 1..];
        calc {
          Join(SplitLines(s), "\n");
          == { SplitLinesAtBreak(s, n, 1);
               assert SplitLines(rest) != [];
               JoinCons(s[..n], SplitLines(rest), "\n"); }
          s[..n] + "\n" + Join(SplitLines(rest), "\n");
          == { SplitLinesJoin(rest); }
          s[..n] + "\n" + rest;
          == s;
        }
      }
    }
  }
}
