/** The Python string operations the script relies on, over `seq<char>`:
    `in`, `split`, `replace`, `str(int)`, `int(str)` and `strip`. */
module Text {
  import opened Wrappers

  /** `pat` occurs in `s` starting at index `k`. */
  predicate OccursAt(s: string, pat: string, k: int) {
    0 <= k && k + |pat| <= |s| && s[k..k + |pat|] == pat
  }

  /** Python's `pat in s`. */
  predicate Contains(s: string, pat: string) {
    exists k | 0 <= k <= |s| :: OccursAt(s, pat, k)
  }

  /** No proper suffix of `pat` is also a prefix of it, so two occurrences of `pat` never overlap. */
  predicate Borderless(pat: string) {
    forall d :: 0 < d < |pat| ==> pat[d..] != pat[..|pat| - d]
  }

  lemma OccursAtShift(s: string, pat: string, j: int)
    requires |s| > 0 && j >= 0
    ensures OccursAt(s, pat, j + 1) <==> OccursAt(s[1..], pat, j)
  {
    if 0 <= j && j + 1 + |pat| <= |s| {
      assert s[j + 1..j + 1 + |pat|] == s[1..][j..j + |pat|];
    }
  }

  /** The leftmost occurrence of `pat` in `s` (Python's `s.find(pat)` when it is not -1). */
  function FirstIndex(s: string, pat: string): (r: Option<nat>)
    ensures r.Some? ==> OccursAt(s, pat, r.value)
    ensures r.Some? ==> forall j :: 0 <= j < r.value ==> !OccursAt(s, pat, j)
    ensures r.None? <==> !Contains(s, pat)
    decreases |s|
  {
    if |s| < |pat| then None
    else if s[..|pat|] == pat then Some(0)
    else
      match FirstIndex(s[1..], pat)
      case None =>
        assert forall k :: !OccursAt(s, pat, k) by {
          forall k ensures !OccursAt(s, pat, k) {
            if k >= 1 {
              OccursAtShift(s, pat, k - 1);
            }
          }
        }
        None
      case Some(i) =>
        assert forall j :: 0 <= j < i + 1 ==> !OccursAt(s, pat, j) by {
          forall j | 0 <= j < i + 1 ensures !OccursAt(s, pat, j) {
            if j >= 1 {
              OccursAtShift(s, pat, j - 1);
            }
          }
        }
        OccursAtShift(s, pat, i);
        Some(i + 1)
  }

  /** No occurrence of a borderless pattern overlaps one at `p` from the left. */
  lemma NoOverlapBefore(s: string, pat: string, p: int)
    requires Borderless(pat) && OccursAt(s, pat, p)
    ensures forall j :: p - |pat| < j < p ==> !OccursAt(s, pat, j)
  {
    forall j | p - |pat| < j < p ensures !OccursAt(s, pat, j) {
      if 0 <= j {
        var d := p - j;
        assert s[j..j + |pat|][d..] == s[p..j + |pat|] == s[p..p + |pat|][..|pat| - d];
        assert pat[d..] != pat[..|pat| - d];
      }
    }
  }

  /** A pattern whose first character appears nowhere else in it is borderless. */
  lemma UniqueHeadBorderless(pat: string)
    requires |pat| > 0
    requires forall j :: 0 < j < |pat| ==> pat[j] != pat[0]
    ensures Borderless(pat)
  {
    forall d | 0 < d < |pat| ensures pat[d..] != pat[..|pat| - d] {
      assert pat[d..][0] == pat[d];
    }
  }

  /** A character of `pat` that `s` lacks keeps `pat` out of `s`. */
  lemma MissingCharNoOccurrence(s: string, pat: string, c: char)
    requires c in pat && c !in s
    ensures !Contains(s, pat)
  {
    var j :| 0 <= j < |pat| && pat[j] == c;
    forall k | 0 <= k <= |s| ensures !OccursAt(s, pat, k) {
      if k + |pat| <= |s| {
        assert s[k..k + |pat|][j] == s[k + j] != c;
      }
    }
  }

  /** The leftmost occurrence in `x + pat + y` is the one after `x` when `x` has none. */
  lemma FirstIndexAfterPrefix(x: string, pat: string, y: string)
    requires |pat| > 0 && Borderless(pat) && !Contains(x, pat)
    ensures FirstIndex(x + pat + y, pat) == Some(|x|)
  {
    var s := x + pat + y;
    assert OccursAt(s, pat, |x|) by {
      assert s[|x|..|x| + |pat|] == pat;
    }
    NoOverlapBefore(s, pat, |x|);
    forall j | 0 <= j && j + |pat| <= |x| ensures !OccursAt(s, pat, j) {
      assert s[j..j + |pat|] == x[j..j + |pat|];
      assert !OccursAt(x, pat, j);
    }
  }

  /** Python's `s.split(pat)[-1]`: the text after the last match of a left-to-right scan. */
  function AfterLast(s: string, pat: string): string
    requires |pat| > 0
    decreases |s|
  {
    match FirstIndex(s, pat)
    case None => s
    case Some(i) => AfterLast(s[i + |pat|..], pat)
  }

  /** Whatever precedes the final `pat` in `x + pat + y`, the last piece of the split is `y`. */
  lemma {:induction false} AfterLastOfSuffix(x: string, pat: string, y: string)
    requires |pat| > 0 && Borderless(pat) && !Contains(y, pat)
    ensures AfterLast(x + pat + y, pat) == y
    decreases |x|
  {
    var s := x + pat + y;
    assert OccursAt(s, pat, |x|) by {
      assert s[|x|..|x| + |pat|] == pat;
    }
    NoOverlapBefore(s, pat, |x|);
    var i := FirstIndex(s, pat).value;
    if i == |x| {
      assert s[i + |pat|..] == y;
    } else {
      assert s[i + |pat|..] == x[i + |pat|..] + pat + y;
      AfterLastOfSuffix(x[i + |pat|..], pat, y);
    }
  }

  /** Python's `s.split(c)[0]`: the text before the first `c`. */
  function BeforeFirst(s: string, c: char): (r: string)
    ensures |r| <= |s| && r == s[..|r|] && c !in r
    ensures |r| < |s| ==> s[|r|] == c
  {
    match FirstIndex(s, [c])
    case None =>
      assert forall k :: 0 <= k < |s| ==> s[k] != c by {
        forall k | 0 <= k < |s| ensures s[k] != c {
          assert s[k] == c ==> OccursAt(s, [c], k);
        }
      }
      s
    case Some(i) =>
      assert forall k :: 0 <= k < i ==> s[k] != c by {
        forall k | 0 <= k < i ensures s[k] != c {
          assert s[k] == c ==> OccursAt(s, [c], k);
        }
      }
      assert s[i..i + 1] == [c];
      s[..i]
  }

  /** The text before the first `c` is everything before a `c` that has none before it. */
  lemma BeforeFirstOfPrefix(p: string, c: char, rest: string)
    requires c !in p
    ensures BeforeFirst(p + [c] + rest, c) == p
  {
    MissingCharNoOccurrence(p, [c], c);
    UniqueHeadBorderless([c]);
    FirstIndexAfterPrefix(p, [c], rest);
    assert (p + [c] + rest)[..|p|] == p;
  }

  /** Python's `s.replace(pat, "")`: every match of a left-to-right scan removed. */
  function RemoveAll(s: string, pat: string): string
    requires |pat| > 0
    decreases |s|
  {
    match FirstIndex(s, pat)
    case None => s
    case Some(i) => s[..i] + RemoveAll(s[i + |pat|..], pat)
  }

  /** Removing a borderless suffix `pat` from `u + pat` gives `u` back when `u` has no `pat` of its own. */
  lemma RemoveAllSuffix(u: string, pat: string)
    requires |pat| > 0 && Borderless(pat) && !Contains(u, pat)
    ensures RemoveAll(u + pat, pat) == u
  {
    FirstIndexAfterPrefix(u, pat, "");
    assert u + pat == u + pat + "";
    assert (u + pat)[|u| + |pat|..] == "";
    assert (u + pat)[..|u|] == u;
  }

  /** Python's `s.split(sep)` for a one-character separator; never empty. */
  function Split(s: string, sep: char): (r: seq<string>)
    ensures |r| >= 1
    decreases |s|
  {
    if |s| == 0 then [""]
    else if s[0] == sep then [""] + Split(s[1..], sep)
    else
      var rest := Split(s[1..], sep);
      [[s[0]] + rest[0]] + rest[1..]
  }

  /** Python's `sep.join(parts)`. */
  function Join(parts: seq<string>, sep: char): (r: string)
    ensures |parts| > 0 ==> |r| >= |parts[0]|
    decreases |parts|
  {
    if |parts| == 0 then ""
    else if |parts| == 1 then parts[0]
    else parts[0] + [sep] + Join(parts[1..], sep)
  }

  lemma {:induction false} SplitNoSeparator(a: string, sep: char)
    requires sep !in a
    ensures Split(a, sep) == [a]
    decreases |a|
  {
    if |a| > 0 {
      SplitNoSeparator(a[1..], sep);
      assert [a[0]] + a[1..] == a;
    }
  }

  lemma {:induction false} SplitAtSeparator(a: string, sep: char, t: string)
    requires sep !in a
    ensures Split(a + [sep] + t, sep) == [a] + Split(t, sep)
    decreases |a|
  {
    var s := a + [sep] + t;
    if |a| == 0 {
      assert s[1..] == t;
    } else {
      assert s[1..] == a[1..] + [sep] + t;
      SplitAtSeparator(a[1..], sep, t);
      assert [a[0]] + a[1..] == a;
    }
  }

  /** Splitting a join of separator-free parts gives the parts back. */
  lemma {:induction false} SplitJoin(parts: seq<string>, sep: char)
    requires |parts| >= 1
    requires forall i :: 0 <= i < |parts| ==> sep !in parts[i]
    ensures Split(Join(parts, sep), sep) == parts
    decreases |parts|
  {
    if |parts| == 1 {
      SplitNoSeparator(parts[0], sep);
    } else {
      SplitJoin(parts[1..], sep);
      SplitAtSeparator(parts[0], sep, Join(parts[1..], sep));
      assert [parts[0]] + parts[1..] == parts;
    }
  }

  predicate IsDigit(c: char) {
    '0' <= c <= '9'
  }

  /** The value of a decimal digit (0 for any other character). */
  function DigitValue(c: char): (v: nat)
    ensures v < 10
  {
    if IsDigit(c) then (c as int - '0' as int) as nat else 0
  }

  function DigitChar(d: nat): (c: char)
    requires d < 10
    ensures IsDigit(c) && DigitValue(c) == d
  {
    ('0' as int + d) as char
  }

  /** The decimal digits of `n`, without leading zeros. */
  function Decimal(n: nat): (r: string)
    ensures |r| > 0
    ensures forall i :: 0 <= i < |r| ==> IsDigit(r[i])
  {
    if n < 10 then [DigitChar(n)] else Decimal(n / 10) + [DigitChar(n % 10)]
  }

  /** Python's `str(n)` (and `f"{n}"`) for an integer. */
  function IntToString(n: int): string {
    if n < 0 then "-" + Decimal(-n) else Decimal(n)
  }

  /** The characters `str.strip()` removes (ASCII whitespace). */
  predicate IsSpace(c: char) {
    c == ' ' || c == '\t' || c == '\n' || c == '\r' || c == '\U{B}' || c == '\U{C}'
  }

  function TrimStart(s: string): string
    decreases |s|
  {
    if |s| > 0 && IsSpace(s[0]) then TrimStart(s[1..]) else s
  }

  function TrimEnd(s: string): string
    decreases |s|
  {
    if |s| > 0 && IsSpace(s[|s| - 1]) then TrimEnd(s[..|s| - 1]) else s
  }

  /** Python's `s.strip()`. */
  function Strip(s: string): string {
    TrimEnd(TrimStart(s))
  }

  /** Digits with single underscores between them, as Python's `int()` accepts. */
  predicate ValidDigits(d: string) {
    && |d| > 0
    && IsDigit(d[0])
    && IsDigit(d[|d| - 1])
    && (forall i :: 0 <= i < |d| ==> IsDigit(d[i]) || d[i] == '_')
    && (forall i :: 0 <= i < |d| - 1 ==> d[i] == '_' ==> d[i + 1] != '_')
  }

  /** The value of a digit string, skipping underscores. */
  function DigitsValue(d: string): nat
    decreases |d|
  {
    if |d| == 0 then 0
    else if d[|d| - 1] == '_' then DigitsValue(d[..|d| - 1])
    else DigitsValue(d[..|d| - 1]) * 10 + DigitValue(d[|d| - 1])
  }

  /** Python's `int(s)` for a string: surrounding whitespace, an optional sign and decimal digits;
      `None` where Python raises ValueError. */
  function ParseInt(s: string): Option<int> {
    var t := Strip(s);
    if |t| > 0 && (t[0] == '+' || t[0] == '-') then
      if ValidDigits(t[1..]) then
        var v: int := DigitsValue(t[1..]);
        Some(if t[0] == '-' then -v else v)
      else None
    else if ValidDigits(t) then Some(DigitsValue(t))
    else None
  }

  lemma {:induction false} DecimalValue(n: nat)
    ensures DigitsValue(Decimal(n)) == n
  {
    if n >= 10 {
      var d := Decimal(n);
      DecimalValue(n / 10);
      assert d[..|d| - 1] == Decimal(n / 10);
    }
  }

  lemma StripDigits(s: string)
    requires |s| > 0 && IsDigit(s[0]) && IsDigit(s[|s| - 1])
    ensures Strip(s) == s
  {
  }

  /** `int(str(n)) == n` for every integer. */
  lemma ParseIntRoundTrip(n: int)
    ensures ParseInt(IntToString(n)) == Some(n)
  {
    var m: nat := if n < 0 then -n else n;
    var d := Decimal(m);
    DecimalValue(m);
    if n < 0 {
      var s := "-" + d;
      assert s[|s| - 1] == d[|d| - 1];
      StripDigits(d);
      assert TrimStart(s) == s;
      assert TrimEnd(s) == s;
      assert s[1..] == d;
    } else {
      StripDigits(d);
    }
  }

  /** Different integers print differently. */
  lemma IntToStringInjective(m: int, n: int)
    requires IntToString(m) == IntToString(n)
    ensures m == n
  {
    ParseIntRoundTrip(m);
    ParseIntRoundTrip(n);
  }

  /** Equal strings that agree on a prefix agree on the rest. */
  lemma CancelPrefix(a: string, b: string, c: string)
    requires a + b == a + c
    ensures b == c
  {
    assert b == (a + b)[|a|..];
    assert c == (a + c)[|a|..];
  }

  /** Equal strings that agree on a suffix agree on the rest. */
  lemma CancelSuffix(b: string, c: string, z: string)
    requires b + z == c + z
    ensures b == c
  {
    assert b == (b + z)[..|b|];
    assert c == (c + z)[..|c|];
  }

  /** A separator-free head is determined by its first separator. */
  lemma HeadBeforeSeparator(k1: string, r1: string, k2: string, r2: string, sep: char)
    requires sep !in k1 && sep !in k2
    requires k1 + [sep] + r1 == k2 + [sep] + r2
    ensures k1 == k2 && r1 == r2
  {
    MissingCharNoOccurrence(k1, [sep], sep);
    MissingCharNoOccurrence(k2, [sep], sep);
    FirstIndexAfterPrefix(k1, [sep], r1);
    FirstIndexAfterPrefix(k2, [sep], r2);
    var s := k1 + [sep] + r1;
    assert k1 == s[..|k1|];
    assert k2 == (k2 + [sep] + r2)[..|k2|];
    CancelPrefix(k1 + [sep], r1, r2);
  }
}
