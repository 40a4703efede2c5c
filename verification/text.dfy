/** Python `str` operations the desktop pet relies on, over `seq<char>`
    (one `char` per Unicode code point, as in Python 3 strings). */
module Text {
  import opened Maybe

  /** Python's `str.isspace` on a single code point. */
  predicate IsSpace(c: char) {
    || c == ' ' || c == '\t' || c == '\n' || c == '\r'
    || c == '\U{000B}' || c == '\U{000C}'
    || ('\U{001C}' <= c <= '\U{001F}')
    || c == '\U{0085}' || c == '\U{00A0}' || c == '\U{1680}'
    || ('\U{2000}' <= c <= '\U{200A}')
    || c == '\U{2028}' || c == '\U{2029}' || c == '\U{202F}' || c == '\U{205F}' || c == '\U{3000}'
  }

  /** Neither end of `s` is whitespace: `s` is its own `strip()`. */
  predicate Trimmed(s: string) {
    |s| == 0 || (!IsSpace(s[0]) && !IsSpace(s[|s| - 1]))
  }

  /** `s.lstrip()`: the suffix left after dropping leading whitespace. */
  function LStrip(s: string): (r: string)
    ensures |r| <= |s| && r == s[|s| - |r|..]
    ensures forall k :: 0 <= k < |s| - |r| ==> IsSpace(s[k])
    ensures |r| == 0 || !IsSpace(r[0])
  {
    if |s| > 0 && IsSpace(s[0]) then LStrip(s[1..]) else s
  }

  /** `s.rstrip()`: the prefix left after dropping trailing whitespace. */
  function RStrip(s: string): (r: string)
    ensures |r| <= |s| && r == s[..|r|]
    ensures forall k :: |r| <= k < |s| ==> IsSpace(s[k])
    ensures |r| == 0 || !IsSpace(r[|r| - 1])
  {
    if |s| > 0 && IsSpace(s[|s| - 1]) then RStrip(s[..|s| - 1]) else s
  }

  /** `s.strip()`: the slice of `s` left after dropping whitespace at both
      ends. */
  function Strip(s: string): (r: string)
    ensures Trimmed(r)
    ensures Trimmed(s) ==> r == s
    ensures exists i :: SliceBetweenSpace(s, r, i)
  {
    var l := LStrip(s);
    var r := RStrip(l);
    assert |r| > 0 ==> r[0] == l[0];
    PrefixOfSuffix(s, l, r);
    assert SliceBetweenSpace(s, r, |s| - |l|);
    r
  }

  /** A prefix `r` of a suffix `l` of `s` is a slice of `s`, and what `l`
      has after `r` is what `s` has after that slice. */
  lemma PrefixOfSuffix(s: string, l: string, r: string)
    requires |l| <= |s| && l == s[|s| - |l|..]
    requires |r| <= |l| && r == l[..|r|]
    ensures var i := |s| - |l|;
            && r == s[i..i + |r|]
            && forall k :: i + |r| <= k < |s| ==> s[k] == l[k - i]
  {
  }

  /** `r` is the slice of `s` starting at `i`, and everything of `s` before
      and after it is whitespace. */
  predicate SliceBetweenSpace(s: string, r: string, i: int) {
    && 0 <= i <= |s| - |r| && r == s[i..i + |r|]
    && (forall k :: 0 <= k < i ==> IsSpace(s[k]))
    && (forall k :: i + |r| <= k < |s| ==> IsSpace(s[k]))
  }

  /** `s.rstrip(c)` for a single character `c`. */
  function RStripChar(s: string, c: char): (r: string)
    ensures |r| <= |s| && r == s[..|r|]
    ensures forall k :: |r| <= k < |s| ==> s[k] == c
    ensures |r| == 0 || r[|r| - 1] != c
  {
    if |s| > 0 && s[|s| - 1] == c then RStripChar(s[..|s| - 1], c) else s
  }

  predicate StartsWith(s: string, p: string) {
    |p| <= |s| && s[..|p|] == p
  }

  predicate EndsWith(s: string, p: string) {
    |p| <= |s| && s[|s| - |p|..] == p
  }

  /** `p` occurs in `s` starting at index `i`. */
  predicate OccursAt(s: string, p: string, i: int) {
    0 <= i && i + |p| <= |s| && s[i..i + |p|] == p
  }

  /** The first occurrence of `p` in `s` at index `k` or later. */
  function FindFrom(s: string, p: string, k: nat): (r: Option<nat>)
    requires k <= |s|
    ensures r.Some? ==> k <= r.value && OccursAt(s, p, r.value)
    ensures r.Some? ==> forall j :: k <= j < r.value ==> !OccursAt(s, p, j)
    ensures r.None? ==> forall j :: k <= j ==> !OccursAt(s, p, j)
    decreases |s| - k
  {
    if OccursAt(s, p, k) then Some(k)
    else if k == |s| then None
    else FindFrom(s, p, k + 1)
  }

  /** `s.find(p)`, with `None` for Python's -1. */
  function Find(s: string, p: string): (r: Option<nat>)
    ensures r.Some? ==> OccursAt(s, p, r.value)
    ensures r.Some? ==> forall j :: 0 <= j < r.value ==> !OccursAt(s, p, j)
    ensures r.None? ==> forall j :: !OccursAt(s, p, j)
  {
    FindFrom(s, p, 0)
  }

  /** Python's `p in s`. */
  predicate Contains(s: string, p: string) {
    Find(s, p).Some?
  }

  lemma OccurrenceStartsWith(s: string, p: string, i: int)
    requires OccursAt(s, p, i) && |p| > 0
    ensures s[i] == p[0]
  {
    assert s[i] == s[i..i + |p|][0];
  }

  lemma OccursContains(s: string, p: string, i: int)
    requires OccursAt(s, p, i)
    ensures Contains(s, p)
  {
  }

  lemma EndsWithContains(s: string, p: string)
    requires EndsWith(s, p)
    ensures Contains(s, p)
  {
    OccursContains(s, p, |s| - |p|);
  }

  /** An occurrence inside a prefix of `s` is an occurrence in `s`. */
  lemma OccursInPrefix(s: string, p: string, n: nat, j: int)
    requires n <= |s| && OccursAt(s[..n], p, j)
    ensures OccursAt(s, p, j)
  {
    assert s[..n][j..j + |p|] == s[j..j + |p|];
  }

  /** `s.split(sep)` for a non-empty separator: the pieces between
      successive left-to-right, non-overlapping occurrences of `sep`. */
  function Split(s: string, sep: string): (parts: seq<string>)
    requires |sep| > 0
    ensures |parts| >= 1
    ensures forall i :: 0 <= i < |parts| ==> !Contains(parts[i], sep)
    ensures Find(s, sep).Some? ==> parts[0] == s[..Find(s, sep).value]
    ensures Find(s, sep).None? ==> parts == [s]
    decreases |s|
  {
    match Find(s, sep)
    case None => [s]
    case Some(i) =>
      var head := s[..i];
      assert !Contains(head, sep) by {
        if Contains(head, sep) {
          OccursInPrefix(s, sep, i, Find(head, sep).value);
        }
      }
      [head] + Split(s[i + |sep|..], sep)
  }

  /** The first piece of a split is everything before the first separator. */
  lemma FirstPiece(s: string, sep: string)
    requires |sep| > 0 && Contains(s, sep)
    ensures var stem := Split(s, sep)[0];
            && OccursAt(s, sep, |stem|) && !Contains(stem, sep) && StartsWith(s, stem)
  {
  }

  /** `a + q` begins with `a` and ends with `q`. */
  lemma AppendParts(a: string, q: string)
    ensures (a + q)[..|a|] == a && EndsWith(a + q, q)
  {
    assert (a + q)[|a + q| - |q|..] == q;
  }

  /** `sep.join(parts)`. */
  function Join(parts: seq<string>, sep: string): (r: string)
    requires |parts| >= 1
    ensures StartsWith(r, parts[0])
  {
    if |parts| == 1 then parts[0] else parts[0] + sep + Join(parts[1..], sep)
  }

  /** `s.replace(p, rep)` for a non-empty pattern: every left-to-right,
      non-overlapping occurrence of `p` is replaced by `rep`. */
  function ReplaceAll(s: string, p: string, rep: string): (r: string)
    requires |p| > 0
    ensures !Contains(s, p) ==> r == s
    decreases |s|
  {
    match Find(s, p)
    case None => s
    case Some(i) => s[..i] + rep + ReplaceAll(s[i + |p|..], p, rep)
  }

  /** `split` at its first occurrence `i`. */
  lemma SplitAt(s: string, sep: string, i: nat)
    requires |sep| > 0 && Find(s, sep) == Some(i)
    ensures Split(s, sep) == [s[..i]] + Split(s[i + |sep|..], sep)
  {
  }

  /** Replacement is joining the pieces between occurrences with the replacement. */
  lemma {:induction false} ReplaceAllIsJoinSplit(s: string, p: string, rep: string)
    requires |p| > 0
    ensures ReplaceAll(s, p, rep) == Join(Split(s, p), rep)
    decreases |s|
  {
    match Find(s, p)
    case None =>
    case Some(i) =>
      var rest := s[i + |p|..];
      ReplaceAllIsJoinSplit(rest, p, rep);
      SplitAt(s, p, i);
      ReplaceAllAt(s, p, rep, i);
      assert Split(s, p)[1..] == Split(rest, p);
  }

  /** No proper suffix of `p` is also a prefix of `p`, so two occurrences of
      `p` in a string never overlap. */
  predicate Unbordered(p: string) {
    forall k :: 0 < k < |p| ==> p[k..] != p[..|p| - k]
  }

  /** Two overlapping occurrences of `p` exhibit a border of `p`. */
  lemma OverlapBorder(s: string, p: string, i: int, j: int)
    requires OccursAt(s, p, i) && OccursAt(s, p, j) && i < j < i + |p|
    ensures p[j - i..] == p[..|p| - (j - i)]
  {
    assert p[j - i..] == s[i..i + |p|][j - i..];
    assert p[..|p| - (j - i)] == s[j..j + |p|][..|p| - (j - i)];
  }

  /** Occurrences of an unbordered pattern are at least `|p|` apart. */
  lemma NoOverlap(s: string, p: string, i: int, j: int)
    requires Unbordered(p) && OccursAt(s, p, i) && OccursAt(s, p, j) && i < j
    ensures i + |p| <= j
  {
    if j < i + |p| {
      OverlapBorder(s, p, i, j);
      assert false;
    }
  }

  lemma EndsWithAppend(a: string, t: string, q: string)
    requires EndsWith(t, q)
    ensures EndsWith(a + t, q)
  {
    assert (a + t)[|a + t| - |q|..] == t[|t| - |q|..];
  }

  lemma EndsWithDrop(s: string, k: nat, q: string)
    requires EndsWith(s, q) && k <= |s| - |q|
    ensures EndsWith(s[k..], q)
  {
    assert s[k..][|s| - k - |q|..] == s[|s| - |q|..];
  }

  /** `replace` at its first occurrence `i`. */
  lemma {:induction false} ReplaceAllAt(s: string, p: string, rep: string, i: nat)
    requires |p| > 0 && Find(s, p) == Some(i)
    ensures ReplaceAll(s, p, rep) == (s[..i] + rep) + ReplaceAll(s[i + |p|..], p, rep)
  {
  }

  /** In a string that ends with an unbordered `p`, an earlier first
      occurrence leaves a remainder that still ends with `p`. */
  lemma RestEndsWith(s: string, p: string, i: nat)
    requires |p| > 0 && Unbordered(p) && EndsWith(s, p)
    requires Find(s, p) == Some(i) && i < |s| - |p|
    ensures EndsWith(s[i + |p|..], p)
  {
    NoOverlap(s, p, i, |s| - |p|);
    EndsWithDrop(s, i + |p|, p);
  }

  /** If `s` ends with an unbordered `p`, so does what `replace` makes of it. */
  lemma {:induction false} ReplaceAllKeepsSuffix(s: string, p: string, rep: string)
    requires |p| > 0 && Unbordered(p) && EndsWith(s, p)
    ensures EndsWith(ReplaceAll(s, p, rep), rep)
    decreases |s|
  {
    OccursContains(s, p, |s| - |p|);
    var i := Find(s, p).value;
    if i < |s| - |p| {
      var rest := s[i + |p|..];
      RestEndsWith(s, p, i);
      ReplaceAllKeepsSuffix(rest, p, rep);
      ReplaceAllAt(s, p, rep, i);
      EndsWithAppend(s[..i] + rep, ReplaceAll(rest, p, rep), rep);
    } else {
      ReplaceAllAtEnd(s, p, rep);
      EndsWithAppend(s[..i], rep, rep);
    }
  }

  /** An occurrence that ends the string is its last replacement. */
  lemma ReplaceAllAtEnd(s: string, p: string, rep: string)
    requires |p| > 0 && |s| >= |p| && Find(s, p) == Some(|s| - |p|)
    ensures ReplaceAll(s, p, rep) == s[..|s| - |p|] + rep
  {
    var i := |s| - |p|;
    ReplaceAllAt(s, p, rep, i);
    ReplaceAllEmpty(s[i + |p|..], p, rep);
    assert (s[..i] + rep) + [] == s[..i] + rep;
  }

  lemma ReplaceAllEmpty(s: string, p: string, rep: string)
    requires |p| > 0 && s == []
    ensures ReplaceAll(s, p, rep) == []
  {
    assert !OccursAt(s, p, 0);
  }

  /** `replace` keeps the first character unless an occurrence starts there. */
  lemma ReplaceAllFirstChar(s: string, p: string, rep: string)
    requires |p| > 0 && |s| > 0 && |rep| > 0
    ensures |ReplaceAll(s, p, rep)| > 0
    ensures ReplaceAll(s, p, rep)[0] == s[0] || ReplaceAll(s, p, rep)[0] == rep[0]
  {
  }

  /** When `a` has no occurrence of the unbordered `p`, the first occurrence of
      `p` in `a + p + b` is the one right after `a`. */
  lemma FindAfterClean(a: string, p: string, b: string)
    requires Unbordered(p) && !Contains(a, p)
    ensures Find(a + p + b, p) == Some(|a|)
  {
    var s := a + p + b;
    assert OccursAt(s, p, |a|) by {
      assert s[|a|..|a| + |p|] == p;
    }
    var i := Find(s, p).value;
    if i < |a| {
      if i + |p| <= |a| {
        assert s[i..i + |p|] == a[i..i + |p|];
        OccursContains(a, p, i);
      } else {
        NoOverlap(s, p, i, |a|);
      }
    }
  }

  /** Python's `s[:n]` for `n >= 0`. */
  function Take(s: string, n: nat): (r: string)
    ensures |r| == if |s| < n then |s| else n
    ensures StartsWith(s, r)
  {
    if |s| < n then s else s[..n]
  }

  /** Python's `xs[-n:]` for `n > 0`: the last `min(n, |xs|)` elements. */
  function Last<T>(xs: seq<T>, n: nat): (r: seq<T>)
    requires n > 0
    ensures |r| == if |xs| < n then |xs| else n
    ensures r == xs[|xs| - |r|..]
  {
    if |xs| < n then xs else xs[|xs| - n..]
  }

  // ---------------------------------------------------------------------------
  // Decimal numerals (Python's `str(n)` / `int(s)` for non-negative integers)
  // ---------------------------------------------------------------------------

  predicate IsDigit(c: char) {
    '0' <= c <= '9'
  }

  function DigitChar(d: nat): (c: char)
    requires d < 10
    ensures IsDigit(c)
  {
    "0123456789"[d]
  }

  function DigitValue(c: char): (d: nat)
    requires IsDigit(c)
    ensures d < 10 && DigitChar(d) == c
  {
    var d := (c as int - '0' as int) as nat;
    assert "0123456789"[d] == c by {
      if d == 0 {} else if d == 1 {} else if d == 2 {} else if d == 3 {} else if d == 4 {}
      else if d == 5 {} else if d == 6 {} else if d == 7 {} else if d == 8 {} else {}
    }
    d
  }

  lemma DigitRoundTrip(d: nat)
    requires d < 10
    ensures DigitValue(DigitChar(d)) == d
  {
    if d == 0 {} else if d == 1 {} else if d == 2 {} else if d == 3 {} else if d == 4 {}
    else if d == 5 {} else if d == 6 {} else if d == 7 {} else if d == 8 {} else {}
  }

  /** `str(n)`: the decimal digits of `n`, without leading zeros. */
  function NatToString(n: nat): (r: string)
    ensures |r| > 0 && forall k :: 0 <= k < |r| ==> IsDigit(r[k])
    ensures |r| > 1 ==> r[0] != '0'
  {
    if n < 10 then [DigitChar(n)] else NatToString(n / 10) + [DigitChar(n % 10)]
  }

  /** `int(s)` on a string of decimal digits. */
  function ParseNat(s: string): (n: nat)
    requires forall k :: 0 <= k < |s| ==> IsDigit(s[k])
  {
    if |s| == 0 then 0 else 10 * ParseNat(s[..|s| - 1]) + DigitValue(s[|s| - 1])
  }

  /** The numeral of `n` reads back as `n`. */
  lemma {:induction false} ParseNatToString(n: nat)
    ensures ParseNat(NatToString(n)) == n
  {
    var r := NatToString(n);
    if n < 10 {
      DigitRoundTrip(n);
      assert r[..0] == [];
    } else {
      ParseNatToString(n / 10);
      assert r[..|r| - 1] == NatToString(n / 10);
      DigitRoundTrip(n % 10);
    }
  }
}
