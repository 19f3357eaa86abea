/**
 * String helpers shared by the model: the JavaScript notion of whitespace
 * used by String.prototype.trim and the regular-expression class \s,
 * splitting on and joining with a separator, prefix tests and decimal
 * rendering of natural numbers (what a template literal prints for an
 * integral number).
 */
module Text {

  /** Whitespace as String.prototype.trim and \s see it: WhiteSpace plus LineTerminator. */
  predicate IsWhite(c: char) {
    var n := c as int;
    || n == 0x20 || (0x09 <= n <= 0x0D) || n == 0xA0 || n == 0x1680
    || (0x2000 <= n <= 0x200A) || n == 0x2028 || n == 0x2029
    || n == 0x202F || n == 0x205F || n == 0x3000 || n == 0xFEFF
  }

  /** The characters that the regular-expression dot refuses to match. */
  predicate IsLineTerminator(c: char) {
    c == '\n' || c == '\r' || c as int == 0x2028 || c as int == 0x2029
  }

  ghost predicate AllWhite(s: string) {
    forall i :: 0 <= i < |s| ==> IsWhite(s[i])
  }

  /** A string that trim leaves alone: empty, or opening and closing with non-white characters. */
  predicate Trimmed(s: string) {
    |s| == 0 || (!IsWhite(s[0]) && !IsWhite(s[|s| - 1]))
  }

  predicate StartsWith(s: string, prefix: string) {
    |prefix| <= |s| && s[..|prefix|] == prefix
  }

  /** Length of s[..n] once its trailing white space is removed. */
  function TrimEndLength(s: string, n: nat): (k: nat)
    requires n <= |s|
    ensures k <= n
    ensures forall i :: k <= i < n ==> IsWhite(s[i])
    ensures k == 0 || !IsWhite(s[k - 1])
  {
    if n > 0 && IsWhite(s[n - 1]) then TrimEndLength(s, n - 1) else n
  }

  /** The first index in [lo, hi) that is not white space, or hi when there is none. */
  function TrimStartIndex(s: string, lo: nat, hi: nat): (k: nat)
    requires lo <= hi <= |s|
    ensures lo <= k <= hi
    ensures forall i :: lo <= i < k ==> IsWhite(s[i])
    ensures k == hi || !IsWhite(s[k])
    decreases hi - lo
  {
    if lo < hi && IsWhite(s[lo]) then TrimStartIndex(s, lo + 1, hi) else lo
  }

  /** String.prototype.trim: s with exactly its leading and trailing white space removed. */
  function Trim(s: string): (r: string)
    ensures Trimmed(r)
    ensures |r| <= |s|
    ensures exists a, b :: 0 <= a <= b <= |s| && r == s[a..b] && AllWhite(s[..a]) && AllWhite(s[b..])
  {
    var b := TrimEndLength(s, |s|);
    var a := TrimStartIndex(s, 0, b);
    WhiteOutside(s, a, b);
    s[a..b]
  }

  lemma WhiteOutside(s: string, a: nat, b: nat)
    requires a <= b <= |s|
    requires forall i :: 0 <= i < a ==> IsWhite(s[i])
    requires forall i :: b <= i < |s| ==> IsWhite(s[i])
    ensures AllWhite(s[..a]) && AllWhite(s[b..])
  {
  }

  /** The trailing-space scan of s[..n] looks only at s[..n]. */
  lemma {:induction false} EndLengthAgrees(s: string, t: string, n: nat)
    requires n <= |s| && n <= |t|
    requires forall i :: 0 <= i < n ==> s[i] == t[i]
    ensures TrimEndLength(s, n) == TrimEndLength(t, n)
  {
    if n > 0 && IsWhite(s[n - 1]) {
      EndLengthAgrees(s, t, n - 1);
    }
  }

  /** The leading-space scan of [lo, hi) looks only at s[..hi]. */
  lemma {:induction false} StartIndexAgrees(s: string, t: string, lo: nat, hi: nat)
    requires lo <= hi <= |s| && hi <= |t|
    requires forall i :: 0 <= i < hi ==> s[i] == t[i]
    ensures TrimStartIndex(s, lo, hi) == TrimStartIndex(t, lo, hi)
    decreases hi - lo
  {
    if lo < hi && IsWhite(s[lo]) {
      StartIndexAgrees(s, t, lo + 1, hi);
    }
  }

  /** The trailing-space scan stops at the first non-white character from the right. */
  lemma {:induction false} EndLengthStops(s: string, n: nat, k: nat)
    requires k <= n <= |s|
    requires forall i :: k <= i < n ==> IsWhite(s[i])
    requires k == 0 || !IsWhite(s[k - 1])
    ensures TrimEndLength(s, n) == k
  {
    if n > k {
      EndLengthStops(s, n - 1, k);
    }
  }

  /** The leading-space scan stops at the first non-white character from the left. */
  lemma {:induction false} StartIndexStops(s: string, lo: nat, hi: nat, k: nat)
    requires lo <= k <= hi <= |s|
    requires forall i :: lo <= i < k ==> IsWhite(s[i])
    requires k == hi || !IsWhite(s[k])
    ensures TrimStartIndex(s, lo, hi) == k
    decreases hi - lo
  {
    if lo < k {
      StartIndexStops(s, lo + 1, hi, k);
    }
  }

  /**
   * trim has one possible answer: any trimmed window of s with only white
   * space around it is the result.
   */
  lemma TrimIsTheWindow(s: string, a: nat, b: nat)
    requires a <= b <= |s|
    requires AllWhite(s[..a]) && AllWhite(s[b..]) && Trimmed(s[a..b])
    ensures Trim(s) == s[a..b]
  {
    assert forall i :: 0 <= i < a ==> s[..a][i] == s[i];
    assert forall i :: b <= i < |s| ==> s[b..][i - b] == s[i];
    if a == b {
      EndLengthStops(s, |s|, 0);
    } else {
      assert s[a..b][b - a - 1] == s[b - 1] && s[a..b][0] == s[a];
      EndLengthStops(s, |s|, b);
      StartIndexStops(s, 0, b, a);
    }
  }

  /** trim is the identity exactly on trimmed strings. */
  lemma TrimIdentity(s: string)
    ensures Trim(s) == s <==> Trimmed(s)
  {
    if Trimmed(s) {
      assert TrimEndLength(s, |s|) == |s|;
      assert TrimStartIndex(s, 0, |s|) == 0;
    }
  }

  /** A trailing newline never survives trim. */
  lemma TrimDropsTrailingNewline(s: string)
    ensures Trim(s + "\n") == Trim(s)
  {
    var w := s + "\n";
    assert forall i :: 0 <= i < |s| ==> w[i] == s[i];
    assert TrimEndLength(w, |w|) == TrimEndLength(w, |s|);
    EndLengthAgrees(w, s, |s|);
    var b := TrimEndLength(s, |s|);
    StartIndexAgrees(w, s, 0, b);
    var a := TrimStartIndex(s, 0, b);
    assert w[a..b] == s[a..b];
  }

  /** A trimmed text wrapped in newlines trims back to itself. */
  lemma TrimWrappedInNewlines(c: string)
    requires Trimmed(c)
    ensures Trim("\n" + c + "\n") == c
  {
    var w := "\n" + c + "\n";
    assert TrimEndLength(w, |w|) == TrimEndLength(w, |c| + 1);
    if |c| == 0 {
      assert TrimEndLength(w, 1) == TrimEndLength(w, 0) == 0;
    } else {
      assert w[|c|] == c[|c| - 1];
      assert TrimEndLength(w, |c| + 1) == |c| + 1;
      assert w[1] == c[0];
      assert TrimStartIndex(w, 0, |c| + 1) == TrimStartIndex(w, 1, |c| + 1) == 1;
      assert w[1..|c| + 1] == c;
    }
  }

  /** Position of the first occurrence of c. */
  function IndexOf(s: string, c: char): (i: nat)
    requires c in s
    ensures i < |s| && s[i] == c
    ensures forall k :: 0 <= k < i ==> s[k] != c
  {
    if s[0] == c then 0 else
      assert c in s[1..] by { var k :| 0 <= k < |s| && s[k] == c; assert s[1..][k - 1] == c; }
      1 + IndexOf(s[1..], c)
  }

  /** The first occurrence is the only position with c and no c before it. */
  lemma IndexOfUnique(s: string, c: char, k: nat)
    requires k < |s| && s[k] == c
    requires forall j :: 0 <= j < k ==> s[j] != c
    ensures IndexOf(s, c) == k
  {
  }

  /** String.prototype.split("\n"): the pieces between newline characters, never an empty list. */
  function SplitLines(s: string): (r: seq<string>)
    ensures |r| >= 1
    ensures forall i :: 0 <= i < |r| ==> '\n' !in r[i]
    decreases |s|
  {
    if '\n' in s then
      var i := IndexOf(s, '\n');
      [s[..i]] + SplitLines(s[i + 1..])
    else [s]
  }

  /** Array.prototype.join(sep). */
  function Join(parts: seq<string>, sep: string): (r: string)
    ensures |parts| == 0 ==> r == ""
    decreases |parts|
  {
    if |parts| == 0 then ""
    else if |parts| == 1 then parts[0]
    else parts[0] + sep + Join(parts[1..], sep)
  }

  lemma {:induction false} JoinConcat(a: seq<string>, b: seq<string>, sep: string)
    requires |a| > 0 && |b| > 0
    ensures Join(a + b, sep) == Join(a, sep) + sep + Join(b, sep)
    decreases |a|
  {
    if |a| == 1 {
      assert (a + b)[1..] == b;
    } else {
      assert (a + b)[1..] == a[1..] + b;
      JoinConcat(a[1..], b, sep);
    }
  }

  lemma JoinSnoc(a: seq<string>, x: string, sep: string)
    requires |a| > 0
    ensures Join(a + [x], sep) == Join(a, sep) + sep + x
  {
    JoinConcat(a, [x], sep);
  }

  /** Splitting at the first newline, at position i. */
  lemma SplitLinesAt(s: string, i: nat)
    requires i < |s| && s[i] == '\n'
    requires forall j :: 0 <= j < i ==> s[j] != '\n'
    ensures SplitLines(s) == [s[..i]] + SplitLines(s[i + 1..])
  {
    IndexOfUnique(s, '\n', i);
  }

  /** A newline-free string is one line. */
  lemma SplitLinesNone(s: string)
    requires forall j :: 0 <= j < |s| ==> s[j] != '\n'
    ensures SplitLines(s) == [s]
  {
  }

  /** The pieces of a + "\n" + b around a position before the added newline. */
  lemma ConcatAround(a: string, b: string, i: nat)
    requires i < |a|
    ensures (a + "\n" + b)[..i] == a[..i]
    ensures (a + "\n" + b)[i + 1..] == a[i + 1..] + "\n" + b
    ensures (a + "\n" + b)[i] == a[i]
    ensures forall j :: 0 <= j < i ==> (a + "\n" + b)[j] == a[j]
  {
  }

  /** A first newline inside a stays the first newline once "\n" + b is appended. */
  lemma SplitFirstLineOfConcat(a: string, b: string, i: nat)
    requires i < |a| && a[i] == '\n'
    requires forall j :: 0 <= j < i ==> a[j] != '\n'
    ensures SplitLines(a + "\n" + b) == [a[..i]] + SplitLines(a[i + 1..] + "\n" + b)
  {
    ConcatAround(a, b, i);
    SplitLinesAt(a + "\n" + b, i);
  }

  /** Without a newline in a, the added newline is the first one. */
  lemma SplitNewlineFreeConcat(a: string, b: string)
    requires forall j :: 0 <= j < |a| ==> a[j] != '\n'
    ensures SplitLines(a + "\n" + b) == [a] + SplitLines(b)
  {
    var s := a + "\n" + b;
    assert s[..|a|] == a && s[|a| + 1..] == b && s[|a|] == '\n';
    assert forall j :: 0 <= j < |a| ==> s[j] == a[j];
    SplitLinesAt(s, |a|);
  }

  lemma {:induction false} SplitLinesAtNewline(a: string, b: string)
    ensures SplitLines(a + "\n" + b) == SplitLines(a) + SplitLines(b)
    decreases |a|, 1
  {
    if '\n' in a {
      SplitLinesAtLaterNewline(a, b, IndexOf(a, '\n'));
    } else {
      SplitNewlineFreeConcat(a, b);
      SplitLinesNone(a);
    }
  }

  /** The inductive step: a has its first newline at i. */
  lemma {:induction false} SplitLinesAtLaterNewline(a: string, b: string, i: nat)
    requires i < |a| && a[i] == '\n'
    requires forall j :: 0 <= j < i ==> a[j] != '\n'
    ensures SplitLines(a + "\n" + b) == SplitLines(a) + SplitLines(b)
    decreases |a|, 0
  {
    var rest := a[i + 1..];
    var h := [a[..i]];
    calc {
      SplitLines(a + "\n" + b);
      { SplitFirstLineOfConcat(a, b, i); }
      h + SplitLines(rest + "\n" + b);
      { SplitLinesAtNewline(rest, b); }
      h + (SplitLines(rest) + SplitLines(b));
      (h + SplitLines(rest)) + SplitLines(b);
      { SplitLinesAt(a, i); }
      SplitLines(a) + SplitLines(b);
    }
  }

  /** Each element preceded by the separator: the tail of a join. */
  function Prefixed(xs: seq<string>, sep: string): string
    decreases |xs|
  {
    if |xs| == 0 then "" else sep + xs[0] + Prefixed(xs[1..], sep)
  }

  /** A join is its first element followed by every later element with the separator in front. */
  lemma {:induction false} JoinAsPrefixed(h: string, xs: seq<string>, sep: string)
    ensures Join([h] + xs, sep) == h + Prefixed(xs, sep)
    decreases |xs|
  {
    if |xs| > 0 {
      JoinAsPrefixed(xs[0], xs[1..], sep);
      assert ([h] + xs)[1..] == [xs[0]] + xs[1..];
    }
  }

  lemma {:induction false} PrefixedConcat(xs: seq<string>, ys: seq<string>, sep: string)
    ensures Prefixed(xs + ys, sep) == Prefixed(xs, sep) + Prefixed(ys, sep)
    decreases |xs|
  {
    if |xs| > 0 {
      PrefixedConcat(xs[1..], ys, sep);
      assert (xs + ys)[1..] == xs[1..] + ys;
    } else {
      assert xs + ys == ys;
    }
  }

  /** Joining the lines of s with newlines gives s back. */
  lemma {:induction false} JoinSplitLines(s: string)
    ensures Join(SplitLines(s), "\n") == s
    decreases |s|
  {
    if '\n' in s {
      var i := IndexOf(s, '\n');
      JoinSplitLines(s[i + 1..]);
      var rest := SplitLines(s[i + 1..]);
      assert SplitLines(s) == [s[..i]] + rest;
      JoinConcat([s[..i]], rest, "\n");
      assert s == s[..i] + "\n" + s[i + 1..];
    }
  }

  /** Splitting newline-free lines joined with newlines gives the lines back. */
  lemma {:induction false} SplitLinesOfJoin(lines: seq<string>)
    requires |lines| > 0
    requires forall i :: 0 <= i < |lines| ==> '\n' !in lines[i]
    ensures SplitLines(Join(lines, "\n")) == lines
    decreases |lines|
  {
    if |lines| > 1 {
      SplitLinesOfJoin(lines[1..]);
      SplitLinesAtNewline(lines[0], Join(lines[1..], "\n"));
    }
  }

  predicate IsDigit(c: char) {
    '0' <= c <= '9'
  }

  function DigitChar(d: nat): (c: char)
    requires d < 10
    ensures IsDigit(c)
  {
    "0123456789"[d]
  }

  function DigitValue(c: char): nat
    requires IsDigit(c)
  {
    c as int - '0' as int
  }

  /** The value of a string of decimal digits. */
  function DecimalValue(s: string): nat
    requires forall i :: 0 <= i < |s| ==> IsDigit(s[i])
  {
    if |s| == 0 then 0
    else DecimalValue(s[..|s| - 1]) * 10 + DigitValue(s[|s| - 1])
  }

  /** The decimal rendering a template literal gives a non-negative integer. */
  function NatToString(n: nat): (r: string)
    ensures |r| >= 1
    ensures forall i :: 0 <= i < |r| ==> IsDigit(r[i])
    ensures r[0] != '0' || n == 0
  {
    if n < 10 then [DigitChar(n)] else NatToString(n / 10) + [DigitChar(n % 10)]
  }

  /** Reading the rendering back gives the number, so the rendering is injective. */
  lemma {:induction false} NatToStringRoundTrip(n: nat)
    ensures DecimalValue(NatToString(n)) == n
  {
    var r := NatToString(n);
    if n >= 10 {
      NatToStringRoundTrip(n / 10);
      assert r[..|r| - 1] == NatToString(n / 10);
    }
  }

  lemma NatToStringInjective(m: nat, n: nat)
    ensures NatToString(m) == NatToString(n) ==> m == n
  {
    NatToStringRoundTrip(m);
    NatToStringRoundTrip(n);
  }

  /** The lines of each part, one after the other. */
  function SplitEach(parts: seq<string>): seq<string>
    decreases |parts|
  {
    if |parts| == 0 then [] else SplitLines(parts[0]) + SplitEach(parts[1..])
  }

  lemma {:induction false} SplitEachConcat(a: seq<string>, b: seq<string>)
    ensures SplitEach(a + b) == SplitEach(a) + SplitEach(b)
    decreases |a|
  {
    if |a| == 0 {
      assert a + b == b;
    } else {
      SplitEachConcat(a[1..], b);
      assert (a + b)[0] == a[0] && (a + b)[1..] == a[1..] + b;
      var h := SplitLines(a[0]);
      calc {
        SplitEach(a + b);
        h + SplitEach(a[1..] + b);
        h + (SplitEach(a[1..]) + SplitEach(b));
        (h + SplitEach(a[1..])) + SplitEach(b);
      }
    }
  }

  /** Splitting a newline join splits every part. */
  lemma {:induction false} SplitLinesOfJoinedParts(parts: seq<string>)
    requires |parts| > 0
    ensures SplitLines(Join(parts, "\n")) == SplitEach(parts)
    decreases |parts|
  {
    if |parts| > 1 {
      SplitLinesOfJoinedParts(parts[1..]);
      SplitLinesAtNewline(parts[0], Join(parts[1..], "\n"));
    }
  }

  /** A join opens with the first character of its first part. */
  lemma JoinFirstChar(parts: seq<string>, sep: string)
    requires |parts| > 0 && |parts[0]| > 0
    ensures |Join(parts, sep)| > 0 && Join(parts, sep)[0] == parts[0][0]
  {
  }

  /** A join closes with the last character of its last part. */
  lemma {:induction false} JoinLastChar(parts: seq<string>, sep: string)
    requires |parts| > 0 && |parts[|parts| - 1]| > 0
    ensures var j := Join(parts, sep); |j| > 0 && j[|j| - 1] == parts[|parts| - 1][|parts[|parts| - 1]| - 1]
    decreases |parts|
  {
    if |parts| > 1 {
      JoinLastChar(parts[1..], sep);
    }
  }
}
