/**
 * Whitespace trimming as `String.prototype.trim` does it, restricted to the
 * ASCII whitespace characters. The scans work on indices, as the built-in
 * does: find the first and the last character that is not whitespace.
 */
module Text {

  /** The ASCII characters that `trim` strips: space, and the run from tab
      to carriage return (tab, line feed, vertical tab, form feed, carriage
      return). */
  predicate IsSpace(c: char) {
    c == ' ' || '\t' <= c <= '\r'
  }

  /** `s` is whitespace only (the empty string included). */
  predicate AllSpace(s: string) {
    forall i :: 0 <= i < |s| ==> IsSpace(s[i])
  }

  /** A string with no whitespace at either end: what `trim` can return. */
  predicate IsTrimmed(s: string) {
    s == [] || (!IsSpace(s[0]) && !IsSpace(s[|s| - 1]))
  }

  /** The first index at or after `i` whose character is not whitespace,
      `|s|` when there is none. */
  function SkipSpaces(s: string, i: nat): (r: nat)
    requires i <= |s|
    ensures i <= r <= |s|
    ensures forall k :: i <= k < r ==> IsSpace(s[k])
    ensures r < |s| ==> !IsSpace(s[r])
    decreases |s| - i
  {
    if i == |s| || !IsSpace(s[i]) then i else SkipSpaces(s, i + 1)
  }

  /** Scanning back from `j` towards `lo`: the index just past the last
      character that is not whitespace, `lo` when there is none. */
  function SkipSpacesBack(s: string, lo: nat, j: nat): (r: nat)
    requires lo <= j <= |s|
    ensures lo <= r <= j
    ensures forall k :: r <= k < j ==> IsSpace(s[k])
    ensures r > lo ==> !IsSpace(s[r - 1])
  {
    if j == lo || !IsSpace(s[j - 1]) then j else SkipSpacesBack(s, lo, j - 1)
  }

  /** `s` without its leading whitespace (what `parseInt` skips). The result
      does not start with whitespace; `TrimStartDrops` and `TrimStartPadding`
      say that exactly the leading whitespace goes. */
  function TrimStart(s: string): (r: string)
    ensures |r| <= |s|
    ensures r == [] || !IsSpace(r[0])
  {
    s[SkipSpaces(s, 0)..]
  }

  /** `s.trim()`: drops the whitespace at both ends, so the result has none
      there. */
  function Trim(s: string): (r: string)
    ensures |r| <= |s|
    ensures IsTrimmed(r)
  {
    var a := SkipSpaces(s, 0);
    s[a..SkipSpacesBack(s, a, |s|)]
  }

  /** `trim` gives the empty string exactly for whitespace-only input. */
  lemma TrimBlankIff(s: string)
    ensures Trim(s) == [] <==> AllSpace(s)
  {
    var a := SkipSpaces(s, 0);
    var b := SkipSpacesBack(s, a, |s|);
    if AllSpace(s) {
      assert a == |s|;
    }
    if a == b {
      assert a == |s|;
    }
  }

  /** A forward scan stops at the first character that is not whitespace. */
  lemma {:induction false} SkipSpacesStops(s: string, i: nat, m: nat)
    requires i <= m <= |s|
    requires forall k :: i <= k < m ==> IsSpace(s[k])
    requires m == |s| || !IsSpace(s[m])
    ensures SkipSpaces(s, i) == m
    decreases m - i
  {
    if i < m {
      SkipSpacesStops(s, i + 1, m);
    }
  }

  /** A backward scan stops just past the last character that is not
      whitespace. */
  lemma {:induction false} SkipSpacesBackStops(s: string, lo: nat, j: nat, m: nat)
    requires lo <= m <= j <= |s|
    requires forall k :: m <= k < j ==> IsSpace(s[k])
    requires m == lo || !IsSpace(s[m - 1])
    ensures SkipSpacesBack(s, lo, j) == m
    decreases j - m
  {
    if m < j {
      SkipSpacesBackStops(s, lo, j - 1, m);
    }
  }

  /** `trim` removes exactly the surrounding whitespace: whatever whitespace
      pads a trimmed string, trimming gives that string back. */
  lemma TrimRemovesPadding(p: string, x: string, q: string)
    requires AllSpace(p) && AllSpace(q) && IsTrimmed(x)
    ensures Trim(p + x + q) == x
  {
    var s := p + x + q;
    if x == [] {
      assert AllSpace(s) by {
        forall k | 0 <= k < |s| ensures IsSpace(s[k]) {
          if k < |p| { assert s[k] == p[k]; } else { assert s[k] == q[k - |p|]; }
        }
      }
      TrimBlankIff(s);
    } else {
      var a, b := |p|, |p| + |x|;
      assert forall k :: 0 <= k < a ==> s[k] == p[k];
      assert forall k :: b <= k < |s| ==> s[k] == q[k - b];
      assert s[a] == x[0] && s[b - 1] == x[|x| - 1];
      SkipSpacesStops(s, 0, a);
      SkipSpacesBackStops(s, a, |s|, b);
      assert s[a..b] == x;
    }
  }

  /** `TrimStart` keeps a suffix of `s` and drops only whitespace in front of
      it. */
  lemma TrimStartDrops(s: string)
    ensures var r := TrimStart(s);
      s == s[..|s| - |r|] + r && AllSpace(s[..|s| - |r|])
  {
    var a := SkipSpaces(s, 0);
    assert s == s[..a] + s[a..];
  }

  /** Leading whitespace in front of text that does not start with
      whitespace is exactly what `TrimStart` removes. */
  lemma TrimStartPadding(p: string, x: string)
    requires AllSpace(p) && (x == [] || !IsSpace(x[0]))
    ensures TrimStart(p + x) == x
  {
    var s := p + x;
    assert forall k :: 0 <= k < |p| ==> s[k] == p[k];
    assert |p| < |s| ==> s[|p|] == x[0];
    SkipSpacesStops(s, 0, |p|);
    assert s[|p|..] == x;
  }

  /** Text that does not start with whitespace is left as it is. */
  lemma TrimStartKeeps(x: string)
    requires x == [] || !IsSpace(x[0])
    ensures TrimStart(x) == x
  {
    assert [] + x == x;
    TrimStartPadding([], x);
  }

  /** More whitespace in front does not change what `TrimStart` leaves. */
  lemma TrimStartAbsorbs(p: string, s: string)
    requires AllSpace(p)
    ensures TrimStart(p + s) == TrimStart(s)
  {
    var a := SkipSpaces(s, 0);
    assert s == s[..a] + s[a..];
    assert AllSpace(p + s[..a]) by {
      var q := p + s[..a];
      forall k | 0 <= k < |q| ensures IsSpace(q[k]) {
        if k < |p| { assert q[k] == p[k]; } else { assert q[k] == s[k - |p|]; }
      }
    }
    assert p + s == (p + s[..a]) + s[a..];
    TrimStartPadding(p + s[..a], s[a..]);
  }

  /** Trimming twice is trimming once. */
  lemma TrimIdempotent(s: string)
    ensures Trim(Trim(s)) == Trim(s)
  {
    var x := Trim(s);
    assert [] + x + [] == x;
    TrimRemovesPadding([], x, []);
  }
}
