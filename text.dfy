/**
 * String scanners shared by the markup engine and the input validator.
 * Each one models a JavaScript string operation (global replace, indexOf,
 * lastIndexOf, substring) as an explicit left-to-right scan.
 */
module Text {

  /** `p` occurs in `t` starting at index `i`. */
  predicate OccursAt(p: string, t: string, i: int) {
    0 <= i && i + |p| <= |t| && t[i..i + |p|] == p
  }

  /** `t` contains `p` somewhere (JavaScript `t.includes(p)`). */
  predicate Contains(t: string, p: string) {
    exists i | 0 <= i <= |t| - |p| :: OccursAt(p, t, i)
  }

  predicate StartsWith(t: string, p: string) {
    |p| <= |t| && t[..|p|] == p
  }

  /** JavaScript line terminators: what the regular-expression `.` does not match. */
  predicate IsLineTerminator(c: char) {
    c == '\n' || c == '\r' || c == '\U{2028}' || c == '\U{2029}'
  }

  /**
   * `s.replace(/p/g, r)` for a literal pattern `p`: leftmost, non-overlapping
   * matches, scanning left to right.
   */
  function ReplaceAll(s: string, p: string, r: string): string
    requires p != ""
    decreases |s|
  {
    if s == [] then []
    else if StartsWith(s, p) then r + ReplaceAll(s[|p|..], p, r)
    else [s[0]] + ReplaceAll(s[1..], p, r)
  }

  lemma StartsWithHead(s: string, p: string)
    requires p != "" && StartsWith(s, p)
    ensures s != [] && s[0] == p[0]
  {
    assert s[..|p|][0] == s[0];
  }

  /** A pattern whose first character never appears leaves the text unchanged. */
  lemma {:induction false} ReplaceAllWithout(s: string, p: string, r: string)
    requires p != "" && p[0] !in s
    ensures ReplaceAll(s, p, r) == s
  {
    if s != [] {
      if StartsWith(s, p) { StartsWithHead(s, p); }
      ReplaceAllWithout(s[1..], p, r);
    }
  }

  /** Every character of the result comes from the text or from the replacement. */
  lemma {:induction false} ReplaceAllChars(s: string, p: string, r: string, c: char)
    requires p != ""
    ensures c in ReplaceAll(s, p, r) ==> c in s || c in r
  {
    if s != [] {
      if StartsWith(s, p) {
        ReplaceAllChars(s[|p|..], p, r, c);
        if c in ReplaceAll(s[|p|..], p, r) && c in s[|p|..] {
          var k :| 0 <= k < |s[|p|..]| && s[|p|..][k] == c;
          assert s[|p| + k] == c;
        }
      } else {
        ReplaceAllChars(s[1..], p, r, c);
        if c in ReplaceAll(s[1..], p, r) && c in s[1..] {
          var k :| 0 <= k < |s[1..]| && s[1..][k] == c;
          assert s[1 + k] == c;
        }
      }
    }
  }

  /** When the replace changed something, the replacement text occurs in the result. */
  lemma {:induction false} ReplaceAllChanged(s: string, p: string, r: string)
    requires p != ""
    ensures ReplaceAll(s, p, r) != s ==> Contains(ReplaceAll(s, p, r), r)
  {
    if s != [] {
      var out := ReplaceAll(s, p, r);
      if StartsWith(s, p) {
        assert OccursAt(r, out, 0);
      } else {
        var rest := ReplaceAll(s[1..], p, r);
        ReplaceAllChanged(s[1..], p, r);
        assert out == [s[0]] + rest;
        if rest != s[1..] {
          var i :| 0 <= i <= |rest| - |r| && OccursAt(r, rest, i);
          OccursShift([s[0]], rest, r, i);
        } else {
          assert out == s;
        }
      }
    }
  }

  /** An occurrence in `y` is an occurrence in `x + y`, shifted by `|x|`. */
  lemma OccursShift(x: string, y: string, q: string, i: int)
    requires OccursAt(q, y, i)
    ensures OccursAt(q, x + y, |x| + i)
  {
    assert (x + y)[|x| + i..|x| + i + |q|] == y[i..i + |q|];
  }

  /** An occurrence in `x + y` that starts after `x` is an occurrence in `y`. */
  lemma OccursUnshift(x: string, y: string, q: string, m: int)
    requires OccursAt(q, x + y, m) && m >= |x|
    ensures OccursAt(q, y, m - |x|)
  {
    assert (x + y)[m..m + |q|] == y[m - |x|..m - |x| + |q|];
  }

  lemma ContainsTail(s: string, k: nat, q: string)
    requires k <= |s| && Contains(s[k..], q)
    ensures Contains(s, q)
  {
    var i :| 0 <= i <= |s[k..]| - |q| && OccursAt(q, s[k..], i);
    assert s[k + i..k + i + |q|] == s[k..][i..i + |q|];
    assert OccursAt(q, s, k + i);
  }

  lemma ContainsPrefixed(s: string, t: string, q: string)
    requires Contains(t, q)
    ensures Contains(s + t, q)
  {
    assert (s + t)[|s|..] == t;
    ContainsTail(s + t, |s|, q);
  }

  /** The middle of a three-part concatenation occurs in it. */
  lemma ContainsFramed(pre: string, mid: string, post: string)
    ensures Contains(pre + mid + post, mid)
  {
    assert (pre + mid + post)[|pre|..|pre| + |mid|] == mid;
    assert OccursAt(mid, pre + mid + post, |pre|);
  }

  /** Every occurrence of `q` starts at its first character and nowhere else, and `r` cannot start one. */
  predicate CannotCreate(q: string, r: string) {
    && |q| > 0 && |r| > 0 && r[0] == q[0]
    && q[0] !in q[1..] && q[0] !in r[1..]
    && exists j | 0 <= j < |q| && j < |r| :: q[j] != r[j]
  }

  lemma {:induction false} PrefixThroughLiterals(u: string, p: string, r: string, w: string)
    requires p != "" && r != [] && r[0] !in w
    requires StartsWith(ReplaceAll(u, p, r), w)
    ensures StartsWith(u, w)
  {
    if w != [] {
      var out := ReplaceAll(u, p, r);
      assert out[..|w|][0] == out[0];
      if StartsWith(u, p) {
        assert false;
      } else {
        var rest := ReplaceAll(u[1..], p, r);
        assert out == [u[0]] + rest;
        assert rest[..|w| - 1] == out[1..|w|] == w[1..];
        PrefixThroughLiterals(u[1..], p, r, w[1..]);
        assert u[..|w|] == [u[0]] + u[1..][..|w| - 1];
      }
    }
  }

  /** An occurrence of `q` cannot start inside a replacement `r`. */
  lemma NotInsideReplacement(r: string, rest: string, q: string, m: int)
    requires CannotCreate(q, r) && m < |r|
    ensures !OccursAt(q, r + rest, m)
  {
  }

  /** An occurrence of `q` at a copied character continues over copied characters only. */
  lemma AtLiteral(s: string, p: string, r: string, q: string)
    requires p != "" && CannotCreate(q, r) && s != [] && !StartsWith(s, p)
    requires OccursAt(q, [s[0]] + ReplaceAll(s[1..], p, r), 0)
    ensures OccursAt(q, s, 0) && q != p
  {
    var rest := ReplaceAll(s[1..], p, r);
    var out := [s[0]] + rest;
    assert rest[..|q| - 1] == out[1..|q|] == q[1..];
    PrefixThroughLiterals(s[1..], p, r, q[1..]);
    assert s[..|q|] == [s[0]] + s[1..][..|q| - 1];
    assert s[0] == out[..|q|][0] == q[0];
  }

  /**
   * Rewriting `p` to `r` creates no new occurrence of `q`, and leaves no
   * occurrence of `p` itself.
   */
  lemma {:induction false} ReplaceAllCreatesNone(s: string, p: string, r: string, q: string)
    requires p != "" && CannotCreate(q, r)
    ensures Contains(ReplaceAll(s, p, r), q) ==> Contains(s, q) && q != p
  {
    var out := ReplaceAll(s, p, r);
    if s != [] && Contains(out, q) {
      var m :| 0 <= m <= |out| - |q| && OccursAt(q, out, m);
      if StartsWith(s, p) {
        var rest := ReplaceAll(s[|p|..], p, r);
        assert out == r + rest;
        if m < |r| {
          NotInsideReplacement(r, rest, q, m);
        } else {
          OccursUnshift(r, rest, q, m);
          ReplaceAllCreatesNone(s[|p|..], p, r, q);
          ContainsTail(s, |p|, q);
        }
      } else {
        var rest := ReplaceAll(s[1..], p, r);
        assert out == [s[0]] + rest;
        if m == 0 {
          AtLiteral(s, p, r, q);
        } else {
          OccursUnshift([s[0]], rest, q, m);
          ReplaceAllCreatesNone(s[1..], p, r, q);
          ContainsTail(s, 1, q);
        }
      }
    }
  }

  /** A piece that `q` cannot overlap blocks an occurrence of `q` where it starts. */
  lemma NotAtPiece(s: string, q: string, m: int, piece: string)
    requires CannotCreate(q, piece) && 0 <= m && m + |piece| <= |s| && s[m..m + |piece|] == piece
    ensures !OccursAt(q, s, m)
  {
    var j :| 0 <= j < |q| && j < |piece| && q[j] != piece[j];
    assert s[m..m + |piece|][j] == s[m + j];
    if m + |q| <= |s| {
      assert s[m..m + |q|][j] == s[m + j];
    }
  }

  /**
   * In `a + mid + b`, where `a` is empty or a piece `q` cannot overlap and
   * `mid` lacks `q`'s first character, `q` starts nowhere before `b`.
   */
  lemma NoOccurrenceBefore(a: string, mid: string, b: string, q: string)
    requires |q| > 0 && (a == "" || CannotCreate(q, a)) && q[0] !in mid
    ensures forall m | 0 <= m < |a| + |mid| :: !OccursAt(q, a + mid + b, m)
  {
    var s := a + mid + b;
    forall m | 0 <= m < |a| + |mid| ensures !OccursAt(q, s, m) {
      if m == 0 && a != "" {
        assert s[..|a|] == a;
        NotAtPiece(s, q, 0, a);
      } else {
        if m < |a| {
          assert s[m] == a[1..][m - 1];
        } else {
          assert s[m] == mid[m - |a|];
        }
        if m + |q| <= |s| {
          assert s[m..m + |q|][0] == s[m];
        }
      }
    }
  }

  /** ... and, when `b` is empty or a piece `q` cannot overlap, nowhere at all. */
  lemma NoOccurrenceIn(a: string, mid: string, b: string, q: string)
    requires |q| > 0 && (a == "" || CannotCreate(q, a)) && q[0] !in mid
    requires b == "" || CannotCreate(q, b)
    ensures !Contains(a + mid + b, q)
  {
    var s := a + mid + b;
    var k := |a| + |mid|;
    NoOccurrenceBefore(a, mid, b, q);
    forall m | k <= m <= |s| - |q| ensures !OccursAt(q, s, m) {
      if m == k {
        assert s[k..k + |b|] == b;
        NotAtPiece(s, q, k, b);
      } else {
        assert s[m] == b[1..][m - k - 1];
        if m + |q| <= |s| {
          assert s[m..m + |q|][0] == s[m];
        }
      }
    }
  }

  /** Text containing no occurrence of `p` is left alone. */
  lemma {:induction false} ReplaceAllAbsent(s: string, p: string, r: string)
    requires p != "" && !Contains(s, p)
    ensures ReplaceAll(s, p, r) == s
  {
    if s != [] {
      if StartsWith(s, p) {
        assert OccursAt(p, s, 0);
      }
      if Contains(s[1..], p) {
        ContainsTail(s, 1, p);
      }
      ReplaceAllAbsent(s[1..], p, r);
    }
  }

  /** A leading match is rewritten and the scan resumes right after it. */
  lemma ReplaceAllHead(p: string, y: string, r: string)
    requires p != ""
    ensures ReplaceAll(p + y, p, r) == r + ReplaceAll(y, p, r)
  {
    assert (p + y)[..|p|] == p;
    assert (p + y)[|p|..] == y;
  }

  /** A prefix at none of whose positions `p` starts is copied through unchanged. */
  lemma {:induction false} ReplaceAllSkip(u: string, y: string, p: string, r: string)
    requires p != ""
    requires forall m | 0 <= m < |u| :: !OccursAt(p, u + y, m)
    ensures ReplaceAll(u + y, p, r) == u + ReplaceAll(y, p, r)
  {
    if u != [] {
      var s := u + y;
      if StartsWith(s, p) {
        assert OccursAt(p, s, 0);
      }
      assert s[1..] == u[1..] + y;
      forall m | 0 <= m < |u[1..]| ensures !OccursAt(p, u[1..] + y, m) {
        assert [u[0]] + (u[1..] + y) == s;
        if OccursAt(p, u[1..] + y, m) {
          OccursShift([u[0]], u[1..] + y, p, m);
        }
      }
      ReplaceAllSkip(u[1..], y, p, r);
      assert ReplaceAll(s, p, r) == [s[0]] + ReplaceAll(s[1..], p, r);
      assert s[0] == u[0];
      assert [u[0]] + (u[1..] + ReplaceAll(y, p, r)) == u + ReplaceAll(y, p, r);
    } else {
      assert u + y == y;
    }
  }

  /** The first `c` at position `i` or later, or -1. */
  function IndexFrom(s: string, c: char, i: nat): (k: int)
    requires i <= |s|
    ensures k == -1 || i <= k < |s|
    ensures k == -1 <==> forall t | i <= t < |s| :: s[t] != c
    ensures k >= 0 ==> s[k] == c && forall t | i <= t < k :: s[t] != c
    decreases |s| - i
  {
    if i == |s| then -1 else if s[i] == c then i else IndexFrom(s, c, i + 1)
  }

  /** Index of the first `c` in `s`, or -1 (JavaScript `indexOf`). */
  function IndexOf(s: string, c: char): (k: int)
    ensures -1 <= k < |s|
    ensures k == -1 <==> c !in s
    ensures k >= 0 ==> s[k] == c && c !in s[..k]
  {
    var k := IndexFrom(s, c, 0);
    assert k >= 0 ==> forall t | 0 <= t < k :: s[..k][t] == s[t];
    k
  }

  /** The last `c` before position `n`, or -1. */
  function LastIndexBefore(s: string, c: char, n: nat): (k: int)
    requires n <= |s|
    ensures -1 <= k < n
    ensures k == -1 <==> forall t | 0 <= t < n :: s[t] != c
    ensures k >= 0 ==> s[k] == c && forall t | k < t < n :: s[t] != c
  {
    if n == 0 then -1 else if s[n - 1] == c then n - 1 else LastIndexBefore(s, c, n - 1)
  }

  /** Index of the last `c` in `s`, or -1 (JavaScript `lastIndexOf`). */
  function LastIndexOf(s: string, c: char): (k: int)
    ensures -1 <= k < |s|
    ensures k == -1 <==> c !in s
    ensures k >= 0 ==> s[k] == c && c !in s[k + 1..]
  {
    var k := LastIndexBefore(s, c, |s|);
    assert k >= 0 ==> forall t | k + 1 <= t < |s| :: s[k + 1..][t - (k + 1)] == s[t];
    k
  }

  function Clamp(x: int, lo: int, hi: int): int
    requires lo <= hi
  {
    if x < lo then lo else if x > hi then hi else x
  }

  /**
   * JavaScript `s.substring(start, end)`: both bounds are clamped to the
   * string and swapped when `start` is the larger one.
   */
  function JsSubstring(s: string, start: int, end: int): (r: string)
    ensures 0 <= start <= end <= |s| ==> r == s[start..end]
    ensures 0 <= end <= start <= |s| ==> r == s[end..start]
  {
    var a := Clamp(start, 0, |s|);
    var b := Clamp(end, 0, |s|);
    if a <= b then s[a..b] else s[b..a]
  }

  function DigitChar(d: nat): char
    requires d < 10
  {
    "0123456789"[d]
  }

  /** Decimal rendering of a natural number, as a template literal prints it. */
  function NatToString(n: nat): (s: string)
    ensures 1 <= |s| && (n >= 10 ==> |s| >= 2)
    decreases n
  {
    if n < 10 then [DigitChar(n)] else NatToString(n / 10) + [DigitChar(n % 10)]
  }

  lemma DigitCharInjective(a: nat, b: nat)
    requires a < 10 && b < 10 && DigitChar(a) == DigitChar(b)
    ensures a == b
  {
  }

  /** Distinct numbers print differently, so numbered file names never collide. */
  lemma {:induction false} NatToStringInjective(a: nat, b: nat)
    requires NatToString(a) == NatToString(b)
    ensures a == b
  {
    var s := NatToString(a);
    if a < 10 && b < 10 {
      DigitCharInjective(a, b);
    } else if a >= 10 && b >= 10 {
      assert s[|s| - 1] == DigitChar(a % 10) == DigitChar(b % 10);
      DigitCharInjective(a % 10, b % 10);
      assert NatToString(a / 10) == s[..|s| - 1] == NatToString(b / 10);
      NatToStringInjective(a / 10, b / 10);
    }
  }

  /** A string framed by a fixed prefix and suffix determines what is between them. */
  lemma FramedInjective(pre: string, a: string, b: string, post: string)
    requires pre + a + post == pre + b + post
    ensures a == b
  {
    var x := pre + a + post;
    assert |a| == |b|;
    assert a == x[|pre|..|pre| + |a|];
    assert b == x[|pre|..|pre| + |b|];
  }
}
