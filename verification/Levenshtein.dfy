/** The edit distance of internal/analyze/docstatus.go, proved to be the length of a
    shortest chain of one-character edits. A Go string is a sequence of bytes and the
    code compares bytes, so each char here stands for one byte. */
module Levenshtein {

  // ---------- one-character edits, and chains of them ----------

  /** t is s with the character at i deleted. */
  ghost predicate DeletedAt(s: string, t: string, i: nat) {
    i < |s| && t == s[..i] + s[i + 1..]
  }

  /** t is s with the character at i replaced (by any character). */
  ghost predicate ReplacedAt(s: string, t: string, i: nat) {
    i < |s| && |t| == |s| && t[..i] == s[..i] && t[i + 1..] == s[i + 1..]
  }

  ghost predicate OneEdit(s: string, t: string) {
    exists i: nat :: DeletedAt(s, t, i) || DeletedAt(t, s, i) || ReplacedAt(s, t, i)
  }

  /** A chain of strings from a to b, each one edit away from the one before. */
  ghost predicate Chain(p: seq<string>, a: string, b: string) {
    |p| > 0 && p[0] == a && p[|p| - 1] == b
    && forall j, k :: 0 <= j < k < |p| && k == j + 1 ==> OneEdit(p[j], p[k])
  }

  // ---------- the recurrence the table fills in ----------

  function Min(x: nat, y: nat): nat { if x < y then x else y }

  function Front(s: string): string requires |s| > 0 { s[..|s| - 1] }

  function Cost(a: string, b: string): nat
    requires |a| > 0 && |b| > 0
  {
    if a[|a| - 1] == b[|b| - 1] then 0 else 1
  }

  /** Distance by the last characters; the code's table holds it for pairs of prefixes. */
  function Dist(a: string, b: string): nat
    decreases |a| + |b|
  {
    if |a| == 0 then |b|
    else if |b| == 0 then |a|
    else Min(Min(Dist(a, Front(b)) + 1, Dist(Front(a), b) + 1), Dist(Front(a), Front(b)) + Cost(a, b))
  }

  // ---------- the metric laws ----------

  lemma {:induction false} LastStep(a: string, b: string)
    requires |a| > 0 && |b| > 0
    ensures Dist(a, b) == Min(Min(Dist(a, Front(b)) + 1, Dist(Front(a), b) + 1), Dist(Front(a), Front(b)) + Cost(a, b))
  {
  }

  lemma {:induction false} DistSymmetric(a: string, b: string)
    ensures Dist(a, b) == Dist(b, a)
    decreases |a| + |b|
  {
    if |a| > 0 && |b| > 0 {
      DistSymmetric(a, Front(b));
      DistSymmetric(Front(a), b);
      DistSymmetric(Front(a), Front(b));
    }
  }

  lemma {:induction false} DistZeroIffEqual(a: string, b: string)
    ensures Dist(a, b) == 0 <==> a == b
    decreases |a| + |b|
  {
    if |a| > 0 && |b| > 0 {
      DistZeroIffEqual(Front(a), Front(b));
      assert a == Front(a) + [a[|a| - 1]] && b == Front(b) + [b[|b| - 1]];
    }
  }

  lemma {:induction false} DistBounds(a: string, b: string)
    ensures |a| - |b| <= Dist(a, b) && |b| - |a| <= Dist(a, b)
    ensures Dist(a, b) <= if |a| < |b| then |b| else |a|
    decreases |a| + |b|
  {
    if |a| > 0 && |b| > 0 {
      DistBounds(a, Front(b));
      DistBounds(Front(a), b);
      DistBounds(Front(a), Front(b));
    }
  }

  /** Dropping the last character of one side moves the distance by at most one. */
  lemma {:induction false} DistFront(a: string, b: string)
    requires |a| > 0
    ensures Dist(Front(a), b) <= Dist(a, b) + 1
    ensures Dist(a, b) <= Dist(Front(a), b) + 1
    decreases |a| + |b|
  {
    if |b| > 0 {
      DistFront(a, Front(b));
      if |a| > 1 { DistFront(Front(a), b); }
    }
  }

  lemma {:induction false} DistTriangle(a: string, b: string, c: string)
    ensures Dist(a, c) <= Dist(a, b) + Dist(b, c)
    decreases |a| + |b| + |c|
  {
    if |a| == 0 {
      DistBounds(b, c);
    } else if |c| == 0 {
      DistBounds(a, b);
    } else if |b| == 0 {
      DistBounds(a, c);
    } else {
      DistTriangle(Front(a), b, c);
      DistTriangle(a, b, Front(c));
      DistTriangle(a, Front(b), c);
      DistTriangle(Front(a), Front(b), c);
      DistTriangle(Front(a), Front(b), Front(c));
      DistTriangle(a, Front(b), Front(c));
      DistFront(a, c);
      DistSymmetric(a, c);
      DistFront(c, a);
      DistSymmetric(Front(c), a);
    }
  }

  // ---------- Dist is the length of a shortest chain ----------

  lemma {:induction false} DistSelf(a: string)
    ensures Dist(a, a) == 0
  {
    DistZeroIffEqual(a, a);
  }

  /** A common tail can only bring two strings closer. */
  lemma {:induction false} DistCommonTail(a: string, b: string, t: string)
    ensures Dist(a + t, b + t) <= Dist(a, b)
  {
    if t == [] {
      assert a + t == a && b + t == b;
    } else {
      DistCommonTail(a, b, Front(t));
      assert Front(a + t) == a + Front(t) && Front(b + t) == b + Front(t);
    }
  }

  lemma {:induction false} DeletedIsClose(s: string, t: string, i: nat)
    requires DeletedAt(s, t, i)
    ensures Dist(s, t) <= 1
  {
    var head := s[..i + 1];
    DistFront(head, s[..i]);
    assert Front(head) == s[..i];
    DistSelf(s[..i]);
    DistCommonTail(head, s[..i], s[i + 1..]);
    assert s == head + s[i + 1..];
  }

  lemma {:induction false} OneEditIsClose(s: string, t: string)
    requires OneEdit(s, t)
    ensures Dist(s, t) <= 1
  {
    hide Dist;
    var i: nat :| DeletedAt(s, t, i) || DeletedAt(t, s, i) || ReplacedAt(s, t, i);
    if DeletedAt(s, t, i) {
      DeletedIsClose(s, t, i);
    } else if DeletedAt(t, s, i) {
      DeletedIsClose(t, s, i);
      DistSymmetric(s, t);
    } else {
      ReplacedIsClose(s, t, i);
    }
  }

  lemma {:induction false} ReplacedIsClose(s: string, t: string, i: nat)
    requires ReplacedAt(s, t, i)
    ensures Dist(s, t) <= 1
  {
    hide Dist;
    var x, y := s[..i + 1], t[..i + 1];
    assert Front(x) == s[..i] == Front(y);
    DistSelf(s[..i]);
    LastStep(x, y);
    DistCommonTail(x, y, s[i + 1..]);
    assert s == x + s[i + 1..] && t == y + t[i + 1..];
  }

  /** No chain of edits is shorter than the distance. */
  lemma {:induction false} ChainLowerBound(p: seq<string>, a: string, b: string)
    requires Chain(p, a, b)
    ensures Dist(a, b) <= |p| - 1
    decreases |p|
  {
    if |p| == 1 {
      DistSelf(a);
    } else {
      var mid := p[|p| - 2];
      ChainLowerBound(p[..|p| - 1], a, mid);
      OneEditIsClose(p[|p| - 2], p[|p| - 1]);
      DistTriangle(a, mid, b);
    }
  }

  lemma {:induction false} DeletedExtends(s: string, t: string, c: char, i: nat)
    requires DeletedAt(s, t, i)
    ensures DeletedAt(s + [c], t + [c], i)
  {
    assert (s + [c])[..i] == s[..i] && (s + [c])[i + 1..] == s[i + 1..] + [c];
  }

  /** Appending one character to both ends of an edit leaves it an edit. */
  lemma {:induction false} OneEditExtends(s: string, t: string, c: char)
    requires OneEdit(s, t)
    ensures OneEdit(s + [c], t + [c])
  {
    var i: nat :| DeletedAt(s, t, i) || DeletedAt(t, s, i) || ReplacedAt(s, t, i);
    if DeletedAt(s, t, i) {
      DeletedExtends(s, t, c, i);
    } else if DeletedAt(t, s, i) {
      DeletedExtends(t, s, c, i);
    } else {
      assert (s + [c])[..i] == s[..i] && (s + [c])[i + 1..] == s[i + 1..] + [c];
      assert (t + [c])[..i] == t[..i] && (t + [c])[i + 1..] == t[i + 1..] + [c];
      assert ReplacedAt(s + [c], t + [c], i);
    }
  }

  function AppendAll(p: seq<string>, c: char): (r: seq<string>) {
    seq(|p|, k requires 0 <= k < |p| => p[k] + [c])
  }

  lemma {:induction false} ChainExtends(p: seq<string>, a: string, b: string, c: char)
    requires Chain(p, a, b)
    ensures Chain(AppendAll(p, c), a + [c], b + [c])
  {
    var q := AppendAll(p, c);
    forall j, k | 0 <= j < k < |q| && k == j + 1 ensures OneEdit(q[j], q[k]) {
      OneEditExtends(p[j], p[k], c);
    }
  }

  lemma {:induction false} ChainPushFront(x: string, p: seq<string>, a: string, b: string)
    requires Chain(p, a, b) && OneEdit(x, a)
    ensures Chain([x] + p, x, b)
  {
  }

  lemma {:induction false} ChainPushBack(p: seq<string>, a: string, b: string, y: string)
    requires Chain(p, a, b) && OneEdit(b, y)
    ensures Chain(p + [y], a, y)
  {
  }

  lemma {:induction false} FrontIsOneEdit(a: string)
    requires |a| > 0
    ensures OneEdit(a, Front(a)) && OneEdit(Front(a), a)
  {
    assert DeletedAt(a, Front(a), |a| - 1);
  }

  lemma {:induction false} LastIsOneEdit(s: string, x: char, y: char)
    ensures OneEdit(s + [x], s + [y])
  {
    var u, v := s + [x], s + [y];
    assert u[..|s|] == s == v[..|s|] && u[|s| + 1..] == [] == v[|s| + 1..];
    assert ReplacedAt(u, v, |s|);
  }

  /** Some chain of edits is exactly as long as the distance. */
  lemma {:induction false} ChainReached(a: string, b: string) returns (p: seq<string>)
    ensures Chain(p, a, b) && |p| - 1 == Dist(a, b)
    decreases |a| + |b|
  {
    if |a| == 0 && |b| == 0 {
      p := [a];
    } else if |a| > 0 && (|b| == 0 || Dist(a, b) == Dist(Front(a), b) + 1) {
      DistBounds(Front(a), b);
      var q := ChainReached(Front(a), b);
      FrontIsOneEdit(a);
      ChainPushFront(a, q, Front(a), b);
      p := [a] + q;
    } else if |b| > 0 && (|a| == 0 || Dist(a, b) == Dist(a, Front(b)) + 1) {
      DistBounds(a, Front(b));
      var q := ChainReached(a, Front(b));
      FrontIsOneEdit(b);
      ChainPushBack(q, a, Front(b), b);
      p := q + [b];
    } else {
      var q := ChainReached(Front(a), Front(b));
      var x, y := a[|a| - 1], b[|b| - 1];
      ChainExtends(q, Front(a), Front(b), x);
      assert a == Front(a) + [x] && b == Front(b) + [y];
      p := AppendAll(q, x);
      if x != y {
        LastIsOneEdit(Front(b), x, y);
        ChainPushBack(p, a, Front(b) + [x], b);
        p := p + [b];
      }
    }
  }

  /** r is the length of a shortest chain of one-character edits from a to b. */
  ghost predicate IsEditDistance(r: nat, a: string, b: string) {
    && (exists p :: Chain(p, a, b) && |p| - 1 == r)
    && (forall p :: Chain(p, a, b) ==> r <= |p| - 1)
  }

  lemma {:induction false} DistIsEditDistance(a: string, b: string)
    ensures IsEditDistance(Dist(a, b), a, b)
  {
    forall p | Chain(p, a, b) ensures Dist(a, b) <= |p| - 1 {
      ChainLowerBound(p, a, b);
    }
    var shortest := ChainReached(a, b);
  }

  /** The recurrence, read on the prefixes of a and b that one table cell stands for. */
  lemma {:induction false} CellValue(a: string, b: string, i: nat, j: nat)
    requires 1 <= i <= |a| && 1 <= j <= |b|
    ensures Dist(a[..i], b[..j]) ==
            Min(Min(Dist(a[..i], b[..j - 1]) + 1, Dist(a[..i - 1], b[..j]) + 1),
                Dist(a[..i - 1], b[..j - 1]) + if a[i - 1] == b[j - 1] then 0 else 1)
  {
    hide Dist, Min;
    var x, y := a[..i], b[..j];
    LastStep(x, y);
    assert Front(x) == a[..i - 1] && Front(y) == b[..j - 1];
    assert Cost(x, y) == if a[i - 1] == b[j - 1] then 0 else 1;
  }

  // ---------- the two-row table ----------

  /** The table row that stands for b[..j]: the distances to it from every prefix of a. */
  ghost function Row(a: string, b: string, j: nat): (r: seq<nat>)
    requires j <= |b|
    ensures |r| == |a| + 1
  {
    seq(|a| + 1, k requires 0 <= k <= |a| => Dist(a[..k], b[..j]))
  }

  lemma {:induction false} RowEdges(a: string, b: string, j: nat)
    requires j <= |b|
    ensures Row(a, b, j)[0] == j && Row(a, b, j)[|a|] == Dist(a, b[..j])
    ensures forall k :: 0 <= k <= |a| ==> Row(a, b, 0)[k] == k
  {
    assert a[..|a|] == a;
  }

  lemma {:induction false} DistEmpty(a: string, b: string)
    ensures |a| == 0 ==> Dist(a, b) == |b|
    ensures |b| == 0 ==> Dist(a, b) == |a|
  {
  }

  lemma {:induction false} RowStep(a: string, b: string, i: nat, j: nat)
    requires 1 <= i <= |a| && 1 <= j <= |b|
    ensures Row(a, b, j)[i] ==
            Min(Min(Row(a, b, j - 1)[i] + 1, Row(a, b, j)[i - 1] + 1),
                Row(a, b, j - 1)[i - 1] + if a[i - 1] == b[j - 1] then 0 else 1)
  {
    CellValue(a, b, i, j);
  }

  /** levenshteinDistance: two rolling rows over the shorter string. The result is the
      length of a shortest chain of one-character edits from a0 to b0. */
  method LevenshteinDistance(a0: string, b0: string) returns (r: nat)
    ensures r == Dist(a0, b0) && IsEditDistance(r, a0, b0)
  {
    hide *;
    DistIsEditDistance(a0, b0);
    DistEmpty(a0, b0);
    if |a0| == 0 { return |b0|; }
    if |b0| == 0 { return |a0|; }
    var a, b := a0, b0;
    if |a| > |b| {
      a, b := b, a;
    }
    DistSymmetric(a0, b0);
    var prev, curr := new nat[|a| + 1], new nat[|a| + 1];
    for i := 0 to |a| + 1
      invariant forall k :: 0 <= k < i ==> prev[k] == k
    {
      prev[i] := i;
    }
    var j := 1;
    RowEdges(a, b, 0);
    assert prev[..] == Row(a, b, 0);
    while j <= |b|
      invariant 1 <= j <= |b| + 1
      invariant prev != curr && prev.Length == |a| + 1 == curr.Length
      invariant fresh(prev) && fresh(curr)
      invariant prev[..] == Row(a, b, j - 1)
    {
      RowEdges(a, b, j);
      curr[0] := j;
      var i := 1;
      while i <= |a|
        invariant 1 <= i <= |a| + 1
        invariant forall k :: 0 <= k < i ==> curr[k] == Row(a, b, j)[k]
        invariant prev[..] == Row(a, b, j - 1)
      {
        var cost := 1;
        if a[i - 1] == b[j - 1] {
          cost := 0;
        }
        RowStep(a, b, i, j);
        assert prev[i] == prev[..][i] && prev[i - 1] == prev[..][i - 1];
        curr[i] := Min(Min(prev[i] + 1, curr[i - 1] + 1), prev[i - 1] + cost);
        i := i + 1;
      }
      prev, curr := curr, prev;
      j := j + 1;
    }
    RowEdges(a, b, |b|);
    assert b[..|b|] == b && prev[|a|] == prev[..][|a|];
    return prev[|a|];
  }
}
