/** Go's string order and a sort by a caller-given less function, as sort.Strings and
    sort.Slice promise them: a permutation in which no later element is less than an
    earlier one. Go compares strings byte by byte; a char here stands for a byte. */
module Ordering {

  predicate StrLess(a: string, b: string) {
    if |b| == 0 then false
    else if |a| == 0 then true
    else if a[0] != b[0] then a[0] < b[0]
    else StrLess(a[1..], b[1..])
  }

  lemma {:induction false} StrLessTotal(a: string, b: string)
    ensures a == b || StrLess(a, b) || StrLess(b, a)
    ensures !(StrLess(a, b) && StrLess(b, a))
    ensures !StrLess(a, a)
  {
    if |a| > 0 {
      StrLessTotal(a[1..], a[1..]);
      if |b| > 0 && a[0] == b[0] {
        StrLessTotal(a[1..], b[1..]);
        assert a == [a[0]] + a[1..] && b == [b[0]] + b[1..];
      }
    }
  }

  lemma {:induction false} StrLessTransitive(a: string, b: string, c: string)
    requires StrLess(a, b) && StrLess(b, c)
    ensures StrLess(a, c)
  {
    if |a| > 0 && a[0] == b[0] == c[0] {
      StrLessTransitive(a[1..], b[1..], c[1..]);
    }
  }

  /** a and b differ first at n, where b goes on with a greater character or a is at its end. */
  ghost predicate FirstLessAt(a: string, b: string, n: nat) {
    n <= |a| && n < |b| && a[..n] == b[..n] && (n == |a| || a[n] < b[n])
  }

  /** The order is that of a dictionary. */
  lemma {:induction false} StrLessExactly(a: string, b: string)
    ensures StrLess(a, b) <==> exists n: nat :: FirstLessAt(a, b, n)
  {
    if |a| > 0 && |b| > 0 && a[0] == b[0] {
      StrLessExactly(a[1..], b[1..]);
      if n: nat :| FirstLessAt(a[1..], b[1..], n) {
        assert a[..n + 1] == [a[0]] + a[1..][..n] && b[..n + 1] == [b[0]] + b[1..][..n];
        assert FirstLessAt(a, b, n + 1);
      }
      if n: nat :| FirstLessAt(a, b, n) {
        assert n > 0;
        assert a[1..][..n - 1] == a[..n][1..] && b[1..][..n - 1] == b[..n][1..];
        assert FirstLessAt(a[1..], b[1..], n - 1);
      }
    } else {
      assert |b| > 0 && (|a| == 0 || a[0] < b[0]) ==> FirstLessAt(a, b, 0);
      if n: nat :| FirstLessAt(a, b, n) {
        if n > 0 { SameStart(a, b, n); }
      }
    }
  }

  lemma {:induction false} SameStart(a: string, b: string, n: nat)
    requires 0 < n <= |a| && n <= |b| && a[..n] == b[..n]
    ensures a[0] == b[0]
  {
    assert a[..n][0] == a[0] && b[..n][0] == b[0];
  }

  /** less is a strict weak order: what sort.Slice asks of the function it is given. */
  ghost predicate StrictWeak<T(!new)>(less: (T, T) -> bool) {
    && (forall a, b :: less(a, b) ==> !less(b, a))
    && (forall a, b, c :: !less(b, a) && !less(c, b) ==> !less(c, a))
  }

  /** No later element is less than an earlier one. */
  ghost predicate SortedBy<T>(s: seq<T>, less: (T, T) -> bool) {
    forall i, j :: 0 <= i < j < |s| ==> !less(s[j], s[i])
  }

  lemma {:induction false} StrLessStrictWeak()
    ensures StrictWeak(StrLess)
  {
    forall a, b ensures StrLess(a, b) ==> !StrLess(b, a) {
      StrLessTotal(a, b);
    }
    forall a, b, c | !StrLess(b, a) && !StrLess(c, b) ensures !StrLess(c, a) {
      StrLessTotal(a, b);
      StrLessTotal(b, c);
      StrLessTotal(c, a);
      if StrLess(c, a) && a != b && b != c {
        StrLessTransitive(a, b, c);
      }
    }
  }

  function Insert<T>(x: T, s: seq<T>, less: (T, T) -> bool): (r: seq<T>)
    ensures multiset(r) == multiset(s) + multiset{x}
  {
    if |s| == 0 then [x]
    else if less(s[0], x) then
      assert s == [s[0]] + s[1..];
      [s[0]] + Insert(x, s[1..], less)
    else [x] + s
  }

  lemma {:induction false} InsertSorted<T(!new)>(x: T, s: seq<T>, less: (T, T) -> bool)
    requires StrictWeak(less) && SortedBy(s, less)
    ensures SortedBy(Insert(x, s, less), less)
  {
    if |s| > 0 && less(s[0], x) {
      InsertSorted(x, s[1..], less);
      var rest := Insert(x, s[1..], less);
      forall j | 0 <= j < |rest| ensures !less(rest[j], s[0]) {
        assert rest[j] in multiset(rest);
        assert rest[j] == x || rest[j] in s[1..];
      }
    } else if |s| > 0 {
      var r := [x] + s;
      forall i, j | 0 <= i < j < |r| ensures !less(r[j], r[i]) {
        if i == 0 && j > 1 {
          assert !less(s[j - 1], s[0]);
        }
      }
    }
  }

  function Sort<T>(s: seq<T>, less: (T, T) -> bool): (r: seq<T>)
    ensures multiset(r) == multiset(s) && |r| == |s|
  {
    if |s| == 0 then []
    else
      assert s == [s[0]] + s[1..];
      var r := Insert(s[0], Sort(s[1..], less), less);
      assert |r| == |multiset(r)| == |multiset(s)| == |s|;
      r
  }

  lemma {:induction false} SortSorts<T(!new)>(s: seq<T>, less: (T, T) -> bool)
    requires StrictWeak(less)
    ensures SortedBy(Sort(s, less), less)
  {
    if |s| > 0 {
      SortSorts(s[1..], less);
      InsertSorted(s[0], Sort(s[1..], less), less);
    }
  }

  // ---------- sequences without repetition ----------

  ghost predicate Distinct<T>(s: seq<T>) {
    forall i, j :: 0 <= i < j < |s| ==> s[i] != s[j]
  }

  function Elements<T>(s: seq<T>): set<T> { set x | x in s }

  lemma {:induction false} PrefixElements<T>(s: seq<T>, i: nat)
    requires i <= |s|
    ensures Elements(s[..i]) <= Elements(s) && Elements(s[..0]) == {} && Elements(s[..|s|]) == Elements(s)
    ensures i < |s| ==> Elements(s[..i + 1]) == Elements(s[..i]) + {s[i]}
  {
    assert s[..|s|] == s;
    if i < |s| { assert s[..i + 1] == s[..i] + [s[i]]; }
  }

  /** The place of an element of s, before i exactly if it is in the prefix. */
  lemma {:induction false} PlaceOf<T>(s: seq<T>, i: nat, x: T) returns (k: nat)
    requires i <= |s| && x in Elements(s)
    ensures k < |s| && s[k] == x && (x in Elements(s[..i]) <==> k < i)
  {
    assert forall m :: 0 <= m < i ==> s[..i][m] == s[m];
    if x in s[..i] {
      k :| k < i && s[..i][k] == x;
    } else {
      k :| k < |s| && s[k] == x;
    }
  }

  lemma {:induction false} DistinctCount<T>(s: seq<T>)
    requires Distinct(s)
    ensures |Elements(s)| == |s|
  {
    if |s| > 0 {
      DistinctCount(s[1..]);
      assert Elements(s) == {s[0]} + Elements(s[1..]);
    }
  }

  lemma {:induction false} MultisetDistinct<T>(s: seq<T>, r: seq<T>)
    requires Distinct(s) && multiset(r) == multiset(s)
    ensures Distinct(r) && Elements(r) == Elements(s)
  {
    forall x | x in s ensures multiset(s)[x] == 1 { DistinctOnce(s, x); }
    forall i, j | 0 <= i < j < |r| ensures r[i] != r[j] {
      assert r == r[..j] + [r[j]] + r[j + 1..];
      assert r[j] in multiset(s);
      assert multiset(r)[r[j]] == multiset(r[..j])[r[j]] + 1 + multiset(r[j + 1..])[r[j]];
      assert r[j] !in r[..j] && r[..j][i] == r[i];
    }
    forall x ensures x in r <==> x in s {
      assert x in multiset(r) <==> x in multiset(s);
    }
  }

  lemma {:induction false} DistinctOnce<T>(s: seq<T>, x: T)
    requires Distinct(s)
    ensures multiset(s)[x] == if x in s then 1 else 0
  {
    if |s| > 0 {
      DistinctOnce(s[1..], x);
      assert s == [s[0]] + s[1..];
    }
  }

  lemma {:induction false} SubsetCount<T>(a: set<T>, b: set<T>)
    requires a <= b
    ensures |a| <= |b|
  {
    assert b == a + (b - a);
  }

  lemma {:induction false} SmallerCount<T>(a: set<T>, b: set<T>, x: T)
    requires a <= b && x in b && x !in a
    ensures |a| < |b|
  {
    SubsetCount(a, b - {x});
  }

  /** A set's members in some order, as ranging over a Go map yields its keys. */
  method InSomeOrder<T(==)>(s: set<T>) returns (r: seq<T>)
    ensures Distinct(r) && Elements(r) == s
  {
    r := [];
    var left := s;
    while left != {}
      invariant Distinct(r) && Elements(r) + left == s && Elements(r) !! left
    {
      var x :| x in left;
      r := r + [x];
      left := left - {x};
    }
  }

  // ---------- strictly ascending lists of strings ----------

  ghost predicate Ascending(s: seq<string>) {
    forall i, j :: 0 <= i < j < |s| ==> StrLess(s[i], s[j])
  }

  lemma {:induction false} AscendingDistinct(a: seq<string>)
    requires Ascending(a)
    ensures Distinct(a)
  {
    forall i, j | 0 <= i < j < |a| ensures a[i] != a[j] { StrLessTotal(a[i], a[j]); }
  }

  lemma {:induction false} DistinctTail<T>(a: seq<T>)
    requires Distinct(a) && |a| > 0
    ensures Elements(a[1..]) == Elements(a) - {a[0]}
  {
    forall x ensures x in a[1..] <==> x in a && x != a[0] {
      if x in a && x != a[0] {
        var k :| 0 <= k < |a| && a[k] == x;
        assert a[1..][k - 1] == x;
      }
    }
  }

  /** Strictly ascending lists of the same names are the same. */
  lemma {:induction false} AscendingUnique(a: seq<string>, b: seq<string>)
    requires Ascending(a)
    requires Ascending(b)
    requires Elements(a) == Elements(b)
    ensures a == b
  {
    AscendingDistinct(a);
    AscendingDistinct(b);
    DistinctCount(a);
    DistinctCount(b);
    if |a| > 0 {
      assert a[0] in Elements(b) && b[0] in Elements(a);
      StrLessTotal(a[0], b[0]);
      assert a[0] == b[0];
      DistinctTail(a);
      DistinctTail(b);
      AscendingUnique(a[1..], b[1..]);
      assert a == [a[0]] + a[1..] && b == [b[0]] + b[1..];
    }
  }

  /** sort.Strings on distinct strings lists them in ascending order. */
  lemma {:induction false} SortAscending(s: seq<string>)
    requires Distinct(s)
    ensures Ascending(Sort(s, StrLess)) && Elements(Sort(s, StrLess)) == Elements(s)
  {
    var sorted := Sort(s, StrLess);
    StrLessStrictWeak();
    SortSorts(s, StrLess);
    MultisetDistinct(s, sorted);
    forall i, j | 0 <= i < j < |sorted| ensures StrLess(sorted[i], sorted[j]) {
      StrLessTotal(sorted[i], sorted[j]);
    }
  }

  /** The last element of a is somewhere in its permutation b, and without it they are still permutations. */
  lemma {:induction false} LastElsewhere<T>(a: seq<T>, b: seq<T>) returns (k: nat)
    requires |a| > 0 && multiset(a) == multiset(b)
    ensures k < |b| && b[k] == a[|a| - 1] && multiset(b[..k] + b[k + 1..]) == multiset(a[..|a| - 1])
  {
    var n := |a| - 1;
    assert a[n] in multiset(b);
    k :| 0 <= k < |b| && b[k] == a[n];
    assert a == a[..n] + [a[n]] && b == b[..k] + [b[k]] + b[k + 1..];
    assert multiset(a) == multiset(a[..n]) + multiset{a[n]};
    assert multiset(b) == multiset(b[..k] + b[k + 1..]) + multiset{b[k]};
    Cancel(multiset(a[..n]), multiset(b[..k] + b[k + 1..]), a[n]);
  }

  lemma {:induction false} Cancel<T>(x: multiset<T>, y: multiset<T>, e: T)
    requires x + multiset{e} == y + multiset{e}
    ensures x == y
  {
    assert forall z :: (x + multiset{e})[z] == x[z] + multiset{e}[z];
    assert forall z :: (y + multiset{e})[z] == y[z] + multiset{e}[z];
  }

  /** sort.Slice: some sorted order of the elements, no particular one among those it leaves tied. */
  method SortSlice<T(!new)>(s: seq<T>, less: (T, T) -> bool) returns (r: seq<T>)
    requires StrictWeak(less)
    ensures multiset(r) == multiset(s) && |r| == |s| && SortedBy(r, less)
  {
    r := Sort(s, less);
    SortSorts(s, less);
  }
}
