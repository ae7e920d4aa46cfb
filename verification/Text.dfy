/** Splitting at a character and joining again, as strings.Split and strings.Join do it, and
    the few other string tests the code uses. A char here stands for a byte. */
module Text {

  function Split(s: string, c: char): (r: seq<string>)
    ensures |r| > 0
  {
    if |s| == 0 then [""] else Before(s[0], c, Split(s[1..], c))
  }

  /** The parts with x put before them. */
  function Before(x: char, c: char, parts: seq<string>): (r: seq<string>)
    requires |parts| > 0
    ensures |r| > 0
  {
    if x == c then [""] + parts else [[x] + parts[0]] + parts[1..]
  }

  function Join(parts: seq<string>, sep: string): string {
    if |parts| == 0 then ""
    else if |parts| == 1 then parts[0]
    else parts[0] + sep + Join(parts[1..], sep)
  }

  lemma {:induction false} SplitParts(s: string, c: char)
    ensures forall p <- Split(s, c) :: c !in p
    ensures c !in s ==> Split(s, c) == [s]
  {
    if |s| > 0 {
      SplitParts(s[1..], c);
      var r := Split(s[1..], c);
      assert r[0] in r;
      if c !in s { assert [s[0]] + s[1..] == s; }
    }
  }

  lemma {:induction false} BeforeConcat(x: char, c: char, p: seq<string>, q: seq<string>)
    requires |p| > 0
    ensures Before(x, c, p + q) == Before(x, c, p) + q
  {
    assert (p + q)[1..] == p[1..] + q;
  }

  lemma {:induction false} SplitConcat(a: string, c: char, b: string)
    ensures Split(a + [c] + b, c) == Split(a, c) + Split(b, c)
  {
    var s := a + [c] + b;
    if |a| == 0 {
      assert s[0] == c && s[1..] == b;
    } else {
      assert s[0] == a[0] && s[1..] == a[1..] + [c] + b;
      SplitConcat(a[1..], c, b);
      BeforeConcat(a[0], c, Split(a[1..], c), Split(b, c));
      assert Split(s, c) == Before(a[0], c, Split(s[1..], c)) && Split(a, c) == Before(a[0], c, Split(a[1..], c));
      hide Before;
    }
  }

  lemma {:induction false} JoinBefore(x: char, c: char, parts: seq<string>)
    requires |parts| > 0
    ensures Join(Before(x, c, parts), [c]) == [x] + Join(parts, [c])
  {
    if x == c {
      assert ([""] + parts)[1..] == parts;
      assert Join([""] + parts, [c]) == "" + [c] + Join(parts, [c]);
    } else {
      JoinFirst(parts, [x] + parts[0], [x], [c]);
    }
  }

  /** A longer first part makes the joined text longer by as much. */
  lemma {:induction false} JoinFirst(parts: seq<string>, first: string, more: string, sep: string)
    requires |parts| > 0 && first == more + parts[0]
    ensures Join([first] + parts[1..], sep) == more + Join(parts, sep)
  {
    var rest := parts[1..];
    assert ([first] + rest)[1..] == rest;
    if |rest| > 0 {
      var tail := sep + Join(rest, sep);
      assert Join(parts, sep) == parts[0] + tail && Join([first] + rest, sep) == first + tail;
    }
  }

  lemma {:induction false} JoinSplit(s: string, c: char)
    ensures Join(Split(s, c), [c]) == s
  {
    if |s| > 0 {
      JoinSplit(s[1..], c);
      JoinBefore(s[0], c, Split(s[1..], c));
      assert Split(s, c) == Before(s[0], c, Split(s[1..], c)) && s == [s[0]] + s[1..];
      hide Join, Split, Before;
    }
  }

  lemma {:induction false} SplitJoin(parts: seq<string>, c: char)
    requires |parts| > 0 && forall p <- parts :: c !in p
    ensures Split(Join(parts, [c]), c) == parts
  {
    SplitParts(parts[0], c);
    if |parts| > 1 {
      SplitJoin(parts[1..], c);
      SplitConcat(parts[0], c, Join(parts[1..], [c]));
    }
  }

  lemma {:induction false} JoinConcat(a: seq<string>, b: seq<string>, sep: string)
    requires |a| > 0 && |b| > 0
    ensures Join(a + b, sep) == Join(a, sep) + sep + Join(b, sep)
  {
    if |a| == 1 {
      assert (a + b)[1..] == b;
    } else {
      JoinConcat(a[1..], b, sep);
      assert (a + b)[1..] == a[1..] + b;
      assert a[0] + sep + (Join(a[1..], sep) + sep + Join(b, sep))
          == a[0] + sep + Join(a[1..], sep) + sep + Join(b, sep);
    }
  }

  predicate HasSuffix(s: string, t: string) { |t| <= |s| && s[|s| - |t|..] == t }

  predicate OccursAt(s: string, t: string, i: int) { 0 <= i <= |s| - |t| && s[i..i + |t|] == t }

  predicate Contains(s: string, t: string) {
    exists i :: 0 <= i <= |s| && OccursAt(s, t, i)
  }

  lemma {:induction false} ContainsMiddle(a: string, t: string, b: string)
    ensures Contains(a + t + b, t)
  {
    var s := a + t + b;
    assert s[|a|..|a| + |t|] == t;
    assert OccursAt(s, t, |a|);
  }

  /** The first place of t in s from i on, or -1: strings.Index of a rest of s. */
  function IndexFrom(s: string, i: nat, t: string): (k: int)
    ensures k == -1 || (i <= k && OccursAt(s, t, k))
    ensures forall j :: i <= j && (k == -1 || j < k) ==> !OccursAt(s, t, j)
    decreases |s| - i
  {
    if OccursAt(s, t, i) then i else if i >= |s| then -1 else IndexFrom(s, i + 1, t)
  }

  lemma {:induction false} IndexOf(s: string, i: nat, t: string, k: nat)
    requires i <= k && OccursAt(s, t, k) && forall j :: i <= j < k ==> !OccursAt(s, t, j)
    ensures IndexFrom(s, i, t) == k
  {
    assert IndexFrom(s, i, t) != -1;
  }

  lemma {:induction false} OneChar(s: string, c: char, k: int)
    ensures OccursAt(s, [c], k) <==> 0 <= k < |s| && s[k] == c
  {
    if 0 <= k < |s| { assert s[k..k + 1] == [s[k]]; }
  }

  lemma {:induction false} TwoChars(s: string, c: char, d: char, k: int)
    ensures OccursAt(s, [c, d], k) <==> 0 <= k < |s| - 1 && s[k] == c && s[k + 1] == d
  {
    if 0 <= k < |s| - 1 {
      var t := s[k..k + 2];
      assert t[0] == s[k] && t[1] == s[k + 1];
      assert t == [s[k], s[k + 1]];
    }
  }
}
