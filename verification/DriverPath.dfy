/** Which imports count as a datastore driver: internal/c4/facts.go, matchesDriverPath. */
module DriverPath {
  import opened Text

  function Segments(path: string): (r: seq<string>)
    ensures |r| > 0
  {
    Split(path, '/')
  }

  /** The segments of match stand next to each other somewhere in those of path. */
  ghost predicate SegmentRun(path: string, match_: string) {
    var p, m := Segments(path), Segments(match_);
    exists i, j :: 0 <= i <= j <= |p| && p[i..j] == m
  }

  /** Four string tests that never look at segments. */
  predicate MatchesDriverPath(pkgPath: string, match_: string) {
    if pkgPath == match_ then true
    else if match_ + "/" <= pkgPath then true
    else if HasSuffix(pkgPath, "/" + match_) then true
    else Contains(pkgPath, "/" + match_ + "/")
  }

  /** They hold exactly when match is a run of whole segments of the path. */
  lemma {:induction false} MatchesWholeSegments(pkgPath: string, match_: string)
    ensures MatchesDriverPath(pkgPath, match_) <==> SegmentRun(pkgPath, match_)
  {
    if MatchesDriverPath(pkgPath, match_) {
      MatchIsRun(pkgPath, match_);
    }
    if SegmentRun(pkgPath, match_) {
      RunIsMatch(pkgPath, match_);
    }
  }

  lemma {:induction false} RunAt(path: string, match_: string, before: seq<string>, after: seq<string>)
    requires Segments(path) == before + Segments(match_) + after
    ensures SegmentRun(path, match_)
  {
    var i, j := |before|, |before| + |Segments(match_)|;
    assert Segments(path)[i..j] == Segments(match_);
  }

  /** A path that holds match between slashes, or from its start, or to its end. */
  lemma {:induction false} PiecesAreRun(p: string, front: string, m: string, rest: string)
    ensures p == m + "/" + rest ==> SegmentRun(p, m)
    ensures p == front + "/" + m ==> SegmentRun(p, m)
    ensures p == front + "/" + (m + "/" + rest) ==> SegmentRun(p, m)
  {
    SplitConcat(m, '/', rest);
    SplitConcat(front, '/', m);
    SplitConcat(front, '/', m + ['/'] + rest);
    hide Split;
    var f, s, r := Segments(front), Segments(m), Segments(rest);
    if p == m + "/" + rest {
      assert Segments(p) == [] + s + r;
      RunAt(p, m, [], r);
    }
    if p == front + "/" + m {
      assert Segments(p) == f + s + [];
      RunAt(p, m, f, []);
    }
    if p == front + "/" + (m + "/" + rest) {
      assert Segments(p) == f + s + r;
      RunAt(p, m, f, r);
    }
  }

  lemma {:induction false} MatchIsRun(p: string, m: string)
    requires MatchesDriverPath(p, m)
    ensures SegmentRun(p, m)
  {
    hide SegmentRun;
    if p == m {
      assert Segments(p) == [] + Segments(m) + [];
      RunAt(p, m, [], []);
    } else if m + "/" <= p {
      assert p == m + "/" + p[|m| + 1..];
      PiecesAreRun(p, "", m, p[|m| + 1..]);
    } else if HasSuffix(p, "/" + m) {
      assert p == p[..|p| - |m| - 1] + "/" + m;
      PiecesAreRun(p, p[..|p| - |m| - 1], m, "");
    } else {
      var i :| 0 <= i <= |p| && OccursAt(p, "/" + m + "/", i);
      var front, rest := p[..i], p[i + |m| + 2..];
      assert p == front + ("/" + m + "/") + rest;
      assert p == front + "/" + (m + "/" + rest);
      PiecesAreRun(p, front, m, rest);
    }
  }

  lemma {:induction false} RunIsMatch(p: string, m: string)
    requires SegmentRun(p, m)
    ensures MatchesDriverPath(p, m)
  {
    var ps := Segments(p);
    var i, j :| 0 <= i <= j <= |ps| && ps[i..j] == Segments(m);
    assert ps == ps[..i] + Segments(m) + ps[j..];
    JoinSplit(p, '/');
    PathPieces(ps[..i], m, ps[j..]);
    PiecesMatch(p, m, Lead(ps[..i]), Trail(ps[j..]));
  }

  function Lead(segs: seq<string>): string { if |segs| == 0 then "" else Join(segs, "/") + "/" }
  function Trail(segs: seq<string>): string { if |segs| == 0 then "" else "/" + Join(segs, "/") }

  lemma {:induction false} PathPieces(before: seq<string>, m: string, after: seq<string>)
    ensures Join(before + Segments(m) + after, "/") == Lead(before) + m + Trail(after)
  {
    JoinSplit(m, '/');
    var mid := before + Segments(m);
    if |before| == 0 {
      assert mid == Segments(m);
    } else {
      JoinConcat(before, Segments(m), "/");
    }
    assert Join(mid, "/") == Lead(before) + m;
    if |after| == 0 {
      assert mid + after == mid;
    } else {
      JoinConcat(mid, after, "/");
      assert Lead(before) + m + "/" + Join(after, "/") == Lead(before) + m + Trail(after);
    }
  }

  lemma {:induction false} PiecesMatch(p: string, m: string, lead: string, trail: string)
    requires p == lead + m + trail && (lead == "" || HasSuffix(lead, "/")) && (trail == "" || "/" <= trail)
    ensures MatchesDriverPath(p, m)
  {
    if lead == "" && trail == "" {
      assert p == m;
    } else if lead == "" {
      assert p == m + "/" + trail[1..];
    } else {
      var front := lead[..|lead| - 1];
      if trail == "" {
        assert p == front + ("/" + m);
      } else {
        assert p == front + ("/" + m + "/") + trail[1..];
        ContainsMiddle(front, "/" + m + "/", trail[1..]);
      }
    }
  }
}
