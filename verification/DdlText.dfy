/** Tidying extracted DDL: dedentLines, compactDDL, leadingWhitespace and commonPrefix of
    internal/dbschema/dbschema.go. A char stands for a byte, and white space is ASCII's. */
module DdlText {
  import opened Text

  predicate IsIndent(c: char) { c == ' ' || c == '\t' }

  predicate IsSpace(c: char) { IsIndent(c) || c == '\n' || c == '\r' || c == '\U{B}' || c == '\U{C}' }

  /** strings.TrimSpace(s) == "" */
  predicate Blank(s: string) { forall i :: 0 <= i < |s| ==> IsSpace(s[i]) }

  lemma {:induction false} SpaceExactly(c: char)
    ensures IsSpace(c) <==> c in [' ', '\t', '\n', '\U{B}', '\U{C}', '\r']
  {
  }

  // ---------- prefixes ----------

  /** The longest common prefix. */
  function Common(a: string, b: string): (p: string)
    ensures p <= a && p <= b
    ensures |p| == |a| || |p| == |b| || a[|p|] != b[|p|]
  {
    if |a| == 0 || |b| == 0 || a[0] != b[0] then "" else [a[0]] + Common(a[1..], b[1..])
  }

  lemma {:induction false} CommonLongest(a: string, b: string, q: string)
    requires q <= a && q <= b
    ensures q <= Common(a, b)
  {
    var p := Common(a, b);
    assert forall i :: 0 <= i < |q| ==> a[i] == q[i] == b[i];
    assert forall i :: 0 <= i < |p| ==> p[i] == a[i];
  }

  method CommonPrefix(a: string, b: string) returns (p: string)
    ensures p == Common(a, b)
  {
    var n := |a|;
    if |b| < n {
      n := |b|;
    }
    for i := 0 to n
      invariant a[..i] == b[..i]
    {
      if a[i] != b[i] {
        CommonAt(a, b, i);
        return a[..i];
      }
    }
    CommonAt(a, b, n);
    return a[..n];
  }

  lemma {:induction false} CommonAt(a: string, b: string, n: nat)
    requires n <= |a| && n <= |b| && a[..n] == b[..n] && (n == |a| || n == |b| || a[n] != b[n])
    ensures Common(a, b) == a[..n]
  {
    CommonLongest(a, b, a[..n]);
    var p := Common(a, b);
    assert forall i :: 0 <= i < |p| ==> p[i] == a[i] == b[i];
  }

  /** The leading spaces and tabs. */
  function Indent(s: string): (p: string)
    ensures p <= s && (forall i :: 0 <= i < |p| ==> IsIndent(p[i])) && (|p| < |s| ==> !IsIndent(s[|p|]))
  {
    if |s| > 0 && IsIndent(s[0]) then [s[0]] + Indent(s[1..]) else ""
  }

  method LeadingWhitespace(s: string) returns (p: string)
    ensures p == Indent(s)
  {
    for i := 0 to |s|
      invariant forall k :: 0 <= k < i ==> IsIndent(s[k])
    {
      if s[i] != ' ' && s[i] != '\t' {
        var q := Indent(s);
        assert forall k :: 0 <= k < |q| ==> q[k] == s[k];
        return s[..i];
      }
    }
    return s;
  }

  // ---------- dedentLines ----------

  /** The longest run of spaces and tabs every non-blank line starts with, "" if all are blank. */
  function CommonIndent(lines: seq<string>): string {
    if |lines| == 0 then ""
    else
      var n := |lines| - 1;
      if Blank(lines[n]) then CommonIndent(lines[..n])
      else if AllBlank(lines[..n]) then Indent(lines[n])
      else Common(CommonIndent(lines[..n]), Indent(lines[n]))
  }

  predicate AllBlank(lines: seq<string>) { forall k :: 0 <= k < |lines| ==> Blank(lines[k]) }

  /** c is spaces and tabs, and every non-blank line starts with it. */
  ghost predicate Indents(c: string, lines: seq<string>) {
    && (forall i :: 0 <= i < |c| ==> c[i] == ' ' || c[i] == '\t')
    && forall k :: 0 <= k < |lines| && !Blank(lines[k]) ==> c <= lines[k]
  }

  lemma {:induction false} CommonIndentIndents(lines: seq<string>)
    ensures Indents(CommonIndent(lines), lines)
  {
    if |lines| > 0 {
      var n := |lines| - 1;
      CommonIndentIndents(lines[..n]);
      var c, d := CommonIndent(lines), CommonIndent(lines[..n]);
      forall k | 0 <= k < |lines| && !Blank(lines[k]) ensures c <= lines[k] {
        if k < n {
          assert lines[..n][k] == lines[k] && d <= lines[k];
        }
      }
    }
  }

  lemma {:induction false} CommonIndentLongest(lines: seq<string>, c: string)
    requires Indents(c, lines) && !AllBlank(lines)
    ensures c <= CommonIndent(lines)
  {
    var n := |lines| - 1;
    assert Indents(c, lines[..n]) by {
      forall k | 0 <= k < n && !Blank(lines[..n][k]) ensures c <= lines[..n][k] { assert lines[..n][k] == lines[k]; }
    }
    if Blank(lines[n]) {
      AllBlankNext(lines, n);
      assert lines[..n + 1] == lines;
      CommonIndentLongest(lines[..n], c);
    } else {
      IndentLongest(lines[n], c);
      if !AllBlank(lines[..n]) {
        CommonIndentLongest(lines[..n], c);
        CommonLongest(CommonIndent(lines[..n]), Indent(lines[n]), c);
      }
    }
  }

  lemma {:induction false} IndentLongest(s: string, c: string)
    requires c <= s && forall i :: 0 <= i < |c| ==> c[i] == ' ' || c[i] == '\t'
    ensures c <= Indent(s)
  {
    var p := Indent(s);
    assert forall i :: 0 <= i < |c| ==> s[i] == c[i];
    assert forall i :: 0 <= i < |p| ==> s[i] == p[i];
  }

  function TrimPrefix(s: string, p: string): string { if p <= s then s[|p|..] else s }

  function Dedent(lines: seq<string>): (out: seq<string>)
    ensures |out| == |lines|
  {
    seq(|lines|, k requires 0 <= k < |lines| => TrimPrefix(lines[k], CommonIndent(lines)))
  }

  method DedentLines(lines: seq<string>) returns (out: seq<string>)
    ensures out == Dedent(lines)
  {
    var common := "";
    var first := true;
    for i := 0 to |lines|
      invariant first == AllBlank(lines[..i]) && common == CommonIndent(lines[..i])
      invariant first ==> common == ""
    {
      assert lines[..i + 1][..i] == lines[..i];
      AllBlankNext(lines, i);
      if Blank(lines[i]) {
        continue;
      }
      var prefix := LeadingWhitespace(lines[i]);
      if first {
        common := prefix;
        first := false;
        continue;
      }
      common := CommonPrefix(common, prefix);
      if common == "" {
        NoIndentLeft(lines, i + 1);
        DedentNothing(lines);
        return lines;
      }
    }
    assert lines[..|lines|] == lines;
    if common == "" {
      DedentNothing(lines);
      return lines;
    }
    out := seq(|lines|, k requires 0 <= k < |lines| => TrimPrefix(lines[k], common));
  }

  lemma {:induction false} AllBlankNext(lines: seq<string>, i: nat)
    requires i < |lines|
    ensures AllBlank(lines[..i + 1]) == (AllBlank(lines[..i]) && Blank(lines[i]))
  {
    assert lines[..i + 1] == lines[..i] + [lines[i]];
  }

  lemma {:induction false} NoIndentLeft(lines: seq<string>, i: nat)
    requires i <= |lines| && CommonIndent(lines[..i]) == "" && !AllBlank(lines[..i])
    ensures CommonIndent(lines) == ""
  {
    var c := CommonIndent(lines);
    CommonIndentIndents(lines);
    forall k | 0 <= k < i && !Blank(lines[..i][k]) ensures c <= lines[..i][k] { assert lines[..i][k] == lines[k]; }
    CommonIndentLongest(lines[..i], c);
  }

  lemma {:induction false} DedentNothing(lines: seq<string>)
    requires CommonIndent(lines) == ""
    ensures Dedent(lines) == lines
  {
  }

  lemma {:induction false} NoIndentOfBlank(lines: seq<string>)
    requires AllBlank(lines)
    ensures CommonIndent(lines) == ""
  {
    if |lines| > 0 {
      AllBlankNext(lines, |lines| - 1);
      assert lines[..|lines|] == lines;
      NoIndentOfBlank(lines[..|lines| - 1]);
    }
  }

  /** Putting the common indent back restores every line that starts with it, so every non-blank one;
      other lines are as they were, and a blank line stays blank. */
  lemma {:induction false} DedentRestores(lines: seq<string>, k: nat)
    requires k < |lines|
    ensures !Blank(lines[k]) ==> CommonIndent(lines) + Dedent(lines)[k] == lines[k]
    ensures var c := CommonIndent(lines);
            if c <= lines[k] then c + Dedent(lines)[k] == lines[k] else Dedent(lines)[k] == lines[k]
    ensures Blank(Dedent(lines)[k]) <==> Blank(lines[k])
  {
    var c := CommonIndent(lines);
    CommonIndentIndents(lines);
    if c <= lines[k] {
      assert lines[k] == c + lines[k][|c|..];
      forall i | 0 <= i < |lines[k]| ensures IsSpace(lines[k][i]) <==> i < |c| || IsSpace(Dedent(lines)[k][i - |c|]) {
      }
      if Blank(Dedent(lines)[k]) { assert forall i :: 0 <= i < |lines[k]| ==> IsSpace(lines[k][i]); }
    }
  }

  /** A second pass changes nothing. */
  lemma {:induction false} DedentTwice(lines: seq<string>)
    ensures Dedent(Dedent(lines)) == Dedent(lines)
  {
    var c, out := CommonIndent(lines), Dedent(lines);
    var d := CommonIndent(out);
    forall k | 0 <= k < |lines| { DedentRestores(lines, k); }
    if AllBlank(lines) {
      NoIndentOfBlank(out);
    } else {
      CommonIndentIndents(lines);
      CommonIndentIndents(out);
      forall k | 0 <= k < |lines| && !Blank(lines[k]) ensures c + d <= lines[k] {
        assert d <= out[k];
        assert c + out[k] == lines[k];
      }
      CommonIndentLongest(lines, c + d);
    }
    DedentNothing(out);
  }
}
