/** compactDDL of internal/dbschema/dbschema.go: comments and trailing spaces dropped, runs of
    blank lines folded into one, and the whole cut off at 6000 bytes. */
module DdlCompact {
  import opened Text
  import opened DdlText

  const MAX_DDL_BYTES := 6000
  const NOTE := "-- ... (truncated; see source file for full DDL)"

  /** strings.TrimRight(s, " \t") */
  function TrimIndentRight(s: string): (r: string)
    ensures r <= s && (r == "" || !IsIndent(r[|r| - 1]))
    ensures forall i :: |r| <= i < |s| ==> IsIndent(s[i])
  {
    if |s| > 0 && IsIndent(s[|s| - 1]) then TrimIndentRight(s[..|s| - 1]) else s
  }

  function TrimLeft(s: string): (r: string)
    ensures |r| <= |s| && r == s[|s| - |r|..] && (r == "" || !IsSpace(r[0]))
  {
    if |s| > 0 && IsSpace(s[0]) then TrimLeft(s[1..]) else s
  }

  function TrimRight(s: string): (r: string)
    ensures r <= s && (r == "" || !IsSpace(r[|r| - 1]))
  {
    if |s| > 0 && IsSpace(s[|s| - 1]) then TrimRight(s[..|s| - 1]) else s
  }

  function TrimSpace(s: string): string { TrimRight(TrimLeft(s)) }

  lemma {:induction false} LeftSpaces(s: string, i: nat)
    requires i < |s| - |TrimLeft(s)|
    ensures IsSpace(s[i])
  {
    if i > 0 { LeftSpaces(s[1..], i - 1); }
  }

  lemma {:induction false} LeftTrimmed(s: string) returns (a: string)
    ensures s == a + TrimLeft(s) && Blank(a)
  {
    a := s[..|s| - |TrimLeft(s)|];
    forall i | 0 <= i < |a| ensures IsSpace(a[i]) { LeftSpaces(s, i); }
    hide TrimLeft;
  }

  lemma {:induction false} RightTrimmed(s: string) returns (b: string)
    ensures s == TrimRight(s) + b && Blank(b)
  {
    b := "";
    if |s| > 0 && IsSpace(s[|s| - 1]) {
      var n := |s| - 1;
      b := RightTrimmed(s[..n]);
      assert s == TrimRight(s[..n]) + (b + [s[n]]);
      b := b + [s[n]];
    }
  }

  /** White space is taken from both ends, all of it, and nothing else. */
  lemma {:induction false} TrimSpaceExactly(s: string) returns (a: string, b: string)
    ensures s == a + TrimSpace(s) + b && Blank(a) && Blank(b)
    ensures var t := TrimSpace(s); t == "" || (!IsSpace(t[0]) && !IsSpace(t[|t| - 1]))
  {
    a := LeftTrimmed(s);
    b := RightTrimmed(TrimLeft(s));
    hide Blank;
    TrimmedEnds(s);
    assert a + TrimSpace(s) + b == a + (TrimSpace(s) + b);
  }

  lemma {:induction false} TrimmedEnds(s: string)
    ensures var t := TrimSpace(s); t == "" || (!IsSpace(t[0]) && !IsSpace(t[|t| - 1]))
  {
    var t := TrimSpace(s);
    if t != "" { assert t[0] == TrimLeft(s)[0]; }
  }

  /** A line without its comment and its trailing spaces; a line that starts with -- is kept. */
  function Stripped(line: string): string {
    var k := IndexFrom(line, 0, "--");
    if k == 0 then line else TrimIndentRight(if k > 0 then line[..k] else line)
  }

  /** The lines that are kept: of blank ones at most one in a row, and none at the start. */
  function Kept(lines: seq<string>): seq<string> {
    if |lines| == 0 then [] else Add(Kept(lines[..|lines| - 1]), Stripped(lines[|lines| - 1]))
  }

  function Add(kept: seq<string>, t: string): seq<string> {
    if !Blank(t) then kept + [t]
    else if |kept| == 0 || kept[|kept| - 1] == "" then kept
    else kept + [""]
  }

  /** The tidied text, before it may be cut off. */
  function Tidied(ddl: string): string { TrimSpace(Join(Kept(Split(ddl, '\n')), "\n")) }

  function Compact(ddl: string): string {
    var out := Tidied(ddl);
    if |out| > MAX_DDL_BYTES then out[..MAX_DDL_BYTES] + "\n" + NOTE else out
  }

  method CompactDDL(ddl: string) returns (out: string)
    ensures out == Compact(ddl)
  {
    var lines := Split(ddl, '\n');
    var kept: seq<string> := [];
    var prevBlank := true;
    hide Kept, Split, Join, TrimSpace, IndexFrom, Blank, TrimIndentRight;
    KeptNone();
    EmptyBlank();
    for i := 0 to |lines|
      invariant kept == Kept(lines[..i])
      invariant prevBlank == (|kept| == 0 || kept[|kept| - 1] == "")
    {
      KeptNext(lines, i);
      var ln := lines[i];
      var idx := IndexFrom(ln, 0, "--");
      if idx >= 0 {
        if idx == 0 {
          MarkerNotBlank(ln);
          kept := kept + [ln];
          prevBlank := false;
          continue;
        }
        ln := ln[..idx];
      }
      var trimmed := TrimIndentRight(ln);
      if Blank(trimmed) {
        if prevBlank {
          continue;
        }
        kept := kept + [""];
        prevBlank := true;
        continue;
      }
      kept := kept + [trimmed];
      prevBlank := false;
    }
    assert lines[..|lines|] == lines;
    out := TrimSpace(Join(kept, "\n"));
    if |out| > MAX_DDL_BYTES {
      out := out[..MAX_DDL_BYTES] + "\n" + NOTE;
    }
  }

  lemma {:induction false} KeptNone()
    ensures Kept([]) == []
  {
  }

  lemma {:induction false} EmptyBlank()
    ensures Blank("")
  {
  }

  lemma {:induction false} KeptNext(lines: seq<string>, i: nat)
    requires i < |lines|
    ensures Kept(lines[..i + 1]) == Add(Kept(lines[..i]), Stripped(lines[i]))
  {
    assert lines[..i + 1][..i] == lines[..i];
  }

  lemma {:induction false} MarkerNotBlank(line: string)
    requires IndexFrom(line, 0, "--") == 0
    ensures |line| >= 2 && line[0] == '-' && line[1] == '-' && !Blank(line) && Stripped(line) == line
  {
    TwoChars(line, '-', '-', 0);
  }

  // ---------- what the kept lines look like ----------

  /** Stripping it again changes nothing. */
  predicate Clean(line: string) { Stripped(line) == line && '\n' !in line }

  /** Clean lines, no two blank ones in a row and the first not blank; a blank one is empty. */
  ghost predicate Neat(lines: seq<string>) {
    && (forall k :: 0 <= k < |lines| ==> Clean(lines[k]) && (Blank(lines[k]) ==> lines[k] == ""))
    && (forall j, k :: 0 <= j < k < |lines| && k == j + 1 ==> !(Blank(lines[j]) && Blank(lines[k])))
    && (|lines| > 0 ==> !Blank(lines[0]))
  }

  predicate NoDashes(s: string) { IndexFrom(s, 0, "--") == -1 }

  /** r is the part of s from a on that is as long as r. */
  ghost predicate PartAt(r: string, s: string, a: nat) {
    a + |r| <= |s| && forall j :: 0 <= j < |r| ==> r[j] == s[a + j]
  }

  lemma {:induction false} NoDashesPart(r: string, s: string, a: nat)
    requires PartAt(r, s, a) && (NoDashes(s) || (a == 0 && |r| == IndexFrom(s, 0, "--")))
    ensures NoDashes(r)
  {
    hide OccursAt;
    assert "--" == ['-', '-'];
    var k := IndexFrom(r, 0, "--");
    if k != -1 {
      TwoChars(r, '-', '-', k);
      TwoChars(s, '-', '-', a + k);
      assert false;
    }
  }

  lemma {:induction false} NoNewline(r: string, s: string, a: nat)
    requires PartAt(r, s, a) && '\n' !in s
    ensures '\n' !in r
  {
  }

  lemma {:induction false} IndexInside(s: string)
    ensures IndexFrom(s, 0, "--") <= |s|
  {
  }

  lemma {:induction false} NoMarker(line: string)
    requires '\n' !in line && NoDashes(line) && (line == "" || !IsIndent(line[|line| - 1]))
    ensures Clean(line)
  {
  }

  lemma {:induction false} StrippedClean(line: string)
    requires '\n' !in line
    ensures Clean(Stripped(line))
    ensures IndexFrom(line, 0, "--") != 0 ==> NoDashes(Stripped(line))
  {
    hide IndexFrom;
    var k := IndexFrom(line, 0, "--");
    if k != 0 {
      IndexInside(line);
      var head := if k > 0 then line[..k] else line;
      var t := TrimIndentRight(head);
      NoDashesPart(head, line, 0);
      NoDashesPart(t, head, 0);
      NoNewline(t, line, 0);
      NoMarker(t);
    }
  }

  lemma {:induction false} AddNeat(kept: seq<string>, t: string)
    requires Neat(kept) && Clean(t)
    ensures Neat(Add(kept, t))
  {
    NoMarker("");
    EmptyBlank();
    hide Stripped, Clean, Blank;
    var n := |kept|;
    var r := Add(kept, t);
    assert forall k :: 0 <= k < n ==> r[k] == kept[k];
  }

  lemma {:induction false} KeptNeat(lines: seq<string>)
    requires forall k :: 0 <= k < |lines| ==> '\n' !in lines[k]
    ensures Neat(Kept(lines))
  {
    hide Stripped, Clean, Blank, Add;
    if |lines| == 0 {
      KeptNone();
    } else {
      var n := |lines| - 1;
      KeptNeat(lines[..n]);
      StrippedClean(lines[n]);
      AddNeat(Kept(lines[..n]), Stripped(lines[n]));
    }
  }

  lemma {:induction false} NeatPrefix(lines: seq<string>, n: nat)
    requires Neat(lines) && n <= |lines|
    ensures Neat(lines[..n])
  {
    hide Clean, Blank;
    assert forall k :: 0 <= k < n ==> lines[..n][k] == lines[k];
  }

  /** Keeping neat lines keeps them all. */
  lemma {:induction false} NeatKept(lines: seq<string>)
    requires Neat(lines)
    ensures Kept(lines) == lines
  {
    hide Stripped, Blank;
    if |lines| > 0 {
      var n := |lines| - 1;
      NeatPrefix(lines, n);
      NeatKept(lines[..n]);
      NeatLast(lines);
      hide Neat;
    }
  }

  lemma {:induction false} NeatLast(lines: seq<string>)
    requires Neat(lines) && |lines| > 0
    ensures Stripped(lines[|lines| - 1]) == lines[|lines| - 1]
    ensures Add(lines[..|lines| - 1], lines[|lines| - 1]) == lines
  {
    EmptyBlank();
    hide Stripped, Blank;
    var n := |lines| - 1;
    assert lines == lines[..n] + [lines[n]];
    if n > 0 { assert lines[..n][n - 1] == lines[n - 1]; }
  }

  /** The non-blank lines, in order. */
  function Content(lines: seq<string>): seq<string> {
    if |lines| == 0 then []
    else
      var n := |lines| - 1;
      Content(lines[..n]) + if Blank(lines[n]) then [] else [lines[n]]
  }

  function StrippedLines(lines: seq<string>): seq<string> {
    seq(|lines|, k requires 0 <= k < |lines| => Stripped(lines[k]))
  }

  /** t is the code of the line: the line is t, then spaces and tabs only, then nothing or a comment,
      which starts at its first double dash; and t does not end in a space or tab. A line that starts
      with a double dash is all code. */
  ghost predicate IsCode(t: string, line: string) {
    if |line| >= 2 && line[0] == line[1] == '-' then t == line
    else
      && t <= line && (t == "" || !IsIndent(t[|t| - 1]))
      && exists n :: |t| <= n <= |line| && CodeEnds(line, n) && forall i :: |t| <= i < n ==> IsIndent(line[i])
  }

  /** The first double dash of the line is at n, or it has none and ends there. */
  ghost predicate CodeEnds(line: string, n: nat) {
    && (n == |line| || (n + 1 < |line| && line[n] == line[n + 1] == '-'))
    && forall i :: 0 <= i < n && i + 1 < |line| ==> !(line[i] == line[i + 1] == '-')
  }

  lemma {:induction false} CodeEndsAt(line: string)
    ensures var k := IndexFrom(line, 0, "--");
            && CodeEnds(line, if k == -1 then |line| else k)
            && (k == 0 <==> |line| >= 2 && line[0] == line[1] == '-')
  {
    assert "--" == ['-', '-'];
    forall i { TwoChars(line, '-', '-', i); }
    hide OccursAt;
    assert !OccursAt(line, "--", |line|);
  }

  /** What is kept of a line is its code, and that is only one text. */
  lemma {:induction false} StrippedExactly(line: string, t: string)
    ensures t == Stripped(line) <==> IsCode(t, line)
  {
    CodeEndsAt(line);
    hide IndexFrom;
    var k := IndexFrom(line, 0, "--");
    if k != 0 {
      var n := if k == -1 then |line| else k;
      var r := Stripped(line);
      assert r == TrimIndentRight(line[..n]) by { assert line[..|line|] == line; }
      assert forall i :: 0 <= i < n ==> line[..n][i] == line[i];
      assert IsCode(r, line);
      if IsCode(t, line) { SameCode(t, r, line); }
    }
  }

  lemma {:induction false} SameCode(t: string, r: string, line: string)
    requires IsCode(t, line) && IsCode(r, line) && !(|line| >= 2 && line[0] == line[1] == '-')
    ensures t == r
  {
    var n :| |t| <= n <= |line| && CodeEnds(line, n) && forall i :: |t| <= i < n ==> IsIndent(line[i]);
    var m :| |r| <= m <= |line| && CodeEnds(line, m) && forall i :: |r| <= i < m ==> IsIndent(line[i]);
    assert n == m;
    assert t == line[..|t|] && r == line[..|r|];
    assert |t| > 0 ==> t[|t| - 1] == line[|t| - 1];
    assert |r| > 0 ==> r[|r| - 1] == line[|r| - 1];
  }

  /** Every line's code is kept, in order, but for blank ones: nothing but comments, trailing spaces
      and blank lines is lost. */
  lemma {:induction false} CodeKept(lines: seq<string>, codes: seq<string>)
    requires |codes| == |lines| && forall k :: 0 <= k < |lines| ==> IsCode(codes[k], lines[k])
    ensures Content(Kept(lines)) == Content(codes)
  {
    KeptContent(lines);
    forall k | 0 <= k < |lines| { StrippedExactly(lines[k], codes[k]); }
    hide Stripped, IsCode, Kept, Content;
    assert StrippedLines(lines) == codes;
  }

  /** So the lines kept have the content of the stripped ones. */
  lemma {:induction false} KeptContent(lines: seq<string>)
    ensures Content(Kept(lines)) == Content(StrippedLines(lines))
  {
    if |lines| > 0 {
      var n := |lines| - 1;
      var kept, t := Kept(lines[..n]), Stripped(lines[n]);
      KeptContent(lines[..n]);
      EmptyBlank();
      assert StrippedLines(lines)[..n] == StrippedLines(lines[..n]);
      hide Stripped, Blank, Kept;
      assert (kept + [t])[..|kept|] == kept && (kept + [""])[..|kept|] == kept;
      KeptLast(lines);
      assert Content(kept) + [] == Content(kept);
    }
  }

  lemma {:induction false} KeptLast(lines: seq<string>)
    requires |lines| > 0
    ensures Kept(lines) == Add(Kept(lines[..|lines| - 1]), Stripped(lines[|lines| - 1]))
  {
  }

  // ---------- trimming the ends of the joined lines ----------

  lemma {:induction false} BlankFirst(a: string)
    requires |a| > 0
    ensures Blank(a) <==> IsSpace(a[0]) && Blank(a[1..])
  {
    assert forall i :: 0 < i < |a| ==> a[i] == a[1..][i - 1];
    assert forall i :: 0 <= i < |a| - 1 ==> a[1..][i] == a[i + 1];
  }

  lemma {:induction false} BlankLast(a: string)
    requires |a| > 0
    ensures Blank(a) <==> IsSpace(a[|a| - 1]) && Blank(a[..|a| - 1])
  {
    assert forall i :: 0 <= i < |a| - 1 ==> a[..|a| - 1][i] == a[i];
  }

  lemma {:induction false} TrimLeftConcat(a: string, b: string)
    requires !Blank(a)
    ensures TrimLeft(a + b) == TrimLeft(a) + b
  {
    if IsSpace(a[0]) {
      BlankFirst(a);
      assert (a + b)[1..] == a[1..] + b;
      TrimLeftConcat(a[1..], b);
    } else {
      assert TrimLeft(a) == a && (a + b)[0] == a[0];
    }
  }

  lemma {:induction false} TrimRightConcat(a: string, b: string)
    requires !Blank(b)
    ensures TrimRight(a + b) == a + TrimRight(b)
  {
    var n := |b| - 1;
    assert (a + b)[|a + b| - 1] == b[n];
    if IsSpace(b[n]) {
      BlankLast(b);
      assert (a + b)[..|a + b| - 1] == a + b[..n];
      TrimRightConcat(a, b[..n]);
    }
  }

  lemma {:induction false} TrimRightNewline(a: string)
    ensures TrimRight(a + "\n") == TrimRight(a)
  {
    assert (a + "\n")[..|a|] == a && (a + "\n")[|a|] == '\n';
  }

  lemma {:induction false} TrimNotBlank(t: string)
    requires !Blank(t)
    ensures !Blank(TrimLeft(t)) && !Blank(TrimRight(t))
  {
    TrimLeftConcat(t, "");
    TrimRightConcat("", t);
    var l, r := TrimLeft(t), TrimRight(t);
    if |l| == 0 { LeftOfBlank(t); }
    if |r| == 0 { RightOfBlank(t); }
    assert |l| > 0 ==> !IsSpace(l[0]);
    assert |r| > 0 ==> !IsSpace(r[|r| - 1]);
  }

  lemma {:induction false} LeftOfBlank(t: string)
    requires TrimLeft(t) == ""
    ensures Blank(t)
  {
    if |t| > 0 {
      LeftOfBlank(t[1..]);
      BlankFirst(t);
    }
  }

  lemma {:induction false} RightOfBlank(t: string)
    requires TrimRight(t) == ""
    ensures Blank(t)
  {
    if |t| > 0 {
      RightOfBlank(t[..|t| - 1]);
      BlankLast(t);
    }
  }

  /** Without the empty last line the joined lines end in. */
  function DropLast(kept: seq<string>): seq<string> {
    if |kept| > 0 && kept[|kept| - 1] == "" then kept[..|kept| - 1] else kept
  }

  /** The first line trimmed on its left, the last on its right. */
  function Ends(lines: seq<string>): (r: seq<string>)
    ensures |r| == |lines|
  {
    if |lines| == 0 then lines
    else
      var l := lines[0 := TrimLeft(lines[0])];
      l[|l| - 1 := TrimRight(l[|l| - 1])]
  }

  lemma {:induction false} JoinFirst(lines: seq<string>, x: string)
    requires |lines| > 0
    ensures Join(lines[0 := x], "\n") == x + Join(lines, "\n")[|lines[0]|..]
    ensures lines[0] <= Join(lines, "\n")
  {
    assert lines[0 := x][1..] == lines[1..];
    if |lines| == 1 {
    } else {
      var rest := "\n" + Join(lines[1..], "\n");
      assert Join(lines, "\n") == lines[0] + rest && Join(lines[0 := x], "\n") == x + rest;
    }
  }

  lemma {:induction false} JoinLast(lines: seq<string>, x: string) returns (head: string)
    requires |lines| > 0
    ensures Join(lines, "\n") == head + lines[|lines| - 1] && Join(lines[|lines| - 1 := x], "\n") == head + x
  {
    var n := |lines| - 1;
    if n == 0 {
      head := "";
    } else {
      head := Join(lines[..n], "\n") + "\n";
      JoinConcat(lines[..n], [lines[n]], "\n");
      JoinConcat(lines[..n], [x], "\n");
      assert lines == lines[..n] + [lines[n]] && lines[n := x] == lines[..n] + [x];
    }
  }

  lemma {:induction false} TrimFirst(lines: seq<string>)
    requires |lines| > 0 && !Blank(lines[0])
    ensures TrimLeft(Join(lines, "\n")) == Join(lines[0 := TrimLeft(lines[0])], "\n")
  {
    JoinFirst(lines, TrimLeft(lines[0]));
    var rest := Join(lines, "\n")[|lines[0]|..];
    assert Join(lines, "\n") == lines[0] + rest;
    TrimLeftConcat(lines[0], rest);
  }

  lemma {:induction false} TrimLast(lines: seq<string>)
    requires |lines| > 0 && !Blank(lines[|lines| - 1])
    ensures TrimRight(Join(lines, "\n")) == Join(lines[|lines| - 1 := TrimRight(lines[|lines| - 1])], "\n")
  {
    var head := JoinLast(lines, TrimRight(lines[|lines| - 1]));
    TrimRightConcat(head, lines[|lines| - 1]);
  }

  lemma {:induction false} CleanLeft(t: string)
    requires Clean(t) && !Blank(t)
    ensures Clean(TrimLeft(t)) && !Blank(TrimLeft(t))
  {
    hide Stripped, IndexFrom, TrimLeft, Blank;
    TrimNotBlank(t);
    if IndexFrom(t, 0, "--") == 0 {
      MarkerLeft(t);
    } else {
      PartClean(TrimLeft(t), t, |t| - |TrimLeft(t)|);
    }
  }

  lemma {:induction false} MarkerLeft(t: string)
    requires IndexFrom(t, 0, "--") == 0
    ensures TrimLeft(t) == t
  {
    MarkerNotBlank(t);
    hide IndexFrom, Blank;
  }

  lemma {:induction false} MarkerRight(t: string)
    requires IndexFrom(t, 0, "--") == 0
    ensures IndexFrom(TrimRight(t), 0, "--") == 0
  {
    MarkerNotBlank(t);
    TwoAtLeast(t);
    hide Blank;
    var r := TrimRight(t);
    assert r[0] == t[0] && r[1] == t[1];
    TwoChars(r, '-', '-', 0);
    assert "--" == ['-', '-'];
    IndexOf(r, 0, "--", 0);
  }

  /** A part of a clean line that is no marker, reaching its end or ending in no space or tab. */
  lemma {:induction false} PartClean(r: string, t: string, a: nat)
    requires Clean(t) && IndexFrom(t, 0, "--") != 0 && PartAt(r, t, a)
    requires a + |r| == |t| || r == "" || !IsIndent(r[|r| - 1])
    ensures Clean(r)
  {
    StrippedClean(t);
    TrimmedEnd(t);
    hide NoDashes, IndexFrom, Stripped;
    NoNewline(r, t, a);
    NoDashesPart(r, t, a);
    NoMarker(r);
  }

  lemma {:induction false} TrimmedEnd(t: string)
    requires Stripped(t) == t && IndexFrom(t, 0, "--") != 0
    ensures t == "" || !IsIndent(t[|t| - 1])
  {
  }

  lemma {:induction false} CleanRight(t: string)
    requires Clean(t) && !Blank(t)
    ensures Clean(TrimRight(t)) && !Blank(TrimRight(t))
  {
    hide Stripped, IndexFrom, TrimRight, Blank, PartAt;
    var r := TrimRight(t);
    TrimNotBlank(t);
    PrefixIsPart(r, t);
    if IndexFrom(t, 0, "--") == 0 {
      MarkerRight(t);
      MarkerStripped(r);
      NoNewline(r, t, 0);
    } else {
      PartClean(r, t, 0);
    }
  }

  lemma {:induction false} PrefixIsPart(r: string, t: string)
    requires r <= t
    ensures PartAt(r, t, 0)
  {
  }

  lemma {:induction false} MarkerStripped(line: string)
    requires IndexFrom(line, 0, "--") == 0
    ensures Stripped(line) == line
  {
  }

  lemma {:induction false} TwoAtLeast(t: string)
    requires |t| >= 2 && !IsSpace(t[1])
    ensures |TrimRight(t)| >= 2
  {
    if |t| > 2 && IsSpace(t[|t| - 1]) { TwoAtLeast(t[..|t| - 1]); }
  }

  lemma {:induction false} DropLastNeat(kept: seq<string>)
    requires Neat(kept)
    ensures Neat(DropLast(kept)) && (|DropLast(kept)| > 0 ==> !Blank(DropLast(kept)[|DropLast(kept)| - 1]))
    ensures TrimSpace(Join(kept, "\n")) == TrimSpace(Join(DropLast(kept), "\n"))
  {
    EmptyBlank();
    var n := |kept| - 1;
    if n >= 0 && kept[n] == "" {
      var k := kept[..n];
      NeatPrefix(kept, n);
      assert n > 0 && !Blank(kept[n - 1]) && kept[0] == k[0];
      assert kept == k + [""];
      JoinConcat(k, [""], "\n");
      assert Join(kept, "\n") == Join(k, "\n") + "\n";
      assert !Blank(Join(k, "\n")) by {
        JoinFirst(k, "");
        assert k[0] == Join(k, "\n")[..|k[0]|];
      }
      TrimLeftConcat(Join(k, "\n"), "\n");
      TrimRightNewline(TrimLeft(Join(k, "\n")));
    }
  }

  lemma {:induction false} EndsNeat(lines: seq<string>)
    requires Neat(lines) && |lines| > 0 && !Blank(lines[|lines| - 1])
    ensures Neat(Ends(lines)) && TrimSpace(Join(lines, "\n")) == Join(Ends(lines), "\n")
  {
    hide Clean, Blank, Join;
    var n := |lines| - 1;
    var l := lines[0 := TrimLeft(lines[0])];
    CleanLeft(lines[0]);
    assert n > 0 ==> l[n] == lines[n];
    CleanRight(l[n]);
    TrimFirst(lines);
    TrimLast(l);
    NeatEnds(lines, Ends(lines));
  }

  /** Neat lines with non-blank ends stay neat when other clean lines take the ends' places. */
  lemma {:induction false} NeatEnds(lines: seq<string>, r: seq<string>)
    requires Neat(lines) && |r| == |lines| > 0 && forall k :: 0 < k < |lines| - 1 ==> r[k] == lines[k]
    requires Clean(r[0]) && !Blank(r[0]) && Clean(r[|r| - 1]) && !Blank(r[|r| - 1])
    ensures Neat(r)
  {
    hide Clean, Blank;
  }

  /** The lines of the tidied text. */
  function TidyLines(ddl: string): seq<string> { Ends(DropLast(Kept(Split(ddl, '\n')))) }

  lemma {:induction false} TidiedLines(ddl: string)
    ensures Tidied(ddl) == Join(TidyLines(ddl), "\n") && Neat(TidyLines(ddl))
  {
    var lines := Split(ddl, '\n');
    var kept := Kept(lines);
    SplitParts(ddl, '\n');
    KeptNeat(lines);
    DropLastNeat(kept);
    var k := DropLast(kept);
    hide Neat, Kept, Split, DropLast, Blank, Ends;
    if |k| > 0 { EndsNeat(k); } else { NothingTidied(k); }
  }

  lemma {:induction false} NothingTidied(k: seq<string>)
    requires |k| == 0
    ensures TrimSpace(Join(k, "\n")) == "" == Join(Ends(k), "\n") && Neat(Ends(k))
  {
  }

  // ---------- compacting twice ----------

  lemma {:induction false} TrimmedStays(s: string)
    ensures TrimSpace(TrimSpace(s)) == TrimSpace(s)
  {
    var t := TrimSpace(s);
    if t != "" { assert t[0] == TrimLeft(s)[0]; }
  }

  lemma {:induction false} NeatTidied(lines: seq<string>)
    requires Neat(lines) && |lines| > 0 && TrimSpace(Join(lines, "\n")) == Join(lines, "\n")
    ensures Split(Join(lines, "\n"), '\n') == lines && Tidied(Join(lines, "\n")) == Join(lines, "\n")
  {
    forall p <- lines ensures '\n' !in p {
      var k :| 0 <= k < |lines| && lines[k] == p;
      assert Clean(lines[k]);
    }
    SplitJoin(lines, '\n');
    NeatKept(lines);
  }

  lemma {:induction false} TidiedTwice(ddl: string)
    ensures Tidied(Tidied(ddl)) == Tidied(ddl)
  {
    TidiedLines(ddl);
    TrimmedStays(Join(Kept(Split(ddl, '\n')), "\n"));
    hide TidyLines, Neat;
    if |TidyLines(ddl)| > 0 { NeatTidied(TidyLines(ddl)); } else { TidiedNothing(); }
  }

  lemma {:induction false} TidiedNothing()
    ensures Tidied("") == ""
  {
    EmptyBlank();
    assert Split("", '\n') == [""];
    assert Stripped("") == "";
    assert Kept([""][..0]) == [];
  }

  /** Text that is not cut off is left alone by a second pass. */
  lemma {:induction false} CompactTwice(ddl: string)
    requires |Tidied(ddl)| <= MAX_DDL_BYTES
    ensures Compact(Compact(ddl)) == Compact(ddl)
  {
    hide Tidied;
    TidiedTwice(ddl);
  }

  lemma {:induction false} CompactBounded(ddl: string)
    ensures |Compact(ddl)| <= MAX_DDL_BYTES + 1 + |NOTE|
  {
    hide Tidied;
  }

  // ---------- blank lines ----------

  /** No two lines in a row are blank. */
  ghost predicate NoTwoBlank(s: string) {
    var lines := Split(s, '\n');
    forall j, k :: 0 <= j < k < |lines| && k == j + 1 ==> !(Blank(lines[j]) && Blank(lines[k]))
  }

  /** s stops in the white space that follows a blank line. */
  predicate StopsAfterBlank(s: string) {
    var lines := Split(s, '\n');
    |lines| >= 2 && Blank(lines[|lines| - 2]) && Blank(lines[|lines| - 1])
  }

  /** The lines of a prefix: some of the first lines, and a prefix of the next. */
  lemma {:induction false} SplitTake(s: string, n: nat, c: char) returns (m: nat, x: string)
    requires n <= |s|
    ensures m < |Split(s, c)| && x <= Split(s, c)[m] && Split(s[..n], c) == Split(s, c)[..m] + [x]
  {
    if n == 0 {
      m, x := 0, "";
    } else {
      var p := Split(s[1..], c);
      m, x := SplitTake(s[1..], n - 1, c);
      assert s[..n][1..] == s[1..][..n - 1] && s[..n][0] == s[0];
      TakeBefore(s[0], c, p, m, x);
      assert Split(s[..n], c) == Before(s[0], c, Split(s[..n][1..], c)) && Split(s, c) == Before(s[0], c, p);
      hide Before;
      if s[0] == c { m := m + 1; } else if m == 0 { x := [s[0]] + x; }
    }
  }

  lemma {:induction false} TakeBefore(a: char, c: char, p: seq<string>, m: nat, x: string)
    requires m < |p| && x <= p[m]
    ensures var m', x' := if a == c then m + 1 else m, if a != c && m == 0 then [a] + x else x;
            && m' < |Before(a, c, p)| && x' <= Before(a, c, p)[m']
            && Before(a, c, p[..m] + [x]) == Before(a, c, p)[..m'] + [x']
  {
    if a != c && m > 0 {
      assert (p[..m] + [x])[1..] == p[1..m] + [x] && p[1..][..m - 1] == p[1..m];
    }
  }

  lemma {:induction false} TidiedNoTwoBlank(ddl: string)
    ensures NoTwoBlank(Tidied(ddl))
  {
    TidiedLines(ddl);
    var lines := TidyLines(ddl);
    TrimmedStays(Join(Kept(Split(ddl, '\n')), "\n"));
    hide TidyLines, Clean, Blank;
    if |lines| > 0 { NeatTidied(lines); }
  }

  lemma {:induction false} NoteIsLine()
    ensures '\n' !in NOTE && !Blank(NOTE)
  {
    hide Blank;
    NoteParts();
    var a, b, c, d := "-- ... (trunc", "ated; see so", "urce file fo", "r full DDL)";
    assert '\n' !in a && '\n' !in b && '\n' !in c && '\n' !in d;
    hide NOTE;
    assert '\n' !in a + b && '\n' !in a + b + c;
    assert '\n' !in a + b + c + d;
    assert NOTE[0] == a[0] == '-';
    StartsNotBlank(NOTE);
  }

  lemma {:induction false} NoteParts()
    ensures NOTE == "-- ... (trunc" + "ated; see so" + "urce file fo" + "r full DDL)"
  {
  }

  lemma {:induction false} StartsNotBlank(s: string)
    requires s != "" && !IsSpace(s[0])
    ensures !Blank(s)
  {
  }

  /** Compacted text has two blank lines in a row exactly if it was cut off in the white space
      that follows a blank line. */
  lemma {:induction false} CompactNoTwoBlank(ddl: string)
    ensures NoTwoBlank(Compact(ddl)) <==>
              |Tidied(ddl)| <= MAX_DDL_BYTES || !StopsAfterBlank(Tidied(ddl)[..MAX_DDL_BYTES])
  {
    TidiedNoTwoBlank(ddl);
    var out := Tidied(ddl);
    NoteIsLine();
    hide Tidied, NoTwoBlank, StopsAfterBlank, Blank, NOTE;
    if |out| > MAX_DDL_BYTES {
      CutNoTwoBlank(out, MAX_DDL_BYTES, NOTE);
    }
  }

  lemma {:induction false} CutNoTwoBlank(out: string, n: nat, note: string)
    requires n <= |out| && NoTwoBlank(out) && '\n' !in note && !Blank(note)
    ensures NoTwoBlank(out[..n] + "\n" + note) <==> !StopsAfterBlank(out[..n])
  {
    var m, x := SplitTake(out, n, '\n');
    SplitParts(note, '\n');
    SplitConcat(out[..n], '\n', note);
    hide Split, Blank;
    LinesOfCut(Split(out, '\n'), m, x, note);
  }

  /** Of lines without two blank ones in a row: the first m, x, and a last one that is not blank. */
  lemma {:induction false} LinesOfCut(all: seq<string>, m: nat, x: string, last: string)
    requires m < |all| && !Blank(last)
    requires forall j, k :: 0 <= j < k < |all| && k == j + 1 ==> !(Blank(all[j]) && Blank(all[k]))
    ensures var r := all[..m] + [x] + [last];
            (forall j, k :: 0 <= j < k < |r| && k == j + 1 ==> !(Blank(r[j]) && Blank(r[k])))
                <==> !(m >= 1 && Blank(all[m - 1]) && Blank(x))
  {
    hide Blank;
    var r := all[..m] + [x] + [last];
    assert r[m] == x && r[m + 1] == last;
    if m >= 1 && Blank(all[m - 1]) && Blank(x) {
      assert r[m - 1] == all[m - 1];
    } else {
      forall j, k | 0 <= j < k < |r| && k == j + 1 ensures !(Blank(r[j]) && Blank(r[k])) {
        if j < m { assert r[j] == all[j]; }
        if k < m { assert r[k] == all[k]; }
      }
    }
  }

  /** It happens: a line of 5998 bytes, a blank line, and one more. */
  lemma {:induction false} CutAfterBlankLine()
    ensures var a := seq(5998, _ => 'a'); !NoTwoBlank(Compact(a + "\n\n" + "b"))
  {
    var a: string := seq(5998, _ => 'a');
    assert forall k :: 0 <= k < |a| ==> a[k] == 'a';
    var ddl := a + "\n\n" + "b";
    PlainTidied(a);
    PlainStops(a);
    assert ddl[..MAX_DDL_BYTES] == a + "\n\n";
    hide Tidied, Compact, NoTwoBlank, StopsAfterBlank;
    CompactNoTwoBlank(ddl);
  }

  lemma {:induction false} PlainTidied(a: string)
    requires a != "" && forall k :: 0 <= k < |a| ==> a[k] == 'a'
    ensures Tidied(a + "\n\n" + "b") == a + "\n\n" + "b"
  {
    var ddl := a + "\n\n" + "b";
    JoinThree(a);
    PlainNeat(a);
    assert ddl[0] == a[0];
    hide Neat, Tidied, Join;
    TrimNothing(ddl);
    NeatTidied([a, "", "b"]);
  }

  lemma {:induction false} JoinThree(a: string)
    ensures Join([a, "", "b"], "\n") == a + "\n\n" + "b"
  {
    assert [a, "", "b"][1..] == ["", "b"] && ["", "b"][1..] == ["b"];
    assert Join(["", "b"], "\n") == "" + "\n" + "b";
    assert a + "\n" + ("" + "\n" + "b") == a + "\n\n" + "b";
  }

  lemma {:induction false} PlainNeat(a: string)
    requires a != "" && forall k :: 0 <= k < |a| ==> a[k] == 'a'
    ensures Neat([a, "", "b"])
  {
    PlainClean(a);
    PlainClean("b");
    NoMarker("");
    EmptyBlank();
    hide Clean, Blank;
  }

  lemma {:induction false} TrimNothing(s: string)
    requires s != "" && !IsSpace(s[0]) && !IsSpace(s[|s| - 1])
    ensures TrimSpace(s) == s
  {
  }

  lemma {:induction false} PlainStops(a: string)
    requires forall k :: 0 <= k < |a| ==> a[k] == 'a'
    ensures StopsAfterBlank(a + "\n\n")
  {
    EmptyBlank();
    SplitConcat(a, '\n', "\n");
    SplitConcat("", '\n', "");
    assert a + ['\n'] + "\n" == a + "\n\n" && "" + ['\n'] + "" == "\n";
    SplitParts(a, '\n');
    assert Split("", '\n') == [""];
  }

  lemma {:induction false} PlainClean(s: string)
    requires s != "" && forall k :: 0 <= k < |s| ==> s[k] == 'a' || s[k] == 'b'
    ensures Clean(s) && !Blank(s)
  {
    var k := IndexFrom(s, 0, "--");
    if k != -1 { TwoChars(s, '-', '-', k); }
    NoMarker(s);
    assert !IsSpace(s[0]);
  }
}
