/** Finding DDL in Go source: the scanner extractGoDDL of internal/dbschema/dbschema.go, against
    the lexical elements of the Go Language Specification ("Comments", "Rune literals", "String
    literals"). A char stands for a byte; whether a literal holds DDL is left to a predicate. */
module DdlScan {
  import opened Text
  import opened DdlText

  // ---------- Go source, lexically ----------

  /** A character of an interpreted string or rune literal, as written. */
  datatype Unit = Plain(c: char) | Escaped(c: char)

  /** The elements of Go source that matter here, and what may stand in their place in source that is
      not Go: a quoted literal that its line breaks off, and elements that are open at the end of the
      source. Other is any other character. */
  datatype Token =
    | LineComment(text: string, ended: bool)   // ended by a newline, or by the end of the source
    | BlockComment(text: string)
    | Interpreted(units: seq<Unit>)
    | Rune(units: seq<Unit>)
    | Raw(text: string)
    | Broken(quote: char, units: seq<Unit>)
    | OpenQuoted(quote: char, units: seq<Unit>, slash: bool)  // slash: a backslash is the last character
    | OpenBlock(text: string)
    | OpenRaw(text: string)
    | Other(c: char)

  function Units(units: seq<Unit>): string {
    if |units| == 0 then ""
    else (if units[0].Plain? then [units[0].c] else ['\\', units[0].c]) + Units(units[1..])
  }

  function Written(t: Token): string {
    match t
    case LineComment(text, ended) => "//" + text + if ended then "\n" else ""
    case BlockComment(text) => "/*" + text + "*/"
    case Interpreted(units) => "\"" + Units(units) + "\""
    case Rune(units) => "'" + Units(units) + "'"
    case Raw(text) => "`" + text + "`"
    case Broken(quote, units) => [quote] + Units(units) + "\n"
    case OpenQuoted(quote, units, slash) => [quote] + Units(units) + if slash then "\\" else ""
    case OpenBlock(text) => "/*" + text
    case OpenRaw(text) => "`" + text
    case Other(c) => [c]
  }

  function Print(tokens: seq<Token>): string {
    if |tokens| == 0 then "" else Written(tokens[0]) + Print(tokens[1..])
  }

  predicate QuotedBy(units: seq<Unit>, quote: char) {
    forall u <- units :: u.Plain? ==> u.c != quote && u.c != '\\' && u.c != '\n'
  }

  /** The token followed by the source rest. */
  predicate WellFormed(t: Token, rest: string) {
    match t
    case LineComment(text, ended) => '\n' !in text && (!ended ==> rest == "")
    case BlockComment(text) => forall i :: 0 <= i < |text| ==> !OccursAt(text, "*/", i)
    case Interpreted(units) => QuotedBy(units, '"')
    case Rune(units) => QuotedBy(units, '\'')
    case Raw(text) => '`' !in text
    case Broken(quote, units) => (quote == '"' || quote == '\'') && QuotedBy(units, quote)
    case OpenQuoted(quote, units, slash) => (quote == '"' || quote == '\'') && QuotedBy(units, quote) && rest == ""
    case OpenBlock(text) => rest == "" && forall i :: 0 <= i < |text| ==> !OccursAt(text, "*/", i)
    case OpenRaw(text) => rest == "" && '`' !in text
    case Other(c) =>
      && c != '"' && c != '\'' && c != '`'
      && (c == '/' ==> rest == "" || (rest[0] != '/' && rest[0] != '*'))
  }

  predicate AllWellFormed(tokens: seq<Token>) {
    |tokens| == 0 || (WellFormed(tokens[0], Print(tokens[1..])) && AllWellFormed(tokens[1..]))
  }

  /** The bodies of the raw string literals, in order. */
  function RawBodies(tokens: seq<Token>): seq<string> {
    if |tokens| == 0 then [] else (if tokens[0].Raw? then [tokens[0].text] else []) + RawBodies(tokens[1..])
  }

  // ---------- the scan as a function ----------

  /** Where a literal's skip from j stops: at the quote, a newline, or the end. */
  function QuoteEnd(s: string, j: nat, quote: char): (k: nat)
    ensures k >= j
    decreases |s| - j
  {
    if j >= |s| then j
    else if s[j] == '\\' && j + 1 < |s| then QuoteEnd(s, j + 2, quote)
    else if s[j] == quote || s[j] == '\n' then j
    else QuoteEnd(s, j + 1, quote)
  }

  predicate Starts(s: string, i: nat, c: char, d: char) { i + 1 < |s| && s[i] == c && s[i + 1] == d }

  /** Where the scanner goes from i; always forward. */
  function Next(s: string, i: nat): (k: nat)
    requires i < |s|
    ensures k > i
  {
    if Starts(s, i, '/', '/') then var nl := IndexFrom(s, i, "\n"); if nl >= 0 then nl + 1 else |s|
    else if Starts(s, i, '/', '*') then var end := IndexFrom(s, i + 2, "*/"); if end >= 0 then end + 2 else |s|
    else if s[i] == '"' || s[i] == '\'' then QuoteEnd(s, i + 1, s[i]) + 1
    else if s[i] == '`' then var end := IndexFrom(s, i + 1, "`"); if end >= 0 then end + 1 else |s|
    else i + 1
  }

  /** The raw literal the scanner examines at i, if any. */
  function Literal(s: string, i: nat): seq<string>
    requires i < |s|
  {
    var end := IndexFrom(s, i + 1, "`");
    if s[i] == '`' && end >= 0 then [s[i + 1..end]] else []
  }

  function Scan(s: string, i: nat): seq<string>
    decreases |s| - i
  {
    if i >= |s| then [] else Literal(s, i) + Scan(s, Next(s, i))
  }

  // ---------- it finds exactly the raw literals ----------

  /** The end of a run of text without c that c ends. */
  lemma {:induction false} IndexOfChar(pre: string, text: string, c: char, rest: string, i: nat)
    requires c !in text && |pre| >= i && forall j :: i <= j < |pre| ==> pre[j] != c
    ensures IndexFrom(pre + text + [c] + rest, i, [c]) == |pre| + |text|
  {
    var s := pre + text + [c] + rest;
    var k := |pre| + |text|;
    forall j { OneChar(s, c, j); }
    assert s[k] == c;
    forall j | i <= j < k ensures s[j] != c {
      if j >= |pre| { assert s[j] == text[j - |pre|]; }
    }
    IndexOf(s, i, [c], k);
  }

  lemma {:induction false} IndexOfBlockEnd(pre: string, text: string, rest: string)
    requires forall i :: 0 <= i < |text| ==> !OccursAt(text, "*/", i)
    ensures IndexFrom(pre + text + "*/" + rest, |pre|, "*/") == |pre| + |text|
  {
    hide OccursAt;
    var s := pre + text + "*/" + rest;
    var k := |pre| + |text|;
    assert s[k] == '*' && s[k + 1] == '/' && "*/" == ['*', '/'];
    TwoChars(s, '*', '/', k);
    forall j | |pre| <= j < k ensures !OccursAt(s, "*/", j) {
      var i := j - |pre|;
      TwoChars(s, '*', '/', j);
      TwoChars(text, '*', '/', i);
      assert s[j] == text[i];
      if i + 1 < |text| { assert s[j + 1] == text[i + 1]; }
    }
    IndexOf(s, |pre|, "*/", k);
  }

  /** The skip over a literal stops behind its units, where the quote, the end of the line or the end
      of the source comes. */
  lemma {:induction false} QuoteEndOf(pre: string, units: seq<Unit>, quote: char, rest: string)
    requires QuotedBy(units, quote) && quote != '\\' && (rest == "" || rest[0] == quote || rest[0] == '\n')
    ensures QuoteEnd(pre + Units(units) + rest, |pre|, quote) == |pre| + |Units(units)|
    decreases |units|
  {
    var s := pre + Units(units) + rest;
    if |units| == 0 {
      assert rest != "" ==> s[|pre|] == rest[0];
    } else {
      var u := units[0];
      var w := if u.Plain? then [u.c] else ['\\', u.c];
      assert s == (pre + w) + Units(units[1..]) + rest;
      assert s[|pre|] == w[0];
      if u.Escaped? { assert s[|pre| + 1] == u.c; }
      QuoteEndOf(pre + w, units[1..], quote, rest);
    }
  }

  lemma {:induction false} QuoteEndOpen(pre: string, units: seq<Unit>, quote: char)
    requires QuotedBy(units, quote) && quote != '\\'
    ensures QuoteEnd(pre + Units(units) + "\\", |pre|, quote) == |pre| + |Units(units)| + 1
    decreases |units|
  {
    var s := pre + Units(units) + "\\";
    if |units| == 0 {
      assert s[|pre|] == '\\' && |s| == |pre| + 1;
    } else {
      var u := units[0];
      var w := if u.Plain? then [u.c] else ['\\', u.c];
      assert s == (pre + w) + Units(units[1..]) + "\\";
      assert s[|pre|] == w[0];
      if u.Escaped? { assert s[|pre| + 1] == u.c; }
      QuoteEndOpen(pre + w, units[1..], quote);
    }
  }

  /** From i the scanner goes to k, or past the end when k is the end, and examines lit. */
  ghost predicate Goes(s: string, i: nat, k: nat, lit: seq<string>) {
    i < |s| && (Next(s, i) == k || (Next(s, i) >= |s| == k)) && Literal(s, i) == lit
  }

  lemma {:induction false} OverEndedComment(pre: string, text: string, rest: string)
    requires '\n' !in text
    ensures Goes(pre + Written(LineComment(text, true)) + rest, |pre|, |pre| + |text| + 3, [])
  {
    hide IndexFrom;
    var s := (pre + "//") + text + ['\n'] + rest;
    assert s == pre + Written(LineComment(text, true)) + rest;
    assert s[|pre|] == '/' && s[|pre| + 1] == '/';
    IndexOfChar(pre + "//", text, '\n', rest, |pre|);
  }

  lemma {:induction false} OverOpenComment(pre: string, text: string)
    requires '\n' !in text
    ensures Goes(pre + Written(LineComment(text, false)) + "", |pre|, |pre| + |text| + 2, [])
  {
    hide IndexFrom;
    var s := pre + "//" + text;
    assert s == pre + Written(LineComment(text, false)) + "";
    assert s[|pre|] == '/' && s[|pre| + 1] == '/';
    forall j | |pre| <= j ensures !OccursAt(s, "\n", j) {
      OneChar(s, '\n', j);
      if |pre| + 2 <= j < |s| { assert s[j] == text[j - |pre| - 2]; }
    }
  }

  lemma {:induction false} OverBlockComment(pre: string, text: string, rest: string)
    requires forall i :: 0 <= i < |text| ==> !OccursAt(text, "*/", i)
    ensures Goes(pre + Written(BlockComment(text)) + rest, |pre|, |pre| + |text| + 4, [])
  {
    hide IndexFrom;
    var s := (pre + "/*") + text + "*/" + rest;
    assert s == pre + Written(BlockComment(text)) + rest;
    assert s[|pre|] == '/' && s[|pre| + 1] == '*';
    IndexOfBlockEnd(pre + "/*", text, rest);
  }

  lemma {:induction false} OverQuoted(pre: string, units: seq<Unit>, quote: char, end: char, rest: string)
    requires QuotedBy(units, quote) && (quote == '"' || quote == '\'') && (end == quote || end == '\n')
    ensures Goes(pre + ([quote] + Units(units) + [end]) + rest, |pre|, |pre| + |Units(units)| + 2, [])
  {
    hide IndexFrom, Units, QuoteEnd;
    var s := (pre + [quote]) + Units(units) + ([end] + rest);
    assert s == pre + ([quote] + Units(units) + [end]) + rest;
    assert s[|pre|] == quote;
    QuoteEndOf(pre + [quote], units, quote, [end] + rest);
  }

  lemma {:induction false} OverOpenQuoted(pre: string, units: seq<Unit>, quote: char, slash: bool)
    requires QuotedBy(units, quote) && (quote == '"' || quote == '\'')
    ensures var w := Written(OpenQuoted(quote, units, slash)); Goes(pre + w + "", |pre|, |pre| + |w|, [])
  {
    hide IndexFrom, Units, QuoteEnd;
    var w := Written(OpenQuoted(quote, units, slash));
    var s := (pre + [quote]) + Units(units) + if slash then "\\" else "";
    assert s == pre + w + "";
    assert s[|pre|] == quote;
    if slash { QuoteEndOpen(pre + [quote], units, quote); } else { QuoteEndOf(pre + [quote], units, quote, ""); }
  }

  lemma {:induction false} OverOpenBlock(pre: string, text: string)
    requires forall i :: 0 <= i < |text| ==> !OccursAt(text, "*/", i)
    ensures Goes(pre + Written(OpenBlock(text)) + "", |pre|, |pre| + |text| + 2, [])
  {
    hide IndexFrom, OccursAt;
    var s := pre + "/*" + text;
    assert s == pre + Written(OpenBlock(text)) + "";
    assert s[|pre|] == '/' && s[|pre| + 1] == '*' && "*/" == ['*', '/'];
    forall j | |pre| + 2 <= j ensures !OccursAt(s, "*/", j) {
      TwoChars(s, '*', '/', j);
      var i := j - |pre| - 2;
      TwoChars(text, '*', '/', i);
      if j + 1 < |s| { assert s[j] == text[i] && s[j + 1] == text[i + 1]; }
    }
  }

  lemma {:induction false} OverOpenRaw(pre: string, text: string)
    requires '`' !in text
    ensures Goes(pre + Written(OpenRaw(text)) + "", |pre|, |pre| + |text| + 1, [])
  {
    hide IndexFrom;
    var s := pre + "`" + text;
    assert s == pre + Written(OpenRaw(text)) + "";
    assert s[|pre|] == '`';
    forall j | |pre| + 1 <= j ensures !OccursAt(s, "`", j) {
      OneChar(s, '`', j);
      if j < |s| { assert s[j] == text[j - |pre| - 1]; }
    }
  }

  lemma {:induction false} OverRaw(pre: string, text: string, rest: string)
    requires '`' !in text
    ensures Goes(pre + Written(Raw(text)) + rest, |pre|, |pre| + |text| + 2, [text])
  {
    hide IndexFrom;
    var s := (pre + "`") + text + ['`'] + rest;
    assert s == pre + Written(Raw(text)) + rest;
    assert s[|pre|] == '`';
    IndexOfChar(pre + "`", text, '`', rest, |pre| + 1);
    assert s[|pre| + 1..|pre| + 1 + |text|] == text;
  }

  lemma {:induction false} OverOther(pre: string, c: char, rest: string)
    requires WellFormed(Other(c), rest)
    ensures Goes(pre + [c] + rest, |pre|, |pre| + 1, [])
  {
    hide IndexFrom;
    var s := pre + [c] + rest;
    assert s[|pre|] == c;
    if rest != "" { assert s[|pre| + 1] == rest[0]; }
  }

  /** From the start of a token the scanner goes to its end, examining just a raw literal's body. */
  lemma {:induction false} OneToken(pre: string, t: Token, rest: string)
    requires WellFormed(t, rest)
    ensures Goes(pre + Written(t) + rest, |pre|, |pre| + |Written(t)|, if t.Raw? then [t.text] else [])
  {
    hide Goes, Units, QuotedBy, OccursAt;
    match t
    case LineComment(text, ended) =>
      if ended { OverEndedComment(pre, text, rest); } else { OverOpenComment(pre, text); }
    case BlockComment(text) => OverBlockComment(pre, text, rest);
    case Interpreted(units) => OverQuoted(pre, units, '"', '"', rest);
    case Rune(units) => OverQuoted(pre, units, '\'', '\'', rest);
    case Raw(text) => OverRaw(pre, text, rest);
    case Broken(quote, units) => OverQuoted(pre, units, quote, '\n', rest);
    case OpenQuoted(quote, units, slash) => OverOpenQuoted(pre, units, quote, slash);
    case OpenBlock(text) => OverOpenBlock(pre, text);
    case OpenRaw(text) => OverOpenRaw(pre, text);
    case Other(c) => OverOther(pre, c, rest);
  }

  lemma {:induction false} ScanGoes(s: string, i: nat, k: nat, lit: seq<string>)
    requires Goes(s, i, k, lit)
    ensures Scan(s, i) == lit + Scan(s, k)
  {
  }

  lemma {:induction false} ScanFromToken(pre: string, tokens: seq<Token>)
    requires AllWellFormed(tokens)
    ensures Scan(pre + Print(tokens), |pre|) == RawBodies(tokens)
    decreases |tokens|
  {
    hide Goes, Scan, Written;
    if |tokens| == 0 {
      ScanEnd(pre + Print(tokens), |pre|);
    } else {
      var w, rest := Written(tokens[0]), Print(tokens[1..]);
      OneToken(pre, tokens[0], rest);
      ScanGoes(pre + w + rest, |pre|, |pre| + |w|, if tokens[0].Raw? then [tokens[0].text] else []);
      assert pre + Print(tokens) == pre + w + rest;
      ScanFromToken(pre + w, tokens[1..]);
    }
  }

  lemma {:induction false} ScanEnd(s: string, i: nat)
    requires i >= |s|
    ensures Scan(s, i) == []
  {
  }

  // ---------- every source is made of such elements ----------

  /** s up to its first c, if it has one. */
  lemma {:induction false} CutAt(s: string, c: char) returns (text: string, found: bool, rest: string)
    ensures c !in text && s == text + (if found then [c] else "") + rest && (!found ==> rest == "")
  {
    if s == "" {
      text, found, rest := "", false, "";
    } else if s[0] == c {
      text, found, rest := "", true, s[1..];
    } else {
      text, found, rest := CutAt(s[1..], c);
      text := [s[0]] + text;
    }
  }

  /** s as a literal's units, up to the quote, the end of the line or the end of the source. */
  lemma {:induction false} UnitsTo(s: string, quote: char) returns (units: seq<Unit>, slash: bool, rest: string)
    ensures s == Units(units) + (if slash then "\\" else "") + rest && QuotedBy(units, quote)
    ensures (slash ==> rest == "") && (rest == "" || rest[0] == quote || rest[0] == '\n')
    decreases |s|
  {
    if s == "" || s == "\\" {
      units, slash, rest := [], s == "\\", "";
    } else if s[0] == '\\' {
      units, slash, rest := UnitsTo(s[2..], quote);
      UnitsNext(s, Escaped(s[1]), s[2..], units, slash, rest, quote);
      units := [Escaped(s[1])] + units;
    } else if s[0] == quote || s[0] == '\n' {
      units, slash, rest := [], false, s;
    } else {
      units, slash, rest := UnitsTo(s[1..], quote);
      UnitsNext(s, Plain(s[0]), s[1..], units, slash, rest, quote);
      units := [Plain(s[0])] + units;
    }
  }

  lemma {:induction false} UnitsNext(s: string, u: Unit, tail: string, units: seq<Unit>, slash: bool, rest: string,
      quote: char)
    requires s == (if u.Plain? then [u.c] else ['\\', u.c]) + tail
    requires tail == Units(units) + (if slash then "\\" else "") + rest && QuotedBy(units, quote)
    requires u.Plain? ==> u.c != quote && u.c != '\\' && u.c != '\n'
    ensures s == Units([u] + units) + (if slash then "\\" else "") + rest && QuotedBy([u] + units, quote)
  {
    assert ([u] + units)[1..] == units;
    var w := if u.Plain? then [u.c] else ['\\', u.c];
    var a, b := Units(units), (if slash then "\\" else "") + rest;
    assert Units([u] + units) == w + a;
    hide Units;
    assert tail == a + b && w + (a + b) == w + a + b;
    assert w + a + b == w + a + (if slash then "\\" else "") + rest;
  }

  lemma {:induction false} FirstToken(s: string) returns (t: Token, rest: string)
    requires s != ""
    ensures WellFormed(t, rest) && s == Written(t) + rest && |rest| < |s|
  {
    hide Units, QuotedBy, IndexFrom, OccursAt;
    if s[0] == '"' || s[0] == '\'' {
      t, rest := FirstQuoted(s);
    } else if s[0] == '`' {
      var text, found;
      text, found, rest := CutAt(s[1..], '`');
      assert s == ['`'] + s[1..];
      t := if found then Raw(text) else OpenRaw(text);
    } else if |s| > 1 && s[0] == '/' && s[1] == '/' {
      var text, found;
      text, found, rest := CutAt(s[2..], '\n');
      assert s == "//" + s[2..];
      t := LineComment(text, found);
    } else if |s| > 1 && s[0] == '/' && s[1] == '*' {
      t, rest := FirstBlock(s);
    } else {
      t, rest := Other(s[0]), s[1..];
    }
  }

  lemma {:induction false} FirstQuoted(s: string) returns (t: Token, rest: string)
    requires s != "" && (s[0] == '"' || s[0] == '\'')
    ensures WellFormed(t, rest) && s == Written(t) + rest && |rest| < |s|
  {
    hide QuotedBy;
    var units, slash, more := UnitsTo(s[1..], s[0]);
    hide Units;
    if more == "" {
      t, rest := OpenQuoted(s[0], units, slash), "";
      assert s == [s[0]] + s[1..];
      assert [s[0]] + (Units(units) + (if slash then "\\" else "") + "") == Written(t) + "";
    } else {
      rest := more[1..];
      t := if more[0] == '\n' then Broken(s[0], units) else if s[0] == '"' then Interpreted(units) else Rune(units);
      assert s[1..] == Units(units) + more;
      Quoted3(s, s[0], Units(units), more);
    }
  }

  lemma {:induction false} Quoted3(s: string, quote: char, text: string, more: string)
    requires s != "" && s[0] == quote && s[1..] == text + more && more != ""
    ensures s == [quote] + text + [more[0]] + more[1..] && |more| < |s|
  {
    assert s == [quote] + s[1..] && more == [more[0]] + more[1..];
    assert [quote] + (text + ([more[0]] + more[1..])) == [quote] + text + [more[0]] + more[1..];
  }

  lemma {:induction false} FirstBlock(s: string) returns (t: Token, rest: string)
    requires |s| > 1 && s[0] == '/' && s[1] == '*'
    ensures WellFormed(t, rest) && s == Written(t) + rest && |rest| < |s|
  {
    var k := IndexFrom(s, 2, "*/");
    hide IndexFrom;
    var n := if k == -1 then |s| else k;
    var text := s[2..n];
    assert s == "/*" + text + s[n..];
    hide OccursAt;
    forall i | 0 <= i < |text| ensures !OccursAt(text, "*/", i) {
      TwoChars(text, '*', '/', i);
      TwoChars(s, '*', '/', i + 2);
      if i + 1 < |text| { assert text[i] == s[i + 2] && text[i + 1] == s[i + 3] && "*/" == ['*', '/']; }
    }
    t, rest := if k == -1 then OpenBlock(text) else BlockComment(text), if k == -1 then "" else s[k + 2..];
    if k != -1 {
      TwoChars(s, '*', '/', k);
      assert s[k..] == "*/" + s[k + 2..] && "/*" + text + ("*/" + rest) == "/*" + text + "*/" + rest;
    }
  }

  /** Any text at all is a run of such elements. */
  lemma {:induction false} Tokens(s: string) returns (tokens: seq<Token>)
    ensures AllWellFormed(tokens) && Print(tokens) == s
    decreases |s|
  {
    hide Written, WellFormed;
    if s == "" {
      tokens := [];
    } else {
      var t, rest := FirstToken(s);
      var more := Tokens(rest);
      tokens := [t] + more;
      assert tokens[1..] == more;
    }
  }

  /** So on any source the scanner examines exactly the bodies of its raw string literals. */
  lemma {:induction false} EverySource(src: string) returns (tokens: seq<Token>)
    ensures AllWellFormed(tokens) && Print(tokens) == src && Scan(src, 0) == RawBodies(tokens)
  {
    tokens := Tokens(src);
    ScanFindsRawLiterals(tokens);
  }

  /** Scanning well-formed Go source examines exactly its raw string literals, in order: never
      one inside a comment or another literal, and none is missed. */
  lemma {:induction false} ScanFindsRawLiterals(tokens: seq<Token>)
    requires AllWellFormed(tokens)
    ensures Scan(Print(tokens), 0) == RawBodies(tokens)
  {
    ScanFromToken("", tokens);
    assert "" + Print(tokens) == Print(tokens);
  }

  // ---------- extractGoDDL ----------

  function DedentString(s: string): string { Join(Dedent(Split(s, '\n')), "\n") }

  /** The literals that hold DDL, dedented. */
  function Parts(literals: seq<string>, isDdl: string -> bool): seq<string> {
    if |literals| == 0 then []
    else
      var n := |literals| - 1;
      Parts(literals[..n], isDdl) + if isDdl(literals[n]) then [DedentString(literals[n])] else []
  }

  /** The lines of a dedented literal are its own lines, dedented. */
  lemma {:induction false} DedentStringLines(s: string)
    ensures Split(DedentString(s), '\n') == Dedent(Split(s, '\n'))
  {
    var lines := Split(s, '\n');
    SplitParts(s, '\n');
    hide Split, Join;
    forall p <- Dedent(lines) ensures '\n' !in p {
      var k :| 0 <= k < |lines| && Dedent(lines)[k] == p;
      assert '\n' !in lines[k];
    }
    SplitJoin(Dedent(lines), '\n');
  }

  /** Dedenting a literal again changes nothing. */
  lemma {:induction false} DedentStringTwice(s: string)
    ensures DedentString(DedentString(s)) == DedentString(s)
  {
    DedentStringLines(s);
    DedentTwice(Split(s, '\n'));
    hide Split, Join, Dedent;
  }

  /** A part comes from a literal that holds DDL, and each such literal gives its part, in order. */
  lemma {:induction false} PartsExactly(a: seq<string>, l: string, b: seq<string>, isDdl: string -> bool)
    ensures Parts(a + [l] + b, isDdl)
         == Parts(a, isDdl) + (if isDdl(l) then [Join(Dedent(Split(l, '\n')), "\n")] else []) + Parts(b, isDdl)
  {
    hide Split, Join, Dedent;
    if |b| == 0 {
      assert a + [l] + b == a + [l] && (a + [l])[..|a|] == a;
    } else {
      var n := |b| - 1;
      PartsExactly(a, l, b[..n], isDdl);
      assert (a + [l] + b)[..|a| + 1 + n] == a + [l] + b[..n];
    }
  }

  method ExtractGoDDL(src: string, isDdl: string -> bool) returns (ddl: string)
    ensures ddl == Join(Parts(Scan(src, 0), isDdl), "\n\n")
  {
    var parts: seq<string> := [];
    ghost var seen: seq<string> := [];
    var i := 0;
    assert seen + Scan(src, 0) == Scan(src, 0) && Parts(seen, isDdl) == [];
    hide IndexFrom, QuoteEnd, Scan, Parts, Split, Join, Dedent, OccursAt;
    while i < |src|
      invariant Scan(src, 0) == seen + Scan(src, i) && parts == Parts(seen, isDdl)
      decreases |src| - i
    {
      var c := src[i];
      ghost var from := i;
      if c == '/' && i + 1 < |src| && src[i + 1] == '/' {
        var nl := IndexFrom(src, i, "\n");
        i := if nl >= 0 then nl + 1 else |src|;
      } else if c == '/' && i + 1 < |src| && src[i + 1] == '*' {
        var end := IndexFrom(src, i + 2, "*/");
        i := if end >= 0 then end + 2 else |src|;
      } else if c == '"' {
        var j := SkipQuoted(src, i + 1, '"');
        i := j + 1;
      } else if c == '\'' {
        var j := SkipQuoted(src, i + 1, '\'');
        i := j + 1;
      } else if c == '`' {
        var end := IndexFrom(src, i + 1, "`");
        if end < 0 {
          i := |src|;
        } else {
          var literal := src[i + 1..end];
          if isDdl(literal) {
            var lines := DedentLines(Split(literal, '\n'));
            parts := parts + [Join(lines, "\n")];
          }
          i := end + 1;
        }
      } else {
        i := i + 1;
      }
      assert i == Next(src, from);
      ScanNext(src, from, seen);
      if Literal(src, from) == [] {
        assert seen + [] == seen;
      } else {
        PartsNext(seen, Literal(src, from)[0], isDdl);
      }
      seen := seen + Literal(src, from);
    }
    ScanEnd(src, i);
    assert seen + [] == seen;
    JoinNone();
    ddl := if |parts| == 0 then "" else Join(parts, "\n\n");
  }

  lemma {:induction false} JoinNone()
    ensures Join([], "\n\n") == ""
  {
  }

  lemma {:induction false} ScanNext(src: string, i: nat, seen: seq<string>)
    requires i < |src|
    ensures seen + Scan(src, i) == seen + Literal(src, i) + Scan(src, Next(src, i))
  {
    hide Literal, Next;
    assert seen + (Literal(src, i) + Scan(src, Next(src, i))) == seen + Literal(src, i) + Scan(src, Next(src, i));
  }

  lemma {:induction false} PartsNext(seen: seq<string>, l: string, isDdl: string -> bool)
    ensures Parts(seen + [l], isDdl) == Parts(seen, isDdl) + if isDdl(l) then [DedentString(l)] else []
  {
    assert (seen + [l])[..|seen|] == seen;
  }

  /** The skip over a literal, honouring backslash escapes. */
  method SkipQuoted(src: string, from: nat, quote: char) returns (j: nat)
    ensures j == QuoteEnd(src, from, quote)
  {
    j := from;
    while j < |src|
      invariant QuoteEnd(src, j, quote) == QuoteEnd(src, from, quote)
      decreases |src| - j
    {
      if src[j] == '\\' && j + 1 < |src| {
        j := j + 2;
        continue;
      }
      if src[j] == quote || src[j] == '\n' {
        break;
      }
      j := j + 1;
    }
  }
}
