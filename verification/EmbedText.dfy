/** The text a symbol is embedded as: cmd/embedtext.go. Its callers and its package's
    narrative are folded in, so it moves when other files do. */
module EmbedText {
  import opened Ordering
  import opened SymbolIds
  import opened Text
  import opened BatchResults

  datatype Kind = Func | Method | Type | Interface | Struct | Var | Const | Field
  datatype Symbol = Symbol(id: Id, name: string, kind: Kind, filePath: string, pkgPath: string, signature: string,
      doc: string)
  datatype Edge = Edge(caller: Id, callee: Id)
  datatype PackageDoc = PackageDoc(pkgPath: string, doc: string)

  /** embedContext; a key that is absent reads as "" or as no callers. */
  datatype EmbedContext = EmbedContext(narrative: map<string, string>, callers: map<Id, seq<string>>)

  const MAX_CALLERS: nat := 3

  function Lookup<K>(m: map<K, string>, key: K): string { if key in m then m[key] else "" }
  function Listed(m: map<Id, seq<string>>, key: Id): seq<string> { if key in m then m[key] else [] }

  // ---------- what the context should be ----------

  /** The symbols by ID, the last copy of an ID winning. */
  function ById(symbols: seq<Symbol>): map<Id, Symbol> {
    if |symbols| == 0 then map[]
    else ById(symbols[..|symbols| - 1])[symbols[|symbols| - 1].id := symbols[|symbols| - 1]]
  }

  /** The first sentence of each package's doc; a doc without one leaves an earlier one standing. */
  function Narratives(docs: seq<PackageDoc>, first: string -> string): map<string, string> {
    if |docs| == 0 then map[]
    else
      var m := Narratives(docs[..|docs| - 1], first);
      var d := docs[|docs| - 1];
      if first(d.doc) != "" then m[d.pkgPath := first(d.doc)] else m
  }

  /** The edge shows how callee is used: its caller is another, known, named, non-test symbol. */
  predicate Uses(byId: map<Id, Symbol>, e: Edge, callee: Id) {
    && e.callee == callee && e.caller != callee && e.caller in byId
    && byId[e.caller].name != "" && !HasSuffix(byId[e.caller].filePath, "_test.go")
  }

  ghost function CallerNames(byId: map<Id, Symbol>, edges: set<Edge>, callee: Id): set<string> {
    set e | e in edges && Uses(byId, e, callee) :: byId[e.caller].name
  }

  /** list is the n least of names, ascending. */
  ghost predicate IsLeast(list: seq<string>, names: set<string>, n: nat) {
    && Ascending(list)
    && Elements(list) <= names
    && |list| == (if n < |names| then n else |names|)
    && forall x, y :: x in list && y in names && y !in list ==> StrLess(x, y)
  }

  ghost predicate IsContext(ec: EmbedContext, byId: map<Id, Symbol>, edges: set<Edge>, narrative: map<string, string>) {
    && ec.narrative == narrative
    && forall id :: IsLeast(Listed(ec.callers, id), CallerNames(byId, edges, id), MAX_CALLERS)
  }

  // ---------- that it leaves no choice ----------

  lemma {:induction false} LeastUnique(a: seq<string>, b: seq<string>, names: set<string>, n: nat)
    requires IsLeast(a, names, n) && IsLeast(b, names, n)
    ensures a == b
  {
    LeastIncluded(a, b, names, n);
    LeastIncluded(b, a, names, n);
    AscendingUnique(a, b);
  }

  lemma {:induction false} LeastIncluded(a: seq<string>, b: seq<string>, names: set<string>, n: nat)
    requires IsLeast(a, names, n) && IsLeast(b, names, n)
    ensures Elements(a) <= Elements(b)
  {
    if x :| x in Elements(a) && x !in Elements(b) {
      AscendingDistinct(a);
      AscendingDistinct(b);
      DistinctCount(a);
      DistinctCount(b);
      if Elements(b) <= Elements(a) { SmallerCount(Elements(b), Elements(a), x); }
      var y :| y in Elements(b) && y !in Elements(a);
      StrLessTotal(x, y);
    }
  }

  /** Sorting distinct names and keeping the first n gives the n least. */
  lemma {:induction false} LeastBySorting(names: seq<string>, n: nat)
    requires Distinct(names)
    ensures var sorted := Sort(names, StrLess);
            IsLeast(if |sorted| > n then sorted[..n] else sorted, Elements(names), n)
  {
    var sorted := Sort(names, StrLess);
    var list := if |sorted| > n then sorted[..n] else sorted;
    SortAscending(names);
    MultisetDistinct(names, sorted);
    DistinctCount(names);
    forall x, y | x in list && y in Elements(names) && y !in list ensures StrLess(x, y) {
      var i := PlaceOf(sorted, |list|, x);
      var j := PlaceOf(sorted, |list|, y);
      assert list == sorted[..|list|];
      StrLessTotal(x, y);
    }
  }

  // ---------- buildEmbedContext ----------

  /** The caller lists gathered so far: each callee's distinct caller names in some order. */
  ghost predicate Gathered(callers: map<Id, seq<string>>, seen: map<Id, set<string>>, byId: map<Id, Symbol>,
      edges: set<Edge>)
  {
    && callers.Keys == seen.Keys
    && (forall id <- callers :: Distinct(callers[id]) && Elements(callers[id]) == seen[id])
    && forall id :: CallerNames(byId, edges, id) == if id in seen then seen[id] else {}
  }

  lemma {:induction false} OneMoreEdge(byId: map<Id, Symbol>, edges: set<Edge>, e: Edge, callee: Id)
    ensures CallerNames(byId, edges + {e}, callee)
         == CallerNames(byId, edges, callee) + if Uses(byId, e, callee) then {byId[e.caller].name} else {}
  {
    var more := CallerNames(byId, edges + {e}, callee);
    forall x
      ensures x in more <==>
                x in CallerNames(byId, edges, callee) || (Uses(byId, e, callee) && x == byId[e.caller].name)
    {
      if Uses(byId, e, callee) && x == byId[e.caller].name { assert e in edges + {e}; }
      if x in CallerNames(byId, edges, callee) {
        var f :| f in edges && Uses(byId, f, callee) && x == byId[f.caller].name;
        assert f in edges + {e};
      }
    }
  }

  /** What each edge adds: nothing when it shows no use or the name is there, else one name. */
  lemma {:induction false} GatherSame(callers: map<Id, seq<string>>, seen: map<Id, set<string>>, byId: map<Id, Symbol>,
      edges: set<Edge>, e: Edge)
    requires Gathered(callers, seen, byId, edges)
    requires Uses(byId, e, e.callee) ==> e.callee in seen && byId[e.caller].name in seen[e.callee]
    ensures Gathered(callers, seen, byId, edges + {e})
  {
    forall id ensures CallerNames(byId, edges + {e}, id) == CallerNames(byId, edges, id) {
      OneMoreEdge(byId, edges, e, id);
      OtherCallee(byId, e, id);
    }
  }

  lemma {:induction false} GatherMore(callers: map<Id, seq<string>>, seen: map<Id, set<string>>, byId: map<Id, Symbol>,
      edges: set<Edge>, e: Edge, name: string)
    requires Gathered(callers, seen, byId, edges)
    requires Uses(byId, e, e.callee) && name == byId[e.caller].name && !(e.callee in seen && name in seen[e.callee])
    ensures Gathered(callers[e.callee := Listed(callers, e.callee) + [name]],
                     seen[e.callee := (if e.callee in seen then seen[e.callee] else {}) + {name}], byId, edges + {e})
  {
    var list := Listed(callers, e.callee);
    forall id
      ensures CallerNames(byId, edges + {e}, id) == CallerNames(byId, edges, id) + if id == e.callee then {name} else {}
    {
      OneMoreEdge(byId, edges, e, id);
      OtherCallee(byId, e, id);
    }
    hide CallerNames, Uses;
    assert Elements(list + [name]) == Elements(list) + {name};
    assert Distinct(list + [name]);
  }

  lemma {:induction false} OtherCallee(byId: map<Id, Symbol>, e: Edge, id: Id)
    ensures Uses(byId, e, id) ==> id == e.callee
    ensures id == e.callee ==> Uses(byId, e, id) == Uses(byId, e, e.callee)
  {
  }

  method BuildEmbedContext(symbols: seq<Symbol>, edges: seq<Edge>, docs: seq<PackageDoc>, first: string -> string)
    returns (ec: EmbedContext)
    ensures IsContext(ec, ById(symbols), Elements(edges), Narratives(docs, first))
  {
    var narrative: map<string, string> := map[];
    for i := 0 to |docs|
      invariant narrative == Narratives(docs[..i], first)
    {
      assert docs[..i + 1][..i] == docs[..i];
      var s := first(docs[i].doc);
      if s != "" {
        narrative := narrative[docs[i].pkgPath := s];
      }
    }
    var byId: map<Id, Symbol> := map[];
    for i := 0 to |symbols|
      invariant byId == ById(symbols[..i])
    {
      assert symbols[..i + 1][..i] == symbols[..i];
      byId := byId[symbols[i].id := symbols[i]];
    }
    assert docs[..|docs|] == docs && symbols[..|symbols|] == symbols;
    var callers := CallerLists(byId, edges);
    ec := EmbedContext(narrative, callers);
  }

  method CallerLists(byId: map<Id, Symbol>, edges: seq<Edge>) returns (callers: map<Id, seq<string>>)
    ensures forall id :: IsLeast(Listed(callers, id), CallerNames(byId, Elements(edges), id), MAX_CALLERS)
  {
    var seen: map<Id, set<string>> := map[];
    callers := map[];
    for i := 0 to |edges|
      invariant Gathered(callers, seen, byId, Elements(edges[..i]))
    {
      var e := edges[i];
      PrefixElements(edges, i);
      if e.caller == e.callee {
        GatherSame(callers, seen, byId, Elements(edges[..i]), e);
        continue;
      }
      if e.caller !in byId || byId[e.caller].name == "" || HasSuffix(byId[e.caller].filePath, "_test.go") {
        GatherSame(callers, seen, byId, Elements(edges[..i]), e);
        continue;
      }
      var name := byId[e.caller].name;
      ghost var was := seen;
      if e.callee !in seen {
        seen := seen[e.callee := {}];
      }
      if name in seen[e.callee] {
        GatherSame(callers, was, byId, Elements(edges[..i]), e);
        continue;
      }
      GatherMore(callers, was, byId, Elements(edges[..i]), e, name);
      seen := seen[e.callee := seen[e.callee] + {name}];
      callers := callers[e.callee := Listed(callers, e.callee) + [name]];
    }
    PrefixElements(edges, |edges|);
    callers := SortAndCap(callers, seen, byId, Elements(edges));
  }

  /** The closing loop: every list sorted and cut, in whatever order the map yields its keys. */
  method SortAndCap(gathered: map<Id, seq<string>>, ghost seen: map<Id, set<string>>, ghost byId: map<Id, Symbol>,
      ghost edges: set<Edge>)
    returns (callers: map<Id, seq<string>>)
    requires Gathered(gathered, seen, byId, edges)
    ensures forall id :: IsLeast(Listed(callers, id), CallerNames(byId, edges, id), MAX_CALLERS)
  {
    hide IsLeast;
    callers := gathered;
    var left := gathered.Keys;
    while left != {}
      invariant left <= gathered.Keys == callers.Keys
      invariant forall id <- left :: callers[id] == gathered[id]
      invariant forall id <- gathered :: id !in left ==> IsLeast(callers[id], seen[id], MAX_CALLERS)
    {
      var id :| id in left;
      LeastBySorting(gathered[id], MAX_CALLERS);
      callers := callers[id := Sort(callers[id], StrLess)];
      if |callers[id]| > MAX_CALLERS {
        callers := callers[id := callers[id][..MAX_CALLERS]];
      }
      left := left - {id};
    }
    NoneLeast();
  }

  lemma {:induction false} NoneLeast()
    ensures IsLeast([], {}, MAX_CALLERS)
  {
  }

  /** Of the least three names one is shown only for a call from another symbol, known and named, outside
      the tests; with such a call there is one, and with fewer than three every one is shown. */
  lemma {:induction false} ShownExactly(callers: seq<string>, byId: map<Id, Symbol>, edges: set<Edge>, id: Id,
      name: string)
    requires IsLeast(callers, CallerNames(byId, edges, id), MAX_CALLERS)
    ensures var calls := exists e :: e in edges && e.callee == id && e.caller != id && e.caller in byId
                           && byId[e.caller].name == name && name != ""
                           && !HasSuffix(byId[e.caller].filePath, "_test.go");
            && |callers| <= 3 && (name in callers ==> calls)
            && (calls ==> |callers| > 0 && (|callers| < 3 ==> name in callers))
  {
    var names := CallerNames(byId, edges, id);
    AscendingDistinct(callers);
    DistinctCount(callers);
    assert name in callers ==> name in Elements(callers);
    if name in names && name !in callers && |callers| < 3 { SmallerCount(Elements(callers), names, name); }
    assert name in names ==> |names| > 0;
    hide IsLeast, HasSuffix, Elements;
  }

  /** So it is with the lists of a context. */
  lemma {:induction false} ListedExactly(ec: EmbedContext, byId: map<Id, Symbol>, edges: set<Edge>,
      narrative: map<string, string>, id: Id, name: string)
    requires IsContext(ec, byId, edges, narrative)
    ensures var callers := Listed(ec.callers, id);
            var calls := exists e :: e in edges && e.callee == id && e.caller != id && e.caller in byId
                           && byId[e.caller].name == name && name != ""
                           && !HasSuffix(byId[e.caller].filePath, "_test.go");
            && |callers| <= 3 && (name in callers ==> calls)
            && (calls ==> |callers| > 0 && (|callers| < 3 ==> name in callers))
  {
    ShownExactly(Listed(ec.callers, id), byId, edges, id, name);
    hide IsLeast, HasSuffix, CallerNames;
  }

  /** Of two copies of a symbol the later one counts. */
  lemma {:induction false} ByIdLast(symbols: seq<Symbol>, k: nat)
    requires k < |symbols| && forall j :: k < j < |symbols| ==> symbols[j].id != symbols[k].id
    ensures symbols[k].id in ById(symbols) && ById(symbols)[symbols[k].id] == symbols[k]
  {
    var n := |symbols| - 1;
    if k < n { ByIdLast(symbols[..n], k); }
  }

  /** The narrative of a package is the last sentence found for it. */
  lemma {:induction false} NarrativeLast(docs: seq<PackageDoc>, first: string -> string, k: nat)
    requires k < |docs| && first(docs[k].doc) != ""
    requires forall j :: k < j < |docs| ==> docs[j].pkgPath != docs[k].pkgPath || first(docs[j].doc) == ""
    ensures docs[k].pkgPath in Narratives(docs, first)
    ensures Narratives(docs, first)[docs[k].pkgPath] == first(docs[k].doc)
  {
    var n := |docs| - 1;
    if k < n { NarrativeLast(docs[..n], first, k); }
  }

  // ---------- the text ----------

  /** The last two segments of a package path. */
  function ShortPkgPath(pkgPath: string): string {
    var parts := Split(pkgPath, '/');
    Join(if |parts| > 2 then parts[|parts| - 2..] else parts, "/")
  }

  lemma {:induction false} ShortPkgPathIsTail(pkgPath: string) returns (head: string)
    ensures pkgPath == head + ShortPkgPath(pkgPath) && (head == "" || HasSuffix(head, "/"))
    ensures |Split(ShortPkgPath(pkgPath), '/')| == if |Split(pkgPath, '/')| > 2 then 2 else |Split(pkgPath, '/')|
  {
    var parts := Split(pkgPath, '/');
    JoinSplit(pkgPath, '/');
    SplitParts(pkgPath, '/');
    if |parts| > 2 {
      var a, b := parts[..|parts| - 2], parts[|parts| - 2..];
      assert parts == a + b;
      JoinConcat(a, b, "/");
      SplitJoin(b, '/');
      head := Join(a, "/") + "/";
    } else {
      head := "";
    }
  }

  function EmbedTextOf(sym: Symbol, narrative: string, callers: seq<string>): string {
    sym.name
    + (if sym.signature != "" then " " + sym.signature else "")
    + (if sym.doc != "" then " " + sym.doc else "")
    + (if sym.pkgPath != "" then
         "\npackage " + ShortPkgPath(sym.pkgPath) + (if narrative != "" then ": " + narrative else "")
       else "")
    + (if |callers| > 0 then "\ncalled by: " + Join(callers, ", ") else "")
  }

  function ComposeEmbedText(sym: Symbol, ec: EmbedContext): string {
    EmbedTextOf(sym, Lookup(ec.narrative, sym.pkgPath), Listed(ec.callers, sym.id))
  }

  predicate Embeddable(sym: Symbol) {
    && (sym.kind.Func? || sym.kind.Method? || sym.kind.Type? || sym.kind.Interface? || sym.kind.Struct?)
    && (sym.signature != "" || sym.doc != "")
  }

  // ---------- what can be read off the text ----------

  /** It starts with the name, the signature and the doc, has the narrative after the package, and
      ends in the callers. */
  lemma {:induction false} TextShows(sym: Symbol, narrative: string, callers: seq<string>)
    ensures var text := EmbedTextOf(sym, narrative, callers);
            && sym.name <= text
            && (sym.signature != "" ==> sym.name + " " + sym.signature <= text)
            && (sym.signature != "" && sym.doc != "" ==> sym.name + " " + sym.signature + " " + sym.doc <= text)
            && (sym.signature == "" && sym.doc != "" ==> sym.name + " " + sym.doc <= text)
            && (sym.pkgPath != "" ==> Contains(text, "\npackage " + ShortPkgPath(sym.pkgPath)))
            && (sym.pkgPath != "" && narrative != "" ==>
                  Contains(text, "\npackage " + ShortPkgPath(sym.pkgPath) + ": " + narrative))
            && (callers != [] ==> HasSuffix(text, "\ncalled by: " + Join(callers, ", ")))
  {
    TextLines(sym, narrative, callers);
    var base, pkg, tail := Base(sym), PkgLine(sym, narrative), CallerLine(callers);
    BaseShows(sym, pkg + tail);
    assert base + pkg + tail == base + (pkg + tail);
    if sym.pkgPath != "" { PkgShows(Base(sym), sym, narrative, CallerLine(callers)); }
    hide EmbedTextOf, ShortPkgPath, Join, Base, PkgLine, Contains;
  }

  lemma {:induction false} BaseShows(sym: Symbol, rest: string)
    ensures var text := Base(sym) + rest;
            && sym.name <= text
            && (sym.signature != "" ==> sym.name + " " + sym.signature <= text)
            && (sym.signature != "" && sym.doc != "" ==> sym.name + " " + sym.signature + " " + sym.doc <= text)
            && (sym.signature == "" && sym.doc != "" ==> sym.name + " " + sym.doc <= text)
  {
  }

  lemma {:induction false} PkgShows(base: string, sym: Symbol, narrative: string, tail: string)
    requires sym.pkgPath != ""
    ensures var text := base + PkgLine(sym, narrative) + tail;
            && Contains(text, "\npackage " + ShortPkgPath(sym.pkgPath))
            && (narrative != "" ==> Contains(text, "\npackage " + ShortPkgPath(sym.pkgPath) + ": " + narrative))
  {
    hide ShortPkgPath, Contains;
    var line := "\npackage " + ShortPkgPath(sym.pkgPath);
    var rest := if narrative != "" then ": " + narrative else "";
    assert line + ": " + narrative == line + (": " + narrative);
    ContainsMiddle(base, line, rest + tail);
    ContainsMiddle(base, line + rest, tail);
    assert base + (line + rest) + tail == base + line + (rest + tail);
  }

  function Base(sym: Symbol): string {
    sym.name + (if sym.signature != "" then " " + sym.signature else "")
    + (if sym.doc != "" then " " + sym.doc else "")
  }

  function PkgLine(sym: Symbol, narrative: string): string {
    if sym.pkgPath == "" then ""
    else "\npackage " + ShortPkgPath(sym.pkgPath) + if narrative != "" then ": " + narrative else ""
  }

  function CallerLine(callers: seq<string>): string {
    if callers == [] then "" else "\ncalled by: " + Join(callers, ", ")
  }

  lemma {:induction false} TextLines(sym: Symbol, narrative: string, callers: seq<string>)
    ensures EmbedTextOf(sym, narrative, callers) == Base(sym) + PkgLine(sym, narrative) + CallerLine(callers)
  {
    hide ShortPkgPath, Join;
  }

  /** Two narratives without line breaks and two lists of caller names without commas give a symbol
      the same text only if they are the same (a narrative is left out when no package is known). So
      a change of either moves the text. */
  lemma {:induction false} TextTellsApart(sym: Symbol, n1: string, c1: seq<string>, n2: string, c2: seq<string>)
    requires '\n' !in n1 && '\n' !in n2 && NoCommas(c1) && NoCommas(c2)
    ensures EmbedTextOf(sym, n1, c1) == EmbedTextOf(sym, n2, c2) <==> c1 == c2 && (n1 == n2 || sym.pkgPath == "")
  {
    TextLines(sym, n1, c1);
    TextLines(sym, n2, c2);
    hide EmbedTextOf, Base, PkgLine, CallerLine;
    var p1, p2, t1, t2 := PkgLine(sym, n1), PkgLine(sym, n2), CallerLine(c1), CallerLine(c2);
    var base := Base(sym);
    assert base + p1 + t1 == base + (p1 + t1) && base + p2 + t2 == base + (p2 + t2);
    if sym.pkgPath == "" { NoPkgLine(sym, n1); NoPkgLine(sym, n2); }
    if EmbedTextOf(sym, n1, c1) == EmbedTextOf(sym, n2, c2) {
      Rest(base, p1 + t1, p2 + t2);
      LinesTellApart(sym, n1, c1, n2, c2);
    }
  }

  lemma {:induction false} NoPkgLine(sym: Symbol, narrative: string)
    requires sym.pkgPath == ""
    ensures PkgLine(sym, narrative) == ""
  {
  }

  lemma {:induction false} LinesTellApart(sym: Symbol, n1: string, c1: seq<string>, n2: string, c2: seq<string>)
    requires '\n' !in n1 && '\n' !in n2 && NoCommas(c1) && NoCommas(c2)
    requires PkgLine(sym, n1) + CallerLine(c1) == PkgLine(sym, n2) + CallerLine(c2)
    ensures c1 == c2 && (n1 == n2 || sym.pkgPath == "")
  {
    hide ShortPkgPath, Join;
    var t1, t2 := CallerLine(c1), CallerLine(c2);
    if sym.pkgPath != "" {
      var head := "\npackage " + ShortPkgPath(sym.pkgPath);
      var m1, m2 := if n1 != "" then ": " + n1 else "", if n2 != "" then ": " + n2 else "";
      assert PkgLine(sym, n1) + t1 == head + (m1 + t1) && PkgLine(sym, n2) + t2 == head + (m2 + t2);
      Rest(head, m1 + t1, m2 + t2);
      UpTo(m1, t1, m2, t2, '\n');
      if n1 != "" && n2 != "" { Rest(": ", n1, n2); }
    } else {
      assert "" + t1 == t1 && "" + t2 == t2;
    }
    hide PkgLine, CallerLine;
    SameCallers(c1, c2);
  }

  ghost predicate NoCommas(names: seq<string>) { forall k :: 0 <= k < |names| ==> ',' !in names[k] }

  lemma {:induction false} Rest(head: string, a: string, b: string)
    requires head + a == head + b
    ensures a == b
  {
    assert a == (head + a)[|head|..] && b == (head + b)[|head|..];
  }

  /** A text is cut in one way before its first c. */
  lemma {:induction false} UpTo(a: string, s: string, b: string, t: string, c: char)
    requires c !in a && c !in b && (s == "" || s[0] == c) && (t == "" || t[0] == c) && a + s == b + t
    ensures a == b && s == t
  {
    NotLonger(a, s, b, t, c);
    NotLonger(b, t, a, s, c);
    assert a == (a + s)[..|a|] && b == (b + t)[..|b|];
    Rest(a, s, t);
  }

  lemma {:induction false} NotLonger(a: string, s: string, b: string, t: string, c: char)
    requires c !in a && (t == "" || t[0] == c) && a + s == b + t
    ensures |a| <= |b|
  {
    assert forall k :: 0 <= k < |a| ==> (a + s)[k] == a[k];
    assert |t| > 0 ==> (b + t)[|b|] == t[0];
  }

  lemma {:induction false} SameCallers(c1: seq<string>, c2: seq<string>)
    requires NoCommas(c1) && NoCommas(c2) && CallerLine(c1) == CallerLine(c2)
    ensures c1 == c2
  {
    hide Join;
    if c1 != [] && c2 != [] {
      Rest("\ncalled by: ", Join(c1, ", "), Join(c2, ", "));
      JoinTellsApart(c1, c2);
    }
  }

  /** What follows the first name in the joined names. */
  function Others(a: seq<string>): string {
    if |a| <= 1 then "" else [','] + (" " + Join(a[1..], ", "))
  }

  lemma {:induction false} JoinTellsApart(a: seq<string>, b: seq<string>)
    requires |a| > 0 && |b| > 0 && NoCommas(a) && NoCommas(b) && Join(a, ", ") == Join(b, ", ")
    ensures a == b
  {
    JoinHead(a);
    JoinHead(b);
    UpTo(a[0], Others(a), b[0], Others(b), ',');
    hide Join;
    if |a| > 1 && |b| > 1 {
      var ra, rb := Join(a[1..], ", "), Join(b[1..], ", ");
      Rest([','], " " + ra, " " + rb);
      Rest(" ", ra, rb);
      JoinTellsApart(a[1..], b[1..]);
    }
    assert a == [a[0]] + a[1..] && b == [b[0]] + b[1..];
  }

  lemma {:induction false} JoinHead(a: seq<string>)
    requires |a| > 0
    ensures Join(a, ", ") == a[0] + Others(a)
  {
    if |a| > 1 { assert a[0] + ", " + Join(a[1..], ", ") == a[0] + ([','] + (" " + Join(a[1..], ", "))); }
  }

  /** So an absent text, read as "", differs from every real one. */
  lemma {:induction false} TextNotEmpty(sym: Symbol, ec: EmbedContext)
    requires Embeddable(sym)
    ensures ComposeEmbedText(sym, ec) != ""
  {
    var base := sym.name + (if sym.signature != "" then " " + sym.signature else "")
                + (if sym.doc != "" then " " + sym.doc else "");
    assert |base| > 0 && |ComposeEmbedText(sym, ec)| >= |base|;
  }

  ghost predicate UniqueIds(symbols: seq<Symbol>) {
    forall i, j :: 0 <= i < j < |symbols| ==> symbols[i].id != symbols[j].id
  }

  /** A symbol list with unique IDs is told by its members alone. */
  lemma {:induction false} ByIdOfUnique(symbols: seq<Symbol>)
    requires UniqueIds(symbols)
    ensures forall s :: s in symbols <==> s.id in ById(symbols) && ById(symbols)[s.id] == s
    ensures forall id <- ById(symbols) :: ById(symbols)[id].id == id
  {
    if |symbols| > 0 {
      var n := |symbols| - 1;
      ByIdOfUnique(symbols[..n]);
      assert symbols == symbols[..n] + [symbols[n]];
      forall s | s in symbols[..n] ensures s.id != symbols[n].id {
        var k :| 0 <= k < n && symbols[..n][k] == s;
        assert symbols[k] == s;
      }
    }
  }

  /** Two snapshots of the same rows, read in any order, compose the same text for every symbol. */
  lemma {:induction false} SameRowsSameText(symbols1: seq<Symbol>, symbols2: seq<Symbol>, edges1: seq<Edge>,
      edges2: seq<Edge>, ec1: EmbedContext, ec2: EmbedContext, narrative: map<string, string>, sym: Symbol)
    requires UniqueIds(symbols1) && UniqueIds(symbols2) && Elements(symbols1) == Elements(symbols2)
    requires Elements(edges1) == Elements(edges2)
    requires IsContext(ec1, ById(symbols1), Elements(edges1), narrative)
    requires IsContext(ec2, ById(symbols2), Elements(edges2), narrative)
    ensures ComposeEmbedText(sym, ec1) == ComposeEmbedText(sym, ec2)
  {
    ByIdOfUnique(symbols1);
    ByIdOfUnique(symbols2);
    forall id ensures id in ById(symbols1) <==> id in ById(symbols2) {
      if id in ById(symbols1) { assert ById(symbols1)[id] in Elements(symbols2); }
      if id in ById(symbols2) { assert ById(symbols2)[id] in Elements(symbols1); }
    }
    forall id | id in ById(symbols1) ensures ById(symbols1)[id] == ById(symbols2)[id] {
      assert ById(symbols1)[id] in Elements(symbols2);
    }
    assert ById(symbols1) == ById(symbols2);
    LeastUnique(Listed(ec1.callers, sym.id), Listed(ec2.callers, sym.id),
                CallerNames(ById(symbols1), Elements(edges1), sym.id), MAX_CALLERS);
  }

  // ---------- filterEmbeddableSymbols ----------

  ghost predicate HasId(symbols: seq<Symbol>, id: Id) {
    exists k :: 0 <= k < |symbols| && symbols[k].id == id
  }

  /** The first copies that are embeddable, in order. */
  ghost function FirstCopies(symbols: seq<Symbol>): seq<Symbol> {
    if |symbols| == 0 then []
    else
      var n := |symbols| - 1;
      FirstCopies(symbols[..n])
      + if Embeddable(symbols[n]) && !HasId(symbols[..n], symbols[n].id) then [symbols[n]] else []
  }

  ghost function Texts(symbols: seq<Symbol>, ec: EmbedContext): seq<SymbolText> {
    seq(|symbols|, k requires 0 <= k < |symbols| => SymbolText(symbols[k].id, ComposeEmbedText(symbols[k], ec)))
  }

  method FilterEmbeddableSymbols(symbols: seq<Symbol>, ec: EmbedContext) returns (result: seq<SymbolText>)
    ensures result == Texts(FirstCopies(symbols), ec)
  {
    result := [];
    var seen: set<Id> := {};
    assert symbols[..0] == [] && Texts(FirstCopies([]), ec) == [];
    hide FirstCopies, Texts, HasId, ComposeEmbedText;
    NoIds();
    for i := 0 to |symbols|
      invariant result == Texts(FirstCopies(symbols[..i]), ec)
      invariant forall id :: id in seen <==> HasId(symbols[..i], id)
    {
      var sym := symbols[i];
      OneMoreId(symbols, i);
      OneMoreText(symbols, i, ec);
      if sym.id in seen {
        continue;
      }
      seen := seen + {sym.id};
      match sym.kind
      case Func | Method | Type | Interface | Struct =>
        if sym.signature != "" || sym.doc != "" {
          result := result + [SymbolText(sym.id, ComposeEmbedText(sym, ec))];
        }
      case Var | Const | Field =>
    }
    assert symbols[..|symbols|] == symbols;
  }

  lemma {:induction false} NoIds()
    ensures forall id :: !HasId([], id)
  {
  }

  lemma {:induction false} OneMoreText(symbols: seq<Symbol>, i: nat, ec: EmbedContext)
    requires i < |symbols|
    ensures Texts(FirstCopies(symbols[..i + 1]), ec) == Texts(FirstCopies(symbols[..i]), ec) +
              if Embeddable(symbols[i]) && !HasId(symbols[..i], symbols[i].id)
              then [SymbolText(symbols[i].id, ComposeEmbedText(symbols[i], ec))] else []
  {
    assert symbols[..i + 1][..i] == symbols[..i];
    hide HasId, ComposeEmbedText, Embeddable;
  }

  lemma {:induction false} OneMoreId(symbols: seq<Symbol>, i: nat)
    requires i < |symbols|
    ensures forall id :: HasId(symbols[..i + 1], id) <==> HasId(symbols[..i], id) || id == symbols[i].id
  {
    assert symbols[..i + 1][i] == symbols[i];
    forall id | HasId(symbols[..i], id) ensures HasId(symbols[..i + 1], id) {
      var k :| 0 <= k < i && symbols[..i][k].id == id;
      assert symbols[..i + 1][k].id == id;
    }
    forall id | HasId(symbols[..i + 1], id) && id != symbols[i].id ensures HasId(symbols[..i], id) {
      var k :| 0 <= k < i + 1 && symbols[..i + 1][k].id == id;
      assert symbols[..i][k].id == id;
    }
  }

  /** Position k holds the first copy of its symbol, and one that can be embedded. */
  ghost predicate IsFirstCopy(symbols: seq<Symbol>, k: nat)
    requires k < |symbols|
  {
    Embeddable(symbols[k]) && !HasId(symbols[..k], symbols[k].id)
  }

  lemma {:induction false} FirstCopyKept(symbols: seq<Symbol>, k: nat)
    requires k < |symbols| && IsFirstCopy(symbols, k)
    ensures symbols[k] in FirstCopies(symbols)
  {
    var n := |symbols| - 1;
    if k < n {
      assert symbols[..n][..k] == symbols[..k];
      FirstCopyKept(symbols[..n], k);
    }
  }

  lemma {:induction false} KeptIsFirstCopy(symbols: seq<Symbol>, s: Symbol) returns (k: nat)
    requires s in FirstCopies(symbols)
    ensures k < |symbols| && symbols[k] == s && IsFirstCopy(symbols, k)
  {
    var n := |symbols| - 1;
    if s in FirstCopies(symbols[..n]) {
      k := KeptIsFirstCopy(symbols[..n], s);
      assert symbols[..n][..k] == symbols[..k];
    } else {
      k := n;
    }
  }

  /** No ID is kept twice, so WriteJSONL never refuses what the filter yields. */
  lemma {:induction false} FirstCopiesOnce(symbols: seq<Symbol>)
    ensures UniqueIds(FirstCopies(symbols))
  {
    if |symbols| > 0 {
      var n := |symbols| - 1;
      var kept := FirstCopies(symbols[..n]);
      FirstCopiesOnce(symbols[..n]);
      forall i | 0 <= i < |kept| ensures HasId(symbols[..n], kept[i].id) {
        var k := KeptIsFirstCopy(symbols[..n], kept[i]);
      }
    }
  }

  /** Embedded are functions, methods and types that have a signature or a doc. */
  lemma {:induction false} EmbeddedExactly(symbols: seq<Symbol>, s: Symbol)
    requires UniqueIds(symbols)
    ensures s in FirstCopies(symbols) <==>
              s in symbols && !s.kind.Var? && !s.kind.Const? && !s.kind.Field? && |s.signature| + |s.doc| > 0
  {
    FirstCopiesOfUnique(symbols, s);
  }

  lemma {:induction false} FirstCopiesOfUnique(symbols: seq<Symbol>, s: Symbol)
    requires UniqueIds(symbols)
    ensures s in FirstCopies(symbols) <==> s in symbols && Embeddable(s)
  {
    if s in FirstCopies(symbols) {
      var k := KeptIsFirstCopy(symbols, s);
    }
    if s in symbols && Embeddable(s) {
      var k :| 0 <= k < |symbols| && symbols[k] == s;
      assert forall j :: 0 <= j < k ==> symbols[..k][j] == symbols[j];
      FirstCopyKept(symbols, k);
    }
  }
}
