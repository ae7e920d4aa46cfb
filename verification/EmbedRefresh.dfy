/** Keeping the stored embeddings current over incremental index runs: storedEmbedState and
    refreshEmbeddings of cmd/embedtext.go, generateEmbeddings, runIncrementalIndex and
    runDeleteOnlyIndex of cmd/index.go, against the store's tables as maps. */
module EmbedRefresh {
  import opened Ordering
  import opened SymbolIds
  import opened Text
  import opened BatchResults
  import opened EmbedText

  /** An embedding, known by the text it was made from. */
  datatype Embedding = EmbeddingOf(text: string)

  datatype CallSite = CallSite(caller: Id, callee: Id, line: int, col: int)
  datatype Call = Call(site: CallSite, file: string)

  /** The tables symbols, call_graph, package_docs and embeddings, each under its primary key. */
  datatype Db = Db(symbols: map<Id, Symbol>, calls: map<CallSite, Call>, docs: map<string, string>,
      vectors: map<Id, Embedding>)

  ghost predicate Keyed(db: Db) { forall id <- db.symbols :: db.symbols[id].id == id }

  // ---------- what the embeddings should be ----------

  ghost function Listing<T>(s: set<T>): (r: seq<T>)
    ensures Distinct(r) && Elements(r) == s
  {
    if s == {} then [] else
      var x :| x in s;
      var r := Listing(s - {x});
      assert Elements(r + [x]) == Elements(r) + {x};
      r + [x]
  }

  ghost function LeastNames(names: set<string>): (r: seq<string>)
    ensures IsLeast(r, names, MAX_CALLERS)
  {
    LeastBySorting(Listing(names), MAX_CALLERS);
    var r :| IsLeast(r, names, MAX_CALLERS);
    r
  }

  ghost function Edges(db: Db): set<Edge> { set c | c in db.calls :: Edge(c.caller, c.callee) }

  function Narrative(db: Db, first: string -> string, pkgPath: string): string {
    if pkgPath in db.docs then first(db.docs[pkgPath]) else ""
  }

  /** The text sym is to be embedded as: a function of the tables' contents alone. */
  ghost function TextOf(db: Db, first: string -> string, sym: Symbol): string {
    EmbedTextOf(sym, Narrative(db, first, sym.pkgPath), LeastNames(CallerNames(db.symbols, Edges(db), sym.id)))
  }

  ghost function AllTexts(db: Db, first: string -> string): map<Id, string> {
    map id | id in db.symbols && Embeddable(db.symbols[id]) :: TextOf(db, first, db.symbols[id])
  }

  /** What a rebuild from nothing would store for id is what is stored. */
  ghost predicate FreshAt(db: Db, first: string -> string, id: Id) {
    id in AllTexts(db, first) ==> id in db.vectors && db.vectors[id] == EmbeddingOf(AllTexts(db, first)[id])
  }

  ghost predicate Fresh(db: Db, first: string -> string) { forall id <- AllTexts(db, first) :: FreshAt(db, first, id) }

  // ---------- the writes ----------

  /** INSERT OR IGNORE, row by row. */
  function InsertOrIgnore<K, V>(m: map<K, V>, rows: seq<V>, key: V -> K): map<K, V> {
    if |rows| == 0 then m
    else
      var n := |rows| - 1;
      var r := InsertOrIgnore(m, rows[..n], key);
      if key(rows[n]) in r then r else r[key(rows[n]) := rows[n]]
  }

  function KeyOf(s: Symbol): Id { s.id }
  function Site(c: Call): CallSite { c.site }

  ghost function IdsOf(symbols: seq<Symbol>): set<Id> { set s | s in symbols :: s.id }

  /** WriteIndexIncremental: one transaction that drops what the affected files held, inserts the
      new rows and sweeps the calls left dangling. */
  function AfterWrite(db: Db, changed: seq<Symbol>, calls: seq<Call>, affected: set<string>): Db {
    var dropped := set id | id in db.symbols && db.symbols[id].filePath in affected;
    var symbols := InsertOrIgnore(db.symbols - dropped, changed, KeyOf);
    var kept := map c | c in db.calls && db.calls[c].file !in affected :: db.calls[c];
    var all := InsertOrIgnore(kept, calls, Site);
    Db(symbols, map c | c in all && c.caller in symbols && c.callee in symbols :: all[c], db.docs, db.vectors - dropped)
  }

  function DocTable(docs: seq<PackageDoc>): map<string, string> {
    if |docs| == 0 then map[]
    else DocTable(docs[..|docs| - 1])[docs[|docs| - 1].pkgPath := docs[|docs| - 1].doc]
  }

  // ---------- the refresh, as a function ----------

  /** The embeddable symbols of the written index that changed files hold or whose text moved. */
  ghost function Due(db: Db, first: string -> string, before: map<Id, string>, changed: set<Id>): set<Id> {
    set id | id in AllTexts(db, first) && (id in changed || AllTexts(db, first)[id] != Lookup(before, id))
  }

  ghost function Rebuilt(db: Db, first: string -> string, ids: set<Id>): map<Id, Embedding> {
    map id | id in ids && id in AllTexts(db, first) :: EmbeddingOf(AllTexts(db, first)[id])
  }

  /** db with the symbols in ids embedded anew. */
  ghost function Reembedded(db: Db, first: string -> string, ids: set<Id>): Db {
    db.(vectors := db.vectors + Rebuilt(db, first, ids))
  }

  /** What one update with a successful refresh makes of db. */
  ghost function Updated(db: Db, written: Db, first: string -> string, changed: set<Id>): Db {
    Reembedded(written, first, Due(written, first, AllTexts(db, first), changed))
  }

  // ---------- when an embedding is fresh after an update ----------

  /** written is db after the incremental write; its calls and package docs may have become anything. */
  ghost predicate Wrote(db: Db, written: Db, changed: seq<Symbol>, affected: set<string>) {
    var w := AfterWrite(db, changed, [], affected);
    written.symbols == w.symbols && written.vectors == w.vectors
  }

  lemma {:induction false} InsertedIds(m: map<Id, Symbol>, rows: seq<Symbol>, id: Id)
    ensures id in InsertOrIgnore(m, rows, KeyOf) <==> id in m || id in IdsOf(rows)
    ensures id in m ==> InsertOrIgnore(m, rows, KeyOf)[id] == m[id]
    ensures id in InsertOrIgnore(m, rows, KeyOf) && id !in m
        ==> InsertOrIgnore(m, rows, KeyOf)[id] in rows && InsertOrIgnore(m, rows, KeyOf)[id].id == id
  {
    if |rows| > 0 {
      var n := |rows| - 1;
      InsertedIds(m, rows[..n], id);
      assert rows == rows[..n] + [rows[n]];
      assert IdsOf(rows) == IdsOf(rows[..n]) + {rows[n].id};
    }
  }

  lemma {:induction false} WriteKeyed(db: Db, changed: seq<Symbol>, calls: seq<Call>, affected: set<string>)
    requires Keyed(db)
    ensures Keyed(AfterWrite(db, changed, calls, affected))
  {
    var dropped := set id | id in db.symbols && db.symbols[id].filePath in affected;
    forall id { InsertedIds(db.symbols - dropped, changed, id); }
  }

  /** INSERT OR IGNORE: the keys of both, a row of the table before one that is inserted. */
  lemma {:induction false} InsertedKeys<K, V>(m: map<K, V>, rows: seq<V>, key: V -> K, k: K)
    ensures k in InsertOrIgnore(m, rows, key) <==> k in m || exists j :: 0 <= j < |rows| && key(rows[j]) == k
    ensures k in m ==> InsertOrIgnore(m, rows, key)[k] == m[k]
  {
    if |rows| > 0 {
      var n := |rows| - 1;
      InsertedKeys(m, rows[..n], key, k);
      assert forall j :: 0 <= j < n ==> rows[..n][j] == rows[j];
      assert key(rows[n]) == k || ((exists j :: 0 <= j < |rows| && key(rows[j]) == k)
                                   <==> exists j :: 0 <= j < n && key(rows[..n][j]) == k);
    }
  }

  /** Of the rows inserted under a key the first one counts. */
  lemma {:induction false} InsertedFirst<K, V>(m: map<K, V>, rows: seq<V>, key: V -> K, k: nat)
    requires k < |rows| && key(rows[k]) !in m && forall j :: 0 <= j < k ==> key(rows[j]) != key(rows[k])
    ensures key(rows[k]) in InsertOrIgnore(m, rows, key) && InsertOrIgnore(m, rows, key)[key(rows[k])] == rows[k]
  {
    var n := |rows| - 1;
    if k < n {
      InsertedFirst(m, rows[..n], key, k);
    } else {
      assert forall j :: 0 <= j < n ==> rows[..n][j] == rows[j];
      InsertedKeys(m, rows[..n], key, key(rows[n]));
    }
  }

  /** What an incremental write leaves in the tables: of the symbols those of no affected file and
      the new ones; of the calls those written in no affected file and the new ones, as long as both
      their ends are there; of the embeddings those of symbols of no affected file. */
  lemma {:induction false} WriteExactly(db: Db, changed: seq<Symbol>, calls: seq<Call>, affected: set<string>, id: Id,
      c: CallSite)
    ensures var w := AfterWrite(db, changed, calls, affected);
            var stays := id in db.symbols && db.symbols[id].filePath !in affected;
            && (id in w.symbols <==> stays || exists k :: 0 <= k < |changed| && changed[k].id == id)
            && (stays ==> w.symbols[id] == db.symbols[id])
            && (id in w.vectors <==> id in db.vectors && (id in db.symbols ==> stays))
            && (id in w.vectors ==> w.vectors[id] == db.vectors[id])
            && (c in w.calls <==>
                  && c.caller in w.symbols && c.callee in w.symbols
                  && ((c in db.calls && db.calls[c].file !in affected)
                      || exists k :: 0 <= k < |calls| && calls[k].site == c))
            && w.docs == db.docs
  {
    var dropped := set x | x in db.symbols && db.symbols[x].filePath in affected;
    InsertedKeys(db.symbols - dropped, changed, KeyOf, id);
    InsertedKeys(map x | x in db.calls && db.calls[x].file !in affected :: db.calls[x], calls, Site, c);
    assert forall k :: 0 <= k < |changed| ==> KeyOf(changed[k]) == changed[k].id;
    assert forall k :: 0 <= k < |calls| ==> Site(calls[k]) == calls[k].site;
  }

  /** Of two docs of a package the later one counts. */
  lemma {:induction false} DocTableLast(docs: seq<PackageDoc>, k: nat)
    requires k < |docs| && forall j :: k < j < |docs| ==> docs[j].pkgPath != docs[k].pkgPath
    ensures docs[k].pkgPath in DocTable(docs) && DocTable(docs)[docs[k].pkgPath] == docs[k].doc
    ensures forall p <- DocTable(docs) :: exists j :: 0 <= j < |docs| && docs[j].pkgPath == p
  {
    var n := |docs| - 1;
    if k < n { DocTableLast(docs[..n], k); }
    forall p | p in DocTable(docs) ensures exists j :: 0 <= j < |docs| && docs[j].pkgPath == p {
      var j := DocTableFrom(docs, p);
    }
  }

  lemma {:induction false} DocTableFrom(docs: seq<PackageDoc>, p: string) returns (j: nat)
    requires p in DocTable(docs)
    ensures j < |docs| && docs[j].pkgPath == p
  {
    var n := |docs| - 1;
    if docs[n].pkgPath == p { j := n; } else { j := DocTableFrom(docs[..n], p); }
  }

  /** A symbol the write did not bring keeps its row and its vector. */
  lemma {:induction false} WriteKeeps(db: Db, written: Db, changed: seq<Symbol>, affected: set<string>, id: Id)
    requires Wrote(db, written, changed, affected) && id in written.symbols && id !in IdsOf(changed)
    ensures id in db.symbols && written.symbols[id] == db.symbols[id]
    ensures (id in written.vectors <==> id in db.vectors) && (id in db.vectors
        ==> written.vectors[id] == db.vectors[id])
  {
    var dropped := set id | id in db.symbols && db.symbols[id].filePath in affected;
    InsertedIds(db.symbols - dropped, changed, id);
  }

  lemma {:induction false} TextsNotEmpty(db: Db, first: string -> string, id: Id)
    requires id in AllTexts(db, first)
    ensures AllTexts(db, first)[id] != ""
  {
    var sym := db.symbols[id];
    var ec := EmbedContext(map[sym.pkgPath := Narrative(db, first, sym.pkgPath)],
                           map[sym.id := LeastNames(CallerNames(db.symbols, Edges(db), sym.id))]);
    TextNotEmpty(sym, ec);
  }

  /** After a successful refresh a symbol's embedding is the rebuilt one exactly if a changed file
      holds the symbol, or its text moved, or its embedding was fresh before. */
  lemma {:induction false} FreshExactly(db: Db, written: Db, first: string -> string, changed: seq<Symbol>,
      affected: set<string>, id: Id)
    requires Wrote(db, written, changed, affected) && id in AllTexts(written, first)
    ensures FreshAt(Updated(db, written, first, IdsOf(changed)), first, id)
            <==>
              id in IdsOf(changed) || FreshAt(db, first, id)
              || AllTexts(written, first)[id] != Lookup(AllTexts(db, first), id)
  {
    var after := Updated(db, written, first, IdsOf(changed));
    SameTexts(written, after, first);
    TextsNotEmpty(written, first, id);
    hide AllTexts;
    if id !in IdsOf(changed) {
      AllTextsKeys(written, first);
      WriteKeeps(db, written, changed, affected, id);
    }
  }

  lemma {:induction false} AllTextsKeys(db: Db, first: string -> string)
    ensures AllTexts(db, first).Keys <= db.symbols.Keys
  {
  }

  /** Texts do not depend on the embeddings. */
  lemma {:induction false} SameTexts(a: Db, b: Db, first: string -> string)
    requires b == a.(vectors := b.vectors)
    ensures AllTexts(a, first) == AllTexts(b, first)
  {
    assert Edges(a) == Edges(b);
    forall id | id in a.symbols ensures TextOf(a, first, a.symbols[id]) == TextOf(b, first, a.symbols[id]) {
    }
  }

  /** The text of a symbol that the write does not bring moves exactly if its three least caller names
      or its package's narrative do (with no package known, there is none). So it is then embedded anew. */
  lemma {:induction false} TextMovesExactly(db: Db, written: Db, first: string -> string, changed: seq<Symbol>,
      affected: set<string>, id: Id)
    requires Wrote(db, written, changed, affected) && id in AllTexts(written, first) && id !in IdsOf(changed)
    requires TextMayMove(db, first, written.symbols[id]) && TextMayMove(written, first, written.symbols[id])
    ensures var sym := written.symbols[id];
            var moved := || LeastCallers(db, sym) != LeastCallers(written, sym)
                         || (sym.pkgPath != ""
                             && Narrative(db, first, sym.pkgPath) != Narrative(written, first, sym.pkgPath));
            id in Due(written, first, AllTexts(db, first), IdsOf(changed)) <==> moved
  {
    var sym := written.symbols[id];
    WriteKeeps(db, written, changed, affected, id);
    TextTellsApart(sym, Narrative(db, first, sym.pkgPath), LeastCallers(db, sym),
                   Narrative(written, first, sym.pkgPath), LeastCallers(written, sym));
    hide EmbedTextOf, LeastNames, CallerNames, IdsOf;
  }

  /** A caller is shown for a call in the table from another symbol, known and named, outside the tests;
      with such a call somebody is, and with fewer than three names shown everybody is. */
  lemma {:induction false} CallersExactly(db: Db, sym: Symbol, name: string)
    ensures var callers := LeastCallers(db, sym);
            var calls := exists c :: c in db.calls && c.callee == sym.id && c.caller != sym.id
                           && c.caller in db.symbols && db.symbols[c.caller].name == name && name != ""
                           && !HasSuffix(db.symbols[c.caller].filePath, "_test.go");
            && |callers| <= 3 && (name in callers ==> calls)
            && (calls ==> |callers| > 0 && (|callers| < 3 ==> name in callers))
  {
    var names := CallerNames(db.symbols, Edges(db), sym.id);
    assert IsLeast(LeastCallers(db, sym), names, MAX_CALLERS);
    ShownExactly(LeastCallers(db, sym), db.symbols, Edges(db), sym.id, name);
    if c :| c in db.calls && c.callee == sym.id && c.caller != sym.id && c.caller in db.symbols
            && db.symbols[c.caller].name == name && name != ""
            && !HasSuffix(db.symbols[c.caller].filePath, "_test.go") {
      assert Edge(c.caller, c.callee) in Edges(db);
    }
    hide IsLeast, HasSuffix, LeastNames;
  }

  ghost function LeastCallers(db: Db, sym: Symbol): seq<string> {
    LeastNames(CallerNames(db.symbols, Edges(db), sym.id))
  }

  /** Its narrative has no line break, and no caller's name a comma. */
  ghost predicate TextMayMove(db: Db, first: string -> string, sym: Symbol) {
    '\n' !in Narrative(db, first, sym.pkgPath) && NoCommas(LeastCallers(db, sym))
  }

  /** The cache agrees with a rebuild after an update if it did before it. */
  lemma {:induction false} UpdateKeepsFresh(db: Db, written: Db, first: string -> string, changed: seq<Symbol>,
      affected: set<string>)
    requires Wrote(db, written, changed, affected) && Fresh(db, first)
    ensures Fresh(Updated(db, written, first, IdsOf(changed)), first)
  {
    var after := Updated(db, written, first, IdsOf(changed));
    SameTexts(written, after, first);
    forall id | id in AllTexts(after, first) ensures FreshAt(after, first, id) {
      FreshExactly(db, written, first, changed, affected, id);
    }
  }

  /** What one index run brings to the store; a delete-only run leaves the package docs alone. */
  datatype Docs = Unchanged | Replaced(docs: seq<PackageDoc>)
  datatype Update = Update(changed: seq<Symbol>, calls: seq<Call>, affected: set<string>, docs: Docs)

  function Written(db: Db, u: Update): Db {
    var w := AfterWrite(db, u.changed, u.calls, u.affected);
    if u.docs.Unchanged? then w else w.(docs := DocTable(u.docs.docs))
  }

  ghost function Run(db: Db, first: string -> string, updates: seq<Update>): Db {
    if |updates| == 0 then db
    else
      var d := Run(db, first, updates[..|updates| - 1]);
      var u := updates[|updates| - 1];
      Updated(d, Written(d, u), first, IdsOf(u.changed))
  }

  lemma {:induction false} WrittenWrote(db: Db, u: Update)
    ensures Wrote(db, Written(db, u), u.changed, u.affected)
  {
  }

  lemma {:induction false} RunKeepsFresh(db: Db, first: string -> string, updates: seq<Update>)
    requires Fresh(db, first)
    ensures Fresh(Run(db, first, updates), first)
  {
    hide Fresh, Updated, Written, Wrote, IdsOf;
    if |updates| > 0 {
      var d := Run(db, first, updates[..|updates| - 1]);
      var u := updates[|updates| - 1];
      RunKeepsFresh(db, first, updates[..|updates| - 1]);
      WrittenWrote(d, u);
      UpdateKeepsFresh(d, Written(d, u), first, u.changed, u.affected);
    }
  }

  /** No changed file of these updates holds id, and none of them moves its text. */
  ghost predicate Untouched(db: Db, first: string -> string, updates: seq<Update>, id: Id) {
    |updates| == 0 || (
      var n := |updates| - 1;
      && Untouched(db, first, updates[..n], id) && id !in IdsOf(updates[n].changed)
      && Lookup(AllTexts(Run(db, first, updates), first), id)
          == Lookup(AllTexts(Run(db, first, updates[..n]), first), id))
  }

  /** The update does not hold id, nor does it move its text. */
  ghost predicate LeavesAlone(d: Db, u: Update, first: string -> string, id: Id) {
    && id !in IdsOf(u.changed)
    && Lookup(AllTexts(Updated(d, Written(d, u), first, IdsOf(u.changed)), first), id) == Lookup(AllTexts(d, first), id)
  }

  /** One update makes an embedding fresh exactly if it was, or the update does not leave it alone. */
  lemma {:induction false} FreshAfterOne(d: Db, u: Update, first: string -> string, id: Id)
    ensures FreshAt(Updated(d, Written(d, u), first, IdsOf(u.changed)), first, id)
        <==> FreshAt(d, first, id) || !LeavesAlone(d, u, first, id)
  {
    var w := Written(d, u);
    SameTexts(w, Updated(d, w, first, IdsOf(u.changed)), first);
    WrittenWrote(d, u);
    if id in AllTexts(d, first) { TextsNotEmpty(d, first, id); }
    hide Wrote, Written, Updated, IdsOf;
    if id in AllTexts(w, first) { FreshExactly(d, w, first, u.changed, u.affected, id); }
    hide AllTexts;
  }

  /** So a refresh that failed leaves its mark: a symbol it did not reach stays stale over any
      number of successful updates, exactly until a changed file holds the symbol or its text moves. */
  lemma {:induction false} MissedRefreshStays(db: Db, first: string -> string, updates: seq<Update>, id: Id)
    requires !FreshAt(db, first, id)
    ensures FreshAt(Run(db, first, updates), first, id) <==> !Untouched(db, first, updates, id)
  {
    hide FreshAt, AllTexts, Updated, Written, IdsOf;
    if |updates| > 0 {
      var n := |updates| - 1;
      MissedRefreshStays(db, first, updates[..n], id);
      FreshAfterOne(Run(db, first, updates[..n]), updates[n], first, id);
    }
  }

  // ---------- how a run ends ----------

  /** How a run went: its error return before or after the write took hold, or its end, with the
      embeddings refreshed, partly refreshed, or left out because refreshing is off or the state
      before the write could not be read. */
  datatype Outcome = NotWritten | WrittenOnly | NoRefresh | PartRefresh | FullRefresh

  /** What a run made of the tables: all of the update and its refresh, or a part. */
  ghost predicate RanTo(db: Db, after: Db, first: string -> string, u: Update, out: Outcome) {
    match out
    case NotWritten => after == db
    case WrittenOnly => after == AfterWrite(db, u.changed, u.calls, u.affected) || after == Written(db, u)
    case NoRefresh => after == Written(db, u)
    case PartRefresh =>
      exists done :: done <= Due(Written(db, u), first, AllTexts(db, first), IdsOf(u.changed))
          && after == Reembedded(Written(db, u), first, done)
    case FullRefresh => after == Updated(db, Written(db, u), first, IdsOf(u.changed))
  }

  // ---------- a refresh that is missed ----------

  const FUNC := Symbol(Id("f"), "F", Func, "f.go", "", "func F()", "")

  /** An index of one function, freshly embedded. */
  ghost function OneSymbol(first: string -> string): Db {
    var db := Db(map[FUNC.id := FUNC], map[], map[], map[]);
    db.(vectors := map[FUNC.id := EmbeddingOf(TextOf(db, first, FUNC))])
  }

  /** f.go is indexed again, and then some other file, that holds nothing, is deleted. */
  const TOUCH := Update([FUNC], [], {"f.go"}, Replaced([]))
  const ELSEWHERE := Update([], [], {"g.go"}, Unchanged)

  /** The refresh after the first fails at once, that after the second succeeds; the function's
      embedding was fresh before, and is stale after both. */
  lemma {:induction false} RefreshMissed(first: string -> string)
    ensures var db := OneSymbol(first); var after := Written(db, TOUCH);
            && Keyed(db) && Fresh(db, first) && RanTo(db, after, first, TOUCH, PartRefresh)
            && Untouched(after, first, [ELSEWHERE], FUNC.id)
            && !FreshAt(after, first, FUNC.id) && !FreshAt(Run(after, first, [ELSEWHERE]), first, FUNC.id)
  {
    hide *;
    var after := Written(OneSymbol(first), TOUCH);
    MissedState(first);
    RunOne(after, first, ELSEWHERE);
    MissedRefreshStays(after, first, [ELSEWHERE], FUNC.id);
  }

  /** The index before and after the missed refresh. */
  lemma {:induction false} MissedState(first: string -> string)
    ensures var db := OneSymbol(first); var after := Written(db, TOUCH);
            && Keyed(db) && Fresh(db, first) && RanTo(db, after, first, TOUCH, PartRefresh)
            && !FreshAt(after, first, FUNC.id) && LeavesAlone(after, ELSEWHERE, first, FUNC.id)
  {
    var db := OneSymbol(first);
    var after := Written(db, TOUCH);
    WrittenOnce(first);
    OneFresh(first);
    SecondLeavesAlone(first);
    assert Reembedded(after, first, {}) == after;
    hide FreshAt, Fresh, AllTexts, TextOf, Written, Reembedded, LeavesAlone, Due;
  }

  lemma {:induction false} RunOne(db: Db, first: string -> string, u: Update)
    ensures Run(db, first, [u]) == Updated(db, Written(db, u), first, IdsOf(u.changed))
    ensures LeavesAlone(db, u, first, FUNC.id) ==> Untouched(db, first, [u], FUNC.id)
  {
    assert [u][..0] == [];
    hide AllTexts, Updated, Written, IdsOf;
  }

  /** Indexing the function again drops its embedding and keeps its row. */
  lemma {:induction false} WrittenOnce(first: string -> string)
    ensures Written(OneSymbol(first), TOUCH) == OneSymbol(first).(vectors := map[])
    ensures Written(OneSymbol(first).(vectors := map[]), ELSEWHERE) == OneSymbol(first).(vectors := map[])
  {
    hide TextOf;
    var db := OneSymbol(first);
    var dropped := set id | id in db.symbols && db.symbols[id].filePath in TOUCH.affected;
    assert FUNC.id in db.symbols && dropped == {FUNC.id};
    assert db.symbols - dropped == map[];
    assert [FUNC][..0] == [];
    assert InsertOrIgnore(map[], [FUNC], KeyOf) == map[FUNC.id := FUNC];
    assert db.vectors - dropped == map[];
    var written := Written(db, TOUCH);
    assert written.symbols == db.symbols && written.calls == map[] && written.docs == map[] && written.vectors == map[];
  }

  lemma {:induction false} OneFresh(first: string -> string)
    ensures Fresh(OneSymbol(first), first) && !FreshAt(OneSymbol(first).(vectors := map[]), first, FUNC.id)
  {
    var db := OneSymbol(first);
    SameTexts(db.(vectors := map[]), db, first);
    assert TextOf(db, first, FUNC) == TextOf(db.(vectors := map[]), first, FUNC);
    hide TextOf;
  }

  lemma {:induction false} SecondLeavesAlone(first: string -> string)
    ensures LeavesAlone(OneSymbol(first).(vectors := map[]), ELSEWHERE, first, FUNC.id)
  {
    WrittenOnce(first);
    var d := OneSymbol(first).(vectors := map[]);
    SameTexts(d, Updated(d, Written(d, ELSEWHERE), first, IdsOf([])), first);
    hide AllTexts, Written, Updated;
  }

  // ---------- reading the tables ----------

  /** Rows as a query yields them: each row of the table once, in any order. */
  ghost predicate IsLoad(db: Db, symbols: seq<Symbol>, edges: seq<Edge>, docs: seq<PackageDoc>) {
    && UniqueIds(symbols) && (forall s :: s in symbols <==> s.id in db.symbols && db.symbols[s.id] == s)
    && Elements(edges) == Edges(db)
    && (forall i, j :: 0 <= i < j < |docs| ==> docs[i].pkgPath != docs[j].pkgPath)
    && (forall d :: d in docs <==> d.pkgPath in db.docs && db.docs[d.pkgPath] == d.doc)
  }

  lemma {:induction false} NarrativesOfUnique(docs: seq<PackageDoc>, first: string -> string)
    requires forall i, j :: 0 <= i < j < |docs| ==> docs[i].pkgPath != docs[j].pkgPath
    ensures forall d :: d in docs ==> Lookup(Narratives(docs, first), d.pkgPath) == first(d.doc)
    ensures forall p <- Narratives(docs, first) :: exists k :: 0 <= k < |docs| && docs[k].pkgPath == p
  {
    if |docs| > 0 {
      var n := |docs| - 1;
      NarrativesOfUnique(docs[..n], first);
      assert docs == docs[..n] + [docs[n]];
      assert forall k :: 0 <= k < n ==> docs[..n][k] == docs[k];
    }
  }

  /** A context built from loaded rows composes every symbol's text as the tables have it. */
  lemma {:induction false} ContextOfLoad(db: Db, symbols: seq<Symbol>, edges: seq<Edge>, docs: seq<PackageDoc>,
                                         first: string -> string, ec: EmbedContext, sym: Symbol)
    requires Keyed(db) && IsLoad(db, symbols, edges, docs)
    requires IsContext(ec, ById(symbols), Elements(edges), Narratives(docs, first))
    ensures ComposeEmbedText(sym, ec) == TextOf(db, first, sym)
  {
    ByIdOfUnique(symbols);
    forall id | id in db.symbols ensures id in ById(symbols) && ById(symbols)[id] == db.symbols[id] {
      assert db.symbols[id] in symbols;
    }
    forall id | id in ById(symbols) ensures id in db.symbols {
      assert ById(symbols)[id] in symbols;
    }
    assert ById(symbols) == db.symbols;
    LeastUnique(Listed(ec.callers, sym.id), LeastNames(CallerNames(db.symbols, Edges(db), sym.id)),
                CallerNames(db.symbols, Edges(db), sym.id), MAX_CALLERS);
    NarrativeOfLoad(db, symbols, edges, docs, first, sym.pkgPath);
  }

  lemma {:induction false} NarrativeOfLoad(db: Db, symbols: seq<Symbol>, edges: seq<Edge>, docs: seq<PackageDoc>,
      first: string -> string, p: string)
    requires IsLoad(db, symbols, edges, docs)
    ensures Lookup(Narratives(docs, first), p) == Narrative(db, first, p)
  {
    NarrativesOfUnique(docs, first);
    if p in db.docs {
      assert PackageDoc(p, db.docs[p]) in docs;
    }
  }

  // ---------- the store ----------

  /** What an operation answered; sent is the number of texts in a request to the embedding client. */
  datatype Op = Op(ok: bool, sent: nat)

  /** From the n-th on, every operation succeeded. */
  ghost predicate CleanFrom(log: seq<Op>, n: nat) { forall k :: n <= k < |log| ==> log[k].ok }

  ghost predicate SentAtMost(log: seq<Op>, n: nat, most: nat) { forall k :: n <= k < |log| ==> log[k].sent <= most }

  lemma {:induction false} LogCompose(a: seq<Op>, b: seq<Op>, n: nat)
    requires n <= |a| && a <= b
    ensures CleanFrom(b, n) <==> CleanFrom(a, n) && CleanFrom(b, |a|)
    ensures forall most: nat :: SentAtMost(b, n, most) <==> SentAtMost(a, n, most) && SentAtMost(b, |a|, most)
  {
    assert forall k :: 0 <= k < |a| ==> a[k] == b[k];
  }

  lemma {:induction false} LogStart(log: seq<Op>)
    ensures CleanFrom(log, |log|) && forall most: nat :: SentAtMost(log, |log|, most)
  {
  }

  lemma {:induction false} LogOne(log: seq<Op>, op: Op)
    ensures CleanFrom(log + [op], |log|) <==> op.ok
    ensures forall most: nat :: SentAtMost(log + [op], |log|, most) <==> op.sent <= most
  {
    assert (log + [op])[|log|] == op;
  }

  /** The store handle. Each operation may fail, and then changes nothing; log tells how they went. */
  class Store {
    var db: Db
    var log: seq<Op>

    constructor (d: Db)
      ensures db == d && log == []
    {
      db, log := d, [];
    }

    /** Any other operation: creating the embedding client, or writing the tables that are not modelled. */
    method Try() returns (ok: bool)
      modifies this`log
      ensures log == old(log) + [Op(ok, 0)]
    {
      ok := *;
      log := log + [Op(ok, 0)];
    }

    method LoadEmbedInputs() returns (ok: bool, symbols: seq<Symbol>, edges: seq<Edge>, docs: seq<PackageDoc>)
      requires Keyed(db)
      modifies this`log
      ensures log == old(log) + [Op(ok, 0)]
      ensures ok ==> IsLoad(db, symbols, edges, docs)
    {
      symbols, edges, docs := [], [], [];
      ok := Try();
      if !ok { return; }
      var d := db;
      var ids := InSomeOrder(d.symbols.Keys);
      assert forall id :: id in ids <==> id in d.symbols by { assert forall id :: id in Elements(ids) <==> id in ids; }
      symbols := seq(|ids|, k requires 0 <= k < |ids| => var id := ids[k]; assert id in ids; d.symbols[id]);
      edges := InSomeOrder(set c | c in d.calls :: Edge(c.caller, c.callee));
      var pkgs := InSomeOrder(d.docs.Keys);
      assert forall p :: p in pkgs <==> p in d.docs by { assert forall p :: p in Elements(pkgs) <==> p in pkgs; }
      docs := seq(|pkgs|, k requires 0 <= k < |pkgs| => var p := pkgs[k]; assert p in pkgs; PackageDoc(p, d.docs[p]));
      LoadedSymbols(db, ids, symbols);
      LoadedDocs(db, pkgs, docs);
    }

    method SaveEmbedding(id: Id, e: Embedding) returns (ok: bool)
      modifies this
      ensures db == if ok then old(db).(vectors := old(db).vectors[id := e]) else old(db)
      ensures log == old(log) + [Op(ok, 0)]
    {
      ok := Try();
      if ok {
        db := db.(vectors := db.vectors[id := e]);
      }
    }

    method WriteIndexIncremental(changed: seq<Symbol>, calls: seq<Call>, affected: set<string>) returns (ok: bool)
      modifies this
      ensures db == if ok then AfterWrite(old(db), changed, calls, affected) else old(db)
      ensures log == old(log) + [Op(ok, 0)]
    {
      ok := Try();
      if ok {
        db := AfterWrite(db, changed, calls, affected);
      }
    }

    method WritePackageDocs(docs: seq<PackageDoc>) returns (ok: bool)
      modifies this
      ensures db == if ok then old(db).(docs := DocTable(docs)) else old(db)
      ensures log == old(log) + [Op(ok, 0)]
    {
      ok := Try();
      if ok {
        db := db.(docs := DocTable(docs));
      }
    }
  }

  lemma {:induction false} LoadedSymbols(db: Db, ids: seq<Id>, symbols: seq<Symbol>)
    requires Keyed(db) && Distinct(ids) && (forall id :: id in ids <==> id in db.symbols)
    requires |symbols| == |ids|
    requires forall k :: 0 <= k < |ids| ==> ids[k] in db.symbols && symbols[k] == db.symbols[ids[k]]
    ensures UniqueIds(symbols)
    ensures forall s :: s in symbols <==> s.id in db.symbols && db.symbols[s.id] == s
  {
    forall s: Symbol | s.id in db.symbols && db.symbols[s.id] == s ensures s in symbols {
      var k :| 0 <= k < |ids| && ids[k] == s.id;
      assert symbols[k] == s;
    }
  }

  lemma {:induction false} LoadedDocs(db: Db, pkgs: seq<string>, docs: seq<PackageDoc>)
    requires Distinct(pkgs) && (forall p :: p in pkgs <==> p in db.docs)
    requires |docs| == |pkgs|
    requires forall k :: 0 <= k < |pkgs| ==>
               pkgs[k] in db.docs && docs[k] == PackageDoc(pkgs[k], db.docs[pkgs[k]])
    ensures forall i, j :: 0 <= i < j < |docs| ==> docs[i].pkgPath != docs[j].pkgPath
    ensures forall d :: d in docs <==> d.pkgPath in db.docs && db.docs[d.pkgPath] == d.doc
  {
    forall d: PackageDoc | d.pkgPath in db.docs && db.docs[d.pkgPath] == d.doc ensures d in docs {
      var k :| 0 <= k < |pkgs| && pkgs[k] == d.pkgPath;
      assert docs[k] == d;
    }
  }

  // ---------- the refresh ----------

  /** storedEmbedState: every embeddable symbol's text, composed from the stored rows. */
  method StoredEmbedState(store: Store, first: string -> string)
    returns (ok: bool, texts: map<Id, string>, symbols: seq<Symbol>, ec: EmbedContext)
    requires Keyed(store.db)
    modifies store`log
    ensures store.log == old(store.log) + [Op(ok, 0)]
    ensures ok ==> texts == AllTexts(store.db, first) && IsState(store.db, first, symbols, ec)
  {
    var edges, docs;
    ok, symbols, edges, docs := store.LoadEmbedInputs();
    texts, ec := map[], EmbedContext(map[], map[]);
    if !ok { return; }
    ec := BuildEmbedContext(symbols, edges, docs, first);
    forall sym { ContextOfLoad(store.db, symbols, edges, docs, first, ec, sym); }
    var embeddable := FilterEmbeddableSymbols(symbols, ec);
    for i := 0 to |embeddable|
      invariant texts == TextTable(embeddable[..i])
    {
      assert embeddable[..i + 1][..i] == embeddable[..i];
      texts := texts[embeddable[i].id := embeddable[i].text];
    }
    assert embeddable[..|embeddable|] == embeddable;
    TextTableOfState(store.db, first, symbols, ec);
  }

  /** symbols and ec are what the tables say. */
  ghost predicate IsState(db: Db, first: string -> string, symbols: seq<Symbol>, ec: EmbedContext) {
    && UniqueIds(symbols) && (forall s :: s in symbols <==> s.id in db.symbols && db.symbols[s.id] == s)
    && forall s :: ComposeEmbedText(s, ec) == TextOf(db, first, s)
  }

  function TextTable(list: seq<SymbolText>): map<Id, string> {
    if |list| == 0 then map[]
    else TextTable(list[..|list| - 1])[list[|list| - 1].id := list[|list| - 1].text]
  }

  lemma {:induction false} OncePrefix(list: seq<SymbolText>, n: nat)
    requires OncePerId(list) && n <= |list|
    ensures OncePerId(list[..n])
  {
  }

  lemma {:induction false} TextTableHas(list: seq<SymbolText>, k: nat)
    requires OncePerId(list) && k < |list|
    ensures list[k].id in TextTable(list) && TextTable(list)[list[k].id] == list[k].text
  {
    var n := |list| - 1;
    if k < n {
      OncePrefix(list, n);
      TextTableHas(list[..n], k);
    }
  }

  lemma {:induction false} TextTableFrom(list: seq<SymbolText>, id: Id) returns (k: nat)
    requires id in TextTable(list)
    ensures k < |list| && list[k].id == id
  {
    var n := |list| - 1;
    if list[n].id == id {
      k := n;
    } else {
      k := TextTableFrom(list[..n], id);
    }
  }

  lemma {:induction false} TextTableCount(list: seq<SymbolText>)
    requires OncePerId(list)
    ensures |TextTable(list)| == |list|
  {
    if |list| > 0 {
      var n := |list| - 1;
      OncePrefix(list, n);
      TextTableCount(list[..n]);
      if list[n].id in TextTable(list[..n]) {
        var k := TextTableFrom(list[..n], list[n].id);
      }
    }
  }

  lemma {:induction false} TextTableExact(list: seq<SymbolText>)
    requires OncePerId(list)
    ensures forall k :: 0 <= k < |list| ==> list[k].id in TextTable(list) && TextTable(list)[list[k].id] == list[k].text
    ensures forall id <- TextTable(list) :: exists k :: 0 <= k < |list| && list[k].id == id
    ensures |TextTable(list)| == |list|
  {
    TextTableCount(list);
    forall k | 0 <= k < |list| { TextTableHas(list, k); }
    hide OncePerId;
    forall id | id in TextTable(list) ensures exists k :: 0 <= k < |list| && list[k].id == id {
      var k := TextTableFrom(list, id);
    }
  }

  /** The texts of the embeddable ones among some symbols with unique IDs. */
  lemma {:induction false} TextTableOfSymbols(symbols: seq<Symbol>, ec: EmbedContext)
    requires UniqueIds(symbols)
    ensures OncePerId(Texts(FirstCopies(symbols), ec))
    ensures forall s :: s in symbols && Embeddable(s) ==>
              s.id in TextTable(Texts(FirstCopies(symbols), ec))
                  && TextTable(Texts(FirstCopies(symbols), ec))[s.id] == ComposeEmbedText(s, ec)
    ensures forall id <- TextTable(Texts(FirstCopies(symbols), ec)) ::
              exists k :: 0 <= k < |symbols| && symbols[k].id == id && Embeddable(symbols[k])
  {
    var kept := FirstCopies(symbols);
    var list := Texts(kept, ec);
    FirstCopiesOnce(symbols);
    TextTableExact(list);
    forall s | s in symbols && Embeddable(s)
      ensures s.id in TextTable(list) && TextTable(list)[s.id] == ComposeEmbedText(s, ec)
    {
      FirstCopiesOfUnique(symbols, s);
      var k :| 0 <= k < |kept| && kept[k] == s;
      assert list[k].id == s.id;
    }
    forall id | id in TextTable(list)
      ensures exists k :: 0 <= k < |symbols| && symbols[k].id == id && Embeddable(symbols[k])
    {
      var k :| 0 <= k < |list| && list[k].id == id;
      FirstCopiesOfUnique(symbols, kept[k]);
    }
  }

  lemma {:induction false} TextsOnce(symbols: seq<Symbol>, ec: EmbedContext)
    ensures OncePerId(Texts(FirstCopies(symbols), ec)) && |Texts(FirstCopies(symbols), ec)| == |FirstCopies(symbols)|
  {
    FirstCopiesOnce(symbols);
  }

  lemma {:induction false} TextOfState(db: Db, first: string -> string, symbols: seq<Symbol>, ec: EmbedContext, id: Id)
    requires Keyed(db) && IsState(db, first, symbols, ec)
    ensures var t := TextTable(Texts(FirstCopies(symbols), ec));
            (id in t <==> id in AllTexts(db, first)) && (id in t ==> t[id] == AllTexts(db, first)[id])
  {
    TextTableOfSymbols(symbols, ec);
    var t := TextTable(Texts(FirstCopies(symbols), ec));
    hide TextTable, UniqueIds, TextOf, FirstCopies, Texts, OncePerId, ComposeEmbedText, Embeddable;
    if id in AllTexts(db, first) {
      assert db.symbols[id] in symbols && ComposeEmbedText(db.symbols[id], ec) == TextOf(db, first, db.symbols[id]);
    }
    if id in t {
      var k :| 0 <= k < |symbols| && symbols[k].id == id && Embeddable(symbols[k]);
      assert symbols[k] in symbols;
    }
  }

  lemma {:induction false} TextTableOfState(db: Db, first: string -> string, symbols: seq<Symbol>, ec: EmbedContext)
    requires Keyed(db) && IsState(db, first, symbols, ec)
    ensures TextTable(Texts(FirstCopies(symbols), ec)) == AllTexts(db, first)
  {
    hide *;
    var t := TextTable(Texts(FirstCopies(symbols), ec));
    forall id
      ensures id in t <==> id in AllTexts(db, first)
      ensures id in t ==> t[id] == AllTexts(db, first)[id]
    {
      TextOfState(db, first, symbols, ec, id);
    }
  }

  function EmbeddingTable(list: seq<SymbolText>): map<Id, Embedding> {
    var t := TextTable(list);
    map id | id in t :: EmbeddingOf(t[id])
  }

  /** The embedding client: every text embedded, each answer in its text's place, or an error. */
  method Embed(store: Store, texts: seq<string>) returns (ok: bool, embeddings: seq<Embedding>)
    modifies store`log
    ensures store.log == old(store.log) + [Op(ok, |texts|)]
    ensures ok ==> |embeddings| == |texts| && forall k :: 0 <= k < |texts| ==> embeddings[k] == EmbeddingOf(texts[k])
  {
    ok := *;
    store.log := store.log + [Op(ok, |texts|)];
    embeddings := if ok then seq(|texts|, k requires 0 <= k < |texts| => EmbeddingOf(texts[k])) else [];
  }

  const BATCH_SIZE := 64

  /** generateEmbeddings: 64 texts to a request; what was stored before an error stays, and an error
      has a cause. */
  method GenerateEmbeddings(store: Store, symbols: seq<Symbol>, ec: EmbedContext) returns (total: nat, ok: bool)
    modifies store
    ensures total <= |FirstCopies(symbols)| && (ok ==> total == |FirstCopies(symbols)|)
    ensures store.db == Embedded(old(store.db), Texts(FirstCopies(symbols), ec)[..total])
    ensures Went(old(store.log), store.log, ok)
  {
    total := 0;
    NoneEmbedded(store.db);
    LogOne(store.log, Op(true, 0));
    LogOne(store.log, Op(false, 0));
    ok := store.Try();
    if !ok { return; }
    var toEmbed := FilterEmbeddableSymbols(symbols, ec);
    if |toEmbed| == 0 { return; }
    hide *;
    var i := 0;
    while i < |toEmbed|
      invariant total == (if i < |toEmbed| then i else |toEmbed|)
      invariant ok && store.db == Embedded(old(store.db), toEmbed[..total])
      invariant Went(old(store.log), store.log, true)
    {
      var end := i + BATCH_SIZE;
      if end > |toEmbed| {
        end := |toEmbed|;
      }
      SmallBatch(i, end);
      ghost var log := store.log;
      total, ok := EmbedBatch(store, toEmbed, i, end, old(store.db));
      WentOn(old(store.log), log, store.log, ok);
      if !ok { return; }
      i := i + BATCH_SIZE;
    }
  }

  lemma {:induction false} SmallBatch(i: nat, end: nat)
    ensures end <= i + BATCH_SIZE ==> end <= i + 64
    ensures BATCH_SIZE > 0
  {
  }

  /** The operations since log0: none of them failed if ok, some did if not, and no request had more
      than 64 texts. */
  ghost predicate Went(log0: seq<Op>, log: seq<Op>, ok: bool) {
    log0 <= log && (ok <==> CleanFrom(log, |log0|)) && SentAtMost(log, |log0|, 64)
  }

  lemma {:induction false} WentOn(a: seq<Op>, b: seq<Op>, c: seq<Op>, ok: bool)
    requires Went(a, b, true) && Went(b, c, ok)
    ensures Went(a, c, ok)
  {
    LogCompose(b, c, |a|);
    hide CleanFrom, SentAtMost;
  }

  lemma {:induction false} WentOne(log: seq<Op>, op: Op)
    requires op.sent <= 64
    ensures Went(log, log + [op], op.ok)
  {
    LogOne(log, op);
    hide CleanFrom, SentAtMost;
  }

  /** One round of the loop: toEmbed[i..end] embedded by one request and stored one by one. */
  method EmbedBatch(store: Store, toEmbed: seq<SymbolText>, i: nat, end: nat, ghost db: Db)
      returns (total: nat, ok: bool)
    requires i <= end <= |toEmbed| && end <= i + 64 && store.db == Embedded(db, toEmbed[..i])
    modifies store
    ensures i <= total <= end && (ok ==> total == end)
    ensures store.db == Embedded(db, toEmbed[..total])
    ensures Went(old(store.log), store.log, ok)
  {
    hide *;
    total := i;
    var batch := toEmbed[i..end];
    var texts := seq(|batch|, k requires 0 <= k < |batch| => batch[k].text);
    var embeddings;
    ok, embeddings := Embed(store, texts);
    WentOne(old(store.log), Op(ok, |texts|));
    if !ok { return; }
    for j := 0 to |embeddings|
      invariant ok && total == i + j
      invariant store.db == Embedded(db, toEmbed[..total])
      invariant Went(old(store.log), store.log, true)
    {
      assert batch[j] == toEmbed[total] && embeddings[j] == EmbeddingOf(batch[j].text);
      ghost var log := store.log;
      ok := store.SaveEmbedding(batch[j].id, embeddings[j]);
      WentOne(log, Op(ok, 0));
      WentOn(old(store.log), log, store.log, ok);
      if !ok { return; }
      NextEmbedding(db, toEmbed, total);
      total := total + 1;
    }
  }

  ghost function Embedded(db: Db, list: seq<SymbolText>): Db { db.(vectors := db.vectors + EmbeddingTable(list)) }

  lemma {:induction false} NoneEmbedded(db: Db)
    ensures Embedded(db, []) == db
  {
  }

  lemma {:induction false} NextEmbedding(db: Db, list: seq<SymbolText>, k: nat)
    requires k < |list|
    ensures var d := Embedded(db, list[..k]);
            Embedded(db, list[..k + 1]) == d.(vectors := d.vectors[list[k].id := EmbeddingOf(list[k].text)])
  {
    assert list[..k + 1][..k] == list[..k];
  }

  ghost predicate IsStale(symbols: seq<Symbol>, after: map<Id, string>, before: map<Id, string>, changed: set<Id>,
      stale: seq<Symbol>)
  {
    && UniqueIds(stale)
    && forall s :: s in stale <==>
         s in symbols && (s.id in changed || Lookup(after, s.id) != Lookup(before, s.id))
  }

  method Stale(symbols: seq<Symbol>, after: map<Id, string>, before: map<Id, string>, changed: seq<Symbol>)
      returns (stale: seq<Symbol>)
    requires UniqueIds(symbols)
    ensures IsStale(symbols, after, before, IdsOf(changed), stale)
  {
    var inChangedFile: set<Id> := {};
    for i := 0 to |changed|
      invariant inChangedFile == IdsOf(changed[..i])
    {
      assert changed[..i + 1] == changed[..i] + [changed[i]];
      inChangedFile := inChangedFile + {changed[i].id};
    }
    assert changed[..|changed|] == changed;
    stale := [];
    for i := 0 to |symbols|
      invariant IsStale(symbols[..i], after, before, inChangedFile, stale)
    {
      assert symbols[..i + 1] == symbols[..i] + [symbols[i]];
      var id := symbols[i].id;
      if id in inChangedFile || Lookup(after, id) != Lookup(before, id) {
        stale := stale + [symbols[i]];
      }
    }
    assert symbols[..|symbols|] == symbols;
  }

  /** refreshEmbeddings: it embeds anew exactly what is due, or stops part of the way because some
      operation failed. */
  method RefreshEmbeddings(store: Store, first: string -> string, before: map<Id, string>, changed: seq<Symbol>)
    returns (count: nat, ok: bool, ghost done: set<Id>)
    requires Keyed(store.db)
    modifies store
    ensures var due := Due(old(store.db), first, before, IdsOf(changed));
            done <= due && (ok ==> done == due) && count == |done|
    ensures store.db == Reembedded(old(store.db), first, done)
    ensures Went(old(store.log), store.log, ok)
  {
    hide *;
    var after, symbols, ec;
    ghost var db := store.db;
    count, done := 0, {};
    NoneReembedded(db, first);
    ok, after, symbols, ec := StoredEmbedState(store, first);
    WentOne(old(store.log), Op(ok, 0));
    if !ok { return; }
    StateIsUnique(db, first, symbols, ec);
    var stale := Stale(symbols, after, before, changed);
    StaleIsDue(db, first, before, IdsOf(changed), symbols, ec, stale);
    var any := FilterEmbeddableSymbols(stale, ec);
    TextsLength(FirstCopies(stale), ec);
    if |any| == 0 {
      EmbeddedIsDue(db, first, before, IdsOf(changed), any, 0);
      return;
    }
    ghost var log := store.log;
    count, ok := GenerateEmbeddings(store, stale, ec);
    WentOn(old(store.log), log, store.log, ok);
    EmbeddedIsDue(db, first, before, IdsOf(changed), any, count);
    done := TextTable(any[..count]).Keys;
  }

  lemma {:induction false} NoneReembedded(db: Db, first: string -> string)
    ensures Reembedded(db, first, {}) == db
  {
  }

  lemma {:induction false} TextsLength(symbols: seq<Symbol>, ec: EmbedContext)
    ensures |Texts(symbols, ec)| == |symbols|
  {
  }

  lemma {:induction false} StateIsUnique(db: Db, first: string -> string, symbols: seq<Symbol>, ec: EmbedContext)
    requires IsState(db, first, symbols, ec)
    ensures UniqueIds(symbols)
  {
  }

  /** list holds each embeddable symbol that is due once, with its text. */
  ghost predicate IsDueList(db: Db, first: string -> string, before: map<Id, string>, changed: set<Id>,
      list: seq<SymbolText>)
  {
    var t := TextTable(list);
    OncePerId(list) && t.Keys == Due(db, first, before, changed) && forall id <- t :: t[id] == AllTexts(db, first)[id]
  }

  lemma {:induction false} TablePrefix(list: seq<SymbolText>, k: nat)
    requires OncePerId(list) && k <= |list|
    ensures |TextTable(list[..k]).Keys| == k
    ensures forall id <- TextTable(list[..k]) ::
              id in TextTable(list) && TextTable(list[..k])[id] == TextTable(list)[id]
  {
    var part := list[..k];
    assert forall i :: 0 <= i < k ==> part[i] == list[i];
    TextTableExact(list);
    TextTableExact(part);
    KeyCount(TextTable(part));
    hide TextTable;
    forall id | id in TextTable(part) ensures id in TextTable(list) && TextTable(part)[id] == TextTable(list)[id] {
      var i :| 0 <= i < |part| && part[i].id == id;
    }
  }

  /** Having embedded the first k of them. */
  lemma {:induction false} EmbeddedIsDue(db: Db, first: string -> string, before: map<Id, string>, changed: set<Id>,
      list: seq<SymbolText>, k: nat)
    requires IsDueList(db, first, before, changed, list) && k <= |list|
    ensures var done := TextTable(list[..k]).Keys;
            && done <= Due(db, first, before, changed) && |done| == k
            && Embedded(db, list[..k]) == Reembedded(db, first, done)
            && (k == |list| ==> done == Due(db, first, before, changed))
  {
    TablePrefix(list, k);
    DueHasText(db, first, before, changed);
    var part, all := TextTable(list[..k]), AllTexts(db, first);
    assert EmbeddingTable(list[..k]) == Rebuilt(db, first, part.Keys) by {
      hide TextTable, AllTexts, Due, OncePerId;
      assert forall id <- part :: id in all && part[id] == all[id];
    }
    hide TextTable, AllTexts, Due, OncePerId, EmbeddingTable, Rebuilt;
    if k == |list| { assert list[..k] == list; }
  }

  lemma {:induction false} DueHasText(db: Db, first: string -> string, before: map<Id, string>, changed: set<Id>)
    ensures Due(db, first, before, changed) <= AllTexts(db, first).Keys
  {
  }

  lemma {:induction false} KeyCount<K, V>(m: map<K, V>)
    ensures |m.Keys| == |m|
  {
  }

  lemma {:induction false} StaleIsDue(db: Db, first: string -> string, before: map<Id, string>, changed: set<Id>,
                                      symbols: seq<Symbol>, ec: EmbedContext, stale: seq<Symbol>)
    requires Keyed(db) && IsState(db, first, symbols, ec)
    requires IsStale(symbols, AllTexts(db, first), before, changed, stale)
    ensures IsDueList(db, first, before, changed, Texts(FirstCopies(stale), ec))
  {
    hide *;
    var list := Texts(FirstCopies(stale), ec);
    TextsOnce(stale, ec);
    forall id
      ensures id in TextTable(list) <==> id in Due(db, first, before, changed)
      ensures id in TextTable(list) ==> id in AllTexts(db, first) && TextTable(list)[id] == AllTexts(db, first)[id]
    {
      StaleAndDue(db, first, before, changed, symbols, ec, stale, id);
    }
    DueList(db, first, before, changed, list);
  }

  lemma {:induction false} DueList(db: Db, first: string -> string, before: map<Id, string>, changed: set<Id>,
      list: seq<SymbolText>)
    requires OncePerId(list)
    requires forall id :: id in TextTable(list) <==> id in Due(db, first, before, changed)
    requires forall id :: id in TextTable(list) ==>
               id in AllTexts(db, first) && TextTable(list)[id] == AllTexts(db, first)[id]
    ensures IsDueList(db, first, before, changed, list)
  {
    hide OncePerId, TextTable, Due, AllTexts;
  }

  lemma {:induction false} StaleAndDue(db: Db, first: string -> string, before: map<Id, string>, changed: set<Id>,
                                       symbols: seq<Symbol>, ec: EmbedContext, stale: seq<Symbol>, id: Id)
    requires Keyed(db) && IsState(db, first, symbols, ec)
    requires IsStale(symbols, AllTexts(db, first), before, changed, stale)
    ensures var t := TextTable(Texts(FirstCopies(stale), ec));
            (id in t <==> id in Due(db, first, before, changed))
                && (id in t ==> id in AllTexts(db, first) && t[id] == AllTexts(db, first)[id])
  {
    TextTableOfSymbols(stale, ec);
    var t := TextTable(Texts(FirstCopies(stale), ec));
    hide TextTable, UniqueIds, TextOf, FirstCopies, Texts, OncePerId, ComposeEmbedText;
    if id in db.symbols {
      assert db.symbols[id] in symbols && ComposeEmbedText(db.symbols[id], ec) == TextOf(db, first, db.symbols[id]);
      assert db.symbols[id] in stale <==> id in changed || Lookup(AllTexts(db, first), id) != Lookup(before, id);
    }
    hide Embeddable;
    if id in t {
      var k :| 0 <= k < |stale| && stale[k].id == id && Embeddable(stale[k]);
      assert stale[k] in stale;
    }
  }

  // ---------- the index runs ----------

  /** beginEmbedRefresh: the texts before the write, if a refresh is to follow it: exactly if one is
      asked for and the state before the write can be read. */
  method BeginEmbedRefresh(store: Store, first: string -> string, realtime: bool)
      returns (before: map<Id, string>, refresh: bool)
    requires Keyed(store.db)
    modifies store`log
    ensures !realtime ==> !refresh && store.log == old(store.log)
    ensures realtime ==> store.log == old(store.log) + [Op(refresh, 0)]
    ensures refresh ==> before == AllTexts(store.db, first)
  {
    if !realtime {
      return map[], false;
    }
    var ok, texts, symbols, ec := StoredEmbedState(store, first);
    return texts, ok;
  }

  /** finishEmbedRefresh: an error is only a warning. */
  method FinishEmbedRefresh(store: Store, first: string -> string, before: map<Id, string>, changed: seq<Symbol>,
      ghost db: Db, ghost u: Update)
    returns (out: Outcome)
    requires Keyed(store.db) && store.db == Written(db, u) && before == AllTexts(db, first) && changed == u.changed
    modifies store
    ensures (out == PartRefresh || out == FullRefresh) && RanTo(db, store.db, first, u, out)
    ensures Went(old(store.log), store.log, out == FullRefresh)
  {
    hide AllTexts, Due, Reembedded, Written, IdsOf, Went;
    var count, ok;
    ghost var done;
    count, ok, done := RefreshEmbeddings(store, first, before, changed);
    out := if ok then FullRefresh else PartRefresh;
  }

  lemma {:induction false} WrittenKeyed(db: Db, u: Update)
    requires Keyed(db)
    ensures Keyed(Written(db, u))
  {
    WriteKeyed(db, u.changed, u.calls, u.affected);
  }

  /** How a run comes to its end, by the operations since log0, the first of which is the snapshot if
      a refresh is asked for. refresh says that the snapshot was taken: exactly if it was asked for and
      could be. A run that writes everything then refreshes if it was, and if nothing at all failed
      the refresh is a full one. A run stops short only if a write failed. */
  ghost predicate EndsBy(log0: seq<Op>, log: seq<Op>, realtime: bool, refresh: bool, out: Outcome) {
    var n := |log0|;
    && log0 <= log
    && (refresh <==> realtime && n < |log| && log[n].ok)
    && (out == NotWritten || out == WrittenOnly ==> !CleanFrom(log, if realtime then n + 1 else n))
    && (out == PartRefresh || out == FullRefresh ==> refresh) && (out == NoRefresh ==> !refresh)
    && (CleanFrom(log, n) ==> out == if realtime then FullRefresh else NoRefresh)
    && (out == FullRefresh ==> CleanFrom(log, n)) && SentAtMost(log, n, 64)
  }

  /** The log once beginEmbedRefresh is over. */
  ghost predicate Began(log0: seq<Op>, log: seq<Op>, realtime: bool, refresh: bool) {
    (refresh ==> realtime) && log == if realtime then log0 + [Op(refresh, 0)] else log0
  }

  lemma {:induction false} BeganWent(log0: seq<Op>, log1: seq<Op>, realtime: bool, refresh: bool)
    requires Began(log0, log1, realtime, refresh)
    ensures Went(log0, log1, realtime ==> refresh)
    ensures log0 <= log1 && |log1| == (if realtime then |log0| + 1 else |log0|)
    ensures refresh <==> realtime && |log0| < |log1| && log1[|log0|].ok
  {
    WentOne(log0, Op(refresh, 0));
    WentNone(log0);
  }

  lemma {:induction false} WentNone(log: seq<Op>)
    ensures Went(log, log, true)
  {
  }

  /** The log once the writes are over: a run that stops short, or that has no refresh to do. */
  lemma {:induction false} EndedUnrefreshed(log0: seq<Op>, log1: seq<Op>, log: seq<Op>, realtime: bool, refresh: bool,
      out: Outcome)
    requires Began(log0, log1, realtime, refresh)
    requires Went(log1, log, out == NoRefresh)
    requires out == NotWritten || out == WrittenOnly || (out == NoRefresh && !refresh)
    ensures EndsBy(log0, log, realtime, refresh, out)
  {
    BeganWent(log0, log1, realtime, refresh);
    LogCompose(log1, log, |log0|);
    hide CleanFrom, SentAtMost;
    assert |log1| > |log0| ==> log[|log0|] == log1[|log0|];
  }

  lemma {:induction false} EndedRefreshed(log0: seq<Op>, log1: seq<Op>, log2: seq<Op>, log: seq<Op>, realtime: bool,
      out: Outcome)
    requires Began(log0, log1, realtime, true) && (out == PartRefresh || out == FullRefresh)
    requires Went(log1, log2, true) && Went(log2, log, out == FullRefresh)
    ensures EndsBy(log0, log, realtime, true, out)
  {
    BeganWent(log0, log1, realtime, true);
    LogCompose(log1, log2, |log0|);
    LogCompose(log2, log, |log0|);
    hide CleanFrom, SentAtMost;
    assert log[|log0|] == log1[|log0|];
  }

  /** The tables of a run that stops short, or has no refresh to do. */
  lemma {:induction false} RanShort(db: Db, first: string -> string, u: Update)
    ensures RanTo(db, db, first, u, NotWritten)
    ensures RanTo(db, AfterWrite(db, u.changed, u.calls, u.affected), first, u, WrittenOnly)
    ensures RanTo(db, Written(db, u), first, u, WrittenOnly) && RanTo(db, Written(db, u), first, u, NoRefresh)
  {
  }

  lemma {:induction false} WrittenIs(db: Db, u: Update)
    ensures var w := AfterWrite(db, u.changed, u.calls, u.affected);
            Written(db, u) == if u.docs.Replaced? then w.(docs := DocTable(u.docs.docs)) else w
  {
  }

  /** The symbols that changed files hold. */
  method ChangedSymbols(allSymbols: seq<Symbol>, changedFiles: set<string>) returns (changed: seq<Symbol>)
    ensures forall s :: s in changed <==> s in allSymbols && s.filePath in changedFiles
  {
    changed := [];
    for i := 0 to |allSymbols|
      invariant forall s :: s in changed <==> s in allSymbols[..i] && s.filePath in changedFiles
    {
      assert allSymbols[..i + 1] == allSymbols[..i] + [allSymbols[i]];
      if allSymbols[i].filePath in changedFiles {
        changed := changed + [allSymbols[i]];
      }
    }
    assert allSymbols[..|allSymbols|] == allSymbols;
  }

  /** runIncrementalIndex: the snapshot, the write, the package docs, then the refresh. */
  method RunIncrementalIndex(store: Store, first: string -> string, realtime: bool, allSymbols: seq<Symbol>,
      calls: seq<Call>, docs: seq<PackageDoc>, changedFiles: set<string>, deletedFiles: set<string>)
    returns (out: Outcome, changed: seq<Symbol>, refresh: bool)
    requires Keyed(store.db)
    modifies store
    ensures forall s :: s in changed <==> s in allSymbols && s.filePath in changedFiles
    ensures RanTo(old(store.db), store.db, first, Update(changed, calls, changedFiles + deletedFiles, Replaced(docs)),
        out)
    ensures EndsBy(old(store.log), store.log, realtime, refresh, out)
    ensures out == FullRefresh && Fresh(old(store.db), first) ==> Fresh(store.db, first)
  {
    changed := ChangedSymbols(allSymbols, changedFiles);
    ghost var db := store.db;
    ghost var u := Update(changed, calls, changedFiles + deletedFiles, Replaced(docs));
    WrittenKeyed(db, u);
    RanShort(db, first, u);
    WrittenIs(db, u);
    var before;
    before, refresh := BeginEmbedRefresh(store, first, realtime);
    ghost var log1 := store.log;
    assert Began(old(store.log), log1, realtime, refresh);
    hide *;
    var ok := store.WriteIndexIncremental(changed, calls, changedFiles + deletedFiles);
    WentOne(log1, Op(ok, 0));
    if !ok {
      EndedUnrefreshed(old(store.log), log1, store.log, realtime, refresh, NotWritten);
      return NotWritten, changed, refresh;
    }
    ghost var log2 := store.log;
    ok := store.WritePackageDocs(docs);
    WentOne(log2, Op(ok, 0));
    WentOn(log1, log2, store.log, ok);
    if ok {
      log2 := store.log;
      ok := store.Try(); // the files, the file packages and the timestamp
      WentOne(log2, Op(ok, 0));
      WentOn(log1, log2, store.log, ok);
    }
    if !ok {
      EndedUnrefreshed(old(store.log), log1, store.log, realtime, refresh, WrittenOnly);
      return WrittenOnly, changed, refresh;
    }
    out := NoRefresh;
    if refresh {
      log2 := store.log;
      out := FinishEmbedRefresh(store, first, before, changed, db, u);
      EndedRefreshed(old(store.log), log1, log2, store.log, realtime, out);
      FullRefreshKeepsFresh(db, store.db, first, u, out);
    } else {
      EndedUnrefreshed(old(store.log), log1, store.log, realtime, refresh, NoRefresh);
    }
  }

  /** runDeleteOnlyIndex: no symbols come, and the package docs stay. */
  method RunDeleteOnlyIndex(store: Store, first: string -> string, realtime: bool, deletedFiles: set<string>)
      returns (out: Outcome, refresh: bool)
    requires Keyed(store.db)
    modifies store
    ensures RanTo(old(store.db), store.db, first, Update([], [], deletedFiles, Unchanged), out)
    ensures EndsBy(old(store.log), store.log, realtime, refresh, out)
    ensures out == FullRefresh && Fresh(old(store.db), first) ==> Fresh(store.db, first)
  {
    ghost var db := store.db;
    ghost var u := Update([], [], deletedFiles, Unchanged);
    WrittenKeyed(db, u);
    RanShort(db, first, u);
    WrittenIs(db, u);
    var before;
    before, refresh := BeginEmbedRefresh(store, first, realtime);
    ghost var log1 := store.log;
    assert Began(old(store.log), log1, realtime, refresh);
    hide *;
    var ok := store.WriteIndexIncremental([], [], deletedFiles);
    WentOne(log1, Op(ok, 0));
    if !ok {
      EndedUnrefreshed(old(store.log), log1, store.log, realtime, refresh, NotWritten);
      return NotWritten, refresh;
    }
    ghost var log2 := store.log;
    ok := store.Try(); // the timestamp
    WentOne(log2, Op(ok, 0));
    WentOn(log1, log2, store.log, ok);
    if !ok {
      EndedUnrefreshed(old(store.log), log1, store.log, realtime, refresh, WrittenOnly);
      return WrittenOnly, refresh;
    }
    out := NoRefresh;
    if refresh {
      log2 := store.log;
      out := FinishEmbedRefresh(store, first, before, [], db, u);
      EndedRefreshed(old(store.log), log1, log2, store.log, realtime, out);
      FullRefreshKeepsFresh(db, store.db, first, u, out);
    } else {
      EndedUnrefreshed(old(store.log), log1, store.log, realtime, refresh, NoRefresh);
    }
  }

  lemma {:induction false} FullRefreshKeepsFresh(db: Db, after: Db, first: string -> string, u: Update, out: Outcome)
    requires RanTo(db, after, first, u, out)
    ensures out == FullRefresh && Fresh(db, first) ==> Fresh(after, first)
  {
    WrittenWrote(db, u);
    if out == FullRefresh && Fresh(db, first) {
      hide Fresh, Wrote, Written, Updated, IdsOf;
      UpdateKeepsFresh(db, Written(db, u), first, u.changed, u.affected);
    }
  }
}
