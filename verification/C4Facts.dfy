/** Datastores folded from import rows: findDatastores and isEarlierEvidence of
    internal/c4/facts.go. */
module C4Facts {
  import opened Ordering
  import opened DriverPath
  import opened Text

  datatype Option<T> = None | Some(value: T)

  /** Where an import is written. */
  datatype Place = Place(file: string, line: int)
  /** A row of the imports table; importer is "" when it is not known. */
  datatype Row = Row(place: Place, pkgPath: string, importer: string)
  datatype Driver = Driver(match_: string, name: string)

  // ---------- the earliest evidence ----------

  /** An empty file stands for no evidence yet. */
  predicate IsEarlierEvidence(p: Place, best: Place) {
    if best.file == "" then true
    else if p.file != best.file then StrLess(p.file, best.file)
    else p.line < best.line
  }

  function Fold(best: Place, p: Place): Place { if IsEarlierEvidence(p, best) then p else best }

  function Earliest(places: seq<Place>): Place {
    if |places| == 0 then Place("", 0) else Fold(Earliest(places[..|places| - 1]), places[|places| - 1])
  }

  /** By file, then by line. */
  predicate Before(p: Place, q: Place) { StrLess(p.file, q.file) || (p.file == q.file && p.line < q.line) }

  ghost predicate IsFirst(p: Place, places: seq<Place>) {
    p in places && forall q :: q in places ==> !Before(q, p)
  }

  lemma {:induction false} BeforeTotal(p: Place, q: Place)
    ensures p == q || Before(p, q) || Before(q, p)
    ensures !(Before(p, q) && Before(q, p))
  {
    StrLessTotal(p.file, q.file);
  }

  lemma {:induction false} BeforeTransitive(p: Place, q: Place, r: Place)
    ensures Before(p, q) && Before(q, r) ==> Before(p, r)
  {
    if StrLess(p.file, q.file) && StrLess(q.file, r.file) { StrLessTransitive(p.file, q.file, r.file); }
  }

  ghost predicate AllNamed(places: seq<Place>) { forall k :: 0 <= k < |places| ==> places[k].file != "" }

  /** With every file named, the fold keeps the first place of all. */
  lemma {:induction false} EarliestIsFirst(places: seq<Place>)
    requires |places| > 0 && AllNamed(places)
    ensures IsFirst(Earliest(places), places)
  {
    var n := |places| - 1;
    var init, p := places[..n], places[n];
    assert places == init + [p];
    if n == 0 {
      BeforeTotal(p, p);
      assert Earliest(init) == Place("", 0);
    } else {
      EarliestIsFirst(init);
      var best := Earliest(init);
      assert best.file != "" by { var k :| 0 <= k < n && init[k] == best; assert places[k] == best; }
      assert IsEarlierEvidence(p, best) <==> Before(p, best);
      hide Earliest, Before;
      BeforeTotal(p, p);
      BeforeTotal(p, best);
      forall q | q in places ensures !Before(q, Fold(best, p)) {
        BeforeTransitive(q, p, best);
        BeforeTransitive(p, best, q);
        BeforeTransitive(q, best, p);
        BeforeTotal(q, p);
      }
      assert Earliest(places) == Fold(best, p) by { EarliestNext(places); }
    }
  }

  lemma {:induction false} EarliestNext(places: seq<Place>)
    requires |places| > 0
    ensures Earliest(places) == Fold(Earliest(places[..|places| - 1]), places[|places| - 1])
  {
  }

  /** So the order of the rows does not matter. */
  lemma {:induction false} EarliestOrderFree(a: seq<Place>, b: seq<Place>)
    requires AllNamed(a) && Elements(a) == Elements(b)
    ensures Earliest(a) == Earliest(b)
  {
    assert |b| == 0 || b[0] in Elements(b);
    if |a| > 0 {
      assert a[0] in Elements(b);
      assert AllNamed(b) by {
        forall k | 0 <= k < |b| ensures b[k].file != "" { assert b[k] in Elements(a); }
      }
      EarliestIsFirst(a);
      EarliestIsFirst(b);
      assert Earliest(a) in Elements(b) && Earliest(b) in Elements(a);
      BeforeTotal(Earliest(a), Earliest(b));
    }
  }

  /** A row without a file starts the search over: what was found before it is lost. */
  lemma {:induction false} UnnamedStartsOver(a: seq<Place>, line: int, b: seq<Place>)
    requires |b| > 0
    ensures Earliest(a + [Place("", line)] + b) == Earliest(b)
  {
    var n := |b| - 1;
    var s := a + [Place("", line)] + b;
    assert s[|s| - 1] == b[n] && s[..|s| - 1] == a + [Place("", line)] + b[..n];
    if n == 0 {
      var t := a + [Place("", line)];
      assert t + b[..0] == t && t[..|a|] == a && Earliest(b[..0]) == Place("", 0);
      assert Earliest(t).file == "" by { UnnamedLast(a, line); }
    } else {
      UnnamedStartsOver(a, line, b[..n]);
    }
  }

  lemma {:induction false} UnnamedLast(a: seq<Place>, line: int)
    ensures Earliest(a + [Place("", line)]).file == ""
  {
    var t := a + [Place("", line)];
    assert t[..|a|] == a && t[|a|] == Place("", line);
    var best := Earliest(a);
    if best.file != "" { assert StrLess("", best.file); }
  }

  // ---------- which datastore a row is evidence of ----------

  /** The name of the first driver of the list that matches. */
  function Technology(pkgPath: string, allowlist: seq<Driver>): Option<string> {
    if |allowlist| == 0 then None
    else if MatchesDriverPath(pkgPath, allowlist[0].match_) then Some(allowlist[0].name)
    else Technology(pkgPath, allowlist[1..])
  }

  /** All drivers that match give the same name. */
  ghost predicate Agree(pkgPath: string, allowlist: seq<Driver>) {
    forall d, e ::
      d in allowlist && e in allowlist && MatchesDriverPath(pkgPath, d.match_) && MatchesDriverPath(pkgPath, e.match_)
      ==> d.name == e.name
  }

  lemma {:induction false} TechnologyFrom(pkgPath: string, allowlist: seq<Driver>)
    ensures match Technology(pkgPath, allowlist)
            case None => forall d :: d in allowlist ==> !MatchesDriverPath(pkgPath, d.match_)
            case Some(name) => exists d :: d in allowlist && MatchesDriverPath(pkgPath, d.match_) && d.name == name
  {
    hide MatchesDriverPath;
    if |allowlist| > 0 {
      TechnologyFrom(pkgPath, allowlist[1..]);
      assert allowlist == [allowlist[0]] + allowlist[1..];
    }
  }

  /** Contrary to what the list's comment says, its order matters, for the paths that match
      drivers of different names; and for those only. */
  lemma {:induction false} ListOrderMatters(pkgPath: string, allowlist: seq<Driver>)
    ensures Agree(pkgPath, allowlist) <==>
            forall other: seq<Driver> :: multiset(other) == multiset(allowlist)
                ==> Technology(pkgPath, other) == Technology(pkgPath, allowlist)
  {
    if Agree(pkgPath, allowlist) {
      forall other: seq<Driver> | multiset(other) == multiset(allowlist)
        ensures Technology(pkgPath, other) == Technology(pkgPath, allowlist)
      {
        SameNames(pkgPath, allowlist, other);
      }
    } else {
      var d, e :| d in allowlist && e in allowlist && MatchesDriverPath(pkgPath, d.match_)
          && MatchesDriverPath(pkgPath, e.match_) && d.name != e.name;
      var p := InFront(pkgPath, allowlist, d);
      var q := InFront(pkgPath, allowlist, e);
      assert Technology(pkgPath, p) != Technology(pkgPath, q);
    }
  }

  /** The list that findDatastores goes by. */
  const DRIVER_ALLOWLIST := [
    Driver("modernc.org/sqlite", "SQLite"),
    Driver("mattn/go-sqlite3", "SQLite"),
    Driver("lib/pq", "PostgreSQL"),
    Driver("jackc/pgx", "PostgreSQL"),
    Driver("go-redis", "Redis"),
    Driver("bbolt", "BoltDB"),
    Driver("badger", "Badger"),
    Driver("database/sql", "SQL")
  ]

  /** And there are paths on which its drivers do not agree: so for some other order of the list the
      same import is evidence of another datastore. */
  lemma {:induction false} AllowlistDisagrees() returns (other: seq<Driver>)
    ensures !Agree("x/go-redis/badger", DRIVER_ALLOWLIST)
    ensures multiset(other) == multiset(DRIVER_ALLOWLIST)
    ensures Technology("x/go-redis/badger", other) != Technology("x/go-redis/badger", DRIVER_ALLOWLIST)
  {
    hide *;
    NotAgreed();
    other := OtherOrder("x/go-redis/badger", DRIVER_ALLOWLIST);
  }

  lemma {:induction false} OtherOrder(pkgPath: string, allowlist: seq<Driver>) returns (other: seq<Driver>)
    requires !Agree(pkgPath, allowlist)
    ensures multiset(other) == multiset(allowlist) && Technology(pkgPath, other) != Technology(pkgPath, allowlist)
  {
    hide *;
    ListOrderMatters(pkgPath, allowlist);
    other :| multiset(other) == multiset(allowlist) && Technology(pkgPath, other) != Technology(pkgPath, allowlist);
  }

  lemma {:induction false} InAllowlist()
    ensures Driver("go-redis", "Redis") in DRIVER_ALLOWLIST && Driver("badger", "Badger") in DRIVER_ALLOWLIST
  {
    assert DRIVER_ALLOWLIST[4] == Driver("go-redis", "Redis");
    assert DRIVER_ALLOWLIST[6] == Driver("badger", "Badger");
  }

  lemma {:induction false} NotAgreed()
    ensures !Agree("x/go-redis/badger", DRIVER_ALLOWLIST)
  {
    hide MatchesDriverPath, DRIVER_ALLOWLIST;
    InAllowlist();
    BothMatch();
    NamesDiffer();
    var d, e := Driver("go-redis", "Redis"), Driver("badger", "Badger");
    assert MatchesDriverPath("x/go-redis/badger", d.match_) && MatchesDriverPath("x/go-redis/badger", e.match_);
  }

  lemma {:induction false} NamesDiffer()
    ensures "Redis" != "Badger"
  {
    assert "Redis"[0] != "Badger"[0];
  }

  lemma {:induction false} BothMatch()
    ensures MatchesDriverPath("x/go-redis/badger", "go-redis") && MatchesDriverPath("x/go-redis/badger", "badger")
  {
    assert "x/go-redis/badger" == "x" + ("/" + "go-redis" + "/") + "badger";
    assert "x/go-redis/badger" == "x/go-redis" + ("/" + "badger");
    hide *;
    MiddleMatches("x", "go-redis", "badger");
    EndMatches("x/go-redis", "badger");
  }

  lemma {:induction false} MiddleMatches(front: string, m: string, rest: string)
    ensures MatchesDriverPath(front + ("/" + m + "/") + rest, m)
  {
    ContainsMiddle(front, "/" + m + "/", rest);
    hide Contains;
  }

  lemma {:induction false} EndMatches(front: string, m: string)
    ensures MatchesDriverPath(front + ("/" + m), m)
  {
    assert HasSuffix(front + ("/" + m), "/" + m);
    hide Contains;
  }

  lemma {:induction false} SameNames(pkgPath: string, allowlist: seq<Driver>, other: seq<Driver>)
    requires Agree(pkgPath, allowlist) && multiset(other) == multiset(allowlist)
    ensures Technology(pkgPath, other) == Technology(pkgPath, allowlist)
  {
    TechnologyFrom(pkgPath, allowlist);
    TechnologyFrom(pkgPath, other);
    assert forall d :: d in allowlist <==> d in multiset(allowlist);
    assert forall d :: d in other <==> d in multiset(other);
    hide MatchesDriverPath, Technology;
  }

  lemma {:induction false} InFront(pkgPath: string, allowlist: seq<Driver>, d: Driver) returns (other: seq<Driver>)
    requires d in allowlist && MatchesDriverPath(pkgPath, d.match_)
    ensures multiset(other) == multiset(allowlist) && Technology(pkgPath, other) == Some(d.name)
  {
    hide MatchesDriverPath;
    var k :| 0 <= k < |allowlist| && allowlist[k] == d;
    other := [d] + (allowlist[..k] + allowlist[k + 1..]);
    assert allowlist == allowlist[..k] + [d] + allowlist[k + 1..];
  }

  // ---------- the groups ----------

  datatype Group = Group(driver: string, importers: map<string, Place>, place: Place)

  /** The rows that are evidence of the named datastore, in order. */
  function RowsFor(rows: seq<Row>, name: string, allowlist: seq<Driver>): seq<Row> {
    if |rows| == 0 then []
    else
      var n := |rows| - 1;
      RowsFor(rows[..n], name, allowlist)
      + if Technology(rows[n].pkgPath, allowlist) == Some(name) then [rows[n]] else []
  }

  function Places(rows: seq<Row>): seq<Place> { seq(|rows|, k requires 0 <= k < |rows| => rows[k].place) }

  function FromImporter(rows: seq<Row>, importer: string): seq<Row> {
    if |rows| == 0 then []
    else
      var n := |rows| - 1;
      FromImporter(rows[..n], importer) + if rows[n].importer == importer then [rows[n]] else []
  }

  function Importers(rows: seq<Row>): set<string> { set r | r in rows && r.importer != "" :: r.importer }

  function Names(rows: seq<Row>, allowlist: seq<Driver>): set<string> {
    set r | r in rows && Technology(r.pkgPath, allowlist).Some? :: Technology(r.pkgPath, allowlist).value
  }

  /** What the rows of one datastore come to: the first row's driver, the earliest place of each
      importer, and the earliest place of all. */
  function GroupOf(rows: seq<Row>): Group
    requires |rows| > 0
  {
    Group(rows[0].pkgPath, FirstPlaces(rows), Earliest(Places(rows)))
  }

  function FirstPlaces(rows: seq<Row>): map<string, Place> {
    map i | i in Importers(rows) :: Earliest(Places(FromImporter(rows, i)))
  }

  function Lookup(m: map<string, Place>, key: string): Place { if key in m then m[key] else Place("", 0) }

  function AddRow(g: Group, r: Row): Group {
    Group(g.driver, if r.importer != "" then g.importers[r.importer := Fold(Lookup(g.importers, r.importer), r.place)]
        else g.importers,
          Fold(g.place, r.place))
  }

  lemma {:induction false} PlacesNext(rows: seq<Row>, r: Row)
    ensures Earliest(Places(rows + [r])) == Fold(Earliest(Places(rows)), r.place)
  {
    assert Places(rows + [r]) == Places(rows) + [r.place];
    EarliestNext(Places(rows + [r]));
    assert Places(rows + [r])[..|rows|] == Places(rows);
  }

  lemma {:induction false} FromNext(rows: seq<Row>, r: Row, i: string)
    ensures Earliest(Places(FromImporter(rows + [r], i)))
         == if r.importer == i then Fold(Earliest(Places(FromImporter(rows, i))), r.place)
             else Earliest(Places(FromImporter(rows, i)))
  {
    assert (rows + [r])[..|rows|] == rows;
    PlacesNext(FromImporter(rows, i), r);
    hide Earliest, Places, Fold;
    assert FromImporter(rows, i) + [] == FromImporter(rows, i);
  }

  lemma {:induction false} FromNone(rows: seq<Row>, i: string)
    requires i != "" && i !in Importers(rows)
    ensures FromImporter(rows, i) == []
  {
    if |rows| > 0 {
      var n := |rows| - 1;
      assert rows == rows[..n] + [rows[n]];
      assert rows[n] in rows;
      FromNone(rows[..n], i);
    }
  }

  lemma {:induction false} ImportersNext(rows: seq<Row>, r: Row)
    ensures Importers(rows + [r]) == Importers(rows) + if r.importer != "" then {r.importer} else {}
  {
    assert forall x :: x in rows + [r] <==> x in rows || x == r;
  }

  lemma {:induction false} GroupFirst(r: Row)
    ensures GroupOf([r]) == AddRow(Group(r.pkgPath, map[], Place("", 0)), r)
  {
    PlacesNext([], r);
    ImportersNext([], r);
    FromNext([], r, r.importer);
    assert [] + [r] == [r];
    assert Importers([]) == {} && Earliest(Places([])) == Place("", 0)
        && Earliest(Places(FromImporter([], r.importer))) == Place("", 0);
    hide Earliest, Places, FromImporter, Fold, Importers;
  }

  lemma {:induction false} FirstPlaceOf(rows: seq<Row>, i: string)
    ensures i in FirstPlaces(rows) <==> i in Importers(rows)
    ensures i != "" ==> Lookup(FirstPlaces(rows), i) == Earliest(Places(FromImporter(rows, i)))
  {
    if i != "" && i !in Importers(rows) {
      FromNone(rows, i);
      assert Earliest(Places(FromImporter(rows, i))) == Place("", 0);
    }
    hide Earliest, Places, FromImporter;
  }

  lemma {:induction false} ImporterNamed(rows: seq<Row>)
    ensures "" !in Importers(rows)
  {
  }

  lemma {:induction false} FirstPlacesNext(rows: seq<Row>, r: Row)
    ensures var m := FirstPlaces(rows);
            FirstPlaces(rows + [r]) == if r.importer != "" then m[r.importer := Fold(Lookup(m, r.importer), r.place)]
                else m
  {
    hide Earliest, Places, FromImporter, Fold, Importers, FirstPlaces;
    ImportersNext(rows, r);
    ImporterNamed(rows);
    ImporterNamed(rows + [r]);
    var m, m1 := FirstPlaces(rows), FirstPlaces(rows + [r]);
    var next := if r.importer != "" then m[r.importer := Fold(Lookup(m, r.importer), r.place)] else m;
    forall i ensures (i in m1 <==> i in next) && (i in m1 ==> m1[i] == next[i]) {
      FromNext(rows, r, i);
      FirstPlaceOf(rows, i);
      FirstPlaceOf(rows + [r], i);
    }
  }

  lemma {:induction false} GroupNext(rows: seq<Row>, r: Row)
    requires |rows| > 0
    ensures GroupOf(rows + [r]) == AddRow(GroupOf(rows), r)
  {
    PlacesNext(rows, r);
    FirstPlacesNext(rows, r);
    hide Earliest, Places, Fold, FirstPlaces;
  }

  // ---------- findDatastores ----------

  /** The groups of the rows read so far, and their names in the order they came up. */
  ghost predicate AreGroups(groups: map<string, Group>, order: seq<string>, rows: seq<Row>, allowlist: seq<Driver>) {
    && groups.Keys == Names(rows, allowlist) && Distinct(order) && Elements(order) == groups.Keys
    && forall name <- groups :: |RowsFor(rows, name, allowlist)| > 0
        && groups[name] == GroupOf(RowsFor(rows, name, allowlist))
  }

  lemma {:induction false} RowsForNext(rows: seq<Row>, r: Row, allowlist: seq<Driver>, name: string)
    ensures RowsFor(rows + [r], name, allowlist)
         == if Technology(r.pkgPath, allowlist) == Some(name) then RowsFor(rows, name, allowlist) + [r]
             else RowsFor(rows, name, allowlist)
  {
    assert (rows + [r])[..|rows|] == rows;
    assert RowsFor(rows, name, allowlist) + [] == RowsFor(rows, name, allowlist);
  }

  lemma {:induction false} NamesNext(rows: seq<Row>, r: Row, allowlist: seq<Driver>)
    ensures var t := Technology(r.pkgPath, allowlist);
            Names(rows + [r], allowlist) == Names(rows, allowlist) + if t.Some? then {t.value} else {}
  {
    assert forall x :: x in rows + [r] <==> x in rows || x == r;
  }

  /** A datastore is named exactly if there are rows for it. */
  lemma {:induction false} NamedExactly(rows: seq<Row>, name: string, allowlist: seq<Driver>)
    ensures name in Names(rows, allowlist) <==> |RowsFor(rows, name, allowlist)| > 0
  {
    hide Technology;
    if name !in Names(rows, allowlist) {
      NoRows(rows, name, allowlist);
    } else {
      var r :| r in rows && Technology(r.pkgPath, allowlist) == Some(name);
      RowsForMembers(rows, name, allowlist, r);
    }
  }

  lemma {:induction false} NoRows(rows: seq<Row>, name: string, allowlist: seq<Driver>)
    requires name !in Names(rows, allowlist)
    ensures RowsFor(rows, name, allowlist) == []
  {
    if |rows| > 0 {
      var n := |rows| - 1;
      assert rows == rows[..n] + [rows[n]];
      NamesNext(rows[..n], rows[n], allowlist);
      NoRows(rows[..n], name, allowlist);
    }
  }

  lemma {:induction false} RowIgnored(groups: map<string, Group>, order: seq<string>, rows: seq<Row>, r: Row,
      allowlist: seq<Driver>)
    requires AreGroups(groups, order, rows, allowlist) && Technology(r.pkgPath, allowlist).None?
    ensures AreGroups(groups, order, rows + [r], allowlist)
  {
    NamesNext(rows, r, allowlist);
    forall name { RowsForNext(rows, r, allowlist, name); }
    hide Names, RowsFor, Technology, GroupOf, Distinct, Elements;
  }

  lemma {:induction false} OneMoreName(order: seq<string>, name: string)
    requires Distinct(order) && name !in Elements(order)
    ensures Distinct(order + [name]) && Elements(order + [name]) == Elements(order) + {name}
  {
  }

  /** The row joins its datastore's group, a new one if it is the first. */
  lemma {:induction false} RowTaken(groups: map<string, Group>, order: seq<string>, rows: seq<Row>, r: Row,
      allowlist: seq<Driver>, name: string)
    requires AreGroups(groups, order, rows, allowlist) && Technology(r.pkgPath, allowlist) == Some(name)
    ensures AreGroups(groups[name := AddRow(if name in groups then groups[name]
        else Group(r.pkgPath, map[], Place("", 0)), r)],
                      if name in groups then order else order + [name], rows + [r], allowlist)
  {
    hide Names, RowsFor, Technology, GroupOf, AddRow, Distinct, Elements;
    NamesNext(rows, r, allowlist);
    var g := groups[name := AddRow(if name in groups then groups[name] else Group(r.pkgPath, map[], Place("", 0)), r)];
    var before, after := RowsFor(rows, name, allowlist), RowsFor(rows + [r], name, allowlist);
    RowsForNext(rows, r, allowlist, name);
    if name in groups {
      GroupNext(before, r);
    } else {
      NoRows(rows, name, allowlist);
      GroupFirst(r);
      assert before + [r] == [r];
      OneMoreName(order, name);
    }
    assert g[name] == GroupOf(after);
    forall n | n in g ensures |RowsFor(rows + [r], n, allowlist)| > 0
        && g[n] == GroupOf(RowsFor(rows + [r], n, allowlist)) {
      RowsForNext(rows, r, allowlist, n);
    }
  }

  datatype Evidence = Evidence(pkg: string, place: Place)
  datatype Datastore = Datastore(name: string, driver: string, evidence: seq<string>, place: Place)

  function PkgsOf(list: seq<Evidence>): seq<string> { seq(|list|, k requires 0 <= k < |list| => list[k].pkg) }

  function ByPkg(): (Evidence, Evidence) -> bool { (a: Evidence, b: Evidence) => StrLess(a.pkg, b.pkg) }

  /** d is the datastore its rows come to, and list has each of its importers once, with the
      earliest place of the importer's own rows. */
  ghost predicate IsDatastore(d: Datastore, list: seq<Evidence>, rows: seq<Row>) {
    && |rows| > 0 && d.driver == rows[0].pkgPath && d.place == Earliest(Places(rows))
    && Ascending(d.evidence) && Elements(d.evidence) == Importers(rows)
    && PkgsOf(list) == d.evidence
    && forall k :: 0 <= k < |list| ==> list[k].place == Earliest(Places(FromImporter(rows, list[k].pkg)))
  }

  lemma {:induction false} ByPkgStrictWeak()
    ensures StrictWeak(ByPkg())
  {
    StrLessStrictWeak();
  }

  lemma {:induction false} DistinctEvidence(list: seq<Evidence>)
    requires Distinct(PkgsOf(list))
    ensures Distinct(list)
    ensures forall a, b :: a in list && b in list && a != b ==> a.pkg != b.pkg
  {
    assert forall k :: 0 <= k < |list| ==> PkgsOf(list)[k] == list[k].pkg;
    forall i, j | 0 <= i < j < |list| ensures list[i].pkg != list[j].pkg { assert PkgsOf(list)[i] != PkgsOf(list)[j]; }
  }

  /** Sorting the evidence by package sorts its packages. */
  lemma {:induction false} SortedPkgs(list: seq<Evidence>, sorted: seq<Evidence>)
    requires Distinct(PkgsOf(list)) && sorted == Sort(list, ByPkg())
    ensures Ascending(PkgsOf(sorted)) && Elements(PkgsOf(sorted)) == Elements(PkgsOf(list))
    ensures forall k :: 0 <= k < |sorted| ==> sorted[k] in list
  {
    DistinctEvidence(list);
    ByPkgStrictWeak();
    SortSorts(list, ByPkg());
    MultisetDistinct(list, sorted);
    SamePkgs(list, sorted);
    SamePkgs(sorted, list);
    hide Sort, StrictWeak, StrLess;
    forall k | 0 <= k < |sorted| ensures sorted[k] in list { assert sorted[k] in Elements(sorted); }
    forall i, j | 0 <= i < j < |sorted| ensures StrLess(sorted[i].pkg, sorted[j].pkg) {
      StrLessTotal(sorted[i].pkg, sorted[j].pkg);
      assert sorted[i] != sorted[j] && !ByPkg()(sorted[j], sorted[i]);
    }
  }

  lemma {:induction false} SamePkgs(a: seq<Evidence>, b: seq<Evidence>)
    requires Elements(a) == Elements(b)
    ensures Elements(PkgsOf(a)) <= Elements(PkgsOf(b))
  {
    forall x | x in PkgsOf(a) ensures x in PkgsOf(b) {
      var k :| 0 <= k < |a| && PkgsOf(a)[k] == x;
      assert a[k] in Elements(b);
      var m :| 0 <= m < |b| && b[m] == a[k];
      assert PkgsOf(b)[m] == x;
    }
  }

  /** One datastore, from its group. */
  method Emit(name: string, g: Group, ghost rows: seq<Row>) returns (d: Datastore, list: seq<Evidence>)
    requires |rows| > 0 && g == GroupOf(rows)
    ensures d.name == name && IsDatastore(d, list, rows)
  {
    hide Earliest, Places, FromImporter, Importers, Ascending, Sort;
    var keys := InSomeOrder(g.importers.Keys);
    assert g.importers.Keys == Importers(rows);
    assert forall k :: 0 <= k < |keys| ==> keys[k] in Elements(keys);
    var per := seq(|keys|, k requires 0 <= k < |keys| => Evidence(keys[k], g.importers[keys[k]]));
    assert PkgsOf(per) == keys;
    assert forall e :: e in per ==> e.place == Earliest(Places(FromImporter(rows, e.pkg)));
    hide Distinct, Elements, FirstPlaces;
    SortAscending(keys);
    list := Sort(per, ByPkg());
    SortedPkgs(per, list);
    AscendingUnique(PkgsOf(list), Sort(keys, StrLess));
    d := Datastore(name, g.driver, Sort(keys, StrLess), g.place);
  }

  function NamesOf(list: seq<Datastore>): seq<string> { seq(|list|, k requires 0 <= k < |list| => list[k].name) }

  /** The datastores of the first names, and their importers. */
  ghost predicate Emitted(out: seq<Datastore>, importers: map<string, seq<Evidence>>, names: seq<string>,
      rows: seq<Row>, allowlist: seq<Driver>)
  {
    && NamesOf(out) == names && importers.Keys == Elements(names)
    && forall k :: 0 <= k < |out| ==>
         out[k].name in importers
         && IsDatastore(out[k], importers[out[k].name], RowsFor(rows, out[k].name, allowlist))
  }

  lemma {:induction false} EmittedNone(rows: seq<Row>, allowlist: seq<Driver>)
    ensures Emitted([], map[], [], rows, allowlist)
  {
  }

  lemma {:induction false} EmittedNext(out: seq<Datastore>, importers: map<string, seq<Evidence>>, order: seq<string>,
      i: nat,
                                       rows: seq<Row>, allowlist: seq<Driver>, d: Datastore, list: seq<Evidence>)
    requires i < |order| && Distinct(order) && Emitted(out, importers, order[..i], rows, allowlist)
    requires d.name == order[i] && IsDatastore(d, list, RowsFor(rows, d.name, allowlist))
    ensures Emitted(out + [d], importers[d.name := list], order[..i + 1], rows, allowlist)
  {
    hide IsDatastore, RowsFor;
    assert order[..i + 1] == order[..i] + [order[i]];
    assert NamesOf(out + [d]) == NamesOf(out) + [d.name];
    forall k | 0 <= k < |out| ensures out[k].name != d.name { assert NamesOf(out)[k] == order[..i][k] == order[k]; }
  }

  /** findDatastores: a datastore for every technology some row is evidence of, by name, each
      with what its own rows come to. */
  method FindDatastores(rows: seq<Row>, allowlist: seq<Driver>)
      returns (out: seq<Datastore>, importers: map<string, seq<Evidence>>)
    ensures Ascending(NamesOf(out)) && Elements(NamesOf(out)) == Names(rows, allowlist)
    ensures Emitted(out, importers, NamesOf(out), rows, allowlist)
  {
    var groups, order := ScanRows(rows, allowlist);
    GroupsNamed(groups, order, rows, allowlist);
    hide *;
    SortAscending(order);
    order := Sort(order, StrLess);
    AscendingDistinct(order);
    out, importers := [], map[];
    EmittedNone(rows, allowlist);
    assert order[..0] == [];
    for i := 0 to |order|
      invariant Emitted(out, importers, order[..i], rows, allowlist)
    {
      InOrder(order, i);
      var d, list := Emit(order[i], groups[order[i]], RowsFor(rows, order[i], allowlist));
      EmittedNext(out, importers, order, i, rows, allowlist, d, list);
      out := out + [d];
      importers := importers[d.name := list];
    }
    assert order[..|order|] == order;
    EmittedNames(out, importers, order, rows, allowlist);
  }

  lemma {:induction false} InOrder(order: seq<string>, i: nat)
    requires i < |order|
    ensures order[i] in Elements(order)
  {
  }

  lemma {:induction false} EmittedNames(out: seq<Datastore>, importers: map<string, seq<Evidence>>, order: seq<string>,
      rows: seq<Row>, allowlist: seq<Driver>)
    requires Emitted(out, importers, order, rows, allowlist)
    ensures NamesOf(out) == order
  {
  }

  lemma {:induction false} GroupsNamed(groups: map<string, Group>, order: seq<string>, rows: seq<Row>,
      allowlist: seq<Driver>)
    requires AreGroups(groups, order, rows, allowlist)
    ensures Distinct(order) && Elements(order) == Names(rows, allowlist)
    ensures forall name :: name in Elements(order) ==>
              && name in groups && |RowsFor(rows, name, allowlist)| > 0
              && groups[name] == GroupOf(RowsFor(rows, name, allowlist))
  {
  }

  /** The scan of the rows. */
  method ScanRows(rows: seq<Row>, allowlist: seq<Driver>) returns (groups: map<string, Group>, order: seq<string>)
    ensures AreGroups(groups, order, rows, allowlist)
  {
    groups, order := map[], [];
    hide AreGroups;
    NoGroups(allowlist);
    for i := 0 to |rows|
      invariant AreGroups(groups, order, rows[..i], allowlist)
    {
      var row := rows[i];
      assert rows[..i + 1] == rows[..i] + [row];
      var d := 0;
      while d < |allowlist| && !MatchesDriverPath(row.pkgPath, allowlist[d].match_)
        invariant d <= |allowlist| && Technology(row.pkgPath, allowlist[d..]) == Technology(row.pkgPath, allowlist)
      {
        assert allowlist[d..][0] == allowlist[d] && allowlist[d..][1..] == allowlist[d + 1..];
        d := d + 1;
      }
      if d == |allowlist| {
        RowIgnored(groups, order, rows[..i], row, allowlist);
        continue;
      }
      assert allowlist[d..][0] == allowlist[d];
      var name := allowlist[d].name;
      RowTaken(groups, order, rows[..i], row, allowlist, name);
      ghost var before := groups;
      if name !in groups {
        groups := groups[name := Group(row.pkgPath, map[], Place("", 0))];
        order := order + [name];
      }
      var g := groups[name];
      if row.importer != "" {
        if row.importer !in g.importers || IsEarlierEvidence(row.place, g.importers[row.importer]) {
          g := g.(importers := g.importers[row.importer := row.place]);
        }
      }
      if IsEarlierEvidence(row.place, g.place) {
        g := g.(place := row.place);
      }
      groups := groups[name := g];
      assert g == AddRow(if name in before then before[name] else Group(row.pkgPath, map[], Place("", 0)), row);
      assert groups == before[name := g];
    }
    assert rows[..|rows|] == rows;
  }

  lemma {:induction false} NoGroups(allowlist: seq<Driver>)
    ensures AreGroups(map[], [], [], allowlist)
  {
  }

  // ---------- the order of the rows ----------

  lemma {:induction false} RowsForMembers(rows: seq<Row>, name: string, allowlist: seq<Driver>, r: Row)
    ensures r in RowsFor(rows, name, allowlist) <==> r in rows && Technology(r.pkgPath, allowlist) == Some(name)
  {
    hide Technology;
    if |rows| > 0 {
      RowsForMembers(rows[..|rows| - 1], name, allowlist, r);
      assert rows == rows[..|rows| - 1] + [rows[|rows| - 1]];
    }
  }

  lemma {:induction false} FromMembers(rows: seq<Row>, importer: string, r: Row)
    ensures r in FromImporter(rows, importer) <==> r in rows && r.importer == importer
  {
    if |rows| > 0 {
      FromMembers(rows[..|rows| - 1], importer, r);
      assert rows == rows[..|rows| - 1] + [rows[|rows| - 1]];
    }
  }

  lemma {:induction false} PlacesIncluded(a: seq<Row>, b: seq<Row>)
    requires Elements(a) <= Elements(b)
    ensures Elements(Places(a)) <= Elements(Places(b))
  {
    forall x | x in Places(a) ensures x in Places(b) {
      var k :| 0 <= k < |a| && Places(a)[k] == x;
      assert a[k] in Elements(b);
      var m :| 0 <= m < |b| && b[m] == a[k];
      assert Places(b)[m] == x;
    }
  }

  ghost predicate FilesNamed(rows: seq<Row>) { forall r :: r in rows ==> r.place.file != "" }

  lemma {:induction false} EarliestOfRows(a: seq<Row>, b: seq<Row>)
    requires Elements(a) == Elements(b) && FilesNamed(a)
    ensures Earliest(Places(a)) == Earliest(Places(b))
  {
    PlacesIncluded(a, b);
    PlacesIncluded(b, a);
    hide Earliest;
    assert AllNamed(Places(a));
    EarliestOrderFree(Places(a), Places(b));
  }

  lemma {:induction false} DatastoreOfSame(d: Datastore, list: seq<Evidence>, a: seq<Row>, e: Datastore,
      other: seq<Evidence>, b: seq<Row>)
    requires IsDatastore(d, list, a) && IsDatastore(e, other, b) && Elements(a) == Elements(b) && FilesNamed(a)
    ensures d.evidence == e.evidence && d.place == e.place && list == other
  {
    EarliestOfRows(a, b);
    assert Importers(a) == Importers(b) by {
      forall x ensures x in Importers(a) <==> x in Importers(b) {
        assert forall r :: r in a <==> r in Elements(a);
        assert forall r :: r in b <==> r in Elements(b);
      }
    }
    AscendingUnique(d.evidence, e.evidence);
    hide Earliest, Places, Importers, Ascending;
    assert |list| == |PkgsOf(list)| == |PkgsOf(other)| == |other|;
    forall k | 0 <= k < |list| ensures list[k] == other[k] {
      assert PkgsOf(list)[k] == list[k].pkg && PkgsOf(other)[k] == other[k].pkg;
      FromSame(a, b, list[k].pkg);
    }
  }

  /** Whatever order the import rows come in, a datastore's evidence and its places are the same;
      only the driver shown for it depends on which row is first. */
  lemma {:induction false} DatastoreOrderFree(a: seq<Row>, b: seq<Row>, allowlist: seq<Driver>, name: string,
                                              d: Datastore, list: seq<Evidence>, e: Datastore, other: seq<Evidence>)
    requires Elements(a) == Elements(b) && FilesNamed(a)
    requires IsDatastore(d, list, RowsFor(a, name, allowlist)) && IsDatastore(e, other, RowsFor(b, name, allowlist))
    ensures d.evidence == e.evidence && d.place == e.place && list == other
  {
    hide RowsFor, IsDatastore, Technology;
    forall r ensures r in RowsFor(a, name, allowlist) <==> r in RowsFor(b, name, allowlist) {
      RowsForMembers(a, name, allowlist, r);
      RowsForMembers(b, name, allowlist, r);
      assert r in a <==> r in Elements(a);
      assert r in b <==> r in Elements(b);
    }
    forall r | r in RowsFor(a, name, allowlist) ensures r.place.file != "" { RowsForMembers(a, name, allowlist, r); }
    DatastoreOfSame(d, list, RowsFor(a, name, allowlist), e, other, RowsFor(b, name, allowlist));
  }

  lemma {:induction false} FromSame(a: seq<Row>, b: seq<Row>, importer: string)
    requires Elements(a) == Elements(b) && FilesNamed(a)
    ensures Earliest(Places(FromImporter(a, importer))) == Earliest(Places(FromImporter(b, importer)))
  {
    hide Earliest, Places, FromImporter;
    forall r ensures r in FromImporter(a, importer) <==> r in FromImporter(b, importer) {
      FromMembers(a, importer, r);
      FromMembers(b, importer, r);
      assert r in a <==> r in Elements(a);
      assert r in b <==> r in Elements(b);
    }
    forall r | r in FromImporter(a, importer) ensures r.place.file != "" { FromMembers(a, importer, r); }
    EarliestOfRows(FromImporter(a, importer), FromImporter(b, importer));
  }

  // ---------- mergeExternalSystems ----------

  datatype External = External(name: string, kind: string, evidence: seq<string>, place: Place)

  function Combined(e: External, im: External): External {
    External(e.name, "env+import", e.evidence + im.evidence,
        if IsEarlierEvidence(im.place, e.place) then im.place else e.place)
  }

  /** A merged system has the name of the env system and the evidence of both, at the earlier of the
      two places, the env one when they are equal. */
  lemma {:induction false} CombinedExactly(e: External, im: External)
    requires e.place.file != "" && im.place.file != ""
    ensures var c := Combined(e, im);
            && c.name == e.name && c.evidence == e.evidence + im.evidence && c.kind == "env+import"
            && IsFirst(c.place, [e.place, im.place])
  {
    BeforeTotal(e.place, im.place);
    BeforeTotal(e.place, e.place);
    BeforeTotal(im.place, im.place);
    assert e.place in [e.place, im.place] && im.place in [e.place, im.place];
    StrLessTotal(e.place.file, im.place.file);
  }

  predicate Correlates(e: External, im: External, token: string -> string) {
    token(im.name) != "" && token(im.name) == e.name
  }

  lemma {:induction false} CorrelatesExactly(e: External, im: External, token: string -> string)
    ensures Correlates(e, im, token) <==> token(im.name) == e.name != ""
  {
  }

  /** Which import each env system is merged with (-1 for none): the first that correlates and
      that no earlier env system has. */
  ghost predicate IsPairing(pair: seq<int>, env: seq<External>, imports: seq<External>, token: string -> string) {
    |pair| <= |env| && forall i :: 0 <= i < |pair| ==> IsPartner(pair[..i], pair[i], env[i], imports, token)
  }

  ghost predicate IsPartner(earlier: seq<int>, k: int, e: External, imports: seq<External>, token: string -> string) {
    && -1 <= k < |imports| && (k >= 0 ==> k !in earlier && Correlates(e, imports[k], token))
    && forall m :: 0 <= m < (if k == -1 then |imports| else k) && Correlates(e, imports[m], token) ==> m in earlier
  }

  /** The env systems, each merged with its import. */
  function Merged(env: seq<External>, imports: seq<External>, pair: seq<int>): seq<External>
    requires |pair| == |env| && forall i :: 0 <= i < |pair| ==> pair[i] < |imports|
  {
    seq(|env|, i requires 0 <= i < |env| => if pair[i] < 0 then env[i] else Combined(env[i], imports[pair[i]]))
  }

  /** The first n imports that no env system has and that are known services. */
  function Alone(imports: seq<External>, n: nat, used: set<int>, known: string -> bool): seq<External>
    requires n <= |imports|
  {
    if n == 0 then []
    else
      Alone(imports, n - 1, used, known)
      + if n - 1 !in used && known(imports[n - 1].name) then [imports[n - 1]] else []
  }

  function ByName(): (External, External) -> bool { (a: External, b: External) => StrLess(a.name, b.name) }

  /** A pairing of the first env systems; no import is in it twice, and used holds those that are. */
  ghost predicate Paired(pair: seq<int>, used: set<int>, env: seq<External>, imports: seq<External>,
      token: string -> string)
  {
    && |pair| <= |env| && IsPairing(pair, env, imports, token)
    && (forall m :: m in used <==> m >= 0 && m in pair)
    && (forall i :: 0 <= i < |pair| ==> pair[i] < |imports|)
    && forall i, j :: 0 <= i < j < |pair| && pair[i] >= 0 ==> pair[i] != pair[j]
  }

  /** mergeExternalSystems: every env system once, with at most one import and no import twice; of
      the other imports those that are known services; all by name. */
  method MergeExternalSystems(env: seq<External>, imports: seq<External>, token: string -> string,
      known: string -> bool)
    returns (merged: seq<External>, ghost pair: seq<int>, ghost used: set<int>)
    ensures |pair| == |env| && Paired(pair, used, env, imports, token)
    ensures multiset(merged) == multiset(Merged(env, imports, pair) + Alone(imports, |imports|, used, known))
    ensures forall i, j :: 0 <= i < j < |merged| ==> !StrLess(merged[j].name, merged[i].name)
  {
    hide *;
    var usedImport;
    merged, usedImport, pair := MergeEnv(env, imports, token);
    ghost var head := merged;
    AloneNone(imports, usedImport, known);
    for i := 0 to |imports|
      invariant merged == head + Alone(imports, i, usedImport, known)
    {
      AloneNext(imports, i, usedImport, known);
      if i in usedImport || !known(imports[i].name) {
        continue;
      }
      merged := merged + [imports[i]];
    }
    ghost var list := merged;
    merged := Sort(merged, ByName());
    ByNameSorts(list, merged);
    used := usedImport;
  }

  lemma {:induction false} AloneNone(imports: seq<External>, used: set<int>, known: string -> bool)
    ensures Alone(imports, 0, used, known) == []
  {
  }

  lemma {:induction false} AloneNext(imports: seq<External>, i: nat, used: set<int>, known: string -> bool)
    requires i < |imports|
    ensures Alone(imports, i + 1, used, known) == Alone(imports, i, used, known)
        + if i !in used && known(imports[i].name) then [imports[i]] else []
  {
  }

  /** The loop over the env systems. */
  method MergeEnv(env: seq<External>, imports: seq<External>, token: string -> string)
    returns (merged: seq<External>, usedImport: set<int>, ghost pair: seq<int>)
    ensures |pair| == |env| && Paired(pair, usedImport, env, imports, token)
    ensures merged == Merged(env, imports, pair)
  {
    usedImport, merged, pair := {}, [], [];
    PairedNone(env, imports, token);
    hide Paired, Merged, IsPartner, Correlates, Combined;
    for i := 0 to |env|
      invariant |pair| == i && Paired(pair, usedImport, env, imports, token)
      invariant merged == MergedPart(env, i, imports, pair)
    {
      var e := env[i];
      var matchIdx := FirstPartner(e, imports, usedImport, token);
      forall im { CorrelatesExactly(e, im, token); }
      PairedNext(pair, usedImport, matchIdx, env, imports, token);
      MergedNext(env, i, imports, pair, matchIdx);
      if matchIdx == -1 {
        merged := merged + [e];
      } else {
        var im := imports[matchIdx];
        usedImport := usedImport + {matchIdx};
        var combined := e.(kind := "env+import", evidence := e.evidence + im.evidence);
        if IsEarlierEvidence(im.place, combined.place) {
          combined := combined.(place := im.place);
        }
        CombinedIs(e, im, combined);
        merged := merged + [combined];
      }
      pair := pair + [matchIdx];
    }
    assert env[..|env|] == env;
    PartIsAll(env, imports, pair);
  }

  function MergedPart(env: seq<External>, n: nat, imports: seq<External>, pair: seq<int>): seq<External> {
    if n <= |env| && |pair| == n && forall i :: 0 <= i < n ==> pair[i] < |imports| then Merged(env[..n], imports, pair)
        else []
  }

  lemma {:induction false} PartIsAll(env: seq<External>, imports: seq<External>, pair: seq<int>)
    requires |pair| == |env| && exists used, token :: Paired(pair, used, env, imports, token)
    ensures (forall i :: 0 <= i < |pair| ==> pair[i] < |imports|)
        && MergedPart(env, |env|, imports, pair) == Merged(env, imports, pair)
  {
    assert env[..|env|] == env;
  }

  lemma {:induction false} CombinedIs(e: External, im: External, c: External)
    requires c == e.(kind := "env+import", evidence := e.evidence + im.evidence,
        place := if IsEarlierEvidence(im.place, e.place) then im.place else e.place)
    ensures c == Combined(e, im)
  {
  }

  lemma {:induction false} MergedNext(env: seq<External>, i: nat, imports: seq<External>, pair: seq<int>, k: int)
    requires i < |env| && |pair| == i && (forall a :: 0 <= a < i ==> pair[a] < |imports|) && k < |imports|
    ensures MergedPart(env, i + 1, imports, pair + [k])
         == MergedPart(env, i, imports, pair) + [if k < 0 then env[i] else Combined(env[i], imports[k])]
  {
  }

  lemma {:induction false} PairedNone(env: seq<External>, imports: seq<External>, token: string -> string)
    ensures Paired([], {}, env, imports, token) && MergedPart(env, 0, imports, []) == []
  {
  }

  lemma {:induction false} PairedNext(pair: seq<int>, used: set<int>, k: int, env: seq<External>,
      imports: seq<External>, token: string -> string)
    requires |pair| < |env| && Paired(pair, used, env, imports, token)
    requires -1 <= k < |imports| && (k >= 0 ==> k !in used && Correlates(env[|pair|], imports[k], token))
    requires forall m ::
               0 <= m < (if k == -1 then |imports| else k) && Correlates(env[|pair|], imports[m], token)
               ==> m in used
    ensures Paired(pair + [k], if k == -1 then used else used + {k}, env, imports, token)
    ensures forall a :: 0 <= a < |pair| ==> pair[a] < |imports|
  {
    assert IsPartner(pair, k, env[|pair|], imports, token);
    PairingNext(pair, k, env, imports, token);
    hide IsPairing, IsPartner, Correlates;
  }

  lemma {:induction false} ByNameSorts(list: seq<External>, sorted: seq<External>)
    requires sorted == Sort(list, ByName())
    ensures forall i, j :: 0 <= i < j < |sorted| ==> !StrLess(sorted[j].name, sorted[i].name)
  {
    StrLessStrictWeak();
    SortSorts(list, ByName());
  }

  lemma {:induction false} PairingNext(pair: seq<int>, k: int, env: seq<External>, imports: seq<External>,
      token: string -> string)
    requires |pair| < |env| && IsPairing(pair, env, imports, token) && IsPartner(pair, k, env[|pair|], imports, token)
    ensures IsPairing(pair + [k], env, imports, token)
  {
    hide IsPartner;
    var r := pair + [k];
    forall i | 0 <= i < |r| ensures IsPartner(r[..i], r[i], env[i], imports, token) {
      if i < |pair| { assert r[..i] == pair[..i]; } else { assert r[..i] == pair; }
    }
  }

  /** The search for an unused import that correlates. */
  method FirstPartner(e: External, imports: seq<External>, usedImport: set<int>, token: string -> string)
      returns (matchIdx: int)
    ensures -1 <= matchIdx < |imports|
    ensures matchIdx >= 0 ==> matchIdx !in usedImport && token(imports[matchIdx].name) == e.name != ""
    ensures forall m ::
              0 <= m < (if matchIdx == -1 then |imports| else matchIdx) && token(imports[m].name) == e.name != ""
              ==> m in usedImport
  {
    matchIdx := -1;
    for i := 0 to |imports|
      invariant matchIdx == -1
      invariant forall m :: 0 <= m < i && token(imports[m].name) == e.name != "" ==> m in usedImport
    {
      if i in usedImport {
        continue;
      }
      var t := token(imports[i].name);
      if t == "" {
        continue;
      }
      if t == e.name {
        matchIdx := i;
        break;
      }
    }
  }
}
