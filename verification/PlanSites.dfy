/** The call-site sections of a plan, cmd/plan.go: production and test references share one cap,
    and each section groups its sites by package. */
module PlanSites {
  import opened Ordering
  import DdlText
  import DdlCompact

  /** A row of FindCallSites. */
  datatype Ref = Ref(rel: string, abs: string, isTest: bool, line: int, col: int, enclosingId: string,
                     id: string, enclosing: string, snippet: string, astCtx: string)
  datatype Site = Site(file: string, line: int, col: int, id: string, refId: string, enclosing: string, snippet: string,
      astCtx: string)
  datatype Package = Package(path: string)
  datatype Group = Group(pkg: Package, sites: seq<Site>)

  function RelFile(rel: string, abs: string): string { if rel != "" then rel else abs }

  function SiteOf(r: Ref): Site {
    Site(RelFile(r.rel, r.abs), r.line, r.col, r.enclosingId, r.id, r.enclosing, DdlCompact.TrimSpace(r.snippet),
        r.astCtx)
  }

  /** What is shown of a reference: its file, relative if that is known, its place and names, and its
      snippet without the white space around it. */
  lemma {:induction false} SiteShows(r: Ref, dir: string -> Package) returns (a: string, b: string)
    ensures var site := SiteOf(r);
            && (r.rel != "" ==> site.file == r.rel) && (r.rel == "" ==> site.file == r.abs)
            && (site.line, site.col, site.id, site.refId) == (r.line, r.col, r.enclosingId, r.id)
            && (site.enclosing, site.astCtx) == (r.enclosing, r.astCtx)
            && r.snippet == a + site.snippet + b && DdlText.Blank(a) && DdlText.Blank(b)
            && (site.snippet != "" ==>
                  && !DdlText.IsSpace(site.snippet[0])
                  && !DdlText.IsSpace(site.snippet[|site.snippet| - 1]))
            && Pkg(r, dir) == dir(site.file)
  {
    a, b := DdlCompact.TrimSpaceExactly(r.snippet);
    hide DdlCompact.TrimSpace, DdlText.Blank;
  }

  /** The package of a reference: its file's directory, as filepath.Dir gives it. */
  function Pkg(r: Ref, dir: string -> Package): Package { dir(RelFile(r.rel, r.abs)) }

  // ---------- what the groups should be ----------

  /** The packages in the order they first come up. */
  function Pkgs(refs: seq<Ref>, dir: string -> Package): seq<Package> {
    if |refs| == 0 then []
    else
      var n := |refs| - 1;
      var p := Pkgs(refs[..n], dir);
      if Pkg(refs[n], dir) in p then p else p + [Pkg(refs[n], dir)]
  }

  /** The sites of one package, in order. */
  function SitesIn(refs: seq<Ref>, pkg: Package, dir: string -> Package): seq<Site> {
    if |refs| == 0 then []
    else
      var n := |refs| - 1;
      SitesIn(refs[..n], pkg, dir) + if Pkg(refs[n], dir) == pkg then [SiteOf(refs[n])] else []
  }

  function Grouped(refs: seq<Ref>, dir: string -> Package): (r: seq<Group>)
    ensures |r| == |Pkgs(refs, dir)|
  {
    var p := Pkgs(refs, dir);
    seq(|p|, k requires 0 <= k < |p| => Group(p[k], SitesIn(refs, p[k], dir)))
  }

  function PkgSet(refs: seq<Ref>, dir: string -> Package): set<Package> { set r | r in refs :: Pkg(r, dir) }

  lemma {:induction false} PkgSetNext(refs: seq<Ref>, i: nat, dir: string -> Package)
    requires i < |refs|
    ensures PkgSet(refs[..i + 1], dir) == PkgSet(refs[..i], dir) + {Pkg(refs[i], dir)}
  {
    assert refs[..i + 1] == refs[..i] + [refs[i]];
  }

  /** No package twice, and none left out. */
  lemma {:induction false} PkgsOnce(refs: seq<Ref>, dir: string -> Package)
    ensures Distinct(Pkgs(refs, dir)) && Elements(Pkgs(refs, dir)) == PkgSet(refs, dir)
  {
    if |refs| > 0 {
      var n := |refs| - 1;
      PkgsOnce(refs[..n], dir);
      PkgSetNext(refs, n, dir);
      assert refs[..n + 1] == refs;
      var p, q := Pkgs(refs[..n], dir), Pkg(refs[n], dir);
      assert Elements(p + [q]) == Elements(p) + {q};
      assert q in p <==> q in Elements(p);
    }
  }

  // ---------- one more reference ----------

  lemma {:induction false} NoSites(refs: seq<Ref>, pkg: Package, dir: string -> Package)
    requires pkg !in Pkgs(refs, dir)
    ensures SitesIn(refs, pkg, dir) == []
  {
    if |refs| > 0 {
      NoSites(refs[..|refs| - 1], pkg, dir);
    }
  }

  lemma {:induction false} OneMoreRef(refs: seq<Ref>, r: Ref, dir: string -> Package)
    ensures Pkgs(refs + [r], dir) == if Pkg(r, dir) in Pkgs(refs, dir) then Pkgs(refs, dir)
        else Pkgs(refs, dir) + [Pkg(r, dir)]
    ensures forall p :: SitesIn(refs + [r], p, dir)
                     == SitesIn(refs, p, dir) + if Pkg(r, dir) == p then [SiteOf(r)] else []
  {
    assert (refs + [r])[..|refs|] == refs;
  }

  lemma {:induction false} GroupAt(refs: seq<Ref>, k: nat, dir: string -> Package)
    requires k < |Pkgs(refs, dir)|
    ensures Grouped(refs, dir)[k] == Group(Pkgs(refs, dir)[k], SitesIn(refs, Pkgs(refs, dir)[k], dir))
  {
  }

  lemma {:induction false} GroupNew(refs: seq<Ref>, r: Ref, dir: string -> Package)
    requires Pkg(r, dir) !in Pkgs(refs, dir)
    ensures Grouped(refs + [r], dir) == Grouped(refs, dir) + [Group(Pkg(r, dir), [SiteOf(r)])]
  {
    OneMoreRef(refs, r, dir);
    NoSites(refs, Pkg(r, dir), dir);
    hide Pkgs, SitesIn, Pkg, SiteOf, Grouped;
    var p, a, b := Pkgs(refs, dir), Grouped(refs + [r], dir), Grouped(refs, dir) + [Group(Pkg(r, dir), [SiteOf(r)])];
    assert |a| == |b| == |p| + 1;
    forall k | 0 <= k < |a| ensures a[k] == b[k] {
      GroupAt(refs + [r], k, dir);
      if k < |p| {
        GroupAt(refs, k, dir);
        assert p[k] in p;
      }
    }
  }

  lemma {:induction false} GroupMore(refs: seq<Ref>, r: Ref, k: nat, dir: string -> Package)
    requires k < |Pkgs(refs, dir)| && Pkgs(refs, dir)[k] == Pkg(r, dir)
    ensures var g := Grouped(refs, dir)[k];
            g.pkg == Pkg(r, dir) && Grouped(refs + [r], dir) == WithSite(Grouped(refs, dir), k, SiteOf(r))
  {
    OneMoreRef(refs, r, dir);
    PkgsOnce(refs, dir);
    GroupAt(refs, k, dir);
    hide Pkgs, SitesIn, Pkg, SiteOf, Grouped;
    var p, g := Pkgs(refs, dir), Grouped(refs, dir)[k];
    var a, b := Grouped(refs + [r], dir), WithSite(Grouped(refs, dir), k, SiteOf(r));
    assert |a| == |b| == |p|;
    forall j | 0 <= j < |a| ensures a[j] == b[j] {
      GroupAt(refs + [r], j, dir);
      GroupAt(refs, j, dir);
      if j != k { assert p[j] != p[k]; }
    }
  }

  // ---------- the methods ----------

  function Part(refs: seq<Ref>, test: bool): seq<Ref> {
    if |refs| == 0 then []
    else
      var n := |refs| - 1;
      Part(refs[..n], test) + if refs[n].isTest == test then [refs[n]] else []
  }

  method PlanPartitionRefs(refs: seq<Ref>) returns (prod: seq<Ref>, test: seq<Ref>)
    ensures prod == Part(refs, false) && test == Part(refs, true)
  {
    prod, test := [], [];
    for i := 0 to |refs|
      invariant prod == Part(refs[..i], false) && test == Part(refs[..i], true)
    {
      assert refs[..i + 1][..i] == refs[..i];
      if refs[i].isTest {
        test := test + [refs[i]];
      } else {
        prod := prod + [refs[i]];
      }
    }
    assert refs[..|refs|] == refs;
  }

  /** Each reference is in one of the parts. */
  lemma {:induction false} PartsAddUp(refs: seq<Ref>)
    ensures |Part(refs, false)| + |Part(refs, true)| == |refs|
    ensures forall r :: r in refs <==> r in Part(refs, r.isTest)
  {
    if |refs| > 0 {
      var n := |refs| - 1;
      PartsAddUp(refs[..n]);
      assert refs == refs[..n] + [refs[n]];
    }
  }

  /** planTestBudget: what the production section leaves of the cap. */
  function PlanTestBudget(maxCallers: int, prodTotal: int, prodTruncated: int): int {
    if maxCallers < 0 then maxCallers
    else if maxCallers - (prodTotal - prodTruncated) > 0 then maxCallers - (prodTotal - prodTruncated)
    else 0
  }

  /** The references a cap lets through: the first maxSites, or all when it is negative. */
  function Capped(refs: seq<Ref>, maxSites: int): seq<Ref> {
    if maxSites >= 0 && |refs| > maxSites then refs[..maxSites] else refs
  }

  method PlanBuildCallSites(refs: seq<Ref>, maxSites: int, dir: string -> Package)
    returns (groups: seq<Group>, truncated: nat, totalSites: nat, totalPkgs: nat)
    ensures groups == Grouped(Capped(refs, maxSites), dir)
    ensures totalSites == |refs| && truncated == |refs| - |Capped(refs, maxSites)|
    ensures totalPkgs == |PkgSet(refs, dir)|
  {
    totalSites := |refs|;
    var seenPkg: set<Package> := {};
    for i := 0 to |refs|
      invariant seenPkg == PkgSet(refs[..i], dir)
    {
      PkgSetNext(refs, i, dir);
      seenPkg := seenPkg + {dir(RelFile(refs[i].rel, refs[i].abs))};
    }
    assert refs[..|refs|] == refs;
    totalPkgs := |seenPkg|;
    truncated := 0;
    var shown := refs;
    if maxSites >= 0 && |refs| > maxSites {
      truncated := |refs| - maxSites;
      shown := refs[..maxSites];
    }
    groups := GroupSites(shown, dir);
  }

  method GroupSites(refs: seq<Ref>, dir: string -> Package) returns (groups: seq<Group>)
    ensures groups == Grouped(refs, dir)
  {
    groups := [];
    var idx: map<Package, nat> := map[];
    assert Grouped([], dir) == [] && refs[..0] == [];
    hide Grouped, Pkgs, SitesIn, SiteOf;
    for i := 0 to |refs|
      invariant groups == Grouped(refs[..i], dir)
      invariant IsIndex(idx, refs[..i], dir)
    {
      var r := refs[i];
      assert refs[..i + 1] == refs[..i] + [r];
      var file := RelFile(r.rel, r.abs);
      var pkg := dir(file);
      IndexNext(idx, refs[..i], r, dir);
      if pkg !in idx {
        GroupNew(refs[..i], r, dir);
        idx := idx[pkg := |groups|];
        groups := groups + [Group(pkg, [])];
      } else {
        GroupMore(refs[..i], r, idx[pkg], dir);
      }
      var gi := idx[pkg];
      groups := groups[gi := Group(groups[gi].pkg, groups[gi].sites + [SiteOf(r)])];
    }
    assert refs[..|refs|] == refs;
  }

  /** idx gives each package's place in the list of packages. */
  ghost predicate IsIndex(idx: map<Package, nat>, refs: seq<Ref>, dir: string -> Package) {
    var pkgs := Pkgs(refs, dir);
    && (forall p <- idx :: idx[p] < |pkgs| && pkgs[idx[p]] == p)
    && forall k :: 0 <= k < |pkgs| ==> pkgs[k] in idx && idx[pkgs[k]] == k
  }

  lemma {:induction false} IndexNext(idx: map<Package, nat>, refs: seq<Ref>, r: Ref, dir: string -> Package)
    requires IsIndex(idx, refs, dir)
    ensures var p, n := Pkg(r, dir), |Grouped(refs, dir)|;
            if p in idx then p in Pkgs(refs, dir) && IsIndex(idx, refs + [r], dir)
            else p !in Pkgs(refs, dir) && IsIndex(idx[p := n], refs + [r], dir)
  {
    OneMoreRef(refs, r, dir);
    hide Pkgs, Pkg, Grouped, SitesIn;
  }

  // ---------- what is emitted ----------

  /** The sites of all groups, group after group. */
  function Flatten(groups: seq<Group>): seq<Site> {
    if |groups| == 0 then [] else Flatten(groups[..|groups| - 1]) + groups[|groups| - 1].sites
  }

  function SitesOf(refs: seq<Ref>): seq<Site> { seq(|refs|, k requires 0 <= k < |refs| => SiteOf(refs[k])) }

  function WithSite(groups: seq<Group>, k: nat, s: Site): seq<Group>
    requires k < |groups|
  {
    groups[k := Group(groups[k].pkg, groups[k].sites + [s])]
  }

  lemma {:induction false} FlattenLast(groups: seq<Group>, s: Site)
    requires |groups| > 0
    ensures Flatten(WithSite(groups, |groups| - 1, s)) == Flatten(groups) + [s]
  {
    var n := |groups| - 1;
    assert WithSite(groups, n, s)[..n] == groups[..n];
    assert Flatten(groups[..n]) + (groups[n].sites + [s]) == Flatten(groups) + [s];
  }

  lemma {:induction false} FlattenMore(groups: seq<Group>, k: nat, s: Site)
    requires k < |groups|
    ensures multiset(Flatten(WithSite(groups, k, s))) == multiset(Flatten(groups)) + multiset{s}
  {
    var n := |groups| - 1;
    if k == n {
      FlattenLast(groups, s);
      hide Flatten;
    } else {
      var init := groups[..n];
      FlattenMore(init, k, s);
      assert WithSite(groups, k, s)[..n] == WithSite(init, k, s) && WithSite(groups, k, s)[n] == groups[n];
      assert Flatten(WithSite(groups, k, s)) == Flatten(WithSite(init, k, s)) + groups[n].sites
          && Flatten(groups) == Flatten(init) + groups[n].sites;
      hide Flatten, WithSite;
    }
  }

  lemma {:induction false} FlattenNew(groups: seq<Group>, pkg: Package, s: Site)
    ensures Flatten(groups + [Group(pkg, [s])]) == Flatten(groups) + [s]
  {
    assert (groups + [Group(pkg, [s])])[..|groups|] == groups;
  }

  lemma {:induction false} FlattenStep(refs: seq<Ref>, r: Ref, dir: string -> Package)
    ensures multiset(Flatten(Grouped(refs + [r], dir))) == multiset(Flatten(Grouped(refs, dir))) + multiset{SiteOf(r)}
  {
    var p, g := Pkgs(refs, dir), Grouped(refs, dir);
    if Pkg(r, dir) in p {
      var k :| 0 <= k < |p| && p[k] == Pkg(r, dir);
      GroupMore(refs, r, k, dir);
      FlattenMore(g, k, SiteOf(r));
      hide Grouped, Flatten, SiteOf, Pkg, Pkgs;
    } else {
      GroupNew(refs, r, dir);
      FlattenNew(g, Pkg(r, dir), SiteOf(r));
      hide Grouped, Flatten, SiteOf, Pkg, Pkgs;
    }
  }

  lemma {:induction false} SitesOfNext(refs: seq<Ref>, r: Ref)
    ensures SitesOf(refs + [r]) == SitesOf(refs) + [SiteOf(r)]
  {
  }

  lemma {:induction false} NoneEmitted(dir: string -> Package)
    ensures Flatten(Grouped([], dir)) == [] == SitesOf([])
  {
  }

  /** Every shown reference is emitted once, and nothing else. */
  lemma {:induction false} GroupedKeepsAll(refs: seq<Ref>, dir: string -> Package)
    ensures multiset(Flatten(Grouped(refs, dir))) == multiset(SitesOf(refs))
  {
    hide Flatten, Grouped, SitesOf, SiteOf;
    if |refs| == 0 {
      NoneEmitted(dir);
      assert refs == [];
    } else {
      var init, r := refs[..|refs| - 1], refs[|refs| - 1];
      assert refs == init + [r];
      GroupedKeepsAll(init, dir);
      FlattenStep(init, r, dir);
      SitesOfNext(init, r);
    }
  }

  lemma {:induction false} GroupedCount(refs: seq<Ref>, dir: string -> Package)
    ensures |Flatten(Grouped(refs, dir))| == |refs|
  {
    GroupedKeepsAll(refs, dir);
    SameCount(Flatten(Grouped(refs, dir)), SitesOf(refs));
    hide Flatten, Grouped;
  }

  lemma {:induction false} SameCount<T>(a: seq<T>, b: seq<T>)
    ensures multiset(a) == multiset(b) ==> |a| == |b|
  {
    assert |multiset(a)| == |a| && |multiset(b)| == |b|;
  }

  /** The signature section: both parts of the references under one cap. Together they emit
      min(maxCallers, |refs|) sites, production first, and each says what it dropped. */
  method PlanSignature(refs: seq<Ref>, maxCallers: int, dir: string -> Package)
    returns (sites: seq<Group>, truncated: nat, testSites: seq<Group>, testTruncated: nat)
    ensures var prod, test := |Flatten(sites)|, |Flatten(testSites)|;
            && prod + truncated == |Part(refs, false)| && test + testTruncated == |Part(refs, true)|
            && prod + test == (if 0 <= maxCallers < |refs| then maxCallers else |refs|)
            && (test > 0 ==> truncated == 0)
    ensures exists m, n :: 0 <= m <= |Part(refs, false)| && 0 <= n <= |Part(refs, true)|
              && sites == Grouped(Part(refs, false)[..m], dir) && testSites == Grouped(Part(refs, true)[..n], dir)
  {
    var prodRefs, testRefs := PlanPartitionRefs(refs);
    PartsAddUp(refs);
    hide Grouped, Flatten, Part;
    var total, pkgs;
    sites, truncated, total, pkgs := PlanBuildCallSites(prodRefs, maxCallers, dir);
    var budget := PlanTestBudget(maxCallers, total, truncated);
    var testTotal, testPkgs;
    testSites, testTruncated, testTotal, testPkgs := PlanBuildCallSites(testRefs, budget, dir);
    GroupedCount(Capped(prodRefs, maxCallers), dir);
    GroupedCount(Capped(testRefs, budget), dir);
    assert Capped(prodRefs, maxCallers) == prodRefs[..|prodRefs| - truncated];
    assert Capped(testRefs, budget) == testRefs[..|testRefs| - testTruncated];
  }

  // ---------- whether the order of the references survives ----------

  function PkgList(sites: seq<Site>, dir: string -> Package): seq<Package> {
    seq(|sites|, k requires 0 <= k < |sites| => dir(sites[k].file))
  }

  /** Equal packages stand together. */
  ghost predicate Contiguous(pkgs: seq<Package>) {
    forall i, j, k :: 0 <= i < j < k < |pkgs| && pkgs[i] == pkgs[k] ==> pkgs[j] == pkgs[i]
  }

  lemma {:induction false} Between(pkgs: seq<Package>, i: nat, j: nat, k: nat)
    requires i <= j < k < |pkgs|
    ensures Contiguous(pkgs) && pkgs[i] == pkgs[k] ==> pkgs[j] == pkgs[i]
  {
  }

  /** Packages that come in blocks: those of a, none of them p, and then p some times. */
  lemma {:induction false} BlockAfter(a: seq<Package>, b: seq<Package>, p: Package)
    requires Contiguous(a) && p !in a && forall k :: 0 <= k < |b| ==> b[k] == p
    ensures Contiguous(a + b)
  {
    var r := a + b;
    assert forall m :: 0 <= m < |a| ==> r[m] == a[m];
    forall i, j, k | 0 <= i < j < k < |r| && r[i] == r[k] ensures r[j] == r[i] {
      if k >= |a| {
        assert r[k] == b[k - |a|] == p;
      }
    }
  }

  /** Groups as they are built: each holds sites of its own package. */
  ghost predicate OwnSites(groups: seq<Group>, dir: string -> Package) {
    forall k :: 0 <= k < |groups| ==>
      forall m :: 0 <= m < |groups[k].sites| ==> dir(groups[k].sites[m].file) == groups[k].pkg
  }

  ghost predicate DistinctPkgs(groups: seq<Group>) {
    forall i, j :: 0 <= i < j < |groups| ==> groups[i].pkg != groups[j].pkg
  }

  lemma {:induction false} FlattenContiguous(groups: seq<Group>, dir: string -> Package)
    requires OwnSites(groups, dir) && DistinctPkgs(groups)
    ensures Contiguous(PkgList(Flatten(groups), dir))
    ensures forall p :: p in PkgList(Flatten(groups), dir) ==> exists k :: 0 <= k < |groups| && groups[k].pkg == p
  {
    if |groups| > 0 {
      var n := |groups| - 1;
      var init, g := groups[..n], groups[n];
      FlattenContiguous(init, dir);
      var a, b := PkgList(Flatten(init), dir), PkgList(g.sites, dir);
      assert PkgList(Flatten(groups), dir) == a + b;
      hide Contiguous, Flatten, PkgList;
      assert g.pkg !in a;
      assert forall k :: 0 <= k < |b| ==> b[k] == g.pkg by { PkgListAt(g.sites, dir); }
      BlockAfter(a, b, g.pkg);
      forall p | p in a + b ensures exists k :: 0 <= k < |groups| && groups[k].pkg == p {
        if p in a {
          var k :| 0 <= k < n && init[k].pkg == p;
          assert groups[k].pkg == p;
        }
      }
    }
  }

  lemma {:induction false} PkgListAt(sites: seq<Site>, dir: string -> Package)
    ensures |PkgList(sites, dir)| == |sites|
    ensures forall k :: 0 <= k < |sites| ==> PkgList(sites, dir)[k] == dir(sites[k].file)
  {
  }

  lemma {:induction false} SitesInOwn(refs: seq<Ref>, pkg: Package, dir: string -> Package)
    ensures forall m :: 0 <= m < |SitesIn(refs, pkg, dir)| ==> dir(SitesIn(refs, pkg, dir)[m].file) == pkg
  {
    if |refs| > 0 {
      SitesInOwn(refs[..|refs| - 1], pkg, dir);
    }
  }

  lemma {:induction false} GroupedOwn(refs: seq<Ref>, dir: string -> Package)
    ensures OwnSites(Grouped(refs, dir), dir) && DistinctPkgs(Grouped(refs, dir))
  {
    PkgsOnce(refs, dir);
    forall k | 0 <= k < |Pkgs(refs, dir)| { SitesInOwn(refs, Pkgs(refs, dir)[k], dir); }
    hide Pkgs, SitesIn;
  }

  lemma {:induction false} SeenAt(refs: seq<Ref>, p: Package, dir: string -> Package) returns (i: nat)
    requires p in Pkgs(refs, dir)
    ensures i < |refs| && Pkg(refs[i], dir) == p
  {
    hide Pkg;
    var n := |refs| - 1;
    if p in Pkgs(refs[..n], dir) {
      i := SeenAt(refs[..n], p, dir);
    } else {
      i := n;
    }
  }

  lemma {:induction false} PkgListOf(refs: seq<Ref>, k: nat, dir: string -> Package)
    requires k < |refs|
    ensures |PkgList(SitesOf(refs), dir)| == |refs| && PkgList(SitesOf(refs), dir)[k] == Pkg(refs[k], dir)
  {
  }

  /** With contiguous packages the package of the last reference is the last one listed. */
  lemma {:induction false} LastPkg(refs: seq<Ref>, dir: string -> Package)
    requires |refs| > 0 && Contiguous(PkgList(SitesOf(refs), dir))
    ensures var p := Pkgs(refs, dir); |p| > 0 && p[|p| - 1] == Pkg(refs[|refs| - 1], dir)
  {
    hide SitesOf, PkgList, Pkg, Pkgs, Contiguous, SitesIn;
    var n := |refs| - 1;
    var init, r := refs[..n], refs[n];
    OneMoreRef(init, r, dir);
    assert refs == init + [r];
    if Pkg(r, dir) in Pkgs(init, dir) {
      var i := SeenAt(init, Pkg(r, dir), dir);
      PkgListOf(refs, i, dir);
      PkgListOf(refs, n - 1, dir);
      PkgListOf(refs, n, dir);
      Between(PkgList(SitesOf(refs), dir), i, n - 1, n);
      InitContiguous(refs, dir);
      LastPkg(init, dir);
    }
  }

  lemma {:induction false} InitContiguous(refs: seq<Ref>, dir: string -> Package)
    requires |refs| > 0 && Contiguous(PkgList(SitesOf(refs), dir))
    ensures Contiguous(PkgList(SitesOf(refs[..|refs| - 1]), dir))
  {
    var a, b := PkgList(SitesOf(refs), dir), PkgList(SitesOf(refs[..|refs| - 1]), dir);
    assert b == a[..|refs| - 1];
  }

  lemma {:induction false} ContiguousKeepsOrder(refs: seq<Ref>, dir: string -> Package)
    requires Contiguous(PkgList(SitesOf(refs), dir))
    ensures Flatten(Grouped(refs, dir)) == SitesOf(refs)
  {
    hide Flatten, Grouped, SitesOf, SiteOf, Contiguous, SitesIn, Pkg, PkgList, Pkgs, WithSite;
    if |refs| == 0 {
      NoneEmitted(dir);
      assert refs == [];
    } else {
      var init, r := refs[..|refs| - 1], refs[|refs| - 1];
      assert refs == init + [r];
      InitContiguous(refs, dir);
      ContiguousKeepsOrder(init, dir);
      SitesOfNext(init, r);
      LastPkg(refs, dir);
      OneMoreRef(init, r, dir);
      if Pkg(r, dir) in Pkgs(init, dir) {
        GroupMore(init, r, |Pkgs(init, dir)| - 1, dir);
        FlattenLast(Grouped(init, dir), SiteOf(r));
      } else {
        GroupNew(init, r, dir);
        FlattenNew(Grouped(init, dir), Pkg(r, dir), SiteOf(r));
      }
    }
  }

  /** The groups, read one after the other, give the references in their own order exactly if the
      references of each package stand together. */
  lemma {:induction false} OrderKeptExactly(refs: seq<Ref>, dir: string -> Package)
    ensures Flatten(Grouped(refs, dir)) == SitesOf(refs) <==> Contiguous(PkgList(SitesOf(refs), dir))
  {
    if Contiguous(PkgList(SitesOf(refs), dir)) {
      ContiguousKeepsOrder(refs, dir);
    }
    GroupedOwn(refs, dir);
    FlattenContiguous(Grouped(refs, dir), dir);
    hide Contiguous, Grouped, Flatten, OwnSites, DistinctPkgs;
  }

  function TestRef(file: string): Ref { Ref(file, "", false, 1, 1, "", file, "", "", "") }

  lemma {:induction false} BetweenOthers(f: string, g: string, h: string, dir: string -> Package)
    requires dir(f) == dir(h) != dir(g)
    ensures var refs := [TestRef(f), TestRef(g), TestRef(h)];
            f != "" && g != "" && h != "" ==> Flatten(Grouped(refs, dir)) != SitesOf(refs)
  {
    if f != "" && g != "" && h != "" {
      var refs := [TestRef(f), TestRef(g), TestRef(h)];
      PkgListOf(refs, 0, dir);
      PkgListOf(refs, 1, dir);
      PkgListOf(refs, 2, dir);
      assert Pkg(refs[0], dir) == dir(f) && Pkg(refs[1], dir) == dir(g) && Pkg(refs[2], dir) == dir(h);
      hide Flatten, Grouped, SitesOf, PkgList, Contiguous, Pkg, TestRef;
      OrderKeptExactly(refs, dir);
      Between(PkgList(SitesOf(refs), dir), 0, 1, 2);
    }
  }

  lemma {:induction false} FilesSorted()
    ensures StrLess("a/a.go", "a/b/c.go") && StrLess("a/b/c.go", "a/z.go")
  {
    var f, g, h := "a/a.go", "a/b/c.go", "a/z.go";
    assert f[1..][1..][0] == 'a' && g[1..][1..][0] == 'b' && h[1..][1..][0] == 'z';
    assert f[0] == g[0] == h[0] && f[1..][0] == g[1..][0] == h[1..][0];
  }

  /** References sorted by file need not be so: a file of a subdirectory comes between two
      files of its parent. */
  lemma {:induction false} SortedNotContiguous(dir: string -> Package)
    requires dir("a/a.go") == dir("a/z.go") != dir("a/b/c.go")
    ensures StrLess("a/a.go", "a/b/c.go") && StrLess("a/b/c.go", "a/z.go")
    ensures var refs := [TestRef("a/a.go"), TestRef("a/b/c.go"), TestRef("a/z.go")];
            Flatten(Grouped(refs, dir)) != SitesOf(refs)
  {
    hide Flatten, Grouped, SitesOf, StrLess, TestRef;
    FilesSorted();
    BetweenOthers("a/a.go", "a/b/c.go", "a/z.go", dir);
  }
}
