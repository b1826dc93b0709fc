/**
 * buildSourceToAssetMap and walkAsset: every top-level asset of the catalog is
 * walked, and each non-collection asset the walk reaches is handed to a visitor
 * that records it under the top-level name, in 'files' (file-backed assets) or in
 * 'assets' (references).
 */
module GraphBuilder {
  import opened Seqs
  import opened Wrappers
  import opened Assets
  import opened DependencyMaps

  /**
   * Why a build stops: a filter could not extract children (with the exception's
   * message), or the extraction recursion went deeper than the model's bound.
   */
  datatype BuildError = ExtractionFailed(message: string) | DepthExceeded {
    /** The message an exception of this kind carries. */
    function Message(): string {
      match this
      case ExtractionFailed(m) => m
      case DepthExceeded => ""
    }
  }

  function ErrorOf<T>(r: Result<T, BuildError>): Option<BuildError> {
    match r
    case Ok(_) => None
    case Err(e) => Some(e)
  }

  /** `r` with `done` put in front of its visits. */
  function Prepend(done: seq<Asset>, r: Result<seq<Asset>, BuildError>): Result<seq<Asset>, BuildError> {
    match r
    case Ok(vs) => Ok(done + vs)
    case Err(e) => Err(e)
  }

  /** The 'files' key of a file-backed asset: "{root}/{path}". */
  function SourceKey(a: Asset): string
    requires a.Leaf?
  {
    a.sourceRoot + "/" + a.sourcePath
  }

  /**
   * Adds `name` to the entry of `source`, which is
   * created after all existing entries when there is none; an entry that already
   * holds `name` keeps it where it is.
   */
  function AddName(m: DependencyMap, source: string, name: string): (r: DependencyMap)
    ensures name in NamesAt(r, source)
    ensures NamesAt(m, source) <= NamesAt(r, source) && |NamesAt(r, source)| <= |NamesAt(m, source)| + 1
    ensures forall s :: s != source ==> NamesAt(r, s) == NamesAt(m, s)
    ensures m.sources <= r.sources && source in r.files && r.assets == m.assets
  {
    var ns := NamesAt(m, source);
    m.(sources := if source in m.files then m.sources else m.sources + [source],
       files := m.files[source := if name in ns then ns else ns + [name]])
  }

  /** The visitor of buildSourceToAssetMap, for the catalog entry `name`, on one asset. */
  function Record(m: DependencyMap, name: string, a: Asset): (r: DependencyMap)
    requires !a.Collection?
    ensures m.sources <= r.sources && forall s :: NamesAt(m, s) <= NamesAt(r, s)
    ensures a.Reference? ==>
      && r.sources == m.sources && r.files == m.files
      && Referrers(r.assets, a.target) == Referrers(m.assets, a.target) + [name]
      && forall t :: t != a.target ==> Referrers(r.assets, t) == Referrers(m.assets, t)
    ensures a.Leaf? ==> r.assets == m.assets && name in NamesAt(r, SourceKey(a))
  {
    match a
    case Reference(target, _) => m.(assets := m.assets[target := Referrers(m.assets, target) + [name]])
    case Leaf(_, _, _) => AddName(m, SourceKey(a), name)
  }

  /** The visitor applied to each of `vs` in turn. */
  function RecordAll(m: DependencyMap, name: string, vs: seq<Asset>): (r: DependencyMap)
    requires forall v :: v in vs ==> !v.Collection?
    ensures m.sources <= r.sources && forall s :: NamesAt(m, s) <= NamesAt(r, s)
    decreases vs
  {
    if vs == [] then m else RecordAll(Record(m, name, vs[0]), name, vs[1..])
  }

  /**
   * walkAsset as the sequence of assets it hands to the callback, in call order.
   * A collection is walked child by child; any other asset first has the children
   * extracted by each of its dependency-extracting filters walked, then is visited.
   * `fuel` bounds how deeply extracted children may nest.
   */
  ghost function Walk(a: Asset, extract: Extractor, fuel: nat): (r: Result<seq<Asset>, BuildError>)
    ensures r.Ok? ==> forall v :: v in r.value ==> !v.Collection?
    ensures r.Ok? && !a.Collection? ==> |r.value| > 0 && r.value[|r.value| - 1] == a
    decreases fuel, a, 2, 0, 0
  {
    match a
    case Collection(cs) => WalkEach(cs, extract, fuel)
    case _ =>
      var before :- WalkFilters(a, 0, extract, fuel);
      Ok(before + [a])
  }

  /** The walks of `cs`, one after the other. */
  ghost function WalkEach(cs: seq<Asset>, extract: Extractor, fuel: nat): (r: Result<seq<Asset>, BuildError>)
    ensures r.Ok? ==> forall v :: v in r.value ==> !v.Collection?
    decreases fuel, cs, 1, 0, 0
  {
    if cs == [] then Ok([])
    else
      var first :- Walk(cs[0], extract, fuel);
      var rest :- WalkEach(cs[1..], extract, fuel);
      Ok(first + rest)
  }

  /** The visits caused by the filters of `a` from position `i` on. */
  ghost function WalkFilters(a: Asset, i: nat, extract: Extractor, fuel: nat): (r: Result<seq<Asset>, BuildError>)
    requires !a.Collection? && i <= |a.filters|
    ensures r.Ok? ==> forall v :: v in r.value ==> !v.Collection?
    decreases fuel, a, 1, |a.filters| - i, 1
  {
    if i == |a.filters| then Ok([])
    else
      var here :- FilterVisits(a, i, extract, fuel);
      var rest :- WalkFilters(a, i + 1, extract, fuel);
      Ok(here + rest)
  }

  /**
   * The visits caused by the filter at position `i` of `a`: none unless it extracts
   * dependencies; otherwise it is given the copy of `a` that carries the filters
   * before position `i` (re-added with ensureFilter) and the children it reports
   * are walked.
   */
  ghost function FilterVisits(a: Asset, i: nat, extract: Extractor, fuel: nat): (r: Result<seq<Asset>, BuildError>)
    requires !a.Collection? && i < |a.filters|
    ensures r.Ok? ==> forall v :: v in r.value ==> !v.Collection?
    decreases fuel, a, 1, |a.filters| - i, 0
  {
    var f := a.filters[i];
    if !f.extractsDependencies then Ok([])
    else
      match extract(f, WithFilters(a, Dedup(a.filters[..i])))
      case Err(msg) => Err(ExtractionFailed(msg))
      case Ok(children) =>
        if children == [] then Ok([])
        else if fuel == 0 then Err(DepthExceeded)
        else WalkEach(children, extract, fuel - 1)
  }

  /**
   * buildSourceToAssetMap: walks the catalog's entries in order, recording each
   * visited asset under the entry's name; the first failure ends the build.
   */
  ghost function BuildFrom(m: DependencyMap, catalog: seq<CatalogEntry>, extract: Extractor, fuel: nat): (r: Result<DependencyMap, BuildError>)
    ensures r.Ok? ==> m.sources <= r.value.sources && forall s :: NamesAt(m, s) <= NamesAt(r.value, s)
    decreases catalog
  {
    if catalog == [] then Ok(m)
    else
      var vs :- Walk(catalog[0].asset, extract, fuel);
      BuildFrom(RecordAll(m, catalog[0].name, vs), catalog[1..], extract, fuel)
  }

  /** The top-level names of a catalog. */
  function CatalogNames(catalog: seq<CatalogEntry>): set<string> {
    set i | 0 <= i < |catalog| :: catalog[i].name
  }

  /** The source table and the referrer table that the visitor fills in while the walk runs. */
  class SourceMapBuilder {
    var sources: seq<string>
    var files: map<string, seq<string>>
    var assets: Refs

    constructor ()
      ensures Map() == EmptyMap
    {
      sources, files, assets := [], map[], map[];
    }

    function Map(): DependencyMap
      reads this
    {
      DependencyMap(sources, files, assets)
    }

    /** The visitor closure for the catalog entry `name`. */
    method Visit(name: string, a: Asset)
      requires !a.Collection?
      modifies this
      ensures Map() == Record(old(Map()), name, a)
    {
      match a
      case Reference(target, _) =>
        assets := assets[target := Referrers(assets, target) + [name]];
      case Leaf(_, root, path) =>
        var source := root + "/" + path;
        var names := if source in files then files[source] else [];
        if source !in files {
          sources := sources + [source];
        }
        if name !in names {
          names := names + [name];
        }
        files := files[source := names];
    }

    /** walkAsset with the visitor for `name` as its callback. */
    method WalkAsset(name: string, a: Asset, extract: Extractor, fuel: nat) returns (err: Option<BuildError>)
      modifies this
      ensures err == ErrorOf(Walk(a, extract, fuel))
      ensures err.None? ==> Map() == RecordAll(old(Map()), name, Walk(a, extract, fuel).value)
      decreases fuel, a, 2, 0, 0
    {
      if a.Collection? {
        err := WalkAssets(name, a.children, extract, fuel);
        return;
      }
      ghost var done;
      err, done := WalkFilterLoop(name, a, extract, fuel);
      if err.Some? {
        return;
      }
      Visit(name, a);
      RecordAllAppend(old(Map()), name, done, [a]);
    }

    /** The loop of walkAsset over a leaf's filters, growing `prevFilters`. */
    method WalkFilterLoop(name: string, a: Asset, extract: Extractor, fuel: nat)
      returns (err: Option<BuildError>, ghost done: seq<Asset>)
      requires !a.Collection?
      modifies this
      ensures err == ErrorOf(WalkFilters(a, 0, extract, fuel))
      ensures err.None? ==> done == WalkFilters(a, 0, extract, fuel).value
      ensures err.None? ==> Map() == RecordAll(old(Map()), name, done)
      decreases fuel, a, 1, |a.filters| + 1, 0
    {
      var prevFilters: seq<Filter> := [];
      done := [];
      err := None;
      PrependNothing(WalkFilters(a, 0, extract, fuel));
      var i := 0;
      while i < |a.filters|
        invariant 0 <= i <= |a.filters| && prevFilters == a.filters[..i] && err.None?
        invariant forall v :: v in done ==> !v.Collection?
        invariant Map() == RecordAll(old(Map()), name, done)
        invariant WalkFilters(a, 0, extract, fuel) == Prepend(done, WalkFilters(a, i, extract, fuel))
      {
        prevFilters := prevFilters + [a.filters[i]];
        ghost var here;
        err, here := WalkFilterChildren(name, a, i, prevFilters, extract, fuel);
        FiltersStep(a, i, done, extract, fuel);
        if err.Some? {
          return;
        }
        RecordAllAppend(old(Map()), name, done, here);
        done := done + here;
        i := i + 1;
      }
      FiltersDone(a, done, extract, fuel);
    }

    /**
     * One round of walkAsset's filter loop, after the filter at position `i` joined
     * `prevFilters`: when it extracts dependencies, clone the asset with the filters
     * before it, ask the filter for the clone's children and walk them.
     */
    method WalkFilterChildren(name: string, a: Asset, i: nat, prevFilters: seq<Filter>, extract: Extractor, fuel: nat)
      returns (err: Option<BuildError>, ghost here: seq<Asset>)
      requires !a.Collection? && i < |a.filters| && prevFilters == a.filters[..i + 1]
      modifies this
      ensures err == ErrorOf(FilterVisits(a, i, extract, fuel))
      ensures err.None? ==> here == FilterVisits(a, i, extract, fuel).value
      ensures err.None? ==> Map() == RecordAll(old(Map()), name, here)
      decreases fuel, a, 1, |a.filters| - i, 0
    {
      here := [];
      err := None;
      var filter := a.filters[i];
      if filter.extractsDependencies {
        assert prevFilters[..|prevFilters| - 1] == a.filters[..i];
        var clone := PrefixClone(a, prevFilters[..|prevFilters| - 1]);
        var extracted := extract(filter, clone);
        if extracted.Err? {
          err := Some(ExtractionFailed(extracted.error));
        } else if extracted.value != [] {
          if fuel == 0 {
            err := Some(DepthExceeded);
          } else {
            err := WalkAssets(name, extracted.value, extract, fuel - 1);
            if err.None? {
              here := WalkEach(extracted.value, extract, fuel - 1).value;
            }
          }
        }
      }
    }

    /** Walks the children of the collection `cs` one after another, in order. */
    method WalkAssets(name: string, cs: seq<Asset>, extract: Extractor, fuel: nat) returns (err: Option<BuildError>)
      modifies this
      ensures err == ErrorOf(WalkEach(cs, extract, fuel))
      ensures err.None? ==> Map() == RecordAll(old(Map()), name, WalkEach(cs, extract, fuel).value)
      decreases fuel, cs, 1, 0, 0
    {
      ghost var done: seq<Asset> := [];
      assert cs[0..] == cs;
      PrependNothing(WalkEach(cs, extract, fuel));
      var i := 0;
      while i < |cs|
        invariant 0 <= i <= |cs|
        invariant forall v :: v in done ==> !v.Collection?
        invariant Map() == RecordAll(old(Map()), name, done)
        invariant WalkEach(cs, extract, fuel) == Prepend(done, WalkEach(cs[i..], extract, fuel))
      {
        assert cs[i..][1..] == cs[i + 1..];
        err := WalkAsset(name, cs[i], extract, fuel);
        if err.Some? {
          return;
        }
        ghost var here := Walk(cs[i], extract, fuel).value;
        RecordAllAppend(old(Map()), name, done, here);
        PrependTwice(done, here, WalkEach(cs[i + 1..], extract, fuel));
        done := done + here;
        i := i + 1;
      }
      assert cs[i..] == [] && done + [] == done;
      err := None;
    }
  }

  /**
   * buildSourceToAssetMap: a fresh visitor state, then one walk per catalog entry,
   * in catalog order.
   */
  method BuildSourceToAssetMap(catalog: seq<CatalogEntry>, extract: Extractor, fuel: nat)
    returns (r: Result<DependencyMap, BuildError>)
    ensures r == BuildFrom(EmptyMap, catalog, extract, fuel)
  {
    var builder := new SourceMapBuilder();
    var i := 0;
    while i < |catalog|
      invariant 0 <= i <= |catalog|
      invariant BuildFrom(builder.Map(), catalog[i..], extract, fuel) == BuildFrom(EmptyMap, catalog, extract, fuel)
    {
      assert catalog[i..][1..] == catalog[i + 1..];
      var err := builder.WalkAsset(catalog[i].name, catalog[i].asset, extract, fuel);
      if err.Some? {
        return Err(err.value);
      }
      i := i + 1;
    }
    assert catalog[i..] == [];
    return Ok(builder.Map());
  }

  lemma PrependNothing(r: Result<seq<Asset>, BuildError>)
    ensures Prepend([], r) == r
  {
    if r.Ok? {
      assert [] + r.value == r.value;
    }
  }

  lemma PrependTwice(done: seq<Asset>, here: seq<Asset>, r: Result<seq<Asset>, BuildError>)
    ensures Prepend(done, Prepend(here, r)) == Prepend(done + here, r)
  {
    if r.Ok? {
      assert done + (here + r.value) == (done + here) + r.value;
    }
  }

  /**
   * One more filter of `a` walked: its failure is the walk's failure, and its
   * visits join those of the filters before it.
   */
  lemma FiltersStep(a: Asset, i: nat, done: seq<Asset>, extract: Extractor, fuel: nat)
    requires !a.Collection? && i < |a.filters|
    requires WalkFilters(a, 0, extract, fuel) == Prepend(done, WalkFilters(a, i, extract, fuel))
    ensures FilterVisits(a, i, extract, fuel).Err? ==>
      WalkFilters(a, 0, extract, fuel) == Err(FilterVisits(a, i, extract, fuel).error)
    ensures FilterVisits(a, i, extract, fuel).Ok? ==>
      WalkFilters(a, 0, extract, fuel)
      == Prepend(done + FilterVisits(a, i, extract, fuel).value, WalkFilters(a, i + 1, extract, fuel))
  {
    var here := FilterVisits(a, i, extract, fuel);
    if here.Ok? {
      PrependTwice(done, here.value, WalkFilters(a, i + 1, extract, fuel));
    }
  }

  /** Past the last filter nothing more is visited. */
  lemma FiltersDone(a: Asset, done: seq<Asset>, extract: Extractor, fuel: nat)
    requires !a.Collection?
    requires WalkFilters(a, 0, extract, fuel) == Prepend(done, WalkFilters(a, |a.filters|, extract, fuel))
    ensures WalkFilters(a, 0, extract, fuel) == Ok(done)
  {
    assert done + [] == done;
  }

  /** Visiting `xs` and then `ys` is visiting `xs + ys`. */
  lemma {:induction false} RecordAllAppend(m: DependencyMap, name: string, xs: seq<Asset>, ys: seq<Asset>)
    requires forall v :: v in xs ==> !v.Collection?
    requires forall v :: v in ys ==> !v.Collection?
    ensures RecordAll(m, name, xs + ys) == RecordAll(RecordAll(m, name, xs), name, ys)
    decreases xs
  {
    if xs != [] {
      assert (xs + ys)[1..] == xs[1..] + ys;
      RecordAllAppend(Record(m, name, xs[0]), name, xs[1..], ys);
    } else {
      assert xs + ys == ys;
    }
  }
}

/** What the walk and the visitor are proved to do. */
module GraphBuilderProperties {
  import opened Seqs
  import opened Wrappers
  import opened Assets
  import opened DependencyMaps
  import opened GraphBuilder

  /**
   * Without dependency extraction the walk hands the callback exactly the
   * non-collection assets of the tree, each once, left to right.
   */
  lemma {:induction false} StaticWalkVisitsLeaves(a: Asset, extract: Extractor, fuel: nat)
    requires StaticTree(a)
    ensures Walk(a, extract, fuel) == Ok(Leaves(a))
    decreases a, 1
  {
    match a
    case Collection(cs) =>
      StaticWalkEachVisitsLeaves(cs, extract, fuel);
    case _ =>
      StaticFiltersVisitNothing(a, 0, extract, fuel);
      var none: seq<Asset> := [];
      assert none + [a] == [a];
  }

  lemma {:induction false} StaticWalkEachVisitsLeaves(cs: seq<Asset>, extract: Extractor, fuel: nat)
    requires forall i :: 0 <= i < |cs| ==> StaticTree(cs[i])
    ensures WalkEach(cs, extract, fuel) == Ok(LeavesOf(cs))
    decreases cs, 0
  {
    if cs != [] {
      StaticWalkVisitsLeaves(cs[0], extract, fuel);
      assert forall i :: 0 <= i < |cs[1..]| ==> cs[1..][i] == cs[i + 1];
      StaticWalkEachVisitsLeaves(cs[1..], extract, fuel);
    }
  }

  /** Filters that extract nothing cause no visits. */
  lemma {:induction false} StaticFiltersVisitNothing(a: Asset, i: nat, extract: Extractor, fuel: nat)
    requires !a.Collection? && i <= |a.filters|
    requires forall f :: f in a.filters ==> !f.extractsDependencies
    ensures WalkFilters(a, i, extract, fuel) == Ok([])
    decreases |a.filters| - i
  {
    if i < |a.filters| {
      assert FilterVisits(a, i, extract, fuel) == Ok([]);
      StaticFiltersVisitNothing(a, i + 1, extract, fuel);
      var none: seq<Asset> := [];
      assert none + none == none;
    }
  }

  /** Some visit is a file-backed asset whose source is `source`. */
  ghost predicate VisitsSource(vs: seq<Asset>, source: string) {
    exists v :: v in vs && v.Leaf? && SourceKey(v) == source
  }

  /** How many visits are references to `target`. */
  function ReferenceCount(vs: seq<Asset>, target: string): nat {
    if vs == [] then 0
    else (if vs[0].Reference? && vs[0].target == target then 1 else 0) + ReferenceCount(vs[1..], target)
  }

  /**
   * After the visitor for `name` has seen `vs`, a source's entry holds `name`
   * exactly when it held it before or some visit was a file-backed asset with that
   * source; no other name is added.
   */
  lemma {:induction false} RecordAllFiles(m: DependencyMap, name: string, vs: seq<Asset>, source: string, n: string)
    requires forall v :: v in vs ==> !v.Collection?
    ensures n in NamesAt(RecordAll(m, name, vs), source)
      <==> n in NamesAt(m, source) || (n == name && VisitsSource(vs, source))
    decreases vs
  {
    if vs != [] {
      var m' := Record(m, name, vs[0]);
      RecordAllFiles(m', name, vs[1..], source, n);
      assert n in NamesAt(m', source)
        <==> n in NamesAt(m, source) || (n == name && vs[0].Leaf? && SourceKey(vs[0]) == source);
      assert VisitsSource(vs, source) <==> (vs[0].Leaf? && SourceKey(vs[0]) == source) || VisitsSource(vs[1..], source) by {
        if VisitsSource(vs, source) {
          var v :| v in vs && v.Leaf? && SourceKey(v) == source;
          if v != vs[0] {
            assert v in vs[1..];
          }
        }
      }
    }
  }

  /**
   * After the visitor for `name` has seen `vs`, the referrers of `target` are the
   * old ones followed by `name` once per visited reference to `target`: repeats are
   * kept.
   */
  lemma {:induction false} RecordAllReferrers(m: DependencyMap, name: string, vs: seq<Asset>, target: string)
    requires forall v :: v in vs ==> !v.Collection?
    ensures Referrers(RecordAll(m, name, vs).assets, target)
      == Referrers(m.assets, target) + seq(ReferenceCount(vs, target), _ => name)
    ensures m.sources <= RecordAll(m, name, vs).sources
    decreases vs
  {
    if vs != [] {
      var m' := Record(m, name, vs[0]);
      RecordAllReferrers(m', name, vs[1..], target);
      var k := ReferenceCount(vs[1..], target);
      if vs[0].Reference? && vs[0].target == target {
        assert Referrers(m'.assets, target) == Referrers(m.assets, target) + [name];
        assert [name] + seq(k, _ => name) == seq(k + 1, _ => name);
      } else {
        assert Referrers(m'.assets, target) == Referrers(m.assets, target);
      }
      assert m.sources <= m'.sources;
    } else {
      assert seq(0, _ => name) == [];
    }
  }

  /** The visitor keeps the map well formed. */
  lemma RecordWellFormed(m: DependencyMap, name: string, a: Asset)
    requires !a.Collection? && WellFormed(m)
    ensures WellFormed(Record(m, name, a))
  {
    if a.Leaf? {
      var source := SourceKey(a);
      var r := Record(m, name, a);
      if source !in m.files {
        assert source !in m.sources;
        assert NoDuplicates(r.sources) by {
          forall i, j | 0 <= i < j < |r.sources| ensures r.sources[i] != r.sources[j] {
            if j == |m.sources| {
              assert r.sources[i] in m.sources;
            }
          }
        }
      }
    }
  }

  /** The visitor records `name` and no other name. */
  lemma RecordNamesWithin(m: DependencyMap, name: string, a: Asset, allowed: set<string>)
    requires !a.Collection? && NamesWithin(m, allowed) && name in allowed
    ensures NamesWithin(Record(m, name, a), allowed)
  {
  }

  lemma {:induction false} RecordAllInvariants(m: DependencyMap, name: string, vs: seq<Asset>, allowed: set<string>)
    requires forall v :: v in vs ==> !v.Collection?
    ensures WellFormed(m) ==> WellFormed(RecordAll(m, name, vs))
    ensures NamesWithin(m, allowed) && name in allowed ==> NamesWithin(RecordAll(m, name, vs), allowed)
    decreases vs
  {
    if vs != [] {
      if WellFormed(m) {
        RecordWellFormed(m, name, vs[0]);
      }
      if NamesWithin(m, allowed) && name in allowed {
        RecordNamesWithin(m, name, vs[0], allowed);
      }
      RecordAllInvariants(Record(m, name, vs[0]), name, vs[1..], allowed);
    }
  }

  /**
   * A built map is well formed and records only the catalog's top-level names, in
   * 'files' and in 'assets' alike.
   */
  lemma {:induction false} BuildInvariants(m: DependencyMap, catalog: seq<CatalogEntry>, extract: Extractor, fuel: nat, allowed: set<string>)
    requires WellFormed(m) && NamesWithin(m, allowed) && CatalogNames(catalog) <= allowed
    ensures BuildFrom(m, catalog, extract, fuel).Ok? ==>
      WellFormed(BuildFrom(m, catalog, extract, fuel).value)
      && NamesWithin(BuildFrom(m, catalog, extract, fuel).value, allowed)
    decreases catalog
  {
    if catalog != [] {
      var w := Walk(catalog[0].asset, extract, fuel);
      if w.Ok? {
        assert catalog[0].name in CatalogNames(catalog);
        RecordAllInvariants(m, catalog[0].name, w.value, allowed);
        assert CatalogNames(catalog[1..]) <= CatalogNames(catalog) by {
          forall n | n in CatalogNames(catalog[1..]) ensures n in CatalogNames(catalog) {
            var i :| 0 <= i < |catalog[1..]| && catalog[1..][i].name == n;
            assert catalog[i + 1].name == n;
          }
        }
        BuildInvariants(RecordAll(m, catalog[0].name, w.value), catalog[1..], extract, fuel, allowed);
      }
    }
  }

  /** buildSourceToAssetMap's result, when there is one, is well formed and names only catalog entries. */
  lemma BuiltMapInvariants(catalog: seq<CatalogEntry>, extract: Extractor, fuel: nat)
    ensures BuildFrom(EmptyMap, catalog, extract, fuel).Ok? ==>
      WellFormed(BuildFrom(EmptyMap, catalog, extract, fuel).value)
      && NamesWithin(BuildFrom(EmptyMap, catalog, extract, fuel).value, CatalogNames(catalog))
  {
    BuildInvariants(EmptyMap, catalog, extract, fuel, CatalogNames(catalog));
  }
}
