/**
 * The asset definitions that the catalog (Assetic's asset manager) hands out:
 * collections of assets, file-backed leaves and references to other named assets,
 * each non-collection asset carrying an ordered filter chain.
 */
module Assets {
  import opened Seqs
  import opened Wrappers

  /**
   * A filter of an asset's chain. `extractsDependencies` marks a filter that can
   * report child assets found in the content it is given (a dependency extractor).
   */
  datatype Filter = Filter(id: string, extractsDependencies: bool)

  datatype Asset =
    | Collection(children: seq<Asset>)
    | Leaf(filters: seq<Filter>, sourceRoot: string, sourcePath: string)
    | Reference(target: string, filters: seq<Filter>)

  /** A catalog entry: a top-level asset name and its definition. */
  datatype CatalogEntry = CatalogEntry(name: string, asset: Asset)

  /**
   * getChildren of a dependency-extracting filter. It is given the filter and the
   * prefix copy of the asset (whose loaded content and source directory the real
   * filter reads) and either lists the child assets or fails with a message.
   */
  type Extractor = (Filter, Asset) -> Result<seq<Asset>, string>

  /** The same asset carrying the filter chain `fs` instead of its own. */
  function WithFilters(a: Asset, fs: seq<Filter>): (r: Asset)
    requires !a.Collection?
    ensures !r.Collection? && r.filters == fs
    ensures r.Leaf? <==> a.Leaf?
    ensures a.Leaf? ==> r.sourceRoot == a.sourceRoot && r.sourcePath == a.sourcePath
    ensures a.Reference? ==> r.target == a.target
  {
    match a
    case Leaf(_, root, path) => Leaf(fs, root, path)
    case Reference(target, _) => Reference(target, fs)
  }

  /** ensureFilter: add a filter unless that very filter is already in the chain. */
  function EnsureFilter(fs: seq<Filter>, f: Filter): (r: seq<Filter>)
    ensures f in r
    ensures fs <= r && |r| == |fs| + (if f in fs then 0 else 1)
  {
    if f in fs then fs else fs + [f]
  }

  /**
   * The copy walkAsset builds before asking a filter for children: a clone of `a`
   * with its filters cleared and each of the `preceding` filters re-added, in order,
   * with ensureFilter.
   */
  method PrefixClone(a: Asset, preceding: seq<Filter>) returns (clone: Asset)
    requires !a.Collection?
    ensures !clone.Collection? && clone == WithFilters(a, clone.filters)
    ensures NoDuplicates(clone.filters)
    ensures forall g :: g in clone.filters <==> g in preceding
    ensures NoDuplicates(preceding) ==> clone.filters == preceding
    ensures clone.filters == Dedup(preceding)
  {
    var fs: seq<Filter> := [];
    var k := 0;
    while k < |preceding|
      invariant 0 <= k <= |preceding|
      invariant fs == Dedup(preceding[..k])
    {
      assert preceding[..k + 1][..k] == preceding[..k];
      fs := EnsureFilter(fs, preceding[k]);
      k := k + 1;
    }
    assert preceding[..k] == preceding;
    clone := WithFilters(a, fs);
    if NoDuplicates(preceding) {
      DedupOfDistinct(preceding);
    }
  }

  /** No filter anywhere in the tree extracts dependencies. */
  predicate StaticTree(a: Asset) {
    match a
    case Collection(cs) => forall i :: 0 <= i < |cs| ==> StaticTree(cs[i])
    case _ => forall f :: f in a.filters ==> !f.extractsDependencies
  }

  /** The non-collection assets of a tree, left to right. */
  function Leaves(a: Asset): (r: seq<Asset>)
    ensures forall v :: v in r ==> !v.Collection?
  {
    match a
    case Collection(cs) => LeavesOf(cs)
    case _ => [a]
  }

  function LeavesOf(cs: seq<Asset>): (r: seq<Asset>)
    ensures forall v :: v in r ==> !v.Collection?
  {
    if cs == [] then [] else Leaves(cs[0]) + LeavesOf(cs[1..])
  }
}
