/**
 * getAssetsToDump and getDependentAssets: from changed file names to the asset
 * names to dump. A changed name matches every recorded source that ends with it;
 * the names built from matched sources are joined by every name that reaches them
 * through 'assets' references.
 */
module ImpactResolver {
  import opened Seqs
  import opened Wrappers
  import opened PhpStrings
  import opened DependencyMaps

  /** `needle` is a literal suffix of `haystack` (not aware of path separators). */
  predicate IsSuffix(needle: string, haystack: string) {
    |needle| <= |haystack| && haystack[|haystack| - |needle|..] == needle
  }

  /**
   * The endsWith closure of getAssetsToDump: true for the empty needle, otherwise
   * a search with strpos that starts |needle| characters before the end.
   */
  function EndsWith(haystack: string, needle: string): (b: bool)
    ensures b <==> IsSuffix(needle, haystack)
  {
    assert IsSuffix(needle, haystack) ==> OccursAt(haystack, needle, |haystack| - |needle|);
    needle == "" || (|haystack| - |needle| >= 0 && StrPos(haystack, needle, |haystack| - |needle|).Some?)
  }

  /**
   * `rank` is closed under the 'assets' edges that getDependentAssets follows: a
   * referrer of a ranked name is ranked too when it is itself referenced, and ranks
   * strictly lower. No cycle is reachable from a ranked name; names outside `rank`
   * are unconstrained.
   */
  ghost predicate Ranked(refs: Refs, rank: map<string, nat>) {
    forall k, d :: k in rank && k in refs && d in refs[k] && d in refs ==> d in rank && rank[d] < rank[k]
  }

  /** Every referenced name among `names` ranks below `bound`. */
  ghost predicate Below(names: seq<string>, refs: Refs, rank: map<string, nat>, bound: nat) {
    forall n :: n in names && n in refs ==> n in rank && rank[n] < bound
  }

  /** The names recorded under every source are ranked below `bound`. */
  ghost predicate RecordedBelow(m: DependencyMap, rank: map<string, nat>, bound: nat) {
    Ranked(m.assets, rank) && forall s :: Below(NamesAt(m, s), m.assets, rank, bound)
  }

  /**
   * getDependentAssets ends on the names of every source: a ranking exists under
   * which every recorded name that is referenced ranks below a bound. Then no
   * 'assets' walk from a recorded name repeats a name (NoCycleFromRecorded);
   * cycles among other names are allowed.
   */
  ghost predicate Resolvable(m: DependencyMap) {
    exists rank, bound :: RecordedBelow(m, rank, bound)
  }

  /** Picks a ranking that witnesses `Resolvable(m)`. */
  ghost function RankOf(m: DependencyMap): (p: (map<string, nat>, nat))
    requires Resolvable(m)
    ensures RecordedBelow(m, p.0, p.1)
  {
    var rank, bound :| RecordedBelow(m, rank, bound);
    (rank, bound)
  }

  /**
   * A reference cycle that no recorded name reaches does not stop resolution:
   * the names "x" and "y" reference each other, and "main", built from the only
   * source, is not referenced at all.
   */
  lemma UnreachedCycleResolvable()
    ensures var m := DependencyMap(["src/a.scss"], map["src/a.scss" := ["main"]], map["x" := ["y"], "y" := ["x"]]);
      Resolvable(m) && "x" in m.assets["y"] && "y" in m.assets["x"]
  {
    var m := DependencyMap(["src/a.scss"], map["src/a.scss" := ["main"]], map["x" := ["y"], "y" := ["x"]]);
    var none: map<string, nat> := map[];
    forall s ensures Below(NamesAt(m, s), m.assets, none, 0) {
      assert forall n :: n in NamesAt(m, s) ==> n == "main";
    }
    assert RecordedBelow(m, none, 0);
  }

  /**
   * getDependentAssets: for each of `names` that is referenced, its referrers
   * followed by their own dependents, merged and deduplicated. No visited set is
   * kept, so this ends only because the graph is ranked; `rank` and `bound` exist
   * for the proof alone.
   */
  function DependentAssets(names: seq<string>, refs: Refs, ghost rank: map<string, nat>, ghost bound: nat): (r: seq<string>)
    requires Ranked(refs, rank) && Below(names, refs, rank, bound)
    ensures NoDuplicates(r)
    decreases bound, |names|, 1
  {
    Dedup(CollectDependents(names, refs, rank, bound))
  }

  /** The list of lists getDependentAssets merges, flattened. */
  function CollectDependents(names: seq<string>, refs: Refs, ghost rank: map<string, nat>, ghost bound: nat): (r: seq<string>)
    requires Ranked(refs, rank) && Below(names, refs, rank, bound)
    ensures forall n, x :: n in names && n in refs && x in refs[n] ==> x in r
    ensures (forall n :: n in names ==> n !in refs) ==> r == []
    decreases bound, |names|, 0
  {
    if names == [] then []
    else
      var n := names[0];
      (if n in refs then refs[n] + DependentAssets(refs[n], refs, rank, rank[n]) else [])
      + CollectDependents(names[1..], refs, rank, bound)
  }

  /** `p` is a walk of one or more 'assets' edges, each from a name to one of its referrers. */
  ghost predicate IsPath(refs: Refs, p: seq<string>) {
    |p| >= 2 && forall i :: 0 <= i < |p| - 1 ==> p[i] in refs && p[i + 1] in refs[p[i]]
  }

  /** `x` is reached from one of `names` through one or more 'assets' edges. */
  ghost predicate Reachable(refs: Refs, names: seq<string>, x: string) {
    exists p :: IsPath(refs, p) && p[0] in names && p[|p| - 1] == x
  }

  /**
   * On a resolvable map no 'assets' walk from a recorded name comes back to a name
   * it has passed, so getDependentAssets never meets a cycle on these names.
   */
  lemma NoCycleFromRecorded(m: DependencyMap, s: string, p: seq<string>)
    requires Resolvable(m) && IsPath(m.assets, p) && p[0] in NamesAt(m, s)
    ensures NoDuplicates(p)
  {
    var (rank, bound) := RankOf(m);
    assert p[0] in rank;
    forall i, j | 0 <= i < j < |p| ensures p[i] != p[j] {
      if p[i] == p[j] {
        if i == 0 {
          RankDescends(m.assets, rank, p, 0, j);
        } else {
          RankDescends(m.assets, rank, p, 0, i);
          RankDescends(m.assets, rank, p, i, j);
        }
      }
    }
  }

  /** Along a walk from a ranked name, every later referenced name ranks strictly lower. */
  lemma {:induction false} RankDescends(refs: Refs, rank: map<string, nat>, p: seq<string>, i: nat, j: nat)
    requires Ranked(refs, rank) && IsPath(refs, p)
    requires i < j < |p| && p[i] in rank && p[j] in refs
    ensures p[j] in rank && rank[p[j]] < rank[p[i]]
    decreases j - i
  {
    assert p[j - 1] in refs && p[j] in refs[p[j - 1]];
    if j - 1 > i {
      RankDescends(refs, rank, p, i, j - 1);
    }
  }

  lemma {:induction false} CollectMembership(names: seq<string>, refs: Refs, rank: map<string, nat>, bound: nat, x: string)
    requires Ranked(refs, rank) && Below(names, refs, rank, bound)
    ensures x in CollectDependents(names, refs, rank, bound) <==>
      exists i :: 0 <= i < |names| && names[i] in refs
        && (x in refs[names[i]] || x in DependentAssets(refs[names[i]], refs, rank, rank[names[i]]))
    decreases |names|
  {
    if names != [] {
      CollectMembership(names[1..], refs, rank, bound, x);
      assert forall i :: 0 <= i < |names[1..]| ==> names[1..][i] == names[i + 1];
    }
  }

  lemma {:induction false} DependentsReach(names: seq<string>, refs: Refs, rank: map<string, nat>, bound: nat, x: string)
    requires Ranked(refs, rank) && Below(names, refs, rank, bound)
    requires x in DependentAssets(names, refs, rank, bound)
    ensures Reachable(refs, names, x)
    decreases bound
  {
    var i := CollectWitness(names, refs, rank, bound, x);
    var n := names[i];
    if x in refs[n] {
      assert IsPath(refs, [n, x]);
    } else {
      DependentsReach(refs[n], refs, rank, rank[n], x);
      var p :| IsPath(refs, p) && p[0] in refs[n] && p[|p| - 1] == x;
      PathCons(refs, n, p);
      assert ([n] + p)[|[n] + p| - 1] == x;
    }
  }

  /** The name among `names` whose referrers or dependents contribute `x`. */
  lemma {:induction false} CollectWitness(names: seq<string>, refs: Refs, rank: map<string, nat>, bound: nat, x: string)
    returns (i: nat)
    requires Ranked(refs, rank) && Below(names, refs, rank, bound)
    requires x in CollectDependents(names, refs, rank, bound)
    ensures i < |names| && names[i] in refs
    ensures x in refs[names[i]] || x in DependentAssets(refs[names[i]], refs, rank, rank[names[i]])
    decreases |names|
  {
    var n := names[0];
    if n in refs && (x in refs[n] || x in DependentAssets(refs[n], refs, rank, rank[n])) {
      i := 0;
    } else {
      var j := CollectWitness(names[1..], refs, rank, bound, x);
      i := j + 1;
    }
  }

  /** A path extended backwards by one edge is a path. */
  lemma PathCons(refs: Refs, n: string, p: seq<string>)
    requires IsPath(refs, p) && n in refs && p[0] in refs[n]
    ensures IsPath(refs, [n] + p)
  {
    var q := [n] + p;
    forall i | 0 <= i < |q| - 1 ensures q[i] in refs && q[i + 1] in refs[q[i]] {
      if i > 0 {
        assert q[i] == p[i - 1] && q[i + 1] == p[i];
      }
    }
  }

  lemma {:induction false} ReachedAreDependents(names: seq<string>, refs: Refs, rank: map<string, nat>, bound: nat, x: string)
    requires Ranked(refs, rank) && Below(names, refs, rank, bound)
    requires Reachable(refs, names, x)
    ensures x in DependentAssets(names, refs, rank, bound)
    decreases bound
  {
    CollectMembership(names, refs, rank, bound, x);
    var p :| IsPath(refs, p) && p[0] in names && p[|p| - 1] == x;
    var n := p[0];
    var i :| 0 <= i < |names| && names[i] == n;
    if |p| > 2 {
      var q := p[1..];
      assert forall k :: 0 <= k < |q| ==> q[k] == p[k + 1];
      assert IsPath(refs, q);
      ReachedAreDependents(refs[n], refs, rank, rank[n], x);
    }
  }

  /**
   * getDependentAssets yields exactly the names reachable from `names` through one
   * or more 'assets' edges; a name with no 'assets' entry starts no path.
   */
  lemma DependentsAreReachable(names: seq<string>, refs: Refs, rank: map<string, nat>, bound: nat, x: string)
    requires Ranked(refs, rank) && Below(names, refs, rank, bound)
    ensures x in DependentAssets(names, refs, rank, bound) <==> Reachable(refs, names, x)
  {
    if x in DependentAssets(names, refs, rank, bound) {
      DependentsReach(names, refs, rank, bound, x);
    }
    if Reachable(refs, names, x) {
      ReachedAreDependents(names, refs, rank, bound, x);
    }
  }

  /**
   * The lists getAssetsToDump collects for one changed name `file`: for each
   * source, in table order, that ends with `file`, the source's names and their
   * dependents.
   */
  function MatchGroups(file: string, m: DependencyMap, sources: seq<string>, ghost rank: map<string, nat>, ghost bound: nat): (r: seq<seq<string>>)
    requires RecordedBelow(m, rank, bound)
    ensures |r| <= 2 * |sources|
  {
    if sources == [] then []
    else
      MatchGroups(file, m, sources[..|sources| - 1], rank, bound) + SourceGroups(file, m, sources[|sources| - 1], rank, bound)
  }

  /** The lists one source contributes for `file`: its names and their dependents, when it ends with `file`. */
  function SourceGroups(file: string, m: DependencyMap, source: string, ghost rank: map<string, nat>, ghost bound: nat): (r: seq<seq<string>>)
    requires RecordedBelow(m, rank, bound)
    ensures |r| <= 2
  {
    if EndsWith(source, file)
    then [NamesAt(m, source), DependentAssets(NamesAt(m, source), m.assets, rank, bound)]
    else []
  }

  /** What one source contributes for `file`: its names and the names reaching them, when it ends with `file`. */
  lemma SourceGroupsMembership(file: string, m: DependencyMap, source: string, rank: map<string, nat>, bound: nat, x: string)
    requires RecordedBelow(m, rank, bound)
    ensures x in Flatten(SourceGroups(file, m, source, rank, bound)) <==>
      IsSuffix(file, source) && (x in NamesAt(m, source) || Reachable(m.assets, NamesAt(m, source), x))
  {
    DependentsAreReachable(NamesAt(m, source), m.assets, rank, bound, x);
  }

  /** The lists getAssetsToDump collects over all changed names, in order. */
  function Groups(files: seq<string>, m: DependencyMap, ghost rank: map<string, nat>, ghost bound: nat): (r: seq<seq<string>>)
    requires RecordedBelow(m, rank, bound)
    ensures |r| <= |files| * (2 * |m.sources|)
  {
    if files == [] then []
    else
      assert (|files| - 1) * (2 * |m.sources|) + 2 * |m.sources| == |files| * (2 * |m.sources|);
      Groups(files[..|files| - 1], m, rank, bound) + MatchGroups(files[|files| - 1], m, m.sources, rank, bound)
  }

  /** getAssetsToDump's result: the collected lists merged and deduplicated. */
  function Resolve(files: seq<string>, m: DependencyMap, ghost rank: map<string, nat>, ghost bound: nat): (r: seq<string>)
    requires RecordedBelow(m, rank, bound)
    ensures NoDuplicates(r)
  {
    var groups := Groups(files, m, rank, bound);
    if groups == [] then [] else Dedup(Flatten(groups))
  }

  /**
   * getAssetsToDump against a map it can resolve: the impacted names, each once.
   * Which ranking is chosen does not matter to the result's members.
   */
  ghost function Impact(files: seq<string>, m: DependencyMap): (r: seq<string>)
    requires Resolvable(m)
    ensures NoDuplicates(r)
    ensures forall x :: x in r <==> Impacted(files, m, x)
  {
    ResolveMeaning(files, m, RankOf(m).0, RankOf(m).1);
    Resolve(files, m, RankOf(m).0, RankOf(m).1)
  }

  /**
   * `x` must be dumped for `files`: some changed name is a suffix of a recorded
   * source, and `x` is built from that source or reaches one of its names through
   * 'assets' edges.
   */
  ghost predicate Impacted(files: seq<string>, m: DependencyMap, x: string) {
    exists f, s :: f in files && s in m.sources && IsSuffix(f, s)
      && (x in NamesAt(m, s) || Reachable(m.assets, NamesAt(m, s), x))
  }

  lemma {:induction false} MatchGroupsMembership(file: string, m: DependencyMap, sources: seq<string>, rank: map<string, nat>, bound: nat, x: string)
    requires RecordedBelow(m, rank, bound)
    ensures x in Flatten(MatchGroups(file, m, sources, rank, bound)) <==>
      exists s :: s in sources && IsSuffix(file, s)
        && (x in NamesAt(m, s) || Reachable(m.assets, NamesAt(m, s), x))
    decreases |sources|
  {
    if sources != [] {
      var front := sources[..|sources| - 1];
      var source := sources[|sources| - 1];
      var tail := SourceGroups(file, m, source, rank, bound);
      MatchGroupsMembership(file, m, front, rank, bound, x);
      FlattenAppend(MatchGroups(file, m, front, rank, bound), tail);
      SourceGroupsMembership(file, m, source, rank, bound, x);
      assert forall s :: s in sources <==> s in front || s == source;
    }
  }

  lemma {:induction false} GroupsMembership(files: seq<string>, m: DependencyMap, rank: map<string, nat>, bound: nat, x: string)
    requires RecordedBelow(m, rank, bound)
    ensures x in Flatten(Groups(files, m, rank, bound)) <==> Impacted(files, m, x)
    decreases |files|
  {
    if files != [] {
      var front := files[..|files| - 1];
      var file := files[|files| - 1];
      GroupsMembership(front, m, rank, bound, x);
      FlattenAppend(Groups(front, m, rank, bound), MatchGroups(file, m, m.sources, rank, bound));
      MatchGroupsMembership(file, m, m.sources, rank, bound, x);
      assert forall f :: f in files <==> f in front || f == file;
    }
  }

  /**
   * What getAssetsToDump returns: no name twice, exactly the impacted names, and
   * nothing when no changed name is a suffix of a recorded source.
   */
  lemma ResolveMeaning(files: seq<string>, m: DependencyMap, rank: map<string, nat>, bound: nat)
    requires RecordedBelow(m, rank, bound)
    ensures NoDuplicates(Resolve(files, m, rank, bound))
    ensures forall x :: x in Resolve(files, m, rank, bound) <==> Impacted(files, m, x)
    ensures (forall f, s :: f in files && s in m.sources ==> !IsSuffix(f, s)) ==> Resolve(files, m, rank, bound) == []
  {
    forall x ensures x in Resolve(files, m, rank, bound) <==> Impacted(files, m, x) {
      GroupsMembership(files, m, rank, bound, x);
    }
    var r := Resolve(files, m, rank, bound);
    if r != [] {
      assert r[0] in r;
    }
  }

  /** One more source key adds its lists when it ends with `file`. */
  lemma MatchGroupsStep(file: string, m: DependencyMap, sources: seq<string>, j: nat, rank: map<string, nat>, bound: nat)
    requires RecordedBelow(m, rank, bound) && j < |sources|
    ensures MatchGroups(file, m, sources[..j + 1], rank, bound)
      == MatchGroups(file, m, sources[..j], rank, bound)
         + SourceGroups(file, m, sources[j], rank, bound)
  {
    assert sources[..j + 1][..j] == sources[..j];
  }

  /** One source's turn in CollectMatches: its names and their dependents are appended when it matches. */
  lemma CollectStep(file: string, m: DependencyMap, j: nat, rank: map<string, nat>, bound: nat, g: seq<seq<string>>)
    requires RecordedBelow(m, rank, bound) && j < |m.sources|
    requires g == MatchGroups(file, m, m.sources[..j], rank, bound)
    ensures var names := NamesAt(m, m.sources[j]);
      && Ranked(m.assets, rank) && Below(names, m.assets, rank, bound)
      && MatchGroups(file, m, m.sources[..j + 1], rank, bound)
         == if EndsWith(m.sources[j], file) then g + [names] + [DependentAssets(names, m.assets, rank, bound)] else g
  {
    MatchGroupsStep(file, m, m.sources, j, rank, bound);
  }

  /** A source key in the table has an entry, and its names are the entry's. */
  lemma SourceEntry(m: DependencyMap, j: nat)
    requires WellFormed(m) && j < |m.sources|
    ensures m.sources[j] in m.files && m.files[m.sources[j]] == NamesAt(m, m.sources[j])
  {
    assert m.sources[j] in m.sources;
  }

  /** The inner loop of getAssetsToDump: the lists collected for one changed name. */
  method CollectMatches(file: string, m: DependencyMap, ghost rank: map<string, nat>, ghost bound: nat)
    returns (g: seq<seq<string>>)
    requires WellFormed(m) && RecordedBelow(m, rank, bound)
    ensures g == MatchGroups(file, m, m.sources, rank, bound)
  {
    g := [];
    var j := 0;
    while j < |m.sources|
      invariant 0 <= j <= |m.sources|
      invariant g == MatchGroups(file, m, m.sources[..j], rank, bound)
    {
      CollectStep(file, m, j, rank, bound, g);
      SourceEntry(m, j);
      var source := m.sources[j];
      var names := m.files[source];
      if EndsWith(source, file) {
        g := g + [names];
        g := g + [DependentAssets(names, m.assets, rank, bound)];
      }
      j := j + 1;
    }
    assert m.sources[..j] == m.sources;
  }

  /**
   * getAssetsToDump: for every changed name and every recorded source (in table
   * order) that ends with it, collect the source's names and their dependents;
   * then merge and deduplicate.
   */
  method AssetsToDump(files: seq<string>, m: DependencyMap, ghost rank: map<string, nat>, ghost bound: nat)
    returns (r: seq<string>)
    requires WellFormed(m) && RecordedBelow(m, rank, bound)
    ensures r == Resolve(files, m, rank, bound)
    ensures NoDuplicates(r)
    ensures forall x :: x in r <==> Impacted(files, m, x)
    ensures (forall f, s :: f in files && s in m.sources ==> !IsSuffix(f, s)) ==> r == []
  {
    var assets: seq<seq<string>> := [];
    var i := 0;
    while i < |files|
      invariant 0 <= i <= |files|
      invariant assets == Groups(files[..i], m, rank, bound)
    {
      var g := CollectMatches(files[i], m, rank, bound);
      GroupsStep(files, i, m, rank, bound);
      assets := assets + g;
      i := i + 1;
    }
    assert files[..i] == files;
    r := if assets == [] then [] else Dedup(Flatten(assets));
    ResolveMeaning(files, m, rank, bound);
  }

  /** One more changed name adds the lists collected for it. */
  lemma GroupsStep(files: seq<string>, i: nat, m: DependencyMap, rank: map<string, nat>, bound: nat)
    requires RecordedBelow(m, rank, bound) && i < |files|
    ensures Groups(files[..i + 1], m, rank, bound)
      == Groups(files[..i], m, rank, bound) + MatchGroups(files[i], m, m.sources, rank, bound)
  {
    assert files[..i + 1][..i] == files[..i];
  }
}
