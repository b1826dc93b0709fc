/**
 * The source-to-asset map that the command builds, caches and resolves against.
 * 'files' gives, per source file, the top-level asset names built from it, and
 * 'assets' gives, per referenced asset name, the top-level names whose trees hold a
 * reference to it. PHP arrays keep insertion order, so the order in which sources
 * were first recorded is kept in `sources`.
 */
module DependencyMaps {
  import opened Seqs

  /** 'assets': referenced name => referring top-level names. */
  type Refs = map<string, seq<string>>

  datatype DependencyMap = DependencyMap(sources: seq<string>, files: map<string, seq<string>>, assets: Refs)

  const EmptyMap := DependencyMap([], map[], map[])

  /** The names recorded for `source`, or none when it has no entry. */
  function NamesAt(m: DependencyMap, source: string): seq<string> {
    if source in m.files then m.files[source] else []
  }

  /** The names that refer to `target`, or none when it has no entry. */
  function Referrers(refs: Refs, target: string): seq<string> {
    if target in refs then refs[target] else []
  }

  /**
   * `sources` lists each key of 'files' exactly once, and each entry of 'files'
   * lists a name at most once.
   */
  ghost predicate WellFormed(m: DependencyMap) {
    && NoDuplicates(m.sources)
    && (forall s :: s in m.files <==> s in m.sources)
    && (forall s :: s in m.files ==> NoDuplicates(m.files[s]))
  }

  /** Every name the map records, in either part, belongs to `allowed`. */
  ghost predicate NamesWithin(m: DependencyMap, allowed: set<string>) {
    && (forall s, n :: s in m.files && n in m.files[s] ==> n in allowed)
    && (forall t, n :: t in m.assets && n in m.assets[t] ==> n in allowed)
  }
}
