/** Sequence helpers that stand for PHP's list built-ins. */
module Seqs {

  /** No value occurs twice. */
  predicate NoDuplicates<T(==)>(s: seq<T>) {
    forall i, j :: 0 <= i < j < |s| ==> s[i] != s[j]
  }

  /** array_unique on a list: keeps the first occurrence of every value, in order. */
  function Dedup<T(==,!new)>(s: seq<T>): (r: seq<T>)
    ensures NoDuplicates(r)
    ensures forall x :: x in r <==> x in s
    ensures |r| <= |s|
  {
    if s == [] then []
    else
      var d := Dedup(s[..|s| - 1]);
      if s[|s| - 1] in d then d else d + [s[|s| - 1]]
  }

  /**
   * array_unique keeps input order: a value listed before another occurs in the
   * input before every occurrence of the other. With the contract of `Dedup`, this
   * fixes the result as the first occurrences in input order.
   */
  lemma {:induction false} DedupKeepsFirstOccurrences<T(!new)>(s: seq<T>)
    ensures forall i, j, k :: 0 <= i < j < |Dedup(s)| && 0 <= k < |s| && s[k] == Dedup(s)[j] ==> Dedup(s)[i] in s[..k]
  {
    if s != [] {
      var p := s[..|s| - 1];
      var last := s[|s| - 1];
      var d := Dedup(p);
      var r := Dedup(s);
      DedupKeepsFirstOccurrences(p);
      forall i, j, k | 0 <= i < j < |r| && 0 <= k < |s| && s[k] == r[j] ensures r[i] in s[..k] {
        assert r[i] == d[i] && r[i] in p;
        if j < |d| {
          assert r[j] == d[j];
          if k < |s| - 1 {
            assert s[k] == p[k] && s[..k] == p[..k];
            assert d[i] in p[..k];
          } else {
            assert s[..k] == p;
          }
        } else {
          assert r[j] == last && last !in p;
          assert k == |s| - 1 && s[..k] == p;
        }
      }
    }
  }

  /** On a list that is already duplicate-free, array_unique changes nothing. */
  lemma {:induction false} DedupOfDistinct<T(!new)>(s: seq<T>)
    requires NoDuplicates(s)
    ensures Dedup(s) == s
  {
    if s != [] {
      var p := s[..|s| - 1];
      assert NoDuplicates(p) by {
        forall i, j | 0 <= i < j < |p| ensures p[i] != p[j] {
          assert p[i] == s[i] && p[j] == s[j];
        }
      }
      DedupOfDistinct(p);
      assert s[|s| - 1] !in p by {
        forall i | 0 <= i < |p| ensures p[i] != s[|s| - 1] {
          assert p[i] == s[i];
        }
      }
      assert s == p + [s[|s| - 1]];
    }
  }

  /**
   * array_merge over a list of lists: their concatenation, in order. PHP's lists
   * here are keyed by name, so array_merge keeps a repeated name once, where it
   * first appears; the two agree once the Dedup that always follows is applied.
   */
  function Flatten<T(!new)>(ss: seq<seq<T>>): (r: seq<T>)
    ensures forall x :: x in r <==> exists i :: 0 <= i < |ss| && x in ss[i]
  {
    if ss == [] then []
    else
      var front := ss[..|ss| - 1];
      assert forall i :: 0 <= i < |front| ==> front[i] == ss[i];
      Flatten(front) + ss[|ss| - 1]
  }

  /** Merging two lists of lists is merging each and concatenating. */
  lemma {:induction false} FlattenAppend<T(!new)>(a: seq<seq<T>>, b: seq<seq<T>>)
    ensures Flatten(a + b) == Flatten(a) + Flatten(b)
    decreases |b|
  {
    if b == [] {
      assert a + b == a;
    } else {
      var front := b[..|b| - 1];
      assert (a + b)[..|a + b| - 1] == a + front;
      FlattenAppend(a, front);
    }
  }
}
