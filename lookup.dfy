/**
 * Lookup-or-create by name, stated over the sequence of identity names of an
 * ordered entity collection: the first entry with the name is the one found,
 * and a miss appends the name at the end.
 */
module Lookup {
  import opened Wrappers

  /** No name occurs twice. */
  predicate Distinct(ns: seq<string>) {
    forall i, j :: 0 <= i < j < |ns| ==> ns[i] != ns[j]
  }

  /** The position of the first occurrence of `n` in `ns`, if any. */
  function FirstIndex(ns: seq<string>, n: string): (r: Option<nat>)
    ensures r.Some? <==> n in ns
    ensures r.Some? ==> r.value < |ns| && ns[r.value] == n && n !in ns[..r.value]
  {
    if ns == [] then None
    else if ns[0] == n then Some(0)
    else
      match FirstIndex(ns[1..], n)
      case None => None
      case Some(i) =>
        assert ns[..i + 1] == [ns[0]] + ns[1..][..i];
        Some(i + 1)
  }

  /** Any position holding `n` with no earlier `n` is the first one. */
  lemma FirstIndexAt(ns: seq<string>, n: string, i: nat)
    requires i < |ns| && ns[i] == n && n !in ns[..i]
    ensures FirstIndex(ns, n) == Some(i)
  {
  }

  /** The names after acquiring `n`: unchanged on a hit, `n` appended on a miss. */
  function AcquiredNames(ns: seq<string>, n: string): (r: seq<string>)
    ensures ns <= r && n in r
    ensures |r| == if n in ns then |ns| else |ns| + 1
  {
    if n in ns then ns else ns + [n]
  }

  /** Where the acquired entity sits: the first match on a hit, the new last index on a miss. */
  function AcquiredIndex(ns: seq<string>, n: string): (r: nat)
    ensures r < |AcquiredNames(ns, n)| && AcquiredNames(ns, n)[r] == n
    ensures n !in AcquiredNames(ns, n)[..r]
    ensures n in ns ==> Some(r) == FirstIndex(ns, n)
  {
    match FirstIndex(ns, n)
    case Some(i) => i
    case None => |ns|
  }

  /** Acquiring the same name twice finds, the second time, what the first acquisition returned. */
  lemma AcquireIdempotent(ns: seq<string>, n: string)
    ensures AcquiredNames(AcquiredNames(ns, n), n) == AcquiredNames(ns, n)
    ensures AcquiredIndex(AcquiredNames(ns, n), n) == AcquiredIndex(ns, n)
  {
  }

  /** In a collection of distinct names, a present name occurs exactly once. */
  lemma {:induction false} DistinctOccursOnce(ns: seq<string>, n: string)
    requires Distinct(ns) && n in ns
    ensures multiset(ns)[n] == 1
  {
    assert ns == [ns[0]] + ns[1..];
    if ns[0] == n {
      assert n !in ns[1..];
    } else {
      DistinctOccursOnce(ns[1..], n);
    }
  }

  /**
   * Acquisition keeps names distinct, and afterwards the acquired name
   * occurs exactly once.
   */
  lemma {:induction false} AcquirePreservesDistinct(ns: seq<string>, n: string)
    requires Distinct(ns)
    ensures Distinct(AcquiredNames(ns, n))
    ensures multiset(AcquiredNames(ns, n))[n] == 1
  {
    DistinctOccursOnce(AcquiredNames(ns, n), n);
  }
}
