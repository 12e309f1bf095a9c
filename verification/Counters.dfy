/** Python's Counter, as a map whose missing keys count zero. */
module Counters {

  function CountOf<T>(counts: map<T, nat>, k: T): nat {
    if k in counts then counts[k] else 0
  }

  ghost predicate Counts<T(!new)>(counts: map<T, nat>, s: seq<T>) {
    forall k :: CountOf(counts, k) == multiset(s)[k]
  }

  lemma CountsSnoc<T(!new)>(counts: map<T, nat>, s: seq<T>, x: T)
    requires Counts(counts, s)
    ensures Counts(counts[x := CountOf(counts, x) + 1], s + [x])
  {
    forall k ensures CountOf(counts[x := CountOf(counts, x) + 1], k) == multiset(s + [x])[k] {
      assert CountOf(counts, k) == multiset(s)[k];
    }
  }
}
