/** Parent forests, the partitions they stand for, and connectivity by chains of edges. */
module Partitions {
  import opened Tracks

  type Parents = map<Key, Key>

  ghost predicate LeastAt(part: map<Key, Key>, k: Key)
    requires k in part
  {
    part[k] in part && part[k] <= k && part[part[k]] == part[k]
  }

  /** Each component is named by its least key. */
  ghost predicate LeastNamed(part: map<Key, Key>) {
    forall k {:trigger LeastAt(part, k)} :: k in part ==> LeastAt(part, k)
  }

  ghost predicate ParentAt(p: Parents, part: map<Key, Key>, k: Key)
    requires k in p && p.Keys == part.Keys
  {
    p[k] in p && p[k] <= k && part[p[k]] == part[k] && (p[k] == k <==> part[k] == k)
  }

  /** Parents never leave a component, never grow, and stop exactly at the component's name. */
  ghost predicate Represents(p: Parents, part: map<Key, Key>) {
    && p.Keys == part.Keys
    && LeastNamed(part)
    && forall k {:trigger ParentAt(p, part, k)} :: k in p ==> ParentAt(p, part, k)
  }

  /** Where following parents from `k` ends; parents strictly decrease on the way. */
  ghost function Root(p: Parents, k: Key): Key
    requires k in p && forall j {:trigger p[j]} :: j in p ==> p[j] in p && p[j] <= j
    decreases k
  {
    if p[k] == k then k else Root(p, p[k])
  }

  lemma RepresentsParents(p: Parents, part: map<Key, Key>)
    requires Represents(p, part)
    ensures forall j {:trigger p[j]} :: j in p ==> p[j] in p && p[j] <= j
  {
    forall j | j in p ensures p[j] in p && p[j] <= j {
      assert ParentAt(p, part, j);
    }
  }

  /** The partition names, for every key, the root that following parents reaches. */
  lemma {:induction false} RepresentsRoot(p: Parents, part: map<Key, Key>, k: Key)
    requires Represents(p, part) && k in p
    ensures (forall j {:trigger p[j]} :: j in p ==> p[j] in p && p[j] <= j) && Root(p, k) == part[k]
    decreases k
  {
    RepresentsParents(p, part);
    assert ParentAt(p, part, k);
    if p[k] != k {
      RepresentsRoot(p, part, p[k]);
    }
  }

  ghost predicate MergedAt(part: map<Key, Key>, root: Key, gone: Key, q: map<Key, Key>, k: Key)
    requires k in part && q.Keys == part.Keys
  {
    q[k] == if part[k] == gone then root else part[k]
  }

  ghost function MergeInto(part: map<Key, Key>, root: Key, gone: Key): (q: map<Key, Key>)
    ensures q.Keys == part.Keys
    ensures forall k {:trigger MergedAt(part, root, gone, q, k)} :: k in part ==> MergedAt(part, root, gone, q, k)
  {
    map k | k in part :: if part[k] == gone then root else part[k]
  }

  /** Pointing a key straight at its root changes no component. */
  lemma CompressKeeps(p: Parents, part: map<Key, Key>, key: Key)
    requires Represents(p, part) && key in p
    ensures Represents(p[key := part[key]], part)
  {
    assert LeastAt(part, key);
    var q := p[key := part[key]];
    forall k | k in q ensures ParentAt(q, part, k) {
      assert ParentAt(p, part, k);
    }
  }

  lemma MergeLeastNamed(part: map<Key, Key>, root: Key, gone: Key)
    requires LeastNamed(part) && root in part && gone in part
    requires part[root] == root && part[gone] == gone && root < gone
    ensures LeastNamed(MergeInto(part, root, gone))
  {
    var q := MergeInto(part, root, gone);
    forall k | k in q ensures LeastAt(q, k) {
      assert LeastAt(part, k);
      assert MergedAt(part, root, gone, q, k) && MergedAt(part, root, gone, q, q[k]);
    }
  }

  /** Hanging one root under a smaller one merges exactly those two components. */
  lemma LinkMerges(p: Parents, part: map<Key, Key>, root: Key, gone: Key)
    requires Represents(p, part) && root in p && gone in p
    requires part[root] == root && part[gone] == gone && root < gone
    ensures Represents(p[gone := root], MergeInto(part, root, gone))
  {
    MergeLeastNamed(part, root, gone);
    var p', q := p[gone := root], MergeInto(part, root, gone);
    forall k | k in p' ensures ParentAt(p', q, k) {
      assert ParentAt(p, part, k) && LeastAt(part, k);
      assert MergedAt(part, root, gone, q, k) && MergedAt(part, root, gone, q, p'[k]);
    }
  }

  // ----- Comparing partitions

  ghost predicate CoarserAt(fine: map<Key, Key>, coarse: map<Key, Key>, a: Key, b: Key)
    requires a in fine && b in fine && fine.Keys == coarse.Keys
  {
    fine[a] == fine[b] ==> coarse[a] == coarse[b]
  }

  /** Keys together in `fine` stay together in `coarse`. */
  ghost predicate Coarser(fine: map<Key, Key>, coarse: map<Key, Key>) {
    && fine.Keys == coarse.Keys
    && forall a, b {:trigger CoarserAt(fine, coarse, a, b)} :: a in fine && b in fine ==> CoarserAt(fine, coarse, a, b)
  }

  lemma CoarserTransitive(a: map<Key, Key>, b: map<Key, Key>, c: map<Key, Key>)
    requires Coarser(a, b) && Coarser(b, c)
    ensures Coarser(a, c)
  {
    forall x, y | x in a && y in a ensures CoarserAt(a, c, x, y) {
      assert CoarserAt(a, b, x, y) && CoarserAt(b, c, x, y);
    }
  }

  /** A least-named partition is determined by which keys it puts together. */
  lemma LeastNamedUnique(a: map<Key, Key>, b: map<Key, Key>)
    requires LeastNamed(a) && LeastNamed(b)
    requires Coarser(a, b) && Coarser(b, a)
    ensures a == b
  {
    forall k | k in a ensures a[k] == b[k] {
      assert LeastAt(a, k) && LeastAt(b, k);
      assert CoarserAt(a, b, a[k], k) && CoarserAt(b, a, b[k], k);
      assert LeastAt(a, b[k]) && LeastAt(b, a[k]);
    }
  }

  // ----- Chains of edges

  type Edges = set<(Key, Key)>

  ghost predicate Joined(e: Edges, a: Key, b: Key) {
    (a, b) in e || (b, a) in e
  }

  ghost predicate IsChain(e: Edges, p: seq<Key>) {
    p != [] && forall i :: 0 <= i < |p| - 1 ==> Joined(e, p[i], p[i + 1])
  }

  ghost predicate ChainFromTo(e: Edges, p: seq<Key>, a: Key, b: Key) {
    IsChain(e, p) && p[0] == a && p[|p| - 1] == b
  }

  ghost predicate Connected(e: Edges, a: Key, b: Key) {
    exists p :: ChainFromTo(e, p, a, b)
  }

  lemma ConnectedReflexive(e: Edges, a: Key)
    ensures Connected(e, a, a)
  {
    assert ChainFromTo(e, [a], a, a);
  }

  lemma ConnectedStep(e: Edges, a: Key, b: Key)
    requires Joined(e, a, b)
    ensures Connected(e, a, b)
  {
    assert ChainFromTo(e, [a, b], a, b);
  }

  lemma ConnectedTransitive(e: Edges, a: Key, b: Key, c: Key)
    requires Connected(e, a, b) && Connected(e, b, c)
    ensures Connected(e, a, c)
  {
    var p :| ChainFromTo(e, p, a, b);
    var q :| ChainFromTo(e, q, b, c);
    var r := p + q[1..];
    forall i | 0 <= i < |r| - 1 ensures Joined(e, r[i], r[i + 1]) {
      if i < |p| - 1 {
        assert Joined(e, p[i], p[i + 1]);
      } else {
        assert r[i] == q[i - |p| + 1] && r[i + 1] == q[i - |p| + 2];
      }
    }
    assert ChainFromTo(e, r, a, c);
  }

  lemma {:induction false} ReverseChain(e: Edges, p: seq<Key>, a: Key, b: Key)
    requires ChainFromTo(e, p, a, b)
    ensures Connected(e, b, a)
    decreases |p|
  {
    if |p| == 1 {
      ConnectedReflexive(e, a);
    } else {
      assert ChainFromTo(e, p[1..], p[1], b);
      ReverseChain(e, p[1..], p[1], b);
      assert Joined(e, p[0], p[1]);
      ConnectedStep(e, p[1], a);
      ConnectedTransitive(e, b, p[1], a);
    }
  }

  lemma ConnectedSymmetric(e: Edges, a: Key, b: Key)
    requires Connected(e, a, b)
    ensures Connected(e, b, a)
  {
    var p :| ChainFromTo(e, p, a, b);
    ReverseChain(e, p, a, b);
  }

  lemma ConnectedMonotone(e: Edges, f: Edges, a: Key, b: Key)
    requires Connected(e, a, b) && e <= f
    ensures Connected(f, a, b)
  {
    var p :| ChainFromTo(e, p, a, b);
    assert forall i :: 0 <= i < |p| - 1 ==> Joined(e, p[i], p[i + 1]) ==> Joined(f, p[i], p[i + 1]);
    assert ChainFromTo(f, p, a, b);
  }

  ghost predicate Respects(part: map<Key, Key>, e: Edges) {
    forall a, b :: (a, b) in e ==> a in part && b in part && part[a] == part[b]
  }

  lemma {:induction false} ChainStaysInside(part: map<Key, Key>, e: Edges, p: seq<Key>, a: Key, b: Key)
    requires Respects(part, e) && a in part
    requires ChainFromTo(e, p, a, b)
    ensures b in part && part[a] == part[b]
    decreases |p|
  {
    if |p| > 1 {
      assert Joined(e, p[0], p[1]);
      assert ChainFromTo(e, p[1..], p[1], b);
      ChainStaysInside(part, e, p[1..], p[1], b);
    }
  }

  /** Every two keys of one component are connected. */
  ghost predicate Justified(part: map<Key, Key>, e: Edges) {
    forall a, b {:trigger Connected(e, a, b)} :: a in part && b in part && part[a] == part[b] ==> Connected(e, a, b)
  }

  lemma JustifiedMonotone(part: map<Key, Key>, e: Edges, f: Edges)
    requires Justified(part, e) && e <= f
    ensures Justified(part, f)
  {
    forall a, b | a in part && b in part && part[a] == part[b] ensures Connected(f, a, b) {
      ConnectedMonotone(e, f, a, b);
    }
  }

  /** Merging the components of two joined keys keeps every component connected. */
  lemma MergeJustified(part: map<Key, Key>, e: Edges, l: Key, r: Key, root: Key, gone: Key)
    requires LeastNamed(part) && Justified(part, e)
    requires l in part && r in part && Joined(e, l, r)
    requires {root, gone} == {part[l], part[r]}
    ensures Justified(MergeInto(part, root, gone), e)
  {
    var q := MergeInto(part, root, gone);
    ConnectedStep(e, l, r);
    ConnectedSymmetric(e, l, r);
    forall a, b | a in q && b in q && q[a] == q[b] ensures Connected(e, a, b) {
      assert MergedAt(part, root, gone, q, a) && MergedAt(part, root, gone, q, b);
      if part[a] != part[b] {
        var l', r' := if part[a] == part[l] then l else r, if part[a] == part[l] then r else l;
        assert part[a] == part[l'] && part[b] == part[r'];
        ConnectedTransitive(e, a, l', r');
        ConnectedTransitive(e, a, r', b);
      }
    }
  }
}
