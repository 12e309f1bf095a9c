/** Grouping provider copies of playlists: what the two merging phases compute and guarantee. */
module Grouping {
  import opened Tracks
  import opened Partitions

  /** A sync rule's id, by its rank in Python's string order. */
  type RuleId = nat

  datatype SyncLink = SyncLink(source: Key, target: Key, ruleId: RuleId)

  type Catalog = map<Key, Playlist>

  type Partition = map<Key, Key>

  predicate Loaded(byKey: Catalog, link: SyncLink) {
    link.source in byKey && link.target in byKey
  }

  ghost predicate AllIn(byKey: Catalog, keys: seq<Key>) {
    forall i :: 0 <= i < |keys| ==> keys[i] in byKey
  }

  /** Two playlists the overlap phase tries to merge. */
  predicate Eligible(l: Playlist, r: Playlist) {
    && l.kind == r.kind
    && l.normalName == r.normalName
    && l.account != r.account
    && PlaylistsOverlap(l, r)
  }

  lemma EligibleSymmetric(l: Playlist, r: Playlist)
    ensures Eligible(l, r) == Eligible(r, l)
  {
    OverlapSymmetric(l, r);
  }

  ghost function AccountsOf(byKey: Catalog, part: Partition, root: Key): set<Account>
    requires byKey.Keys == part.Keys
  {
    set k | k in byKey && part[k] == root :: byKey[k].account
  }

  ghost function Unite(byKey: Catalog, part: Partition, l: Key, r: Key, sameAccountAllowed: bool): (q: Partition)
    requires byKey.Keys == part.Keys && l in byKey && r in byKey
    ensures q.Keys == byKey.Keys
  {
    if part[l] == part[r] then part
    else if !sameAccountAllowed && AccountsOf(byKey, part, part[l]) * AccountsOf(byKey, part, part[r]) != {} then part
    else if part[l] > part[r] then MergeInto(part, part[r], part[l])
    else MergeInto(part, part[l], part[r])
  }

  ghost function Singletons(byKey: Catalog): (q: Partition)
    ensures q.Keys == byKey.Keys
  {
    map k | k in byKey :: k
  }

  ghost function LinkPhase(byKey: Catalog, links: seq<SyncLink>): (q: Partition)
    ensures q.Keys == byKey.Keys
  {
    if links == [] then Singletons(byKey)
    else
      var part := LinkPhase(byKey, links[..|links| - 1]);
      var link := links[|links| - 1];
      if Loaded(byKey, link) then Unite(byKey, part, link.source, link.target, true) else part
  }

  ghost function TryMatch(byKey: Catalog, part: Partition, l: Key, r: Key): (q: Partition)
    requires byKey.Keys == part.Keys && l in byKey && r in byKey
    ensures q.Keys == byKey.Keys
  {
    if Eligible(byKey[l], byKey[r]) then Unite(byKey, part, l, r, false) else part
  }

  /** What a tried pair does to a partition; `TryIn` in this program. */
  type Attempt = (Partition, Key, Key) -> Partition

  ghost function TryIn(byKey: Catalog): Attempt {
    (part: Partition, l: Key, r: Key) =>
      if part.Keys == byKey.Keys && l in byKey && r in byKey then TryMatch(byKey, part, l, r) else part
  }

  /** One pass of the inner loop: `left` against every later candidate. */
  ghost function MatchInner(attempt: Attempt, part: Partition, l: Key, rights: seq<Key>): Partition {
    if rights == [] then part
    else attempt(MatchInner(attempt, part, l, rights[..|rights| - 1]), l, rights[|rights| - 1])
  }

  /** The outer loop over the first `n` candidates. */
  ghost function MatchOuter(attempt: Attempt, part: Partition, candidates: seq<Key>, n: nat): Partition
    requires n <= |candidates|
  {
    if n == 0 then part
    else MatchInner(attempt, MatchOuter(attempt, part, candidates, n - 1), candidates[n - 1], candidates[n..])
  }

  // ----- What one union keeps

  ghost predicate KeptAt(byKey: Catalog, fine: Partition, coarse: Partition, a: Key, b: Key)
    requires a in byKey && b in byKey && byKey.Keys == fine.Keys == coarse.Keys
  {
    byKey[a].account == byKey[b].account && coarse[a] == coarse[b] ==> fine[a] == fine[b]
  }

  /** Playlists of one account together in `coarse` were together in `fine` already. */
  ghost predicate SameAccountKept(byKey: Catalog, fine: Partition, coarse: Partition)
    requires byKey.Keys == fine.Keys == coarse.Keys
  {
    forall a, b {:trigger KeptAt(byKey, fine, coarse, a, b)} :: a in byKey && b in byKey ==>
            KeptAt(byKey, fine, coarse, a, b)
  }

  lemma UniteLeastNamed(byKey: Catalog, part: Partition, l: Key, r: Key, same: bool)
    requires byKey.Keys == part.Keys && l in byKey && r in byKey && LeastNamed(part)
    ensures LeastNamed(Unite(byKey, part, l, r, same))
  {
    assert LeastAt(part, l) && LeastAt(part, r);
    if part[l] > part[r] {
      MergeLeastNamed(part, part[r], part[l]);
    } else if part[l] < part[r] {
      MergeLeastNamed(part, part[l], part[r]);
    }
  }

  lemma MergeCoarser(part: Partition, root: Key, gone: Key)
    ensures Coarser(part, MergeInto(part, root, gone))
  {
    var q := MergeInto(part, root, gone);
    forall a, b | a in part && b in part ensures CoarserAt(part, q, a, b) {
      assert MergedAt(part, root, gone, q, a) && MergedAt(part, root, gone, q, b);
    }
  }

  lemma UniteCoarser(byKey: Catalog, part: Partition, l: Key, r: Key, same: bool)
    requires byKey.Keys == part.Keys && l in byKey && r in byKey
    ensures Coarser(part, Unite(byKey, part, l, r, same))
  {
    MergeCoarser(part, part[r], part[l]);
    MergeCoarser(part, part[l], part[r]);
    CoarserItself(part);
  }

  lemma CoarserItself(part: Partition)
    ensures Coarser(part, part)
  {
    forall a, b | a in part && b in part ensures CoarserAt(part, part, a, b) {
    }
  }

  lemma UniteJoins(byKey: Catalog, part: Partition, l: Key, r: Key)
    requires byKey.Keys == part.Keys && l in byKey && r in byKey
    ensures Unite(byKey, part, l, r, true)[l] == Unite(byKey, part, l, r, true)[r]
  {
  }

  lemma UniteJustified(byKey: Catalog, part: Partition, l: Key, r: Key, same: bool, e: Edges)
    requires byKey.Keys == part.Keys && l in byKey && r in byKey
    requires LeastNamed(part) && Justified(part, e) && Joined(e, l, r)
    ensures Justified(Unite(byKey, part, l, r, same), e)
  {
    MergeJustified(part, e, l, r, part[r], part[l]);
    MergeJustified(part, e, l, r, part[l], part[r]);
  }

  /** A guarded union never brings two playlists of one account together. */
  lemma UniteKeepsAccounts(byKey: Catalog, part: Partition, l: Key, r: Key)
    requires byKey.Keys == part.Keys && l in byKey && r in byKey
    ensures SameAccountKept(byKey, part, Unite(byKey, part, l, r, false))
  {
    var q := Unite(byKey, part, l, r, false);
    var root, gone := if part[l] > part[r] then part[r] else part[l], if part[l] > part[r] then part[l] else part[r];
    forall a, b | a in byKey && b in byKey ensures KeptAt(byKey, part, q, a, b) {
      if q != part && byKey[a].account == byKey[b].account {
        assert MergedAt(part, root, gone, q, a) && MergedAt(part, root, gone, q, b);
        var x := byKey[a].account;
        assert x in AccountsOf(byKey, part, part[a]) && x in AccountsOf(byKey, part, part[b]);
        assert x !in AccountsOf(byKey, part, part[l]) * AccountsOf(byKey, part, part[r]);
      }
    }
  }

  /** Merged already, or kept apart by an account they share. */
  ghost predicate Settled(byKey: Catalog, part: Partition, l: Key, r: Key)
    requires byKey.Keys == part.Keys && l in byKey && r in byKey
  {
    part[l] == part[r] || AccountsOf(byKey, part, part[l]) * AccountsOf(byKey, part, part[r]) != {}
  }

  lemma UniteSettles(byKey: Catalog, part: Partition, l: Key, r: Key)
    requires byKey.Keys == part.Keys && l in byKey && r in byKey
    ensures Settled(byKey, Unite(byKey, part, l, r, false), l, r)
  {
  }

  /** Components only gain accounts, so a settled pair stays settled. */
  lemma SettledMonotone(byKey: Catalog, fine: Partition, coarse: Partition, l: Key, r: Key)
    requires byKey.Keys == fine.Keys == coarse.Keys && l in byKey && r in byKey
    requires Coarser(fine, coarse) && Settled(byKey, fine, l, r)
    ensures Settled(byKey, coarse, l, r)
  {
    if fine[l] != fine[r] {
      var x :| x in AccountsOf(byKey, fine, fine[l]) * AccountsOf(byKey, fine, fine[r]);
      var a :| a in byKey && fine[a] == fine[l] && byKey[a].account == x;
      var b :| b in byKey && fine[b] == fine[r] && byKey[b].account == x;
      assert CoarserAt(fine, coarse, a, l) && CoarserAt(fine, coarse, b, r);
      assert x in AccountsOf(byKey, coarse, coarse[l]) * AccountsOf(byKey, coarse, coarse[r]);
    } else {
      assert CoarserAt(fine, coarse, l, r);
    }
  }

  // ----- The link phase: components are exactly the chains of links

  ghost function LinkEdges(byKey: Catalog, links: seq<SyncLink>): Edges {
    set l | l in links && Loaded(byKey, l) :: (l.source, l.target)
  }

  lemma LinkEdgesSnoc(byKey: Catalog, links: seq<SyncLink>)
    requires links != []
    ensures LinkEdges(byKey, links[..|links| - 1]) <= LinkEdges(byKey, links)
    ensures Loaded(byKey, links[|links| - 1]) ==>
              LinkEdges(byKey, links) ==
                      LinkEdges(byKey, links[..|links| - 1]) + {(links[|links| - 1].source, links[|links| - 1].target)}
    ensures !Loaded(byKey, links[|links| - 1]) ==> LinkEdges(byKey, links) == LinkEdges(byKey, links[..|links| - 1])
  {
    var n := |links| - 1;
    assert links == links[..n] + [links[n]];
    assert forall x :: x in links <==> x in links[..n] || x == links[n];
  }

  lemma CoarserRespects(fine: Partition, coarse: Partition, e: Edges)
    requires Coarser(fine, coarse) && Respects(fine, e)
    ensures Respects(coarse, e)
  {
    forall a, b | (a, b) in e ensures a in coarse && b in coarse && coarse[a] == coarse[b] {
      assert CoarserAt(fine, coarse, a, b);
    }
  }

  lemma {:induction false} LinkPhaseKeeps(byKey: Catalog, links: seq<SyncLink>)
    ensures LeastNamed(LinkPhase(byKey, links))
    ensures Justified(LinkPhase(byKey, links), LinkEdges(byKey, links))
    ensures Respects(LinkPhase(byKey, links), LinkEdges(byKey, links))
  {
    var e := LinkEdges(byKey, links);
    if links == [] {
      var q := Singletons(byKey);
      forall k | k in q ensures LeastAt(q, k) {
      }
      forall a, b | a in q && b in q && q[a] == q[b] ensures Connected(e, a, b) {
        ConnectedReflexive(e, a);
      }
    } else {
      var n := |links| - 1;
      var part := LinkPhase(byKey, links[..n]);
      LinkPhaseKeeps(byKey, links[..n]);
      LinkEdgesSnoc(byKey, links);
      JustifiedMonotone(part, LinkEdges(byKey, links[..n]), e);
      if Loaded(byKey, links[n]) {
        var l, r := links[n].source, links[n].target;
        UniteLeastNamed(byKey, part, l, r, true);
        UniteJustified(byKey, part, l, r, true, e);
        UniteCoarser(byKey, part, l, r, true);
        UniteJoins(byKey, part, l, r);
        CoarserRespects(part, LinkPhase(byKey, links), LinkEdges(byKey, links[..n]));
      }
    }
  }

  /** Links alone: two playlists share a component exactly when a chain of loaded links joins them. */
  lemma LinkComponents(byKey: Catalog, links: seq<SyncLink>, a: Key, b: Key)
    requires a in byKey && b in byKey
    ensures LinkPhase(byKey, links)[a] == LinkPhase(byKey, links)[b] <==> Connected(LinkEdges(byKey, links), a, b)
  {
    LinkPhaseKeeps(byKey, links);
    var e := LinkEdges(byKey, links);
    if Connected(e, a, b) {
      var p :| ChainFromTo(e, p, a, b);
      ChainStaysInside(LinkPhase(byKey, links), e, p, a, b);
    }
  }

  /** The order of the links does not matter to the partition. */
  lemma LinkPhaseOrderFree(byKey: Catalog, links: seq<SyncLink>, links': seq<SyncLink>)
    requires forall l :: l in links <==> l in links'
    ensures LinkPhase(byKey, links) == LinkPhase(byKey, links')
  {
    assert LinkEdges(byKey, links) == LinkEdges(byKey, links');
    LinkPhaseKeeps(byKey, links);
    LinkPhaseKeeps(byKey, links');
    var p, q := LinkPhase(byKey, links), LinkPhase(byKey, links');
    forall a, b | a in byKey && b in byKey ensures CoarserAt(p, q, a, b) && CoarserAt(q, p, a, b) {
      LinkComponents(byKey, links, a, b);
      LinkComponents(byKey, links', a, b);
    }
    LeastNamedUnique(p, q);
  }

  // ----- The overlap phase

  ghost function MatchEdges(byKey: Catalog): Edges {
    set a, b | a in byKey && b in byKey && Eligible(byKey[a], byKey[b]) :: (a, b)
  }

  /** How the overlap phase may change a partition. */
  ghost predicate Grown(byKey: Catalog, e: Edges, part: Partition, q: Partition)
    requires byKey.Keys == part.Keys == q.Keys
  {
    LeastNamed(q) && Justified(q, e) && Coarser(part, q) && SameAccountKept(byKey, part, q)
  }

  lemma GrownTransitive(byKey: Catalog, e: Edges, a: Partition, b: Partition, c: Partition)
    requires byKey.Keys == a.Keys == b.Keys == c.Keys
    requires Grown(byKey, e, a, b) && Grown(byKey, e, b, c)
    ensures Grown(byKey, e, a, c)
  {
    CoarserTransitive(a, b, c);
    forall x, y | x in byKey && y in byKey ensures KeptAt(byKey, a, c, x, y) {
      assert KeptAt(byKey, a, b, x, y) && KeptAt(byKey, b, c, x, y);
    }
  }

  lemma GrownItself(byKey: Catalog, e: Edges, a: Partition)
    requires byKey.Keys == a.Keys && LeastNamed(a) && Justified(a, e)
    ensures Grown(byKey, e, a, a)
  {
    CoarserItself(a);
    forall x, y | x in byKey && y in byKey ensures KeptAt(byKey, a, a, x, y) {
    }
  }

  lemma TryMatchGrows(byKey: Catalog, e: Edges, part: Partition, l: Key, r: Key)
    requires byKey.Keys == part.Keys && l in byKey && r in byKey
    requires LeastNamed(part) && Justified(part, e) && MatchEdges(byKey) <= e
    ensures Grown(byKey, e, part, TryMatch(byKey, part, l, r))
    ensures Eligible(byKey[l], byKey[r]) ==> Settled(byKey, TryMatch(byKey, part, l, r), l, r)
  {
    if Eligible(byKey[l], byKey[r]) {
      assert (l, r) in MatchEdges(byKey);
      UniteLeastNamed(byKey, part, l, r, false);
      UniteJustified(byKey, part, l, r, false, e);
      UniteCoarser(byKey, part, l, r, false);
      UniteKeepsAccounts(byKey, part, l, r);
      UniteSettles(byKey, part, l, r);
    } else {
      GrownItself(byKey, e, part);
    }
  }

  ghost predicate Sound(byKey: Catalog, e: Edges, part: Partition) {
    part.Keys == byKey.Keys && LeastNamed(part) && Justified(part, e)
  }

  /** Trying any pair grows a sound partition and settles the pair if it is eligible. */
  ghost predicate Attempts(byKey: Catalog, e: Edges, attempt: Attempt) {
    forall part, l, r {:trigger attempt(part, l, r)} :: Sound(byKey, e, part) && l in byKey && r in byKey ==>
      var q := attempt(part, l, r);
      q.Keys == byKey.Keys && Grown(byKey, e, part, q) && (Eligible(byKey[l], byKey[r]) ==> Settled(byKey, q, l, r))
  }

  lemma TryInAttempts(byKey: Catalog, e: Edges)
    requires MatchEdges(byKey) <= e
    ensures Attempts(byKey, e, TryIn(byKey))
  {
    var attempt := TryIn(byKey);
    forall part, l, r {:trigger attempt(part, l, r)} | Sound(byKey, e, part) && l in byKey && r in byKey
      ensures attempt(part, l, r).Keys == byKey.Keys && Grown(byKey, e, part, attempt(part, l, r))
      ensures Eligible(byKey[l], byKey[r]) ==> Settled(byKey, attempt(part, l, r), l, r)
    {
      TryMatchGrows(byKey, e, part, l, r);
    }
  }

  lemma {:induction false} MatchInnerGrows(byKey: Catalog, e: Edges, attempt: Attempt, part: Partition, l: Key,
                                           rights: seq<Key>)
    requires Attempts(byKey, e, attempt) && Sound(byKey, e, part) && l in byKey && AllIn(byKey, rights)
    ensures var q := MatchInner(attempt, part, l, rights); Sound(byKey, e, q) && Grown(byKey, e, part, q)
  {
    if rights != [] {
      var n := |rights| - 1;
      var mid := MatchInner(attempt, part, l, rights[..n]);
      MatchInnerGrows(byKey, e, attempt, part, l, rights[..n]);
      GrownTransitive(byKey, e, part, mid, attempt(mid, l, rights[n]));
    } else {
      GrownItself(byKey, e, part);
    }
  }

  lemma {:induction false} MatchInnerSettles(byKey: Catalog, e: Edges, attempt: Attempt, part: Partition,
                                             l: Key, rights: seq<Key>, j: nat)
    requires Attempts(byKey, e, attempt) && Sound(byKey, e, part) && l in byKey && AllIn(byKey, rights)
    requires j < |rights| && Eligible(byKey[l], byKey[rights[j]])
    ensures MatchInner(attempt, part, l, rights).Keys == byKey.Keys
    ensures Settled(byKey, MatchInner(attempt, part, l, rights), l, rights[j])
  {
    var n := |rights| - 1;
    var mid := MatchInner(attempt, part, l, rights[..n]);
    MatchInnerGrows(byKey, e, attempt, part, l, rights[..n]);
    var q := attempt(mid, l, rights[n]);
    if j < n {
      MatchInnerSettles(byKey, e, attempt, part, l, rights[..n], j);
      SettledMonotone(byKey, mid, q, l, rights[j]);
    }
  }

  lemma {:induction false} MatchOuterGrows(byKey: Catalog, e: Edges, attempt: Attempt, part: Partition,
                                           candidates: seq<Key>, n: nat)
    requires Attempts(byKey, e, attempt) && Sound(byKey, e, part) && AllIn(byKey, candidates) && n <= |candidates|
    ensures var q := MatchOuter(attempt, part, candidates, n); Sound(byKey, e, q) && Grown(byKey, e, part, q)
  {
    if n > 0 {
      var mid := MatchOuter(attempt, part, candidates, n - 1);
      MatchOuterGrows(byKey, e, attempt, part, candidates, n - 1);
      MatchInnerGrows(byKey, e, attempt, mid, candidates[n - 1], candidates[n..]);
      GrownTransitive(byKey, e, part, mid, MatchOuter(attempt, part, candidates, n));
    } else {
      GrownItself(byKey, e, part);
    }
  }

  /** Once a pair has been tried it stays settled to the end of the double loop. */
  lemma {:induction false} MatchOuterSettles(byKey: Catalog, e: Edges, attempt: Attempt, part: Partition,
                                             candidates: seq<Key>,
                                             n: nat, i: nat, j: nat)
    requires Attempts(byKey, e, attempt) && Sound(byKey, e, part) && AllIn(byKey, candidates)
    requires i < n <= |candidates| && i < j < |candidates| && Eligible(byKey[candidates[i]], byKey[candidates[j]])
    ensures MatchOuter(attempt, part, candidates, n).Keys == byKey.Keys
    ensures Settled(byKey, MatchOuter(attempt, part, candidates, n), candidates[i], candidates[j])
  {
    var mid := MatchOuter(attempt, part, candidates, n - 1);
    var l, rights := candidates[n - 1], candidates[n..];
    MatchOuterGrows(byKey, e, attempt, part, candidates, n - 1);
    if i == n - 1 {
      assert candidates[j] == rights[j - n];
      MatchInnerSettles(byKey, e, attempt, mid, l, rights, j - n);
    } else {
      MatchOuterSettles(byKey, e, attempt, part, candidates, n - 1, i, j);
      MatchInnerGrows(byKey, e, attempt, mid, l, rights);
      SettledMonotone(byKey, mid, MatchInner(attempt, mid, l, rights), candidates[i], candidates[j]);
    }
  }
}
