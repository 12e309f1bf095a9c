/** Which of several claimants the overlap phase groups: the exact rule of its key order. */
module Greedy {
  import opened Sorting
  import opened Tracks
  import opened Partitions
  import opened Grouping
  import opened UnifiedPlaylists

  /** Two playlists of one account, one chained to `a` and one to `b`. */
  ghost predicate Blocked(byKey: Catalog, e: Edges, a: Key, b: Key) {
    exists c, d :: c in byKey && d in byKey && byKey[c].account == byKey[d].account && Connected(e, a, c) &&
                   Connected(e, b, d)
  }

  /** The matching pairs before (a, b) in key order. */
  ghost function PairsBefore(byKey: Catalog, a: Key, b: Key): Edges {
    set x, y |
      x in byKey && y in byKey && Eligible(byKey[x], byKey[y]) && x < y && (x < a || (x == a && y < b)) :: (x, y)
  }

  ghost function AllPairs(byKey: Catalog): Edges {
    set x, y | x in byKey && y in byKey && Eligible(byKey[x], byKey[y]) && x < y :: (x, y)
  }

  /** The pairs whose two playlists are in one group. */
  ghost function Grouped(part: Partition, pairs: Edges): Edges {
    set e | e in pairs && e.0 in part && e.1 in part && part[e.0] == part[e.1]
  }

  /** A matching pair is grouped unless links and the pairs grouped before it chain it to one account twice. */
  ghost predicate RuleAt(byKey: Catalog, links: seq<SyncLink>, part: Partition, a: Key, b: Key)
    requires byKey.Keys == part.Keys && a in byKey && b in byKey
  {
    var e := LinkEdges(byKey, links) + Grouped(part, PairsBefore(byKey, a, b));
    part[a] == part[b] <==> Connected(e, a, b) || !Blocked(byKey, e, a, b)
  }

  /** Links and grouped pairs, and nothing else, make the groups. */
  ghost predicate MadeOf(byKey: Catalog, links: seq<SyncLink>, part: Partition, a: Key, b: Key)
    requires byKey.Keys == part.Keys && a in byKey && b in byKey
  {
    part[a] == part[b] <==> Connected(LinkEdges(byKey, links) + Grouped(part, AllPairs(byKey)), a, b)
  }

  ghost predicate FollowsRule(byKey: Catalog, links: seq<SyncLink>, part: Partition) {
    && byKey.Keys == part.Keys && LeastNamed(part)
    && (forall a, b :: a in byKey && b in byKey && Eligible(byKey[a], byKey[b]) && a < b ==>
                         RuleAt(byKey, links, part, a, b))
    && (forall a, b :: a in byKey && b in byKey ==> MadeOf(byKey, links, part, a, b))
  }

  // ----- The rule determines the groups

  lemma {:induction false} SamePair(byKey: Catalog, links: seq<SyncLink>, p: Partition, q: Partition, a: Key, b: Key)
    requires FollowsRule(byKey, links, p) && FollowsRule(byKey, links, q)
    requires a in byKey && b in byKey && Eligible(byKey[a], byKey[b]) && a < b
    ensures p[a] == p[b] <==> q[a] == q[b]
    decreases a, b
  {
    var pairs := PairsBefore(byKey, a, b);
    forall e | e in pairs ensures p[e.0] == p[e.1] <==> q[e.0] == q[e.1] {
      SamePair(byKey, links, p, q, e.0, e.1);
    }
    assert Grouped(p, pairs) == Grouped(q, pairs);
    assert RuleAt(byKey, links, p, a, b) && RuleAt(byKey, links, q, a, b);
  }

  /** There is only one partition that follows the rule. */
  lemma RuleUnique(byKey: Catalog, links: seq<SyncLink>, p: Partition, q: Partition)
    requires FollowsRule(byKey, links, p) && FollowsRule(byKey, links, q)
    ensures p == q
  {
    var pairs := AllPairs(byKey);
    forall e | e in pairs ensures p[e.0] == p[e.1] <==> q[e.0] == q[e.1] {
      SamePair(byKey, links, p, q, e.0, e.1);
    }
    assert Grouped(p, pairs) == Grouped(q, pairs);
    forall a, b | a in byKey && b in byKey ensures CoarserAt(p, q, a, b) && CoarserAt(q, p, a, b) {
      assert MadeOf(byKey, links, p, a, b) && MadeOf(byKey, links, q, a, b);
    }
    LeastNamedUnique(p, q);
  }

  // ----- One attempt

  /** What a tried pair may do, seen from the edges that justify a partition. */
  ghost predicate Steps(byKey: Catalog, attempt: Attempt) {
    forall part: Partition, l, r {:trigger attempt(part, l, r)} ::
      part.Keys == byKey.Keys && LeastNamed(part) && l in byKey && r in byKey ==>
        StepOf(byKey, part, l, r, attempt(part, l, r))
  }

  ghost predicate StepOf(byKey: Catalog, part: Partition, l: Key, r: Key, q: Partition)
    requires part.Keys == byKey.Keys && l in byKey && r in byKey
  {
    && q.Keys == byKey.Keys
    && (!Eligible(byKey[l], byKey[r]) ==> q == part)
    && (q[l] != q[r] ==> q == part)
    && (forall e {:trigger Justified(q, e)} :: Justified(part, e) && (l, r) in e ==> Justified(q, e))
  }

  lemma TryInSteps(byKey: Catalog)
    ensures Steps(byKey, TryIn(byKey))
  {
    var attempt := TryIn(byKey);
    forall part: Partition, l, r {:trigger attempt(part, l, r)} |
      part.Keys == byKey.Keys && LeastNamed(part) && l in byKey && r in byKey
      ensures StepOf(byKey, part, l, r, attempt(part, l, r))
    {
      var q := attempt(part, l, r);
      forall e | Justified(part, e) && (l, r) in e ensures Justified(q, e) {
        if q != part {
          UniteJustified(byKey, part, l, r, false, e);
        }
      }
    }
  }

  /** The partition is justified by `base` and the grouped ones of the pairs tried so far. */
  ghost predicate JustifiedBy(part: Partition, base: Edges, tried: Edges) {
    Justified(part, base + Grouped(part, tried))
  }

  lemma AttemptJustified(byKey: Catalog, e: Edges, attempt: Attempt, part: Partition, l: Key, r: Key, base: Edges,
                         tried: Edges)
    requires Attempts(byKey, e, attempt) && Steps(byKey, attempt) && Sound(byKey, e, part) && l in byKey && r in byKey
    requires JustifiedBy(part, base, tried)
    ensures Sound(byKey, e, attempt(part, l, r))
    ensures JustifiedBy(attempt(part, l, r), base,
                        tried + if Eligible(byKey[l], byKey[r]) then {(l, r)} else {})
  {
    var q := attempt(part, l, r);
    var next := tried + if Eligible(byKey[l], byKey[r]) then {(l, r)} else {};
    var f := base + Grouped(q, next);
    assert StepOf(byKey, part, l, r, q);
    forall x | x in Grouped(part, tried) ensures x in Grouped(q, next) {
      assert CoarserAt(part, q, x.0, x.1);
    }
    JustifiedMonotone(part, base + Grouped(part, tried), f);
    if q != part {
      assert (l, r) in f;
    }
  }

  // ----- The double loop

  /** A property of the partition reached and the pairs tried on the way. */
  type StageProperty = (Partition, Edges) -> bool

  ghost predicate TurnKeeps(byKey: Catalog, attempt: Attempt, holds: StageProperty, part: Partition, tried: Edges,
                            l: Key, r: Key)
  {
    l in byKey && r in byKey && holds(part, tried) ==>
      holds(attempt(part, l, r), tried + if Eligible(byKey[l], byKey[r]) then {(l, r)} else {})
  }

  ghost predicate KeptByTurns(byKey: Catalog, attempt: Attempt, holds: StageProperty) {
    forall part, tried, l, r {:trigger TurnKeeps(byKey, attempt, holds, part, tried, l, r)} ::
      TurnKeeps(byKey, attempt, holds, part, tried, l, r)
  }

  /** The pairs tried when `i` rows and `k` candidates of the next row are done. */
  ghost function Tried(byKey: Catalog, candidates: seq<Key>, i: nat, k: nat): Edges
    requires AllIn(byKey, candidates)
  {
    set p, q | 0 <= p < q < |candidates| && (p < i || (p == i && q < i + 1 + k)) &&
               Eligible(byKey[candidates[p]], byKey[candidates[q]]) :: (candidates[p], candidates[q])
  }

  /** The partition at that point. */
  ghost function Stage(attempt: Attempt, part: Partition, candidates: seq<Key>, i: nat, k: nat): Partition
    requires i < |candidates| && k <= |candidates| - i - 1
  {
    MatchInner(attempt, MatchOuter(attempt, part, candidates, i), candidates[i], candidates[i + 1..][..k])
  }

  lemma {:induction false} StageSound(byKey: Catalog, e: Edges, attempt: Attempt, part: Partition,
                                      candidates: seq<Key>, i: nat, k: nat)
    requires Attempts(byKey, e, attempt) && Sound(byKey, e, part) && AllIn(byKey, candidates)
    requires i < |candidates| && k <= |candidates| - i - 1
    ensures Sound(byKey, e, Stage(attempt, part, candidates, i, k))
  {
    MatchOuterGrows(byKey, e, attempt, part, candidates, i);
    MatchInnerGrows(byKey, e, attempt, MatchOuter(attempt, part, candidates, i), candidates[i],
                    candidates[i + 1..][..k]);
  }

  lemma StageNext(attempt: Attempt, part: Partition, candidates: seq<Key>, i: nat, k: nat)
    requires i < |candidates| && k < |candidates| - i - 1
    ensures Stage(attempt, part, candidates, i, k + 1) ==
            attempt(Stage(attempt, part, candidates, i, k), candidates[i], candidates[i + 1 + k])
  {
    var rights := candidates[i + 1..];
    assert rights[..k + 1][..k] == rights[..k];
  }

  lemma StageEnd(attempt: Attempt, part: Partition, candidates: seq<Key>, i: nat)
    requires i < |candidates|
    ensures Stage(attempt, part, candidates, i, |candidates| - i - 1) == MatchOuter(attempt, part, candidates, i + 1)
  {
    var rights := candidates[i + 1..];
    assert rights[..|rights|] == rights;
  }

  lemma TriedGrows(byKey: Catalog, candidates: seq<Key>, i: nat, k: nat, x: (Key, Key))
    requires AllIn(byKey, candidates) && x in Tried(byKey, candidates, i, k)
    ensures x in Tried(byKey, candidates, i, k + 1)
  {
    var p, q :| 0 <= p < q < |candidates| && (p < i || (p == i && q < i + 1 + k)) &&
      Eligible(byKey[candidates[p]], byKey[candidates[q]]) && x == (candidates[p], candidates[q]);
    assert p < i || (p == i && q < i + 1 + (k + 1));
  }

  lemma TriedLast(byKey: Catalog, candidates: seq<Key>, i: nat, k: nat, x: (Key, Key))
    requires AllIn(byKey, candidates) && i < |candidates| && k < |candidates| - i - 1
    requires x in Tried(byKey, candidates, i, k + 1) && x !in Tried(byKey, candidates, i, k)
    ensures var l, r := candidates[i], candidates[i + 1 + k]; Eligible(byKey[l], byKey[r]) && x == (l, r)
  {
    var p, q :| 0 <= p < q < |candidates| && (p < i || (p == i && q < i + 1 + (k + 1))) &&
      Eligible(byKey[candidates[p]], byKey[candidates[q]]) && x == (candidates[p], candidates[q]);
  }

  lemma TriedNext(byKey: Catalog, candidates: seq<Key>, i: nat, k: nat)
    requires AllIn(byKey, candidates) && i < |candidates| && k < |candidates| - i - 1
    ensures var l, r := candidates[i], candidates[i + 1 + k];
            Tried(byKey, candidates, i, k + 1) ==
            Tried(byKey, candidates, i, k) + if Eligible(byKey[l], byKey[r]) then {(l, r)} else {}
  {
    var before, after := Tried(byKey, candidates, i, k), Tried(byKey, candidates, i, k + 1);
    forall x | x in after && x !in before
      ensures Eligible(byKey[candidates[i]], byKey[candidates[i + 1 + k]])
      ensures x == (candidates[i], candidates[i + 1 + k])
    {
      TriedLast(byKey, candidates, i, k, x);
    }
    forall x | x in before ensures x in after {
      TriedGrows(byKey, candidates, i, k, x);
    }
  }

  lemma TriedRow(byKey: Catalog, candidates: seq<Key>, i: nat)
    requires AllIn(byKey, candidates) && i < |candidates|
    ensures Tried(byKey, candidates, i, |candidates| - i - 1) == Tried(byKey, candidates, i + 1, 0)
  {
  }

  lemma StageRow(byKey: Catalog, attempt: Attempt, part: Partition, candidates: seq<Key>, i: nat)
    requires AllIn(byKey, candidates) && i + 1 < |candidates|
    ensures Stage(attempt, part, candidates, i, |candidates| - i - 1) == Stage(attempt, part, candidates, i + 1, 0)
    ensures Tried(byKey, candidates, i, |candidates| - i - 1) == Tried(byKey, candidates, i + 1, 0)
  {
    StageEnd(attempt, part, candidates, i);
    TriedRow(byKey, candidates, i);
  }

  lemma StageStart(byKey: Catalog, attempt: Attempt, part: Partition, candidates: seq<Key>)
    requires AllIn(byKey, candidates) && candidates != []
    ensures Stage(attempt, part, candidates, 0, 0) == part && Tried(byKey, candidates, 0, 0) == {}
  {
  }

  /** What every turn keeps holds at every point of the double loop. */
  lemma {:induction false} StageKeeps(byKey: Catalog, attempt: Attempt, part: Partition, candidates: seq<Key>,
                                      holds: StageProperty, i: nat, k: nat)
    requires AllIn(byKey, candidates) && i < |candidates| && k <= |candidates| - i - 1
    requires holds(part, {}) && KeptByTurns(byKey, attempt, holds)
    ensures holds(Stage(attempt, part, candidates, i, k), Tried(byKey, candidates, i, k))
    decreases i, k
  {
    if k > 0 {
      StageKeeps(byKey, attempt, part, candidates, holds, i, k - 1);
      StageNext(attempt, part, candidates, i, k - 1);
      TriedNext(byKey, candidates, i, k - 1);
      assert TurnKeeps(byKey, attempt, holds, Stage(attempt, part, candidates, i, k - 1),
                       Tried(byKey, candidates, i, k - 1), candidates[i], candidates[i + k]);
    } else if i > 0 {
      StageKeeps(byKey, attempt, part, candidates, holds, i - 1, |candidates| - i);
      StageRow(byKey, attempt, part, candidates, i - 1);
    } else {
      StageStart(byKey, attempt, part, candidates);
    }
  }

  lemma StageJustified(byKey: Catalog, e: Edges, attempt: Attempt, part: Partition, candidates: seq<Key>, base: Edges,
                       i: nat, k: nat)
    requires Attempts(byKey, e, attempt) && Steps(byKey, attempt) && Sound(byKey, e, part) && AllIn(byKey, candidates)
    requires Justified(part, base)
    requires i < |candidates| && k <= |candidates| - i - 1
    ensures JustifiedBy(Stage(attempt, part, candidates, i, k), base, Tried(byKey, candidates, i, k))
  {
    var holds := (q: Partition, tried: Edges) => Sound(byKey, e, q) && JustifiedBy(q, base, tried);
    forall q, tried, l, r {:trigger TurnKeeps(byKey, attempt, holds, q, tried, l, r)}
      ensures TurnKeeps(byKey, attempt, holds, q, tried, l, r)
    {
      if l in byKey && r in byKey && holds(q, tried) {
        AttemptJustified(byKey, e, attempt, q, l, r, base, tried);
      }
    }
    JustifiedMonotone(part, base, base + Grouped(part, {}));
    StageKeeps(byKey, attempt, part, candidates, holds, i, k);
  }

  /** What is reached at a stage only grows up to the end of the double loop. */
  lemma {:induction false} StageGrows(byKey: Catalog, e: Edges, attempt: Attempt, part: Partition,
                                      candidates: seq<Key>, i: nat, k: nat)
    requires Attempts(byKey, e, attempt) && Sound(byKey, e, part) && AllIn(byKey, candidates)
    requires i < |candidates| && k <= |candidates| - i - 1
    ensures Stage(attempt, part, candidates, i, k).Keys == byKey.Keys
    ensures MatchOuter(attempt, part, candidates, |candidates|).Keys == byKey.Keys
    ensures Grown(byKey, e, Stage(attempt, part, candidates, i, k),
                  MatchOuter(attempt, part, candidates, |candidates|))
    decreases |candidates| - i, |candidates| - i - 1 - k
  {
    StageSound(byKey, e, attempt, part, candidates, i, k);
    MatchOuterGrows(byKey, e, attempt, part, candidates, |candidates|);
    var here := Stage(attempt, part, candidates, i, k);
    if k < |candidates| - i - 1 {
      StageNext(attempt, part, candidates, i, k);
      StageGrows(byKey, e, attempt, part, candidates, i, k + 1);
      GrownTransitive(byKey, e, here, Stage(attempt, part, candidates, i, k + 1),
                      MatchOuter(attempt, part, candidates, |candidates|));
    } else {
      StageEnd(attempt, part, candidates, i);
      if i + 1 < |candidates| {
        StageGrows(byKey, e, attempt, part, candidates, i + 1, 0);
        assert Stage(attempt, part, candidates, i + 1, 0) == here;
      } else {
        GrownItself(byKey, e, here);
      }
    }
  }

  // ----- The rule at one pair

  /** A tried pair left apart stays apart, so the pairs grouped so far are those grouped in the end. */
  lemma ApartForGood(byKey: Catalog, e: Edges, part: Partition, final: Partition, l: Key, r: Key)
    requires byKey.Keys == part.Keys == final.Keys && l in byKey && r in byKey
    requires Settled(byKey, part, l, r) && Grown(byKey, e, part, final)
    ensures part[l] == part[r] <==> final[l] == final[r]
  {
    assert CoarserAt(part, final, l, r);
    if part[l] != part[r] {
      var x :| x in AccountsOf(byKey, part, part[l]) * AccountsOf(byKey, part, part[r]);
      var c :| c in byKey && part[c] == part[l] && byKey[c].account == x;
      var d :| d in byKey && part[d] == part[r] && byKey[d].account == x;
      assert CoarserAt(part, final, c, l) && CoarserAt(part, final, d, r) && KeptAt(byKey, part, final, c, d);
    }
  }

  /** At the moment a pair is tried, the final grouping of the pair is decided by what chains it already. */
  lemma DecidedAt(byKey: Catalog, e: Edges, f: Edges, before: Partition, after: Partition, final: Partition,
                  a: Key, b: Key)
    requires Sound(byKey, e, before) && after.Keys == byKey.Keys == final.Keys && a in byKey && b in byKey
    requires StepOf(byKey, before, a, b, after) && Settled(byKey, after, a, b)
    requires Grown(byKey, e, before, final) && Grown(byKey, e, after, final)
    requires forall x, y :: x in byKey && y in byKey ==> (before[x] == before[y] <==> Connected(f, x, y))
    ensures final[a] == final[b] <==> Connected(f, a, b) || !Blocked(byKey, f, a, b)
  {
    assert CoarserAt(before, final, a, b) && CoarserAt(after, final, a, b);
    if final[a] == final[b] && Blocked(byKey, f, a, b) {
      var c, d :| c in byKey && d in byKey && byKey[c].account == byKey[d].account && Connected(f, a, c) &&
        Connected(f, b, d);
      assert CoarserAt(before, final, a, c) && CoarserAt(before, final, b, d);
      assert KeptAt(byKey, before, final, c, d);
    }
    if after[a] != after[b] {
      var x :| x in AccountsOf(byKey, before, before[a]) * AccountsOf(byKey, before, before[b]);
      var c :| c in byKey && before[c] == before[a] && byKey[c].account == x;
      var d :| d in byKey && before[d] == before[b] && byKey[d].account == x;
      assert Connected(f, a, c) && Connected(f, b, d);
    }
  }

  ghost predicate AllSettled(byKey: Catalog, part: Partition, tried: Edges) {
    part.Keys == byKey.Keys &&
    forall x, y :: (x, y) in tried ==> x in byKey && y in byKey && Settled(byKey, part, x, y)
  }

  lemma AttemptSettles(byKey: Catalog, e: Edges, attempt: Attempt, part: Partition, l: Key, r: Key, tried: Edges)
    requires Attempts(byKey, e, attempt) && Sound(byKey, e, part) && l in byKey && r in byKey
    requires AllSettled(byKey, part, tried)
    ensures Sound(byKey, e, attempt(part, l, r))
    ensures AllSettled(byKey, attempt(part, l, r), tried + if Eligible(byKey[l], byKey[r]) then {(l, r)} else {})
  {
    var q := attempt(part, l, r);
    forall x, y | (x, y) in tried ensures Settled(byKey, q, x, y) {
      SettledMonotone(byKey, part, q, x, y);
    }
  }

  lemma StageSettles(byKey: Catalog, e: Edges, attempt: Attempt, part: Partition, candidates: seq<Key>, i: nat, k: nat)
    requires Attempts(byKey, e, attempt) && Sound(byKey, e, part) && AllIn(byKey, candidates)
    requires i < |candidates| && k <= |candidates| - i - 1
    ensures AllSettled(byKey, Stage(attempt, part, candidates, i, k), Tried(byKey, candidates, i, k))
  {
    var holds := (q: Partition, tried: Edges) => Sound(byKey, e, q) && AllSettled(byKey, q, tried);
    forall q, tried, l, r {:trigger TurnKeeps(byKey, attempt, holds, q, tried, l, r)}
      ensures TurnKeeps(byKey, attempt, holds, q, tried, l, r)
    {
      if l in byKey && r in byKey && holds(q, tried) {
        AttemptSettles(byKey, e, attempt, q, l, r, tried);
      }
    }
    StageKeeps(byKey, attempt, part, candidates, holds, i, k);
  }

  lemma GroupedForGood(byKey: Catalog, e: Edges, part: Partition, final: Partition, tried: Edges)
    requires AllSettled(byKey, part, tried) && final.Keys == byKey.Keys && Grown(byKey, e, part, final)
    ensures Grouped(part, tried) == Grouped(final, tried)
  {
    forall x | x in tried ensures part[x.0] == part[x.1] <==> final[x.0] == final[x.1] {
      assert (x.0, x.1) in tried;
      ApartForGood(byKey, e, part, final, x.0, x.1);
    }
  }

  ghost predicate PutsTogether(part: Partition, f: Edges) {
    forall x, y :: x in part && y in part ==> (part[x] == part[y] <==> Connected(f, x, y))
  }

  /** A partition justified by edges it respects puts together exactly what they connect. */
  lemma ComponentsAre(part: Partition, f: Edges)
    requires Justified(part, f) && Respects(part, f)
    ensures PutsTogether(part, f)
  {
    forall x, y | x in part && y in part ensures part[x] == part[y] <==> Connected(f, x, y) {
      if Connected(f, x, y) {
        var p :| ChainFromTo(f, p, x, y);
        ChainStaysInside(part, f, p, x, y);
      }
    }
  }

  lemma StageRespects(byKey: Catalog, e: Edges, attempt: Attempt, part: Partition, candidates: seq<Key>, base: Edges,
                      i: nat, k: nat)
    requires Attempts(byKey, e, attempt) && Sound(byKey, e, part) && AllIn(byKey, candidates) && Respects(part, base)
    requires i < |candidates| && k <= |candidates| - i - 1
    ensures var here := Stage(attempt, part, candidates, i, k);
            Respects(here, base + Grouped(here, Tried(byKey, candidates, i, k)))
  {
    var middle := MatchOuter(attempt, part, candidates, i);
    var here := Stage(attempt, part, candidates, i, k);
    MatchOuterGrows(byKey, e, attempt, part, candidates, i);
    MatchInnerGrows(byKey, e, attempt, middle, candidates[i], candidates[i + 1..][..k]);
    GrownTransitive(byKey, e, part, middle, here);
    CoarserRespects(part, here, base);
  }

  lemma IndexOf(byKey: Catalog, candidates: seq<Key>, k: Key) returns (i: nat)
    requires candidates == Ascending(byKey.Keys) && k in byKey
    ensures i < |candidates| && candidates[i] == k
  {
    assert k in ToSet(candidates);
    i :| 0 <= i < |candidates| && candidates[i] == k;
  }

  lemma TriedInOrder(byKey: Catalog, candidates: seq<Key>, i: nat, k: nat, x: (Key, Key)) returns (p: nat, q: nat)
    requires AllIn(byKey, candidates) && candidates == Ascending(byKey.Keys) && x in Tried(byKey, candidates, i, k)
    ensures p < q < |candidates| && (p < i || (p == i && q < i + 1 + k)) && x == (candidates[p], candidates[q])
    ensures x.0 < x.1 && Eligible(byKey[x.0], byKey[x.1])
  {
    p, q :| 0 <= p < q < |candidates| && (p < i || (p == i && q < i + 1 + k)) &&
      Eligible(byKey[candidates[p]], byKey[candidates[q]]) && x == (candidates[p], candidates[q]);
  }

  lemma TriedBefore(byKey: Catalog, candidates: seq<Key>, i: nat, j: nat)
    requires AllIn(byKey, candidates) && candidates == Ascending(byKey.Keys) && i < j < |candidates|
    ensures Tried(byKey, candidates, i, j - i - 1) == PairsBefore(byKey, candidates[i], candidates[j])
  {
    var tried, pairs := Tried(byKey, candidates, i, j - i - 1), PairsBefore(byKey, candidates[i], candidates[j]);
    forall x | x in pairs ensures x in tried {
      var p := IndexOf(byKey, candidates, x.0);
      var q := IndexOf(byKey, candidates, x.1);
      assert p < q && (p < i || (p == i && q < j));
    }
    forall x | x in tried ensures x in pairs {
      var p, q := TriedInOrder(byKey, candidates, i, j - i - 1, x);
    }
  }

  /** The rule at the pair of candidates `i` and `j`, whatever is tried by `attempt`. */
  lemma RuleAtStage(byKey: Catalog, e: Edges, attempt: Attempt, part: Partition, candidates: seq<Key>, base: Edges,
                    i: nat, j: nat)
    requires Attempts(byKey, e, attempt) && Steps(byKey, attempt) && Sound(byKey, e, part) && AllIn(byKey, candidates)
    requires Justified(part, base) && Respects(part, base)
    requires i < j < |candidates| && Eligible(byKey[candidates[i]], byKey[candidates[j]])
    ensures var final := MatchOuter(attempt, part, candidates, |candidates|);
            var f := base + Grouped(final, Tried(byKey, candidates, i, j - i - 1));
            && final.Keys == byKey.Keys
            && (final[candidates[i]] == final[candidates[j]] <==>
                Connected(f, candidates[i], candidates[j]) || !Blocked(byKey, f, candidates[i], candidates[j]))
  {
    var k := j - i - 1;
    var a, b := candidates[i], candidates[j];
    var before, after := Stage(attempt, part, candidates, i, k), Stage(attempt, part, candidates, i, k + 1);
    var tried := Tried(byKey, candidates, i, k);
    var final := MatchOuter(attempt, part, candidates, |candidates|);
    StageNext(attempt, part, candidates, i, k);
    StageSound(byKey, e, attempt, part, candidates, i, k);
    StageGrows(byKey, e, attempt, part, candidates, i, k);
    StageGrows(byKey, e, attempt, part, candidates, i, k + 1);
    StageSettles(byKey, e, attempt, part, candidates, i, k);
    GroupedForGood(byKey, e, before, final, tried);
    StageJustified(byKey, e, attempt, part, candidates, base, i, k);
    StageRespects(byKey, e, attempt, part, candidates, base, i, k);
    ComponentsAre(before, base + Grouped(before, tried));
    assert StepOf(byKey, before, a, b, after);
    DecidedAt(byKey, e, base + Grouped(before, tried), before, after, final, a, b);
  }

  /** The same for the end of the double loop. */
  lemma EndMadeOf(byKey: Catalog, e: Edges, attempt: Attempt, part: Partition, candidates: seq<Key>, base: Edges)
    requires Attempts(byKey, e, attempt) && Steps(byKey, attempt) && Sound(byKey, e, part) && AllIn(byKey, candidates)
    requires Justified(part, base) && Respects(part, base) && candidates != []
    ensures var final := MatchOuter(attempt, part, candidates, |candidates|);
            PutsTogether(final, base + Grouped(final, Tried(byKey, candidates, |candidates| - 1, 0)))
  {
    var i := |candidates| - 1;
    StageEnd(attempt, part, candidates, i);
    StageJustified(byKey, e, attempt, part, candidates, base, i, 0);
    StageRespects(byKey, e, attempt, part, candidates, base, i, 0);
    var final := Stage(attempt, part, candidates, i, 0);
    ComponentsAre(final, base + Grouped(final, Tried(byKey, candidates, i, 0)));
  }

  lemma TriedAll(byKey: Catalog, candidates: seq<Key>)
    requires AllIn(byKey, candidates) && candidates == Ascending(byKey.Keys) && candidates != []
    ensures Tried(byKey, candidates, |candidates| - 1, 0) == AllPairs(byKey)
  {
    var tried, pairs := Tried(byKey, candidates, |candidates| - 1, 0), AllPairs(byKey);
    forall x | x in pairs ensures x in tried {
      var p := IndexOf(byKey, candidates, x.0);
      var q := IndexOf(byKey, candidates, x.1);
      assert p < q;
    }
    forall x | x in tried ensures x in pairs {
      var p, q := TriedInOrder(byKey, candidates, |candidates| - 1, 0, x);
    }
  }

  // ----- The overlap phase follows the rule

  lemma FinalSetup(byKey: Catalog, links: seq<SyncLink>)
    ensures var part, e := LinkPhase(byKey, links), AllEdges(byKey, links);
            && Sound(byKey, e, part) && AllIn(byKey, Ascending(byKey.Keys))
            && Justified(part, LinkEdges(byKey, links)) && Respects(part, LinkEdges(byKey, links))
            && Attempts(byKey, e, TryIn(byKey)) && Steps(byKey, TryIn(byKey))
  {
    LinkPhaseSound(byKey, links);
    LinkPhaseKeeps(byKey, links);
    AscendingIn(byKey);
    TryInAttempts(byKey, AllEdges(byKey, links));
    TryInSteps(byKey);
  }

  lemma FinalRuleAt(byKey: Catalog, links: seq<SyncLink>, a: Key, b: Key)
    requires a in byKey && b in byKey && Eligible(byKey[a], byKey[b]) && a < b
    ensures RuleAt(byKey, links, FinalPartition(byKey, links), a, b)
  {
    var candidates := Ascending(byKey.Keys);
    FinalSetup(byKey, links);
    assert a in ToSet(candidates) && b in ToSet(candidates);
    var i :| 0 <= i < |candidates| && candidates[i] == a;
    var j :| 0 <= j < |candidates| && candidates[j] == b;
    assert i < j;
    TriedBefore(byKey, candidates, i, j);
    RuleAtStage(byKey, AllEdges(byKey, links), TryIn(byKey), LinkPhase(byKey, links), candidates,
                LinkEdges(byKey, links), i, j);
  }

  lemma FinalComponents(byKey: Catalog, links: seq<SyncLink>)
    requires byKey != map[]
    ensures var part := FinalPartition(byKey, links);
            PutsTogether(part, LinkEdges(byKey, links) + Grouped(part, AllPairs(byKey)))
  {
    var candidates := Ascending(byKey.Keys);
    FinalSetup(byKey, links);
    assert candidates != [] by {
      NonEmptySet(candidates);
      var k :| k in byKey;
    }
    TriedAll(byKey, candidates);
    EndMadeOf(byKey, AllEdges(byKey, links), TryIn(byKey), LinkPhase(byKey, links), candidates,
              LinkEdges(byKey, links));
  }

  /**
   Which of several claimants is grouped: going through the matching pairs in key order, a pair is
   grouped unless links and the pairs grouped before it chain its two playlists to one account twice.
   The groups are what links and grouped pairs connect.
   */
  lemma GroupsFollowRule(byKey: Catalog, links: seq<SyncLink>)
    ensures FollowsRule(byKey, links, FinalPartition(byKey, links))
  {
    var part := FinalPartition(byKey, links);
    FinalGrown(byKey, links);
    forall a, b | a in byKey && b in byKey && Eligible(byKey[a], byKey[b]) && a < b
      ensures RuleAt(byKey, links, part, a, b)
    {
      FinalRuleAt(byKey, links, a, b);
    }
    if byKey != map[] {
      FinalComponents(byKey, links);
    }
  }

  /** A matching pair ends apart only if links and matching pairs before it chain it to one account twice. */
  lemma ApartOnlyIfBlockedBefore(byKey: Catalog, links: seq<SyncLink>, a: Key, b: Key)
    requires a in byKey && b in byKey && Eligible(byKey[a], byKey[b]) && a < b
    requires FinalPartition(byKey, links)[a] != FinalPartition(byKey, links)[b]
    ensures Blocked(byKey, LinkEdges(byKey, links) + PairsBefore(byKey, a, b), a, b)
  {
    var part := FinalPartition(byKey, links);
    var taken := LinkEdges(byKey, links) + Grouped(part, PairsBefore(byKey, a, b));
    var all := LinkEdges(byKey, links) + PairsBefore(byKey, a, b);
    FinalRuleAt(byKey, links, a, b);
    var c, d :| c in byKey && d in byKey && byKey[c].account == byKey[d].account && Connected(taken, a, c) &&
      Connected(taken, b, d);
    ConnectedMonotone(taken, all, a, c);
    ConnectedMonotone(taken, all, b, d);
  }

  /** Of two playlists of one account that match a third, the one with the smaller key joins it. */
  lemma FirstClaimantWins(name: string, kind: string, here: Account, there: Account, song: Track)
    requires here != there && song.isrc.Some?
    ensures var byKey := map[0 := Playlist(0, true, there, kind, name, [song]),
                             1 := Playlist(1, true, here, kind, name, [song]),
                             2 := Playlist(2, true, here, kind, name, [song])];
            var part := FinalPartition(byKey, []);
            part[0] == part[1] && part[2] != part[0]
  {
    var byKey: Catalog := map[0 := Playlist(0, true, there, kind, name, [song]),
                              1 := Playlist(1, true, here, kind, name, [song]),
                              2 := Playlist(2, true, here, kind, name, [song])];
    var part := FinalPartition(byKey, []);
    assert song.isrc.value in Isrcs(song) * Isrcs(song);
    assert TracksMatch(song, song);
    assert forall k :: k in byKey ==> song in byKey[k].tracks;
    assert Eligible(byKey[0], byKey[1]);
    if part[0] != part[1] {
      ApartOnlyIfBlockedBefore(byKey, [], 0, 1);
      NothingBeforeFirst(byKey);
    }
    if part[2] == part[0] {
      SameAccountNeedsLinks(byKey, [], 1, 2);
      assert LinkEdges(byKey, []) == {};
      UnlinkedApart(byKey, 1, 2);
    }
  }

  lemma NothingBeforeFirst(byKey: Catalog)
    requires 0 in byKey && 1 in byKey && byKey[0].account != byKey[1].account
    ensures !Blocked(byKey, LinkEdges(byKey, []) + PairsBefore(byKey, 0, 1), 0, 1)
  {
    var e := LinkEdges(byKey, []) + PairsBefore(byKey, 0, 1);
    assert e == {};
    if Blocked(byKey, e, 0, 1) {
      var c, d :| c in byKey && d in byKey && byKey[c].account == byKey[d].account && Connected(e, 0, c) &&
        Connected(e, 1, d);
      UnlinkedApart(byKey, 0, c);
      UnlinkedApart(byKey, 1, d);
    }
  }

  lemma UnlinkedApart(byKey: Catalog, a: Key, b: Key)
    requires a in byKey && b in byKey && Connected({}, a, b)
    ensures a == b
  {
    var p :| ChainFromTo({}, p, a, b);
    ChainStaysInside(Singletons(byKey), {}, p, a, b);
  }
}
