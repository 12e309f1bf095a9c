/** The unified playlists built from a grouping, and what they promise. */
module UnifiedPlaylists {
  import opened Sorting
  import opened Tracks
  import opened TrackMerge
  import opened Partitions
  import opened Grouping

  datatype Group = Group(canonical: Playlist, members: seq<Playlist>, ruleIds: set<RuleId>,
                         links: seq<SyncLink>, tracks: seq<MergedTrack>)

  /** The playlists that have an id, by key; a later playlist replaces an earlier one. */
  function ByKey(playlists: seq<Playlist>): Catalog {
    if playlists == [] then map[]
    else
      var p := playlists[|playlists| - 1];
      var before := ByKey(playlists[..|playlists| - 1]);
      if p.hasId then before[p.key := p] else before
  }

  predicate WellKeyed(byKey: Catalog) {
    forall k :: k in byKey ==> byKey[k].key == k
  }

  ghost function FinalPartition(byKey: Catalog, links: seq<SyncLink>): (q: Partition)
    ensures q.Keys == byKey.Keys
  {
    PhasesSound(byKey, links);
    MatchOuter(TryIn(byKey), LinkPhase(byKey, links), Ascending(byKey.Keys), |Ascending(byKey.Keys)|)
  }

  lemma PhasesSound(byKey: Catalog, links: seq<SyncLink>)
    ensures var candidates, part := Ascending(byKey.Keys), LinkPhase(byKey, links);
            var q := MatchOuter(TryIn(byKey), part, candidates, |candidates|);
            q.Keys == byKey.Keys && Grown(byKey, AllEdges(byKey, links), part, q)
  {
    var part := LinkPhase(byKey, links);
    var candidates := Ascending(byKey.Keys);
    LinkPhaseSound(byKey, links);
    AscendingIn(byKey);
    TryInAttempts(byKey, AllEdges(byKey, links));
    MatchOuterGrows(byKey, AllEdges(byKey, links), TryIn(byKey), part, candidates, |candidates|);
  }

  /** The pairs that may bring playlists together: loaded links and matching pairs. */
  ghost function AllEdges(byKey: Catalog, links: seq<SyncLink>): Edges {
    LinkEdges(byKey, links) + MatchEdges(byKey)
  }

  lemma LinkPhaseSound(byKey: Catalog, links: seq<SyncLink>)
    ensures Sound(byKey, AllEdges(byKey, links), LinkPhase(byKey, links))
  {
    LinkPhaseKeeps(byKey, links);
    JustifiedMonotone(LinkPhase(byKey, links), LinkEdges(byKey, links), AllEdges(byKey, links));
  }

  lemma AscendingIn(byKey: Catalog)
    ensures AllIn(byKey, Ascending(byKey.Keys))
  {
    var candidates := Ascending(byKey.Keys);
    forall i | 0 <= i < |candidates| ensures candidates[i] in byKey {
      assert candidates[i] in ToSet(candidates);
    }
  }

  ghost function MembersOf(part: Partition, root: Key): set<Key> {
    set k | k in part && part[k] == root
  }

  lemma RootsHaveMembers(part: Partition)
    ensures forall root :: root in part.Values ==> MembersOf(part, root) != {}
  {
    forall root | root in part.Values ensures MembersOf(part, root) != {} {
      var k :| k in part && part[k] == root;
      assert k in MembersOf(part, root);
    }
  }

  function RuleRank(link: SyncLink): int {
    link.ruleId
  }

  function Within(links: seq<SyncLink>, members: set<Key>): seq<SyncLink> {
    Filter((l: SyncLink) => l.source in members && l.target in members, links)
  }

  function RuleIdsOf(links: seq<SyncLink>): set<RuleId> {
    set l | l in links :: l.ruleId
  }

  /** `source_weights[k]`: how many loaded links name `k` as their source. */
  function Weight(byKey: Catalog, links: seq<SyncLink>, k: Key): nat {
    |Filter((l: SyncLink) => Loaded(byKey, l) && l.source == k, links)|
  }

  /** The order of `min`: more links first, then more tracks, then the smaller key. */
  predicate Precedes(byKey: Catalog, links: seq<SyncLink>, a: Key, b: Key)
    requires a in byKey && b in byKey
  {
    var wa, wb := Weight(byKey, links, a), Weight(byKey, links, b);
    var na, nb := |byKey[a].tracks|, |byKey[b].tracks|;
    wa > wb || (wa == wb && (na > nb || (na == nb && a < b)))
  }

  ghost predicate IsCanonical(byKey: Catalog, links: seq<SyncLink>, members: set<Key>, c: Key)
    requires members <= byKey.Keys
  {
    c in members && forall k :: k in members && k != c ==> Precedes(byKey, links, c, k)
  }

  lemma {:induction false} CanonicalExists(byKey: Catalog, links: seq<SyncLink>, members: set<Key>) returns (c: Key)
    requires members <= byKey.Keys && members != {}
    ensures IsCanonical(byKey, links, members, c)
  {
    c :| c in members;
    if members != {c} {
      var d := CanonicalExists(byKey, links, members - {c});
      assert forall k :: k in members ==> k == c || k in members - {c};
      if Precedes(byKey, links, d, c) {
        c := d;
      }
    }
  }

  ghost function Canonical(byKey: Catalog, links: seq<SyncLink>, members: set<Key>): (c: Key)
    requires members <= byKey.Keys && members != {}
    ensures IsCanonical(byKey, links, members, c)
  {
    assert exists c :: IsCanonical(byKey, links, members, c) by {
      var c := CanonicalExists(byKey, links, members);
    }
    var c :| IsCanonical(byKey, links, members, c);
    c
  }

  function Playlists(byKey: Catalog, keys: seq<Key>): (r: seq<Playlist>)
    requires forall i :: 0 <= i < |keys| ==> keys[i] in byKey
    ensures |r| == |keys| && forall i :: 0 <= i < |keys| ==> r[i] == byKey[keys[i]]
  {
    seq(|keys|, i requires 0 <= i < |keys| => byKey[keys[i]])
  }

  /** The canonical member first, then the others by key. */
  ghost function MemberOrder(byKey: Catalog, links: seq<SyncLink>, members: set<Key>): (r: seq<Key>)
    requires members <= byKey.Keys && members != {}
    ensures AllIn(byKey, r)
  {
    var c := Canonical(byKey, links, members);
    var others := Ascending(members - {c});
    assert forall i :: 0 <= i < |others| ==> others[i] in ToSet(others);
    [c] + others
  }

  ghost function GroupFor(byKey: Catalog, links: seq<SyncLink>, members: set<Key>): Group
    requires members <= byKey.Keys && members != {}
  {
    var ordered := Playlists(byKey, MemberOrder(byKey, links, members));
    var within := Within(links, members);
    Group(ordered[0], ordered, RuleIdsOf(within), Sort(RuleRank, within), Merged(ordered))
  }

  ghost function GroupsOver(byKey: Catalog, links: seq<SyncLink>, part: Partition): (groups: map<Key, Group>)
    requires byKey.Keys == part.Keys
    ensures groups.Keys == part.Values
  {
    RootsHaveMembers(part);
    map root | root in part.Values :: GroupFor(byKey, links, MembersOf(part, root))
  }

  ghost function Unified(byKey: Catalog, links: seq<SyncLink>): map<Key, Group> {
    GroupsOver(byKey, links, FinalPartition(byKey, links))
  }

  // ----- The partition

  lemma FinalGrown(byKey: Catalog, links: seq<SyncLink>)
    ensures Grown(byKey, AllEdges(byKey, links), LinkPhase(byKey, links), FinalPartition(byKey, links))
  {
    PhasesSound(byKey, links);
  }

  /** Two playlists of one account share a unified playlist exactly when sync links alone chain them together. */
  lemma SameAccountNeedsLinks(byKey: Catalog, links: seq<SyncLink>, a: Key, b: Key)
    requires a in byKey && b in byKey && byKey[a].account == byKey[b].account
    ensures FinalPartition(byKey, links)[a] == FinalPartition(byKey, links)[b] <==>
            Connected(LinkEdges(byKey, links), a, b)
  {
    FinalGrown(byKey, links);
    LinkComponents(byKey, links, a, b);
    assert CoarserAt(LinkPhase(byKey, links), FinalPartition(byKey, links), a, b);
    assert KeptAt(byKey, LinkPhase(byKey, links), FinalPartition(byKey, links), a, b);
  }

  /** Nothing is grouped without a chain of sync links and matching pairs. */
  lemma GroupsAreJustified(byKey: Catalog, links: seq<SyncLink>, a: Key, b: Key)
    requires a in byKey && b in byKey && FinalPartition(byKey, links)[a] == FinalPartition(byKey, links)[b]
    ensures Connected(AllEdges(byKey, links), a, b)
  {
    FinalGrown(byKey, links);
  }

  /** A loaded link's two ends are always in one component. */
  lemma LinkedTogether(byKey: Catalog, links: seq<SyncLink>, link: SyncLink)
    requires link in links && Loaded(byKey, link)
    ensures FinalPartition(byKey, links)[link.source] == FinalPartition(byKey, links)[link.target]
  {
    FinalGrown(byKey, links);
    LinkPhaseKeeps(byKey, links);
    assert (link.source, link.target) in LinkEdges(byKey, links);
    assert CoarserAt(LinkPhase(byKey, links), FinalPartition(byKey, links), link.source, link.target);
  }

  lemma SettledSymmetric(byKey: Catalog, part: Partition, a: Key, b: Key)
    requires byKey.Keys == part.Keys && a in byKey && b in byKey && Settled(byKey, part, a, b)
    ensures Settled(byKey, part, b, a)
  {
    assert AccountsOf(byKey, part, part[a]) * AccountsOf(byKey, part, part[b])
        == AccountsOf(byKey, part, part[b]) * AccountsOf(byKey, part, part[a]);
  }

  lemma OrderedPairSettled(byKey: Catalog, links: seq<SyncLink>, a: Key, b: Key)
    requires a in byKey && b in byKey && a < b && Eligible(byKey[a], byKey[b])
    ensures Settled(byKey, FinalPartition(byKey, links), a, b)
  {
    var candidates := Ascending(byKey.Keys);
    LinkPhaseSound(byKey, links);
    AscendingIn(byKey);
    TryInAttempts(byKey, AllEdges(byKey, links));
    assert a in ToSet(candidates) && b in ToSet(candidates);
    var i :| 0 <= i < |candidates| && candidates[i] == a;
    var j :| 0 <= j < |candidates| && candidates[j] == b;
    MatchOuterSettles(byKey, AllEdges(byKey, links), TryIn(byKey), LinkPhase(byKey, links), candidates,
            |candidates|, i, j);
  }

  /** Greedy merging is maximal: a matching pair left apart is kept apart by an account both groups already hold. */
  lemma GreedyMaximal(byKey: Catalog, links: seq<SyncLink>, a: Key, b: Key)
    requires a in byKey && b in byKey && Eligible(byKey[a], byKey[b])
    ensures Settled(byKey, FinalPartition(byKey, links), a, b)
  {
    if a < b {
      OrderedPairSettled(byKey, links, a, b);
    } else if b < a {
      EligibleSymmetric(byKey[a], byKey[b]);
      OrderedPairSettled(byKey, links, b, a);
      SettledSymmetric(byKey, FinalPartition(byKey, links), b, a);
    }
  }

  /** Every pair the overlap phase tries to join ends in one unified playlist. */
  ghost predicate MatchesTogether(byKey: Catalog, part: Partition)
    requires byKey.Keys == part.Keys
  {
    forall a, b :: a in byKey && b in byKey && Eligible(byKey[a], byKey[b]) ==> part[a] == part[b]
  }

  /** Wherever links and matching pairs would chain two playlists of one account together, links alone do. */
  ghost predicate AccountsLinked(byKey: Catalog, links: seq<SyncLink>) {
    forall a, b ::
      (a in byKey && b in byKey && byKey[a].account == byKey[b].account && Connected(AllEdges(byKey, links), a, b)) ==>
        Connected(LinkEdges(byKey, links), a, b)
  }

  lemma TogetherRespects(byKey: Catalog, links: seq<SyncLink>)
    requires MatchesTogether(byKey, FinalPartition(byKey, links))
    ensures Respects(FinalPartition(byKey, links), AllEdges(byKey, links))
  {
    var part := FinalPartition(byKey, links);
    forall a, b | (a, b) in AllEdges(byKey, links) ensures a in part && b in part && part[a] == part[b] {
      if (a, b) in LinkEdges(byKey, links) {
        var l :| l in links && Loaded(byKey, l) && (a, b) == (l.source, l.target);
        LinkedTogether(byKey, links, l);
      }
    }
  }

  lemma ApartShowsUnlinked(byKey: Catalog, links: seq<SyncLink>, a: Key, b: Key)
    requires a in byKey && b in byKey && Eligible(byKey[a], byKey[b]) && AccountsLinked(byKey, links)
    ensures FinalPartition(byKey, links)[a] == FinalPartition(byKey, links)[b]
  {
    var part, e := FinalPartition(byKey, links), AllEdges(byKey, links);
    GreedyMaximal(byKey, links, a, b);
    if part[a] != part[b] {
      var x :| x in AccountsOf(byKey, part, part[a]) * AccountsOf(byKey, part, part[b]);
      var c :| c in byKey && part[c] == part[a] && byKey[c].account == x;
      var d :| d in byKey && part[d] == part[b] && byKey[d].account == x;
      GroupsAreJustified(byKey, links, c, a);
      GroupsAreJustified(byKey, links, b, d);
      assert (a, b) in MatchEdges(byKey);
      ConnectedStep(e, a, b);
      ConnectedTransitive(e, c, a, b);
      ConnectedTransitive(e, c, b, d);
      SameAccountNeedsLinks(byKey, links, c, d);
    }
  }

  /**
   Every matching pair is grouped exactly when no two playlists of one account are chained together
   by links and matching pairs without being chained by links.
   */
  lemma MatchesTogetherExactly(byKey: Catalog, links: seq<SyncLink>)
    ensures MatchesTogether(byKey, FinalPartition(byKey, links)) <==> AccountsLinked(byKey, links)
  {
    var part, e := FinalPartition(byKey, links), AllEdges(byKey, links);
    if MatchesTogether(byKey, part) {
      TogetherRespects(byKey, links);
      forall a, b | a in byKey && b in byKey && byKey[a].account == byKey[b].account && Connected(e, a, b)
        ensures Connected(LinkEdges(byKey, links), a, b)
      {
        var p :| ChainFromTo(e, p, a, b);
        ChainStaysInside(part, e, p, a, b);
        SameAccountNeedsLinks(byKey, links, a, b);
      }
    }
    if AccountsLinked(byKey, links) {
      forall a, b | a in byKey && b in byKey && Eligible(byKey[a], byKey[b]) ensures part[a] == part[b] {
        ApartShowsUnlinked(byKey, links, a, b);
      }
    }
  }

  /** Copies the documentation groups: one normalized name and a common song, whatever their kinds. */
  predicate Documented(l: Playlist, r: Playlist) {
    l.normalName == r.normalName && l.account != r.account && PlaylistsOverlap(l, r)
  }

  /** Every documented pair ends in one unified playlist. */
  ghost predicate DocumentedTogether(byKey: Catalog, part: Partition)
    requires byKey.Keys == part.Keys
  {
    forall a, b :: a in byKey && b in byKey && Documented(byKey[a], byKey[b]) ==> part[a] == part[b]
  }

  /** Links and matching pairs chain every documented pair together; only pairs of two kinds can fail this. */
  ghost predicate DocumentedChained(byKey: Catalog, links: seq<SyncLink>) {
    forall a, b :: a in byKey && b in byKey && Documented(byKey[a], byKey[b]) ==>
                     Connected(AllEdges(byKey, links), a, b)
  }

  lemma MatchesChained(byKey: Catalog, links: seq<SyncLink>, a: Key, b: Key)
    requires a in byKey && b in byKey && Documented(byKey[a], byKey[b]) && byKey[a].kind == byKey[b].kind
    ensures Connected(AllEdges(byKey, links), a, b)
  {
    assert (a, b) in MatchEdges(byKey);
    ConnectedStep(AllEdges(byKey, links), a, b);
  }

  /** When all matching pairs are grouped, two playlists share a group exactly when links and matches chain them. */
  lemma TogetherMeansChained(byKey: Catalog, links: seq<SyncLink>, a: Key, b: Key)
    requires MatchesTogether(byKey, FinalPartition(byKey, links)) && a in byKey && b in byKey
    ensures FinalPartition(byKey, links)[a] == FinalPartition(byKey, links)[b] <==>
            Connected(AllEdges(byKey, links), a, b)
  {
    var part, e := FinalPartition(byKey, links), AllEdges(byKey, links);
    if Connected(e, a, b) {
      TogetherRespects(byKey, links);
      var p :| ChainFromTo(e, p, a, b);
      ChainStaysInside(part, e, p, a, b);
    }
    if part[a] == part[b] {
      GroupsAreJustified(byKey, links, a, b);
    }
  }

  /**
   The documented grouping holds exactly when no two playlists of one account are chained together by
   links and matching pairs without being chained by links, and the documented pairs of two kinds are
   chained together by links and matching pairs.
   */
  lemma DocumentedGroupingExactly(byKey: Catalog, links: seq<SyncLink>)
    ensures DocumentedTogether(byKey, FinalPartition(byKey, links)) <==>
            AccountsLinked(byKey, links) && DocumentedChained(byKey, links)
  {
    var part := FinalPartition(byKey, links);
    MatchesTogetherExactly(byKey, links);
    if DocumentedTogether(byKey, part) {
      DocumentedCoversMatches(byKey, part);
    }
    if MatchesTogether(byKey, part) {
      forall a, b | a in byKey && b in byKey && Documented(byKey[a], byKey[b])
        ensures part[a] == part[b] <==> Connected(AllEdges(byKey, links), a, b)
      {
        TogetherMeansChained(byKey, links, a, b);
      }
    }
  }

  lemma DocumentedCoversMatches(byKey: Catalog, part: Partition)
    requires byKey.Keys == part.Keys && DocumentedTogether(byKey, part)
    ensures MatchesTogether(byKey, part)
  {
    forall a, b | a in byKey && b in byKey && Eligible(byKey[a], byKey[b]) ensures part[a] == part[b] {
      assert Documented(byKey[a], byKey[b]);
    }
  }

  predicate CrossProvider(l: Playlist, r: Playlist) {
    Documented(l, r) && l.account.provider != r.account.provider
  }

  ghost predicate CrossProviderTogether(byKey: Catalog, part: Partition)
    requires byKey.Keys == part.Keys
  {
    forall a, b :: a in byKey && b in byKey && CrossProvider(byKey[a], byKey[b]) ==> part[a] == part[b]
  }

  /** No two accounts of one provider hold documented copies of each other. */
  ghost predicate ProvidersApart(byKey: Catalog) {
    forall a, b :: a in byKey && b in byKey && Documented(byKey[a], byKey[b]) ==> CrossProvider(byKey[a], byKey[b])
  }

  /**
   Counting only pairs of two providers as documented, the same condition suffices, and where no
   provider's accounts hold copies of each other it is exact.
   */
  lemma CrossProviderGrouping(byKey: Catalog, links: seq<SyncLink>)
    ensures AccountsLinked(byKey, links) && DocumentedChained(byKey, links) ==>
              CrossProviderTogether(byKey, FinalPartition(byKey, links))
    ensures ProvidersApart(byKey) ==>
              (CrossProviderTogether(byKey, FinalPartition(byKey, links)) <==>
               AccountsLinked(byKey, links) && DocumentedChained(byKey, links))
  {
    DocumentedGroupingExactly(byKey, links);
  }

  ghost function CrossEdges(byKey: Catalog): Edges {
    set a, b | a in byKey && b in byKey && CrossProvider(byKey[a], byKey[b]) :: (a, b)
  }

  /**
   In general only its part about pairs of two providers is needed: links and such pairs chain no two
   playlists of one account that links alone do not chain, and all edges together chain every such pair.
   */
  lemma CrossProviderNeeds(byKey: Catalog, links: seq<SyncLink>, a: Key, b: Key)
    requires CrossProviderTogether(byKey, FinalPartition(byKey, links)) && a in byKey && b in byKey
    ensures byKey[a].account == byKey[b].account && Connected(LinkEdges(byKey, links) + CrossEdges(byKey), a, b) ==>
              Connected(LinkEdges(byKey, links), a, b)
    ensures CrossProvider(byKey[a], byKey[b]) ==> Connected(AllEdges(byKey, links), a, b)
  {
    var part, e := FinalPartition(byKey, links), LinkEdges(byKey, links) + CrossEdges(byKey);
    forall x, y | (x, y) in e ensures x in part && y in part && part[x] == part[y] {
      if (x, y) in LinkEdges(byKey, links) {
        var l :| l in links && Loaded(byKey, l) && (x, y) == (l.source, l.target);
        LinkedTogether(byKey, links, l);
      }
    }
    if byKey[a].account == byKey[b].account && Connected(e, a, b) {
      var p :| ChainFromTo(e, p, a, b);
      ChainStaysInside(part, e, p, a, b);
      SameAccountNeedsLinks(byKey, links, a, b);
    }
    if CrossProvider(byKey[a], byKey[b]) {
      GroupsAreJustified(byKey, links, a, b);
    }
  }

  /** Two same-account playlists that both match a third, with no link chain between them, cannot both join it. */
  lemma DuplicateStaysApart(byKey: Catalog, links: seq<SyncLink>, a: Key, a': Key, b: Key)
    requires a in byKey && a' in byKey && b in byKey && byKey[a].account == byKey[a'].account
    requires !Connected(LinkEdges(byKey, links), a, a')
    ensures var part := FinalPartition(byKey, links); part[a] != part[b] || part[a'] != part[b]
    ensures Documented(byKey[a], byKey[b]) && Documented(byKey[a'], byKey[b]) ==>
              !DocumentedTogether(byKey, FinalPartition(byKey, links))
    ensures Eligible(byKey[a], byKey[b]) && Eligible(byKey[a'], byKey[b]) ==>
              !MatchesTogether(byKey, FinalPartition(byKey, links))
  {
    SameAccountNeedsLinks(byKey, links, a, a');
  }

  /** A song both copies of one account and a copy elsewhere hold, all under one name. */
  function Copies(name: string, kind: string, here: Account, there: Account, song: Track): Catalog {
    map[0 := Playlist(0, true, here, kind, name, [song]),
        1 := Playlist(1, true, here, kind, name, [song]),
        2 := Playlist(2, true, there, kind, name, [song])]
  }

  /** Where one account holds two such copies, the documented grouping fails without any sync link. */
  lemma DocumentedGroupingFails(name: string, kind: string, here: Account, there: Account, song: Track)
    requires here != there && song.isrc.Some?
    ensures !DocumentedTogether(Copies(name, kind, here, there, song),
                                FinalPartition(Copies(name, kind, here, there, song), []))
  {
    var byKey := Copies(name, kind, here, there, song);
    assert song.isrc.value in Isrcs(song) * Isrcs(song);
    assert TracksMatch(song, song);
    assert forall k :: k in byKey ==> song in byKey[k].tracks;
    if Connected(LinkEdges(byKey, []), 0, 1) {
      LinkComponents(byKey, [], 0, 1);
      assert false;
    }
    DuplicateStaysApart(byKey, [], 0, 1, 2);
  }

  /** One name and a common song, but two kinds. */
  function TwoKinds(name: string, kind: string, other: string, here: Account, there: Account, song: Track): Catalog {
    map[0 := Playlist(0, true, here, kind, name, [song]), 1 := Playlist(1, true, there, other, name, [song])]
  }

  /** Two copies of different kinds stay apart although no account repeats. */
  lemma KindsStayApart(name: string, kind: string, other: string, here: Account, there: Account, song: Track)
    requires here != there && kind != other && song.isrc.Some?
    ensures var byKey := TwoKinds(name, kind, other, here, there, song);
            !DocumentedTogether(byKey, FinalPartition(byKey, [])) && AccountsLinked(byKey, [])
  {
    var byKey := TwoKinds(name, kind, other, here, there, song);
    var e := AllEdges(byKey, []);
    assert e == {};
    assert song.isrc.value in Isrcs(song) * Isrcs(song);
    assert TracksMatch(song, song);
    assert song in byKey[0].tracks && song in byKey[1].tracks;
    assert Documented(byKey[0], byKey[1]);
    forall a, b | a in byKey && b in byKey && byKey[a].account == byKey[b].account && Connected(e, a, b)
      ensures Connected(LinkEdges(byKey, []), a, b)
    {
      ConnectedReflexive(LinkEdges(byKey, []), a);
    }
    if Connected(e, 0, 1) {
      var p :| ChainFromTo(e, p, 0, 1);
      ChainStaysInside(Singletons(byKey), e, p, 0, 1);
      assert false;
    }
    DocumentedGroupingExactly(byKey, []);
  }

  // ----- Links and members land in exactly one group

  lemma MemberOfItsGroup(byKey: Catalog, links: seq<SyncLink>, part: Partition, k: Key, root: Key)
    requires WellKeyed(byKey) && byKey.Keys == part.Keys && k in byKey && MembersOf(part, root) != {}
    ensures byKey[k] in GroupFor(byKey, links, MembersOf(part, root)).members <==> root == part[k]
  {
    var members := MembersOf(part, root);
    var order := MemberOrder(byKey, links, members);
    MemberOrderLists(byKey, links, members);
    var g := GroupFor(byKey, links, members);
    if root == part[k] {
      assert k in ToSet(order);
      var i :| 0 <= i < |order| && order[i] == k;
      assert g.members[i] == byKey[k];
    }
    if byKey[k] in g.members {
      var i :| 0 <= i < |g.members| && g.members[i] == byKey[k];
      assert order[i] in ToSet(order) && byKey[order[i]].key == order[i];
    }
  }

  /** A loaded playlist is a member of exactly one unified playlist. */
  lemma MemberOfExactlyOneGroup(byKey: Catalog, links: seq<SyncLink>, k: Key)
    requires WellKeyed(byKey) && k in byKey
    ensures var groups, own := Unified(byKey, links), FinalPartition(byKey, links)[k];
            own in groups && forall root :: root in groups ==> (byKey[k] in groups[root].members <==> root == own)
  {
    var part := FinalPartition(byKey, links);
    RootsHaveMembers(part);
    assert part[k] in part.Values;
    forall root | root in part.Values
      ensures byKey[k] in GroupFor(byKey, links, MembersOf(part, root)).members <==> root == part[k]
    {
      MemberOfItsGroup(byKey, links, part, k, root);
    }
  }

  lemma WithinMembers(links: seq<SyncLink>, members: set<Key>, l: SyncLink)
    ensures l in Within(links, members) <==> l in links && l.source in members && l.target in members
  {
    FilterMembers((l: SyncLink) => l.source in members && l.target in members, links);
  }

  lemma GroupLinks(byKey: Catalog, links: seq<SyncLink>, members: set<Key>, l: SyncLink)
    requires members <= byKey.Keys && members != {}
    ensures l in GroupFor(byKey, links, members).links <==> l in links && l.source in members && l.target in members
  {
    SortMembers(RuleRank, Within(links, members));
    WithinMembers(links, members, l);
  }

  /** A link with both ends loaded is listed by exactly one unified playlist. */
  lemma LinkInExactlyOneGroup(byKey: Catalog, links: seq<SyncLink>, link: SyncLink)
    requires link in links && Loaded(byKey, link)
    ensures var groups, own := Unified(byKey, links), FinalPartition(byKey, links)[link.source];
            own in groups && forall root :: root in groups ==> (link in groups[root].links <==> root == own)
  {
    var part := FinalPartition(byKey, links);
    RootsHaveMembers(part);
    LinkedTogether(byKey, links, link);
    assert part[link.source] in part.Values;
    forall root | root in part.Values
      ensures link in GroupFor(byKey, links, MembersOf(part, root)).links <==> root == part[link.source]
    {
      GroupLinks(byKey, links, MembersOf(part, root), link);
    }
  }

  /** The member list is the group, each member once: the canonical one first, the rest by key. */
  lemma MemberOrderLists(byKey: Catalog, links: seq<SyncLink>, members: set<Key>)
    requires members <= byKey.Keys && members != {}
    ensures NoDuplicates(MemberOrder(byKey, links, members))
    ensures ToSet(MemberOrder(byKey, links, members)) == members
    ensures IsCanonical(byKey, links, members, MemberOrder(byKey, links, members)[0])
    ensures Increasing(MemberOrder(byKey, links, members)[1..])
  {
    var c := Canonical(byKey, links, members);
    var others := Ascending(members - {c});
    ConsSet(c, others);
    assert forall i :: 0 <= i < |others| ==> others[i] in ToSet(others);
  }

  ghost predicate AllShow(rows: seq<MergedTrack>, bases: seq<string>) {
    |rows| == |bases| && forall i :: 0 <= i < |rows| ==> RowShows(rows, bases, i)
  }

  /** The rows merged from these members: conserved copies, sound rows, first fit, what each shows, distinct keys. */
  ghost predicate RowsSound(members: seq<Playlist>, rows: seq<MergedTrack>) {
    var cs := Clusters(members);
    && |rows| == |cs|
    && AllSources(cs) == InputSources(members)
    && FirstFit(members, cs)
    && (forall i :: 0 <= i < |rows| ==> ClusterInv(cs[i]) && rows[i].sources == cs[i].sources)
    && (forall i :: 0 <= i < |rows| ==> rows[i].representative == rows[i].sources[0].track)
    && (exists bases :: AllShow(rows, bases))
    && (forall i, j :: 0 <= i < j < |rows| ==> rows[i].key != rows[j].key)
  }

  lemma MergedSound(members: seq<Playlist>)
    requires DistinctKeys(members) && forall m, t :: m in members && t in m.tracks ==> Normalized(t)
    ensures RowsSound(members, Merged(members))
  {
    MergeConserves(members);
    MergeFirstFit(members);
    var bases := MergedShows(members);
    assert AllShow(Merged(members), bases);
    forall s | s in InputSources(members) ensures Normalized(s.track) {
      InputSourcesMember(members, s);
      InputSourcesTrack(members, s);
    }
    OutputKeysDistinct(members);
  }

  /**
   Inside every unified playlist each member's track copies appear in the rows exactly once, no row
   has two copies from one member or two ISRCs, every copy lies in the first row that could take it,
   and row keys are pairwise distinct.
   */
  lemma RowsOfGroup(byKey: Catalog, links: seq<SyncLink>, members: set<Key>)
    requires WellKeyed(byKey) && members <= byKey.Keys && members != {}
    requires forall k, t :: k in members && t in byKey[k].tracks ==> Normalized(t)
    ensures var g := GroupFor(byKey, links, members); RowsSound(g.members, g.tracks)
  {
    var keys := MemberOrder(byKey, links, members);
    var ordered := Playlists(byKey, keys);
    MemberOrderLists(byKey, links, members);
    forall i, j | 0 <= i < j < |ordered| ensures ordered[i].key != ordered[j].key {
      assert ordered[i].key == keys[i] && ordered[j].key == keys[j];
    }
    forall m, t | m in ordered && t in m.tracks ensures Normalized(t) {
      var i :| 0 <= i < |ordered| && ordered[i] == m;
      assert keys[i] in ToSet(keys);
    }
    MergedSound(ordered);
  }

  lemma {:induction false} InputSourcesTrack(members: seq<Playlist>, s: Source)
    requires s in InputSources(members)
    ensures s.track in s.member.tracks
  {
    var n := |members| - 1;
    if s in InputSources(members[..n]) {
      InputSourcesTrack(members[..n], s);
    } else {
      SourcesOfCount(members[n], members[n].tracks, s);
    }
  }

  // ----- What a unified playlist shows

  /** The links that bring playlists together and name `k` as their source. */
  ghost function LinksFrom(byKey: Catalog, links: seq<SyncLink>, k: Key): set<int> {
    set i | 0 <= i < |links| && links[i].source == k && k in byKey && links[i].target in byKey
  }

  lemma {:induction false} WeightCounts(byKey: Catalog, links: seq<SyncLink>, k: Key)
    ensures Weight(byKey, links, k) == |LinksFrom(byKey, links, k)|
  {
    if links != [] {
      var n := |links| - 1;
      WeightCounts(byKey, links[..n], k);
      var l := links[n];
      assert LinksFrom(byKey, links, k) ==
             LinksFrom(byKey, links[..n], k) + if l.source == k && k in byKey && l.target in byKey then {n} else {};
    }
  }

  /** One member is a better source of truth than another: more links from it, then more tracks, then a smaller key. */
  ghost predicate Better(byKey: Catalog, links: seq<SyncLink>, c: Key, k: Key)
    requires c in byKey && k in byKey
  {
    var from, other := |LinksFrom(byKey, links, c)|, |LinksFrom(byKey, links, k)|;
    || from > other
    || (from == other && |byKey[c].tracks| > |byKey[k].tracks|)
    || (from == other && |byKey[c].tracks| == |byKey[k].tracks| && c < k)
  }

  ghost predicate Inside(members: set<Key>, l: SyncLink) {
    l.source in members && l.target in members
  }

  /**
   What the unified playlist of some members shows: first the one that is better than all others, which
   is canonical, then the others by key; the rule ids of the links inside; and those links by rule id.
   */
  ghost predicate GroupShows(byKey: Catalog, links: seq<SyncLink>, members: set<Key>, g: Group)
    requires members <= byKey.Keys
  {
    && (exists keys :: ShowsMembers(byKey, links, members, keys, g))
    && (forall id :: id in g.ruleIds <==> exists l :: l in links && Inside(members, l) && l.ruleId == id)
    && (forall i, j :: 0 <= i < j < |g.links| ==> g.links[i].ruleId <= g.links[j].ruleId)
    && (forall l :: multiset(g.links)[l] == if Inside(members, l) then multiset(links)[l] else 0)
  }

  ghost predicate ShowsMembers(byKey: Catalog, links: seq<SyncLink>, members: set<Key>, keys: seq<Key>, g: Group)
    requires members <= byKey.Keys
  {
    && keys != [] && NoDuplicates(keys) && ToSet(keys) == members && AllIn(byKey, keys)
    && Increasing(keys[1..])
    && (forall k :: k in members && k != keys[0] ==> Better(byKey, links, keys[0], k))
    && |g.members| == |keys| && (forall i :: 0 <= i < |keys| ==> g.members[i] == byKey[keys[i]])
    && g.canonical == g.members[0]
  }

  lemma MembersShown(byKey: Catalog, links: seq<SyncLink>, members: set<Key>)
    requires members <= byKey.Keys && members != {}
    ensures ShowsMembers(byKey, links, members, MemberOrder(byKey, links, members), GroupFor(byKey, links, members))
  {
    var keys := MemberOrder(byKey, links, members);
    MemberOrderLists(byKey, links, members);
    forall k | k in members && k != keys[0] ensures Better(byKey, links, keys[0], k) {
      WeightCounts(byKey, links, keys[0]);
      WeightCounts(byKey, links, k);
      assert Precedes(byKey, links, keys[0], k);
    }
  }

  lemma LinksShown(links: seq<SyncLink>, members: set<Key>, l: SyncLink)
    ensures var shown := Sort(RuleRank, Within(links, members));
            && multiset(shown)[l] == (if Inside(members, l) then multiset(links)[l] else 0)
            && forall i, j :: 0 <= i < j < |shown| ==> shown[i].ruleId <= shown[j].ruleId
  {
    var within := Within(links, members);
    SortProperties(RuleRank, within, 0);
    FilterCount((l: SyncLink) => l.source in members && l.target in members, links, l);
    var shown := Sort(RuleRank, within);
    assert forall i, j :: 0 <= i < j < |shown| ==> RuleRank(shown[i]) <= RuleRank(shown[j]);
  }

  lemma IdsShown(links: seq<SyncLink>, members: set<Key>, id: RuleId)
    ensures id in RuleIdsOf(Within(links, members)) <==> exists l :: l in links && Inside(members, l) && l.ruleId == id
  {
    if l :| l in links && Inside(members, l) && l.ruleId == id {
      WithinMembers(links, members, l);
    }
    if id in RuleIdsOf(Within(links, members)) {
      var l :| l in Within(links, members) && l.ruleId == id;
      WithinMembers(links, members, l);
      assert Inside(members, l);
    }
  }

  /** Every unified playlist shows its members, rule ids and links as they are. */
  lemma GroupShowsItsMembers(byKey: Catalog, links: seq<SyncLink>, members: set<Key>)
    requires members <= byKey.Keys && members != {}
    ensures GroupShows(byKey, links, members, GroupFor(byKey, links, members))
  {
    MembersShown(byKey, links, members);
    forall l {
      LinksShown(links, members, l);
    }
    forall id {
      IdsShown(links, members, id);
    }
  }

  lemma UnifiedShows(byKey: Catalog, links: seq<SyncLink>, root: Key)
    requires root in Unified(byKey, links)
    ensures GroupShows(byKey, links, MembersOf(FinalPartition(byKey, links), root), Unified(byKey, links)[root])
  {
    RootsHaveMembers(FinalPartition(byKey, links));
    GroupShowsItsMembers(byKey, links, MembersOf(FinalPartition(byKey, links), root));
  }

  /** The catalog holds, for every key, the last playlist of that key with an id. */
  lemma {:induction false} ByKeyLast(playlists: seq<Playlist>, k: Key)
    ensures k in ByKey(playlists) <==> exists i :: 0 <= i < |playlists| && playlists[i].hasId && playlists[i].key == k
    ensures k in ByKey(playlists) ==>
              exists i :: 0 <= i < |playlists| && playlists[i].hasId && playlists[i].key == k &&
                          ByKey(playlists)[k] == playlists[i] &&
                          forall j :: i < j < |playlists| && playlists[j].hasId ==> playlists[j].key != k
  {
    if playlists != [] {
      var n := |playlists| - 1;
      ByKeyLast(playlists[..n], k);
      if playlists[n].hasId && playlists[n].key == k {
        assert ByKey(playlists)[k] == playlists[n];
      } else if k in ByKey(playlists[..n]) {
        var i :| 0 <= i < n && playlists[..n][i].hasId && playlists[..n][i].key == k &&
          ByKey(playlists[..n])[k] == playlists[..n][i] &&
          forall j :: i < j < n && playlists[..n][j].hasId ==> playlists[..n][j].key != k;
        assert playlists[..n][i] == playlists[i];
        assert forall j :: i < j < n ==> playlists[..n][j] == playlists[j];
      }
    }
  }

  // ----- Input order does not matter

  lemma WeightOrderFree(byKey: Catalog, links: seq<SyncLink>, links': seq<SyncLink>, k: Key)
    requires multiset(links) == multiset(links')
    ensures Weight(byKey, links, k) == Weight(byKey, links', k)
  {
    var p := (l: SyncLink) => Loaded(byKey, l) && l.source == k;
    FilterPermutes(p, links, links');
    MultisetMembers(Filter(p, links), Filter(p, links'));
  }

  lemma CanonicalUnique(byKey: Catalog, links: seq<SyncLink>, links': seq<SyncLink>, members: set<Key>)
    requires multiset(links) == multiset(links')
    requires members <= byKey.Keys && members != {}
    ensures Canonical(byKey, links, members) == Canonical(byKey, links', members)
  {
    var c, d := Canonical(byKey, links, members), Canonical(byKey, links', members);
    WeightOrderFree(byKey, links, links', c);
    WeightOrderFree(byKey, links, links', d);
    assert c != d ==> Precedes(byKey, links, c, d);
  }

  lemma GroupOrderFree(byKey: Catalog, links: seq<SyncLink>, links': seq<SyncLink>, members: set<Key>)
    requires multiset(links) == multiset(links') && RankInjective(RuleRank, multiset(links))
    requires members <= byKey.Keys && members != {}
    ensures GroupFor(byKey, links, members) == GroupFor(byKey, links', members)
  {
    CanonicalUnique(byKey, links, links', members);
    var p := (l: SyncLink) => l.source in members && l.target in members;
    FilterPermutes(p, links, links');
    var w, w' := Within(links, members), Within(links', members);
    MultisetMembers(w, w');
    forall x | x in multiset(w) ensures x in multiset(links) {
      FilterCount(p, links, x);
    }
    SortPermutationInvariant(RuleRank, w, w');
    assert RuleIdsOf(w) == RuleIdsOf(w');
  }

  lemma {:induction false} ByKeyMember(playlists: seq<Playlist>, k: Key)
    ensures k in ByKey(playlists) ==>
            ByKey(playlists)[k] in playlists && ByKey(playlists)[k].hasId && ByKey(playlists)[k].key == k
    ensures (exists p :: p in playlists && p.hasId && p.key == k) ==> k in ByKey(playlists)
  {
    if playlists != [] {
      var n := |playlists| - 1;
      ByKeyMember(playlists[..n], k);
      assert playlists == playlists[..n] + [playlists[n]];
    }
  }

  ghost predicate DistinctMemberKeys(playlists: multiset<Playlist>) {
    forall p, q :: p in playlists && q in playlists && p.hasId && q.hasId && p.key == q.key ==> p == q
  }

  lemma ByKeyOrderFree(playlists: seq<Playlist>, playlists': seq<Playlist>)
    requires multiset(playlists) == multiset(playlists') && DistinctMemberKeys(multiset(playlists))
    ensures ByKey(playlists) == ByKey(playlists')
  {
    MultisetMembers(playlists, playlists');
    var m, m' := ByKey(playlists), ByKey(playlists');
    forall k ensures k in m <==> k in m'
             ensures k in m && k in m' ==> m[k] == m'[k]
    {
      ByKeyMember(playlists, k);
      ByKeyMember(playlists', k);
      if k in m {
        assert m[k] in playlists' && m[k] in multiset(playlists);
      }
      if k in m' {
        assert m'[k] in playlists && m'[k] in multiset(playlists);
      }
    }
  }

  lemma PartitionOrderFree(byKey: Catalog, links: seq<SyncLink>, links': seq<SyncLink>)
    requires multiset(links) == multiset(links')
    ensures FinalPartition(byKey, links) == FinalPartition(byKey, links')
  {
    MultisetMembers(links, links');
    LinkPhaseOrderFree(byKey, links, links');
  }

  lemma GroupsOrderFree(byKey: Catalog, links: seq<SyncLink>, links': seq<SyncLink>, part: Partition)
    requires multiset(links) == multiset(links') && RankInjective(RuleRank, multiset(links))
    requires byKey.Keys == part.Keys
    ensures GroupsOver(byKey, links, part) == GroupsOver(byKey, links', part)
  {
    RootsHaveMembers(part);
    forall root | root in part.Values
      ensures GroupFor(byKey, links, MembersOf(part, root)) == GroupFor(byKey, links', MembersOf(part, root))
    {
      GroupOrderFree(byKey, links, links', MembersOf(part, root));
    }
  }

  /**
   With distinct member keys and rule ids, permuting the playlists or the links changes nothing:
   not the groups, their canonical member, their member order, their links or their merged rows.
   */
  lemma InputOrderFree(playlists: seq<Playlist>, playlists': seq<Playlist>, links: seq<SyncLink>, links': seq<SyncLink>)
    requires multiset(playlists) == multiset(playlists') && DistinctMemberKeys(multiset(playlists))
    requires multiset(links) == multiset(links') && RankInjective(RuleRank, multiset(links))
    ensures Unified(ByKey(playlists), links) == Unified(ByKey(playlists'), links')
  {
    ByKeyOrderFree(playlists, playlists');
    PartitionOrderFree(ByKey(playlists), links, links');
    GroupsOrderFree(ByKey(playlists), links, links', FinalPartition(ByKey(playlists), links));
  }
}
