/** The grouping run itself: parents, rule ids and source weights updated in place. */
module PlaylistGrouper {
  import Counters
  import opened Sorting
  import opened Tracks
  import TrackMerge
  import opened Partitions
  import opened Grouping
  import opened UnifiedPlaylists

  type RuleIds = map<Key, set<RuleId>>

  function IdsAt(ids: RuleIds, k: Key): set<RuleId> {
    if k in ids then ids[k] else {}
  }

  /** The rule ids of `gone` move to `root`. */
  function MovedIds(ids: RuleIds, root: Key, gone: Key): RuleIds {
    ids[root := IdsAt(ids, root) + IdsAt(ids, gone)] - {gone}
  }

  /** The rule ids of processed links with both ends in the component of `root`. */
  ghost function IdsOf(byKey: Catalog, part: Partition, links: seq<SyncLink>, root: Key): set<RuleId>
    requires byKey.Keys == part.Keys
  {
    set l | l in links && Loaded(byKey, l) && part[l.source] == root && part[l.target] == root :: l.ruleId
  }

  /** Every root holds exactly the rule ids of its component, and no other key holds any. */
  ghost predicate Tracked(byKey: Catalog, part: Partition, ids: RuleIds, links: seq<SyncLink>)
    requires byKey.Keys == part.Keys
  {
    forall k :: k in byKey ==> IdsAt(ids, k) == IdsOf(byKey, part, links, k)
  }

  ghost predicate Together(byKey: Catalog, part: Partition, links: seq<SyncLink>)
    requires byKey.Keys == part.Keys
  {
    forall l :: l in links && Loaded(byKey, l) ==> part[l.source] == part[l.target]
  }

  lemma MoveTracks(byKey: Catalog, part: Partition, ids: RuleIds, links: seq<SyncLink>, root: Key, gone: Key)
    requires byKey.Keys == part.Keys && root in byKey && gone in byKey && root != gone
    requires part[root] == root && part[gone] == gone
    requires Together(byKey, part, links) && Tracked(byKey, part, ids, links)
    ensures Together(byKey, MergeInto(part, root, gone), links)
    ensures Tracked(byKey, MergeInto(part, root, gone), MovedIds(ids, root, gone), links)
  {
    var q := MergeInto(part, root, gone);
    forall l | l in links && Loaded(byKey, l)
      ensures q[l.source] == q[l.target]
      ensures q[l.source] == if part[l.source] == gone then root else part[l.source]
    {
      assert MergedAt(part, root, gone, q, l.source) && MergedAt(part, root, gone, q, l.target);
    }
    forall k | k in byKey ensures IdsAt(MovedIds(ids, root, gone), k) == IdsOf(byKey, q, links, k) {
      assert IdsAt(ids, k) == IdsOf(byKey, part, links, k);
      assert IdsAt(ids, gone) == IdsOf(byKey, part, links, gone);
    }
  }

  lemma AddTracks(byKey: Catalog, part: Partition, ids: RuleIds, links: seq<SyncLink>, link: SyncLink)
    requires byKey.Keys == part.Keys && Loaded(byKey, link) && part[link.source] == part[link.target]
    requires Together(byKey, part, links) && Tracked(byKey, part, ids, links) && part[link.source] in byKey
    ensures Together(byKey, part, links + [link])
    ensures var root := part[link.source];
            Tracked(byKey, part, ids[root := IdsAt(ids, root) + {link.ruleId}], links + [link])
  {
    var root := part[link.source];
    var ids' := ids[root := IdsAt(ids, root) + {link.ruleId}];
    assert forall l :: l in links + [link] <==> l in links || l == link;
    forall k | k in byKey ensures IdsAt(ids', k) == IdsOf(byKey, part, links + [link], k) {
      assert IdsAt(ids, k) == IdsOf(byKey, part, links, k);
    }
  }

  /** Where a union that turned `part` into `q` leaves the rule ids. */
  ghost function UnitedIds(part: Partition, ids: RuleIds, l: Key, r: Key, q: Partition): RuleIds
    requires l in part && r in part
  {
    if q == part then ids
    else if part[l] > part[r] then MovedIds(ids, part[r], part[l])
    else MovedIds(ids, part[l], part[r])
  }

  lemma UniteTracks(byKey: Catalog, part: Partition, ids: RuleIds, links: seq<SyncLink>, l: Key, r: Key, same: bool)
    requires byKey.Keys == part.Keys && l in byKey && r in byKey && LeastNamed(part)
    requires Together(byKey, part, links) && Tracked(byKey, part, ids, links)
    ensures var q := Unite(byKey, part, l, r, same);
            Together(byKey, q, links) && Tracked(byKey, q, UnitedIds(part, ids, l, r, q), links)
  {
    assert LeastAt(part, l) && LeastAt(part, r);
    if Unite(byKey, part, l, r, same) != part {
      if part[l] > part[r] {
        MoveTracks(byKey, part, ids, links, part[r], part[l]);
      } else {
        MoveTracks(byKey, part, ids, links, part[l], part[r]);
      }
    }
  }

  class Grouper {
    const byKey: Catalog
    const order: seq<Key>
    var parents: Parents
    var ruleIds: RuleIds
    var weights: map<Key, nat>
    ghost var part: Partition

    ghost predicate Valid()
      reads this
    {
      && WellKeyed(byKey)
      && NoDuplicates(order)
      && (forall k :: k in order <==> k in byKey)
      && parents.Keys == byKey.Keys
      && Represents(parents, part)
    }

    constructor (byKey: Catalog, order: seq<Key>)
      requires WellKeyed(byKey) && NoDuplicates(order) && forall k :: k in order <==> k in byKey
      ensures Valid() && this.byKey == byKey && this.order == order
      ensures part == Singletons(byKey) && ruleIds == map[] && weights == map[]
    {
      this.byKey := byKey;
      this.order := order;
      parents := map k | k in byKey :: k;
      ruleIds := map[];
      weights := map[];
      part := Singletons(byKey);
      new;
      forall k | k in byKey ensures LeastAt(part, k) && ParentAt(parents, part, k) {
      }
    }

    /** Follows parents to the root and points every key on the way straight at it. */
    method Find(key: Key) returns (root: Key)
      requires Valid() && key in byKey
      modifies this`parents
      ensures Valid() && root == part[key] && parents[key] == root
      decreases key
    {
      var parent := parents[key];
      assert ParentAt(parents, part, key);
      if parent != key {
        var up := Find(parent);
        CompressKeeps(parents, part, key);
        parents := parents[key := up];
      }
      root := parents[key];
    }

    method AccountsUnder(root: Key) returns (accounts: set<Account>)
      requires Valid()
      modifies this`parents
      ensures Valid() && accounts == AccountsOf(byKey, part, root)
    {
      accounts := {};
      for i := 0 to |order|
        invariant Valid()
        invariant accounts == set k | k in order[..i] && part[k] == root :: byKey[k].account
      {
        var key := order[i];
        assert key in order && order[..i + 1] == order[..i] + [key];
        var r := Find(key);
        if r == root {
          accounts := accounts + {byKey[key].account};
        }
      }
      assert order[..|order|] == order;
    }

    /** Hangs `gone` under the smaller root and hands over its rule ids. */
    method Attach(root: Key, gone: Key)
      requires Valid() && root in byKey && gone in byKey && root < gone
      requires part[root] == root && part[gone] == gone
      modifies this`parents, this`ruleIds, this`part
      ensures Valid() && part == MergeInto(old(part), root, gone)
      ensures ruleIds == MovedIds(old(ruleIds), root, gone)
    {
      LinkMerges(parents, part, root, gone);
      parents := parents[gone := root];
      part := MergeInto(part, root, gone);
      ruleIds := ruleIds[root := IdsAt(ruleIds, root) + IdsAt(ruleIds, gone)] - {gone};
    }

    method Union(left: Key, right: Key, allowSameAccount: bool) returns (root: Key)
      requires Valid() && left in byKey && right in byKey
      modifies this`parents, this`ruleIds, this`part
      ensures Valid()
      ensures part == Unite(byKey, old(part), left, right, allowSameAccount)
      ensures root == part[left]
      ensures ruleIds == UnitedIds(old(part), old(ruleIds), left, right, part)
    {
      var leftRoot := Find(left);
      var rightRoot := Find(right);
      if leftRoot == rightRoot {
        return leftRoot;
      }
      if !allowSameAccount {
        var leftAccounts := AccountsUnder(leftRoot);
        var rightAccounts := AccountsUnder(rightRoot);
        if leftAccounts * rightAccounts != {} {
          return leftRoot;
        }
      }
      assert LeastAt(part, left) && LeastAt(part, right);
      if leftRoot > rightRoot {
        leftRoot, rightRoot := rightRoot, leftRoot;
      }
      Attach(leftRoot, rightRoot);
      assert MergedAt(old(part), leftRoot, rightRoot, part, left);
      return leftRoot;
    }

    /** Roots hold the rule ids of the processed links, and link ends share components. */
    ghost predicate Holding(links: seq<SyncLink>)
      requires Valid()
      reads this
    {
      Together(byKey, part, links) && Tracked(byKey, part, ruleIds, links)
    }

    ghost predicate Weighted(links: seq<SyncLink>)
      reads this
    {
      forall k :: Counters.CountOf(weights, k) == Weight(byKey, links, k)
    }

    /** One turn of the link loop. */
    method LinkOne(ghost before: seq<SyncLink>, link: SyncLink)
      requires Valid() && part == LinkPhase(byKey, before) && Holding(before) && Weighted(before)
      modifies this`parents, this`ruleIds, this`weights, this`part
      ensures Valid() && part == LinkPhase(byKey, before + [link]) && Holding(before + [link]) &&
              Weighted(before + [link])
    {
      assert (before + [link])[..|before|] == before;
      WeightSnoc(byKey, before, link);
      if !Loaded(byKey, link) {
        SkipTracks(byKey, part, ruleIds, before, link);
        return;
      }
      LinkLoaded(before, link);
      weights := weights[link.source := Counters.CountOf(weights, link.source) + 1];
    }

    /** Unions the ends of a loaded link and hands its rule id to the root. */
    method LinkLoaded(ghost before: seq<SyncLink>, link: SyncLink)
      requires Valid() && Loaded(byKey, link) && Holding(before)
      modifies this`parents, this`ruleIds, this`part
      ensures Valid() && part == Unite(byKey, old(part), link.source, link.target, true) && Holding(before + [link])
    {
      UniteTracks(byKey, part, ruleIds, before, link.source, link.target, true);
      UniteJoins(byKey, part, link.source, link.target);
      var root := Union(link.source, link.target, true);
      assert LeastAt(part, link.source);
      AddTracks(byKey, part, ruleIds, before, link);
      ruleIds := ruleIds[root := IdsAt(ruleIds, root) + {link.ruleId}];
    }

    /** Unions the ends of every loaded link and counts the links of each source. */
    method LinkAll(links: seq<SyncLink>)
      requires Valid() && part == Singletons(byKey) && ruleIds == map[] && weights == map[]
      modifies this`parents, this`ruleIds, this`weights, this`part
      ensures Valid() && part == LinkPhase(byKey, links) && Holding(links) && Weighted(links)
    {
      NoWeight(byKey);
      for i := 0 to |links|
        invariant Valid() && part == LinkPhase(byKey, links[..i]) && Holding(links[..i]) && Weighted(links[..i])
      {
        assert links[..i + 1] == links[..i] + [links[i]];
        LinkOne(links[..i], links[i]);
      }
      assert links[..|links|] == links;
    }

    /** One turn of the inner match loop. */
    method TryPair(left: Key, right: Key, ghost links: seq<SyncLink>)
      requires Valid() && left in byKey && right in byKey && Holding(links)
      modifies this`parents, this`ruleIds, this`part
      ensures Valid() && part == TryIn(byKey)(old(part), left, right) && Holding(links)
    {
      if byKey[left].kind != byKey[right].kind { return; }
      if byKey[left].normalName != byKey[right].normalName { return; }
      if byKey[left].account == byKey[right].account { return; }
      if !PlaylistsOverlap(byKey[left], byKey[right]) { return; }
      UniteTracks(byKey, part, ruleIds, links, left, right, false);
      var _ := Union(left, right, false);
    }

    /** The inner match loop: `left` against every later candidate. */
    method MatchRow(left: Key, rights: seq<Key>, ghost links: seq<SyncLink>)
      requires Valid() && left in byKey && AllIn(byKey, rights) && Holding(links)
      modifies this`parents, this`ruleIds, this`part
      ensures Valid() && part == MatchInner(TryIn(byKey), old(part), left, rights) && Holding(links)
    {
      for j := 0 to |rights|
        invariant Valid() && part == MatchInner(TryIn(byKey), old(part), left, rights[..j]) && Holding(links)
      {
        assert rights[..j + 1][..j] == rights[..j];
        TryPair(left, rights[j], links);
      }
      assert rights[..|rights|] == rights;
    }

    /** Tries every pair of candidates in key order. */
    method MatchAll(ghost links: seq<SyncLink>)
      requires Valid() && part == LinkPhase(byKey, links) && Holding(links)
      modifies this`parents, this`ruleIds, this`part
      ensures Valid() && part == FinalPartition(byKey, links) && Holding(links)
    {
      assert ToSet(order) == byKey.Keys;
      SortAscending(order);
      AscendingIn(byKey);
      var candidates := Sort(Itself, order);
      for i := 0 to |candidates|
        invariant Valid() && part == MatchOuter(TryIn(byKey), old(part), candidates, i) && Holding(links)
      {
        MatchRow(candidates[i], candidates[i + 1..], links);
      }
    }

    /** Lists each component's keys in catalog order. */
    method Components() returns (components: map<Key, seq<Key>>)
      requires Valid()
      modifies this`parents
      ensures Valid() && components.Keys == part.Values
      ensures forall r :: r in components ==> components[r] == InComponent(part, order, r)
    {
      components := map[];
      for i := 0 to |order|
        invariant Valid() && Listed(components, part, order[..i])
      {
        var key := order[i];
        assert key in order && order[..i + 1] == order[..i] + [key];
        var root := Find(key);
        ListedSnoc(components, part, order[..i], key);
        components := components[root := ListAt(components, root) + [key]];
      }
      assert order[..|order|] == order;
      ListedAll(components, part, order);
    }

    /** The canonical member, by one pass for the minimum. */
    method PickCanonical(members: seq<Key>, ghost links: seq<SyncLink>) returns (canonical: Key)
      requires Valid() && AllIn(byKey, members) && members != [] && Weighted(links)
      ensures canonical in members
      ensures forall k :: k in members && k != canonical ==> Precedes(byKey, links, canonical, k)
    {
      canonical := members[0];
      for i := 1 to |members|
        invariant canonical in members[..i]
        invariant forall j :: 0 <= j < i && members[j] != canonical ==> Precedes(byKey, links, canonical, members[j])
      {
        var m := members[i];
        var wm, wc := Counters.CountOf(weights, m), Counters.CountOf(weights, canonical);
        var nm, nc := |byKey[m].tracks|, |byKey[canonical].tracks|;
        if wm > wc || (wm == wc && (nm > nc || (nm == nc && m < canonical))) {
          canonical := m;
        }
      }
    }

    /** The unified playlist of one component. */
    method MakeGroup(root: Key, members: seq<Key>, links: seq<SyncLink>) returns (g: Group)
      requires Valid() && root in part.Values && members == InComponent(part, order, root)
      requires Holding(links) && Weighted(links)
      ensures MembersOf(part, root) <= byKey.Keys && MembersOf(part, root) != {}
      ensures g == GroupFor(byKey, links, MembersOf(part, root))
    {
      ComponentSet(byKey, part, order, root);
      var canonical := PickCanonical(members, links);
      OrderIs(byKey, links, members, canonical);
      var keys := [canonical] + Sort(Itself, Others(members, canonical));
      assert AllIn(byKey, keys);
      var ordered := Playlists(byKey, keys);
      var memberKeys := set k | k in members;
      var within := Within(links, memberKeys);
      WithinIds(byKey, part, ruleIds, links, root, memberKeys);
      var tracks := TrackMerge.MergeTracks(ordered);
      g := Group(byKey[canonical], ordered, RuleIdsOf(within) + IdsAt(ruleIds, root), Sort(RuleRank, within), tracks);
    }

    method MakeGroups(components: map<Key, seq<Key>>, links: seq<SyncLink>) returns (result: map<Key, Group>)
      requires Valid() && Holding(links) && Weighted(links)
      requires components.Keys == part.Values
      requires forall r :: r in components ==> components[r] == InComponent(part, order, r)
      ensures result == GroupsOver(byKey, links, part)
    {
      result := map[];
      var pending := components.Keys;
      while pending != {}
        invariant pending <= components.Keys && result.Keys == components.Keys - pending
        invariant forall r :: r in result ==> GroupAt(byKey, links, part, result, r)
        decreases pending
      {
        var root :| root in pending;
        var group := MakeGroup(root, components[root], links);
        GroupAdded(byKey, links, part, result, root, group);
        result := result[root := group];
        pending := pending - {root};
      }
      GroupsAgree(byKey, links, part, result);
    }

    /** Both merging phases, then one unified playlist per component. */
    method GroupAll(links: seq<SyncLink>) returns (result: map<Key, Group>)
      requires Valid() && part == Singletons(byKey) && ruleIds == map[] && weights == map[]
      modifies this
      ensures result == Unified(byKey, links)
    {
      LinkAll(links);
      MatchAll(links);
      var components := Components();
      result := MakeGroups(components, links);
    }
  }

  ghost predicate GroupAt(byKey: Catalog, links: seq<SyncLink>, part: Partition, groups: map<Key, Group>, r: Key)
    requires byKey.Keys == part.Keys && r in groups
  {
    MembersOf(part, r) != {} && groups[r] == GroupFor(byKey, links, MembersOf(part, r))
  }

  lemma GroupAdded(byKey: Catalog, links: seq<SyncLink>, part: Partition, groups: map<Key, Group>, root: Key, g: Group)
    requires byKey.Keys == part.Keys && MembersOf(part, root) != {}
    requires forall r :: r in groups ==> GroupAt(byKey, links, part, groups, r)
    requires g == GroupFor(byKey, links, MembersOf(part, root))
    ensures var next := groups[root := g]; forall r :: r in next ==> GroupAt(byKey, links, part, next, r)
  {
    var next := groups[root := g];
    forall r | r in next ensures GroupAt(byKey, links, part, next, r) {
      assert r != root ==> GroupAt(byKey, links, part, groups, r);
    }
  }

  lemma GroupsAgree(byKey: Catalog, links: seq<SyncLink>, part: Partition, groups: map<Key, Group>)
    requires byKey.Keys == part.Keys && groups.Keys == part.Values
    requires forall r :: r in groups ==> GroupAt(byKey, links, part, groups, r)
    ensures groups == GroupsOver(byKey, links, part)
  {
    var u := GroupsOver(byKey, links, part);
    forall r | r in groups ensures groups[r] == u[r] {
      assert GroupAt(byKey, links, part, groups, r);
    }
  }

  /** The key `k` is first seen at playlist `p`. */
  ghost predicate FirstSeen(playlists: seq<Playlist>, k: Key, p: nat) {
    && p < |playlists| && playlists[p].hasId && playlists[p].key == k
    && forall q :: 0 <= q < p && playlists[q].hasId ==> playlists[q].key != k
  }

  ghost predicate SeenBefore(playlists: seq<Playlist>, k: Key, l: Key) {
    exists p: nat, q: nat :: p < q && FirstSeen(playlists, k, p) && FirstSeen(playlists, l, q)
  }

  /** Keys come in the order they are first seen. */
  ghost predicate InsertionOrder(playlists: seq<Playlist>, order: seq<Key>) {
    forall i, j :: 0 <= i < j < |order| ==> SeenBefore(playlists, order[i], order[j])
  }

  lemma NewlySeen(playlists: seq<Playlist>, order: seq<Key>, n: nat)
    requires n < |playlists| && playlists[n].hasId && playlists[n].key !in ByKey(playlists[..n])
    requires InsertionOrder(playlists, order) && forall k :: k in order <==> k in ByKey(playlists[..n])
    ensures InsertionOrder(playlists, order + [playlists[n].key])
  {
    var k := playlists[n].key;
    ByKeyLast(playlists[..n], k);
    forall q | 0 <= q < n && playlists[q].hasId ensures playlists[q].key != k {
      assert playlists[..n][q] == playlists[q];
    }
    assert FirstSeen(playlists, k, n);
    var longer := order + [k];
    forall i, j | 0 <= i < j < |longer| ensures SeenBefore(playlists, longer[i], longer[j]) {
      if j < |order| {
        assert SeenBefore(playlists, order[i], order[j]);
      } else {
        assert order[i] in order;
        ByKeyLast(playlists[..n], order[i]);
        var p := FirstOf(playlists, order[i], n);
        assert longer[i] == order[i] && longer[j] == k;
      }
    }
  }

  lemma {:induction false} FirstOf(playlists: seq<Playlist>, k: Key, n: nat) returns (p: nat)
    requires n <= |playlists| && exists i :: 0 <= i < n && playlists[..n][i].hasId && playlists[..n][i].key == k
    ensures p < n && FirstSeen(playlists, k, p)
  {
    var m := n - 1;
    if i :| 0 <= i < m && playlists[i].hasId && playlists[i].key == k {
      assert playlists[..m][i] == playlists[i];
      p := FirstOf(playlists, k, m);
    } else {
      var i :| 0 <= i < n && playlists[..n][i].hasId && playlists[..n][i].key == k;
      assert playlists[..n][i] == playlists[i];
      p := m;
    }
  }

  /** Builds the catalog and its key order as a dict comprehension does. */
  method Load(playlists: seq<Playlist>) returns (byKey: Catalog, order: seq<Key>)
    ensures byKey == ByKey(playlists) && WellKeyed(byKey)
    ensures NoDuplicates(order) && forall k :: k in order <==> k in byKey
    ensures InsertionOrder(playlists, order)
  {
    byKey, order := map[], [];
    for i := 0 to |playlists|
      invariant byKey == ByKey(playlists[..i]) && WellKeyed(byKey)
      invariant NoDuplicates(order) && forall k :: k in order <==> k in byKey
      invariant InsertionOrder(playlists, order)
    {
      var item := playlists[i];
      assert playlists[..i + 1][..i] == playlists[..i];
      if item.hasId {
        if item.key !in byKey {
          NewlySeen(playlists, order, i);
          order := order + [item.key];
        }
        byKey := byKey[item.key := item];
      }
    }
    assert playlists[..|playlists|] == playlists;
  }

  /** The whole run: link phase, overlap phase, components, one unified playlist per component. */
  method BuildUnifiedPlaylists(playlists: seq<Playlist>, links: seq<SyncLink>) returns (result: map<Key, Group>)
    ensures result == Unified(ByKey(playlists), links)
  {
    var byKey, order := Load(playlists);
    var g := new Grouper(byKey, order);
    result := g.GroupAll(links);
  }

  // ----- Proof steps of the loops above

  lemma NoWeight(byKey: Catalog)
    ensures forall k :: Weight(byKey, [], k) == 0
  {
  }


  lemma WeightSnoc(byKey: Catalog, links: seq<SyncLink>, link: SyncLink)
    ensures forall k :: Weight(byKey, links + [link], k) ==
                        Weight(byKey, links, k) + if Loaded(byKey, link) && link.source == k then 1 else 0
  {
    assert (links + [link])[..|links|] == links;
  }

  lemma SkipTracks(byKey: Catalog, part: Partition, ids: RuleIds, links: seq<SyncLink>, link: SyncLink)
    requires byKey.Keys == part.Keys && !Loaded(byKey, link)
    requires Together(byKey, part, links) && Tracked(byKey, part, ids, links)
    ensures Together(byKey, part, links + [link]) && Tracked(byKey, part, ids, links + [link])
  {
    assert forall l :: l in links + [link] <==> l in links || l == link;
    forall k | k in byKey ensures IdsAt(ids, k) == IdsOf(byKey, part, links + [link], k) {
      assert IdsAt(ids, k) == IdsOf(byKey, part, links, k);
    }
  }

  ghost function InComponent(part: Partition, keys: seq<Key>, root: Key): seq<Key> {
    if keys == [] then []
    else
      var k := keys[|keys| - 1];
      InComponent(part, keys[..|keys| - 1], root) + (if k in part && part[k] == root then [k] else [])
  }

  lemma {:induction false} InComponentLists(part: Partition, keys: seq<Key>, root: Key)
    requires NoDuplicates(keys)
    ensures NoDuplicates(InComponent(part, keys, root))
    ensures forall k :: k in InComponent(part, keys, root) <==> k in keys && k in part && part[k] == root
  {
    if keys != [] {
      var n := |keys| - 1;
      InComponentLists(part, keys[..n], root);
      assert keys == keys[..n] + [keys[n]];
    }
  }

  function ListAt(components: map<Key, seq<Key>>, r: Key): seq<Key> {
    if r in components then components[r] else []
  }

  ghost predicate ListedAt(components: map<Key, seq<Key>>, part: Partition, keys: seq<Key>, r: Key) {
    ListAt(components, r) == InComponent(part, keys, r) && (r in components ==> components[r] != [])
  }

  ghost predicate Listed(components: map<Key, seq<Key>>, part: Partition, keys: seq<Key>) {
    forall r {:trigger ListedAt(components, part, keys, r)} :: ListedAt(components, part, keys, r)
  }

  lemma ListedSnoc(components: map<Key, seq<Key>>, part: Partition, keys: seq<Key>, key: Key)
    requires Listed(components, part, keys) && key in part
    ensures Listed(components[part[key] := ListAt(components, part[key]) + [key]], part, keys + [key])
  {
    var next := components[part[key] := ListAt(components, part[key]) + [key]];
    var longer := keys + [key];
    assert longer[..|keys|] == keys;
    forall r ensures ListedAt(next, part, longer, r) {
      assert ListedAt(components, part, keys, r);
    }
  }

  lemma ListedAll(components: map<Key, seq<Key>>, part: Partition, order: seq<Key>)
    requires Listed(components, part, order) && NoDuplicates(order) && forall k :: k in order <==> k in part
    ensures components.Keys == part.Values
    ensures forall r :: r in components ==> components[r] == InComponent(part, order, r)
  {
    forall r ensures r in components <==> r in part.Values
             ensures r in components ==> components[r] == InComponent(part, order, r)
    {
      assert ListedAt(components, part, order, r);
      InComponentLists(part, order, r);
      if r in components {
        assert components[r][0] in InComponent(part, order, r);
      }
      if r in part.Values {
        var k :| k in part && part[k] == r;
        assert k in InComponent(part, order, r);
      }
    }
  }

  lemma ComponentSet(byKey: Catalog, part: Partition, order: seq<Key>, root: Key)
    requires byKey.Keys == part.Keys && root in part.Values && LeastNamed(part)
    requires NoDuplicates(order) && forall k :: k in order <==> k in byKey
    ensures var members := InComponent(part, order, root);
            && members != [] && NoDuplicates(members) && AllIn(byKey, members)
            && (set k | k in members) == MembersOf(part, root) <= byKey.Keys
            && MembersOf(part, root) != {} && root in byKey
  {
    var members := InComponent(part, order, root);
    InComponentLists(part, order, root);
    RootsHaveMembers(part);
    var k :| k in part && part[k] == root;
    assert k in members && LeastAt(part, k);
    assert forall i :: 0 <= i < |members| ==> members[i] in members;
  }

  lemma OrderIs(byKey: Catalog, links: seq<SyncLink>, members: seq<Key>, c: Key)
    requires NoDuplicates(members) && AllIn(byKey, members) && c in members
    requires forall k :: k in members && k != c ==> Precedes(byKey, links, c, k)
    ensures var all := set k | k in members;
            && all <= byKey.Keys && all != {}
            && [c] + Sort(Itself, Others(members, c)) == MemberOrder(byKey, links, all)
  {
    var all := set k | k in members;
    assert c in all;
    CanonicalIs(byKey, links, all, c);
    OthersSorted(members, c);
  }

  /** The canonical member is determined by the order of `min`. */
  lemma CanonicalIs(byKey: Catalog, links: seq<SyncLink>, members: set<Key>, c: Key)
    requires members <= byKey.Keys && IsCanonical(byKey, links, members, c)
    ensures c == Canonical(byKey, links, members)
  {
    var d := Canonical(byKey, links, members);
    assert c != d ==> Precedes(byKey, links, c, d);
  }

  lemma {:induction false} FilterNoDuplicates(p: Key -> bool, s: seq<Key>)
    requires NoDuplicates(s)
    ensures NoDuplicates(Filter(p, s))
  {
    if s != [] {
      FilterNoDuplicates(p, s[..|s| - 1]);
      FilterMembers(p, s[..|s| - 1]);
    }
  }

  function Others(members: seq<Key>, c: Key): seq<Key> {
    Filter((k: Key) => k != c, members)
  }

  lemma OthersSorted(members: seq<Key>, c: Key)
    requires NoDuplicates(members)
    ensures Sort(Itself, Others(members, c)) == Ascending((set k | k in members) - {c})
  {
    var p := (k: Key) => k != c;
    FilterNoDuplicates(p, members);
    FilterMembers(p, members);
    SortAscending(Filter(p, members));
    assert ToSet(Filter(p, members)) == (set k | k in members) - {c};
  }

  /** Adding the rule ids collected at the root to those of the listed links changes nothing. */
  lemma WithinIds(byKey: Catalog, part: Partition, ids: RuleIds, links: seq<SyncLink>, root: Key, members: set<Key>)
    requires byKey.Keys == part.Keys && members == MembersOf(part, root) && root in byKey
    requires Tracked(byKey, part, ids, links)
    ensures RuleIdsOf(Within(links, members)) == IdsAt(ids, root)
  {
    assert IdsAt(ids, root) == IdsOf(byKey, part, links, root);
    forall l ensures l in Within(links, members) <==> l in links && l.source in members && l.target in members {
      WithinMembers(links, members, l);
    }
  }
}
