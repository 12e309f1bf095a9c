/** Merging the tracks of one unified playlist's members, first fit, member by member. */
module TrackMerge {
  import opened Text
  import Counters
  import Sorting
  import opened Tracks

  /** One member's copy of a track; the published source fields are read off this pair. */
  datatype Source = Source(member: Playlist, track: Track)

  datatype Cluster = Cluster(keys: set<string>, isrcs: set<string>, representative: Track, sources: seq<Source>)

  datatype MergedTrack = MergedTrack(key: string, representative: Track, sources: seq<Source>)

  function PositionRank(t: Track): int {
    if t.position.Some? then t.position.value else 1_000_000_000
  }

  function InOrder(m: Playlist): seq<Track> {
    Sorting.Sort(PositionRank, m.tracks)
  }

  predicate ClusterMatches(c: Cluster, t: Track) {
    if c.isrcs != {} && Isrcs(t) != {} then c.isrcs * Isrcs(t) != {}
    else c.keys * PortableKeys(t) != {}
  }

  /** The first cluster from index `i` on that this member has not used and that matches. */
  function FirstMatch(cs: seq<Cluster>, used: set<nat>, t: Track, i: nat): (r: Option<nat>)
    requires i <= |cs|
    ensures r.Some? ==> i <= r.value < |cs| && r.value !in used && ClusterMatches(cs[r.value], t)
    ensures forall j :: i <= j < (if r.Some? then r.value else |cs|) ==> j in used || !ClusterMatches(cs[j], t)
    decreases |cs| - i
  {
    if i == |cs| then None
    else if i !in used && ClusterMatches(cs[i], t) then Some(i)
    else FirstMatch(cs, used, t, i + 1)
  }

  function Join(c: Cluster, s: Source): Cluster {
    Cluster(c.keys + ClusterKeys(s.track), c.isrcs + Isrcs(s.track), c.representative, c.sources + [s])
  }

  function Found(s: Source): Cluster {
    Cluster(ClusterKeys(s.track), Isrcs(s.track), s.track, [s])
  }

  /** The clusters so far and the indices the current member has used. */
  datatype Placement = Placement(clusters: seq<Cluster>, used: set<nat>)

  function Place(p: Placement, m: Playlist, t: Track): Placement {
    match FirstMatch(p.clusters, p.used, t, 0)
    case None => Placement(p.clusters + [Found(Source(m, t))], p.used + {|p.clusters|})
    case Some(i) => Placement(p.clusters[i := Join(p.clusters[i], Source(m, t))], p.used + {i})
  }

  function PlaceAll(cs: seq<Cluster>, m: Playlist, ts: seq<Track>): Placement {
    if ts == [] then Placement(cs, {})
    else Place(PlaceAll(cs, m, ts[..|ts| - 1]), m, ts[|ts| - 1])
  }

  function Clusters(members: seq<Playlist>): seq<Cluster> {
    if members == [] then []
    else
      var m := members[|members| - 1];
      PlaceAll(Clusters(members[..|members| - 1]), m, InOrder(m)).clusters
  }

  // ----- What every cluster keeps

  ghost function KeysOf(ss: seq<Source>): set<string> {
    set s, k | s in ss && k in ClusterKeys(s.track) :: k
  }

  ghost function IsrcsOf(ss: seq<Source>): set<string> {
    set s, k | s in ss && k in Isrcs(s.track) :: k
  }

  /** Some earlier source of the cluster matches source `i` by the pairwise test. */
  ghost predicate Linked(ss: seq<Source>, i: int)
    requires 0 <= i < |ss|
  {
    exists j :: 0 <= j < i && TracksMatch(ss[j].track, ss[i].track)
  }

  ghost predicate ClusterInv(c: Cluster) {
    && c.sources != []
    && c.representative == c.sources[0].track
    && c.keys == KeysOf(c.sources)
    && c.isrcs == IsrcsOf(c.sources)
    && (forall x, y :: x in c.isrcs && y in c.isrcs ==> x == y)
    && (forall i :: 1 <= i < |c.sources| ==> Linked(c.sources, i))
    && (forall i, j :: 0 <= i < j < |c.sources| ==> c.sources[i].member.key != c.sources[j].member.key)
  }

  ghost predicate Holds(c: Cluster, key: Key) {
    exists i :: 0 <= i < |c.sources| && c.sources[i].member.key == key
  }

  ghost predicate PlacementInv(p: Placement, key: Key) {
    && (forall i :: 0 <= i < |p.clusters| ==> ClusterInv(p.clusters[i]))
    && (forall i :: i in p.used ==> i < |p.clusters|)
    && (forall i :: 0 <= i < |p.clusters| ==> (i in p.used <==> Holds(p.clusters[i], key)))
  }

  lemma PortablePrefixes(t: Track, k: string)
    requires k in PortableKeys(t)
    ensures k[0] == 'i' || k[0] == 's'
  {
  }

  /** A portable key of a cluster comes from one of its sources' portable keys. */
  lemma PortableWitness(ss: seq<Source>, t: Track) returns (j: nat)
    requires KeysOf(ss) * PortableKeys(t) != {}
    ensures j < |ss| && PortableKeys(ss[j].track) * PortableKeys(t) != {}
  {
    var k :| k in KeysOf(ss) * PortableKeys(t);
    var s :| s in ss && k in ClusterKeys(s.track);
    j :| 0 <= j < |ss| && ss[j] == s;
    if PortableKeys(s.track) == {} {
      PortablePrefixes(t, k);
      assert false;
    } else {
      assert k in PortableKeys(s.track) * PortableKeys(t);
    }
  }

  /** A track that matches the cluster matches one of its sources pairwise. */
  lemma MatchHasWitness(c: Cluster, t: Track) returns (j: nat)
    requires ClusterInv(c) && ClusterMatches(c, t)
    ensures j < |c.sources| && TracksMatch(c.sources[j].track, t)
  {
    if c.isrcs != {} && Isrcs(t) != {} {
      var x :| x in c.isrcs * Isrcs(t);
      var s :| s in c.sources && x in Isrcs(s.track);
      j :| 0 <= j < |c.sources| && c.sources[j] == s;
      assert x in Isrcs(s.track) * Isrcs(t);
    } else {
      j := PortableWitness(c.sources, t);
      if Isrcs(c.sources[j].track) != {} {
        assert c.sources[j] in c.sources;
        var x :| x in Isrcs(c.sources[j].track);
        assert x in c.isrcs;
      }
    }
  }

  lemma SnocKeys(ss: seq<Source>, s: Source)
    ensures KeysOf(ss + [s]) == KeysOf(ss) + ClusterKeys(s.track)
    ensures IsrcsOf(ss + [s]) == IsrcsOf(ss) + Isrcs(s.track)
  {
    assert forall x :: x in ss + [s] <==> x in ss || x == s;
  }

  lemma SnocLinked(ss: seq<Source>, s: Source, j: nat)
    requires forall i :: 1 <= i < |ss| ==> Linked(ss, i)
    requires j < |ss| && TracksMatch(ss[j].track, s.track)
    ensures forall i :: 1 <= i <= |ss| ==> Linked(ss + [s], i)
  {
    var d := ss + [s];
    assert Linked(d, |ss|) by {
      assert d[j] == ss[j] && d[|ss|] == s;
    }
    forall i | 1 <= i < |ss| ensures Linked(d, i) {
      assert Linked(ss, i);
      var k :| 0 <= k < i && TracksMatch(ss[k].track, ss[i].track);
      assert d[k] == ss[k] && d[i] == ss[i];
    }
  }

  lemma JoinOneIsrc(c: Cluster, t: Track)
    requires ClusterMatches(c, t)
    requires forall x, y :: x in c.isrcs && y in c.isrcs ==> x == y
    ensures forall x, y :: x in c.isrcs + Isrcs(t) && y in c.isrcs + Isrcs(t) ==> x == y
  {
    if c.isrcs != {} && Isrcs(t) != {} {
      var x :| x in c.isrcs * Isrcs(t);
    }
  }

  lemma JoinKeeps(c: Cluster, s: Source)
    requires ClusterInv(c) && ClusterMatches(c, s.track) && !Holds(c, s.member.key)
    ensures ClusterInv(Join(c, s))
  {
    var j := MatchHasWitness(c, s.track);
    SnocLinked(c.sources, s, j);
    SnocKeys(c.sources, s);
    JoinOneIsrc(c, s.track);
    forall i | 0 <= i < |c.sources| ensures c.sources[i].member.key != s.member.key {
    }
  }

  lemma FoundKeeps(s: Source)
    ensures ClusterInv(Found(s))
  {
    assert forall x :: x in [s] <==> x == s;
    assert Found(s).keys == KeysOf([s]);
    assert Found(s).isrcs == IsrcsOf([s]);
  }

  lemma PlaceKeeps(p: Placement, m: Playlist, t: Track)
    requires PlacementInv(p, m.key)
    ensures PlacementInv(Place(p, m, t), m.key)
  {
    var q := Place(p, m, t);
    match FirstMatch(p.clusters, p.used, t, 0)
    case None =>
      FoundKeeps(Source(m, t));
      assert Holds(q.clusters[|p.clusters|], m.key) by {
        assert q.clusters[|p.clusters|].sources[0].member.key == m.key;
      }
    case Some(i) =>
      JoinKeeps(p.clusters[i], Source(m, t));
      assert Holds(q.clusters[i], m.key) by {
        assert q.clusters[i].sources[|p.clusters[i].sources|].member.key == m.key;
      }
  }

  // ----- Conservation

  ghost function AllSources(cs: seq<Cluster>): multiset<Source> {
    if cs == [] then multiset{} else AllSources(cs[..|cs| - 1]) + multiset(cs[|cs| - 1].sources)
  }

  ghost function SourcesOf(m: Playlist, ts: seq<Track>): multiset<Source> {
    if ts == [] then multiset{} else SourcesOf(m, ts[..|ts| - 1]) + multiset{Source(m, ts[|ts| - 1])}
  }

  ghost function InputSources(members: seq<Playlist>): multiset<Source> {
    if members == [] then multiset{}
    else
      var m := members[|members| - 1];
      InputSources(members[..|members| - 1]) + SourcesOf(m, m.tracks)
  }

  lemma {:induction false} AllSourcesUpdate(cs: seq<Cluster>, i: nat, s: Source)
    requires i < |cs|
    ensures AllSources(cs[i := Join(cs[i], s)]) == AllSources(cs) + multiset{s}
  {
    var n := |cs| - 1;
    var ds := cs[i := Join(cs[i], s)];
    if i == n {
      assert ds[..n] == cs[..n];
    } else {
      AllSourcesUpdate(cs[..n], i, s);
      assert ds[..n] == cs[..n][i := Join(cs[i], s)];
    }
  }

  lemma PlaceConserves(p: Placement, m: Playlist, t: Track)
    ensures AllSources(Place(p, m, t).clusters) == AllSources(p.clusters) + multiset{Source(m, t)}
  {
    match FirstMatch(p.clusters, p.used, t, 0)
    case None =>
      var cs := p.clusters + [Found(Source(m, t))];
      assert cs[..|cs| - 1] == p.clusters;
    case Some(i) =>
      AllSourcesUpdate(p.clusters, i, Source(m, t));
  }

  lemma {:induction false} SourcesOfCount(m: Playlist, ts: seq<Track>, s: Source)
    ensures SourcesOf(m, ts)[s] == if s.member == m then multiset(ts)[s.track] else 0
  {
    if ts != [] {
      SourcesOfCount(m, ts[..|ts| - 1], s);
      assert ts == ts[..|ts| - 1] + [ts[|ts| - 1]];
    }
  }

  lemma SourcesOfSorted(m: Playlist)
    ensures SourcesOf(m, InOrder(m)) == SourcesOf(m, m.tracks)
  {
    Sorting.SortProperties(PositionRank, m.tracks, 0);
    forall s ensures SourcesOf(m, InOrder(m))[s] == SourcesOf(m, m.tracks)[s] {
      SourcesOfCount(m, InOrder(m), s);
      SourcesOfCount(m, m.tracks, s);
    }
  }

  lemma {:induction false} PlaceAllKeeps(cs: seq<Cluster>, m: Playlist, ts: seq<Track>)
    requires PlacementInv(Placement(cs, {}), m.key)
    ensures PlacementInv(PlaceAll(cs, m, ts), m.key)
    ensures AllSources(PlaceAll(cs, m, ts).clusters) == AllSources(cs) + SourcesOf(m, ts)
  {
    if ts != [] {
      var before := PlaceAll(cs, m, ts[..|ts| - 1]);
      PlaceAllKeeps(cs, m, ts[..|ts| - 1]);
      PlaceKeeps(before, m, ts[|ts| - 1]);
      PlaceConserves(before, m, ts[|ts| - 1]);
    }
  }

  lemma {:induction false} AllSourcesMember(cs: seq<Cluster>, i: nat, s: Source)
    requires i < |cs| && s in cs[i].sources
    ensures s in AllSources(cs)
  {
    var n := |cs| - 1;
    if i < n {
      AllSourcesMember(cs[..n], i, s);
    }
  }

  lemma {:induction false} InputSourcesMember(members: seq<Playlist>, s: Source)
    requires s in InputSources(members)
    ensures s.member in members
  {
    var n := |members| - 1;
    if s in InputSources(members[..n]) {
      InputSourcesMember(members[..n], s);
    } else {
      SourcesOfCount(members[n], members[n].tracks, s);
    }
  }

  ghost predicate DistinctKeys(members: seq<Playlist>) {
    forall i, j :: 0 <= i < j < |members| ==> members[i].key != members[j].key
  }

  /**
   Merging neither loses nor invents a track copy, gives no cluster two copies from one member or
   two ISRCs, and joins a copy only to a cluster with an earlier copy it matches.
   */
  lemma {:induction false} MergeConserves(members: seq<Playlist>)
    requires DistinctKeys(members)
    ensures AllSources(Clusters(members)) == InputSources(members)
    ensures forall i :: 0 <= i < |Clusters(members)| ==> ClusterInv(Clusters(members)[i])
  {
    if members != [] {
      var n := |members| - 1;
      var m := members[n];
      var cs := Clusters(members[..n]);
      MergeConserves(members[..n]);
      forall i | 0 <= i < |cs| ensures !Holds(cs[i], m.key) {
        if Holds(cs[i], m.key) {
          var k :| 0 <= k < |cs[i].sources| && cs[i].sources[k].member.key == m.key;
          AllSourcesMember(cs, i, cs[i].sources[k]);
          InputSourcesMember(members[..n], cs[i].sources[k]);
        }
      }
      PlaceAllKeeps(cs, m, InOrder(m));
      SourcesOfSorted(m);
    }
  }

  // ----- First fit: a copy lies in the first row that could take it

  /** The row already holds a copy of this member at or before this position. */
  ghost predicate HeldBefore(row: seq<Source>, m: Playlist, rank: int) {
    exists x :: x in row && x.member == m && PositionRank(x.track) <= rank
  }

  /** A copy of an earlier member in the row that names another recording. */
  ghost predicate ClashesWith(x: Source, earlier: seq<Playlist>, t: Track) {
    x.member in earlier && x.track.isrc.Some? && t.isrc.Some? && x.track.isrc != t.isrc
  }

  /** The copies of earlier members in the row name another recording, or none of them matches the track. */
  ghost predicate TurnsAway(row: seq<Source>, earlier: seq<Playlist>, t: Track) {
    (exists x :: x in row && ClashesWith(x, earlier, t))
    || forall x :: x in row && x.member in earlier ==> !TracksMatch(x.track, t)
  }

  /** Why a copy of the member after `earlier` lies in a later row than this one. */
  ghost predicate PassedOver(row: seq<Source>, earlier: seq<Playlist>, s: Source) {
    HeldBefore(row, s.member, PositionRank(s.track)) || TurnsAway(row, earlier, s.track)
  }

  /** No row before `j` could have taken the copy `s` of row `j`. */
  ghost predicate FirstFitAt(members: seq<Playlist>, cs: seq<Cluster>, i: int, j: int, k: int, s: Source)
    requires 0 <= i < j < |cs| && 0 <= k < |members|
  {
    s in cs[j].sources && s.member == members[k] ==> PassedOver(cs[i].sources, members[..k], s)
  }

  ghost predicate FirstFit(members: seq<Playlist>, cs: seq<Cluster>) {
    forall i, j, k, s {:trigger FirstFitAt(members, cs, i, j, k, s)} ::
      0 <= i < j < |cs| && 0 <= k < |members| ==> FirstFitAt(members, cs, i, j, k, s)
  }

  /** A cluster that does not match a track turns it away. */
  lemma MismatchTurnsAway(c: Cluster, earlier: seq<Playlist>, t: Track)
    requires ClusterInv(c) && !ClusterMatches(c, t) && forall x :: x in c.sources ==> x.member in earlier
    ensures TurnsAway(c.sources, earlier, t)
  {
    if c.isrcs != {} && t.isrc.Some? {
      var y :| y in c.isrcs;
      var x :| x in c.sources && y in Isrcs(x.track);
      assert t.isrc.value in Isrcs(t);
      assert ClashesWith(x, earlier, t);
    } else {
      forall x | x in c.sources ensures !TracksMatch(x.track, t) {
        KeysCover(c.sources, x);
        assert PortableKeys(x.track) <= c.keys;
        assert Isrcs(x.track) <= c.isrcs;
      }
    }
  }

  lemma KeysCover(ss: seq<Source>, x: Source)
    requires x in ss
    ensures PortableKeys(x.track) <= KeysOf(ss) && Isrcs(x.track) <= IsrcsOf(ss)
  {
    assert PortableKeys(x.track) <= ClusterKeys(x.track);
  }

  /** A copy of a member not among `earlier` changes nothing about being passed over. */
  lemma PassedOverGrows(row: seq<Source>, y: Source, earlier: seq<Playlist>, s: Source)
    requires PassedOver(row, earlier, s) && y.member !in earlier
    ensures PassedOver(row + [y], earlier, s)
  {
    if HeldBefore(row, s.member, PositionRank(s.track)) {
      var x :| x in row && x.member == s.member && PositionRank(x.track) <= PositionRank(s.track);
      assert x in row + [y];
    } else if x :| x in row && ClashesWith(x, earlier, s.track) {
      assert x in row + [y];
    }
  }

  ghost predicate CopiesOf(members: seq<Playlist>, cs: seq<Cluster>) {
    forall i, x :: 0 <= i < |cs| && x in cs[i].sources ==> x.member in members
  }

  /** The state of placing the last member's tracks up to rank `rank`. */
  ghost predicate PlacingInv(members: seq<Playlist>, p: Placement, rank: int)
    requires members != []
  {
    var n := |members| - 1;
    && PlacementInv(p, members[n].key)
    && FirstFit(members, p.clusters)
    && (forall i :: i in p.used ==> HeldBefore(p.clusters[i].sources, members[n], rank))
    && CopiesOf(members, p.clusters)
  }

  /** The row a copy goes to is the first that does not pass it over. */
  lemma NewCopyFits(members: seq<Playlist>, p: Placement, t: Track, i: nat)
    requires members != [] && PlacingInv(members, p, PositionRank(t))
    requires i < |p.clusters| && (i in p.used || !ClusterMatches(p.clusters[i], t))
    ensures var n := |members| - 1; PassedOver(p.clusters[i].sources, members[..n], Source(members[n], t))
  {
    var n := |members| - 1;
    if i !in p.used {
      assert !Holds(p.clusters[i], members[n].key);
      forall x | x in p.clusters[i].sources ensures x.member in members[..n] {
        var k :| 0 <= k < |members| && members[k] == x.member;
        assert k < n ==> members[..n][k] == x.member;
      }
      MismatchTurnsAway(p.clusters[i], members[..n], t);
    }
  }

  /** The copies of row `i` after one more track is placed. */
  lemma RowAfter(p: Placement, m: Playlist, t: Track, i: nat)
    requires i < |Place(p, m, t).clusters|
    ensures var q := Place(p, m, t); var s := Source(m, t);
            if i == |p.clusters| then q.clusters[i].sources == [s]
            else if FirstMatch(p.clusters, p.used, t, 0) == Some(i)
            then q.clusters[i].sources == p.clusters[i].sources + [s]
            else q.clusters[i] == p.clusters[i]
    ensures |p.clusters| <= |Place(p, m, t).clusters| <= |p.clusters| + 1
  {
  }

  lemma RowGrows(p: Placement, m: Playlist, t: Track, i: nat, earlier: seq<Playlist>, s: Source)
    requires i < |p.clusters| && PassedOver(p.clusters[i].sources, earlier, s) && m !in earlier
    ensures i < |Place(p, m, t).clusters| && PassedOver(Place(p, m, t).clusters[i].sources, earlier, s)
  {
    RowAfter(p, m, t, i);
    PassedOverGrows(p.clusters[i].sources, Source(m, t), earlier, s);
  }

  /** A copy in a row after placing was there before, or is the one just placed and its row the first fit. */
  lemma CopyAfter(p: Placement, m: Playlist, t: Track, j: nat, s: Source)
    requires j < |Place(p, m, t).clusters| && s in Place(p, m, t).clusters[j].sources
    ensures (j < |p.clusters| && s in p.clusters[j].sources)
            || (s == Source(m, t) && forall i :: 0 <= i < j ==> i in p.used || !ClusterMatches(p.clusters[i], t))
  {
    RowAfter(p, m, t, j);
  }

  lemma MemberOnce(members: seq<Playlist>, k: nat)
    requires DistinctKeys(members) && k < |members|
    ensures members[|members| - 1] !in members[..k]
    ensures members[k] == members[|members| - 1] ==> k == |members| - 1
  {
  }

  lemma PlaceFitsAt(members: seq<Playlist>, p: Placement, t: Track, i: nat, j: nat, k: nat, s: Source)
    requires members != [] && DistinctKeys(members) && PlacingInv(members, p, PositionRank(t))
    requires i < j < |Place(p, members[|members| - 1], t).clusters| && k < |members|
    ensures FirstFitAt(members, Place(p, members[|members| - 1], t).clusters, i, j, k, s)
  {
    var m := members[|members| - 1];
    RowAfter(p, m, t, j);
    MemberOnce(members, k);
    if s in Place(p, m, t).clusters[j].sources && s.member == members[k] {
      CopyAfter(p, m, t, j, s);
      if j < |p.clusters| && s in p.clusters[j].sources {
        assert FirstFitAt(members, p.clusters, i, j, k, s);
      } else {
        NewCopyFits(members, p, t, i);
      }
      RowGrows(p, m, t, i, members[..k], s);
    }
  }

  lemma PlaceFits(members: seq<Playlist>, p: Placement, t: Track)
    requires members != [] && DistinctKeys(members) && PlacingInv(members, p, PositionRank(t))
    ensures PlacingInv(members, Place(p, members[|members| - 1], t), PositionRank(t))
  {
    var m := members[|members| - 1];
    var q := Place(p, m, t);
    PlaceKeeps(p, m, t);
    forall i, j, k, s | 0 <= i < j < |q.clusters| && 0 <= k < |members|
      ensures FirstFitAt(members, q.clusters, i, j, k, s)
    {
      PlaceFitsAt(members, p, t, i, j, k, s);
    }
    PlaceHolds(members, p, t);
  }

  lemma PlaceHolds(members: seq<Playlist>, p: Placement, t: Track)
    requires members != [] && PlacingInv(members, p, PositionRank(t))
    ensures var m := members[|members| - 1]; var q := Place(p, m, t);
            && (forall i :: i in q.used ==> i < |q.clusters| && HeldBefore(q.clusters[i].sources, m, PositionRank(t)))
            && CopiesOf(members, q.clusters)
  {
    var m := members[|members| - 1];
    var q := Place(p, m, t);
    forall i | i in q.used ensures i < |q.clusters| && HeldBefore(q.clusters[i].sources, m, PositionRank(t)) {
      if i in p.used {
        RowAfter(p, m, t, i);
      } else {
        RowAfter(p, m, t, i);
        assert Source(m, t) in q.clusters[i].sources;
      }
    }
    forall i, x | 0 <= i < |q.clusters| && x in q.clusters[i].sources ensures x.member in members {
      RowAfter(p, m, t, i);
    }
  }

  lemma RankRises(members: seq<Playlist>, p: Placement, low: int, high: int)
    requires members != [] && PlacingInv(members, p, low) && low <= high
    ensures PlacingInv(members, p, high)
  {
    var m := members[|members| - 1];
    forall i | i in p.used ensures HeldBefore(p.clusters[i].sources, m, high) {
      var x :| x in p.clusters[i].sources && x.member == m && PositionRank(x.track) <= low;
    }
  }

  lemma CopiesAreInput(members: seq<Playlist>, cs: seq<Cluster>)
    requires AllSources(cs) == InputSources(members)
    ensures CopiesOf(members, cs)
  {
    forall i, x | 0 <= i < |cs| && x in cs[i].sources ensures x.member in members {
      AllSourcesMember(cs, i, x);
      InputSourcesMember(members, x);
    }
  }

  /** One more member, whose copies are not in the rows yet, changes nothing about first fit. */
  lemma FirstFitExtends(members: seq<Playlist>, cs: seq<Cluster>)
    requires members != [] && DistinctKeys(members)
    requires FirstFit(members[..|members| - 1], cs) && CopiesOf(members[..|members| - 1], cs)
    ensures FirstFit(members, cs)
  {
    var n := |members| - 1;
    var before := members[..n];
    forall i, j, k, s | 0 <= i < j < |cs| && 0 <= k < |members| ensures FirstFitAt(members, cs, i, j, k, s) {
      if k < n {
        assert FirstFitAt(before, cs, i, j, k, s);
        assert before[..k] == members[..k];
      } else {
        MemberOnce(members, n);
      }
    }
  }

  /** The rows of the earlier members are where the last one starts. */
  lemma StartFits(members: seq<Playlist>, cs: seq<Cluster>, r: int)
    requires members != [] && DistinctKeys(members)
    requires FirstFit(members[..|members| - 1], cs) && CopiesOf(members[..|members| - 1], cs)
    requires forall i :: 0 <= i < |cs| ==> ClusterInv(cs[i])
    ensures PlacingInv(members, Placement(cs, {}), r)
  {
    var n := |members| - 1;
    FirstFitExtends(members, cs);
    MemberOnce(members, n);
    forall i | 0 <= i < |cs| ensures !Holds(cs[i], members[n].key) {
      if Holds(cs[i], members[n].key) {
        var q :| 0 <= q < |cs[i].sources| && cs[i].sources[q].member.key == members[n].key;
        KeyInBefore(members, cs[i].sources[q]);
      }
    }
    forall i, x | 0 <= i < |cs| && x in cs[i].sources ensures x.member in members {
      assert x.member in members[..n];
    }
  }

  lemma KeyInBefore(members: seq<Playlist>, x: Source)
    requires members != [] && DistinctKeys(members) && x.member in members[..|members| - 1]
    ensures x.member.key != members[|members| - 1].key
  {
  }

  lemma {:induction false} PlaceAllFits(members: seq<Playlist>, cs: seq<Cluster>, ts: seq<Track>, rank: int)
    requires members != [] && DistinctKeys(members) && Sorting.Sorted(PositionRank, ts)
    requires ts != [] ==> PositionRank(ts[|ts| - 1]) <= rank
    requires FirstFit(members[..|members| - 1], cs) && CopiesOf(members[..|members| - 1], cs)
    requires forall i :: 0 <= i < |cs| ==> ClusterInv(cs[i])
    ensures PlacingInv(members, PlaceAll(cs, members[|members| - 1], ts), rank)
  {
    if ts == [] {
      StartFits(members, cs, rank);
    } else {
      var n := |ts| - 1;
      var last := PositionRank(ts[n]);
      PlaceAllFits(members, cs, ts[..n], last);
      PlaceFits(members, PlaceAll(cs, members[|members| - 1], ts[..n]), ts[n]);
      RankRises(members, PlaceAll(cs, members[|members| - 1], ts), last, rank);
    }
  }

  lemma MemberFits(members: seq<Playlist>, cs: seq<Cluster>)
    requires members != [] && DistinctKeys(members)
    requires FirstFit(members[..|members| - 1], cs) && CopiesOf(members[..|members| - 1], cs)
    requires forall i :: 0 <= i < |cs| ==> ClusterInv(cs[i])
    ensures var m := members[|members| - 1]; FirstFit(members, PlaceAll(cs, m, InOrder(m)).clusters)
  {
    var m := members[|members| - 1];
    var ts := InOrder(m);
    Sorting.SortProperties(PositionRank, m.tracks, 0);
    PlaceAllFits(members, cs, ts, if ts == [] then 0 else PositionRank(ts[|ts| - 1]));
  }

  /**
   First fit: for every copy in a row and every row before it, that earlier row already held a copy
   of the same member, or its copies from earlier members name another recording or do not match.
   */
  lemma {:induction false} MergeFirstFit(members: seq<Playlist>)
    requires DistinctKeys(members)
    ensures FirstFit(members, Clusters(members))
  {
    if members != [] {
      var before := members[..|members| - 1];
      MergeFirstFit(before);
      MergeConserves(before);
      CopiesAreInput(before, Clusters(before));
      MemberFits(members, Clusters(before));
    }
  }

  // ----- Output keys

  const MARKER := ":occurrence:"

  function RenderKey(base: string, occurrence: nat): string {
    if occurrence == 1 then base else base + MARKER + Digits(occurrence)
  }

  function BaseKeys(cs: seq<Cluster>): (r: seq<string>)
    ensures |r| == |cs|
    ensures forall i :: 0 <= i < |cs| ==> r[i] == PreferredKey(cs[i].keys, cs[i].representative)
  {
    seq(|cs|, i requires 0 <= i < |cs| => PreferredKey(cs[i].keys, cs[i].representative))
  }

  /** How often the base key of row `i` occurs among rows 0 to `i`. */
  function Occurrence(bases: seq<string>, i: nat): nat
    requires i < |bases|
  {
    multiset(bases[..i + 1])[bases[i]]
  }

  lemma OccurrenceGrows(bases: seq<string>, i: nat, j: nat)
    requires i < j < |bases| && bases[i] == bases[j]
    ensures 1 <= Occurrence(bases, i) < Occurrence(bases, j)
  {
    assert bases[..i + 1][i] == bases[i];
    assert bases[..j + 1] == bases[..i + 1] + bases[i + 1..j + 1];
    assert bases[i + 1..j + 1][j - i - 1] == bases[j];
    assert bases[j] in multiset(bases[i + 1..j + 1]);
  }

  lemma RenderContains(base: string, n: nat)
    requires n != 1
    ensures Contains(RenderKey(base, n), MARKER)
  {
    assert OccursAt(RenderKey(base, n), MARKER, |base|);
  }

  lemma RenderInjective(a: string, m: nat, b: string, n: nat)
    requires !Contains(a, MARKER) && !Contains(b, MARKER)
    requires RenderKey(a, m) == RenderKey(b, n)
    ensures a == b && m == n
  {
    if m == 1 {
      if n != 1 { RenderContains(b, n); }
    } else if n == 1 {
      RenderContains(a, m);
    } else {
      var head := MARKER[..11];
      assert MARKER == head + [':'];
      assert a + MARKER + Digits(m) == (a + head) + [':'] + Digits(m);
      assert b + MARKER + Digits(n) == (b + head) + [':'] + Digits(n);
      SplitAtLast(a + head, Digits(m), b + head, Digits(n), ':');
      DigitsInjective(m, n);
      assert a == (a + head)[..|a|] && b == (b + head)[..|b|];
    }
  }

  lemma NotAt(k: string, i: nat)
    requires i + 12 <= |k|
    requires k[i] != ':' || k[i + 1] != 'o' || k[i + 11] != ':'
    ensures !OccursAt(k, MARKER, i)
  {
    var w := k[i..i + 12];
    assert w[0] == k[i] && w[1] == k[i + 1] && w[11] == k[i + 11];
  }

  ghost predicate CarriesKey(t: Track, k: string) {
    k in PortableKeys(t) || k == "fallback:" + t.hash
  }

  /** No key a normalized track can carry contains the occurrence marker. */
  lemma KeyIsClean(t: Track, k: string)
    requires Normalized(t)
    requires CarriesKey(t, k)
    ensures !Contains(k, MARKER)
  {
    forall i: nat ensures !OccursAt(k, MARKER, i) {
      if i + 12 <= |k| {
        if t.isrc.Some? && k == "isrc:" + t.isrc.value {
          assert i < 4 || (k[i + 1] == t.isrc.value[i - 4] && k[i + 1] in t.isrc.value);
        } else if t.words.Some? && k == "sig:" + t.words.value.sig {
          assert k[i + 11] == t.words.value.sig[i + 7];
        } else if t.words.Some? && k == "song:" + t.words.value.song {
          assert k[i + 11] == t.words.value.song[i + 6];
        } else {
          assert k[i + 11] == t.hash[i + 2];
        }
        NotAt(k, i);
      }
    }
  }

  function Row(cs: seq<Cluster>, bases: seq<string>, i: nat): MergedTrack
    requires i < |cs| == |bases|
  {
    MergedTrack(RenderKey(bases[i], Occurrence(bases, i)), cs[i].representative, cs[i].sources)
  }

  function Rows(cs: seq<Cluster>, bases: seq<string>): (r: seq<MergedTrack>)
    requires |cs| == |bases|
    ensures |r| == |cs| && forall i :: 0 <= i < |cs| ==> r[i] == Row(cs, bases, i)
  {
    seq(|cs|, i requires 0 <= i < |cs| => Row(cs, bases, i))
  }

  function Merged(members: seq<Playlist>): seq<MergedTrack> {
    var cs := Clusters(members);
    Rows(cs, BaseKeys(cs))
  }

  lemma BaseKeyOrigin(c: Cluster)
    requires ClusterInv(c)
    ensures exists s :: s in c.sources && CarriesKey(s.track, PreferredKey(c.keys, c.representative))
  {
    var k := PreferredKey(c.keys, c.representative);
    var s := c.sources[0];
    if Preferred(c.keys).Some? {
      s :| s in c.sources && k in ClusterKeys(s.track);
    }
    assert s in c.sources;
    assert CarriesKey(s.track, k);
  }

  /** Rows of one unified playlist have pairwise distinct keys. */
  lemma OutputKeysDistinct(members: seq<Playlist>)
    requires DistinctKeys(members)
    requires forall s :: s in InputSources(members) ==> Normalized(s.track)
    ensures var rows := Merged(members);
            forall i, j :: 0 <= i < j < |rows| ==> rows[i].key != rows[j].key
  {
    MergeConserves(members);
    var cs := Clusters(members);
    var bases := BaseKeys(cs);
    forall i | 0 <= i < |cs| ensures !Contains(bases[i], MARKER) {
      BaseKeyOrigin(cs[i]);
      var s :| s in cs[i].sources && CarriesKey(s.track, bases[i]);
      AllSourcesMember(cs, i, s);
      KeyIsClean(s.track, bases[i]);
    }
    var rows := Merged(members);
    forall i, j | 0 <= i < j < |rows| ensures rows[i].key != rows[j].key {
      if rows[i].key == rows[j].key {
        RenderInjective(bases[i], Occurrence(bases, i), bases[j], Occurrence(bases, j));
        OccurrenceGrows(bases, i, j);
      }
    }
  }

  // ----- What a row shows

  ghost predicate HasIsrc(ss: seq<Source>, x: string) {
    exists i :: 0 <= i < |ss| && ss[i].track.isrc == Some(x)
  }

  ghost predicate HasSig(ss: seq<Source>, x: string) {
    exists i :: 0 <= i < |ss| && ss[i].track.words.Some? && ss[i].track.words.value.sig == x
  }

  /** The base key of a row: an ISRC of its copies, or else their least signature, or else the founder's digest. */
  ghost predicate IsBase(ss: seq<Source>, base: string)
    requires ss != []
  {
    if exists x :: HasIsrc(ss, x) then exists x :: HasIsrc(ss, x) && base == "isrc:" + x
    else if exists x :: HasSig(ss, x) then
      exists x :: HasSig(ss, x) && base == "sig:" + x && forall y :: HasSig(ss, y) ==> Leq(base, "sig:" + y)
    else base == "fallback:" + ss[0].track.hash
  }

  lemma PortableKinds(t: Track, k: string)
    requires k in ClusterKeys(t)
    ensures KindRank(k) == 0 <==> t.isrc.Some? && k == "isrc:" + t.isrc.value
    ensures KindRank(k) == 1 <==> t.words.Some? && k == "sig:" + t.words.value.sig
    ensures KindRank(k) == 2 <==> t.words.Some? && k == "song:" + t.words.value.song
    ensures KindRank(k) == 3 ==> PortableKeys(t) == {}
  {
    if PortableKeys(t) == {} {
      assert k == "fallback:" + t.hash;
      assert k[0] == 'f';
    } else {
      assert k in PortableKeys(t);
      assert k[0] == 'i' || (k[0] == 's' && (k[1] == 'i' || k[1] == 'o'));
    }
  }

  lemma KeyFromSource(c: Cluster, k: string) returns (i: nat)
    requires ClusterInv(c) && k in c.keys
    ensures i < |c.sources| && k in ClusterKeys(c.sources[i].track)
  {
    var s :| s in c.sources && k in ClusterKeys(s.track);
    i :| 0 <= i < |c.sources| && c.sources[i] == s;
  }

  lemma KeyInCluster(c: Cluster, i: nat, k: string)
    requires ClusterInv(c) && i < |c.sources| && k in ClusterKeys(c.sources[i].track)
    ensures k in c.keys
  {
    assert c.sources[i] in c.sources;
  }

  lemma BaseByIsrc(c: Cluster, x: string)
    requires ClusterInv(c) && HasIsrc(c.sources, x)
    ensures PreferredKey(c.keys, c.representative) == "isrc:" + x
  {
    var i :| 0 <= i < |c.sources| && c.sources[i].track.isrc == Some(x);
    var t := c.sources[i].track;
    assert "isrc:" + x in PortableKeys(t);
    KeyInCluster(c, i, "isrc:" + x);
    PortableKinds(t, "isrc:" + x);
    var k := PreferredKey(c.keys, c.representative);
    var j := KeyFromSource(c, k);
    PortableKinds(c.sources[j].track, k);
    assert c.sources[i] in c.sources && c.sources[j] in c.sources;
    assert x in Isrcs(t) && c.sources[j].track.isrc.value in Isrcs(c.sources[j].track);
    assert x in c.isrcs && c.sources[j].track.isrc.value in c.isrcs;
  }

  lemma BaseBySig(c: Cluster, x: string)
    requires ClusterInv(c) && (forall y :: !HasIsrc(c.sources, y)) && HasSig(c.sources, x)
    ensures var k := PreferredKey(c.keys, c.representative);
            Leq(k, "sig:" + x) && exists y :: HasSig(c.sources, y) && k == "sig:" + y
  {
    var i :| 0 <= i < |c.sources| && c.sources[i].track.words.Some? && c.sources[i].track.words.value.sig == x;
    assert "sig:" + x in PortableKeys(c.sources[i].track);
    KeyInCluster(c, i, "sig:" + x);
    PortableKinds(c.sources[i].track, "sig:" + x);
    var k := PreferredKey(c.keys, c.representative);
    var j := KeyFromSource(c, k);
    PortableKinds(c.sources[j].track, k);
    var t := c.sources[j].track;
    if t.isrc.Some? {
      assert HasIsrc(c.sources, t.isrc.value);
    }
    assert HasSig(c.sources, t.words.value.sig);
  }

  lemma BaseByDigest(c: Cluster)
    requires ClusterInv(c) && (forall y :: !HasIsrc(c.sources, y)) && (forall y :: !HasSig(c.sources, y))
    ensures PreferredKey(c.keys, c.representative) == "fallback:" + c.sources[0].track.hash
  {
    forall i | 0 <= i < |c.sources| ensures PortableKeys(c.sources[i].track) == {} {
      var t := c.sources[i].track;
      if t.isrc.Some? { assert HasIsrc(c.sources, t.isrc.value); }
      if t.words.Some? { assert HasSig(c.sources, t.words.value.sig); }
    }
    forall k | k in c.keys ensures KindRank(k) == 3 {
      var j := KeyFromSource(c, k);
      PortableKinds(c.sources[j].track, k);
    }
  }

  lemma BaseExactly(c: Cluster)
    requires ClusterInv(c)
    ensures IsBase(c.sources, PreferredKey(c.keys, c.representative))
  {
    if x :| HasIsrc(c.sources, x) {
      BaseByIsrc(c, x);
    } else if x :| HasSig(c.sources, x) {
      BaseBySig(c, x);
      forall y | HasSig(c.sources, y) ensures Leq(PreferredKey(c.keys, c.representative), "sig:" + y) {
        BaseBySig(c, y);
      }
    } else {
      BaseByDigest(c);
    }
  }

  /** Earlier rows with the same base key. */
  ghost function Before(bases: seq<string>, i: nat): set<int>
    requires i < |bases|
  {
    set j | 0 <= j < i && bases[j] == bases[i]
  }

  ghost function Occurring(bases: seq<string>, n: nat, x: string): set<int>
    requires n <= |bases|
  {
    set j | 0 <= j < n && bases[j] == x
  }

  lemma {:induction false} OccurringCounted(bases: seq<string>, n: nat, x: string)
    requires n <= |bases|
    ensures multiset(bases[..n])[x] == |Occurring(bases, n, x)|
  {
    if n > 0 {
      OccurringCounted(bases, n - 1, x);
      assert bases[..n] == bases[..n - 1] + [bases[n - 1]];
      assert Occurring(bases, n, x) == Occurring(bases, n - 1, x) + if bases[n - 1] == x then {n - 1} else {};
    }
  }

  lemma OccurrenceIsNext(bases: seq<string>, i: nat)
    requires i < |bases|
    ensures Occurrence(bases, i) == |Before(bases, i)| + 1
  {
    OccurringCounted(bases, i, bases[i]);
    assert Occurring(bases, i, bases[i]) == Before(bases, i);
    assert bases[..i + 1] == bases[..i] + [bases[i]];
  }

  /** A row shows its founder, and goes by its base key, numbered from the second row of that key on. */
  ghost predicate RowShows(rows: seq<MergedTrack>, bases: seq<string>, i: int)
    requires |rows| == |bases| && 0 <= i < |rows|
  {
    && rows[i].sources != []
    && rows[i].representative == rows[i].sources[0].track
    && IsBase(rows[i].sources, bases[i])
    && rows[i].key == (if Before(bases, i) == {} then bases[i]
                       else bases[i] + ":occurrence:" + Digits(|Before(bases, i)| + 1))
  }

  /** What each merged row shows. */
  lemma MergedShows(members: seq<Playlist>) returns (bases: seq<string>)
    requires DistinctKeys(members)
    ensures |bases| == |Merged(members)|
    ensures forall i :: 0 <= i < |bases| ==> RowShows(Merged(members), bases, i)
  {
    var cs := Clusters(members);
    MergeConserves(members);
    bases := BaseKeys(cs);
    forall i | 0 <= i < |bases| ensures RowShows(Merged(members), bases, i) {
      BaseExactly(cs[i]);
      OccurrenceIsNext(bases, i);
    }
  }

  /** Tracks are merged in order of position; those without one come after all positions below a billion. */
  lemma InOrderExactly(m: Playlist, i: nat, j: nat)
    requires i < j < |InOrder(m)|
    ensures multiset(InOrder(m)) == multiset(m.tracks)
    ensures var a, b := InOrder(m)[i].position, InOrder(m)[j].position;
            && (a.Some? && b.Some? ==> a.value <= b.value)
            && (a.Some? && b.None? ==> a.value <= 1_000_000_000)
            && (a.None? && b.Some? ==> b.value >= 1_000_000_000)
  {
    Sorting.SortProperties(PositionRank, m.tracks, 0);
    assert PositionRank(InOrder(m)[i]) <= PositionRank(InOrder(m)[j]);
  }

  // ----- Row counts when every track carries an ISRC

  ghost predicate OneIsrc(c: Cluster) {
    c.isrcs != {} && forall x, y :: x in c.isrcs && y in c.isrcs ==> x == y
  }

  ghost predicate AllOneIsrc(cs: seq<Cluster>) {
    forall i :: 0 <= i < |cs| ==> OneIsrc(cs[i])
  }

  ghost function RowsWith(cs: seq<Cluster>, x: string): nat {
    if cs == [] then 0 else RowsWith(cs[..|cs| - 1], x) + if x in cs[|cs| - 1].isrcs then 1 else 0
  }

  ghost function UsedRows(cs: seq<Cluster>, used: set<nat>, x: string): nat {
    if cs == [] then 0
    else
      var n := |cs| - 1;
      UsedRows(cs[..n], used, x) + if n in used && x in cs[n].isrcs then 1 else 0
  }

  lemma {:induction false} UsedAtMostRows(cs: seq<Cluster>, used: set<nat>, x: string)
    ensures UsedRows(cs, used, x) <= RowsWith(cs, x)
    ensures (forall i :: 0 <= i < |cs| && x in cs[i].isrcs ==> i in used) ==> UsedRows(cs, used, x) == RowsWith(cs, x)
  {
    if cs != [] {
      UsedAtMostRows(cs[..|cs| - 1], used, x);
    }
  }

  lemma {:induction false} UseRow(cs: seq<Cluster>, used: set<nat>, i: nat, x: string)
    requires i !in used
    ensures UsedRows(cs, used + {i}, x) == UsedRows(cs, used, x) + if i < |cs| && x in cs[i].isrcs then 1 else 0
  {
    if cs != [] {
      UseRow(cs[..|cs| - 1], used, i, x);
    }
  }

  lemma {:induction false} SameIsrcsSameRows(cs: seq<Cluster>, ds: seq<Cluster>, used: set<nat>, x: string)
    requires |cs| == |ds| && forall i :: 0 <= i < |cs| ==> cs[i].isrcs == ds[i].isrcs
    ensures RowsWith(cs, x) == RowsWith(ds, x) && UsedRows(cs, used, x) == UsedRows(ds, used, x)
  {
    if cs != [] {
      SameIsrcsSameRows(cs[..|cs| - 1], ds[..|ds| - 1], used, x);
    }
  }

  function Max(a: nat, b: nat): nat {
    if a >= b then a else b
  }

  /** How a placement counts the rows of ISRC `x` after a track that adds `one` copy of it. */
  ghost predicate CountsOneMore(p: Placement, q: Placement, x: string, one: nat) {
    && AllOneIsrc(q.clusters) && (forall i :: i in q.used ==> i < |q.clusters|)
    && UsedRows(q.clusters, q.used, x) == UsedRows(p.clusters, p.used, x) + one
    && RowsWith(q.clusters, x) == Max(RowsWith(p.clusters, x), UsedRows(p.clusters, p.used, x) + one)
  }

  lemma FoundCountsRows(p: Placement, m: Playlist, t: Track, x: string)
    requires AllOneIsrc(p.clusters) && t.isrc.Some? && forall i :: i in p.used ==> i < |p.clusters|
    requires FirstMatch(p.clusters, p.used, t, 0).None?
    ensures CountsOneMore(p, Place(p, m, t), x, if t.isrc.value == x then 1 else 0)
  {
    var q, n := Place(p, m, t), |p.clusters|;
    UsedAtMostRows(p.clusters, p.used, x);
    assert q.clusters[..n] == p.clusters;
    UseRow(p.clusters, p.used, n, x);
    forall i | 0 <= i < n && x in p.clusters[i].isrcs && t.isrc.value == x ensures i in p.used {
      assert x in p.clusters[i].isrcs * Isrcs(t);
    }
  }

  lemma JoinSameIsrcs(c: Cluster, s: Source)
    requires OneIsrc(c) && s.track.isrc.Some? && ClusterMatches(c, s.track)
    ensures s.track.isrc.value in c.isrcs && Join(c, s).isrcs == c.isrcs
  {
    var y :| y in c.isrcs * Isrcs(s.track);
  }

  lemma JoinCountsRows(p: Placement, m: Playlist, t: Track, x: string)
    requires AllOneIsrc(p.clusters) && t.isrc.Some? && forall i :: i in p.used ==> i < |p.clusters|
    requires FirstMatch(p.clusters, p.used, t, 0).Some?
    ensures CountsOneMore(p, Place(p, m, t), x, if t.isrc.value == x then 1 else 0)
  {
    var q, i := Place(p, m, t), FirstMatch(p.clusters, p.used, t, 0).value;
    JoinSameIsrcs(p.clusters[i], Source(m, t));
    SameIsrcsSameRows(p.clusters, q.clusters, p.used, x);
    UseRow(q.clusters, p.used, i, x);
    UsedAtMostRows(p.clusters, p.used, x);
    UsedAtMostRows(q.clusters, q.used, x);
  }

  lemma PlaceCountsRows(p: Placement, m: Playlist, t: Track, x: string)
    requires AllOneIsrc(p.clusters) && t.isrc.Some? && forall i :: i in p.used ==> i < |p.clusters|
    ensures CountsOneMore(p, Place(p, m, t), x, if t.isrc.value == x then 1 else 0)
  {
    if FirstMatch(p.clusters, p.used, t, 0).None? {
      FoundCountsRows(p, m, t, x);
    } else {
      JoinCountsRows(p, m, t, x);
    }
  }

  ghost function IsrcCount(ts: seq<Track>, x: string): nat {
    |Sorting.Filter((t: Track) => t.isrc == Some(x), ts)|
  }

  ghost predicate AllHaveIsrc(ts: seq<Track>) {
    forall i :: 0 <= i < |ts| ==> ts[i].isrc.Some?
  }

  lemma {:induction false} PlaceAllCountsRows(cs: seq<Cluster>, m: Playlist, ts: seq<Track>, x: string)
    requires AllOneIsrc(cs) && AllHaveIsrc(ts)
    ensures var q := PlaceAll(cs, m, ts);
            && AllOneIsrc(q.clusters) && (forall i :: i in q.used ==> i < |q.clusters|)
            && UsedRows(q.clusters, q.used, x) == IsrcCount(ts, x)
            && RowsWith(q.clusters, x) == Max(RowsWith(cs, x), IsrcCount(ts, x))
  {
    if ts == [] {
      NothingUsed(cs, x);
    } else {
      var n := |ts| - 1;
      PlaceAllCountsRows(cs, m, ts[..n], x);
      PlaceCountsRows(PlaceAll(cs, m, ts[..n]), m, ts[n], x);
    }
  }

  lemma {:induction false} NothingUsed(cs: seq<Cluster>, x: string)
    ensures UsedRows(cs, {}, x) == 0
  {
    if cs != [] {
      NothingUsed(cs[..|cs| - 1], x);
    }
  }

  /** The most copies of ISRC `x` that any one member holds. */
  ghost function MostCopies(members: seq<Playlist>, x: string): nat {
    if members == [] then 0
    else Max(MostCopies(members[..|members| - 1], x), IsrcCount(members[|members| - 1].tracks, x))
  }

  /**
   When every track carries an ISRC, first fit is optimal: an ISRC gets exactly as many rows as the
   member with the most copies of it needs.
   */
  lemma {:induction false} RowsPerIsrc(members: seq<Playlist>, x: string)
    requires forall i :: 0 <= i < |members| ==> AllHaveIsrc(members[i].tracks)
    ensures AllOneIsrc(Clusters(members)) && RowsWith(Clusters(members), x) == MostCopies(members, x)
  {
    if members != [] {
      var n := |members| - 1;
      var m := members[n];
      RowsPerIsrc(members[..n], x);
      Sorting.SortMembers(PositionRank, m.tracks);
      Sorting.SortProperties(PositionRank, m.tracks, 0);
      forall i | 0 <= i < |InOrder(m)| ensures InOrder(m)[i].isrc.Some? {
        assert InOrder(m)[i] in m.tracks;
      }
      PlaceAllCountsRows(Clusters(members[..n]), m, InOrder(m), x);
      var p := (t: Track) => t.isrc == Some(x);
      Sorting.FilterPermutes(p, InOrder(m), m.tracks);
      Sorting.MultisetMembers(Sorting.Filter(p, InOrder(m)), Sorting.Filter(p, m.tracks));
    }
  }

  // ----- The merging loops

  /** Places one member's tracks, in order. */
  method PlaceMember(before: seq<Cluster>, member: Playlist) returns (clusters: seq<Cluster>)
    ensures clusters == PlaceAll(before, member, InOrder(member)).clusters
  {
    clusters := before;
    var used: set<nat> := {};
    var tracks := InOrder(member);
    for j := 0 to |tracks|
      invariant Placement(clusters, used) == PlaceAll(before, member, tracks[..j])
    {
      var track := tracks[j];
      assert tracks[..j + 1][..j] == tracks[..j];
      var source := Source(member, track);
      var matching := FirstMatch(clusters, used, track, 0);
      if matching.None? {
        clusters := clusters + [Found(source)];
        used := used + {|clusters| - 1};
        continue;
      }
      clusters := clusters[matching.value := Join(clusters[matching.value], source)];
      used := used + {matching.value};
    }
    assert tracks[..|tracks|] == tracks;
  }

  method BuildClusters(members: seq<Playlist>) returns (clusters: seq<Cluster>)
    ensures clusters == Clusters(members)
  {
    clusters := [];
    for i := 0 to |members|
      invariant clusters == Clusters(members[..i])
    {
      assert members[..i + 1][..i] == members[..i];
      clusters := PlaceMember(clusters, members[i]);
    }
    assert members[..|members|] == members;
  }

  /** Numbers the base keys with a running counter. */
  method KeyRows(clusters: seq<Cluster>, bases: seq<string>) returns (result: seq<MergedTrack>)
    requires |clusters| == |bases|
    ensures result == Rows(clusters, bases)
  {
    var counts: map<string, nat> := map[];
    result := [];
    for i := 0 to |clusters|
      invariant |result| == i
      invariant forall j :: 0 <= j < i ==> result[j] == Row(clusters, bases, j)
      invariant Counters.Counts(counts, bases[..i])
    {
      var c := clusters[i];
      var base := bases[i];
      assert bases[..i + 1] == bases[..i] + [base];
      Counters.CountsSnoc(counts, bases[..i], base);
      counts := counts[base := Counters.CountOf(counts, base) + 1];
      var occurrence := Counters.CountOf(counts, base);
      assert occurrence == Occurrence(bases, i);
      result := result + [MergedTrack(RenderKey(base, occurrence), c.representative, c.sources)];
    }
  }

  method MergeTracks(members: seq<Playlist>) returns (result: seq<MergedTrack>)
    ensures result == Merged(members)
  {
    var clusters := BuildClusters(members);
    result := KeyRows(clusters, BaseKeys(clusters));
  }
}
