/** Whether the copies of a unified playlist hold the same songs in the same order. */
module Alignment {
  import opened Text
  import Sorting
  import opened Tracks
  import opened TrackMerge

  datatype Alignment = SingleProvider | Aligned | Drifted

  /** The two copies match position by position, by the code's test. */
  predicate CopiesMatch(l: Playlist, r: Playlist) {
    && |InOrder(l)| == |InOrder(r)|
    && forall p :: 0 <= p < |InOrder(l)| ==> TracksMatch(InOrder(l)[p], InOrder(r)[p])
  }

  ghost predicate AllMatch(members: seq<Playlist>) {
    forall i, j :: 0 <= i < j < |members| ==> CopiesMatch(members[i], members[j])
  }

  /** The code compares the first copy with each of the others. */
  ghost predicate MatchFirst(members: seq<Playlist>)
    requires members != []
  {
    forall j :: 1 <= j < |members| ==> CopiesMatch(members[0], members[j])
  }

  method CompareCopies(reference: seq<Track>, candidate: seq<Track>) returns (same: bool)
    requires |reference| == |candidate|
    ensures same <==> forall p :: 0 <= p < |reference| ==> TracksMatch(reference[p], candidate[p])
  {
    for p := 0 to |reference|
      invariant forall q :: 0 <= q < p ==> TracksMatch(reference[q], candidate[q])
    {
      if !TracksMatch(reference[p], candidate[p]) {
        return false;
      }
    }
    return true;
  }

  method AlignmentOf(members: seq<Playlist>) returns (verdict: Alignment)
    requires members != []
    ensures verdict.SingleProvider? <==> |members| == 1
    ensures verdict.Aligned? <==> |members| > 1 && MatchFirst(members)
  {
    if |members| == 1 {
      return SingleProvider;
    }
    var reference := InOrder(members[0]);
    for i := 1 to |members|
      invariant forall j :: 1 <= j < i ==> CopiesMatch(members[0], members[j])
    {
      var candidate := InOrder(members[i]);
      if |candidate| != |reference| {
        return Drifted;
      }
      var same := CompareCopies(reference, candidate);
      if !same {
        return Drifted;
      }
    }
    return Aligned;
  }

  // ----- What the verdict means

  lemma MatchSymmetric(l: Track, r: Track)
    ensures TracksMatch(l, r) == TracksMatch(r, l)
  {
    assert Isrcs(l) * Isrcs(r) == Isrcs(r) * Isrcs(l);
    assert PortableKeys(l) * PortableKeys(r) == PortableKeys(r) * PortableKeys(l);
  }

  lemma CopiesMatchSymmetric(l: Playlist, r: Playlist)
    ensures CopiesMatch(l, r) == CopiesMatch(r, l)
  {
    forall p | 0 <= p < |InOrder(l)| && p < |InOrder(r)|
      ensures TracksMatch(InOrder(l)[p], InOrder(r)[p]) == TracksMatch(InOrder(r)[p], InOrder(l)[p])
    {
      MatchSymmetric(InOrder(l)[p], InOrder(r)[p]);
    }
  }

  /** Member `i` moved to the front. */
  function FirstIs(members: seq<Playlist>, i: nat): seq<Playlist>
    requires i < |members|
  {
    [members[i]] + members[..i] + members[i + 1..]
  }

  lemma FirstIsAt(members: seq<Playlist>, i: nat, j: nat)
    requires i < |members| && j < |members| && i != j
    ensures FirstIs(members, i)[if j < i then j + 1 else j] == members[j]
  {
  }

  lemma MatchFromFront(members: seq<Playlist>, i: nat)
    requires i < |members|
    ensures MatchFirst(FirstIs(members, i)) <==>
            forall j :: 0 <= j < |members| && j != i ==> CopiesMatch(members[i], members[j])
  {
    var moved := FirstIs(members, i);
    assert moved[0] == members[i];
    if MatchFirst(moved) {
      forall j | 0 <= j < |members| && j != i ensures CopiesMatch(members[i], members[j]) {
        FirstIsAt(members, i, j);
        assert CopiesMatch(moved[0], moved[if j < i then j + 1 else j]);
      }
    }
    if forall j :: 0 <= j < |members| && j != i ==> CopiesMatch(members[i], members[j]) {
      forall k | 1 <= k < |moved| ensures CopiesMatch(moved[0], moved[k]) {
        FirstIsAt(members, i, if k <= i then k - 1 else k);
      }
    }
  }

  /** All copies match exactly when each matches the others from the front. */
  lemma AllMatchFromFront(members: seq<Playlist>)
    ensures AllMatch(members) <==> forall i :: 0 <= i < |members| ==> MatchFirst(FirstIs(members, i))
  {
    if AllMatch(members) {
      forall i | 0 <= i < |members| ensures MatchFirst(FirstIs(members, i)) {
        forall j | 0 <= j < |members| && j != i ensures CopiesMatch(members[i], members[j]) {
          CopiesMatchSymmetric(members[i], members[j]);
        }
        MatchFromFront(members, i);
      }
    }
    if forall i :: 0 <= i < |members| ==> MatchFirst(FirstIs(members, i)) {
      forall i, j | 0 <= i < j < |members| ensures CopiesMatch(members[i], members[j]) {
        assert MatchFirst(FirstIs(members, i));
        MatchFromFront(members, i);
      }
    }
  }

  // ----- When comparing with the first copy is enough

  /** Equal signatures name equal songs: a signature extends its song by album and duration. */
  ghost predicate SongFollows(l: Track, r: Track) {
    l.words.Some? && r.words.Some? && l.words.value.sig == r.words.value.sig ==>
      l.words.value.song == r.words.value.song
  }

  predicate SameSong(l: Track, r: Track) {
    l.words.Some? && r.words.Some? && l.words.value.song == r.words.value.song
  }

  /** Two tracks match by their ISRCs when both have one, otherwise by their song text alone. */
  lemma MatchMeans(l: Track, r: Track)
    requires SongFollows(l, r)
    ensures TracksMatch(l, r) <==> if l.isrc.Some? && r.isrc.Some? then l.isrc == r.isrc else SameSong(l, r)
  {
    if SameSong(l, r) {
      assert "song:" + l.words.value.song in PortableKeys(l) * PortableKeys(r);
    }
    if !(l.isrc.Some? && r.isrc.Some?) && TracksMatch(l, r) {
      var k :| k in PortableKeys(l) && k in PortableKeys(r);
      SharedWords(l, r, k);
    }
    if l.isrc.Some? && l.isrc == r.isrc {
      assert l.isrc.value in Isrcs(l) * Isrcs(r);
    }
  }

  lemma SharedWords(l: Track, r: Track, k: string)
    requires k in PortableKeys(l) && k in PortableKeys(r) && !(l.isrc.Some? && r.isrc.Some?) && SongFollows(l, r)
    ensures SameSong(l, r)
  {
    if k[1] == 'i' {
      assert k[4..] == l.words.value.sig && k[4..] == r.words.value.sig;
    } else {
      assert k[5..] == l.words.value.song && k[5..] == r.words.value.song;
    }
  }

  /** The copies' tracks at one position. */
  function Column(members: seq<Playlist>, p: nat): (r: seq<Track>)
    requires forall i :: 0 <= i < |members| ==> p < |InOrder(members[i])|
    ensures |r| == |members| && forall i :: 0 <= i < |r| ==> r[i] == InOrder(members[i])[p]
  {
    seq(|members|, i requires 0 <= i < |members| => InOrder(members[i])[p])
  }

  /** The position carries one ISRC at most, and one song text if some copy there lacks an ISRC. */
  predicate Uniform(column: seq<Track>) {
    && (forall i, j :: 0 <= i < j < |column| && column[i].isrc.Some? && column[j].isrc.Some? ==>
            column[i].isrc == column[j].isrc)
    && ((exists i :: 0 <= i < |column| && column[i].isrc.None?) ==>
          forall i, j :: 0 <= i < j < |column| ==> SameSong(column[i], column[j]))
  }

  lemma UniformExactly(column: seq<Track>)
    requires |column| > 1
    requires forall i, j :: 0 <= i < j < |column| ==> SongFollows(column[i], column[j])
    ensures Uniform(column) <==> forall i, j :: 0 <= i < j < |column| ==> TracksMatch(column[i], column[j])
  {
    forall i, j | 0 <= i < j < |column|
      ensures TracksMatch(column[i], column[j]) <==>
              if column[i].isrc.Some? && column[j].isrc.Some? then column[i].isrc == column[j].isrc
              else SameSong(column[i], column[j])
    {
      MatchMeans(column[i], column[j]);
    }
    if forall i, j :: 0 <= i < j < |column| ==> TracksMatch(column[i], column[j]) {
      if k :| 0 <= k < |column| && column[k].isrc.None? {
        forall i, j | 0 <= i < j < |column| ensures SameSong(column[i], column[j]) {
          SongsThrough(column, k, i);
          SongsThrough(column, k, j);
        }
      }
    }
  }

  /** A copy without an ISRC gives its song text to every other copy it matches. */
  lemma SongsThrough(column: seq<Track>, k: nat, i: nat)
    requires k < |column| && column[k].isrc.None? && i < |column| && |column| > 1
    requires forall a, b :: 0 <= a < b < |column| ==> SongFollows(column[a], column[b])
    requires forall a, b :: 0 <= a < b < |column| ==> TracksMatch(column[a], column[b])
    ensures SameSong(column[k], column[i])
  {
    var other := if i != k then i else if k == 0 then 1 else 0;
    assert TracksMatch(column[if k < other then k else other], column[if k < other then other else k]);
    MatchMeans(column[if k < other then k else other], column[if k < other then other else k]);
  }

  ghost predicate SongsFollow(members: seq<Playlist>) {
    forall i, j, s, t ::
      0 <= i < |members| && 0 <= j < |members| && s in InOrder(members[i]) && t in InOrder(members[j]) ==>
        SongFollows(s, t)
  }

  /** All copies are equally long and every position is uniform. */
  ghost predicate AllUniform(members: seq<Playlist>)
    requires members != []
  {
    && (forall i :: 0 <= i < |members| ==> |InOrder(members[i])| == |InOrder(members[0])|)
    && (forall p :: 0 <= p < |InOrder(members[0])| ==> Uniform(Column(members, p)))
  }

  lemma ColumnMatches(members: seq<Playlist>, p: nat)
    requires |members| > 1 && SongsFollow(members)
    requires forall i :: 0 <= i < |members| ==> p < |InOrder(members[i])|
    ensures Uniform(Column(members, p)) <==>
            forall i, j :: 0 <= i < j < |members| ==> TracksMatch(InOrder(members[i])[p], InOrder(members[j])[p])
  {
    var column := Column(members, p);
    forall i, j | 0 <= i < j < |column| ensures SongFollows(column[i], column[j]) {
      assert column[i] in InOrder(members[i]) && column[j] in InOrder(members[j]);
    }
    UniformExactly(column);
  }

  /** All copies match exactly when they are equally long and every position is uniform. */
  lemma AllMatchExactly(members: seq<Playlist>)
    requires |members| > 1 && SongsFollow(members)
    ensures AllMatch(members) <==> AllUniform(members)
  {
    if AllMatch(members) {
      assert forall i :: 1 <= i < |members| ==> CopiesMatch(members[0], members[i]);
      forall p | 0 <= p < |InOrder(members[0])| ensures Uniform(Column(members, p)) {
        ColumnMatches(members, p);
        assert forall i, j :: 0 <= i < j < |members| ==> CopiesMatch(members[i], members[j]);
      }
    }
    if AllUniform(members) {
      forall i, j | 0 <= i < j < |members| ensures CopiesMatch(members[i], members[j]) {
        forall p | 0 <= p < |InOrder(members[i])| ensures TracksMatch(InOrder(members[i])[p], InOrder(members[j])[p]) {
          ColumnMatches(members, p);
        }
      }
    }
  }

  // ----- The documentation's meaning of aligned

  /** A track the code can recognise at all: it has an ISRC, or a title and an artist that normalize to something. */
  predicate Identifiable(t: Track) {
    t.isrc.Some? || t.words.Some?
  }

  /** The same song: a match, or the same track but for the position it is stored at. */
  predicate SameTrack(l: Track, r: Track) {
    TracksMatch(l, r) || l.(position := r.position) == r
  }

  /** The two copies hold the same songs in the same order. */
  predicate SameSongs(l: Playlist, r: Playlist) {
    && |InOrder(l)| == |InOrder(r)|
    && forall p :: 0 <= p < |InOrder(l)| ==> SameTrack(InOrder(l)[p], InOrder(r)[p])
  }

  /** The documentation's meaning of aligned: every two copies have the same songs in the same order. */
  ghost predicate AllAgree(members: seq<Playlist>) {
    forall i, j :: 0 <= i < j < |members| ==> SameSongs(members[i], members[j])
  }

  predicate AllIdentifiable(m: Playlist) {
    forall t :: t in m.tracks ==> Identifiable(t)
  }

  /** Recognising tracks is what the match test adds: it is reflexive on identifiable tracks only. */
  lemma MatchesItself(l: Track, r: Track)
    requires l.(position := r.position) == r
    ensures TracksMatch(l, r) <==> Identifiable(l)
  {
    if l.isrc.Some? {
      assert l.isrc.value in Isrcs(l) * Isrcs(r);
    } else if l.words.Some? {
      assert "song:" + l.words.value.song in PortableKeys(l) * PortableKeys(r);
    }
  }

  lemma MatchedIsIdentifiable(l: Track, r: Track)
    requires TracksMatch(l, r)
    ensures Identifiable(l)
  {
  }

  /** Copies with the same songs match exactly when the first one's tracks are all identifiable. */
  lemma SameSongsMatch(l: Playlist, r: Playlist)
    requires SameSongs(l, r)
    ensures CopiesMatch(l, r) <==> AllIdentifiable(l)
  {
    Sorting.SortMembers(PositionRank, l.tracks);
    forall p | 0 <= p < |InOrder(l)|
      ensures TracksMatch(InOrder(l)[p], InOrder(r)[p]) <==> Identifiable(InOrder(l)[p])
    {
      var s, t := InOrder(l)[p], InOrder(r)[p];
      if TracksMatch(s, t) {
        MatchedIsIdentifiable(s, t);
      } else {
        MatchesItself(s, t);
      }
    }
    if AllIdentifiable(l) {
      forall p | 0 <= p < |InOrder(l)| ensures TracksMatch(InOrder(l)[p], InOrder(r)[p]) {
        assert InOrder(l)[p] in InOrder(l);
      }
    }
    if CopiesMatch(l, r) {
      forall t | t in l.tracks ensures Identifiable(t) {
        var p :| 0 <= p < |InOrder(l)| && InOrder(l)[p] == t;
        assert TracksMatch(InOrder(l)[p], InOrder(r)[p]);
      }
    }
  }

  lemma MatchingIsIdentifiable(l: Playlist, r: Playlist)
    requires CopiesMatch(l, r)
    ensures SameSongs(l, r) && AllIdentifiable(l) && AllIdentifiable(r)
  {
    assert SameSongs(l, r);
    SameSongsMatch(l, r);
    CopiesMatchSymmetric(l, r);
    SameSongsMatch(r, l);
  }

  /** The code's test on all pairs is the documented meaning for identifiable tracks. */
  lemma AllMatchMeans(members: seq<Playlist>)
    requires |members| > 1
    ensures AllMatch(members) <==> AllAgree(members) && forall i :: 0 <= i < |members| ==> AllIdentifiable(members[i])
  {
    if AllMatch(members) {
      forall i, j | 0 <= i < j < |members|
        ensures SameSongs(members[i], members[j]) && AllIdentifiable(members[i]) && AllIdentifiable(members[j])
      {
        MatchingIsIdentifiable(members[i], members[j]);
      }
      forall i | 0 <= i < |members| ensures AllIdentifiable(members[i]) {
        var j := if i == 0 then 1 else 0;
        MatchingIsIdentifiable(members[if i < j then i else j], members[if i < j then j else i]);
      }
    }
    if AllAgree(members) && forall i :: 0 <= i < |members| ==> AllIdentifiable(members[i]) {
      forall i, j | 0 <= i < j < |members| ensures CopiesMatch(members[i], members[j]) {
        SameSongsMatch(members[i], members[j]);
      }
    }
  }

  /** What copies matching the first say about the others: their tracks are identifiable. */
  lemma FirstMatchesIdentify(members: seq<Playlist>)
    requires |members| > 1 && MatchFirst(members)
    ensures forall i :: 0 <= i < |members| ==> AllIdentifiable(members[i])
    ensures forall i :: 0 <= i < |members| ==> |InOrder(members[i])| == |InOrder(members[0])|
  {
    forall i | 0 <= i < |members|
      ensures AllIdentifiable(members[i]) && |InOrder(members[i])| == |InOrder(members[0])|
    {
      var j := if i == 0 then 1 else i;
      assert CopiesMatch(members[0], members[j]);
      MatchingIsIdentifiable(members[0], members[j]);
    }
  }

  /**
   When the verdict is the documented one. Copies that have the same songs in the same order are called
   aligned exactly when the first one's tracks are all identifiable. Copies called aligned have the
   same songs in the same order exactly when every position is uniform.
   */
  lemma VerdictExactly(members: seq<Playlist>)
    requires |members| > 1 && SongsFollow(members)
    ensures AllAgree(members) ==> (MatchFirst(members) <==> AllIdentifiable(members[0]))
    ensures MatchFirst(members) ==> (AllAgree(members) <==> AllUniform(members))
  {
    if AllAgree(members) {
      forall j | 1 <= j < |members| ensures CopiesMatch(members[0], members[j]) <==> AllIdentifiable(members[0]) {
        SameSongsMatch(members[0], members[j]);
      }
      assert MatchFirst(members) ==> CopiesMatch(members[0], members[1]);
    }
    if MatchFirst(members) {
      FirstMatchesIdentify(members);
      AllMatchMeans(members);
      AllMatchExactly(members);
    }
  }

  /**
   The verdict is aligned whichever copy comes first exactly when all copies have the same songs in the
   same order and all their tracks are identifiable.
   */
  lemma AlignedInEveryOrder(members: seq<Playlist>)
    requires |members| > 1
    ensures (forall i :: 0 <= i < |members| ==> MatchFirst(FirstIs(members, i))) <==>
            AllAgree(members) && forall i :: 0 <= i < |members| ==> AllIdentifiable(members[i])
  {
    AllMatchFromFront(members);
    AllMatchMeans(members);
  }

  lemma OneInOrder(m: Playlist, t: Track)
    requires m.tracks == [t]
    ensures InOrder(m) == [t]
  {
    Sorting.SortMembers(PositionRank, m.tracks);
    assert InOrder(m)[0] in InOrder(m);
  }

  /** Two identical copies of a track that cannot be identified are called drifted. */
  lemma IdenticalCopiesDrift(a: Playlist, b: Playlist, t: Track)
    requires a.tracks == [t] && b.tracks == [t] && !Identifiable(t)
    ensures AllAgree([a, b]) && !MatchFirst([a, b]) && !MatchFirst([b, a])
  {
    OneInOrder(a, t);
    OneInOrder(b, t);
    assert SameSongs(a, b);
    SameSongsMatch(a, b);
    CopiesMatchSymmetric(a, b);
    assert t in a.tracks;
    assert [a, b][1] == b && [b, a][1] == a;
  }

  /**
   Two recordings of one song and a third copy that names no recording: aligned when that copy comes
   first, drifted when it does not.
   */
  lemma VerdictDependsOnOrder(a: Playlist, b: Playlist, c: Playlist, t: Track, u: Track, v: Track)
    requires a.tracks == [t] && b.tracks == [u] && c.tracks == [v]
    requires SameSong(t, u) && SameSong(u, v)
    requires t.isrc.Some? && u.isrc.None? && v.isrc.Some? && t.isrc != v.isrc
    ensures MatchFirst([b, a, c]) && !MatchFirst([a, b, c]) && !AllAgree([b, a, c])
  {
    OneInOrder(a, t);
    OneInOrder(b, u);
    OneInOrder(c, v);
    assert "song:" + u.words.value.song in PortableKeys(u) * PortableKeys(t);
    assert "song:" + u.words.value.song in PortableKeys(u) * PortableKeys(v);
    assert TracksMatch(u, t) && TracksMatch(u, v) && !TracksMatch(t, v);
    assert [a, b, c][2] == c && [b, a, c][1] == a;
    assert !CopiesMatch(a, c);
    assert !SameSongs(a, c);
    assert !SameSongs([b, a, c][1], [b, a, c][2]);
  }
}
