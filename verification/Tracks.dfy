/** Tracks, their portable match keys, and the playlists that hold them. */
module Tracks {
  import opened Text

  /** A playlist's member key, by its rank in Python's string order. */
  type Key = nat

  datatype Account = Account(provider: string, id: string)

  /** The normalized title, artist, album and duration of a track that has a title and an artist. */
  datatype Words = Words(sig: string, song: string)

  /** `isrc` is already upper-cased; `hash` is the digest used when a track has no portable key. */
  datatype Track = Track(isrc: Option<string>, words: Option<Words>, hash: string, position: Option<int>)

  /** `normalName` is the playlist's name after `normalize_text`. */
  datatype Playlist = Playlist(key: Key, hasId: bool, account: Account, kind: string, normalName: string,
          tracks: seq<Track>)

  function Isrcs(t: Track): set<string> {
    if t.isrc.Some? then {t.isrc.value} else {}
  }

  function PortableKeys(t: Track): set<string> {
    (if t.isrc.Some? then {"isrc:" + t.isrc.value} else {}) +
    (if t.words.Some? then {"sig:" + t.words.value.sig, "song:" + t.words.value.song} else {})
  }

  predicate TracksMatch(l: Track, r: Track) {
    if Isrcs(l) != {} && Isrcs(r) != {} then Isrcs(l) * Isrcs(r) != {}
    else PortableKeys(l) * PortableKeys(r) != {}
  }

  predicate PlaylistsOverlap(l: Playlist, r: Playlist) {
    exists s, t :: s in l.tracks && t in r.tracks && TracksMatch(s, t)
  }

  lemma OverlapSymmetric(l: Playlist, r: Playlist)
    ensures PlaylistsOverlap(l, r) == PlaylistsOverlap(r, l)
  {
    assert forall s, t :: TracksMatch(s, t) == TracksMatch(t, s) by {
      forall s, t ensures TracksMatch(s, t) == TracksMatch(t, s) {
        assert Isrcs(s) * Isrcs(t) == Isrcs(t) * Isrcs(s);
        assert PortableKeys(s) * PortableKeys(t) == PortableKeys(t) * PortableKeys(s);
      }
    }
  }

  predicate HasPrefix(prefix: string, s: string) {
    prefix <= s
  }

  function WithPrefix(prefix: string, keys: set<string>): set<string> {
    set k | k in keys && HasPrefix(prefix, k)
  }

  /** ISRC keys rank before signature keys, and those before song keys. */
  function KindRank(k: string): nat {
    if HasPrefix("isrc:", k) then 0
    else if HasPrefix("sig:", k) then 1
    else if HasPrefix("song:", k) then 2
    else 3
  }

  /** The least key of the best kind that occurs. */
  function Preferred(keys: set<string>): (r: Option<string>)
    ensures r.None? <==> forall k :: k in keys ==> KindRank(k) == 3
    ensures r.Some? ==> r.value in keys && KindRank(r.value) < 3
    ensures r.Some? ==> forall k :: k in keys ==>
              KindRank(r.value) < KindRank(k) || (KindRank(r.value) == KindRank(k) && Leq(r.value, k))
  {
    assert forall p, k :: k in WithPrefix(p, keys) <==> k in keys && HasPrefix(p, k);
    if WithPrefix("isrc:", keys) != {} then Some(Least(WithPrefix("isrc:", keys)))
    else if WithPrefix("sig:", keys) != {} then Some(Least(WithPrefix("sig:", keys)))
    else if WithPrefix("song:", keys) != {} then Some(Least(WithPrefix("song:", keys)))
    else None
  }

  function TrackIdentity(t: Track): string {
    match Preferred(PortableKeys(t))
    case Some(k) => k
    case None => "fallback:" + t.hash
  }

  function PreferredKey(keys: set<string>, t: Track): string {
    match Preferred(keys)
    case Some(k) => k
    case None => TrackIdentity(t)
  }

  /** The keys a track brings to its cluster. */
  function ClusterKeys(t: Track): set<string> {
    if PortableKeys(t) != {} then PortableKeys(t) else {TrackIdentity(t)}
  }

  /** What upper-casing and normalization leave in a track's keys. */
  ghost predicate Normalized(t: Track) {
    && (t.isrc.Some? ==> forall c :: c in t.isrc.value ==> !('a' <= c <= 'z'))
    && (t.words.Some? ==> ':' !in t.words.value.sig && ':' !in t.words.value.song)
    && ':' !in t.hash
  }
}
