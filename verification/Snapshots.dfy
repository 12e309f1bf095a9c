/** Playlist snapshots with occurrence-numbered tokens, their diff, and mapping carry-over. */
module Snapshots {
  import opened Text
  import opened Counters
  import opened Sorting

  /** A source track with its identity already derived. */
  datatype SourceTrack = SourceTrack(migratable: bool, identity: string, position: Option<int>)

  datatype Entry = Entry(token: string, identity: string, occurrence: nat, index: nat, position: int)

  function Token(identity: string, occurrence: nat): string {
    identity + ['#'] + Digits(occurrence)
  }

  lemma DigitsHaveNoHash(n: nat)
    ensures '#' !in Digits(n)
  {
  }

  /** A token determines its pair: split at the last `#`. */
  lemma TokenInjective(a: string, m: nat, b: string, n: nat)
    requires Token(a, m) == Token(b, n)
    ensures a == b && m == n
  {
    DigitsHaveNoHash(m);
    DigitsHaveNoHash(n);
    SplitAtLast(a, Digits(m), b, Digits(n), '#');
    DigitsInjective(m, n);
  }

  function Identities(entries: seq<Entry>): (r: seq<string>)
    ensures |r| == |entries| && forall i :: 0 <= i < |r| ==> r[i] == entries[i].identity
  {
    seq(|entries|, i requires 0 <= i < |entries| => entries[i].identity)
  }

  ghost function Bag(entries: seq<Entry>): multiset<string> {
    multiset(Identities(entries))
  }

  lemma BagSnoc(entries: seq<Entry>, e: Entry)
    ensures Bag(entries + [e]) == Bag(entries) + multiset{e.identity}
  {
    assert Identities(entries + [e]) == Identities(entries) + [e.identity];
  }

  // ----- Building

  ghost function NewEntry(before: seq<Entry>, index: nat, t: SourceTrack): Entry {
    var occurrence := Bag(before)[t.identity];
    Entry(Token(t.identity, occurrence), t.identity, occurrence, index,
          if t.position.Some? then t.position.value else index)
  }

  ghost function Built(tracks: seq<SourceTrack>): seq<Entry> {
    if tracks == [] then []
    else
      var n := |tracks| - 1;
      var before := Built(tracks[..n]);
      if tracks[n].migratable then before + [NewEntry(before, n, tracks[n])] else before
  }

  method BuildPlaylistSnapshot(tracks: seq<SourceTrack>) returns (entries: seq<Entry>, unsupported: nat)
    ensures entries == Built(tracks)
    ensures ShowsAll(tracks, entries) && Numbered(entries)
    ensures unsupported == |Unsupported(tracks)|
  {
    var occurrences: map<string, nat> := map[];
    entries, unsupported := [], 0;
    for i := 0 to |tracks|
      invariant entries == Built(tracks[..i]) && |entries| + unsupported == i
      invariant Counts(occurrences, Identities(entries))
    {
      var track := tracks[i];
      assert tracks[..i + 1][..i] == tracks[..i];
      if !track.migratable {
        unsupported := unsupported + 1;
        continue;
      }
      var occurrence := CountOf(occurrences, track.identity);
      CountsSnoc(occurrences, Identities(entries), track.identity);
      occurrences := occurrences[track.identity := occurrence + 1];
      var position := if track.position.Some? then track.position.value else i;
      var entry := Entry(Token(track.identity, occurrence), track.identity, occurrence, i, position);
      assert Identities(entries + [entry]) == Identities(entries) + [track.identity];
      entries := entries + [entry];
    }
    assert tracks[..|tracks|] == tracks;
    BuiltExactly(tracks);
    BuiltNumbered(tracks);
  }

  /** The entry stands for the migratable track at its index, with that track's position or else the index. */
  ghost predicate Shows(tracks: seq<SourceTrack>, e: Entry) {
    && e.index < |tracks| && tracks[e.index].migratable
    && e.identity == tracks[e.index].identity
    && e.position == match tracks[e.index].position case Some(p) => p case None => e.index
  }

  /** The places of the tracks that cannot be synchronized. */
  ghost function Unsupported(tracks: seq<SourceTrack>): set<int> {
    set i | 0 <= i < |tracks| && !tracks[i].migratable
  }

  ghost predicate IndexedAt(entries: seq<Entry>, i: int) {
    exists k :: 0 <= k < |entries| && entries[k].index == i
  }

  /** The entries show exactly the migratable tracks, each once and in input order. */
  ghost predicate ShowsAll(tracks: seq<SourceTrack>, entries: seq<Entry>) {
    && (forall k :: 0 <= k < |entries| ==> Shows(tracks, entries[k]))
    && (forall k, l :: 0 <= k < l < |entries| ==> entries[k].index < entries[l].index)
    && (forall i :: 0 <= i < |tracks| && tracks[i].migratable ==> IndexedAt(entries, i))
    && |entries| + |Unsupported(tracks)| == |tracks|
  }

  lemma UnsupportedSnoc(tracks: seq<SourceTrack>)
    requires tracks != []
    ensures var n := |tracks| - 1;
            |Unsupported(tracks)| == |Unsupported(tracks[..n])| + if tracks[n].migratable then 0 else 1
  {
    var n := |tracks| - 1;
    var before := Unsupported(tracks[..n]);
    assert Unsupported(tracks) == before + if tracks[n].migratable then {} else {n};
  }

  lemma IndexedGrows(entries: seq<Entry>, e: Entry, i: int)
    requires IndexedAt(entries, i) || e.index == i
    ensures IndexedAt(entries + [e], i)
  {
    if e.index == i {
      assert (entries + [e])[|entries|] == e;
    } else {
      var k :| 0 <= k < |entries| && entries[k].index == i;
      assert (entries + [e])[k] == entries[k];
    }
  }

  /** A built snapshot holds exactly the migratable tracks in input order. */
  lemma {:induction false} BuiltExactly(tracks: seq<SourceTrack>)
    ensures ShowsAll(tracks, Built(tracks))
  {
    if tracks != [] {
      var n := |tracks| - 1;
      var before, after := Built(tracks[..n]), Built(tracks);
      BuiltExactly(tracks[..n]);
      UnsupportedSnoc(tracks);
      forall k | 0 <= k < |after| ensures Shows(tracks, after[k]) {
        assert k < |before| ==> Shows(tracks[..n], before[k]);
      }
      forall i | 0 <= i < |tracks| && tracks[i].migratable ensures IndexedAt(after, i) {
        assert i < n ==> tracks[..n][i].migratable;
        if tracks[n].migratable {
          IndexedGrows(before, NewEntry(before, n, tracks[n]), i);
        }
      }
    }
  }

  ghost predicate NumberedAt(entries: seq<Entry>, i: int)
    requires 0 <= i < |entries|
  {
    && entries[i].occurrence == Bag(entries[..i])[entries[i].identity]
    && entries[i].token == Token(entries[i].identity, entries[i].occurrence)
  }

  /** Every entry is numbered by how often its identity came before. */
  ghost predicate Numbered(entries: seq<Entry>) {
    forall i {:trigger NumberedAt(entries, i)} :: 0 <= i < |entries| ==> NumberedAt(entries, i)
  }

  lemma NumberedPrefix(entries: seq<Entry>, n: nat)
    requires Numbered(entries) && n <= |entries|
    ensures Numbered(entries[..n])
  {
    forall i | 0 <= i < n ensures NumberedAt(entries[..n], i) {
      assert NumberedAt(entries, i) && entries[..n][..i] == entries[..i];
    }
  }

  lemma {:induction false} BuiltNumbered(tracks: seq<SourceTrack>)
    ensures Numbered(Built(tracks))
  {
    if tracks != [] {
      var n := |tracks| - 1;
      var before := Built(tracks[..n]);
      BuiltNumbered(tracks[..n]);
      if tracks[n].migratable {
        var after := before + [NewEntry(before, n, tracks[n])];
        forall i | 0 <= i < |after| ensures NumberedAt(after, i) {
          if i < |before| {
            assert NumberedAt(before, i) && after[..i] == before[..i];
          } else {
            assert after[..i] == before;
          }
        }
      }
    }
  }

  ghost function Tokens(entries: seq<Entry>): set<string> {
    set e | e in entries :: e.token
  }

  lemma TokensSnoc(entries: seq<Entry>, e: Entry)
    ensures Tokens(entries + [e]) == Tokens(entries) + {e.token}
  {
    assert forall x :: x in entries + [e] <==> x in entries || x == e;
  }

  lemma TokenIs(identity: string, n: nat, e: Entry)
    requires e.token == Token(e.identity, e.occurrence)
    ensures Token(identity, n) == e.token <==> identity == e.identity && n == e.occurrence
  {
    if Token(identity, n) == e.token {
      TokenInjective(identity, n, e.identity, e.occurrence);
    }
  }

  /** The tokens of a numbered list are its identities counted off from zero. */
  lemma {:induction false} TokensOfNumbered(entries: seq<Entry>, identity: string, n: nat)
    requires Numbered(entries)
    ensures Token(identity, n) in Tokens(entries) <==> n < Bag(entries)[identity]
  {
    if entries != [] {
      var k := |entries| - 1;
      var e := entries[k];
      assert entries == entries[..k] + [e] && NumberedAt(entries, k);
      NumberedPrefix(entries, k);
      TokensOfNumbered(entries[..k], identity, n);
      TokensSnoc(entries[..k], e);
      BagSnoc(entries[..k], e);
      TokenIs(identity, n, e);
    }
  }

  ghost predicate DistinctTokens(entries: seq<Entry>) {
    forall i, j :: 0 <= i < j < |entries| ==> entries[i].token != entries[j].token
  }

  /** No two entries of a built snapshot share a token, duplicates of one track included. */
  lemma NumberedDistinct(entries: seq<Entry>)
    requires Numbered(entries)
    ensures DistinctTokens(entries)
  {
    forall i, j | 0 <= i < j < |entries| ensures entries[i].token != entries[j].token {
      var e := entries[j];
      assert NumberedAt(entries, j);
      NumberedPrefix(entries, j);
      TokensOfNumbered(entries[..j], e.identity, e.occurrence);
      assert entries[..j][i] == entries[i];
      assert entries[i].token in Tokens(entries[..j]);
    }
  }

  // ----- The diff

  datatype Diff = Diff(added: seq<int>, removed: nat, reordered: nat) {
    function ChangedCount(): nat {
      |added| + removed + reordered
    }
  }

  /** Entries of the current snapshot numbered beyond what the previous one held. */
  ghost function AddedEntries(previous: multiset<string>, current: seq<Entry>): seq<Entry> {
    if current == [] then []
    else
      var n := |current| - 1;
      AddedEntries(previous, current[..n]) +
      (if Bag(current[..n])[current[n].identity] >= previous[current[n].identity] then [current[n]] else [])
  }

  function Positions(entries: seq<Entry>): (r: seq<int>)
    ensures |r| == |entries| && forall i :: 0 <= i < |r| ==> r[i] == entries[i].position
  {
    seq(|entries|, i requires 0 <= i < |entries| => entries[i].position)
  }

  ghost function SharedTokens(previous: multiset<string>, current: multiset<string>): set<string> {
    set id, k | id in previous && 0 <= k < previous[id] && k < current[id] :: Token(id, k)
  }

  function Kept(entries: seq<Entry>, shared: set<string>): seq<string> {
    if entries == [] then []
    else
      var n := |entries| - 1;
      Kept(entries[..n], shared) + (if entries[n].token in shared then [entries[n].token] else [])
  }

  function Mismatches(a: seq<string>, b: seq<string>): nat
    requires |a| == |b|
  {
    if a == [] then 0
    else
      var n := |a| - 1;
      Mismatches(a[..n], b[..n]) + if a[n] != b[n] then 1 else 0
  }

  ghost function Shared(previous: seq<Entry>, current: seq<Entry>): set<string> {
    SharedTokens(Bag(previous), Bag(current))
  }

  /** The diff, or nothing when the strict `zip` would raise. */
  ghost function DiffOf(previous: seq<Entry>, current: seq<Entry>): Option<Diff> {
    var a, b := Kept(previous, Shared(previous, current)), Kept(current, Shared(previous, current));
    if |a| != |b| then None
    else Some(Diff(Positions(AddedEntries(Bag(previous), current)), |Bag(previous) - Bag(current)|, Mismatches(a, b)))
  }

  // ----- Properties of the diff

  /** Shared tokens are exactly those in both snapshots. */
  lemma SharedIsIntersection(previous: seq<Entry>, current: seq<Entry>)
    requires Numbered(previous) && Numbered(current)
    ensures Shared(previous, current) == Tokens(previous) * Tokens(current)
  {
    var s := Shared(previous, current);
    forall t ensures t in s <==> t in Tokens(previous) && t in Tokens(current) {
      if t in s {
        var id, k: nat :| id in Bag(previous) && k < Bag(previous)[id] && k < Bag(current)[id] && t == Token(id, k);
        TokensOfNumbered(previous, id, k);
        TokensOfNumbered(current, id, k);
      }
      if t in Tokens(previous) && t in Tokens(current) {
        var i :| 0 <= i < |previous| && previous[i].token == t;
        assert NumberedAt(previous, i);
        TokensOfNumbered(previous, previous[i].identity, previous[i].occurrence);
        TokensOfNumbered(current, previous[i].identity, previous[i].occurrence);
      }
    }
  }

  lemma {:induction false} KeptLists(entries: seq<Entry>, shared: set<string>)
    requires DistinctTokens(entries)
    ensures NoDuplicates(Kept(entries, shared))
    ensures ToSet(Kept(entries, shared)) == Tokens(entries) * shared
  {
    if entries != [] {
      var n := |entries| - 1;
      KeptLists(entries[..n], shared);
      assert entries == entries[..n] + [entries[n]];
      TokensSnoc(entries[..n], entries[n]);
      var before := Kept(entries[..n], shared);
      assert forall i :: 0 <= i < |before| ==> before[i] in ToSet(before);
      assert forall x :: x in before + [entries[n].token] <==> x in before || x == entries[n].token;
      assert ToSet(before + [entries[n].token]) == ToSet(before) + {entries[n].token};
    }
  }

  lemma {:induction false} NoDuplicatesLength(s: seq<string>)
    requires NoDuplicates(s)
    ensures |ToSet(s)| == |s|
  {
    if s != [] {
      var n := |s| - 1;
      NoDuplicatesLength(s[..n]);
      assert s == s[..n] + [s[n]];
      assert forall x :: x in s <==> x in s[..n] || x == s[n];
      assert ToSet(s) == ToSet(s[..n]) + {s[n]};
    }
  }

  lemma {:induction false} MismatchCounted(a: seq<string>, b: seq<string>, i: nat)
    requires |a| == |b| && i < |a| && a[i] != b[i]
    ensures Mismatches(a, b) >= 1
  {
    var n := |a| - 1;
    if i < n {
      MismatchCounted(a[..n], b[..n], i);
    }
  }

  lemma {:induction false} TwoMismatches(a: seq<string>, b: seq<string>, i: nat, j: nat)
    requires |a| == |b| && i < j < |a| && a[i] != b[i] && a[j] != b[j]
    ensures Mismatches(a, b) >= 2
  {
    var n := |a| - 1;
    if j < n {
      TwoMismatches(a[..n], b[..n], i, j);
    } else {
      MismatchCounted(a[..n], b[..n], i);
    }
  }

  lemma {:induction false} NoMismatches(a: seq<string>, b: seq<string>)
    requires |a| == |b|
    ensures Mismatches(a, b) == 0 <==> a == b
  {
    if a != [] {
      var n := |a| - 1;
      NoMismatches(a[..n], b[..n]);
      assert a == a[..n] + [a[n]] && b == b[..n] + [b[n]];
    }
  }

  /** Two orders of one set of distinct tokens never differ in exactly one place. */
  lemma NeverOneMismatch(a: seq<string>, b: seq<string>)
    requires |a| == |b| && NoDuplicates(a) && NoDuplicates(b) && ToSet(a) == ToSet(b)
    ensures Mismatches(a, b) != 1
  {
    NoMismatches(a, b);
    if a != b {
      var i :| 0 <= i < |a| && a[i] != b[i];
      assert a[i] in ToSet(b);
      var j :| 0 <= j < |b| && b[j] == a[i];
      assert a[j] != b[j];
      if i < j {
        TwoMismatches(a, b, i, j);
      } else {
        TwoMismatches(a, b, j, i);
      }
    }
  }

  /** For built snapshots the diff always exists, and a lone reorder is impossible. */
  lemma DiffExists(previous: seq<Entry>, current: seq<Entry>)
    requires Numbered(previous) && Numbered(current)
    ensures var shared := Tokens(previous) * Tokens(current);
            && ToSet(Kept(previous, Shared(previous, current))) == shared
            && ToSet(Kept(current, Shared(previous, current))) == shared
            && NoDuplicates(Kept(previous, Shared(previous, current)))
            && NoDuplicates(Kept(current, Shared(previous, current)))
    ensures DiffOf(previous, current).Some? && DiffOf(previous, current).value.reordered != 1
  {
    SharedIsIntersection(previous, current);
    NumberedDistinct(previous);
    NumberedDistinct(current);
    var shared := Shared(previous, current);
    var a, b := Kept(previous, shared), Kept(current, shared);
    KeptLists(previous, shared);
    KeptLists(current, shared);
    assert ToSet(a) == shared && ToSet(b) == shared;
    NoDuplicatesLength(a);
    NoDuplicatesLength(b);
    NeverOneMismatch(a, b);
  }

  /** What is reported as added is, as a bag of identities, current minus previous. */
  lemma {:induction false} AddedBag(previous: multiset<string>, current: seq<Entry>)
    ensures Bag(AddedEntries(previous, current)) == Bag(current) - previous
  {
    if current != [] {
      var n := |current| - 1;
      var e := current[n];
      AddedBag(previous, current[..n]);
      assert current == current[..n] + [e];
      BagSnoc(current[..n], e);
      BagSnoc(AddedEntries(previous, current[..n]), e);
      assert AddedEntries(previous, current[..n]) + [] == AddedEntries(previous, current[..n]);
    }
  }

  lemma BagSize(entries: seq<Entry>)
    ensures |Bag(entries)| == |entries|
  {
  }

  /**
   Conservation: taking the removed identities from the previous snapshot and adding the reported
   ones gives the current snapshot, with the reported counts.
   */
  lemma DiffConserves(previous: seq<Entry>, current: seq<Entry>)
    requires DiffOf(previous, current).Some?
    ensures var d := DiffOf(previous, current).value;
            var removed, added := Bag(previous) - Bag(current), Bag(AddedEntries(Bag(previous), current));
            && Bag(current) == Bag(previous) - removed + added
            && removed <= Bag(previous)
            && d.removed == |removed| && |d.added| == |added|
            && |previous| + |d.added| == |current| + d.removed
  {
    AddedBag(Bag(previous), current);
    BagSize(AddedEntries(Bag(previous), current));
    var p, c := Bag(previous), Bag(current);
    var removed, added := p - c, c - p;
    assert p - removed + added == c;
    assert p + added == c + removed;
    BagSize(previous);
    BagSize(current);
    assert |p + added| == |p| + |added| && |c + removed| == |c| + |removed|;
  }

  // ----- The diff over tokens

  lemma {:induction false} FilterAgrees(p: Entry -> bool, q: Entry -> bool, entries: seq<Entry>)
    requires forall e :: e in entries ==> p(e) == q(e)
    ensures Filter(p, entries) == Filter(q, entries)
  {
    if entries != [] {
      var n := |entries| - 1;
      assert entries == entries[..n] + [entries[n]];
      FilterAgrees(p, q, entries[..n]);
    }
  }

  ghost function NotIn(tokens: set<string>): Entry -> bool {
    (e: Entry) => e.token !in tokens
  }

  ghost function IsIn(tokens: set<string>): Entry -> bool {
    (e: Entry) => e.token in tokens
  }

  lemma NumberedPast(previous: seq<Entry>, current: seq<Entry>, i: nat)
    requires Numbered(previous) && Numbered(current) && i < |current|
    ensures current[i].token in Tokens(previous) <==>
            Bag(current[..i])[current[i].identity] < Bag(previous)[current[i].identity]
  {
    assert NumberedAt(current, i);
    TokensOfNumbered(previous, current[i].identity, current[i].occurrence);
  }

  /** The added entries are those whose token the previous snapshot lacks, in order. */
  lemma {:induction false} AddedAreNew(previous: seq<Entry>, current: seq<Entry>)
    requires Numbered(previous) && Numbered(current)
    ensures AddedEntries(Bag(previous), current) == Filter(NotIn(Tokens(previous)), current)
  {
    if current != [] {
      var n := |current| - 1;
      NumberedPrefix(current, n);
      AddedAreNew(previous, current[..n]);
      NumberedPast(previous, current, n);
    }
  }

  lemma {:induction false} KeptAreFiltered(entries: seq<Entry>, shared: set<string>)
    ensures |Kept(entries, shared)| == |Filter(IsIn(shared), entries)|
    ensures forall i :: 0 <= i < |Kept(entries, shared)| ==>
              Kept(entries, shared)[i] == Filter(IsIn(shared), entries)[i].token
  {
    if entries != [] {
      KeptAreFiltered(entries[..|entries| - 1], shared);
    }
  }

  ghost function Differing(a: seq<string>, b: seq<string>): set<int>
    requires |a| == |b|
  {
    set i | 0 <= i < |a| && a[i] != b[i]
  }

  lemma {:induction false} MismatchesCounted(a: seq<string>, b: seq<string>)
    requires |a| == |b|
    ensures Mismatches(a, b) == |Differing(a, b)|
  {
    if a != [] {
      var n := |a| - 1;
      MismatchesCounted(a[..n], b[..n]);
      assert Differing(a, b) == Differing(a[..n], b[..n]) + if a[n] != b[n] then {n} else {};
    }
  }

  /** The places where the common entries of the two snapshots come in another order. */
  ghost function Moved(previous: seq<Entry>, current: seq<Entry>): set<int> {
    var a, b := Filter(IsIn(Tokens(current)), previous), Filter(IsIn(Tokens(previous)), current);
    set i | 0 <= i < |a| && i < |b| && a[i].token != b[i].token
  }

  lemma MovedIsReordered(previous: seq<Entry>, current: seq<Entry>)
    requires Numbered(previous) && Numbered(current) && DiffOf(previous, current).Some?
    ensures DiffOf(previous, current).value.reordered == |Moved(previous, current)|
  {
    var shared := Shared(previous, current);
    SharedIsIntersection(previous, current);
    TokensMembers(previous);
    TokensMembers(current);
    FilterAgrees(IsIn(shared), IsIn(Tokens(current)), previous);
    FilterAgrees(IsIn(shared), IsIn(Tokens(previous)), current);
    KeptAreFiltered(previous, shared);
    KeptAreFiltered(current, shared);
    var a, b := Kept(previous, shared), Kept(current, shared);
    MismatchesCounted(a, b);
    assert Differing(a, b) == Moved(previous, current);
  }

  lemma TokensMembers(entries: seq<Entry>)
    ensures forall e :: e in entries ==> e.token in Tokens(entries)
  {
  }

  /**
   What a diff reports, over the tokens of two built snapshots: the positions of the current entries
   the previous snapshot lacks, how many previous entries the current one lacks, how many places of
   the common entries differ, and their sum.
   */
  lemma DiffExactly(previous: seq<Entry>, current: seq<Entry>)
    requires Numbered(previous) && Numbered(current)
    ensures DiffOf(previous, current).Some?
    ensures var d := DiffOf(previous, current).value;
            && d.added == Positions(Filter(NotIn(Tokens(previous)), current))
            && d.removed == |Filter(NotIn(Tokens(current)), previous)|
            && d.reordered == |Moved(previous, current)|
            && d.ChangedCount() == |d.added| + d.removed + d.reordered
  {
    DiffExists(previous, current);
    AddedAreNew(previous, current);
    AddedAreNew(current, previous);
    AddedBag(Bag(current), previous);
    BagSize(AddedEntries(Bag(current), previous));
    MovedIsReordered(previous, current);
  }

  lemma EqualBagsShareAll(previous: seq<Entry>, current: seq<Entry>)
    requires Numbered(previous) && Numbered(current) && Bag(previous) == Bag(current)
    ensures Tokens(previous) == Tokens(current)
  {
    forall t ensures t in Tokens(previous) <==> t in Tokens(current) {
      if t in Tokens(previous) {
        var i :| 0 <= i < |previous| && previous[i].token == t;
        assert NumberedAt(previous, i);
        TokensOfNumbered(previous, previous[i].identity, previous[i].occurrence);
        TokensOfNumbered(current, previous[i].identity, previous[i].occurrence);
      }
      if t in Tokens(current) {
        var i :| 0 <= i < |current| && current[i].token == t;
        assert NumberedAt(current, i);
        TokensOfNumbered(current, current[i].identity, current[i].occurrence);
        TokensOfNumbered(previous, current[i].identity, current[i].occurrence);
      }
    }
  }

  function AllTokens(entries: seq<Entry>): (r: seq<string>)
    ensures |r| == |entries| && forall i :: 0 <= i < |r| ==> r[i] == entries[i].token
  {
    seq(|entries|, i requires 0 <= i < |entries| => entries[i].token)
  }

  lemma {:induction false} KeptAll(entries: seq<Entry>, shared: set<string>)
    requires Tokens(entries) <= shared
    ensures Kept(entries, shared) == AllTokens(entries)
  {
    if entries != [] {
      var n := |entries| - 1;
      assert entries == entries[..n] + [entries[n]];
      TokensSnoc(entries[..n], entries[n]);
      KeptAll(entries[..n], shared);
      assert AllTokens(entries) == AllTokens(entries[..n]) + [entries[n].token];
    }
  }

  lemma SameIdentitiesSameTokens(previous: seq<Entry>, current: seq<Entry>)
    requires Numbered(previous) && Numbered(current) && Identities(previous) == Identities(current)
    ensures AllTokens(previous) == AllTokens(current)
  {
    forall i | 0 <= i < |previous| ensures previous[i].token == current[i].token {
      assert NumberedAt(previous, i) && NumberedAt(current, i);
      assert Identities(previous[..i]) == Identities(previous)[..i];
      assert Identities(current[..i]) == Identities(current)[..i];
      assert previous[i].identity == Identities(previous)[i] && current[i].identity == Identities(current)[i];
    }
  }

  lemma SameTokensSameIdentities(previous: seq<Entry>, current: seq<Entry>)
    requires Numbered(previous) && Numbered(current) && AllTokens(previous) == AllTokens(current)
    ensures Identities(previous) == Identities(current)
  {
    assert |previous| == |AllTokens(previous)| == |current|;
    forall i | 0 <= i < |previous| ensures previous[i].identity == current[i].identity {
      assert NumberedAt(previous, i) && NumberedAt(current, i);
      assert AllTokens(previous)[i] == AllTokens(current)[i];
      TokenInjective(previous[i].identity, previous[i].occurrence, current[i].identity, current[i].occurrence);
    }
  }

  /** No change is reported exactly when the two snapshots list the same identities in the same order. */
  lemma UnchangedExactly(previous: seq<Entry>, current: seq<Entry>)
    requires Numbered(previous) && Numbered(current)
    ensures DiffOf(previous, current).Some?
    ensures DiffOf(previous, current).value.ChangedCount() == 0 <==> Identities(previous) == Identities(current)
  {
    DiffExists(previous, current);
    DiffConserves(previous, current);
    var d := DiffOf(previous, current).value;
    if d.ChangedCount() == 0 {
      assert Bag(previous) == Bag(current);
    }
    if Bag(previous) == Bag(current) {
      EqualBagsShareAll(previous, current);
      SharedIsIntersection(previous, current);
      var shared := Shared(previous, current);
      KeptAll(previous, shared);
      KeptAll(current, shared);
      NoMismatches(AllTokens(previous), AllTokens(current));
      if Identities(previous) == Identities(current) {
        SameIdentitiesSameTokens(previous, current);
      }
      if AllTokens(previous) == AllTokens(current) {
        SameTokensSameIdentities(previous, current);
      }
      AddedBag(Bag(previous), current);
      assert Bag(current) - Bag(previous) == multiset{};
    }
  }

  lemma {:induction false} MismatchesSymmetric(a: seq<string>, b: seq<string>)
    requires |a| == |b|
    ensures Mismatches(a, b) == Mismatches(b, a)
  {
    if a != [] {
      MismatchesSymmetric(a[..|a| - 1], b[..|b| - 1]);
    }
  }

  /** Swapping the snapshots swaps added with removed and keeps the reordered count. */
  lemma DiffSwaps(previous: seq<Entry>, current: seq<Entry>)
    requires Numbered(previous) && Numbered(current)
    ensures DiffOf(previous, current).Some? && DiffOf(current, previous).Some?
    ensures var d, e := DiffOf(previous, current).value, DiffOf(current, previous).value;
            |d.added| == e.removed && d.removed == |e.added| && d.reordered == e.reordered
  {
    DiffExists(previous, current);
    DiffExists(current, previous);
    DiffConserves(previous, current);
    DiffConserves(current, previous);
    AddedBag(Bag(previous), current);
    AddedBag(Bag(current), previous);
    SharedIsIntersection(previous, current);
    SharedIsIntersection(current, previous);
    assert Shared(previous, current) == Shared(current, previous);
    MismatchesSymmetric(Kept(previous, Shared(previous, current)), Kept(current, Shared(previous, current)));
  }

  // ----- Carrying target mappings over

  type Mappings = map<string, Option<string>>

  ghost function Carried(previous: seq<Entry>, current: seq<Entry>, mappings: Mappings): Mappings {
    map t | t in mappings && t in Tokens(previous) && t in Tokens(current) :: mappings[t]
  }

  lemma LastIsNew(entries: seq<Entry>)
    requires DistinctTokens(entries) && entries != []
    ensures entries[|entries| - 1] !in entries[..|entries| - 1]
  {
    var n := |entries| - 1;
    forall j | 0 <= j < n ensures entries[..n][j] != entries[n] {
    }
  }

  lemma {:induction false} AddedMembers(previous: multiset<string>, current: seq<Entry>, i: nat)
    requires i < |current| && DistinctTokens(current)
    ensures current[i] in AddedEntries(previous, current) <==>
            Bag(current[..i])[current[i].identity] >= previous[current[i].identity]
  {
    var n := |current| - 1;
    var before := current[..n];
    LastIsNew(current);
    if i < n {
      AddedMembers(previous, before, i);
      assert before[i] == current[i] && before[..i] == current[..i];
      AddedLast(previous, current, current[i]);
    } else {
      AddedOrigin(previous, before);
      AddedLast(previous, current, current[n]);
    }
  }

  lemma AddedLast(previous: multiset<string>, current: seq<Entry>, e: Entry)
    requires current != []
    ensures var n := |current| - 1;
            e in AddedEntries(previous, current) <==>
              e in AddedEntries(previous, current[..n])
              || (e == current[n] && Bag(current[..n])[e.identity] >= previous[e.identity])
  {
  }

  lemma {:induction false} AddedOrigin(previous: multiset<string>, current: seq<Entry>)
    ensures forall e :: e in AddedEntries(previous, current) ==> e in current
  {
    if current != [] {
      var n := |current| - 1;
      AddedOrigin(previous, current[..n]);
      assert current == current[..n] + [current[n]];
    }
  }

  /** When every previous token has a mapping, the tokens left without one are exactly the added entries'. */
  lemma UnmappedAreAdded(previous: seq<Entry>, current: seq<Entry>, mappings: Mappings, i: nat)
    requires Numbered(previous) && Numbered(current) && i < |current|
    requires forall t :: t in Tokens(previous) ==> t in mappings
    ensures current[i].token !in Carried(previous, current, mappings) <==>
            current[i] in AddedEntries(Bag(previous), current)
  {
    NumberedDistinct(current);
    AddedMembers(Bag(previous), current, i);
    assert NumberedAt(current, i);
    TokensOfNumbered(previous, current[i].identity, current[i].occurrence);
    assert current[i] in current;
  }

  /** Carrying through an intermediate snapshot never keeps more than carrying directly. */
  lemma CarryThroughIsSubmap(a: seq<Entry>, b: seq<Entry>, c: seq<Entry>, mappings: Mappings, t: string)
    requires t in Carried(b, c, Carried(a, b, mappings))
    ensures t in Carried(a, c, mappings) && Carried(a, c, mappings)[t] == Carried(b, c, Carried(a, b, mappings))[t]
    ensures t in Tokens(b)
  {
  }

  // ----- The loops

  method CountIdentities(entries: seq<Entry>) returns (counts: map<string, nat>)
    ensures Counts(counts, Identities(entries))
  {
    counts := map[];
    for i := 0 to |entries|
      invariant Counts(counts, Identities(entries[..i]))
    {
      var id := entries[i].identity;
      assert Identities(entries[..i + 1]) == Identities(entries[..i]) + [id];
      CountsSnoc(counts, Identities(entries[..i]), id);
      counts := counts[id := CountOf(counts, id) + 1];
    }
    assert entries[..|entries|] == entries;
  }

  lemma AddedSnoc(previous: multiset<string>, before: seq<Entry>, e: Entry)
    ensures Positions(AddedEntries(previous, before + [e])) ==
            Positions(AddedEntries(previous, before)) +
            (if Bag(before)[e.identity] >= previous[e.identity] then [e.position] else [])
  {
    assert (before + [e])[..|before|] == before;
    var a := AddedEntries(previous, before);
    assert Positions(a + [e]) == Positions(a) + [e.position];
    assert a + [] == a;
  }

  lemma SeenSnoc(seen: map<string, nat>, before: seq<Entry>, e: Entry)
    requires Counts(seen, Identities(before))
    ensures Counts(seen[e.identity := CountOf(seen, e.identity) + 1], Identities(before + [e]))
  {
    assert Identities(before + [e]) == Identities(before) + [e.identity];
    CountsSnoc(seen, Identities(before), e.identity);
  }

  lemma CountIsBag(counts: map<string, nat>, entries: seq<Entry>, id: string)
    requires Counts(counts, Identities(entries))
    ensures CountOf(counts, id) == Bag(entries)[id]
  {
  }

  method AddedPositions(previousCounts: map<string, nat>, ghost previous: seq<Entry>,
                        current: seq<Entry>) returns (added: seq<int>)
    requires Counts(previousCounts, Identities(previous))
    ensures added == Positions(AddedEntries(Bag(previous), current))
  {
    var seen: map<string, nat> := map[];
    added := [];
    for i := 0 to |current|
      invariant Counts(seen, Identities(current[..i]))
      invariant added == Positions(AddedEntries(Bag(previous), current[..i]))
    {
      var e := current[i];
      assert current[..i + 1] == current[..i] + [e];
      AddedSnoc(Bag(previous), current[..i], e);
      CountIsBag(seen, current[..i], e.identity);
      CountIsBag(previousCounts, previous, e.identity);
      SeenSnoc(seen, current[..i], e);
      var occurrence := CountOf(seen, e.identity);
      seen := seen[e.identity := occurrence + 1];
      if occurrence >= CountOf(previousCounts, e.identity) {
        added := added + [e.position];
      }
    }
    assert current[..|current|] == current;
  }

  method RemovedCount(previousCounts: map<string, nat>, currentCounts: map<string, nat>,
                      ghost previous: seq<Entry>, ghost current: seq<Entry>) returns (removed: nat)
    requires Counts(previousCounts, Identities(previous)) && Counts(currentCounts, Identities(current))
    ensures removed == |Bag(previous) - Bag(current)|
  {
    removed := 0;
    var pending := previousCounts.Keys;
    ghost var target := Bag(previous) - Bag(current);
    ghost var counted: multiset<string> := multiset{};
    while pending != {}
      invariant pending <= previousCounts.Keys
      invariant removed == |counted|
      invariant forall id :: counted[id] == if id in pending then 0 else target[id]
      decreases pending
    {
      var id :| id in pending;
      pending := pending - {id};
      var p, c := previousCounts[id], CountOf(currentCounts, id);
      assert CountOf(previousCounts, id) == Bag(previous)[id];
      counted := counted[id := target[id]];
      removed := removed + if p > c then p - c else 0;
    }
    assert counted == target;
  }

  method SharedSet(previousCounts: map<string, nat>, currentCounts: map<string, nat>,
                   ghost previous: seq<Entry>, ghost current: seq<Entry>) returns (shared: set<string>)
    requires Counts(previousCounts, Identities(previous)) && Counts(currentCounts, Identities(current))
    ensures shared == Shared(previous, current)
  {
    shared := {};
    var pending := previousCounts.Keys + currentCounts.Keys;
    ghost var p, c := Bag(previous), Bag(current);
    while pending != {}
      invariant pending <= previousCounts.Keys + currentCounts.Keys
      invariant forall t :: t in shared <==>
              exists id, k: nat :: id !in pending && k < p[id] && k < c[id] && t == Token(id, k)
      decreases pending
    {
      var id :| id in pending;
      pending := pending - {id};
      var before, after := CountOf(previousCounts, id), CountOf(currentCounts, id);
      var n := if before <= after then before else after;
      shared := shared + set k | 0 <= k < n :: Token(id, k);
    }
  }

  /** The whole diff; nothing is returned where `zip(strict=True)` would raise. */
  method DiffSnapshots(previous: seq<Entry>, current: seq<Entry>) returns (d: Option<Diff>)
    ensures d == DiffOf(previous, current)
  {
    var previousCounts := CountIdentities(previous);
    var currentCounts := CountIdentities(current);
    var added := AddedPositions(previousCounts, previous, current);
    var removed := RemovedCount(previousCounts, currentCounts, previous, current);
    var shared := SharedSet(previousCounts, currentCounts, previous, current);
    var previousOrder, currentOrder := Kept(previous, shared), Kept(current, shared);
    if |previousOrder| != |currentOrder| {
      return None;
    }
    return Some(Diff(added, removed, Mismatches(previousOrder, currentOrder)));
  }

  method CarryTargetMappings(previous: seq<Entry>, current: seq<Entry>, mappings: Mappings)
    returns (carried: Mappings)
    ensures carried == Carried(previous, current, mappings)
    ensures forall t :: t in carried <==>
              t in mappings && (exists e :: e in previous && e.token == t) && (exists e :: e in current && e.token == t)
    ensures forall t :: t in carried ==> carried[t] == mappings[t]
  {
    var previousTokens := set e | e in previous :: e.token;
    carried := map[];
    for i := 0 to |current|
      invariant carried == Carried(previous, current[..i], mappings)
    {
      var token := current[i].token;
      assert current[..i + 1] == current[..i] + [current[i]];
      TokensSnoc(current[..i], current[i]);
      if token in previousTokens && token in mappings {
        carried := carried[token := mappings[token]];
      }
    }
    assert current[..|current|] == current;
  }
}
