/** Portable export filenames and their case-insensitive allocation. */
module Filenames {
  import opened Text

  const MAX_LENGTH := 96

  const PLAYLIST := "playlist"

  const WINDOWS_RESERVED: set<string> := {
    "CON", "PRN", "AUX", "NUL",
    "COM1", "COM2", "COM3", "COM4", "COM5", "COM6", "COM7", "COM8", "COM9",
    "LPT1", "LPT2", "LPT3", "LPT4", "LPT5", "LPT6", "LPT7", "LPT8", "LPT9"
  }

  predicate Alphanumeric(c: char) {
    'A' <= c <= 'Z' || 'a' <= c <= 'z' || '0' <= c <= '9'
  }

  function LowerChar(c: char): char {
    if 'A' <= c <= 'Z' then c + 32 as char else c
  }

  /** `casefold` on ASCII. */
  function Lower(s: string): (r: string)
    ensures |r| == |s| && forall i :: 0 <= i < |s| ==> r[i] == LowerChar(s[i])
  {
    seq(|s|, i requires 0 <= i < |s| => LowerChar(s[i]))
  }

  /** Every maximal run of characters outside `keep` becomes one dash. */
  function SubRuns(keep: char -> bool, s: string): string {
    if s == "" then ""
    else
      var n := |s| - 1;
      if keep(s[n]) then SubRuns(keep, s[..n]) + [s[n]]
      else if n > 0 && !keep(s[n - 1]) then SubRuns(keep, s[..n])
      else SubRuns(keep, s[..n]) + "-"
  }

  /** Without the trailing dashes. */
  function RStrip(s: string): string {
    if s != "" && s[|s| - 1] == '-' then RStrip(s[..|s| - 1]) else s
  }

  function LStrip(s: string): string {
    if s != "" && s[0] == '-' then LStrip(s[1..]) else s
  }

  predicate Allowed(c: char) {
    Alphanumeric(c) || c == '_' || c == '-'
  }

  /** The base of a name whose characters are already reduced to ASCII. */
  function FilenameBase(ascii: string): string {
    RStrip(LStrip(SubRuns(Alphanumeric, SubRuns(Allowed, ascii))))
  }

  /** `s[:n]` with Python's meaning of a negative bound. */
  function SliceTo(s: string, n: int): string {
    if n >= 0 then (if n <= |s| then s[..n] else s)
    else if -n <= |s| then s[..|s| + n] else ""
  }

  function SafeFilename(ascii: string, fallback: string): string {
    var fallbackBase := if FilenameBase(fallback) != "" then FilenameBase(fallback) else PLAYLIST;
    var base := if FilenameBase(ascii) != "" then FilenameBase(ascii) else fallbackBase;
    var cut := RStrip(SliceTo(Unreserved(base), MAX_LENGTH));
    if cut != "" then cut
    else if SliceTo(fallbackBase, MAX_LENGTH) != "" then SliceTo(fallbackBase, MAX_LENGTH)
    else PLAYLIST
  }

  // ----- What a safe name is

  /** Letters, digits and single inner dashes. */
  ghost predicate Clean(s: string) {
    && s != ""
    && (forall i :: 0 <= i < |s| ==> Alphanumeric(s[i]) || s[i] == '-')
    && s[0] != '-' && s[|s| - 1] != '-'
    && (forall i :: 0 <= i < |s| - 1 ==> s[i] != '-' || s[i + 1] != '-')
  }

  ghost predicate Dashed(s: string) {
    && (forall i :: 0 <= i < |s| ==> Alphanumeric(s[i]) || s[i] == '-')
    && (forall i :: 0 <= i < |s| - 1 ==> s[i] != '-' || s[i + 1] != '-')
  }

  lemma {:induction false} SubRunsDashed(s: string)
    ensures Dashed(SubRuns(Alphanumeric, s))
    ensures var r := SubRuns(Alphanumeric, s);
            s != "" ==> r != "" && (r[|r| - 1] == '-' <==> !Alphanumeric(s[|s| - 1]))
  {
    if s != "" {
      SubRunsDashed(s[..|s| - 1]);
    }
  }

  lemma {:induction false} RStripClean(s: string)
    requires Dashed(s)
    ensures var r := RStrip(s); Dashed(r) && r <= s && (r != "" ==> r[|r| - 1] != '-')
    ensures |s| <= |RStrip(s)| + 1
    ensures s != "" && s[0] != '-' ==> RStrip(s) != ""
    ensures s != "" && s[|s| - 1] != '-' ==> RStrip(s) == s
  {
    if s != "" && s[|s| - 1] == '-' {
      var t := s[..|s| - 1];
      assert t != "" ==> t[|t| - 1] != '-';
      RStripClean(t);
    }
  }

  lemma {:induction false} LStripClean(s: string)
    requires Dashed(s)
    ensures var r := LStrip(s); Dashed(r) && (r != "" ==> r[0] != '-')
  {
    if s != "" && s[0] == '-' {
      LStripClean(s[1..]);
    }
  }

  lemma BaseClean(ascii: string)
    ensures FilenameBase(ascii) != "" ==> Clean(FilenameBase(ascii))
  {
    var a := SubRuns(Alphanumeric, SubRuns(Allowed, ascii));
    SubRunsDashed(SubRuns(Allowed, ascii));
    LStripClean(a);
    RStripClean(LStrip(a));
  }

  lemma ReservedAreShort(s: string)
    requires s in WINDOWS_RESERVED
    ensures 3 <= |s| <= 4
  {
  }

  lemma CutClean(named: string)
    requires Clean(named)
    ensures var cut := RStrip(SliceTo(named, MAX_LENGTH));
            Clean(cut) && |cut| <= MAX_LENGTH && (|cut| < 95 ==> cut == named)
  {
    var slice := SliceTo(named, MAX_LENGTH);
    RStripClean(slice);
  }

  /** The base, moved out of the way of the reserved device names. */
  function Unreserved(base: string): string {
    if Upper(base) in WINDOWS_RESERVED then PLAYLIST + "-" + base else base
  }

  lemma UnreservedClean(base: string)
    requires Clean(base)
    ensures Clean(Unreserved(base)) && Upper(Unreserved(base)) !in WINDOWS_RESERVED
  {
    if Upper(base) in WINDOWS_RESERVED {
      assert |Unreserved(base)| > 4;
      if Upper(Unreserved(base)) in WINDOWS_RESERVED {
        ReservedAreShort(Upper(Unreserved(base)));
      }
    }
  }

  lemma CutUnreserved(named: string)
    requires Clean(named) && Upper(named) !in WINDOWS_RESERVED
    ensures Upper(RStrip(SliceTo(named, MAX_LENGTH))) !in WINDOWS_RESERVED
  {
    CutClean(named);
    var cut := RStrip(SliceTo(named, MAX_LENGTH));
    if Upper(cut) in WINDOWS_RESERVED {
      ReservedAreShort(Upper(cut));
    }
  }

  lemma PlaylistClean()
    ensures Clean(PLAYLIST)
  {
  }

  lemma CutSafe(base: string)
    requires Clean(base)
    ensures var cut := RStrip(SliceTo(Unreserved(base), MAX_LENGTH));
            Clean(cut) && cut != "" && |cut| <= MAX_LENGTH && Upper(cut) !in WINDOWS_RESERVED
  {
    UnreservedClean(base);
    CutClean(Unreserved(base));
    CutUnreserved(Unreserved(base));
  }

  /** Every exported base name is clean, at most 96 characters, and no reserved device name. */
  lemma SafeFilenameIsSafe(ascii: string, fallback: string)
    ensures var r := SafeFilename(ascii, fallback);
            Clean(r) && |r| <= MAX_LENGTH && Upper(r) !in WINDOWS_RESERVED
  {
    BaseClean(ascii);
    BaseClean(fallback);
    PlaylistClean();
    var fallbackBase := if FilenameBase(fallback) != "" then FilenameBase(fallback) else PLAYLIST;
    CutSafe(if FilenameBase(ascii) != "" then FilenameBase(ascii) else fallbackBase);
  }

  // ----- What a safe name is made of

  /** The letters and digits in order, with one dash wherever something else stood between two of them. */
  function Words(s: string): string {
    if s == "" then ""
    else
      var n := |s| - 1;
      var before := Words(s[..n]);
      if !Alphanumeric(s[n]) then before
      else if before != "" && !Alphanumeric(s[n - 1]) then before + ['-', s[n]]
      else before + [s[n]]
  }

  lemma {:induction false} AllowedFirst(s: string)
    ensures SubRuns(Alphanumeric, SubRuns(Allowed, s)) == SubRuns(Alphanumeric, s)
    ensures var r := SubRuns(Allowed, s);
            (s == "" <==> r == "") &&
            (s != "" ==> (Alphanumeric(r[|r| - 1]) <==> Alphanumeric(s[|s| - 1])))
  {
    if s != "" {
      var n := |s| - 1;
      AllowedFirst(s[..n]);
      var r, before := SubRuns(Allowed, s), SubRuns(Allowed, s[..n]);
      if r != before {
        assert r[..|r| - 1] == before;
      }
    }
  }

  lemma {:induction false} LStripSnoc(t: string, c: char)
    ensures LStrip(t + [c]) == if LStrip(t) == "" && c == '-' then "" else LStrip(t) + [c]
  {
    if t != "" && t[0] == '-' {
      assert (t + [c])[1..] == t[1..] + [c];
      LStripSnoc(t[1..], c);
    } else if t == "" {
      assert t + [c] == [c];
      assert [c][1..] == "";
    }
  }

  lemma {:induction false} WordsEnd(s: string)
    ensures Words(s) != "" ==> Words(s)[|Words(s)| - 1] != '-'
    ensures Words(s) == "" <==> forall i :: 0 <= i < |s| ==> !Alphanumeric(s[i])
  {
    if s != "" {
      WordsEnd(s[..|s| - 1]);
    }
  }

  lemma {:induction false} StrippedWords(s: string)
    ensures LStrip(SubRuns(Alphanumeric, s)) ==
            Words(s) + if s != "" && !Alphanumeric(s[|s| - 1]) && Words(s) != "" then "-" else ""
  {
    if s != "" {
      var n := |s| - 1;
      var before := SubRuns(Alphanumeric, s[..n]);
      StrippedWords(s[..n]);
      LStripSnoc(before, s[n]);
      LStripSnoc(before, '-');
    }
  }

  /** A filename base is its words. */
  lemma BaseIsWords(ascii: string)
    ensures FilenameBase(ascii) == Words(ascii)
  {
    AllowedFirst(ascii);
    StrippedWords(ascii);
    WordsEnd(ascii);
    var w := Words(ascii);
    assert (w + "-")[..|w|] == w;
    assert RStrip(w) == w;
    assert RStrip(w + "-") == RStrip(w);
  }

  /** The name before it is cut: the words, or those of the fallback, or "playlist", clear of reserved names. */
  function Named(ascii: string, fallback: string): string {
    var chosen := if Words(ascii) != "" then Words(ascii)
                  else if Words(fallback) != "" then Words(fallback) else "playlist";
    Cleared(chosen)
  }

  function Cleared(name: string): string {
    if Upper(name) in WINDOWS_RESERVED then "playlist-" + name else name
  }

  lemma ClearedIsUnreserved(name: string)
    ensures Cleared(name) == Unreserved(name)
  {
    assert PLAYLIST + "-" + name == "playlist-" + name;
  }

  /** The first `room` characters, or one fewer where the last of them would be a dash. */
  function Cut(name: string, room: nat): string
    requires room >= 1
  {
    if |name| <= room then name
    else if name[room - 1] == '-' then name[..room - 1]
    else name[..room]
  }

  lemma SliceIsCut(name: string, room: nat)
    requires Clean(name) && room >= 2
    ensures RStrip(SliceTo(name, room)) == Cut(name, room) != ""
  {
    var slice := SliceTo(name, room);
    assert Dashed(slice);
    RStripClean(slice);
    if |name| > room && name[room - 1] == '-' {
      var shorter := name[..room - 1];
      assert slice[..|slice| - 1] == shorter && shorter[|shorter| - 1] != '-';
      RStripClean(shorter);
    }
  }

  function Chosen(ascii: string, fallback: string): string {
    if FilenameBase(ascii) != "" then FilenameBase(ascii)
    else if FilenameBase(fallback) != "" then FilenameBase(fallback) else PLAYLIST
  }

  lemma ChosenClean(ascii: string, fallback: string)
    ensures Clean(Chosen(ascii, fallback))
  {
    BaseClean(ascii);
    BaseClean(fallback);
    PlaylistClean();
  }

  lemma NamedIsUnreserved(ascii: string, fallback: string)
    ensures Named(ascii, fallback) == Unreserved(Chosen(ascii, fallback))
  {
    BaseIsWords(ascii);
    BaseIsWords(fallback);
    ClearedIsUnreserved(Chosen(ascii, fallback));
  }

  lemma SafeIsStripped(ascii: string, fallback: string)
    requires RStrip(SliceTo(Unreserved(Chosen(ascii, fallback)), MAX_LENGTH)) != ""
    ensures SafeFilename(ascii, fallback) == RStrip(SliceTo(Unreserved(Chosen(ascii, fallback)), MAX_LENGTH))
  {
  }

  /** A safe filename is its name, cut to 96 characters, or to 95 where the cut would leave a dash at the end. */
  lemma SafeFilenameExactly(ascii: string, fallback: string)
    ensures SafeFilename(ascii, fallback) == Cut(Named(ascii, fallback), 96)
  {
    ChosenClean(ascii, fallback);
    UnreservedClean(Chosen(ascii, fallback));
    SliceIsCut(Unreserved(Chosen(ascii, fallback)), MAX_LENGTH);
    SafeIsStripped(ascii, fallback);
    NamedIsUnreserved(ascii, fallback);
  }

  // ----- Candidates

  predicate ValidExtension(extension: string) {
    extension != "" && forall i :: 0 <= i < |extension| ==> 'a' <= extension[i] <= 'z' || '0' <= extension[i] <= '9'
  }

  /** The name tried with sequence number `n`; number 1 is the plain name. */
  function Candidate(base: string, extension: string, n: nat): string {
    if n == 1 then base + "." + extension
    else
      var suffix := "-" + Digits(n);
      var trimmed := RStrip(SliceTo(base, MAX_LENGTH - |suffix|));
      (if trimmed != "" then trimmed else PLAYLIST) + suffix + "." + extension
  }

  lemma LowerConcat(a: string, b: string)
    ensures Lower(a + b) == Lower(a) + Lower(b)
  {
  }

  lemma LowerOfTail(extension: string, n: nat)
    requires ValidExtension(extension)
    ensures Lower(Digits(n) + "." + extension) == Digits(n) + "." + extension
    ensures '-' !in Digits(n) + "." + extension
  {
  }

  lemma LowerOfDashed(stem: string, tail: string)
    requires Lower(tail) == tail
    ensures Lower(stem + (['-'] + tail)) == Lower(stem) + ['-'] + tail
  {
    LowerConcat(stem, ['-'] + tail);
    LowerConcat(['-'], tail);
  }

  lemma Reassociate(stem: string, digits: string, extension: string)
    ensures stem + ("-" + digits) + "." + extension == stem + (['-'] + (digits + "." + extension))
  {
  }

  lemma CandidateShape(base: string, extension: string, n: nat) returns (head: string)
    requires ValidExtension(extension) && n != 1
    ensures Lower(Candidate(base, extension, n)) == head + ['-'] + (Digits(n) + "." + extension)
  {
    var trimmed := RStrip(SliceTo(base, MAX_LENGTH - |"-" + Digits(n)|));
    var stem := if trimmed != "" then trimmed else PLAYLIST;
    Reassociate(stem, Digits(n), extension);
    LowerOfTail(extension, n);
    LowerOfDashed(stem, Digits(n) + "." + extension);
    head := Lower(stem);
  }

  /** Suffixed candidates with different sequence numbers differ even ignoring case. */
  lemma CandidatesDiffer(base: string, extension: string, m: nat, n: nat)
    requires ValidExtension(extension) && m != 1 && n != 1
    requires Lower(Candidate(base, extension, m)) == Lower(Candidate(base, extension, n))
    ensures m == n
  {
    var a := CandidateShape(base, extension, m);
    var b := CandidateShape(base, extension, n);
    LowerOfTail(extension, m);
    LowerOfTail(extension, n);
    SplitAtLast(a, Digits(m) + "." + extension, b, Digits(n) + "." + extension, '-');
    var x, y := Digits(m), Digits(n);
    assert '.' !in x && '.' !in y && '.' !in extension;
    assert x + ['.'] + extension == y + ['.'] + extension;
    SplitAtLast(x, extension, y, extension, '.');
    DigitsInjective(m, n);
  }

  /** The plain name can be its own suffixed candidate: the retry bound must allow for one more turn. */
  lemma PlainCanCollide(stem: string, extension: string, n: nat)
    requires n != 1 && stem != "" && stem[|stem| - 1] != '-'
    requires |stem| + |"-" + Digits(n)| == MAX_LENGTH
    ensures Candidate(stem + ("-" + Digits(n)), extension, 1) == Candidate(stem + ("-" + Digits(n)), extension, n)
  {
    var base := stem + ("-" + Digits(n));
    assert SliceTo(base, MAX_LENGTH - |"-" + Digits(n)|) == stem;
    assert RStrip(stem) == stem;
  }

  /**
   What is tried with each sequence number: the plain name first, then the name with the number
   appended, cut so that the two fit 96 characters together.
   */
  lemma CandidateExactly(base: string, extension: string, n: nat)
    requires Clean(base) && |Digits(n)| < 94
    ensures Candidate(base, extension, n) ==
            if n == 1 then base + "." + extension
            else Cut(base, 95 - |Digits(n)|) + "-" + Digits(n) + "." + extension
  {
    SliceIsCut(base, 95 - |Digits(n)|);
    if n != 1 {
      CandidateOf(base, extension, n, Cut(base, 95 - |Digits(n)|));
    }
  }

  lemma CandidateOf(base: string, extension: string, n: nat, kept: string)
    requires n != 1 && kept != "" && RStrip(SliceTo(base, 95 - |Digits(n)|)) == kept
    ensures Candidate(base, extension, n) == kept + "-" + Digits(n) + "." + extension
  {
    assert MAX_LENGTH - |"-" + Digits(n)| == 95 - |Digits(n)|;
    assert kept + ("-" + Digits(n)) == kept + "-" + Digits(n);
  }

  // ----- The allocator

  class FilenameAllocator {
    var used: set<string>

    constructor ()
      ensures used == {}
    {
      used := {};
    }

    /**
     The first candidate free ignoring case, after at most one retry more than there are used names;
     nothing for an unsafe extension.
     */
    method Allocate(value: string, extension: string, fallback: string) returns (r: Option<string>)
      modifies this
      ensures r.Some? <==> ValidExtension(extension)
      ensures r.None? ==> used == old(used)
      ensures r.Some? ==> Lower(r.value) !in old(used) && used == old(used) + {Lower(r.value)}
      ensures r.Some? ==> exists n: nat :: 1 <= n <= |old(used)| + 2
                                   && FirstFree(old(used), SafeFilename(value, fallback), extension, n)
                                   && r.value == Candidate(SafeFilename(value, fallback), extension, n)
      ensures r.Some? ==> NameFor(Request(value, extension, fallback), r.value)
    {
      if !ValidExtension(extension) {
        return None;
      }
      var base := SafeFilename(value, fallback);
      var candidate := base + "." + extension;
      var sequence := 2;
      while Lower(candidate) in used
        invariant used == old(used) && sequence >= 2
        invariant candidate == Candidate(base, extension, sequence - 1)
        invariant forall k: nat :: 1 <= k < sequence - 1 ==> Taken(used, base, extension, k)
        decreases |used| + 3 - sequence
      {
        assert Taken(used, base, extension, sequence - 1);
        TakenFits(used, base, extension, sequence);
        candidate := NextCandidate(base, extension, sequence);
        sequence := sequence + 1;
      }
      TakenFits(used, base, extension, sequence - 1);
      assert FirstFree(used, base, extension, sequence - 1);
      used := used + {Lower(candidate)};
      return Some(candidate);
    }
  }

  /** The suffixed name built in one turn of the retry loop. */
  method NextCandidate(base: string, extension: string, sequence: nat) returns (candidate: string)
    requires sequence >= 2
    ensures candidate == Candidate(base, extension, sequence)
  {
    var suffix := "-" + Digits(sequence);
    var trimmed := RStrip(SliceTo(base, MAX_LENGTH - |suffix|));
    candidate := (if trimmed != "" then trimmed else PLAYLIST) + suffix + "." + extension;
  }

  ghost predicate Taken(used: set<string>, base: string, extension: string, k: nat) {
    Lower(Candidate(base, extension, k)) in used
  }

  /** `n` is the least sequence number whose candidate is free. */
  ghost predicate FirstFree(used: set<string>, base: string, extension: string, n: nat) {
    1 <= n && !Taken(used, base, extension, n) && forall k: nat :: 1 <= k < n ==> Taken(used, base, extension, k)
  }

  lemma StillTaken(used: set<string>, base: string, extension: string, k: nat, n: nat)
    requires ValidExtension(extension) && 2 <= k < n && Taken(used, base, extension, k)
    ensures Taken(used - {Lower(Candidate(base, extension, n))}, base, extension, k)
  {
    if Lower(Candidate(base, extension, k)) == Lower(Candidate(base, extension, n)) {
      CandidatesDiffer(base, extension, k, n);
    }
  }

  /** Distinct candidates that are all taken cannot outnumber the used names. */
  lemma {:induction false} TakenFits(used: set<string>, base: string, extension: string, n: nat)
    requires ValidExtension(extension)
    requires forall k: nat :: 2 <= k < n ==> Taken(used, base, extension, k)
    ensures n <= |used| + 2
    decreases n
  {
    if n > 2 {
      var last := Lower(Candidate(base, extension, n - 1));
      assert Taken(used, base, extension, n - 1);
      forall k: nat | 2 <= k < n - 1 ensures Taken(used - {last}, base, extension, k) {
        assert Taken(used, base, extension, k);
        StillTaken(used, base, extension, k, n - 1);
      }
      TakenFits(used - {last}, base, extension, n - 1);
    }
  }

  ghost function LowerNames(names: seq<string>): set<string> {
    set k | 0 <= k < |names| :: Lower(names[k])
  }

  lemma LowerNamesSnoc(names: seq<string>, name: string)
    ensures LowerNames(names + [name]) == LowerNames(names) + {Lower(name)}
  {
    var after := names + [name];
    assert after[|names|] == name && forall k :: 0 <= k < |names| ==> after[k] == names[k];
    assert Lower(after[|names|]) in LowerNames(after);
  }

  datatype Request = Request(value: string, extension: string, fallback: string)

  /** One of the candidates of this request. */
  ghost predicate NameFor(request: Request, name: string) {
    exists n: nat :: n >= 1 && name == Candidate(SafeFilename(request.value, request.fallback), request.extension, n)
  }

  ghost predicate Distinct(names: seq<string>) {
    forall i, j :: 0 <= i < j < |names| ==> Lower(names[i]) != Lower(names[j])
  }

  /** Each name so far is one for its request. */
  ghost predicate Answered(requests: seq<Request>, names: seq<string>) {
    |names| <= |requests| && forall i :: 0 <= i < |names| ==> NameFor(requests[i], names[i])
  }

  lemma DistinctSnoc(names: seq<string>, name: string)
    requires Distinct(names) && Lower(name) !in LowerNames(names)
    ensures Distinct(names + [name])
  {
    forall k | 0 <= k < |names| ensures Lower(names[k]) != Lower(name) {
      assert Lower(names[k]) in LowerNames(names);
    }
  }

  lemma AnsweredSnoc(requests: seq<Request>, names: seq<string>, name: string)
    requires Answered(requests, names) && |names| < |requests| && NameFor(requests[|names|], name)
    ensures Answered(requests, names + [name])
  {
  }

  method AllocateFor(allocator: FilenameAllocator, request: Request) returns (name: string)
    requires ValidExtension(request.extension)
    modifies allocator
    ensures NameFor(request, name) && Lower(name) !in old(allocator.used)
    ensures allocator.used == old(allocator.used) + {Lower(name)}
  {
    var r := allocator.Allocate(request.value, request.extension, request.fallback);
    name := r.value;
  }

  /** A whole export run: every name handed out is distinct from all others ignoring case. */
  method AllocateAll(requests: seq<Request>) returns (names: seq<string>)
    requires forall i :: 0 <= i < |requests| ==> ValidExtension(requests[i].extension)
    ensures |names| == |requests|
    ensures forall i, j :: 0 <= i < j < |names| ==> Lower(names[i]) != Lower(names[j])
    ensures forall i :: 0 <= i < |names| ==> NameFor(requests[i], names[i])
  {
    var allocator := new FilenameAllocator();
    names := [];
    for i := 0 to |requests|
      invariant |names| == i && Distinct(names) && Answered(requests, names)
      invariant allocator.used == LowerNames(names)
      invariant fresh(allocator)
    {
      var r := AllocateFor(allocator, requests[i]);
      DistinctSnoc(names, r);
      AnsweredSnoc(requests, names, r);
      LowerNamesSnoc(names, r);
      names := names + [r];
    }
  }
}
