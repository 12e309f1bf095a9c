/** Reading a chunked HTTP body (section 7.1 of RFC 9112) under a size limit. */
module ChunkedBody {
  import opened Text

  const MAX_LINE := 65536

  const CRLF := "\r\n"

  // ----- Chunk sizes, as Python parses a hexadecimal integer from the stripped text before the first semicolon

  predicate IsHex(c: char) {
    '0' <= c <= '9' || 'a' <= c <= 'f' || 'A' <= c <= 'F'
  }

  function HexDigit(c: char): (d: nat)
    requires IsHex(c)
    ensures d < 16
  {
    if c <= '9' then (c - '0') as nat
    else if c <= 'F' then (c - 'A') as nat + 10
    else (c - 'a') as nat + 10
  }

  /** Hexadecimal digits with single underscores allowed between them. */
  function ParseDigits(s: string): Option<nat> {
    if s == "" then None
    else
      var n := |s| - 1;
      if !IsHex(s[n]) then None
      else if n == 0 then Some(HexDigit(s[0]))
      else
        var rest := if s[n - 1] == '_' then s[..n - 1] else s[..n];
        match ParseDigits(rest)
        case None => None
        case Some(v) => Some(16 * v + HexDigit(s[n]))
  }

  /** An optional 0x prefix, which may be followed by one underscore. */
  function ParseMagnitude(s: string): Option<nat> {
    if |s| >= 2 && s[0] == '0' && (s[1] == 'x' || s[1] == 'X')
    then ParseDigits(if |s| > 2 && s[2] == '_' then s[3..] else s[2..])
    else ParseDigits(s)
  }

  function ParseHex(s: string): Option<int> {
    if s != "" && (s[0] == '-' || s[0] == '+') then
      match ParseMagnitude(s[1..])
      case None => None
      case Some(v) =>
        var magnitude: int := v;
        Some(if s[0] == '-' then 0 - magnitude else magnitude)
    else
      match ParseMagnitude(s)
      case None => None
      case Some(v) => Some(v)
  }

  predicate IsSpace(c: char) {
    c == ' ' || c == '\t' || c == '\n' || c == '\r' || c == 11 as char || c == 12 as char
  }

  function StripLeft(s: string): string {
    if s != "" && IsSpace(s[0]) then StripLeft(s[1..]) else s
  }

  function StripRight(s: string): string {
    if s != "" && IsSpace(s[|s| - 1]) then StripRight(s[..|s| - 1]) else s
  }

  /** What comes before the first semicolon. */
  function BeforeSemicolon(s: string): string {
    if s == "" || s[0] == ';' then "" else [s[0]] + BeforeSemicolon(s[1..])
  }

  function ChunkSize(line: string): Option<int> {
    ParseHex(StripRight(StripLeft(BeforeSemicolon(line))))
  }

  // ----- Reading

  /** How a header line gives its chunk's size; `ChunkSize` in this program. */
  type SizeParser = string -> Option<int>

  datatype Failure = BadFraming | LineTooLong | TrailersTooLarge | TooLarge | Incomplete | NegativeRead

  /** What reading ends with and what it leaves unread; a failure also says how many bytes were held. */
  datatype Result = Body(bytes: string, unread: string) | Error(failure: Failure, unread: string, held: nat)

  /** The length of the first line, its newline included, or of everything left. */
  function LineLength(stream: string): (n: nat)
    ensures n <= |stream| && (stream != "" ==> n > 0)
  {
    if stream == "" then 0
    else if stream[0] == '\n' then 1
    else 1 + LineLength(stream[1..])
  }

  predicate EndOfTrailers(line: string) {
    line == CRLF || line == "\n" || line == ""
  }

  function ReadTrailers(stream: string, read: nat, bytes: string): Result {
    var n := LineLength(stream);
    var line, next := stream[..n], stream[n..];
    if n > MAX_LINE then Error(LineTooLong, next, |bytes|)
    else if read + n > MAX_LINE then Error(TrailersTooLarge, next, |bytes|)
    else if EndOfTrailers(line) then Body(bytes, next)
    else ReadTrailers(next, read + n, bytes)
  }

  /** One turn of the reading loop: stop, go on to the trailers, or go on with one more chunk's bytes. */
  datatype Turn = Stop(result: Result) | Trailers(next: string) | More(next: string, bytes: string)

  function TurnAt(sizeOf: SizeParser, stream: string, bytes: string, limit: nat): (t: Turn)
    ensures t.More? ==> |t.next| < |stream|
  {
    var n := LineLength(stream);
    var line, next := stream[..n], stream[n..];
    if n > MAX_LINE then Stop(Error(LineTooLong, next, |bytes|))
    else
      match sizeOf(line)
      case None => Stop(Error(BadFraming, next, |bytes|))
      case Some(size) =>
        if size == 0 then Trailers(next)
        else if |bytes| + size > limit then Stop(Error(TooLarge, next, |bytes|))
        else if size < 0 then Stop(Error(NegativeRead, next, |bytes|))
        else if size > |next| then Stop(Error(Incomplete, "", |bytes|))
        else if size + 2 > |next| then Stop(Error(Incomplete, "", |bytes| + size))
        else if next[size..size + 2] != CRLF then Stop(Error(BadFraming, next[size + 2..], |bytes| + size))
        else More(next[size + 2..], bytes + next[..size])
  }

  /** Reading on with `bytes` already collected. */
  function Decode(sizeOf: SizeParser, stream: string, bytes: string, limit: nat): Result
    decreases |stream|
  {
    match TurnAt(sizeOf, stream, bytes, limit)
    case Stop(r) => r
    case Trailers(next) => ReadTrailers(next, 0, bytes)
    case More(next, more) => Decode(sizeOf, next, more, limit)
  }

  lemma {:induction false} TrailersBody(stream: string, read: nat, bytes: string)
    ensures match ReadTrailers(stream, read, bytes)
            case Body(b, _) => b == bytes
            case Error(_, _, held) => held == |bytes|
    decreases |stream|
  {
    var n := LineLength(stream);
    if n <= MAX_LINE && read + n <= MAX_LINE && !EndOfTrailers(stream[..n]) {
      TrailersBody(stream[n..], read + n, bytes);
    }
  }

  lemma TurnWithinLimit(sizeOf: SizeParser, stream: string, bytes: string, limit: nat)
    requires |bytes| <= limit
    ensures match TurnAt(sizeOf, stream, bytes, limit)
            case Stop(r) => r.Error? && r.held <= limit
            case Trailers(_) => true
            case More(_, more) => |bytes| < |more| <= limit
  {
  }

  /** Whatever the stream holds, neither the body nor what is held at a failure exceeds the limit. */
  lemma {:induction false} NeverOverLimit(sizeOf: SizeParser, stream: string, bytes: string, limit: nat)
    requires |bytes| <= limit
    ensures match Decode(sizeOf, stream, bytes, limit)
            case Body(b, _) => |b| <= limit
            case Error(_, _, held) => held <= limit
    decreases |stream|
  {
    TurnWithinLimit(sizeOf, stream, bytes, limit);
    match TurnAt(sizeOf, stream, bytes, limit)
    case Stop(_) =>
    case Trailers(next) => TrailersBody(next, 0, bytes);
    case More(next, more) => NeverOverLimit(sizeOf, next, more, limit);
  }

  // ----- The encoding

  /** One chunk as sent: its header line and its bytes. */
  datatype Chunk = Chunk(header: string, bytes: string)

  /** A single line, newline included, within the line limit. */
  predicate IsLine(s: string) {
    s != "" && |s| <= MAX_LINE && s[|s| - 1] == '\n' && '\n' !in s[..|s| - 1]
  }

  predicate ValidChunk(sizeOf: SizeParser, c: Chunk) {
    IsLine(c.header) && c.bytes != "" && sizeOf(c.header) == Some(|c.bytes|)
  }

  ghost predicate ValidChunks(sizeOf: SizeParser, chunks: seq<Chunk>) {
    forall i :: 0 <= i < |chunks| ==> ValidChunk(sizeOf, chunks[i])
  }

  predicate ValidLast(sizeOf: SizeParser, last: string) {
    IsLine(last) && sizeOf(last) == Some(0)
  }

  ghost predicate TrailerLines(trailers: seq<string>) {
    forall i :: 0 <= i < |trailers| ==> IsLine(trailers[i]) && !EndOfTrailers(trailers[i])
  }

  /** The lines as sent, followed by `tail`. */
  function EncodeLines(lines: seq<string>, tail: string): string {
    if lines == [] then tail else lines[0] + EncodeLines(lines[1..], tail)
  }

  function TotalLength(lines: seq<string>): nat {
    if lines == [] then 0 else |lines[0]| + TotalLength(lines[1..])
  }

  /** Trailer lines that fit the header limit together with the closing empty line. */
  ghost predicate ValidTrailers(trailers: seq<string>) {
    TrailerLines(trailers) && TotalLength(trailers) + 2 <= MAX_LINE
  }

  function EncodeChunk(c: Chunk): string {
    c.header + c.bytes + CRLF
  }

  /** The chunks as sent, followed by `tail`. */
  function EncodeChunks(chunks: seq<Chunk>, tail: string): string {
    if chunks == [] then tail else EncodeChunk(chunks[0]) + EncodeChunks(chunks[1..], tail)
  }

  function Payload(chunks: seq<Chunk>): string {
    if chunks == [] then "" else chunks[0].bytes + Payload(chunks[1..])
  }

  /** The whole message, then whatever follows it: chunks, last chunk, trailers, closing empty line. */
  function Encode(chunks: seq<Chunk>, last: string, trailers: seq<string>, more: string): string {
    EncodeChunks(chunks, last + (EncodeLines(trailers, CRLF + more)))
  }

  lemma Associative(a: string, b: string, c: string)
    ensures (a + b) + c == a + (b + c)
  {
  }

  lemma {:induction false} LineFound(l: string, more: string)
    requires l != "" && l[|l| - 1] == '\n' && '\n' !in l[..|l| - 1]
    ensures LineLength(l + more) == |l|
    ensures (l + more)[..|l|] == l && (l + more)[|l|..] == more
    decreases |l|
  {
    if |l| > 1 {
      assert l[..|l| - 1][0] == l[0];
      assert (l + more)[1..] == l[1..] + more;
      assert l[1..][..|l[1..]| - 1] == l[..|l| - 1][1..];
      LineFound(l[1..], more);
    }
  }

  lemma TrailerRead(line: string, more: string, read: nat, bytes: string)
    requires IsLine(line) && !EndOfTrailers(line) && read + |line| <= MAX_LINE
    ensures ReadTrailers(line + more, read, bytes) == ReadTrailers(more, read + |line|, bytes)
  {
    LineFound(line, more);
  }

  lemma BlankRead(more: string, read: nat, bytes: string)
    requires read + 2 <= MAX_LINE
    ensures ReadTrailers(CRLF + more, read, bytes) == Body(bytes, more)
  {
    LineFound(CRLF, more);
  }

  lemma {:induction false} TrailersRead(trailers: seq<string>, more: string, read: nat, bytes: string)
    requires TrailerLines(trailers) && read + TotalLength(trailers) + 2 <= MAX_LINE
    ensures ReadTrailers(EncodeLines(trailers, CRLF + more), read, bytes) == Body(bytes, more)
    decreases |trailers|
  {
    if trailers == [] {
      BlankRead(more, read, bytes);
    } else {
      TrailerRead(trailers[0], EncodeLines(trailers[1..], CRLF + more), read, bytes);
      TrailersRead(trailers[1..], more, read + |trailers[0]|, bytes);
    }
  }

  /** Reading one encoded chunk collects its bytes, or stops right after its header when they do not fit. */
  lemma ChunkRead(sizeOf: SizeParser, c: Chunk, tail: string, bytes: string, limit: nat)
    requires ValidChunk(sizeOf, c)
    ensures TurnAt(sizeOf, EncodeChunk(c) + tail, bytes, limit) ==
            if |bytes| + |c.bytes| > limit then Stop(Error(TooLarge, c.bytes + (CRLF + tail), |bytes|))
            else More(tail, bytes + c.bytes)
  {
    var next := c.bytes + (CRLF + tail);
    assert EncodeChunk(c) + tail == c.header + next;
    LineFound(c.header, next);
    var size := |c.bytes|;
    assert next[..size] == c.bytes && next[size..size + 2] == CRLF && next[size + 2..] == tail;
  }

  lemma ChunkDecoded(sizeOf: SizeParser, c: Chunk, tail: string, bytes: string, limit: nat)
    requires ValidChunk(sizeOf, c)
    ensures Decode(sizeOf, EncodeChunk(c) + tail, bytes, limit) ==
            if |bytes| + |c.bytes| > limit then Error(TooLarge, c.bytes + (CRLF + tail), |bytes|)
            else Decode(sizeOf, tail, bytes + c.bytes, limit)
  {
    ChunkRead(sizeOf, c, tail, bytes, limit);
  }

  lemma LastRead(sizeOf: SizeParser, last: string, trailers: seq<string>, more: string, bytes: string, limit: nat)
    requires ValidLast(sizeOf, last) && ValidTrailers(trailers)
    ensures Decode(sizeOf, last + (EncodeLines(trailers, CRLF + more)), bytes, limit) == Body(bytes, more)
  {
    LineFound(last, EncodeLines(trailers, CRLF + more));
    TrailersRead(trailers, more, 0, bytes);
  }

  lemma ValidTail(sizeOf: SizeParser, chunks: seq<Chunk>)
    requires ValidChunks(sizeOf, chunks) && chunks != []
    ensures ValidChunk(sizeOf, chunks[0]) && ValidChunks(sizeOf, chunks[1..])
  {
  }

  /** Chunks that fit are collected in order, and reading goes on behind them. */
  lemma {:induction false} ChunksRead(sizeOf: SizeParser, chunks: seq<Chunk>, tail: string, bytes: string, limit: nat)
    requires ValidChunks(sizeOf, chunks) && |bytes| + |Payload(chunks)| <= limit
    ensures Decode(sizeOf, EncodeChunks(chunks, tail), bytes, limit) ==
            Decode(sizeOf, tail, bytes + Payload(chunks), limit)
    decreases |chunks|
  {
    if chunks == [] {
      assert bytes + Payload(chunks) == bytes;
    } else {
      var c, rest := chunks[0], chunks[1..];
      ChunkDecoded(sizeOf, c, EncodeChunks(rest, tail), bytes, limit);
      Associative(bytes, c.bytes, Payload(rest));
      ValidTail(sizeOf, chunks);
      ChunksRead(sizeOf, rest, tail, bytes + c.bytes, limit);
    }
  }

  /**
   Decoding any encoding of a body that fits the limit, however it is cut into chunks and whatever
   follows, returns the body and leaves exactly what follows.
   */
  lemma RoundTrip(sizeOf: SizeParser, chunks: seq<Chunk>, last: string, trailers: seq<string>, more: string, limit: nat)
    requires ValidChunks(sizeOf, chunks) && ValidLast(sizeOf, last) && ValidTrailers(trailers)
    requires |Payload(chunks)| <= limit
    ensures Decode(sizeOf, Encode(chunks, last, trailers, more), "", limit) == Body(Payload(chunks), more)
  {
    ChunksRead(sizeOf, chunks, last + (EncodeLines(trailers, CRLF + more)), "", limit);
    assert "" + Payload(chunks) == Payload(chunks);
    LastRead(sizeOf, last, trailers, more, Payload(chunks), limit);
  }

  /** Where a body over the limit fails: at the chunk that crosses it, whose header has been read but not its bytes. */
  ghost predicate CrossesAt(chunks: seq<Chunk>, k: nat, held: nat, limit: nat)
    requires k < |chunks|
  {
    held + |Payload(chunks[..k])| <= limit < held + |Payload(chunks[..k])| + |chunks[k].bytes|
  }

  /** What is still unread there. */
  ghost function UnreadAt(chunks: seq<Chunk>, k: nat, tail: string): string
    requires k < |chunks|
  {
    chunks[k].bytes + (CRLF + EncodeChunks(chunks[k + 1..], tail))
  }

  /**
   Every chunk list whose body exceeds the limit fails at the one chunk that crosses it: its header
   has been read, all of its bytes and what follows are still unread, and only the earlier chunks are held.
   */
  lemma {:induction false} StopsBeforeCrossing(sizeOf: SizeParser, chunks: seq<Chunk>, tail: string, bytes: string,
                                               limit: nat) returns (k: nat)
    requires ValidChunks(sizeOf, chunks) && |bytes| <= limit < |bytes| + |Payload(chunks)|
    ensures k < |chunks| && CrossesAt(chunks, k, |bytes|, limit)
    ensures Decode(sizeOf, EncodeChunks(chunks, tail), bytes, limit) ==
            Error(TooLarge, UnreadAt(chunks, k, tail), |bytes| + |Payload(chunks[..k])|)
    decreases |chunks|
  {
    var c, rest := chunks[0], chunks[1..];
    ValidTail(sizeOf, chunks);
    ChunkDecoded(sizeOf, c, EncodeChunks(rest, tail), bytes, limit);
    if |bytes| + |c.bytes| > limit {
      k := 0;
    } else {
      var l := StopsBeforeCrossing(sizeOf, rest, tail, bytes + c.bytes, limit);
      k := l + 1;
      assert chunks[..k][1..] == rest[..l];
      assert chunks[k + 1..] == rest[l + 1..];
    }
  }

  // ----- Headers the standard allows: 1*HEXDIG, optional blanks, optional extensions, CRLF

  ghost predicate AllHex(s: string) {
    s != "" && forall i :: 0 <= i < |s| ==> IsHex(s[i])
  }

  ghost function HexValue(s: string): nat
    requires forall i :: 0 <= i < |s| ==> IsHex(s[i])
  {
    if s == "" then 0 else 16 * HexValue(s[..|s| - 1]) + HexDigit(s[|s| - 1])
  }

  lemma {:induction false} ParseAllHex(s: string)
    requires AllHex(s)
    ensures ParseDigits(s) == Some(HexValue(s))
  {
    var n := |s| - 1;
    if n > 0 {
      ParseAllHex(s[..n]);
    } else {
      assert s[..0] == "";
    }
  }

  lemma {:induction false} CutAtSemicolon(a: string, b: string)
    requires ';' !in a && (b == "" || b[0] == ';')
    ensures BeforeSemicolon(a + b) == a
  {
    if a != "" {
      assert (a + b)[1..] == a[1..] + b;
      CutAtSemicolon(a[1..], b);
    } else {
      assert a + b == b;
    }
  }

  ghost predicate AllSpace(s: string) {
    forall i :: 0 <= i < |s| ==> IsSpace(s[i])
  }

  lemma {:induction false} StripSpaces(a: string, blanks: string)
    requires a != "" && !IsSpace(a[|a| - 1]) && AllSpace(blanks)
    ensures StripRight(a + blanks) == a
    decreases |blanks|
  {
    if blanks == "" {
      assert a + blanks == a;
    } else {
      var n := |blanks| - 1;
      assert (a + blanks)[..|a + blanks| - 1] == a + blanks[..n];
      StripSpaces(a, blanks[..n]);
    }
  }

  lemma StrippedHex(digits: string, blanks: string)
    requires AllHex(digits) && AllSpace(blanks)
    ensures ParseHex(StripRight(StripLeft(digits + blanks))) == Some(HexValue(digits))
  {
    assert IsHex(digits[0]) && IsHex(digits[|digits| - 1]);
    assert StripLeft(digits + blanks) == digits + blanks;
    StripSpaces(digits, blanks);
    ParseAllHex(digits);
  }

  /** Any header the standard allows gives its hexadecimal value: leading zeros, either case, extensions. */
  lemma StandardHeader(digits: string, blanks: string, extension: string)
    requires AllHex(digits) && AllSpace(blanks) && ';' !in blanks
    requires extension == "" || extension[0] == ';'
    ensures ChunkSize(digits + (blanks + (extension + CRLF))) == Some(HexValue(digits))
  {
    forall i | 0 <= i < |digits| ensures digits[i] != ';' {
      assert IsHex(digits[i]);
    }
    if extension == "" {
      assert extension + CRLF == CRLF;
      var all := digits + (blanks + CRLF);
      assert all + "" == all;
      CutAtSemicolon(all, "");
      StrippedHex(digits, blanks + CRLF);
    } else {
      Associative(digits, blanks, extension + CRLF);
      CutAtSemicolon(digits + blanks, extension + CRLF);
      StrippedHex(digits, blanks);
    }
  }

  function HexChar(d: nat): (c: char)
    requires d < 16
    ensures IsHex(c) && HexDigit(c) == d
  {
    if d < 10 then '0' + d as char else 'a' + (d - 10) as char
  }

  function Hex(n: nat): string {
    if n < 16 then [HexChar(n)] else Hex(n / 16) + [HexChar(n % 16)]
  }

  lemma {:induction false} HexIsHex(n: nat)
    ensures AllHex(Hex(n)) && HexValue(Hex(n)) == n
  {
    if n >= 16 {
      HexIsHex(n / 16);
      var s := Hex(n);
      assert s[..|s| - 1] == Hex(n / 16);
    } else {
      assert Hex(n)[..0] == "";
    }
  }

  /** The plain encoding of a body cut into parts. */
  function Plain(parts: seq<string>): (r: seq<Chunk>)
    ensures |r| == |parts| && forall i :: 0 <= i < |r| ==> r[i] == Chunk(Hex(|parts[i]|) + CRLF, parts[i])
  {
    seq(|parts|, i requires 0 <= i < |parts| => Chunk(Hex(|parts[i]|) + CRLF, parts[i]))
  }

  lemma HexLineValid(n: nat)
    requires |Hex(n)| + 2 <= MAX_LINE
    ensures IsLine(Hex(n) + CRLF) && ChunkSize(Hex(n) + CRLF) == Some(n)
  {
    HexIsHex(n);
    StandardHeader(Hex(n), "", "");
    assert Hex(n) + ("" + ("" + CRLF)) == Hex(n) + CRLF;
    var l := Hex(n) + CRLF;
    forall i | 0 <= i < |l| - 1 ensures l[i] != '\n' {
      assert i < |Hex(n)| ==> IsHex(Hex(n)[i]);
    }
  }

  ghost function Joined(parts: seq<string>): string {
    if parts == [] then "" else parts[0] + Joined(parts[1..])
  }

  lemma {:induction false} PlainPayload(parts: seq<string>)
    ensures Payload(Plain(parts)) == Joined(parts)
  {
    if parts != [] {
      assert Plain(parts)[1..] == Plain(parts[1..]);
      PlainPayload(parts[1..]);
    }
  }

  /** Every way of cutting a body into non-empty parts decodes to the body with this program's own size parser. */
  lemma PlainRoundTrip(parts: seq<string>, more: string, limit: nat)
    requires forall i :: 0 <= i < |parts| ==> parts[i] != "" && |Hex(|parts[i]|)| + 2 <= MAX_LINE
    requires |Joined(parts)| <= limit
    ensures Decode(ChunkSize, Encode(Plain(parts), "0" + CRLF, [], more), "", limit) == Body(Joined(parts), more)
  {
    forall i | 0 <= i < |parts| ensures ValidChunk(ChunkSize, Plain(parts)[i]) {
      HexLineValid(|parts[i]|);
    }
    assert Hex(0) == "0";
    HexLineValid(0);
    PlainPayload(parts);
    RoundTrip(ChunkSize, Plain(parts), "0" + CRLF, [], more, limit);
  }

  // ----- Only encodings decode

  /** A line as the reader takes it: nothing after its newline, which only the end of the stream may replace. */
  ghost predicate TakenLine(l: string, rest: string) {
    && |l| <= MAX_LINE
    && (l != "" ==> '\n' !in l[..|l| - 1])
    && (l == "" || l[|l| - 1] != '\n' ==> rest == "")
  }

  lemma {:induction false} LineTaken(stream: string)
    ensures var n := LineLength(stream); var l := stream[..n];
            && (l != "" ==> '\n' !in l[..|l| - 1])
            && (l == "" || l[|l| - 1] != '\n' ==> stream[n..] == "")
  {
    if stream != "" && stream[0] != '\n' {
      LineTaken(stream[1..]);
      var n := LineLength(stream);
      assert stream[..n][1..] == stream[1..][..n - 1];
      assert stream[n..] == stream[1..][n - 1..];
      if n > 1 {
        assert stream[..n][..n - 1] == [stream[0]] + stream[1..][..n - 1][..n - 2];
      }
    }
  }

  /** Trailer lines each taken in turn; what comes after the last one is `rest`. */
  ghost predicate TakenLines(lines: seq<string>, rest: string) {
    lines != [] ==>
      && TakenLine(lines[0], EncodeLines(lines[1..], rest)) && !EndOfTrailers(lines[0])
      && TakenLines(lines[1..], rest)
  }

  /** A whole trailer section: lines, then an empty line or the end of the stream, within the header limit. */
  ghost predicate TrailerSection(stream: string, read: nat, lines: seq<string>, end: string, unread: string) {
    && stream == EncodeLines(lines, end + unread)
    && TakenLines(lines, end + unread)
    && EndOfTrailers(end) && (end == "" ==> unread == "")
    && read + TotalLength(lines) + |end| <= MAX_LINE
  }

  /** Whatever is accepted as trailers is a trailer section. */
  lemma {:induction false} TrailersOnly(stream: string, read: nat, bytes: string)
    returns (lines: seq<string>, end: string)
    requires ReadTrailers(stream, read, bytes).Body?
    ensures TrailerSection(stream, read, lines, end, ReadTrailers(stream, read, bytes).unread)
    decreases |stream|
  {
    var n := LineLength(stream);
    var line, next := stream[..n], stream[n..];
    LineTaken(stream);
    if EndOfTrailers(line) {
      lines, end := [], line;
    } else {
      var more;
      more, end := TrailersOnly(next, read + n, bytes);
      lines := [line] + more;
      SectionCons(line, next, read, more, end, ReadTrailers(next, read + n, bytes).unread);
      assert stream == line + next;
    }
  }

  lemma SectionCons(line: string, next: string, read: nat, lines: seq<string>, end: string, unread: string)
    requires TrailerSection(next, read + |line|, lines, end, unread)
    requires TakenLine(line, next) && !EndOfTrailers(line)
    ensures TrailerSection(line + next, read, [line] + lines, end, unread)
  {
    assert ([line] + lines)[1..] == lines;
  }

  /** A whole chunked message: chunks, a last chunk of size 0, a trailer section, and what follows it. */
  ghost predicate Message(sizeOf: SizeParser, stream: string, chunks: seq<Chunk>, last: string, rest: string) {
    && stream == EncodeChunks(chunks, last + rest)
    && ValidChunks(sizeOf, chunks)
    && TakenLine(last, rest) && sizeOf(last) == Some(0)
  }

  lemma CutAtEnding(next: string, size: nat)
    requires size + 2 <= |next| && next[size..size + 2] == CRLF
    ensures next == next[..size] + CRLF + next[size + 2..]
  {
  }

  lemma GoesOn(sizeOf: SizeParser, stream: string, bytes: string, limit: nat)
    requires TurnAt(sizeOf, stream, bytes, limit).More?
    ensures var n := LineLength(stream); var line, next := stream[..n], stream[n..];
            && n <= MAX_LINE && sizeOf(line).Some? && sizeOf(line).value > 0
            && var size: nat := sizeOf(line).value;
            && size + 2 <= |next| && next[size..size + 2] == CRLF && |bytes| + size <= limit
            && TurnAt(sizeOf, stream, bytes, limit) == More(next[size + 2..], bytes + next[..size])
  {
  }

  lemma ChunkTaken(sizeOf: SizeParser, stream: string, bytes: string, limit: nat) returns (c: Chunk)
    requires TurnAt(sizeOf, stream, bytes, limit).More?
    ensures ValidChunk(sizeOf, c)
    ensures var t := TurnAt(sizeOf, stream, bytes, limit);
            stream == EncodeChunk(c) + t.next && t.bytes == bytes + c.bytes && |bytes| + |c.bytes| <= limit
  {
    var n := LineLength(stream);
    var line, next := stream[..n], stream[n..];
    LineTaken(stream);
    GoesOn(sizeOf, stream, bytes, limit);
    var size: nat := sizeOf(line).value;
    c := Chunk(line, next[..size]);
    CutAtEnding(next, size);
    ThreeParts(stream, line, c.bytes, next[size + 2..]);
  }

  lemma ThreeParts(stream: string, line: string, bytes: string, rest: string)
    requires stream == line + (bytes + CRLF + rest)
    ensures stream == line + bytes + CRLF + rest
  {
  }

  /** Whatever decodes to a body is a whole chunked message carrying that body, and what is left is what follows it. */
  lemma {:induction false} DecodesOnlyMessages(sizeOf: SizeParser, stream: string, bytes: string, limit: nat)
    returns (chunks: seq<Chunk>, last: string, lines: seq<string>, end: string)
    requires Decode(sizeOf, stream, bytes, limit).Body?
    ensures var r := Decode(sizeOf, stream, bytes, limit);
            && Message(sizeOf, stream, chunks, last, EncodeLines(lines, end + r.unread))
            && TrailerSection(EncodeLines(lines, end + r.unread), 0, lines, end, r.unread)
            && r.bytes == bytes + Payload(chunks)
    decreases |stream|
  {
    match TurnAt(sizeOf, stream, bytes, limit)
    case Stop(_) =>
    case Trailers(next) =>
      last := LastTaken(sizeOf, stream, bytes, limit);
      TrailersBody(next, 0, bytes);
      lines, end := TrailersOnly(next, 0, bytes);
      chunks := [];
      assert bytes + Payload([]) == bytes;
    case More(next, more) =>
      var c := ChunkTaken(sizeOf, stream, bytes, limit);
      var rest;
      rest, last, lines, end := DecodesOnlyMessages(sizeOf, next, more, limit);
      chunks := [c] + rest;
      MessageCons(sizeOf, c, next, rest, last, EncodeLines(lines, end + Decode(sizeOf, next, more, limit).unread));
      Associative(bytes, c.bytes, Payload(rest));
  }

  lemma LastTaken(sizeOf: SizeParser, stream: string, bytes: string, limit: nat) returns (last: string)
    requires TurnAt(sizeOf, stream, bytes, limit).Trailers?
    ensures Message(sizeOf, stream, [], last, TurnAt(sizeOf, stream, bytes, limit).next)
  {
    LineTaken(stream);
    last := stream[..LineLength(stream)];
    assert stream == last + stream[LineLength(stream)..];
  }

  lemma MessageCons(sizeOf: SizeParser, c: Chunk, next: string, chunks: seq<Chunk>, last: string, rest: string)
    requires ValidChunk(sizeOf, c) && Message(sizeOf, next, chunks, last, rest)
    ensures Message(sizeOf, EncodeChunk(c) + next, [c] + chunks, last, rest)
    ensures Payload([c] + chunks) == c.bytes + Payload(chunks)
  {
    assert ([c] + chunks)[1..] == chunks;
    forall i | 0 <= i < |[c] + chunks| ensures ValidChunk(sizeOf, ([c] + chunks)[i]) {
      assert i > 0 ==> ([c] + chunks)[i] == chunks[i - 1];
    }
  }

  // ----- Which size lines are accepted

  /** Hexadecimal digits, with single underscores allowed between them. */
  ghost predicate Underscored(s: string) {
    && s != "" && IsHex(s[0]) && IsHex(s[|s| - 1])
    && (forall i :: 0 <= i < |s| ==> IsHex(s[i]) || s[i] == '_')
    && (forall i :: 0 <= i < |s| - 1 ==> s[i] != '_' || s[i + 1] != '_')
  }

  ghost function Bare(s: string): (r: string)
    ensures (forall i :: 0 <= i < |s| ==> IsHex(s[i]) || s[i] == '_') ==> forall i :: 0 <= i < |r| ==> IsHex(r[i])
  {
    if s == "" then "" else Bare(s[..|s| - 1]) + if s[|s| - 1] == '_' then "" else [s[|s| - 1]]
  }

  lemma HexSnoc(s: string, c: char)
    requires IsHex(c) && forall i :: 0 <= i < |s| ==> IsHex(s[i])
    ensures HexValue(s + [c]) == 16 * HexValue(s) + HexDigit(c)
  {
    assert (s + [c])[..|s|] == s;
  }

  /** The last digit, and what is parsed before it. */
  lemma ParseSnoc(s: string)
    requires |s| > 1 && IsHex(s[|s| - 1])
    ensures var n := |s| - 1; var rest := if s[n - 1] == '_' then s[..n - 1] else s[..n];
            ParseDigits(s) == match ParseDigits(rest) case None => None case Some(v) => Some(16 * v + HexDigit(s[n]))
  {
  }

  lemma BareDigit(c: char)
    requires IsHex(c)
    ensures Bare([c]) == [c] && HexValue([c]) == HexDigit(c)
  {
    assert [c][..0] == "" && HexValue("") == 0;
  }

  lemma OneDigit(s: string)
    requires |s| == 1
    ensures ParseDigits(s).Some? <==> Underscored(s)
    ensures Underscored(s) ==> ParseDigits(s) == Some(HexValue(Bare(s)))
  {
    if IsHex(s[0]) {
      BareDigit(s[0]);
      assert s == [s[0]];
      assert ParseDigits(s) == Some(HexDigit(s[0]));
    }
  }

  lemma ValueSnoc(s: string)
    requires |s| > 1 && Underscored(s)
    ensures var n := |s| - 1; var rest := if s[n - 1] == '_' then s[..n - 1] else s[..n];
            Underscored(rest) && HexValue(Bare(s)) == 16 * HexValue(Bare(rest)) + HexDigit(s[n])
  {
    var n := |s| - 1;
    UnderscoredSnoc(s);
    BareSkips(s);
    HexSnoc(Bare(if s[n - 1] == '_' then s[..n - 1] else s[..n]), s[n]);
  }

  lemma {:induction false} DigitsExactly(s: string)
    ensures ParseDigits(s).Some? <==> Underscored(s)
    ensures Underscored(s) ==> ParseDigits(s) == Some(HexValue(Bare(s)))
    decreases |s|
  {
    if |s| == 1 {
      OneDigit(s);
    } else if s != "" && IsHex(s[|s| - 1]) {
      var n := |s| - 1;
      ParseSnoc(s);
      DigitsExactly(if s[n - 1] == '_' then s[..n - 1] else s[..n]);
      UnderscoredSnoc(s);
      if Underscored(s) {
        ValueSnoc(s);
      }
    }
  }

  lemma BareSkips(s: string)
    requires |s| > 1 && s[|s| - 1] != '_'
    ensures var n := |s| - 1; Bare(s) == Bare(if s[n - 1] == '_' then s[..n - 1] else s[..n]) + [s[n]]
  {
    var n := |s| - 1;
    if s[n - 1] == '_' {
      assert s[..n][..n - 1] == s[..n - 1];
      assert Bare(s[..n]) == Bare(s[..n - 1]) + "";
    }
  }

  lemma UnderscoredSnoc(s: string)
    requires |s| > 1 && IsHex(s[|s| - 1])
    ensures var n := |s| - 1; Underscored(s) <==> Underscored(if s[n - 1] == '_' then s[..n - 1] else s[..n])
  {
    var n := |s| - 1;
    var rest := if s[n - 1] == '_' then s[..n - 1] else s[..n];
    if Underscored(rest) {
      forall i | 0 <= i < |s| ensures IsHex(s[i]) || s[i] == '_' {
        assert i < |rest| ==> rest[i] == s[i];
      }
      forall i | 0 <= i < n ensures s[i] != '_' || s[i + 1] != '_' {
        assert i < |rest| ==> rest[i] == s[i];
        assert i + 1 < |rest| ==> rest[i + 1] == s[i + 1];
      }
    }
    if Underscored(s) {
      assert s[n - 1] == '_' ==> s[n - 2] != '_' && IsHex(s[n - 2]);
    }
  }

  predicate IsPrefix(prefix: string) {
    prefix == "" || prefix == "0x" || prefix == "0X" || prefix == "0x_" || prefix == "0X_"
  }

  predicate IsSign(sign: string) {
    sign == "" || sign == "+" || sign == "-"
  }

  /** A hexadecimal integer as Python reads one: a sign, a prefix with its underscore, then digits. */
  ghost predicate HexInteger(sign: string, prefix: string, digits: string) {
    IsSign(sign) && IsPrefix(prefix) && Underscored(digits)
  }

  ghost function Signed(sign: string, digits: string): int
    requires Underscored(digits)
  {
    if sign == "-" then 0 - HexValue(Bare(digits)) else HexValue(Bare(digits))
  }

  lemma MagnitudeOnly(s: string) returns (prefix: string, digits: string)
    requires ParseMagnitude(s).Some?
    ensures s == prefix + digits && IsPrefix(prefix) && Underscored(digits)
    ensures ParseMagnitude(s) == Some(HexValue(Bare(digits)))
  {
    if |s| >= 2 && s[0] == '0' && (s[1] == 'x' || s[1] == 'X') {
      if |s| > 2 && s[2] == '_' {
        prefix, digits := ['0', s[1], '_'], s[3..];
      } else {
        prefix, digits := ['0', s[1]], s[2..];
      }
    } else {
      prefix, digits := "", s;
    }
    assert s == prefix + digits;
    DigitsExactly(digits);
  }

  lemma MagnitudeAccepts(prefix: string, digits: string)
    requires IsPrefix(prefix) && Underscored(digits)
    ensures ParseMagnitude(prefix + digits) == Some(HexValue(Bare(digits)))
  {
    DigitsExactly(digits);
    var s := prefix + digits;
    assert IsHex(digits[0]);
    if prefix == "" {
      assert s == digits;
      assert |s| > 1 ==> IsHex(s[1]) || s[1] == '_';
    } else if |prefix| == 2 {
      assert s[2..] == digits;
    } else {
      assert s[3..] == digits;
    }
  }

  lemma SignSplit(s: string)
    requires s != "" && IsSign([s[0]])
    ensures ParseHex(s) == match ParseMagnitude(s[1..]) case None => None case Some(v) =>
              Some(if s[0] == '-' then 0 - v else v)
  {
  }

  lemma HexFirst(prefix: string, digits: string)
    requires IsPrefix(prefix) && Underscored(digits)
    ensures IsHex((prefix + digits)[0])
  {
  }

  lemma NoSign(s: string)
    requires s != "" && IsHex(s[0])
    ensures ParseHex(s) == match ParseMagnitude(s) case None => None case Some(v) => Some(v)
  {
  }

  /** Only such an integer is accepted as a size. */
  lemma HexOnly(s: string) returns (sign: string, prefix: string, digits: string)
    requires ParseHex(s).Some?
    ensures s == sign + (prefix + digits) && HexInteger(sign, prefix, digits)
    ensures ParseHex(s) == Some(Signed(sign, digits))
  {
    if s != "" && (s[0] == '-' || s[0] == '+') {
      SignSplit(s);
      prefix, digits := MagnitudeOnly(s[1..]);
      sign := [s[0]];
      assert s == sign + s[1..];
    } else {
      prefix, digits := MagnitudeOnly(s);
      sign := "";
    }
  }

  lemma TailAfterSign(c: char, rest: string)
    ensures ([c] + rest)[0] == c && ([c] + rest)[1..] == rest
  {
  }

  lemma SignAccepts(sign: string, rest: string)
    requires IsSign(sign) && rest != "" && IsHex(rest[0]) && ParseMagnitude(rest).Some?
    ensures ParseHex(sign + rest) == Some(if sign == "-" then 0 - ParseMagnitude(rest).value
                                          else ParseMagnitude(rest).value)
  {
    if sign == "" {
      assert sign + rest == rest;
      NoSign(rest);
    } else {
      assert sign == [sign[0]];
      TailAfterSign(sign[0], rest);
      SignSplit([sign[0]] + rest);
    }
  }

  /** And every such integer is. */
  lemma HexAccepts(sign: string, prefix: string, digits: string)
    requires HexInteger(sign, prefix, digits)
    ensures ParseHex(sign + (prefix + digits)) == Some(Signed(sign, digits))
  {
    MagnitudeAccepts(prefix, digits);
    HexFirst(prefix, digits);
    SignAccepts(sign, prefix + digits);
  }

  lemma {:induction false} LeftStripped(s: string) returns (blanks: string)
    ensures s == blanks + StripLeft(s) && AllSpace(blanks)
    ensures StripLeft(s) != "" ==> !IsSpace(StripLeft(s)[0])
  {
    if s != "" && IsSpace(s[0]) {
      var more := LeftStripped(s[1..]);
      blanks := [s[0]] + more;
    } else {
      blanks := "";
    }
  }

  lemma {:induction false} RightStripped(s: string) returns (blanks: string)
    ensures s == StripRight(s) + blanks && AllSpace(blanks)
    decreases |s|
  {
    if s != "" && IsSpace(s[|s| - 1]) {
      var more := RightStripped(s[..|s| - 1]);
      blanks := more + [s[|s| - 1]];
    } else {
      blanks := "";
    }
  }

  lemma {:induction false} SemicolonCut(s: string) returns (rest: string)
    ensures s == BeforeSemicolon(s) + rest && ';' !in BeforeSemicolon(s) && (rest == "" || rest[0] == ';')
  {
    if s == "" || s[0] == ';' {
      rest := s;
    } else {
      rest := SemicolonCut(s[1..]);
    }
  }

  /** A size line: blanks, a hexadecimal integer, blanks, then perhaps a semicolon and anything. */
  ghost predicate SizeLine(line: string, left: string, number: string, right: string, rest: string) {
    && line == left + number + right + rest
    && AllSpace(left) && AllSpace(right) && (rest == "" || rest[0] == ';')
  }

  /** Only size lines are accepted, with the value of their integer. */
  lemma ChunkSizeOnly(line: string)
    returns (left: string, sign: string, prefix: string, digits: string, right: string, rest: string)
    requires ChunkSize(line).Some?
    ensures SizeLine(line, left, sign + (prefix + digits), right, rest)
    ensures HexInteger(sign, prefix, digits)
    ensures ChunkSize(line) == Some(Signed(sign, digits))
  {
    var field := BeforeSemicolon(line);
    rest := SemicolonCut(line);
    left := LeftStripped(field);
    right := RightStripped(StripLeft(field));
    var number := StripRight(StripLeft(field));
    sign, prefix, digits := HexOnly(number);
    Associative(left, number, right);
    assert line == left + number + right + rest;
  }

  // ----- The reader

  /** A stream reader; `stream` is what has not been read yet. */
  class Reader {
    var stream: string

    constructor (stream: string)
      ensures this.stream == stream
    {
      this.stream := stream;
    }

    method ReadLine() returns (line: string)
      modifies this
      ensures line == old(stream)[..LineLength(old(stream))] && stream == old(stream)[LineLength(old(stream))..]
    {
      var n := LineLength(stream);
      line := stream[..n];
      stream := stream[n..];
    }

    /** Exactly `n` bytes, or nothing when the stream ends before. */
    method ReadExactly(n: nat) returns (bytes: Option<string>)
      modifies this
      ensures if n <= |old(stream)| then bytes == Some(old(stream)[..n]) && stream == old(stream)[n..]
              else bytes == None && stream == ""
    {
      if n > |stream| {
        stream := "";
        return None;
      }
      bytes := Some(stream[..n]);
      stream := stream[n..];
    }
  }

  method ReadTrailerLines(reader: Reader, bytes: string) returns (r: Result)
    modifies reader
    ensures r == ReadTrailers(old(reader.stream), 0, bytes) && reader.stream == r.unread
  {
    var size: nat := 0;
    while true
      invariant ReadTrailers(reader.stream, size, bytes) == ReadTrailers(old(reader.stream), 0, bytes)
      decreases |reader.stream|
    {
      var line := reader.ReadLine();
      if |line| > MAX_LINE {
        return Error(LineTooLong, reader.stream, |bytes|);
      }
      size := size + |line|;
      if size > MAX_LINE {
        return Error(TrailersTooLarge, reader.stream, |bytes|);
      }
      if EndOfTrailers(line) {
        return Body(bytes, reader.stream);
      }
    }
  }

  /** The reading loop; at every turn the collected bytes stay within the limit. */
  method ReadChunkedBody(reader: Reader, limit: nat) returns (r: Result)
    modifies reader
    ensures r == Decode(ChunkSize, old(reader.stream), "", limit) && reader.stream == r.unread
  {
    var bytes := "";
    var size := 0;
    while true
      invariant size == |bytes| <= limit
      invariant Decode(ChunkSize, reader.stream, bytes, limit) == Decode(ChunkSize, old(reader.stream), "", limit)
      decreases |reader.stream|
    {
      ghost var turn := TurnAt(ChunkSize, reader.stream, bytes, limit);
      var line := reader.ReadLine();
      if |line| > MAX_LINE {
        return Error(LineTooLong, reader.stream, size);
      }
      var parsed := ChunkSize(line);
      if parsed.None? {
        return Error(BadFraming, reader.stream, size);
      }
      var chunkSize := parsed.value;
      if chunkSize == 0 {
        assert turn == Trailers(reader.stream);
        r := ReadTrailerLines(reader, bytes);
        return;
      }
      if size + chunkSize > limit {
        return Error(TooLarge, reader.stream, size);
      }
      if chunkSize < 0 {
        return Error(NegativeRead, reader.stream, size);
      }
      var chunk := reader.ReadExactly(chunkSize);
      if chunk.None? {
        return Error(Incomplete, reader.stream, size);
      }
      var ending := reader.ReadExactly(2);
      if ending.None? {
        return Error(Incomplete, reader.stream, size + chunkSize);
      }
      if ending.value != CRLF {
        return Error(BadFraming, reader.stream, size + chunkSize);
      }
      size := size + chunkSize;
      bytes := bytes + chunk.value;
      assert turn == More(reader.stream, bytes);
    }
  }
}
