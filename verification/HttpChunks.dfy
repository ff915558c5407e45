/** Chunked bodies: whatever encoder wrote them, the parser gives back the data of the chunks, the
    lines of the trailer and one message end (section 3.6.1 of RFC 2616). */
module HttpChunks {
  import opened Options
  import opened HttpState
  import opened Http
  import opened HttpBody
  import opened HttpHeaders

  // ---------- what an encoder may write ----------

  /** A chunk: its size in hexadecimal digits, its extensions, and its data. */
  datatype Piece = Piece(size: string, ext: string, data: string)

  predicate AllHex(s: string) {
    forall k :: 0 <= k < |s| ==> Unhex(s[k]) >= 0
  }

  function HexDigits(s: string): seq<nat>
    requires AllHex(s)
  {
    if s == "" then [] else [Unhex(s[0])] + HexDigits(s[1..])
  }

  /** A size that the parser stores as `n`: any digits, of either case, with any leading zeros. */
  predicate IsSize(s: string, n: nat) {
    s != "" && AllHex(s) && Stored(0, 16, HexDigits(s)) == n
  }

  predicate IsExtension(s: string) {
    s == "" || ((s[0] == ';' || s[0] == ' ') && CR !in s)
  }

  predicate IsPiece(c: Piece) {
    IsSize(c.size, |c.data|) && IsExtension(c.ext) && |SizeLine(c)| <= MAX_HEADER_SIZE
  }

  function SizeLine(c: Piece): string {
    c.size + c.ext + "\r\n"
  }

  function Chunk(c: Piece): string {
    SizeLine(c) + c.data + "\r\n"
  }

  function Chunks(cs: seq<Piece>): string {
    if cs == [] then "" else Chunk(cs[0]) + Chunks(cs[1..])
  }

  function Joining(cs: seq<Piece>): string {
    if cs == [] then "" else cs[0].data + Joining(cs[1..])
  }

  predicate ArePieces(cs: seq<Piece>) {
    forall k :: 0 <= k < |cs| ==> IsPiece(cs[k]) && cs[k].data != ""
  }

  /** The shortest size in lower case is one that the parser reads back. */
  function Hex(n: nat): string {
    if n < 16 then ["0123456789abcdef"[n]] else Hex(n / 16) + ["0123456789abcdef"[n % 16]]
  }

  lemma {:induction false} HexDigitsAppend(s: string, d: char)
    requires AllHex(s) && Unhex(d) >= 0
    ensures AllHex(s + [d]) && HexDigits(s + [d]) == HexDigits(s) + [Unhex(d)]
    decreases |s|
  {
    if s == "" {
      assert "" + [d] == [d] && [d][1..] == "";
    } else {
      HexDigitsAppend(s[1..], d);
      assert (s + [d])[1..] == s[1..] + [d];
    }
  }

  lemma {:induction false} NumeralAppend(start: nat, base: nat, digits: seq<nat>, d: nat)
    ensures Numeral(start, base, digits + [d]) == Numeral(start, base, digits) * base + d
    decreases |digits|
  {
    if digits == [] {
      assert [] + [d] == [d] && [d][1..] == [];
    } else {
      NumeralAppend(start * base + digits[0], base, digits[1..], d);
      assert (digits + [d])[1..] == digits[1..] + [d];
    }
  }

  /** The digits of a size are those of base 16, in either case; besides them only bytes from
      0x80 on are let through, as zeros. */
  lemma {:induction false} UnhexExact(ch: char, n: nat)
    requires n < 16
    ensures Unhex(ch) == n <==> ch == "0123456789abcdef"[n] || ch == "0123456789ABCDEF"[n] || (n == 0 && ch as int >= 128)
  {
  }

  lemma {:induction false} HexDigitReads(n: nat)
    requires n < 16
    ensures var s := ["0123456789abcdef"[n]]; Unhex(s[0]) == n && AllHex(s) && HexDigits(s) == [n]
  {
    var s := ["0123456789abcdef"[n]];
    assert Unhex(s[0]) == n;
    hide Unhex;
    assert s[1..] == "";
  }

  lemma {:induction false} HexNumeral(n: nat)
    ensures Hex(n) != "" && AllHex(Hex(n)) && Numeral(0, 16, HexDigits(Hex(n))) == n
    decreases n
  {
    hide HexDigits, Unhex;
    HexDigitReads(n % 16);
    if n < 16 {
      assert [n][1..] == [];
    } else {
      hide Numeral;
      var d := "0123456789abcdef"[n % 16];
      HexNumeral(n / 16);
      HexDigitsAppend(Hex(n / 16), d);
      NumeralAppend(0, 16, HexDigits(Hex(n / 16)), n % 16);
    }
  }

  lemma {:induction false} HexIsSize(n: nat)
    requires n < ULLONG_MAX
    ensures IsSize(Hex(n), n)
  {
    HexNumeral(n);
    LengthExact(0, 16, HexDigits(Hex(n)));
  }

  // ---------- the size line ----------

  /** A byte of the chunk framing. */
  lemma {:induction false} ChunkByte(skip: Parser -> bool, p: Parser, ch: char)
    requires IsChunk(p.state) && p.nread < MAX_HEADER_SIZE
    requires var s := OnChunk(Count(p), ch); s.Go? && !s.again && (s.p.state.HeaderFieldStart? || s.p.state.ChunkData? || IsChunk(s.p.state))
    ensures var s := OnChunk(Count(p), ch); ByteStep(skip, p, ch) == Fine(s.p, Events(s.acts))
  {
    hide OnChunk, Events, Count;
    var s := OnChunk(Count(p), ch);
    assert OpenData(s.p.state, ch) == [];
    assert Events(s.acts) + [] == Events(s.acts);
    CountStays(p);
    hide Switch, OpenData;
    ChunkSwitch(Count(p), ch, skip(Count(p)));
  }

  lemma {:induction false} CountStays(p: Parser)
    ensures Count(p) == p.(nread := Count(p).nread) && Count(p).nread == if ParsingHeader(p.state) then p.nread + 1 else p.nread
  {
  }

  lemma {:induction false} ChunkSwitch(p: Parser, ch: char, skipped: bool)
    requires IsChunk(p.state)
    ensures !TakesBody(p.state) && Switch(p, ch, skipped) == OnChunk(p, ch)
  {
    hide OnChunk;
  }

  lemma {:induction false} SizeFirst(skip: Parser -> bool, p: Parser, ch: char)
    requires AtChunk(p) && Unhex(ch) >= 0
    ensures ByteStep(skip, p, ch) == Fine(p.(state := ChunkSize, length := Unhex(ch), nread := 1), [])
  {
    hide ByteStep, Unhex;
    ChunkByte(skip, p, ch);
  }

  lemma {:induction false} SizeNext(skip: Parser -> bool, p: Parser, ch: char)
    requires p.state == ChunkSize && p.flags.chunked && p.nread < MAX_HEADER_SIZE && Unhex(ch) >= 0 && Accumulate(p.length, 16, Unhex(ch)) >= 0
    ensures ByteStep(skip, p, ch) == Fine(p.(length := Accumulate(p.length, 16, Unhex(ch)), nread := p.nread + 1), [])
  {
    assert ch != CR;
    hide ByteStep, Unhex, Accumulate;
    ChunkByte(skip, p, ch);
  }

  /** The digits of a size after the first. */
  lemma {:induction false} SizeRest(skip: Parser -> bool, p: Parser, s: string)
    requires p.state == ChunkSize && p.flags.chunked && p.nread + |s| <= MAX_HEADER_SIZE
    requires AllHex(s) && Stored(p.length, 16, HexDigits(s)) >= 0
    ensures Feed(skip, p, s) == Fine(p.(length := Stored(p.length, 16, HexDigits(s)), nread := p.nread + |s|), [])
    decreases |s|
  {
    hide ByteStep, Accumulate, Unhex;
    if s != "" {
      var q := p.(length := Accumulate(p.length, 16, Unhex(s[0])), nread := p.nread + 1);
      SizeNext(skip, p, s[0]);
      SizeRest(skip, q, s[1..]);
    }
  }

  /** The size of a chunk is read back. */
  lemma {:induction false} SizeReads(skip: Parser -> bool, p: Parser, s: string, n: nat)
    requires AtChunk(p) && IsSize(s, n) && |s| <= MAX_HEADER_SIZE
    ensures n <= ULLONG_MAX && Feed(skip, p, s) == Fine(p.(state := ChunkSize, length := n, nread := |s|), [])
  {
    hide ByteStep, Unhex;
    var d := Unhex(s[0]);
    assert Accumulate(0, 16, d) == d;
    SizeFirst(skip, p, s[0]);
    SizeRest(skip, p.(state := ChunkSize, length := d, nread := 1), s[1..]);
  }

  lemma {:induction false} Parameter(skip: Parser -> bool, p: Parser, ch: char)
    requires p.state == ChunkParameters && p.flags.chunked && p.nread < MAX_HEADER_SIZE && ch != CR
    ensures ByteStep(skip, p, ch) == Fine(p.(nread := p.nread + 1), [])
  {
    hide ByteStep;
    ChunkByte(skip, p, ch);
  }

  lemma {:induction false} Parameters(skip: Parser -> bool, p: Parser, s: string)
    requires p.state == ChunkParameters && p.flags.chunked && p.nread + |s| <= MAX_HEADER_SIZE && CR !in s
    ensures Feed(skip, p, s) == Fine(p.(nread := p.nread + |s|), [])
    decreases |s|
  {
    hide ByteStep;
    if s != "" {
      Parameter(skip, p, s[0]);
      Parameters(skip, p.(nread := p.nread + 1), s[1..]);
    }
  }

  lemma {:induction false} ExtensionFirst(skip: Parser -> bool, p: Parser, ch: char)
    requires p.state == ChunkSize && p.flags.chunked && p.nread < MAX_HEADER_SIZE && (ch == ';' || ch == ' ')
    ensures ByteStep(skip, p, ch) == Fine(p.(state := ChunkParameters, nread := p.nread + 1), [])
  {
    assert Unhex(ch) == -1;
    hide ByteStep, Unhex;
    ChunkByte(skip, p, ch);
  }

  /** Extensions are passed over. */
  lemma {:induction false} ExtensionFeeds(skip: Parser -> bool, p: Parser, s: string)
    requires p.state == ChunkSize && p.flags.chunked && p.nread + |s| <= MAX_HEADER_SIZE && IsExtension(s)
    ensures Feed(skip, p, s) == Fine(p.(state := if s == "" then ChunkSize else ChunkParameters, nread := p.nread + |s|), [])
  {
    hide ByteStep;
    if s != "" {
      ExtensionFirst(skip, p, s[0]);
      Parameters(skip, p.(state := ChunkParameters, nread := p.nread + 1), s[1..]);
    }
  }

  /** What the end of a size line leads to. */
  function AfterSize(p: Parser, n: U64): Parser {
    if n == 0 then p.(state := HeaderFieldStart, length := 0, nread := 0, flags := p.flags.(trailing := true))
    else p.(state := ChunkData, length := n, nread := 0)
  }

  lemma {:induction false} SizeCr(skip: Parser -> bool, p: Parser)
    requires (p.state == ChunkSize || p.state == ChunkParameters) && p.flags.chunked && p.nread < MAX_HEADER_SIZE
    ensures ByteStep(skip, p, CR) == Fine(p.(state := ChunkSizeAlmostDone, nread := p.nread + 1), [])
  {
    hide ByteStep;
    ChunkByte(skip, p, CR);
  }

  lemma {:induction false} SizeLf(skip: Parser -> bool, p: Parser)
    requires p.state == ChunkSizeAlmostDone && p.flags.chunked && p.nread < MAX_HEADER_SIZE
    ensures ByteStep(skip, p, LF) == Fine(AfterSize(p, p.length), [])
  {
    hide ByteStep;
    ChunkByte(skip, p, LF);
  }

  lemma {:induction false} SizeEnds(skip: Parser -> bool, p: Parser)
    requires (p.state == ChunkSize || p.state == ChunkParameters) && p.flags.chunked && p.nread + 2 <= MAX_HEADER_SIZE
    ensures Feed(skip, p, "\r\n") == Fine(AfterSize(p, p.length), [])
  {
    hide Feed, ByteStep;
    var q := p.(state := ChunkSizeAlmostDone, nread := p.nread + 1);
    SizeCr(skip, p);
    SizeLf(skip, q);
    FeedTwo(skip, p, CR, LF);
    assert "\r\n" == [CR, LF];
    assert AfterSize(q, q.length) == AfterSize(p, p.length);
  }

  lemma {:induction false} SizeLineFeeds(skip: Parser -> bool, p: Parser, c: Piece)
    requires AtChunk(p) && IsPiece(c)
    ensures |c.data| <= ULLONG_MAX && Feed(skip, p, SizeLine(c)) == Fine(AfterSize(p, |c.data|), [])
  {
    hide Feed, IsSize, IsExtension;
    SizeReads(skip, p, c.size, |c.data|);
    var sized := p.(state := ChunkSize, length := |c.data|, nread := |c.size|);
    ExtensionFeeds(skip, sized, c.ext);
    var passed := sized.(state := if c.ext == "" then ChunkSize else ChunkParameters, nread := |c.size| + |c.ext|);
    SizeEnds(skip, passed);
    Chain(skip, p, c.size, sized, [], c.ext, passed, []);
    Chain(skip, p, c.size + c.ext, passed, [] + [], "\r\n", AfterSize(p, |c.data|), []);
    assert AfterSize(passed, passed.length) == AfterSize(p, |c.data|);
  }

  // ---------- chunks ----------

  lemma {:induction false} DataCr(skip: Parser -> bool, p: Parser)
    requires p.state == ChunkDataAlmostDone && p.flags.chunked && p.length == 0 && p.nread == 0
    ensures ByteStep(skip, p, CR) == Fine(p.(state := ChunkDataDone), [])
  {
    hide ByteStep;
    ChunkByte(skip, p, CR);
    assert [Flush(Body)][1..] == [];
  }

  lemma {:induction false} DataLf(skip: Parser -> bool, p: Parser)
    requires p.state == ChunkDataDone && p.flags.chunked && p.nread == 0
    ensures ByteStep(skip, p, LF) == Fine(p.(state := ChunkSizeStart), [])
  {
    hide ByteStep;
    ChunkByte(skip, p, LF);
  }

  /** The line end after a chunk's data. */
  lemma {:induction false} DataEnds(skip: Parser -> bool, p: Parser)
    requires p.state == ChunkDataAlmostDone && p.flags.chunked && p.length == 0 && p.nread == 0
    ensures Feed(skip, p, "\r\n") == Fine(p.(state := ChunkSizeStart), [])
  {
    hide Feed, ByteStep;
    DataCr(skip, p);
    DataLf(skip, p.(state := ChunkDataDone));
    FeedTwo(skip, p, CR, LF);
  }

  /** A chunk gives its data and nothing else, and the next chunk starts. */
  lemma {:induction false} ChunkFeeds(skip: Parser -> bool, p: Parser, c: Piece)
    requires AtChunk(p) && IsPiece(c) && c.data != ""
    ensures Feeds(skip, p, Chunk(c), [Data(Body, c.data)]) && FedTo(skip, p, Chunk(c)) == p.(length := 0)
  {
    hide Feed, Same, ByteStep, IsPiece, SizeLine, NewMessage;
    SizeLineFeeds(skip, p, c);
    var data := AfterSize(p, |c.data|);
    PieceLength(c);
    BodyRun(skip, data, c.data);
    var es, done := Feed(skip, data, c.data).events, p.(state := ChunkDataAlmostDone, length := 0);
    DataEnds(skip, done);
    Chain(skip, p, SizeLine(c), data, [], c.data, done, es);
    Chain(skip, p, SizeLine(c) + c.data, done, [] + es, "\r\n", p.(length := 0), []);
    assert [] + es + [] == es && [Data(Body, c.data)] + [] == [Data(Body, c.data)];
  }

  lemma {:induction false} PieceLength(c: Piece)
    requires IsPiece(c)
    ensures |c.data| < ULLONG_MAX
  {
    LengthExact(0, 16, HexDigits(c.size));
  }

  lemma {:induction false} ChunksFeed(skip: Parser -> bool, p: Parser, cs: seq<Piece>)
    requires AtChunk(p) && ArePieces(cs)
    ensures Feeds(skip, p, Chunks(cs), DataOf(Body, Joining(cs))) && FedTo(skip, p, Chunks(cs)) == if cs == [] then p else p.(length := 0)
    decreases |cs|
  {
    hide Feeds, FedTo, Chunk, IsPiece;
    if cs == [] {
      FeedsNone(skip, p);
    } else {
      ChunkFeeds(skip, p, cs[0]);
      ChunksFeed(skip, p.(length := 0), cs[1..]);
      FeedsThen(skip, p, Chunk(cs[0]), [Data(Body, cs[0].data)], Chunks(cs[1..]), DataOf(Body, Joining(cs[1..])));
      SameData(Body, cs[0].data, Joining(cs[1..]));
      FeedsSame(skip, p, Chunks(cs), [Data(Body, cs[0].data)] + DataOf(Body, Joining(cs[1..])), DataOf(Body, Joining(cs)));
    }
  }

  // ---------- whole bodies ----------

  /** The empty line after the trailer ends the message. */
  lemma {:induction false} TrailerEnds(skip: Parser -> bool, p: Parser, end: string)
    requires AtLine(p) && p.flags.trailing && p.flags.chunked && IsEnd(end) && p.nread + |end| <= MAX_HEADER_SIZE
    ensures Feeds(skip, p, end, [MessageComplete]) && Ended(p, p.flags, FedTo(skip, p, end))
  {
    hide ByteStep, Feeds, FedTo, AtMessageEnd;
    TrailerLf(skip, BeforeEnd(p, end));
    EmptyLine(skip, p, end);
  }

  lemma {:induction false} TrailerLf(skip: Parser -> bool, p: Parser)
    requires p.state == HeadersAlmostDone && p.nread < MAX_HEADER_SIZE && p.flags.trailing && p.flags.chunked && p.errno == OK
    ensures var r := ByteStep(skip, p, LF); r.Fine? && Ended(p, p.flags, r.p) && r.events == [MessageComplete]
  {
    hide ByteStep, NewMessage, Switch, AtMessageEnd, Events, OpenData;
    var q := p.(nread := p.nread + 1);
    var s := Go(q.(state := NewMessage(q)), [Say(MessageComplete)], false);
    TrailingSwitch(q, skip(q));
    MessageClosed(q);
    HeaderByte(skip, p, LF, s);
    EndEvents(s.p, LF);
    assert [MessageComplete] + [] == [MessageComplete];
  }

  lemma {:induction false} EndEvents(p: Parser, ch: char)
    requires AtMessageEnd(p)
    ensures OpenData(p.state, ch) == [] && Events([Say(MessageComplete)]) == [MessageComplete]
  {
    assert [Say(MessageComplete)][1..] == [] && [MessageComplete] + [] == [MessageComplete];
  }

  lemma {:induction false} TrailingSwitch(p: Parser, skipped: bool)
    requires p.state == HeadersAlmostDone && p.flags.trailing
    ensures Switch(p, LF, skipped) == Go(p.(state := NewMessage(p)), [Say(MessageComplete)], false)
  {
    hide NewMessage;
  }

  /** A chunked body: chunks, a chunk without data, the lines of a trailer, and what ends it. */
  datatype Coded = Coded(pieces: seq<Piece>, last: Piece, trailer: seq<Line>, end: string)

  predicate IsCoded(b: Coded) {
    ArePieces(b.pieces) && IsPiece(b.last) && b.last.data == "" && AreLines(b.trailer) && IsEnd(b.end) && |Lines(b.trailer)| + |b.end| <= MAX_HEADER_SIZE
  }

  function Text(b: Coded): string {
    Chunks(b.pieces) + (SizeLine(b.last) + (Lines(b.trailer) + b.end))
  }

  function Meaning(b: Coded): seq<Event> {
    DataOf(Body, Joining(b.pieces)) + (LineEvents(b.trailer) + [MessageComplete])
  }

  /** The message's flags with what the trailer asks for. */
  function TrailerFlags(f: Flags, b: Coded): Flags
    requires IsCoded(b)
  {
    WithLines(Asked(f.(trailing := true), 0), b.trailer).flags
  }

  /** The chunk without data and the trailer behind it. */
  lemma {:induction false} TrailerFeeds(skip: Parser -> bool, p: Parser, ls: seq<Line>, end: string)
    requires AtLine(p) && p.flags.trailing && p.flags.chunked && p.nread == 0 && AreLines(ls) && IsEnd(end) && |Lines(ls)| + |end| <= MAX_HEADER_SIZE
    ensures Feeds(skip, p, Lines(ls) + end, LineEvents(ls) + [MessageComplete])
    ensures Ended(p, WithLines(Asked(p.flags, p.length), ls).flags, FedTo(skip, p, Lines(ls) + end))
  {
    hide Feeds, FedTo, AreLines, Lines, AtMessageEnd, LineEvents, WithLines;
    LinesFeed(skip, p, ls);
    FlagsKept(Asked(p.flags, p.length), ls);
    TrailerEnds(skip, FedTo(skip, p, Lines(ls)), end);
    FeedsThen(skip, p, Lines(ls), LineEvents(ls), end, [MessageComplete]);
  }

  /** Decoding a chunked body gives back the concatenation of its chunks, the lines of its
      trailer, and one message end (section 4.4 of RFC 2616). */
  lemma {:induction false} ChunkedRoundTrip(skip: Parser -> bool, p: Parser, b: Coded)
    requires AtChunk(p) && IsCoded(b)
    ensures Feeds(skip, p, Text(b), Meaning(b)) && Ended(p, TrailerFlags(p.flags, b), FedTo(skip, p, Text(b)))
  {
    hide Feeds, FedTo, ArePieces, AreLines, Lines, AtMessageEnd, Chunks, LineEvents, WithLines;
    ChunksFeed(skip, p, b.pieces);
    var q := if b.pieces == [] then p else p.(length := 0);
    LastFeeds(skip, q, b.last);
    var r := AfterSize(q, 0);
    TrailerFeeds(skip, r, b.trailer, b.end);
    var end := Lines(b.trailer) + b.end;
    FeedsThen(skip, q, SizeLine(b.last), [], end, LineEvents(b.trailer) + [MessageComplete]);
    FeedsThen(skip, p, Chunks(b.pieces), DataOf(Body, Joining(b.pieces)), SizeLine(b.last) + end, [] + (LineEvents(b.trailer) + [MessageComplete]));
    assert [] + (LineEvents(b.trailer) + [MessageComplete]) == LineEvents(b.trailer) + [MessageComplete];
  }

  lemma {:induction false} LastFeeds(skip: Parser -> bool, p: Parser, c: Piece)
    requires AtChunk(p) && IsPiece(c) && c.data == ""
    ensures Feeds(skip, p, SizeLine(c), []) && FedTo(skip, p, SizeLine(c)) == AfterSize(p, 0)
  {
    hide Feed, IsPiece, SizeLine;
    SizeLineFeeds(skip, p, c);
  }
}
