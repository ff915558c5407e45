/** Whole messages: from the first byte of a request or a response to the end of its body. */
module HttpMessage {
  import opened Options
  import opened HttpState
  import opened Http
  import opened HttpBody
  import opened HttpHeaders
  import opened HttpChunks
  import opened HttpStart
  import G = HttpGrammar

  // ---------- headers and bodies ----------

  /** A Content-Length below 2^64-1 is read as it is written. */
  lemma {:induction false} AmountRead(n: nat)
    requires n < ULLONG_MAX
    ensures Amount(Decimals(n)) == n
    decreases n
  {
    DigitRead(n % 10);
    hide IsNum, Digit, Accumulate;
    if n >= 10 {
      var s, d := Decimals(n / 10), "0123456789"[n % 10];
      assert (s + [d])[..|s|] == s && (s + [d])[|s|] == d;
      AmountRead(n / 10);
      AccumulateExact(n / 10, 10, n % 10);
    } else {
      assert Decimals(n)[0] == "0123456789"[n];
    }
  }

  /** The parser with what its header lines ask for. */
  function Told(p: Parser, ls: seq<Line>): Parser
    requires AreLines(ls)
  {
    var a := WithLines(Asked(p.flags, p.length), ls);
    p.(flags := a.flags, length := a.length)
  }

  /** The headers of a message, of no other protocol, are about to begin. */
  ghost predicate AtHeaders(p: Parser, ls: seq<Line>, end: string) {
    && AtLine(p) && !p.flags.trailing && p.verb != CONNECT && AreLines(ls) && IsEnd(end) && p.nread + |Lines(ls)| + |end| <= MAX_HEADER_SIZE
    && !Told(p, ls).flags.upgrade
  }

  /** The parser before the last byte of the headers. */
  function HeadersRead(skip: Parser -> bool, p: Parser, ls: seq<Line>, end: string): Parser {
    BeforeEnd(FedTo(skip, p, Lines(ls)), end)
  }

  lemma {:induction false} HeadersFeed(skip: Parser -> bool, p: Parser, ls: seq<Line>, end: string)
    requires AtHeaders(p, ls, end)
    ensures Feeds(skip, p, Lines(ls), LineEvents(ls)) && AtLine(FedTo(skip, p, Lines(ls))) && FedTo(skip, p, Lines(ls)).nread == p.nread + |Lines(ls)|
    ensures var q := HeadersRead(skip, p, ls, end);
      AtHeadersEnd(q) && q == Told(p, ls).(state := q.state, header := q.header, index := q.index, nread := q.nread)
  {
    hide Feeds, FedTo, AreLines, Lines, LineEvents, WithLines;
    LinesFeed(skip, p, ls);
    FlagsKept(Asked(p.flags, p.length), ls);
  }

  /** Whether the callback at the end of the headers asks for the body to be skipped. */
  predicate Skips(skip: Parser -> bool, p: Parser, ls: seq<Line>, end: string) {
    skip(Count(HeadersRead(skip, p, ls, end)))
  }

  lemma {:induction false} FramingTold(p: Parser, ls: seq<Line>, q: Parser, skipped: bool)
    requires AreLines(ls) && q == Told(p, ls).(state := q.state, header := q.header, index := q.index, nread := q.nread)
    ensures FramingOf(q, skipped) == FramingOf(Told(p, ls), skipped)
  {
    hide WithLines;
  }

  /** The headers up to the body. */
  lemma {:induction false} HeadersToBody(skip: Parser -> bool, p: Parser, ls: seq<Line>, end: string)
    requires AtHeaders(p, ls, end)
    ensures var f, es, q := FramingOf(Told(p, ls), Skips(skip, p, ls, end)), LineEvents(ls) + [HeadersComplete], FedTo(skip, p, Lines(ls) + end);
      && Feeds(skip, p, Lines(ls) + end, if f.NoBody? then es + [MessageComplete] else es)
      && BodyStarts(f, q, if f.NoBody? then [MessageComplete] else [])
      && q.flags == Skipping(Told(p, ls).flags, Skips(skip, p, ls, end)) && q.ptype == p.ptype && q.major == p.major && q.minor == p.minor
  {
    hide Feeds, FedTo, AreLines, Lines, LineEvents, Told, ByteStep, FramingOf, BodyStarts, BeforeEnd;
    HeadersFeed(skip, p, ls, end);
    ToldPlain(p, ls);
    var h := HeadersRead(skip, p, ls, end);
    FramingTold(p, ls, h, Skips(skip, p, ls, end));
    HeadersEnd(skip, h);
    var r := ByteStep(skip, h, LF);
    BodyStartsWith(FramingOf(h, skip(Count(h))), r.p, r.events[1..]);
    EmptyLine(skip, FedTo(skip, p, Lines(ls)), end);
    FeedsThen(skip, p, Lines(ls), LineEvents(ls), end, r.events);
    assert r.events == [HeadersComplete] + r.events[1..];
    assert LineEvents(ls) + ([HeadersComplete] + r.events[1..]) == LineEvents(ls) + [HeadersComplete] + r.events[1..];
    assert LineEvents(ls) + [HeadersComplete] + [] == LineEvents(ls) + [HeadersComplete];
  }

  lemma {:induction false} ToldPlain(p: Parser, ls: seq<Line>)
    requires AreLines(ls)
    ensures var t := Told(p, ls); t.ptype == p.ptype && t.major == p.major && t.minor == p.minor && t.errno == p.errno && t.verb == p.verb
  {
    hide WithLines;
  }

  lemma {:induction false} BodyStartsWith(f: Framing, p: Parser, es: seq<Event>)
    requires BodyStarts(f, p, es)
    ensures es == if f.NoBody? then [MessageComplete] else []
  {
  }

  /** A message whose headers give it no body ends with them. */
  lemma {:induction false} MessageWithoutBody(skip: Parser -> bool, p: Parser, ls: seq<Line>, end: string)
    requires AtHeaders(p, ls, end) && FramingOf(Told(p, ls), Skips(skip, p, ls, end)) == NoBody
    ensures Feeds(skip, p, Lines(ls) + end, LineEvents(ls) + [HeadersComplete, MessageComplete])
    ensures Ended(p, Skipping(Told(p, ls).flags, Skips(skip, p, ls, end)), FedTo(skip, p, Lines(ls) + end))
  {
    hide Feeds, FedTo, AreLines, Lines, LineEvents, Told, FramingOf, AtHeaders;
    HeadersToBody(skip, p, ls, end);
    assert LineEvents(ls) + [HeadersComplete] + [MessageComplete] == LineEvents(ls) + [HeadersComplete, MessageComplete];
  }

  /** A message whose headers declare the length of its body delivers exactly its bytes. */
  lemma {:induction false} MessageWithLength(skip: Parser -> bool, p: Parser, ls: seq<Line>, end: string, body: string)
    requires AtHeaders(p, ls, end) && FramingOf(Told(p, ls), Skips(skip, p, ls, end)) == Declared(|body|) && 0 < |body| < ULLONG_MAX
    ensures Feeds(skip, p, Lines(ls) + end + body, LineEvents(ls) + [HeadersComplete] + [Data(Body, body), MessageComplete])
    ensures Ended(p, Told(p, ls).flags, FedTo(skip, p, Lines(ls) + end + body))
  {
    hide Feeds, FedTo, AreLines, Lines, LineEvents, Told, FramingOf, AtLine, AtMessageEnd;
    HeadersToBody(skip, p, ls, end);
    DeclaredNotSkipped(p, ls, Skips(skip, p, ls, end), |body|);
    var q := FedTo(skip, p, Lines(ls) + end);
    IdentityFeeds(skip, q, body);
    FeedsThen(skip, p, Lines(ls) + end, LineEvents(ls) + [HeadersComplete], body, [Data(Body, body), MessageComplete]);
  }

  lemma {:induction false} DeclaredNotSkipped(p: Parser, ls: seq<Line>, skipped: bool, n: nat)
    requires AreLines(ls) && FramingOf(Told(p, ls), skipped) == Declared(n)
    ensures !skipped
  {
    hide WithLines;
  }

  lemma {:induction false} IdentityFeeds(skip: Parser -> bool, p: Parser, s: string)
    requires p.state == BodyIdentity && p.errno == OK && p.length == |s| && 0 < |s| < ULLONG_MAX
    ensures Feeds(skip, p, s, [Data(Body, s), MessageComplete]) && Ended(p, p.flags, FedTo(skip, p, s))
  {
    hide Feed, NewMessage, AtMessageEnd, Same;
    assert s[..p.length] == s;
    IdentityBody(skip, p, s);
    var q := p.(length := 0);
    assert !MessageNeedsEof(q);
    MessageClosed(q);
  }

  /** A message in chunks delivers their data, and the lines of the trailer. */
  lemma {:induction false} MessageInChunks(skip: Parser -> bool, p: Parser, ls: seq<Line>, end: string, b: Coded)
    requires AtHeaders(p, ls, end) && FramingOf(Told(p, ls), Skips(skip, p, ls, end)) == InChunks && IsCoded(b)
    ensures Feeds(skip, p, Lines(ls) + end + Text(b), LineEvents(ls) + [HeadersComplete] + Meaning(b))
    ensures Ended(p, TrailerFlags(Told(p, ls).flags, b), FedTo(skip, p, Lines(ls) + end + Text(b)))
  {
    hide Feeds, FedTo, AreLines, Lines, LineEvents, Told, FramingOf, AtLine, AtMessageEnd, IsCoded, Text, Meaning, TrailerFlags;
    HeadersToBody(skip, p, ls, end);
    ChunksNotSkipped(p, ls, Skips(skip, p, ls, end));
    var q := FedTo(skip, p, Lines(ls) + end);
    ChunkedRoundTrip(skip, q, b);
    FeedsThen(skip, p, Lines(ls) + end, LineEvents(ls) + [HeadersComplete], Text(b), Meaning(b));
  }

  lemma {:induction false} ChunksNotSkipped(p: Parser, ls: seq<Line>, skipped: bool)
    requires AreLines(ls) && FramingOf(Told(p, ls), skipped) == InChunks
    ensures !skipped
  {
    hide WithLines;
  }

  /** A line that declares a length. */
  function LengthLine(name: string, blank: string, n: nat, end: string): Line {
    Line(name, blank, Decimals(n), end, [])
  }

  lemma {:induction false} LengthTold(p: Parser, name: string, blank: string, n: nat, end: string)
    requires LowerCase(name) == "content-length" && AllBlank(blank) && n < ULLONG_MAX && IsEnd(end)
    ensures AreLines([LengthLine(name, blank, n, end)]) && Told(p, [LengthLine(name, blank, n, end)]) == p.(length := n)
    ensures LineEvents([LengthLine(name, blank, n, end)]) == [Data(Field, name), Data(Value, Decimals(n))]
    ensures Lines([LengthLine(name, blank, n, end)]) == name + ":" + blank + Decimals(n) + end
  {
    hide LowerCase, Amount, IsName, AllBlank, Decimals;
    LengthName(name);
    DecimalsPlain(n);
    AmountRead(n);
    var l := LengthLine(name, blank, n, end);
    assert IsLine(l);
    assert [l][1..] == [];
    var a := Asked(p.flags, p.length);
    assert WithLines(a, [l]) == WithLines(WithLine(a, l), []) == WithLine(a, l) == Asked(p.flags, n);
    assert [Data(Field, name), Data(Value, Decimals(n))] + [] == [Data(Field, name), Data(Value, Decimals(n))];
    assert WholeValue(l) == Decimals(n) by { assert FoldsValue([]) == ""; }
    assert LineText(l) + "" == LineText(l) == FirstText(l) by { assert FoldsText([]) == ""; }
  }

  /** What a message with a Content-Length delivers from its first header on. */
  function LengthEvents(name: string, body: string): seq<Event> {
    [Data(Field, name), Data(Value, Decimals(|body|))] + [HeadersComplete] + DataOf(Body, body) + [MessageComplete]
  }

  /** After the start line of a message: a Content-Length header, whatever the case of its name,
      with the number of the body's bytes in decimal, an empty line, and the body deliver the
      header, exactly these bytes, and one message end. */
  lemma {:induction false} ContentLengthMessage(skip: Parser -> bool, p: Parser, name: string, blank: string, end: string, body: string)
    requires AtLine(p) && p.flags == NO_FLAGS && p.verb != CONNECT && |body| < ULLONG_MAX
    requires LowerCase(name) == "content-length" && AllBlank(blank) && IsEnd(end)
    requires p.nread + |blank| + |Decimals(|body|)| + 15 + 2 * |end| <= MAX_HEADER_SIZE
    requires !Skips(skip, p, [LengthLine(name, blank, |body|, end)], end)
    ensures var text := name + ":" + blank + Decimals(|body|) + end + end + body;
      Feeds(skip, p, text, LengthEvents(name, body)) && Ended(p, NO_FLAGS, FedTo(skip, p, text))
  {
    hide Feeds, FedTo, Lines, LineEvents, Told, LowerCase, AllBlank, AreLines, AtMessageEnd, Skips, Decimals, AtLine;
    var ls := [LengthLine(name, blank, |body|, end)];
    LengthTold(p, name, blank, |body|, end);
    assert |name| == 14;
    var front, es := Lines(ls) + end, LineEvents(ls) + [HeadersComplete];
    if body == "" {
      assert FramingOf(Told(p, ls), false) == NoBody;
      MessageWithoutBody(skip, p, ls, end);
      assert front + body == front;
      assert es + [] + [MessageComplete] == LineEvents(ls) + [HeadersComplete, MessageComplete];
    } else {
      assert FramingOf(Told(p, ls), false) == Declared(|body|);
      MessageWithLength(skip, p, ls, end, body);
      assert es + [Data(Body, body)] + [MessageComplete] == es + [Data(Body, body), MessageComplete];
    }
  }

  // ---------- other protocols ----------

  /** The parser when such headers have been announced. */
  function Leaving(p: Parser, skipped: bool): Parser {
    var q := p.(state := HeadersDone, upgrade := true);
    if skipped then q.(flags := q.flags.(skipBody := true)) else q
  }

  lemma {:induction false} LeavingAgain(p: Parser, skipped: bool)
    requires p.state == HeadersAlmostDone && !p.flags.trailing && (p.flags.upgrade || p.verb == CONNECT)
    ensures Switch(p, LF, skipped) == Go(Leaving(p, skipped), [Say(HeadersComplete)], true)
  {
    hide NewMessage;
  }

  lemma {:induction false} LeavingDone(p: Parser, skipped: bool)
    requires p.state == HeadersDone && p.upgrade
    ensures var s := Switch(p, LF, skipped); s.Leave? && s.acts == [Say(MessageComplete)] && s.p.upgrade
  {
    HeadersSwitch(p, skipped);
    hide NewMessage, Switch;
  }

  lemma {:induction false} LeavingTurn(skip: Parser -> bool, p: Parser)
    requires p.state == HeadersDone && p.upgrade
    ensures var r := Turn(skip, p, LF); r.Left? && r.events == [MessageComplete] && r.used == 1 && r.p.upgrade
  {
    hide Switch, Events;
    LeavingDone(p, skip(p));
    SayOne(MessageComplete);
  }

  lemma {:induction false} LeavingByte(skip: Parser -> bool, p: Parser)
    requires p.state == HeadersAlmostDone && p.nread < MAX_HEADER_SIZE && !p.flags.trailing && (p.flags.upgrade || p.verb == CONNECT)
    ensures var r := ByteStep(skip, p, LF); r.Left? && r.events == [HeadersComplete, MessageComplete] && r.used == 1 && r.p.upgrade
  {
    hide ByteStep, Switch, Turn;
    HeaderTurn(skip, p, LF);
    var q := p.(nread := p.nread + 1);
    LeavingAgain(q, skip(q));
    TurnAgain(skip, q, LF, Leaving(q, skip(q)), HeadersComplete);
    LeavingTurn(skip, Leaving(q, skip(q)));
    assert [HeadersComplete] + [MessageComplete] == [HeadersComplete, MessageComplete];
  }

  /** The empty line after such headers. */
  lemma {:induction false} LeavingLine(skip: Parser -> bool, p: Parser, end: string, rest: string)
    requires AtLine(p) && IsEnd(end) && p.nread + |end| <= MAX_HEADER_SIZE && !p.flags.trailing && (p.flags.upgrade || p.verb == CONNECT)
    ensures var r := Feed(skip, p, end + rest); r.Left? && r.events == [HeadersComplete, MessageComplete] && r.used == |end| && r.p.upgrade
  {
    hide ByteStep;
    var q := BeforeEnd(p, end);
    LeavingByte(skip, q);
    if end == "\n" {
      HeadersBare(skip, p);
      assert (end + rest)[0] == LF;
    } else {
      HeadersCr(skip, p);
      assert (end + rest)[0] == CR && (end + rest)[1..] == [LF] + rest;
      assert Feed(skip, q, [LF] + rest) == ByteStep(skip, q, LF);
      assert [] + [HeadersComplete, MessageComplete] == [HeadersComplete, MessageComplete];
    }
  }

  /** A message with an Upgrade header, and one whose method is CONNECT, end with their headers.
      What follows is not looked at: it belongs to another protocol. */
  lemma {:induction false} MessageLeaves(skip: Parser -> bool, p: Parser, ls: seq<Line>, end: string, rest: string)
    requires AtLine(p) && !p.flags.trailing && AreLines(ls) && IsEnd(end) && p.nread + |Lines(ls)| + |end| <= MAX_HEADER_SIZE
    requires Told(p, ls).flags.upgrade || p.verb == CONNECT
    ensures var r := Feed(skip, p, Lines(ls) + end + rest);
      && r.Left? && r.used == |Lines(ls)| + |end| && r.p.upgrade
      && Same(r.events, LineEvents(ls) + [HeadersComplete, MessageComplete])
  {
    hide Feed, AreLines, Lines, LineEvents, WithLines, Same, IsEnd;
    LinesFeed(skip, p, ls);
    FlagsKept(Asked(p.flags, p.length), ls);
    var q := FedTo(skip, p, Lines(ls));
    LeavingLine(skip, q, end, rest);
    FeedAppend(skip, p, Lines(ls), end + rest);
    assert Lines(ls) + (end + rest) == Lines(ls) + end + rest;
    SameRefl([HeadersComplete, MessageComplete]);
    SameAppend(Feed(skip, p, Lines(ls)).events, LineEvents(ls), [HeadersComplete, MessageComplete], [HeadersComplete, MessageComplete]);
  }

  // ---------- whole messages ----------

  /** What follows the headers of a message. */
  datatype Payload = Nothing | Bytes(bytes: string) | Pieces(body: Coded) | UntilClose(rest: string)

  function PayloadText(b: Payload): string {
    match b case Nothing => "" case Bytes(s) => s case Pieces(c) => Text(c) case UntilClose(s) => s
  }

  function PayloadEvents(b: Payload): seq<Event> {
    match b
    case Nothing => [MessageComplete]
    case Bytes(s) => [Data(Body, s), MessageComplete]
    case Pieces(c) => Meaning(c)
    case UntilClose(s) => DataOf(Body, s)
  }

  /** The headers of a request ask for this payload (section 4.4 of RFC 2616). */
  predicate RequestAsksFor(a: Asked, b: Payload) {
    if a.flags.chunked then b.Pieces? && IsCoded(b.body)
    else if a.length == ULLONG_MAX || a.length == 0 then b.Nothing?
    else b.Bytes? && |b.bytes| == a.length
  }

  /** The status and the headers of a response do. */
  predicate ResponseAsksFor(a: Asked, status: nat, b: Payload) {
    if a.flags.chunked then b.Pieces? && IsCoded(b.body)
    else if a.length == 0 then b.Nothing?
    else if a.length < ULLONG_MAX then b.Bytes? && |b.bytes| == a.length
    else if 100 <= status < 200 || status == 204 || status == 304 then b.Nothing?
    else b.UntilClose?
  }

  /** The flags of the message when it has ended. */
  function FinalFlags(f: Flags, b: Payload): Flags
    requires b.Pieces? ==> IsCoded(b.body)
  {
    if b.Pieces? then TrailerFlags(f, b.body) else f
  }

  /** Ended, or in a body that lasts until the connection is closed. */
  ghost predicate Over(p: Parser, f: Flags, b: Payload, q: Parser)
    requires b.Pieces? ==> IsCoded(b.body)
  {
    if b.UntilClose? then q.state == BodyIdentityEof && q.errno == OK && q.flags == f else Ended(p, FinalFlags(f, b), q)
  }

  /** The payload is what the headers frame. */
  predicate Framed(b: Payload, f: Framing) {
    match b
    case Nothing => f == NoBody
    case Bytes(s) => f == Declared(|s|) && 0 < |s| < ULLONG_MAX
    case Pieces(c) => f == InChunks && IsCoded(c)
    case UntilClose(_) => f == UntilEof
  }

  lemma {:induction false} RestOfConnection(skip: Parser -> bool, p: Parser, s: string)
    requires p.state == BodyIdentityEof && p.errno == OK
    ensures Feeds(skip, p, s, DataOf(Body, s)) && FedTo(skip, p, s) == p
  {
    hide Same;
    if s == "" {
      FeedsNone(skip, p);
    } else {
      BodyRun(skip, p, s);
      assert [Data(Body, s)] + [] == [Data(Body, s)];
    }
  }

  /** The headers and the payload. */
  lemma {:induction false} AfterStartLine(skip: Parser -> bool, p: Parser, ls: seq<Line>, end: string, b: Payload)
    requires AtHeaders(p, ls, end) && !Skips(skip, p, ls, end) && Framed(b, FramingOf(Told(p, ls), false))
    ensures Feeds(skip, p, Lines(ls) + end + PayloadText(b), LineEvents(ls) + [HeadersComplete] + PayloadEvents(b))
    ensures Over(p, Told(p, ls).flags, b, FedTo(skip, p, Lines(ls) + end + PayloadText(b)))
  {
    hide Feeds, FedTo, AreLines, Lines, LineEvents, Told, FramingOf, AtLine, Skips, IsCoded, TrailerFlags;
    match b {
      case Nothing =>
        MessageWithoutBody(skip, p, ls, end);
        assert Lines(ls) + end + "" == Lines(ls) + end;
        assert LineEvents(ls) + [HeadersComplete] + [MessageComplete] == LineEvents(ls) + [HeadersComplete, MessageComplete];
      case Bytes(s) => MessageWithLength(skip, p, ls, end, s);
      case Pieces(c) => MessageInChunks(skip, p, ls, end, c);
      case UntilClose(s) =>
        HeadersToBody(skip, p, ls, end);
        RestOfConnection(skip, FedTo(skip, p, Lines(ls) + end), s);
        FeedsThen(skip, p, Lines(ls) + end, LineEvents(ls) + [HeadersComplete], s, DataOf(Body, s));
    }
  }

  /** The callback never asks for a body to be skipped. */
  ghost predicate NeverSkips(skip: Parser -> bool) {
    forall p: Parser :: !skip(p)
  }

  lemma {:induction false} Unskipped(skip: Parser -> bool, p: Parser, ls: seq<Line>, end: string)
    requires NeverSkips(skip)
    ensures !Skips(skip, p, ls, end)
  {
  }

  const FRESH := Asked(NO_FLAGS, ULLONG_MAX)

  /** A request: its line, its headers and its payload. */
  datatype RequestMessage = RequestMessage(line: RequestLine, headers: seq<Line>, end: string, payload: Payload)

  predicate IsRequest(m: RequestMessage) {
    && IsRequestLine(m.line) && m.line.verb != CONNECT && AreLines(m.headers) && IsEnd(m.end)
    && !WithLines(FRESH, m.headers).flags.upgrade && RequestAsksFor(WithLines(FRESH, m.headers), m.payload)
  }

  function Head(m: RequestMessage): string {
    RequestText(m.line) + (Lines(m.headers) + m.end)
  }

  function RequestEvents(m: RequestMessage): seq<Event> {
    [MessageBegin, Data(Url, G.Text(m.line.url))] + (LineEvents(m.headers) + [HeadersComplete] + PayloadEvents(m.payload))
  }

  lemma {:induction false} RequestFramed(p: Parser, ls: seq<Line>, b: Payload)
    requires AreLines(ls) && p.flags == NO_FLAGS && p.length == ULLONG_MAX && p.ptype == Request && RequestAsksFor(WithLines(FRESH, ls), b)
    ensures Framed(b, FramingOf(Told(p, ls), false)) && !Told(p, ls).flags.skipBody
  {
    hide WithLines, IsCoded;
    FlagsKept(FRESH, ls);
  }

  /** From the first byte of a request: whatever method, URL, version, headers and payload it is
      composed of, the parser delivers them, and one message begins and ends. */
  lemma {:induction false} RequestRoundTrip(skip: Parser -> bool, p: Parser, m: RequestMessage)
    requires p.state == StartReq && p.ptype == Request && p.errno == OK && NeverSkips(skip)
    requires IsRequest(m) && p.nread + |Head(m)| <= MAX_HEADER_SIZE
    ensures Feeds(skip, p, Head(m) + PayloadText(m.payload), RequestEvents(m))
    ensures var q := FedTo(skip, p, Head(m) + PayloadText(m.payload));
      Over(p.(major := m.line.major, minor := m.line.minor), WithLines(FRESH, m.headers).flags, m.payload, q)
  {
    hide Feeds, FedTo, AreLines, Lines, LineEvents, WithLines, IsRequestLine, RequestText, G.Text, NeverSkips, Skips, FramingOf, RequestAsksFor, Framed, IsCoded, PayloadText, PayloadEvents;
    var start, ls, end := RequestText(m.line), m.headers, m.end;
    var rest := Lines(ls) + end + PayloadText(m.payload);
    RequestLineFeeds(skip, p, m.line);
    var q := FedTo(skip, p, start);
    RequestFramed(q, ls, m.payload);
    Unskipped(skip, q, ls, end);
    AfterStartLine(skip, q, ls, end, m.payload);
    FeedsThen(skip, p, start, [MessageBegin, Data(Url, G.Text(m.line.url))], rest, LineEvents(ls) + [HeadersComplete] + PayloadEvents(m.payload));
    assert start + rest == Head(m) + PayloadText(m.payload);
  }

  /** A response. */
  datatype ResponseMessage = ResponseMessage(line: StatusLine, headers: seq<Line>, end: string, payload: Payload)

  predicate IsResponse(m: ResponseMessage) {
    && IsStatusLine(m.line) && AreLines(m.headers) && IsEnd(m.end)
    && !WithLines(FRESH, m.headers).flags.upgrade && ResponseAsksFor(WithLines(FRESH, m.headers), m.line.status, m.payload)
  }

  function ResponseHead(m: ResponseMessage): string {
    StatusText(m.line) + (Lines(m.headers) + m.end)
  }

  function ResponseEvents(m: ResponseMessage): seq<Event> {
    [MessageBegin] + (LineEvents(m.headers) + [HeadersComplete] + PayloadEvents(m.payload))
  }

  lemma {:induction false} ResponseFramed(p: Parser, ls: seq<Line>, b: Payload)
    requires AreLines(ls) && p.flags == NO_FLAGS && p.length == ULLONG_MAX && p.ptype == Response && ResponseAsksFor(WithLines(FRESH, ls), p.status, b)
    ensures Framed(b, FramingOf(Told(p, ls), false)) && !Told(p, ls).flags.skipBody
  {
    hide WithLines, IsCoded;
    FlagsKept(FRESH, ls);
    assert p.status / 100 == 1 <==> 100 <= p.status < 200;
  }

  /** From the first byte of a response, likewise; a body without a declared length lasts until
      the connection is closed. */
  lemma {:induction false} ResponseRoundTrip(skip: Parser -> bool, p: Parser, m: ResponseMessage)
    requires p.state == StartRes && p.ptype == Response && p.errno == OK && p.verb != CONNECT && NeverSkips(skip)
    requires IsResponse(m) && p.nread + |ResponseHead(m)| <= MAX_HEADER_SIZE
    ensures Feeds(skip, p, ResponseHead(m) + PayloadText(m.payload), ResponseEvents(m))
    ensures var q := FedTo(skip, p, ResponseHead(m) + PayloadText(m.payload));
      Over(p.(major := m.line.major, minor := m.line.minor), WithLines(FRESH, m.headers).flags, m.payload, q)
  {
    hide Feeds, FedTo, AreLines, Lines, LineEvents, WithLines, IsStatusLine, StatusText, NeverSkips, Skips, FramingOf, ResponseAsksFor, Framed, IsCoded, PayloadText, PayloadEvents;
    var start, ls, end := StatusText(m.line), m.headers, m.end;
    var rest := Lines(ls) + end + PayloadText(m.payload);
    StatusLineFeeds(skip, p, m.line);
    var q := FedTo(skip, p, start);
    ResponseFramed(q, ls, m.payload);
    Unskipped(skip, q, ls, end);
    AfterStartLine(skip, q, ls, end, m.payload);
    FeedsThen(skip, p, start, [MessageBegin], rest, LineEvents(ls) + [HeadersComplete] + PayloadEvents(m.payload));
    assert start + rest == ResponseHead(m) + PayloadText(m.payload);
  }
}
