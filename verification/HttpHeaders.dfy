/** Header lines: from the text of a header section to the flags and the length that decide how
    its message goes on. */
module HttpHeaders {
  import opened Options
  import opened HttpState
  import opened Http
  import opened HttpBody

  // ---------- text ----------

  /** A line that continues the value of the line above; `blank` is the white space it begins
      with. */
  datatype Fold = Fold(blank: string, value: string, end: string)

  /** A header line; `blank` is the white space before the value. */
  datatype Line = Line(name: string, blank: string, value: string, end: string, folds: seq<Fold>)

  /** What ends a line. */
  predicate IsEnd(end: string) { end == "\r\n" || end == "\n" }

  /** The characters of a token (section 2.2 of RFC 2616). */
  predicate TokenChar(ch: char) {
    33 <= ch as int <= 126 && ch !in "()<>@,;:\\\"/[]?={}"
  }

  function LowerChar(ch: char): char {
    if 'A' <= ch <= 'Z' then (ch as int + 32) as char else ch
  }

  function LowerCase(s: string): (r: string)
    ensures |r| == |s| && forall k :: 0 <= k < |s| ==> r[k] == LowerChar(s[k])
  {
    seq(|s|, k requires 0 <= k < |s| => LowerChar(s[k]))
  }

  predicate IsName(s: string) {
    forall k :: 0 <= k < |s| ==> TokenChar(s[k])
  }

  predicate AllBlank(s: string) {
    forall k :: 0 <= k < |s| ==> s[k] == ' ' || s[k] == '\t'
  }

  /** The value is this word in any case, with any spaces behind it. */
  predicate Says(v: string, word: string) {
    |v| >= |word| && LowerCase(v[..|word|]) == word && forall k :: |word| <= k < |v| ==> v[k] == ' '
  }

  /** What is stored for a Content-Length of digits and spaces; -1 if it is refused. */
  function Amount(v: string): (n: int)
    requires v != ""
    ensures -1 <= n <= ULLONG_MAX
  {
    var last := v[|v| - 1];
    if |v| == 1 then (if IsNum(last) then Digit(last) else -1)
    else
      var n := Amount(v[..|v| - 1]);
      if n < 0 then -1 else if last == ' ' then n else if !IsNum(last) then -1 else Accumulate(n, 10, Digit(last))
  }

  /** A value, without the white space around it; it is a length if `counts`. */
  predicate IsValue(counts: bool, v: string) {
    CR !in v && LF !in v && (v != "" ==> v[0] != ' ' && v[0] != '\t' && (counts ==> Amount(v) >= 0))
  }

  /** A line feed alone in the place of a value admits no line that continues it. */
  predicate Continues(v: string, end: string) { v != "" || end == "\r\n" }

  predicate AreFolds(counts: bool, fs: seq<Fold>) {
    fs != [] ==>
      && fs[0].blank != "" && AllBlank(fs[0].blank) && IsValue(counts, fs[0].value) && IsEnd(fs[0].end)
      && (fs[1..] != [] ==> Continues(fs[0].value, fs[0].end)) && AreFolds(counts && fs[0].value != "", fs[1..])
  }

  /** The value is one that a length is read from. */
  predicate Counts(l: Line) { LowerCase(l.name) == "content-length" && l.value != "" }

  predicate IsLine(l: Line) {
    && l.name != "" && IsName(l.name) && AllBlank(l.blank) && IsEnd(l.end)
    && IsValue(Counts(l), l.value)
    && (l.folds != [] ==> Continues(l.value, l.end)) && AreFolds(Counts(l), l.folds)
  }

  function FoldsText(fs: seq<Fold>): string {
    if fs == [] then "" else fs[0].blank + fs[0].value + fs[0].end + FoldsText(fs[1..])
  }

  function FirstText(l: Line): string {
    l.name + ":" + l.blank + l.value + l.end
  }

  function LineText(l: Line): string {
    FirstText(l) + FoldsText(l.folds)
  }

  function FoldsValue(fs: seq<Fold>): string {
    if fs == [] then "" else fs[0].value + FoldsValue(fs[1..])
  }

  /** The value that is delivered. */
  function WholeValue(l: Line): string {
    l.value + FoldsValue(l.folds)
  }

  function Lines(ls: seq<Line>): string {
    if ls == [] then "" else LineText(ls[0]) + Lines(ls[1..])
  }

  predicate AreLines(ls: seq<Line>) {
    forall k :: 0 <= k < |ls| ==> IsLine(ls[k])
  }

  function LineEvents(ls: seq<Line>): seq<Event> {
    if ls == [] then [] else [Data(Field, ls[0].name), Data(Value, WholeValue(ls[0]))] + LineEvents(ls[1..])
  }

  /** What the header lines so far ask for. */
  datatype Asked = Asked(flags: Flags, length: U64)

  /** What the first part of a line adds. */
  function WithFirst(a: Asked, l: Line): Asked
    requires IsLine(l)
  {
    var name := LowerCase(l.name);
    if l.value == "" then a
    else if name == "content-length" then a.(length := Amount(l.value))
    else if name == "transfer-encoding" then (if Says(l.value, "chunked") then a.(flags := a.flags.(chunked := true)) else a)
    else if name == "connection" || name == "proxy-connection" then
      (if Says(l.value, "keep-alive") then a.(flags := a.flags.(keepAlive := true))
       else if Says(l.value, "close") then a.(flags := a.flags.(close := true)) else a)
    else if name == "upgrade" then a.(flags := a.flags.(upgrade := true))
    else a
  }

  /** What the lines that continue it add: a length is read anew from each, as long as none is
      empty; anything else they might ask for is not heeded. */
  function WithFolds(a: Asked, counts: bool, fs: seq<Fold>): Asked
    requires AreFolds(counts, fs)
    decreases |fs|
  {
    if fs == [] then a
    else WithFolds(if counts && fs[0].value != "" then a.(length := Amount(fs[0].value)) else a, counts && fs[0].value != "", fs[1..])
  }

  /** What one more line adds. */
  function WithLine(a: Asked, l: Line): Asked
    requires IsLine(l)
  {
    WithFolds(WithFirst(a, l), Counts(l), l.folds)
  }

  function WithLines(a: Asked, ls: seq<Line>): Asked
    requires AreLines(ls)
    decreases |ls|
  {
    if ls == [] then a else WithLines(WithLine(a, ls[0]), ls[1..])
  }

  lemma {:induction false} LowerMore(s: string, ch: char)
    ensures LowerCase(s + [ch]) == LowerCase(s) + [LowerChar(ch)] && LowerCase([ch]) == [LowerChar(ch)] && LowerCase("") == ""
  {
  }

  /** The parser's table of tokens, which also puts them in lower case. */
  lemma {:induction false} TokenTable(ch: char)
    ensures Token(ch) == if TokenChar(ch) then LowerChar(ch) else '\0'
    ensures TokenChar(ch) ==> LowerChar(ch) != '\0' && ch != ' ' && ch != '\t' && ch != CR && ch != LF && ch != ':'
  {
  }

  /** The byte with bit 5 set, against a lower-case letter or a hyphen. */
  lemma {:induction false} LowerByte(ch: char, w: char)
    requires 'a' <= w <= 'z' || (w == '-' && ch != CR)
    ensures Lower(ch) == w as nat <==> LowerChar(ch) == w
  {
  }

  // ---------- feeding ----------

  /** Feeding `s` goes well and means `es`. */
  ghost predicate Feeds(skip: Parser -> bool, p: Parser, s: string, es: seq<Event>) {
    Feed(skip, p, s).Fine? && Same(Feed(skip, p, s).events, es)
  }

  function FedTo(skip: Parser -> bool, p: Parser, s: string): Parser {
    Feed(skip, p, s).p
  }

  lemma {:induction false} FeedsNone(skip: Parser -> bool, p: Parser)
    ensures Feeds(skip, p, "", []) && FedTo(skip, p, "") == p
  {
  }

  lemma {:induction false} FeedsThen(skip: Parser -> bool, p: Parser, a: string, es: seq<Event>, b: string, fs: seq<Event>)
    requires Feeds(skip, p, a, es) && Feeds(skip, FedTo(skip, p, a), b, fs)
    ensures Feeds(skip, p, a + b, es + fs) && FedTo(skip, p, a + b) == FedTo(skip, FedTo(skip, p, a), b)
  {
    hide Feed, Same;
    FeedAppend(skip, p, a, b);
    SameAppend(Feed(skip, p, a).events, es, Feed(skip, FedTo(skip, p, a), b).events, fs);
  }

  lemma {:induction false} FeedsByte(skip: Parser -> bool, p: Parser, ch: char, q: Parser, es: seq<Event>)
    requires ByteStep(skip, p, ch) == Fine(q, es)
    ensures Feeds(skip, p, [ch], es) && FedTo(skip, p, [ch]) == q
  {
    hide Feed, ByteStep;
    FeedByteEvents(skip, p, ch, q, es);
  }

  lemma {:induction false} FeedsSame(skip: Parser -> bool, p: Parser, s: string, es: seq<Event>, fs: seq<Event>)
    requires Feeds(skip, p, s, es) && Same(es, fs)
    ensures Feeds(skip, p, s, fs)
  {
  }

  lemma {:induction false} Chain(skip: Parser -> bool, p: Parser, a: string, q: Parser, es: seq<Event>, b: string, r: Parser, fs: seq<Event>)
    requires Feed(skip, p, a) == Fine(q, es) && Feed(skip, q, b) == Fine(r, fs)
    ensures Feed(skip, p, a + b) == Fine(r, es + fs)
  {
    hide Feed;
    FeedAppend(skip, p, a, b);
  }

  lemma {:induction false} FeedTwo(skip: Parser -> bool, p: Parser, a: char, b: char)
    requires ByteStep(skip, p, a).Fine? && ByteStep(skip, ByteStep(skip, p, a).p, b).Fine?
    ensures var q := ByteStep(skip, p, a);
            var r := ByteStep(skip, q.p, b);
            Feed(skip, p, [a, b]) == Fine(r.p, q.events + r.events)
  {
    hide ByteStep;
    assert [a, b][1..] == [b] && [b][1..] == "";
    var q := ByteStep(skip, p, a);
    var r := ByteStep(skip, q.p, b);
    assert r.events + [] == r.events;
    assert Feed(skip, q.p, [b]) == Later(r.events, Feed(skip, r.p, ""));
    assert Feed(skip, p, [a, b]) == Later(q.events, Feed(skip, q.p, [b]));
  }

  function DataOf(k: Kind, s: string): seq<Event> {
    if s == "" then [] else [Data(k, s)]
  }

  lemma {:induction false} NoData(k: Kind)
    ensures DataOf(k, "") == []
  {
  }

  /** A byte of data, and then more. */
  lemma {:induction false} FeedsData(skip: Parser -> bool, p: Parser, ch: char, q: Parser, k: Kind, s: string)
    requires ByteStep(skip, p, ch) == Fine(q, [Data(k, [ch])]) && Feeds(skip, q, s, DataOf(k, s))
    ensures Feeds(skip, p, [ch] + s, DataOf(k, [ch] + s)) && FedTo(skip, p, [ch] + s) == FedTo(skip, q, s)
  {
    hide Feed, ByteStep, Same;
    FeedsByte(skip, p, ch, q, [Data(k, [ch])]);
    FeedsThen(skip, p, [ch], [Data(k, [ch])], s, DataOf(k, s));
    SameData(k, [ch], s);
    SameVia2(Feed(skip, p, [ch] + s).events, [Data(k, [ch])] + DataOf(k, s), DataOf(k, [ch] + s));
  }

  lemma {:induction false} SameData(k: Kind, a: string, b: string)
    requires a != ""
    ensures Same([Data(k, a)] + DataOf(k, b), DataOf(k, a + b))
  {
    hide Same;
    if b == "" {
      assert a + b == a && [Data(k, a)] + [] == [Data(k, a)];
      SameRefl([Data(k, a)]);
    } else {
      JoinData(k, a, b);
      assert [Data(k, a)] + [Data(k, b)] == [Data(k, a), Data(k, b)];
    }
  }

  lemma {:induction false} SameVia2(a: seq<Event>, b: seq<Event>, c: seq<Event>)
    requires Same(a, b) && Same(b, c)
    ensures Same(a, c)
  {
  }

  /** The byte that ends a piece of data adds nothing to it. */
  lemma {:induction false} FeedsEnd(skip: Parser -> bool, p: Parser, s: string, k: Kind, end: string)
    requires Feeds(skip, p, s, [Data(k, s)]) && Feeds(skip, FedTo(skip, p, s), end, [Data(k, "")])
    ensures Feeds(skip, p, s + end, [Data(k, s)]) && FedTo(skip, p, s + end) == FedTo(skip, FedTo(skip, p, s), end)
  {
    hide Feeds, FedTo, Same;
    FeedsThen(skip, p, s, [Data(k, s)], end, [Data(k, "")]);
    JoinData(k, s, "");
    assert s + "" == s && [Data(k, s)] + [Data(k, "")] == [Data(k, s), Data(k, "")];
    FeedsSame(skip, p, s + end, [Data(k, s)] + [Data(k, "")], [Data(k, s)]);
  }

  // ---------- names ----------

  /** Between two header lines. */
  ghost predicate AtLine(p: Parser) {
    (p.state == HeaderFieldStart || p.state == HeaderValueLws) && p.errno == OK
  }

  /** Somewhere else in the headers, `n` bytes later; nothing that matters afterwards has
      changed. */
  ghost predicate Moved(p: Parser, q: Parser, s: State, n: nat) {
    q == p.(state := s, header := q.header, index := q.index, nread := p.nread + n)
  }

  predicate Begins(low: string, word: string) {
    1 <= |low| <= |word| && low == word[..|low|]
  }

  /** How far the parser is with the names it knows when it has read `low`. */
  function Progress(low: string): HeaderState {
    if low == "c" then C
    else if low == "co" then CO
    else if low == "con" then CON
    else if Begins(low, "connection") then (if |low| == 10 then Connection else MatchingConnection)
    else if Begins(low, "content-length") then (if |low| == 14 then ContentLength else MatchingContentLength)
    else if Begins(low, "proxy-connection") then (if |low| == 16 then Connection else MatchingProxyConnection)
    else if Begins(low, "transfer-encoding") then (if |low| == 17 then TransferEncoding else MatchingTransferEncoding)
    else if Begins(low, "upgrade") then (if |low| == 7 then Upgrade else MatchingUpgrade)
    else General
  }

  predicate Matching(h: HeaderState) {
    h.C? || h.CO? || h.CON? || h.MatchingConnection? || h.MatchingProxyConnection? || h.MatchingContentLength?
    || h.MatchingTransferEncoding? || h.MatchingUpgrade?
  }

  predicate Recognised(p: Parser, low: string) {
    low != "" && p.header == Progress(low) && (Matching(p.header) ==> p.index == |low| - 1)
  }

  lemma {:induction false} BeginsNext(low: string, ch: char, word: string)
    requires low != ""
    ensures Begins(low + [ch], word) <==> Begins(low, word) && |low| < |word| && ch == word[|low|]
  {
    var more := low + [ch];
    if |low| < |word| {
      assert word[..|more|] == word[..|low|] + [word[|low|]];
      assert more == word[..|more|] ==> more[..|low|] == word[..|more|][..|low|] && more[|low|] == word[..|more|][|low|];
    }
  }

  /** A word being matched, and none of the others. */
  lemma {:induction false} MatchProgress(p: Parser, low: string, ch: char, word: string, matching: HeaderState, matched: HeaderState)
    requires Begins(low, word) && 1 <= |low| < |word| < 256 && p.header == matching && p.index == |low| - 1
    ensures var q := Match(p, ch as nat, word, matched);
      q.index == |low| && q.header == (if ch != word[|low|] then General else if |low| == |word| - 1 then matched else matching)
  {
  }

  lemma {:induction false} FirstLetters(low: string)
    ensures Begins(low, "connection") || Begins(low, "content-length") ==> low[0] == 'c'
    ensures Begins(low, "proxy-connection") ==> low[0] == 'p'
    ensures Begins(low, "transfer-encoding") ==> low[0] == 't'
    ensures Begins(low, "upgrade") ==> low[0] == 'u'
    ensures |low| >= 4 && Begins(low, "connection") ==> low[3] == 'n'
    ensures |low| >= 4 && Begins(low, "content-length") ==> low[3] == 't'
  {
    if Begins(low, "connection") { assert low[0] == "connection"[..|low|][0]; }
    if Begins(low, "content-length") { assert low[0] == "content-length"[..|low|][0]; }
    if Begins(low, "proxy-connection") { assert low[0] == "proxy-connection"[..|low|][0]; }
    if Begins(low, "transfer-encoding") { assert low[0] == "transfer-encoding"[..|low|][0]; }
    if Begins(low, "upgrade") { assert low[0] == "upgrade"[..|low|][0]; }
    if |low| >= 4 {
      if Begins(low, "connection") { assert low[3] == "connection"[..|low|][3]; }
      if Begins(low, "content-length") { assert low[3] == "content-length"[..|low|][3]; }
    }
  }

  lemma {:induction false} ShortNext(low: string, ch: char)
    requires low != ""
    ensures low + [ch] != "c" && (low + [ch] == "co" <==> low == "c" && ch == 'o') && (low + [ch] == "con" <==> low == "co" && ch == 'n')
    ensures Begins(low, "connection") && |low| < 4 ==> low == "c" || low == "co" || low == "con"
    ensures Begins(low, "content-length") && |low| < 4 ==> low == "c" || low == "co" || low == "con"
    ensures low == "con" ==> Begins(low, "connection") && Begins(low, "content-length")
    ensures low == "co" ==> Begins(low, "connection") && Begins(low, "content-length")
    ensures low == "c" ==> Begins(low, "connection") && Begins(low, "content-length")
  {
    if low + [ch] == "co" { assert low == "co"[..1] && ch == "co"[1]; }
    if low + [ch] == "con" { assert low == "con"[..2] && ch == "con"[2]; }
  }

  /** Whatever the parser has recognised of a name, it recognises exactly with the next character. */
  lemma {:induction false} RecognisedNext(p: Parser, low: string, ch: char)
    requires FieldHeader(p.header) && Recognised(p, low) && TokenChar(ch)
    ensures Recognised(FieldChar(p, ch, LowerChar(ch)), low + [LowerChar(ch)])
  {
    hide Begins, Match;
    var c := LowerChar(ch);
    TokenTable(ch);
    hide TokenChar, LowerChar;
    FirstLetters(low);
    ShortNext(low, c);
    BeginsNext(low, c, "connection");
    BeginsNext(low, c, "content-length");
    BeginsNext(low, c, "proxy-connection");
    BeginsNext(low, c, "transfer-encoding");
    BeginsNext(low, c, "upgrade");
    BeginsLength(low);
    match p.header
    case MatchingConnection => MatchProgress(p, low, c, "connection", MatchingConnection, Connection);
    case MatchingContentLength => MatchProgress(p, low, c, "content-length", MatchingContentLength, ContentLength);
    case MatchingProxyConnection => MatchProgress(p, low, c, "proxy-connection", MatchingProxyConnection, Connection);
    case MatchingTransferEncoding => MatchProgress(p, low, c, "transfer-encoding", MatchingTransferEncoding, TransferEncoding);
    case MatchingUpgrade => MatchProgress(p, low, c, "upgrade", MatchingUpgrade, Upgrade);
    case _ =>
  }

  lemma {:induction false} BeginsLength(low: string)
    ensures Begins(low, "connection") ==> 1 <= |low| <= 10
    ensures Begins(low, "content-length") ==> 1 <= |low| <= 14
    ensures Begins(low, "proxy-connection") ==> 1 <= |low| <= 16
    ensures Begins(low, "transfer-encoding") ==> 1 <= |low| <= 17
    ensures Begins(low, "upgrade") ==> 1 <= |low| <= 7
  {
  }

  // ---------- bytes of a line ----------

  lemma {:induction false} EventsNone()
    ensures Events([]) == []
  {
  }

  lemma {:induction false} FlushOne(k: Kind)
    requires k != Body
    ensures Events([Flush(k)]) == [Data(k, "")] && Events([Mark(k)]) == [] && Events([Mark(k), Flush(k)]) == [Data(k, "")]
  {
    assert [Flush(k)][1..] == [] && [Mark(k)][1..] == [] && [Mark(k), Flush(k)][1..] == [Flush(k)];
  }

  lemma {:induction false} OpenedData(ch: char)
    ensures OpenData(HeaderField, ch) == [Data(Field, [ch])] && OpenData(HeaderValue, ch) == [Data(Value, [ch])]
    ensures forall s :: s in {HeaderValueStart, HeaderAlmostDone, HeaderValueLws, HeadersAlmostDone} ==> OpenData(s, ch) == []
  {
  }

  /** The first byte after the end of a header line. */
  lemma {:induction false} LineByte(skip: Parser -> bool, p: Parser, ch: char, s: Step)
    requires AtLine(p) && p.nread < MAX_HEADER_SIZE && ch != ' ' && ch != '\t'
    requires s == OnFieldStart(p.(nread := p.nread + 1, state := HeaderFieldStart), ch) && s.Go? && !s.again
    ensures ByteStep(skip, p, ch) == Fine(s.p, Events(s.acts) + OpenData(s.p.state, ch))
  {
    hide Switch, Events, OpenData, OnFieldStart, Turn, ByteStep;
    var q, t := p.(nread := p.nread + 1), p.(nread := p.nread + 1, state := HeaderFieldStart);
    FieldStartSwitch(t, ch, skip(t));
    if p.state == HeaderFieldStart {
      HeaderByte(skip, p, ch, s);
    } else {
      HeaderTurn(skip, p, ch);
      LwsSwitch(q, ch, skip(q));
      TurnTwice(skip, q, ch, t);
      TurnOnce(skip, t, ch);
    }
  }

  lemma {:induction false} TurnTwice(skip: Parser -> bool, p: Parser, ch: char, q: Parser)
    requires !TakesBody(p.state) && !TakesBody(q.state) && Switch(p, ch, skip(p)) == Go(q, [], true)
    ensures Turn(skip, p, ch) == Turn(skip, q, ch)
  {
    hide Switch, Shape, OpenKind;
    EventsNone();
    var r := Turn(skip, q, ch);
    assert !r.Broken? ==> [] + r.events == r.events;
  }

  lemma {:induction false} FieldStartSwitch(p: Parser, ch: char, skipped: bool)
    requires p.state == HeaderFieldStart
    ensures Switch(p, ch, skipped) == OnFieldStart(p, ch)
  {
    hide OnFieldStart;
  }

  lemma {:induction false} LwsSwitch(p: Parser, ch: char, skipped: bool)
    requires p.state == HeaderValueLws && ch != ' ' && ch != '\t'
    ensures Switch(p, ch, skipped) == Go(p.(state := HeaderFieldStart), [], true)
  {
    hide OnFieldStart;
  }

  lemma {:induction false} FieldSwitch(p: Parser, ch: char, skipped: bool)
    requires p.state == HeaderField
    ensures Switch(p, ch, skipped) == OnField(p, ch)
  {
    hide OnField;
  }

  lemma {:induction false} FieldColon(p: Parser)
    ensures OnField(p, ':') == Go(p.(state := HeaderValueStart), [Flush(Field)], false)
  {
    hide FieldChar;
  }

  lemma {:induction false} HeaderDoneSwitch(p: Parser, skipped: bool)
    requires p.state == HeaderAlmostDone
    ensures Switch(p, LF, skipped) == OnHeaderDone(p, LF)
  {
    hide OnHeaderDone;
  }

  lemma {:induction false} FieldStartStep(p: Parser, ch: char)
    requires TokenChar(ch)
    ensures var s := OnFieldStart(p, ch);
      && s.Go? && !s.again && s.acts == [Mark(Field)] && s.p == p.(state := HeaderField, index := 0, header := s.p.header)
      && FieldHeader(s.p.header) && Recognised(s.p, [LowerChar(ch)])
  {
    hide Token, TokenChar, LowerChar;
    TokenTable(ch);
    var c := LowerChar(ch);
    assert Begins([c], "connection") <==> c == 'c' by { assert "connection"[..1] == ['c']; }
    assert Begins([c], "content-length") <==> c == 'c' by { assert "content-length"[..1] == ['c']; }
    assert Begins([c], "proxy-connection") <==> c == 'p' by { assert "proxy-connection"[..1] == ['p']; }
    assert Begins([c], "transfer-encoding") <==> c == 't' by { assert "transfer-encoding"[..1] == ['t']; }
    assert Begins([c], "upgrade") <==> c == 'u' by { assert "upgrade"[..1] == ['u']; }
    hide Begins;
  }

  lemma {:induction false} NameFirst(skip: Parser -> bool, p: Parser, ch: char)
    requires AtLine(p) && p.nread < MAX_HEADER_SIZE && TokenChar(ch)
    ensures var r := ByteStep(skip, p, ch);
      r.Fine? && r.events == [Data(Field, [ch])] && Moved(p, r.p, HeaderField, 1) && FieldHeader(r.p.header) && Recognised(r.p, [LowerChar(ch)])
  {
    hide ByteStep, TokenChar, LowerChar, Recognised, FieldHeader, OnFieldStart, Events, OpenData;
    TokenTable(ch);
    var q := p.(nread := p.nread + 1, state := HeaderFieldStart);
    FieldStartStep(q, ch);
    LineByte(skip, p, ch, OnFieldStart(q, ch));
    FlushOne(Field);
    OpenedData(ch);
    assert [] + [Data(Field, [ch])] == [Data(Field, [ch])];
  }

  lemma {:induction false} NameNext(skip: Parser -> bool, p: Parser, low: string, ch: char)
    requires p.state == HeaderField && p.nread < MAX_HEADER_SIZE && FieldHeader(p.header) && Recognised(p, low) && TokenChar(ch)
    ensures var r := ByteStep(skip, p, ch);
      r.Fine? && r.events == [Data(Field, [ch])] && Moved(p, r.p, HeaderField, 1) && FieldHeader(r.p.header) && Recognised(r.p, low + [LowerChar(ch)])
  {
    hide ByteStep, Switch, Token, TokenChar, LowerChar, Recognised, FieldHeader, FieldChar, Events, OpenData;
    var q := p.(nread := p.nread + 1);
    TokenTable(ch);
    RecognisedCount(p, low);
    RecognisedNext(q, low, ch);
    FieldStays(q, ch, Token(ch));
    FieldSwitch(q, ch, skip(q));
    HeaderByte(skip, p, ch, OnField(q, ch));
    EventsNone();
    OpenedData(ch);
    assert [] + [Data(Field, [ch])] == [Data(Field, [ch])];
  }

  lemma {:induction false} RecognisedCount(p: Parser, low: string)
    requires Recognised(p, low)
    ensures Recognised(p.(nread := p.nread + 1), low)
  {
  }

  lemma {:induction false} LowerFirst(s: string)
    requires s != ""
    ensures LowerCase(s) == [LowerChar(s[0])] + LowerCase(s[1..])
  {
  }

  lemma {:induction false} LowerStep(low: string, s: string)
    requires s != ""
    ensures low + [LowerChar(s[0])] + LowerCase(s[1..]) == low + LowerCase(s)
  {
    hide LowerCase, LowerChar;
    LowerFirst(s);
    var a, b := [LowerChar(s[0])], LowerCase(s[1..]);
    assert low + a + b == low + (a + b);
  }

  lemma {:induction false} LowerNone(low: string)
    ensures low + LowerCase("") == low
  {
  }

  lemma {:induction false} NameParts(s: string)
    requires IsName(s) && s != ""
    ensures TokenChar(s[0]) && IsName(s[1..]) && s == [s[0]] + s[1..]
  {
    hide TokenChar;
  }

  /** The rest of a name. */
  lemma {:induction false} NameRest(skip: Parser -> bool, p: Parser, low: string, s: string)
    requires p.state == HeaderField && FieldHeader(p.header) && Recognised(p, low)
    requires IsName(s) && p.nread + |s| <= MAX_HEADER_SIZE
    ensures Feeds(skip, p, s, DataOf(Field, s))
    ensures var q := FedTo(skip, p, s); Moved(p, q, HeaderField, |s|) && Recognised(q, low + LowerCase(s))
    decreases |s|
  {
    hide Feeds, FedTo, TokenChar, IsName, LowerChar, LowerCase, Recognised, FieldHeader, DataOf, ByteStep;
    if s == "" {
      FeedsNone(skip, p);
      NoData(Field);
      LowerNone(low);
    } else {
      NameParts(s);
      NameNext(skip, p, low, s[0]);
      var q := ByteStep(skip, p, s[0]).p;
      NameRest(skip, q, low + [LowerChar(s[0])], s[1..]);
      FeedsData(skip, p, s[0], q, Field, s[1..]);
      LowerStep(low, s);
    }
  }

  lemma {:induction false} NameAlone(skip: Parser -> bool, p: Parser, s: string)
    requires AtLine(p) && s != "" && IsName(s) && p.nread + |s| <= MAX_HEADER_SIZE
    ensures Feeds(skip, p, s, [Data(Field, s)])
    ensures var q := FedTo(skip, p, s); Moved(p, q, HeaderField, |s|) && Recognised(q, LowerCase(s))
  {
    hide Feeds, FedTo, TokenChar, IsName, LowerChar, LowerCase, Recognised, FieldHeader, ByteStep;
    var ch, rest := s[0], s[1..];
    NameParts(s);
    NameFirst(skip, p, ch);
    var q := ByteStep(skip, p, ch).p;
    NameRest(skip, q, [LowerChar(ch)], rest);
    FeedsData(skip, p, ch, q, Field, rest);
    LowerFirst(s);
  }

  /** The header a name stands for, if it is one that the parser heeds. */
  function HeaderOf(low: string): Option<HeaderState> {
    if low == "content-length" then Some(ContentLength)
    else if low == "connection" || low == "proxy-connection" then Some(Connection)
    else if low == "transfer-encoding" then Some(TransferEncoding)
    else if low == "upgrade" then Some(Upgrade)
    else None
  }

  predicate Heeded(h: HeaderState) {
    h == ContentLength || h == Connection || h == TransferEncoding || h == Upgrade
  }

  lemma {:induction false} ProgressEnds(low: string)
    ensures match HeaderOf(low) case Some(h) => Progress(low) == h case None => !Heeded(Progress(low))
  {
    assert "content-length"[..14] == "content-length" && "connection"[..10] == "connection";
    assert "proxy-connection"[..16] == "proxy-connection" && "transfer-encoding"[..17] == "transfer-encoding" && "upgrade"[..7] == "upgrade";
    FirstLetters(low);
  }

  /** A name up to its colon: the parser takes it for one of the headers it heeds exactly if it is
      that header's name, in any case. */
  lemma {:induction false} NameFeeds(skip: Parser -> bool, p: Parser, s: string)
    requires AtLine(p) && s != "" && IsName(s) && p.nread + |s| + 1 <= MAX_HEADER_SIZE
    ensures Feeds(skip, p, s + ":", [Data(Field, s)])
    ensures var q := FedTo(skip, p, s + ":");
      && Moved(p, q, HeaderValueStart, |s| + 1)
      && (match HeaderOf(LowerCase(s)) case Some(h) => q.header == h case None => !Heeded(q.header))
  {
    hide Feeds, FedTo, IsName, Progress, ByteStep, HeaderOf, LowerCase;
    NameAlone(skip, p, s);
    var named := FedTo(skip, p, s);
    ProgressEnds(LowerCase(s));
    Colon(skip, named);
    FeedsByte(skip, named, ':', ByteStep(skip, named, ':').p, [Data(Field, "")]);
    FeedsEnd(skip, p, s, Field, ":");
  }

  lemma {:induction false} Colon(skip: Parser -> bool, p: Parser)
    requires p.state == HeaderField && p.nread < MAX_HEADER_SIZE
    ensures ByteStep(skip, p, ':') == Fine(p.(state := HeaderValueStart, nread := p.nread + 1), [Data(Field, "")])
  {
    hide ByteStep, Switch, OnField, Events, OpenData;
    var q := p.(nread := p.nread + 1);
    FieldSwitch(q, ':', skip(q));
    FieldColon(q);
    HeaderByte(skip, p, ':', OnField(q, ':'));
    FlushOne(Field);
    OpenedData(':');
    assert [Data(Field, "")] + [] == [Data(Field, "")];
  }

  // ---------- values ----------

  lemma {:induction false} Blank(skip: Parser -> bool, p: Parser, ch: char)
    requires p.state == HeaderValueStart && p.nread < MAX_HEADER_SIZE && (ch == ' ' || ch == '\t')
    ensures ByteStep(skip, p, ch) == Fine(p.(nread := p.nread + 1), [])
  {
    hide ByteStep, Switch, OpenData;
    var q := p.(nread := p.nread + 1);
    ValueStartSwitch(q, ch, skip(q));
    HeaderByte(skip, p, ch, Go(q, [], false));
    OpenedData(ch);
  }

  lemma {:induction false} Blanks(skip: Parser -> bool, p: Parser, s: string)
    requires p.state == HeaderValueStart && p.nread + |s| <= MAX_HEADER_SIZE && AllBlank(s)
    ensures Feed(skip, p, s) == Fine(p.(nread := p.nread + |s|), [])
    decreases |s|
  {
    hide ByteStep;
    if s != "" {
      Blank(skip, p, s[0]);
      Blanks(skip, p.(nread := p.nread + 1), s[1..]);
    }
  }

  lemma {:induction false} BlanksFeed(skip: Parser -> bool, p: Parser, s: string)
    requires p.state == HeaderValueStart && p.nread + |s| <= MAX_HEADER_SIZE && AllBlank(s)
    ensures Feeds(skip, p, s, []) && FedTo(skip, p, s) == p.(nread := p.nread + |s|)
  {
    hide Feed;
    Blanks(skip, p, s);
  }

  /** How far the parser is with `word` when it has read `v` of a value. */
  predicate Spelt(q: Parser, v: string, word: string, matching: HeaderState, matched: HeaderState) {
    if |v| < |word| && LowerCase(v) == word[..|v|] then q.header == matching && q.index == |v| - 1
    else if Says(v, word) then q.header == matched
    else q.header == General
  }

  /** The parser after `v` of a value that started at `p`. */
  predicate Valued(p: Parser, q: Parser, v: string)
    requires v != ""
  {
    match p.header
    case ContentLength => q.header == ContentLength && q.length == Amount(v) && q.flags == p.flags
    case TransferEncoding => Spelt(q, v, "chunked", MatchingChunked, Chunked) && q.length == p.length && q.flags == p.flags
    case Connection =>
      && (if LowerChar(v[0]) == 'k' then Spelt(q, v, "keep-alive", MatchingKeepAlive, KeepAlive)
          else if LowerChar(v[0]) == 'c' then Spelt(q, v, "close", MatchingClose, Close) else q.header == General)
      && q.length == p.length && q.flags == p.flags
    case Upgrade => q.header == General && q.length == p.length && q.flags == p.flags.(upgrade := true)
    case _ => q.header == General && q.length == p.length && q.flags == p.flags
  }

  /** Nothing but the header's state, its flags and its length has changed. */
  ghost predicate Within(p: Parser, q: Parser, s: State, n: nat) {
    q == p.(state := s, header := q.header, index := q.index, nread := p.nread + n, flags := q.flags, length := q.length)
  }

  predicate Word(word: string) {
    |word| < 256 && forall k :: 0 <= k < |word| ==> 'a' <= word[k] <= 'z' || word[k] == '-'
  }

  lemma {:induction false} SpeltFirst(q: Parser, ch: char, word: string, matching: HeaderState, matched: HeaderState)
    requires Word(word) && |word| >= 2 && q.index == 0 && q.header == (if LowerChar(ch) == word[0] then matching else General)
    ensures Spelt(q, [ch], word, matching, matched)
  {
    LowerMore("", ch);
    assert word[..1] == [word[0]];
  }

  lemma {:induction false} SaysNext(v: string, ch: char, word: string)
    requires v != "" && ch != CR
    ensures |v| < |word| ==> (LowerCase(v + [ch]) == word[..|v| + 1] <==> LowerCase(v) == word[..|v|] && LowerChar(ch) == word[|v|])
    ensures Says(v + [ch], word) <==>
      if |v| >= |word| then Says(v, word) && ch == ' ' else |v| + 1 == |word| && LowerCase(v + [ch]) == word
  {
    var more := v + [ch];
    LowerMore(v, ch);
    if |v| < |word| {
      assert word[..|v| + 1] == word[..|v|] + [word[|v|]];
      if LowerCase(more) == word[..|v| + 1] { assert LowerCase(more)[..|v|] == word[..|v| + 1][..|v|] && LowerCase(more)[|v|] == word[..|v| + 1][|v|]; }
      if |more| == |word| { assert more[..|word|] == more; }
    } else {
      assert more[..|word|] == v[..|word|] && more[|v|] == ch;
      assert forall k :: |word| <= k < |v| ==> more[k] == v[k];
    }
  }

  /** A character against the word being matched. */
  lemma {:induction false} MatchNext(q: Parser, ch: char, word: string, matched: HeaderState)
    requires Word(word) && ch != CR && q.index + 1 < |word| && q.header != General
    ensures var r, i := Match(q, Lower(ch), word, matched), q.index + 1;
      r.index == i && r.header == (if LowerChar(ch) != word[i] then General else if i == |word| - 1 then matched else q.header)
  {
    hide Lower, LowerChar;
    LowerByte(ch, word[q.index + 1]);
  }

  /** One more character of a value of which `word` is looked for. */
  lemma {:induction false} SpeltNext(q: Parser, v: string, ch: char, word: string, matching: HeaderState, matched: HeaderState, r: Parser)
    requires Word(word) && v != "" && ch != CR && Spelt(q, v, word, matching, matched)
    requires matching != matched && matched != General && matching != General
    requires q.header == matching ==> r == Match(q, Lower(ch), word, matched)
    requires q.header == matched ==> r.header == if ch == ' ' then matched else General
    requires q.header == General ==> r.header == General
    ensures Spelt(r, v + [ch], word, matching, matched)
  {
    hide Says, Lower, LowerChar, LowerCase, Match, Word;
    SaysNext(v, ch, word);
    SaysLong(v, word);
    if q.header == matching { MatchNext(q, ch, word, matched); }
    if |v| + 1 == |word| { assert word[..|word|] == word; }
  }

  lemma {:induction false} SaysLong(v: string, word: string)
    ensures Says(v, word) ==> |v| >= |word|
  {
  }

  lemma {:induction false} KnownWords()
    ensures Word("chunked") && Word("keep-alive") && Word("close")
  {
  }

  /** How the first character of a value is taken. */
  lemma {:induction false} ValueStartStep(p: Parser, ch: char)
    requires ch != ' ' && ch != '\t' && ch != CR && ch != LF && (p.header == ContentLength ==> IsNum(ch))
    ensures var s := OnValueStart(p, ch);
      s.Go? && !s.again && s.acts == [Mark(Value)] && Within(p, s.p, HeaderValue, 0) && Valued(p, s.p, [ch])
  {
    hide Lower, LowerChar, Spelt, IsNum, Digit, Word;
    KnownWords();
    var s := OnValueStart(p, ch);
    if p.header == TransferEncoding {
      LowerByte(ch, 'c');
      SpeltFirst(s.p, ch, "chunked", MatchingChunked, Chunked);
    } else if p.header == Connection {
      LowerByte(ch, 'k');
      LowerByte(ch, 'c');
      if LowerChar(ch) == 'k' { SpeltFirst(s.p, ch, "keep-alive", MatchingKeepAlive, KeepAlive); }
      if LowerChar(ch) == 'c' { SpeltFirst(s.p, ch, "close", MatchingClose, Close); }
    }
  }

  /** How one more character of a Content-Length is taken. */
  lemma {:induction false} LengthStep(q: Parser, v: string, ch: char)
    requires q.header == ContentLength && v != "" && q.length == Amount(v) && ch != CR && ch != LF && Amount(v + [ch]) >= 0
    ensures OnValue(q, ch) == Go(q.(length := Amount(v + [ch])), [], false)
  {
    hide Accumulate, Digit, Lower;
    assert (v + [ch])[..|v|] == v && (v + [ch])[|v|] == ch;
  }

  /** How one more character of another value is taken. */
  lemma {:induction false} WordStep(q: Parser, v: string, ch: char, word: string, matching: HeaderState, matched: HeaderState)
    requires Word(word) && v != "" && ch != CR && ch != LF && Spelt(q, v, word, matching, matched)
    requires || (word == "chunked" && matching == MatchingChunked && matched == Chunked)
             || (word == "keep-alive" && matching == MatchingKeepAlive && matched == KeepAlive)
             || (word == "close" && matching == MatchingClose && matched == Close)
    ensures var s := OnValue(q, ch);
      && s.Go? && !s.again && s.acts == [] && s.p == q.(header := s.p.header, index := s.p.index)
      && Spelt(s.p, v + [ch], word, matching, matched)
  {
    assert q.header == matching || q.header == matched || q.header == General;
    hide Lower, Spelt, Match, Word;
    SpeltNext(q, v, ch, word, matching, matched, OnValue(q, ch).p);
  }

  lemma {:induction false} OtherStep(q: Parser, ch: char)
    requires q.header == General && ch != CR && ch != LF
    ensures OnValue(q, ch) == Go(q, [], false)
  {
    hide Lower;
  }

  lemma {:induction false} ValueStep(p: Parser, q: Parser, v: string, ch: char)
    requires v != "" && Valued(p, q, v) && ch != CR && ch != LF && (p.header == ContentLength ==> Amount(v + [ch]) >= 0)
    ensures var s := OnValue(q, ch);
      s.Go? && !s.again && s.acts == [] && Within(q, s.p, q.state, 0) && Valued(p, s.p, v + [ch])
  {
    hide OnValue, LowerChar, Spelt, Word, Amount;
    KnownWords();
    assert (v + [ch])[0] == v[0];
    match p.header
    case ContentLength => LengthStep(q, v, ch);
    case TransferEncoding => WordStep(q, v, ch, "chunked", MatchingChunked, Chunked);
    case Connection =>
      if LowerChar(v[0]) == 'k' {
        WordStep(q, v, ch, "keep-alive", MatchingKeepAlive, KeepAlive);
      } else if LowerChar(v[0]) == 'c' {
        WordStep(q, v, ch, "close", MatchingClose, Close);
      } else {
        OtherStep(q, ch);
      }
    case _ => OtherStep(q, ch);
  }

  lemma {:induction false} ValueFirst(skip: Parser -> bool, p: Parser, ch: char)
    requires p.state == HeaderValueStart && p.nread < MAX_HEADER_SIZE
    requires ch != ' ' && ch != '\t' && ch != CR && ch != LF && (p.header == ContentLength ==> IsNum(ch))
    ensures var r := ByteStep(skip, p, ch);
      r.Fine? && r.events == [Data(Value, [ch])] && Within(p, r.p, HeaderValue, 1) && Valued(p, r.p, [ch])
  {
    hide ByteStep, Switch, OnValueStart, Events, OpenData, Valued, IsNum;
    var q := p.(nread := p.nread + 1);
    ValueStartStep(q, ch);
    ValueStartSwitch(q, ch, skip(q));
    HeaderByte(skip, p, ch, OnValueStart(q, ch));
    FlushOne(Value);
    OpenedData(ch);
    ValuedCount(p, q, OnValueStart(q, ch).p, [ch]);
    assert [] + [Data(Value, [ch])] == [Data(Value, [ch])];
  }

  lemma {:induction false} ValuedCount(p: Parser, q: Parser, r: Parser, v: string)
    requires v != "" && q == p.(nread := q.nread)
    ensures Valued(p, r, v) == Valued(q, r, v) && Valued(r, p, v) == Valued(r, q, v)
  {
    hide Says, LowerCase, LowerChar, Amount;
  }

  lemma {:induction false} ValueNext(skip: Parser -> bool, p0: Parser, p: Parser, v: string, ch: char)
    requires p.state == HeaderValue && p.nread < MAX_HEADER_SIZE && v != "" && Valued(p0, p, v)
    requires ch != CR && ch != LF && (p0.header == ContentLength ==> Amount(v + [ch]) >= 0)
    ensures var r := ByteStep(skip, p, ch);
      r.Fine? && r.events == [Data(Value, [ch])] && Within(p, r.p, HeaderValue, 1) && Valued(p0, r.p, v + [ch])
  {
    hide ByteStep, Switch, OnValue, Events, OpenData, Valued, Amount;
    var q := p.(nread := p.nread + 1);
    ValuedCount(p, q, p0, v);
    ValueStep(p0, q, v, ch);
    ValueSwitch(q, ch, skip(q));
    HeaderByte(skip, p, ch, OnValue(q, ch));
    EventsNone();
    OpenedData(ch);
    assert [] + [Data(Value, [ch])] == [Data(Value, [ch])];
  }

  lemma {:induction false} AmountPrefix(v: string, s: string)
    requires v != "" && Amount(v + s) >= 0
    ensures Amount(v) >= 0
    decreases |s|
  {
    if s == "" {
      assert v + s == v;
    } else {
      var k := |s| - 1;
      assert (v + s)[..|v + s| - 1] == v + s[..k];
      AmountPrefix(v, s[..k]);
    }
  }

  lemma {:induction false} AmountFirst(s: string)
    requires s != "" && Amount(s) >= 0
    ensures IsNum(s[0])
  {
    assert s == [s[0]] + s[1..];
    AmountPrefix([s[0]], s[1..]);
  }

  /** The rest of a value. */
  lemma {:induction false} ValueRest(skip: Parser -> bool, p0: Parser, p: Parser, v: string, s: string)
    requires p.state == HeaderValue && v != "" && Valued(p0, p, v) && p.nread + |s| <= MAX_HEADER_SIZE
    requires CR !in s && LF !in s && (p0.header == ContentLength ==> Amount(v + s) >= 0)
    ensures Feeds(skip, p, s, DataOf(Value, s))
    ensures var q := FedTo(skip, p, s); Within(p, q, HeaderValue, |s|) && Valued(p0, q, v + s)
    decreases |s|
  {
    hide Feeds, FedTo, ByteStep, Valued, Amount, DataOf;
    if s == "" {
      FeedsNone(skip, p);
      NoData(Value);
      assert v + s == v;
    } else {
      var ch, rest := s[0], s[1..];
      assert v + s == v + [ch] + rest && s == [ch] + rest;
      if p0.header == ContentLength { AmountPrefix(v + [ch], rest); }
      ValueNext(skip, p0, p, v, ch);
      var q := ByteStep(skip, p, ch).p;
      ValueRest(skip, p0, q, v + [ch], rest);
      FeedsData(skip, p, ch, q, Value, rest);
    }
  }

  lemma {:induction false} ValueAlone(skip: Parser -> bool, p: Parser, s: string)
    requires p.state == HeaderValueStart && p.nread + |s| <= MAX_HEADER_SIZE
    requires s != "" && s[0] != ' ' && s[0] != '\t' && CR !in s && LF !in s && (p.header == ContentLength ==> Amount(s) >= 0)
    ensures Feeds(skip, p, s, [Data(Value, s)])
    ensures var q := FedTo(skip, p, s); Within(p, q, HeaderValue, |s|) && Valued(p, q, s)
  {
    hide Feeds, FedTo, ByteStep, Valued, Amount;
    var ch, rest := s[0], s[1..];
    assert s == [ch] + rest;
    if p.header == ContentLength { AmountFirst(s); }
    ValueFirst(skip, p, ch);
    var q := ByteStep(skip, p, ch).p;
    ValueRest(skip, p, q, [ch], rest);
    FeedsData(skip, p, ch, q, Value, rest);
  }

  /** The end of a value, at once or after its bytes. */
  lemma {:induction false} ValueCr(skip: Parser -> bool, p: Parser)
    requires (p.state == HeaderValueStart || p.state == HeaderValue) && p.nread < MAX_HEADER_SIZE
    ensures var r := ByteStep(skip, p, CR);
      && r.Fine? && r.events == [Data(Value, "")]
      && r.p == p.(state := HeaderAlmostDone, nread := p.nread + 1, header := if p.state == HeaderValue then p.header else General, index := r.p.index)
  {
    hide ByteStep, Switch, Events, OpenData;
    var q := p.(nread := p.nread + 1);
    var s := Switch(q, CR, skip(q));
    if p.state == HeaderValue { ValueSwitch(q, CR, skip(q)); } else { ValueStartSwitch(q, CR, skip(q)); }
    HeaderByte(skip, p, CR, s);
    FlushOne(Value);
    OpenedData(CR);
    assert [Data(Value, "")] + [] == [Data(Value, "")];
  }

  /** The flag that the header's value asks for when its line ends. */
  function Granted(f: Flags, h: HeaderState): Flags {
    match h
    case KeepAlive => f.(keepAlive := true)
    case Close => f.(close := true)
    case Chunked => f.(chunked := true)
    case _ => f
  }

  lemma {:induction false} ValueLf(skip: Parser -> bool, p: Parser)
    requires p.state == HeaderAlmostDone && p.nread < MAX_HEADER_SIZE
    ensures ByteStep(skip, p, LF) == Fine(p.(state := HeaderValueLws, nread := p.nread + 1, flags := Granted(p.flags, p.header)), [])
  {
    hide ByteStep, Switch, Events, OpenData;
    var q := p.(nread := p.nread + 1);
    HeaderDoneSwitch(q, skip(q));
    HeaderByte(skip, p, LF, OnHeaderDone(q, LF));
    EventsNone();
    OpenedData(LF);
  }

  /** What a value asks for, by the header it belongs to. */
  function WithValue(a: Asked, h: HeaderState, v: string): Asked
    requires v != "" ==> h == ContentLength ==> Amount(v) >= 0
  {
    if v == "" then a else
    match h
    case ContentLength => a.(length := Amount(v))
    case TransferEncoding => if Says(v, "chunked") then a.(flags := a.flags.(chunked := true)) else a
    case Connection =>
      if Says(v, "keep-alive") then a.(flags := a.flags.(keepAlive := true))
      else if Says(v, "close") then a.(flags := a.flags.(close := true)) else a
    case Upgrade => a.(flags := a.flags.(upgrade := true))
    case _ => a
  }

  lemma {:induction false} SaysLetter(v: string, word: string)
    requires v != "" && word != "" && Says(v, word)
    ensures LowerChar(v[0]) == word[0]
  {
    assert LowerCase(v[..|word|])[0] == LowerChar(v[0]);
  }

  lemma {:induction false} SpeltGrants(q: Parser, v: string, word: string, matching: HeaderState, matched: HeaderState)
    requires Spelt(q, v, word, matching, matched) && Granted(q.flags, matching) == q.flags
    ensures Granted(q.flags, q.header) == if Says(v, word) then Granted(q.flags, matched) else q.flags
  {
    hide LowerCase;
    SaysLong(v, word);
  }

  /** Once its line ends, a value has had the effect it asks for. */
  lemma {:induction false} ValueGrants(p: Parser, q: Parser, v: string)
    requires v != "" && Valued(p, q, v) && (p.header == ContentLength ==> Amount(v) >= 0)
    ensures Asked(Granted(q.flags, q.header), q.length) == WithValue(Asked(p.flags, p.length), p.header, v)
  {
    hide Spelt, Says, Amount, LowerChar;
    if p.header == TransferEncoding {
      SpeltGrants(q, v, "chunked", MatchingChunked, Chunked);
    } else if p.header == Connection {
      if Says(v, "keep-alive") { SaysLetter(v, "keep-alive"); }
      if Says(v, "close") { SaysLetter(v, "close"); }
      if LowerChar(v[0]) == 'k' {
        SpeltGrants(q, v, "keep-alive", MatchingKeepAlive, KeepAlive);
      } else if LowerChar(v[0]) == 'c' {
        SpeltGrants(q, v, "close", MatchingClose, Close);
      }
    }
  }

  /** Between two lines again, `n` bytes later, and nothing has changed but what was asked for. */
  ghost predicate Heard(p: Parser, q: Parser, a: Asked, n: nat) {
    AtLine(q) && q == p.(state := q.state, header := q.header, index := q.index, nread := p.nread + n, flags := a.flags, length := a.length)
  }

  /** After a line: if another one continues it, the parser still knows a length, and no other
      header it heeds. */
  ghost predicate Settled(counts: bool, v: string, end: string, q: Parser) {
    Continues(v, end) ==> q.state == HeaderValueLws && (if counts && v != "" then q.header == ContentLength else !Heeded(q.header))
  }

  lemma {:induction false} ValueSettles(p: Parser, q: Parser, v: string)
    requires v != "" && Valued(p, q, v)
    ensures if p.header == ContentLength then q.header == ContentLength else !Heeded(q.header)
  {
    hide Says, LowerCase, LowerChar, Amount;
  }

  /** A value up to its line end. */
  lemma {:induction false} ValueFeeds(skip: Parser -> bool, p: Parser, s: string)
    requires p.state == HeaderValueStart && p.nread + |s| + 1 <= MAX_HEADER_SIZE && IsValue(p.header == ContentLength, s)
    ensures Feeds(skip, p, s + "\r", [Data(Value, s)])
    ensures var q := FedTo(skip, p, s + "\r");
      && Within(p, q, HeaderAlmostDone, |s| + 1)
      && Asked(Granted(q.flags, q.header), q.length) == WithValue(Asked(p.flags, p.length), p.header, s)
      && (if p.header == ContentLength && s != "" then q.header == ContentLength else !Heeded(q.header))
  {
    hide Feeds, FedTo, ByteStep, Valued, Amount, Says;
    if s == "" {
      ValueCr(skip, p);
      FeedsByte(skip, p, CR, ByteStep(skip, p, CR).p, [Data(Value, "")]);
      assert s + "\r" == [CR];
    } else {
      ValueAlone(skip, p, s);
      var t := FedTo(skip, p, s);
      ValueGrants(p, t, s);
      ValueSettles(p, t, s);
      ValueCr(skip, t);
      FeedsByte(skip, t, CR, ByteStep(skip, t, CR).p, [Data(Value, "")]);
      FeedsEnd(skip, p, s, Value, "\r");
    }
  }

  /** A line feed that ends a value alone. */
  lemma {:induction false} ValueBare(skip: Parser -> bool, p: Parser)
    requires p.state == HeaderValue && p.nread < MAX_HEADER_SIZE
    ensures ByteStep(skip, p, LF) ==
      Fine(p.(state := HeaderValueLws, nread := p.nread + 1, flags := Granted(p.flags, p.header)), [Data(Value, "")])
  {
    hide ByteStep, Switch, Turn, Events, OpenData;
    var q := p.(nread := p.nread + 1);
    var r := q.(state := HeaderAlmostDone);
    HeaderTurn(skip, p, LF);
    ValueSwitch(q, LF, skip(q));
    TurnFlush(skip, q, LF, r, Value);
    HeaderDoneSwitch(r, skip(r));
    TurnOnce(skip, r, LF);
    EventsNone();
    OpenedData(LF);
    assert [Data(Value, "")] + [] == [Data(Value, "")];
  }

  lemma {:induction false} TurnFlush(skip: Parser -> bool, p: Parser, ch: char, q: Parser, k: Kind)
    requires k != Body && !TakesBody(p.state) && !TakesBody(q.state) && Switch(p, ch, skip(p)) == Go(q, [Flush(k)], true)
    ensures Turn(skip, p, ch) == Before([Data(k, "")], Turn(skip, q, ch))
  {
    hide Switch, Shape, OpenKind, Events;
    FlushOne(k);
  }

  /** A line feed in the place of a value. */
  lemma {:induction false} EmptyBare(skip: Parser -> bool, p: Parser)
    requires p.state == HeaderValueStart && p.nread < MAX_HEADER_SIZE
    ensures ByteStep(skip, p, LF) == Fine(p.(state := HeaderFieldStart, nread := p.nread + 1, index := 0), [Data(Value, "")])
  {
    hide ByteStep, Switch, Events, OpenData;
    var q := p.(nread := p.nread + 1);
    ValueStartSwitch(q, LF, skip(q));
    HeaderByte(skip, p, LF, OnValueStart(q, LF));
    FlushOne(Value);
    NoOpenData(LF);
    assert [Data(Value, "")] + [] == [Data(Value, "")];
  }

  lemma {:induction false} NoOpenData(ch: char)
    ensures OpenData(HeaderFieldStart, ch) == []
  {
  }

  /** A value that a line feed alone ends. */
  lemma {:induction false} ValueBareLine(skip: Parser -> bool, p: Parser, s: string)
    requires p.state == HeaderValueStart && p.errno == OK && p.nread + |s| + 1 <= MAX_HEADER_SIZE && IsValue(p.header == ContentLength, s)
    ensures Feeds(skip, p, s + "\n", [Data(Value, s)])
    ensures Heard(p, FedTo(skip, p, s + "\n"), WithValue(Asked(p.flags, p.length), p.header, s), |s| + 1)
    ensures Settled(p.header == ContentLength, s, "\n", FedTo(skip, p, s + "\n"))
  {
    hide Feeds, FedTo, ByteStep, Amount, Granted, Valued, Says;
    if s == "" {
      EmptyBare(skip, p);
      FeedsByte(skip, p, LF, ByteStep(skip, p, LF).p, [Data(Value, "")]);
      assert s + "\n" == [LF];
    } else {
      ValueAlone(skip, p, s);
      var t := FedTo(skip, p, s);
      ValueGrants(p, t, s);
      ValueSettles(p, t, s);
      ValueBare(skip, t);
      FeedsByte(skip, t, LF, ByteStep(skip, t, LF).p, [Data(Value, "")]);
      FeedsEnd(skip, p, s, Value, "\n");
    }
  }

  /** A value with its line end. */
  lemma {:induction false} ValueLine(skip: Parser -> bool, p: Parser, s: string, end: string)
    requires p.state == HeaderValueStart && p.errno == OK && p.nread + |s| + |end| <= MAX_HEADER_SIZE && IsEnd(end) && IsValue(p.header == ContentLength, s)
    ensures Feeds(skip, p, s + end, [Data(Value, s)])
    ensures Heard(p, FedTo(skip, p, s + end), WithValue(Asked(p.flags, p.length), p.header, s), |s| + |end|)
    ensures Settled(p.header == ContentLength, s, end, FedTo(skip, p, s + end))
  {
    hide Feeds, FedTo, ByteStep, Amount, WithValue, Granted;
    if end == "\n" {
      ValueBareLine(skip, p, s);
    } else {
      ValueFeeds(skip, p, s);
      var q := FedTo(skip, p, s + "\r");
      ValueLf(skip, q);
      FeedsByte(skip, q, LF, ByteStep(skip, q, LF).p, []);
      FeedsThen(skip, p, s + "\r", [Data(Value, s)], "\n", []);
      assert s + "\r" + "\n" == s + "\r\n" && [Data(Value, s)] + [] == [Data(Value, s)];
    }
  }

  // ---------- lines ----------

  /** The header a name stands for decides what its value asks for. */
  lemma {:induction false} NameGrants(a: Asked, l: Line, h: HeaderState)
    requires IsLine(l) && match HeaderOf(LowerCase(l.name)) case Some(k) => h == k case None => !Heeded(h)
    ensures (h == ContentLength && l.value != "" <==> Counts(l)) && IsValue(h == ContentLength, l.value)
    ensures WithValue(a, h, l.value) == WithFirst(a, l)
  {
    hide Amount, Says, LowerCase, IsName, AllBlank, AreFolds, Continues;
  }

  /** The first part of a header line. */
  lemma {:induction false} FirstFeeds(skip: Parser -> bool, p: Parser, l: Line)
    requires AtLine(p) && IsLine(l) && p.nread + |FirstText(l)| <= MAX_HEADER_SIZE
    ensures Feeds(skip, p, FirstText(l), [Data(Field, l.name), Data(Value, l.value)])
    ensures Heard(p, FedTo(skip, p, FirstText(l)), WithFirst(Asked(p.flags, p.length), l), |FirstText(l)|)
    ensures Settled(Counts(l), l.value, l.end, FedTo(skip, p, FirstText(l)))
  {
    hide Feeds, FedTo, IsName, AllBlank, ByteStep, LowerCase, HeaderOf, Heeded, WithFirst, WithValue, Amount, IsValue, AreFolds, Continues, Counts;
    NameFeeds(skip, p, l.name);
    var q := FedTo(skip, p, l.name + ":");
    BlanksFeed(skip, q, l.blank);
    var r := FedTo(skip, q, l.blank);
    NameGrants(Asked(p.flags, p.length), l, q.header);
    ValueLine(skip, r, l.value, l.end);
    FeedsThen(skip, p, l.name + ":", [Data(Field, l.name)], l.blank, []);
    FeedsThen(skip, p, l.name + ":" + l.blank, [Data(Field, l.name)] + [], l.value + l.end, [Data(Value, l.value)]);
    assert FirstText(l) == l.name + ":" + l.blank + (l.value + l.end);
    assert [Data(Field, l.name)] + [] + [Data(Value, l.value)] == [Data(Field, l.name), Data(Value, l.value)];
  }

  /** The white space that makes a line continue the one above. */
  lemma {:induction false} FoldBegins(skip: Parser -> bool, p: Parser, blank: string)
    requires p.state == HeaderValueLws && p.errno == OK && blank != "" && AllBlank(blank) && p.nread + |blank| <= MAX_HEADER_SIZE
    ensures Feeds(skip, p, blank, []) && FedTo(skip, p, blank) == p.(state := HeaderValueStart, nread := p.nread + |blank|)
  {
    hide Feeds, FedTo, ByteStep, Switch, Events, OpenData;
    var ch, rest, q := blank[0], blank[1..], p.(nread := p.nread + 1);
    FoldSwitch(q, ch, skip(q));
    HeaderByte(skip, p, ch, Go(q.(state := HeaderValueStart), [], false));
    EventsNone();
    OpenedData(ch);
    FeedsByte(skip, p, ch, q.(state := HeaderValueStart), []);
    BlanksFeed(skip, q.(state := HeaderValueStart), rest);
    FeedsThen(skip, p, [ch], [], rest, []);
    assert [ch] + rest == blank;
  }

  lemma {:induction false} FoldSwitch(p: Parser, ch: char, skipped: bool)
    requires p.state == HeaderValueLws && (ch == ' ' || ch == '\t')
    ensures Switch(p, ch, skipped) == Go(p.(state := HeaderValueStart), [], false)
  {
    hide OnFieldStart;
  }

  /** A line that continues one of which a length was read asks for the length it holds itself;
      any other asks for nothing. */
  lemma {:induction false} FoldFeeds(skip: Parser -> bool, p: Parser, counts: bool, f: Fold)
    requires p.state == HeaderValueLws && p.errno == OK && (if counts then p.header == ContentLength else !Heeded(p.header))
    requires f.blank != "" && AllBlank(f.blank) && IsValue(counts, f.value) && IsEnd(f.end)
    requires p.nread + |f.blank| + |f.value| + |f.end| <= MAX_HEADER_SIZE
    ensures var t, a := f.blank + f.value + f.end, Asked(p.flags, p.length);
      && Feeds(skip, p, t, [Data(Value, f.value)])
      && Heard(p, FedTo(skip, p, t), if counts && f.value != "" then a.(length := Amount(f.value)) else a, |t|)
      && Settled(counts, f.value, f.end, FedTo(skip, p, t))
  {
    hide Feeds, FedTo, AllBlank, Amount, Says, IsValue;
    FoldBegins(skip, p, f.blank);
    var q := p.(state := HeaderValueStart, nread := p.nread + |f.blank|);
    ValueLine(skip, q, f.value, f.end);
    FeedsThen(skip, p, f.blank, [], f.value + f.end, [Data(Value, f.value)]);
    assert f.blank + (f.value + f.end) == f.blank + f.value + f.end && [] + [Data(Value, f.value)] == [Data(Value, f.value)];
  }

  function FoldEvents(fs: seq<Fold>): seq<Event> {
    if fs == [] then [] else [Data(Value, fs[0].value)] + FoldEvents(fs[1..])
  }

  /** All of a value is one piece of data. */
  lemma {:induction false} FoldsJoin(v: string, fs: seq<Fold>)
    ensures Same([Data(Value, v)] + FoldEvents(fs), [Data(Value, v + FoldsValue(fs))])
    decreases |fs|
  {
    hide Same;
    if fs == [] {
      assert v + "" == v && [Data(Value, v)] + [] == [Data(Value, v)];
      SameRefl([Data(Value, v)]);
    } else {
      var w, rest := fs[0].value, FoldEvents(fs[1..]);
      JoinData(Value, v, w);
      SameRefl(rest);
      SameAppend([Data(Value, v), Data(Value, w)], [Data(Value, v + w)], rest, rest);
      assert [Data(Value, v)] + FoldEvents(fs) == [Data(Value, v), Data(Value, w)] + rest;
      FoldsJoin(v + w, fs[1..]);
      SameVia2([Data(Value, v)] + FoldEvents(fs), [Data(Value, v + w)] + rest, [Data(Value, v + w + FoldsValue(fs[1..]))]);
      assert v + w + FoldsValue(fs[1..]) == v + FoldsValue(fs);
    }
  }

  /** Lines that continue a value. */
  lemma {:induction false} FoldsFeed(skip: Parser -> bool, p: Parser, counts: bool, v: string, end: string, fs: seq<Fold>)
    requires AtLine(p) && AreFolds(counts && v != "", fs) && (fs != [] ==> Continues(v, end)) && Settled(counts, v, end, p)
    requires p.nread + |FoldsText(fs)| <= MAX_HEADER_SIZE
    ensures Feeds(skip, p, FoldsText(fs), FoldEvents(fs))
    ensures Heard(p, FedTo(skip, p, FoldsText(fs)), WithFolds(Asked(p.flags, p.length), counts && v != "", fs), |FoldsText(fs)|)
    decreases |fs|
  {
    hide Feeds, FedTo, AllBlank, Amount, IsValue, IsEnd, Continues, Heeded;
    if fs == [] {
      FeedsNone(skip, p);
    } else {
      var f, rest := fs[0], fs[1..];
      var t := f.blank + f.value + f.end;
      FoldFeeds(skip, p, counts && v != "", f);
      FoldsFeed(skip, FedTo(skip, p, t), counts && v != "", f.value, f.end, rest);
      FeedsThen(skip, p, t, [Data(Value, f.value)], FoldsText(rest), FoldEvents(rest));
    }
  }

  lemma {:induction false} ValueJoins(l: Line)
    ensures Same([Data(Field, l.name), Data(Value, l.value)] + FoldEvents(l.folds), [Data(Field, l.name), Data(Value, WholeValue(l))])
  {
    hide Same;
    var name, es := [Data(Field, l.name)], [Data(Value, l.value)] + FoldEvents(l.folds);
    FoldsJoin(l.value, l.folds);
    SameRefl(name);
    SameAppend(name, name, es, [Data(Value, WholeValue(l))]);
    assert name + es == [Data(Field, l.name), Data(Value, l.value)] + FoldEvents(l.folds);
    assert name + [Data(Value, WholeValue(l))] == [Data(Field, l.name), Data(Value, WholeValue(l))];
  }

  /** A header line gives its name and its value, and has the effect it asks for. */
  lemma {:induction false} LineFeeds(skip: Parser -> bool, p: Parser, l: Line)
    requires AtLine(p) && IsLine(l) && p.nread + |LineText(l)| <= MAX_HEADER_SIZE
    ensures Feeds(skip, p, LineText(l), [Data(Field, l.name), Data(Value, WholeValue(l))])
    ensures Heard(p, FedTo(skip, p, LineText(l)), WithLine(Asked(p.flags, p.length), l), |LineText(l)|)
  {
    hide Feeds, FedTo, IsName, AllBlank, WithFirst, WithFolds, AreFolds, FoldsText, FirstText, IsValue, FoldEvents, WholeValue, Settled;
    FirstFeeds(skip, p, l);
    var q := FedTo(skip, p, FirstText(l));
    FoldsFeed(skip, q, Counts(l), l.value, l.end, l.folds);
    var es := [Data(Field, l.name), Data(Value, l.value)];
    FeedsThen(skip, p, FirstText(l), es, FoldsText(l.folds), FoldEvents(l.folds));
    ValueJoins(l);
    FeedsSame(skip, p, LineText(l), es + FoldEvents(l.folds), [Data(Field, l.name), Data(Value, WholeValue(l))]);
  }

  lemma {:induction false} LengthName(name: string)
    requires LowerCase(name) == "content-length"
    ensures name != "" && IsName(name)
  {
    forall k | 0 <= k < |name| ensures TokenChar(name[k]) {
      var c := LowerCase(name)[k];
      assert LowerChar(name[k]) == c && ('a' <= c <= 'z' || c == '-');
    }
  }

  lemma {:induction false} ExampleName()
    ensures LowerCase("Content-Length") == "content-length"
  {
    var name, low := "Content-Length", "content-length";
    assert LowerChar('C') == 'c' && LowerChar('L') == 'l';
    assert forall k :: 0 <= k < 14 && k != 0 && k != 8 ==> name[k] == low[k] && !('A' <= name[k] <= 'Z');
    assert forall k :: 0 <= k < 14 ==> LowerChar(name[k]) == low[k];
  }

  /** A Content-Length of 1 that the next line continues with 2 is delivered as 12 and taken as 2. */
  lemma {:induction false} FoldExample()
    ensures var l := Line("Content-Length", " ", "1", "\r\n", [Fold(" ", "2", "\r\n")]);
      IsLine(l) && WholeValue(l) == "12" && WithLine(Asked(NO_FLAGS, ULLONG_MAX), l) == Asked(NO_FLAGS, 2)
  {
    hide LowerCase, IsName, Accumulate, Says;
    ExampleName();
    LengthName("Content-Length");
    var f := Fold(" ", "2", "\r\n");
    assert [f][1..] == [];
    assert AreFolds(true, [f]) && WithFolds(Asked(NO_FLAGS, 1), true, [f]) == Asked(NO_FLAGS, 2) by {
      assert Amount("2") == 2;
      assert WithFolds(Asked(NO_FLAGS, 2), true, []) == Asked(NO_FLAGS, 2);
    }
    assert FoldsValue([f]) == "2" by { assert FoldsValue([]) == ""; }
    assert Amount("1") == 1;
  }

  lemma {:induction false} FieldEnds(skip: Parser -> bool, p: Parser, ch: char)
    requires p.state == HeaderField && p.nread < MAX_HEADER_SIZE && (ch == CR || ch == LF)
    ensures ByteStep(skip, p, ch) ==
      Fine(p.(state := if ch == CR then HeaderAlmostDone else HeaderFieldStart, nread := p.nread + 1), [Data(Field, "")])
  {
    hide ByteStep, Switch, OnField, Events, OpenData;
    var q := p.(nread := p.nread + 1);
    FieldSwitch(q, ch, skip(q));
    FieldEndStep(q, ch);
    HeaderByte(skip, p, ch, OnField(q, ch));
    FlushOne(Field);
    OpenedData(ch);
    NoOpenData(ch);
    assert [Data(Field, "")] + [] == [Data(Field, "")];
  }

  lemma {:induction false} FieldEndStep(p: Parser, ch: char)
    requires ch == CR || ch == LF
    ensures OnField(p, ch) == Go(p.(state := if ch == CR then HeaderAlmostDone else HeaderFieldStart), [Flush(Field)], false)
  {
    hide FieldChar;
  }

  /** A name in progress asks for nothing. */
  lemma {:induction false} ProgressGrants(f: Flags, low: string)
    ensures Granted(f, Progress(low)) == f
  {
    hide Begins;
  }

  /** The last byte of such a header. */
  lemma {:induction false} NoColonEnds(skip: Parser -> bool, p: Parser, low: string, end: string)
    requires p.state == HeaderField && p.errno == OK && p.header == Progress(low) && IsEnd(end) && p.nread + |end| <= MAX_HEADER_SIZE
    ensures Feeds(skip, p, end, [Data(Field, "")])
    ensures var q := FedTo(skip, p, end); AtLine(q) && Moved(p, q, q.state, |end|)
  {
    hide Feeds, FedTo, Progress, ByteStep, Granted;
    var ch := end[0];
    FieldEnds(skip, p, ch);
    var q := ByteStep(skip, p, ch).p;
    FeedsByte(skip, p, ch, q, [Data(Field, "")]);
    if ch == CR {
      ProgressGrants(q.flags, low);
      ValueLf(skip, q);
      FeedsByte(skip, q, LF, ByteStep(skip, q, LF).p, []);
      FeedsThen(skip, p, [CR], [Data(Field, "")], [LF], []);
      assert [CR] + [LF] == end && [Data(Field, "")] + [] == [Data(Field, "")];
    }
  }

  /** A header without a colon gives its name and asks for nothing. */
  lemma {:induction false} NoColonFeeds(skip: Parser -> bool, p: Parser, s: string, end: string)
    requires AtLine(p) && s != "" && IsName(s) && IsEnd(end) && p.nread + |s| + |end| <= MAX_HEADER_SIZE
    ensures Feeds(skip, p, s + end, [Data(Field, s)])
    ensures Heard(p, FedTo(skip, p, s + end), Asked(p.flags, p.length), |s| + |end|)
  {
    hide Feeds, FedTo, IsName, Progress, LowerCase, IsEnd;
    NameAlone(skip, p, s);
    NoColonEnds(skip, FedTo(skip, p, s), LowerCase(s), end);
    FeedsEnd(skip, p, s, Field, end);
  }

  /** Header lines give their names and values, and all together they change what they ask for. */
  lemma {:induction false} LinesFeed(skip: Parser -> bool, p: Parser, ls: seq<Line>)
    requires AtLine(p) && AreLines(ls) && p.nread + |Lines(ls)| <= MAX_HEADER_SIZE
    ensures Feeds(skip, p, Lines(ls), LineEvents(ls))
    ensures Heard(p, FedTo(skip, p, Lines(ls)), WithLines(Asked(p.flags, p.length), ls), |Lines(ls)|)
    decreases |ls|
  {
    hide Feeds, FedTo, IsLine, LineText, WithLine;
    if ls == [] {
      FeedsNone(skip, p);
    } else {
      LineFeeds(skip, p, ls[0]);
      LinesFeed(skip, FedTo(skip, p, LineText(ls[0])), ls[1..]);
      FeedsThen(skip, p, LineText(ls[0]), [Data(Field, ls[0].name), Data(Value, WholeValue(ls[0]))], Lines(ls[1..]), LineEvents(ls[1..]));
    }
  }

  /** Flags that lines may have added to. */
  predicate Grown(f: Flags, g: Flags) {
    && g.trailing == f.trailing && g.skipBody == f.skipBody && (f.chunked ==> g.chunked)
    && (f.keepAlive ==> g.keepAlive) && (f.close ==> g.close) && (f.upgrade ==> g.upgrade)
  }

  lemma {:induction false} FoldsKeep(a: Asked, counts: bool, fs: seq<Fold>)
    requires AreFolds(counts, fs)
    ensures WithFolds(a, counts, fs).flags == a.flags
    decreases |fs|
  {
    hide Amount, AllBlank;
    if fs != [] {
      FoldsKeep(if counts && fs[0].value != "" then a.(length := Amount(fs[0].value)) else a, counts && fs[0].value != "", fs[1..]);
    }
  }

  lemma {:induction false} FirstGrows(a: Asked, l: Line)
    requires IsLine(l)
    ensures Grown(a.flags, WithFirst(a, l).flags)
  {
    hide Amount, Says, LowerCase, IsLine;
  }

  lemma {:induction false} LineGrows(a: Asked, l: Line)
    requires IsLine(l)
    ensures Grown(a.flags, WithLine(a, l).flags)
  {
    hide Counts, IsName, AllBlank, AreFolds, WithFolds, WithFirst, IsValue, Continues, IsEnd;
    FirstGrows(a, l);
    FoldsKeep(WithFirst(a, l), Counts(l), l.folds);
  }

  /** No line touches the flags of trailers and skipped bodies, and none takes a flag back. */
  lemma {:induction false} FlagsKept(a: Asked, ls: seq<Line>)
    requires AreLines(ls)
    ensures Grown(a.flags, WithLines(a, ls).flags)
    decreases |ls|
  {
    hide IsLine, WithLine;
    if ls != [] {
      LineGrows(a, ls[0]);
      FlagsKept(WithLine(a, ls[0]), ls[1..]);
    }
  }

  /** The parser before the last byte of an empty line. */
  function BeforeEnd(p: Parser, end: string): Parser {
    if end == "\n" then p.(state := HeadersAlmostDone) else p.(state := HeadersAlmostDone, nread := p.nread + 1)
  }

  lemma {:induction false} HeadersCr(skip: Parser -> bool, p: Parser)
    requires AtLine(p) && p.nread < MAX_HEADER_SIZE
    ensures ByteStep(skip, p, CR) == Fine(p.(nread := p.nread + 1, state := HeadersAlmostDone), [])
  {
    hide ByteStep, Events, OpenData, Token;
    LineByte(skip, p, CR, Go(p.(nread := p.nread + 1, state := HeadersAlmostDone), [], false));
    EventsNone();
    OpenedData(CR);
  }

  lemma {:induction false} FieldStartLf(p: Parser)
    ensures OnFieldStart(p, LF) == Go(p.(state := HeadersAlmostDone), [], true)
  {
    hide Token;
  }

  /** A line feed alone is looked at as the end of an empty line. */
  lemma {:induction false} HeadersBare(skip: Parser -> bool, p: Parser)
    requires AtLine(p) && p.nread < MAX_HEADER_SIZE
    ensures ByteStep(skip, p, LF) == ByteStep(skip, p.(state := HeadersAlmostDone), LF)
  {
    hide ByteStep, Switch, Turn, OnFieldStart;
    var q := p.(nread := p.nread + 1);
    FieldStartLf(q.(state := HeaderFieldStart));
    var f, r := q.(state := HeaderFieldStart), q.(state := HeadersAlmostDone);
    HeaderTurn(skip, p, LF);
    HeaderTurn(skip, p.(state := HeadersAlmostDone), LF);
    FieldStartSwitch(f, LF, skip(f));
    TurnTwice(skip, f, LF, r);
    if p.state == HeaderValueLws {
      LwsSwitch(q, LF, skip(q));
      TurnTwice(skip, q, LF, f);
    }
  }

  /** The empty line after the headers: with either line end, its last byte decides. */
  lemma {:induction false} EmptyLine(skip: Parser -> bool, p: Parser, end: string)
    requires AtLine(p) && IsEnd(end) && p.nread + |end| <= MAX_HEADER_SIZE && ByteStep(skip, BeforeEnd(p, end), LF).Fine?
    ensures var r := ByteStep(skip, BeforeEnd(p, end), LF); Feeds(skip, p, end, r.events) && FedTo(skip, p, end) == r.p
  {
    hide Feeds, FedTo, ByteStep;
    var q := BeforeEnd(p, end);
    var r := ByteStep(skip, q, LF);
    if end == "\n" {
      HeadersBare(skip, p);
      FeedsByte(skip, p, LF, r.p, r.events);
    } else {
      HeadersCr(skip, p);
      FeedsByte(skip, p, CR, q, []);
      FeedsByte(skip, q, LF, r.p, r.events);
      FeedsThen(skip, p, [CR], [], [LF], r.events);
      assert [CR] + [LF] == end && [] + r.events == r.events;
    }
  }
}
