/** The HTTP/1.x parser's state and what one input byte does to it. Bytes are characters
    below 256; the parser is built with its strict checks on. */
module HttpState {
  import opened Options

  const ULLONG_MAX: nat := 0xFFFF_FFFF_FFFF_FFFF
  const WORD: nat := 0x1_0000_0000_0000_0000

  /** An unsigned 64-bit field. */
  type U64 = n: nat | n <= 0xFFFF_FFFF_FFFF_FFFF

  const MAX_HEADER_SIZE: nat := 80 * 1024

  datatype Kind = Field | Value | Url | Body

  datatype Event = Data(kind: Kind, bytes: string) | MessageBegin | HeadersComplete | MessageComplete

  datatype PType = Request | Response | Both

  datatype Method =
    | DELETE | GET | HEAD | POST | PUT | CONNECT | OPTIONS | TRACE | COPY | LOCK | MKCOL | MOVE | PROPFIND | PROPPATCH
    | SEARCH | UNLOCK | REPORT | MKACTIVITY | CHECKOUT | MERGE | MSEARCH | NOTIFY | SUBSCRIBE | UNSUBSCRIBE | PATCH | PURGE

  datatype State =
    | Dead | StartReqOrRes | ResOrRespH
    | StartRes | ResH | ResHT | ResHTT | ResHTTP | ResFirstMajor | ResMajor | ResFirstMinor | ResMinor
    | ResFirstStatus | ResStatusCode | ResStatus | ResLineAlmostDone
    | StartReq | ReqMethod | ReqSpacesBeforeUrl
    | ReqSchema | ReqSchemaSlash | ReqSchemaSlashSlash | ReqServerStart | ReqServer | ReqServerWithAt
    | ReqPath | ReqQueryStringStart | ReqQueryString | ReqFragmentStart | ReqFragment
    | ReqHttpStart | ReqH | ReqHT | ReqHTT | ReqHTTP | ReqFirstMajor | ReqMajor | ReqFirstMinor | ReqMinor | ReqLineAlmostDone
    | HeaderFieldStart | HeaderField | HeaderValueStart | HeaderValue | HeaderValueLws | HeaderAlmostDone
    | ChunkSizeStart | ChunkSize | ChunkParameters | ChunkSizeAlmostDone
    | HeadersAlmostDone | HeadersDone
    | ChunkData | ChunkDataAlmostDone | ChunkDataDone | BodyIdentity | BodyIdentityEof | MessageDone

  datatype HeaderState =
    | General | C | CO | CON
    | MatchingConnection | MatchingProxyConnection | MatchingContentLength | MatchingTransferEncoding | MatchingUpgrade
    | Connection | ContentLength | TransferEncoding | Upgrade
    | MatchingChunked | MatchingKeepAlive | MatchingClose
    | Chunked | KeepAlive | Close

  /** `AssertionFailed` stands for a failing assert of the original. */
  datatype Errno =
    | OK | InvalidEofState | HeaderOverflow | ClosedConnection | InvalidVersion | InvalidStatus | InvalidMethod | InvalidUrl
    | LfExpected | InvalidHeaderToken | InvalidContentLength | InvalidChunkSize | InvalidConstant | Strict | Unknown
    | AssertionFailed

  datatype Flags = Flags(chunked: bool, keepAlive: bool, close: bool, trailing: bool, upgrade: bool, skipBody: bool)

  const NO_FLAGS := Flags(false, false, false, false, false, false)

  datatype Parser = Parser(
    ptype: PType, flags: Flags, state: State, header: HeaderState, index: nat, nread: nat, length: U64,
    major: nat, minor: nat, status: nat, verb: Method, errno: Errno, upgrade: bool
  )

  /** http_parser_init. */
  function Init(t: PType): Parser {
    Parser(t, NO_FLAGS, match t case Request => StartReq case Response => StartRes case Both => StartReqOrRes,
           General, 0, 0, 0, 0, 0, 0, DELETE, OK, false)
  }

  // ---------- characters ----------

  const CR: char := '\r'
  const LF: char := '\n'

  /** The byte with bit 5 set. */
  function Lower(ch: char): nat {
    var c := ch as int;
    if c / 32 % 2 == 0 then c + 32 else c
  }

  predicate IsAlpha(ch: char) { 'a' as int <= Lower(ch) <= 'z' as int }

  predicate IsNum(ch: char) { '0' <= ch <= '9' }

  function Digit(ch: char): nat
    requires IsNum(ch)
  {
    ch as int - '0' as int
  }

  predicate IsHex(ch: char) { IsNum(ch) || 'a' as int <= Lower(ch) <= 'f' as int }

  predicate IsMark(ch: char) { ch in "-_.!~*'()" }

  predicate IsUserinfoChar(ch: char) { IsAlpha(ch) || IsNum(ch) || IsMark(ch) || ch in "%;:&=+$," }

  predicate IsHostChar(ch: char) { IsAlpha(ch) || IsNum(ch) || ch == '.' || ch == '-' }

  /** The bits set in normal_url_char. */
  predicate IsUrlChar(ch: char) { '!' <= ch <= '~' && ch != '#' && ch != '?' }

  /** The header token table, which also lowercases; NUL means no token. */
  function Token(ch: char): char {
    if 'A' <= ch <= 'Z' then (ch as int + 32) as char
    else if 'a' <= ch <= 'z' || IsNum(ch) || ch in "!#$%&'*+-.^_`|~" then ch
    else '\0'
  }

  /** The hexadecimal digit table has initialisers for the first 128 bytes only, so the
      others read as the digit 0; -1 means no digit. */
  function Unhex(ch: char): (v: int)
    ensures -1 <= v <= 15
    ensures ch as int >= 128 ==> v == 0
  {
    if IsNum(ch) then Digit(ch)
    else if 'A' <= ch <= 'F' then ch as int - 'A' as int + 10
    else if 'a' <= ch <= 'f' then ch as int - 'a' as int + 10
    else if ch as int >= 128 then 0
    else -1
  }

  // ---------- the end of a message ----------

  predicate MessageNeedsEof(p: Parser) {
    && p.ptype != Request
    && !(p.status / 100 == 1 || p.status == 204 || p.status == 304 || p.flags.skipBody)
    && !(p.flags.chunked || p.length != ULLONG_MAX)
  }

  predicate ShouldKeepAlive(p: Parser) {
    && (if p.major > 0 && p.minor > 0 then !p.flags.close else p.flags.keepAlive)
    && !MessageNeedsEof(p)
  }

  function NewMessage(p: Parser): State {
    if !ShouldKeepAlive(p) then Dead else if p.ptype == Request then StartReq else StartRes
  }

  // ---------- the URL automaton ----------

  /** One character of a URL; `Dead` means that it does not belong there. */
  function ParseUrlChar(s: State, ch: char): State {
    if ch in " \r\n\t\U{0C}" then Dead else
    match s
    case ReqSpacesBeforeUrl =>
      if ch == '/' || ch == '*' then ReqPath else if IsAlpha(ch) then ReqSchema else Dead
    case ReqSchema =>
      if IsAlpha(ch) then ReqSchema else if ch == ':' then ReqSchemaSlash else Dead
    case ReqSchemaSlash => if ch == '/' then ReqSchemaSlashSlash else Dead
    case ReqSchemaSlashSlash => if ch == '/' then ReqServerStart else Dead
    case ReqServerWithAt => if ch == '@' then Dead else ServerChar(ch)
    case ReqServerStart => ServerChar(ch)
    case ReqServer => ServerChar(ch)
    case ReqPath =>
      if IsUrlChar(ch) then ReqPath else if ch == '?' then ReqQueryStringStart else if ch == '#' then ReqFragmentStart else Dead
    case ReqQueryStringStart => QueryChar(ch)
    case ReqQueryString => QueryChar(ch)
    case ReqFragmentStart =>
      if IsUrlChar(ch) || ch == '?' then ReqFragment else if ch == '#' then ReqFragmentStart else Dead
    case ReqFragment => if IsUrlChar(ch) || ch == '?' || ch == '#' then ReqFragment else Dead
    case _ => Dead
  }

  function ServerChar(ch: char): State {
    if ch == '/' then ReqPath
    else if ch == '?' then ReqQueryStringStart
    else if ch == '@' then ReqServerWithAt
    else if IsUserinfoChar(ch) || ch == '[' || ch == ']' then ReqServer
    else Dead
  }

  function QueryChar(ch: char): State {
    if IsUrlChar(ch) || ch == '?' then ReqQueryString else if ch == '#' then ReqFragmentStart else Dead
  }

  predicate InUrl(s: State) {
    || s.ReqSchema? || s.ReqSchemaSlash? || s.ReqSchemaSlashSlash? || s.ReqServerStart? || s.ReqServer? || s.ReqServerWithAt?
    || s.ReqPath? || s.ReqQueryStringStart? || s.ReqQueryString? || s.ReqFragmentStart? || s.ReqFragment?
  }

  /** States in which bytes count towards the header size limit. */
  predicate ParsingHeader(s: State) {
    !(s.ChunkData? || s.ChunkDataAlmostDone? || s.ChunkDataDone? || s.BodyIdentity? || s.BodyIdentityEof? || s.MessageDone?)
  }

  // ---------- one byte ----------

  /** What a state does with its marks and callbacks: set a mark at this byte, pass the bytes
      from the mark up to this byte to a data callback, or run a notification. */
  datatype Act = Mark(kind: Kind) | Flush(kind: Kind) | Say(event: Event)

  /** `again`: the byte is looked at once more in the new state. `Leave`: the rest of the input
      belongs to another protocol. */
  datatype Step = Go(p: Parser, acts: seq<Act>, again: bool) | Leave(p: Parser, acts: seq<Act>) | Fail(p: Parser)

  function To(p: Parser, s: State): Step { Go(p.(state := s), [], false) }

  function Err(p: Parser, e: Errno): Step { Fail(p.(errno := e)) }

  function Expect(p: Parser, ok: bool, s: State): Step {
    if ok then To(p, s) else Err(p, Strict)
  }

  function Check(p: Parser, ok: bool, step: Step): Step {
    if ok then step else Err(p, AssertionFailed)
  }

  /** A decimal number of at most three digits. */
  function Decimal(n: nat, ch: char): nat
    requires IsNum(ch)
  {
    n * 10 + Digit(ch)
  }

  /** A length in progress, in 64-bit arithmetic; None when the overflow test catches it. */
  function Accumulate(length: U64, base: nat, digit: nat): (r: int)
    ensures -1 <= r < ULLONG_MAX
  {
    var t := (length * base + digit) % WORD;
    if t < length || t == ULLONG_MAX then -1 else t
  }

  function StartMessage(p: Parser): Parser {
    p.(flags := NO_FLAGS, length := ULLONG_MAX)
  }

  function OnStart(p: Parser, ch: char): Step
  {
    match p.state
    case Dead => if ch == CR || ch == LF then Go(p, [], false) else Err(p, ClosedConnection)
    case StartReqOrRes =>
      if ch == CR || ch == LF then Go(p, [], false) else
      var q := StartMessage(p);
      if ch == 'H' then Go(q.(state := ResOrRespH), [Say(MessageBegin)], false)
      else Go(q.(ptype := Request, state := StartReq), [], true)
    case ResOrRespH =>
      if ch == 'T' then Go(p.(ptype := Response, state := ResHT), [], false)
      else if ch != 'E' then Err(p, InvalidConstant)
      else Go(p.(ptype := Request, verb := HEAD, index := 2, state := ReqMethod), [], false)
    case StartRes =>
      var q := StartMessage(p);
      if ch == 'H' then Go(q.(state := ResH), [Say(MessageBegin)], false)
      else if ch == CR || ch == LF then Go(q, [Say(MessageBegin)], false)
      else Err(q, InvalidConstant)
    case StartReq =>
      if ch == CR || ch == LF then Go(p, [], false) else
      var q := StartMessage(p);
      if !IsAlpha(ch) then Err(q, InvalidMethod) else
      var m := q.(verb := DELETE, index := 1);
      (match FirstVerb(ch)
       case None => Err(m, InvalidMethod)
       case Some(v) => Go(m.(verb := v, state := ReqMethod), [Say(MessageBegin)], false))
    case _ => Err(p, AssertionFailed)
  }

  function FirstVerb(ch: char): Option<Method> {
    match ch
    case 'C' => Some(CONNECT)
    case 'D' => Some(DELETE)
    case 'G' => Some(GET)
    case 'H' => Some(HEAD)
    case 'L' => Some(LOCK)
    case 'M' => Some(MKCOL)
    case 'N' => Some(NOTIFY)
    case 'O' => Some(OPTIONS)
    case 'P' => Some(POST)
    case 'R' => Some(REPORT)
    case 'S' => Some(SUBSCRIBE)
    case 'T' => Some(TRACE)
    case 'U' => Some(UNLOCK)
    case _ => None
  }

  function Spelling(v: Method): string {
    match v
    case DELETE => "DELETE"
    case GET => "GET"
    case HEAD => "HEAD"
    case POST => "POST"
    case PUT => "PUT"
    case CONNECT => "CONNECT"
    case OPTIONS => "OPTIONS"
    case TRACE => "TRACE"
    case COPY => "COPY"
    case LOCK => "LOCK"
    case MKCOL => "MKCOL"
    case MOVE => "MOVE"
    case PROPFIND => "PROPFIND"
    case PROPPATCH => "PROPPATCH"
    case SEARCH => "SEARCH"
    case UNLOCK => "UNLOCK"
    case REPORT => "REPORT"
    case MKACTIVITY => "MKACTIVITY"
    case CHECKOUT => "CHECKOUT"
    case MERGE => "MERGE"
    case MSEARCH => "M-SEARCH"
    case NOTIFY => "NOTIFY"
    case SUBSCRIBE => "SUBSCRIBE"
    case UNSUBSCRIBE => "UNSUBSCRIBE"
    case PATCH => "PATCH"
    case PURGE => "PURGE"
  }

  /** The method's next character; a mismatch may switch to another method. A mismatching third
      character that no rule names is let through. */
  function OnMethod(p: Parser, ch: char): Step {
    var s, i := Spelling(p.verb), p.index;
    var q := p.(index := (i + 1) % 256);
    if ch == '\0' then Err(p, InvalidMethod)
    else if ch == ' ' && i == |s| then Go(q.(state := ReqSpacesBeforeUrl), [], false)
    else if i < |s| && ch == s[i] then Go(q, [], false)
    else if p.verb == CONNECT then
      if i == 1 && ch == 'H' then Go(q.(verb := CHECKOUT), [], false)
      else if i == 2 && ch == 'P' then Go(q.(verb := COPY), [], false)
      else Err(p, Unknown)
    else if p.verb == MKCOL then
      if i == 1 && ch == 'O' then Go(q.(verb := MOVE), [], false)
      else if i == 1 && ch == 'E' then Go(q.(verb := MERGE), [], false)
      else if i == 1 && ch == '-' then Go(q.(verb := MSEARCH), [], false)
      else if i == 2 && ch == 'A' then Go(q.(verb := MKACTIVITY), [], false)
      else Err(p, Unknown)
    else if p.verb == SUBSCRIBE then
      if i == 1 && ch == 'E' then Go(q.(verb := SEARCH), [], false) else Err(p, Unknown)
    else if i == 1 && p.verb == POST then
      if ch == 'R' then Go(q.(verb := PROPFIND), [], false)
      else if ch == 'U' then Go(q.(verb := PUT), [], false)
      else if ch == 'A' then Go(q.(verb := PATCH), [], false)
      else Err(p, Unknown)
    else if i == 2 then
      if p.verb == PUT && ch == 'R' then Go(q.(verb := PURGE), [], false)
      else if p.verb == UNLOCK && ch == 'S' then Go(q.(verb := UNSUBSCRIBE), [], false)
      else Go(q, [], false)
    else if i == 4 && p.verb == PROPFIND && ch == 'P' then Go(q.(verb := PROPPATCH), [], false)
    else Err(p, InvalidMethod)
  }

  function OnUrl(p: Parser, ch: char): Step {
    if p.state == ReqSpacesBeforeUrl then
      if ch == ' ' then Go(p, [], false) else
      var s := ParseUrlChar(if p.verb == CONNECT then ReqServerStart else ReqSpacesBeforeUrl, ch);
      if s == Dead then Err(p.(state := Dead), InvalidUrl) else Go(p.(state := s), [Mark(Url)], false)
    else if p.state.ReqSchema? || p.state.ReqSchemaSlash? || p.state.ReqSchemaSlashSlash? || p.state.ReqServerStart? then
      if ch == ' ' || ch == CR || ch == LF then Err(p, InvalidUrl) else
      var s := ParseUrlChar(p.state, ch);
      if s == Dead then Err(p.(state := Dead), InvalidUrl) else To(p, s)
    else if ch == ' ' then Go(p.(state := ReqHttpStart), [Flush(Url)], false)
    else if ch == CR || ch == LF then
      Go(p.(major := 0, minor := 9, state := if ch == CR then ReqLineAlmostDone else HeaderFieldStart), [Flush(Url)], false)
    else
      var s := ParseUrlChar(p.state, ch);
      if s == Dead then Err(p.(state := Dead), InvalidUrl) else To(p, s)
  }

  function OnVersion(p: Parser, ch: char): Step {
    match p.state
    case ReqHttpStart =>
      if ch == 'H' then To(p, ReqH) else if ch == ' ' then Go(p, [], false) else Err(p, InvalidConstant)
    case ReqH => Expect(p, ch == 'T', ReqHT)
    case ReqHT => Expect(p, ch == 'T', ReqHTT)
    case ReqHTT => Expect(p, ch == 'P', ReqHTTP)
    case ReqHTTP => Expect(p, ch == '/', ReqFirstMajor)
    case ResH => Expect(p, ch == 'T', ResHT)
    case ResHT => Expect(p, ch == 'T', ResHTT)
    case ResHTT => Expect(p, ch == 'P', ResHTTP)
    case ResHTTP => Expect(p, ch == '/', ResFirstMajor)
    case ReqFirstMajor =>
      if '1' <= ch <= '9' then To(p.(major := Digit(ch)), ReqMajor) else Err(p, InvalidVersion)
    case ResFirstMajor =>
      if IsNum(ch) then To(p.(major := Digit(ch)), ResMajor) else Err(p, InvalidVersion)
    case ReqMajor => OnMajor(p, ch, ReqFirstMinor)
    case ResMajor => OnMajor(p, ch, ResFirstMinor)
    case ReqFirstMinor => if IsNum(ch) then To(p.(minor := Digit(ch)), ReqMinor) else Err(p, InvalidVersion)
    case ResFirstMinor => if IsNum(ch) then To(p.(minor := Digit(ch)), ResMinor) else Err(p, InvalidVersion)
    case ReqMinor =>
      if ch == CR then To(p, ReqLineAlmostDone) else if ch == LF then To(p, HeaderFieldStart) else OnMinor(p, ch)
    case ResMinor => if ch == ' ' then To(p, ResFirstStatus) else OnMinor(p, ch)
    case _ => Err(p, AssertionFailed)
  }

  function OnMajor(p: Parser, ch: char, next: State): Step {
    if ch == '.' then To(p, next)
    else if !IsNum(ch) then Err(p, InvalidVersion)
    else
      var q := p.(major := Decimal(p.major, ch));
      if q.major > 999 then Err(q, InvalidVersion) else Go(q, [], false)
  }

  function OnMinor(p: Parser, ch: char): Step {
    if !IsNum(ch) then Err(p, InvalidVersion)
    else
      var q := p.(minor := Decimal(p.minor, ch));
      if q.minor > 999 then Err(q, InvalidVersion) else Go(q, [], false)
  }

  function OnStatus(p: Parser, ch: char): Step {
    match p.state
    case ResFirstStatus =>
      if IsNum(ch) then To(p.(status := Digit(ch)), ResStatusCode)
      else if ch == ' ' then Go(p, [], false)
      else Err(p, InvalidStatus)
    case ResStatusCode =>
      if IsNum(ch) then
        var q := p.(status := Decimal(p.status, ch));
        if q.status > 999 then Err(q, InvalidStatus) else Go(q, [], false)
      else if ch == ' ' then To(p, ResStatus)
      else if ch == CR then To(p, ResLineAlmostDone)
      else if ch == LF then To(p, HeaderFieldStart)
      else Err(p, InvalidStatus)
    case ResStatus =>
      if ch == CR then To(p, ResLineAlmostDone) else if ch == LF then To(p, HeaderFieldStart) else Go(p, [], false)
    case ResLineAlmostDone => Expect(p, ch == LF, HeaderFieldStart)
    case ReqLineAlmostDone => if ch != LF then Err(p, LfExpected) else To(p, HeaderFieldStart)
    case _ => Err(p, AssertionFailed)
  }

  // ---------- headers ----------

  /** The next character of a keyword being matched: still matching, matched, or not. */
  function Match(p: Parser, ch: nat, word: string, matched: HeaderState): (q: Parser)
    ensures q == p.(index := q.index, header := q.header)
    ensures q.header == p.header || q.header == General || q.header == matched
  {
    var i := (p.index + 1) % 256;
    var q := p.(index := i);
    if i >= |word| || ch != word[i] as nat then q.(header := General)
    else if i == |word| - 1 then q.(header := matched)
    else q
  }

  function OnFieldStart(p: Parser, ch: char): Step {
    if ch == CR then To(p, HeadersAlmostDone)
    else if ch == LF then Go(p.(state := HeadersAlmostDone), [], true)
    else
      var c := Token(ch);
      if c == '\0' then Err(p, InvalidHeaderToken) else
      var h := if c == 'c' then C else if c == 'p' then MatchingProxyConnection else if c == 't' then MatchingTransferEncoding
               else if c == 'u' then MatchingUpgrade else General;
      Go(p.(index := 0, state := HeaderField, header := h), [Mark(Field)], false)
  }

  function FieldChar(p: Parser, ch: char, c: char): Parser {
    var q := p.(index := (p.index + 1) % 256);
    match p.header
    case General => p
    case C => q.(header := if c == 'o' then CO else General)
    case CO => q.(header := if c == 'n' then CON else General)
    case CON => q.(header := if c == 'n' then MatchingConnection else if c == 't' then MatchingContentLength else General)
    case MatchingConnection => Match(p, c as nat, "connection", Connection)
    case MatchingProxyConnection => Match(p, c as nat, "proxy-connection", Connection)
    case MatchingContentLength => Match(p, c as nat, "content-length", ContentLength)
    case MatchingTransferEncoding => Match(p, c as nat, "transfer-encoding", TransferEncoding)
    case MatchingUpgrade => Match(p, c as nat, "upgrade", Upgrade)
    case _ => if ch != ' ' then p.(header := General) else p
  }

  predicate FieldHeader(h: HeaderState) {
    h.General? || h.C? || h.CO? || h.CON? || h.MatchingConnection? || h.MatchingProxyConnection? || h.MatchingContentLength?
    || h.MatchingTransferEncoding? || h.MatchingUpgrade? || h.Connection? || h.ContentLength? || h.TransferEncoding? || h.Upgrade?
  }

  function OnField(p: Parser, ch: char): Step {
    var c := Token(ch);
    if c != '\0' then Check(p, FieldHeader(p.header), Go(FieldChar(p, ch, c), [], false))
    else if ch == ':' then Go(p.(state := HeaderValueStart), [Flush(Field)], false)
    else if ch == CR then Go(p.(state := HeaderAlmostDone), [Flush(Field)], false)
    else if ch == LF then Go(p.(state := HeaderFieldStart), [Flush(Field)], false)
    else Err(p, InvalidHeaderToken)
  }

  function OnValueStart(p: Parser, ch: char): Step {
    if ch == ' ' || ch == '\t' then Go(p, [], false) else
    var q := p.(state := HeaderValue, index := 0);
    if ch == CR then Go(q.(header := General, state := HeaderAlmostDone), [Mark(Value), Flush(Value)], false)
    else if ch == LF then Go(q.(state := HeaderFieldStart), [Mark(Value), Flush(Value)], false)
    else
      var c := Lower(ch);
      match p.header
      case Upgrade => Go(q.(flags := q.flags.(upgrade := true), header := General), [Mark(Value)], false)
      case TransferEncoding => Go(q.(header := if c == 'c' as nat then MatchingChunked else General), [Mark(Value)], false)
      case ContentLength =>
        if !IsNum(ch) then Err(q, InvalidContentLength) else Go(q.(length := Digit(ch)), [Mark(Value)], false)
      case Connection =>
        Go(q.(header := if c == 'k' as nat then MatchingKeepAlive else if c == 'c' as nat then MatchingClose else General), [Mark(Value)], false)
      case _ => Go(q.(header := General), [Mark(Value)], false)
  }

  function OnValue(p: Parser, ch: char): Step {
    if ch == CR then Go(p.(state := HeaderAlmostDone), [Flush(Value)], false)
    else if ch == LF then Go(p.(state := HeaderAlmostDone), [Flush(Value)], true)
    else
      var c := Lower(ch);
      match p.header
      case General => Go(p, [], false)
      case Connection => Err(p, AssertionFailed)
      case TransferEncoding => Err(p, AssertionFailed)
      case ContentLength =>
        if ch == ' ' then Go(p, [], false)
        else if !IsNum(ch) then Err(p, InvalidContentLength)
        else
          var t := Accumulate(p.length, 10, Digit(ch));
          if t < 0 then Err(p, InvalidContentLength) else Go(p.(length := t), [], false)
      case MatchingChunked => Go(Match(p, c, "chunked", Chunked), [], false)
      case MatchingKeepAlive => Go(Match(p, c, "keep-alive", KeepAlive), [], false)
      case MatchingClose => Go(Match(p, c, "close", Close), [], false)
      case Chunked => Go(if ch != ' ' then p.(header := General) else p, [], false)
      case KeepAlive => Go(if ch != ' ' then p.(header := General) else p, [], false)
      case Close => Go(if ch != ' ' then p.(header := General) else p, [], false)
      case _ => Go(p.(header := General), [], false)
  }

  function OnHeaderDone(p: Parser, ch: char): Step {
    if ch != LF then Err(p, Strict) else
    var f := match p.header
             case KeepAlive => p.flags.(keepAlive := true)
             case Close => p.flags.(close := true)
             case Chunked => p.flags.(chunked := true)
             case _ => p.flags;
    To(p.(flags := f), HeaderValueLws)
  }

  /** `skip`: the headers-complete callback asks for the body to be skipped. */
  function OnHeadersDone(p: Parser, ch: char, skip: bool): Step {
    if ch != LF then Err(p, Strict)
    else if p.state == HeadersAlmostDone then
      if p.flags.trailing then Go(p.(state := NewMessage(p)), [Say(MessageComplete)], false)
      else
        var q := p.(state := HeadersDone, upgrade := p.flags.upgrade || p.verb == CONNECT);
        Go(if skip then q.(flags := q.flags.(skipBody := true)) else q, [Say(HeadersComplete)], true)
    else
      var q := p.(nread := 0);
      if p.upgrade then Leave(q.(state := NewMessage(q)), [Say(MessageComplete)])
      else if p.flags.skipBody then Go(q.(state := NewMessage(q)), [Say(MessageComplete)], false)
      else if p.flags.chunked then To(q, ChunkSizeStart)
      else if p.length == 0 then Go(q.(state := NewMessage(q)), [Say(MessageComplete)], false)
      else if p.length != ULLONG_MAX then To(q, BodyIdentity)
      else if p.ptype == Request || !MessageNeedsEof(p) then Go(q.(state := NewMessage(q)), [Say(MessageComplete)], false)
      else To(q, BodyIdentityEof)
  }

  // ---------- chunks ----------

  function OnChunk(p: Parser, ch: char): Step {
    match p.state
    case ChunkSizeStart =>
      Check(p, p.nread == 1 && p.flags.chunked,
            if Unhex(ch) == -1 then Err(p, InvalidChunkSize) else To(p.(length := Unhex(ch)), ChunkSize))
    case ChunkSize =>
      Check(p, p.flags.chunked,
            if ch == CR then To(p, ChunkSizeAlmostDone)
            else if Unhex(ch) == -1 then
              if ch == ';' || ch == ' ' then To(p, ChunkParameters) else Err(p, InvalidChunkSize)
            else
              var t := Accumulate(p.length, 16, Unhex(ch));
              if t < 0 then Err(p, InvalidContentLength) else Go(p.(length := t), [], false))
    case ChunkParameters =>
      Check(p, p.flags.chunked, if ch == CR then To(p, ChunkSizeAlmostDone) else Go(p, [], false))
    case ChunkSizeAlmostDone =>
      Check(p, p.flags.chunked,
            if ch != LF then Err(p, Strict)
            else
              var q := p.(nread := 0);
              if p.length == 0 then To(q.(flags := q.flags.(trailing := true)), HeaderFieldStart) else To(q, ChunkData))
    case ChunkDataAlmostDone =>
      Check(p, p.flags.chunked && p.length == 0,
            if ch != CR then Err(p, Strict) else Go(p.(state := ChunkDataDone), [Flush(Body)], false))
    case ChunkDataDone =>
      Check(p, p.flags.chunked, if ch != LF then Err(p, Strict) else To(p.(nread := 0), ChunkSizeStart))
    case _ => Err(p, AssertionFailed)
  }

  /** States that take a run of body bytes at once. */
  predicate TakesBody(s: State) {
    s.ChunkData? || s.BodyIdentity? || s.BodyIdentityEof?
  }

  /** One turn of the switch, for the states that look at a single byte. */
  function Switch(p: Parser, ch: char, skip: bool): Step
    requires !TakesBody(p.state)
  {
    match p.state
    case Dead => OnStart(p, ch)
    case StartReqOrRes => OnStart(p, ch)
    case ResOrRespH => OnStart(p, ch)
    case StartRes => OnStart(p, ch)
    case StartReq => OnStart(p, ch)
    case ReqMethod => OnMethod(p, ch)
    case ResFirstStatus => OnStatus(p, ch)
    case ResStatusCode => OnStatus(p, ch)
    case ResStatus => OnStatus(p, ch)
    case ResLineAlmostDone => OnStatus(p, ch)
    case ReqLineAlmostDone => OnStatus(p, ch)
    case HeaderFieldStart => OnFieldStart(p, ch)
    case HeaderField => OnField(p, ch)
    case HeaderValueStart => OnValueStart(p, ch)
    case HeaderValue => OnValue(p, ch)
    case HeaderAlmostDone => OnHeaderDone(p, ch)
    case HeaderValueLws =>
      if ch == ' ' || ch == '\t' then To(p, HeaderValueStart) else Go(p.(state := HeaderFieldStart), [], true)
    case HeadersAlmostDone => OnHeadersDone(p, ch, skip)
    case HeadersDone => OnHeadersDone(p, ch, skip)
    case ChunkSizeStart => OnChunk(p, ch)
    case ChunkSize => OnChunk(p, ch)
    case ChunkParameters => OnChunk(p, ch)
    case ChunkSizeAlmostDone => OnChunk(p, ch)
    case ChunkDataAlmostDone => OnChunk(p, ch)
    case ChunkDataDone => OnChunk(p, ch)
    case MessageDone => Go(p.(state := NewMessage(p)), [Say(MessageComplete)], false)
    case _ => if p.state == ReqSpacesBeforeUrl || InUrl(p.state) then OnUrl(p, ch) else OnVersion(p, ch)
  }

  /** How many more times a byte can be looked at. */
  function Turns(s: State): nat {
    match s
    case StartReqOrRes => 1
    case HeaderValue => 1
    case HeaderValueLws => 3
    case HeaderFieldStart => 2
    case HeadersAlmostDone => 1
    case _ => 0
  }
}
