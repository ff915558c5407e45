/** Properties of the parser that hold for every stream: no assertion can fail, lengths are
    exact as long as they fit, and bodies come out as they were framed. */
module HttpBody {
  import opened Options
  import opened HttpState
  import opened Http

  // ---------- assertions ----------

  /** What the parser's assertions rely on. `n` header bytes have been counted when a chunk
      size starts: none before the byte, one once it is counted. */
  ghost predicate Sane(p: Parser, n: nat) {
    && (IsChunk(p.state) || p.state == ChunkData ==> p.flags.chunked)
    && (p.state == ChunkSizeStart ==> p.nread == n)
    && (p.state == ChunkSize || p.state == ChunkParameters || p.state == ChunkSizeAlmostDone ==> p.length < ULLONG_MAX)
    && (p.state == ChunkDataAlmostDone ==> p.length == 0)
    && (p.state == ChunkData || p.state == BodyIdentity ==> 0 < p.length < ULLONG_MAX)
    && (p.state == HeaderField ==> FieldHeader(p.header))
    && (p.state == HeaderValue ==> p.header != Connection && p.header != TransferEncoding)
  }

  ghost predicate Safe(r: Step) {
    match r
    case Fail(q) => q.errno != AssertionFailed
    case Leave(q, _) => Sane(q, 0)
    case Go(q, _, again) => Sane(q, 0) && (again ==> q.state != ChunkSizeStart)
  }

  /** The states without a condition of their own. */
  predicate Free(s: State) {
    !IsChunk(s) && s != ChunkData && s != BodyIdentity && s != HeaderField && s != HeaderValue
  }

  lemma {:induction false} UrlFree(s: State, ch: char)
    ensures Free(ParseUrlChar(s, ch))
  {
  }

  /** A step that fails for another reason than an assertion, or ends in a free state. */
  predicate StepFree(r: Step) {
    match r
    case Fail(q) => q.errno != AssertionFailed
    case Leave(q, _) => Free(q.state)
    case Go(q, _, _) => Free(q.state)
  }

  lemma {:induction false} StepFreeSafe(r: Step)
    requires StepFree(r)
    ensures Safe(r)
  {
  }

  lemma {:induction false} MessageFree(p: Parser)
    ensures Free(NewMessage(p))
  {
  }

  lemma {:induction false} SafeStart(p: Parser, ch: char)
    requires IsStart(p.state) && p.errno == OK
    ensures Safe(OnStart(p, ch))
  {
    hide Safe, Sane;
    StepFreeSafe(OnStart(p, ch));
  }

  lemma {:induction false} SafeMethod(p: Parser, ch: char)
    requires p.state == ReqMethod && p.errno == OK
    ensures Safe(OnMethod(p, ch))
  {
    hide Safe, Sane;
    StepFreeSafe(OnMethod(p, ch));
  }

  lemma {:induction false} SafeStatus(p: Parser, ch: char)
    requires IsStatus(p.state) && p.errno == OK
    ensures Safe(OnStatus(p, ch))
  {
    hide Safe, Sane;
    StepFreeSafe(OnStatus(p, ch));
  }

  lemma {:induction false} UrlEndsFree(s: State)
    requires s == ReqSpacesBeforeUrl || InUrl(s)
    ensures Free(Dead) && Free(s) && Free(ReqHttpStart) && Free(ReqLineAlmostDone) && Free(HeaderFieldStart)
  {
  }

  lemma {:induction false} SafeUrl(p: Parser, ch: char)
    requires (p.state == ReqSpacesBeforeUrl || InUrl(p.state)) && p.errno == OK
    ensures Safe(OnUrl(p, ch))
  {
    hide ParseUrlChar, Safe, Sane, Free;
    UrlFree(p.state, ch);
    UrlFree(ReqServerStart, ch);
    UrlFree(ReqSpacesBeforeUrl, ch);
    assert Free(Dead) && Free(p.state) && Free(ReqHttpStart) && Free(ReqLineAlmostDone) && Free(HeaderFieldStart) by { UrlEndsFree(p.state); }
    StepFreeSafe(OnUrl(p, ch));
  }

  lemma {:induction false} SafeVersion(p: Parser, ch: char)
    requires IsVersion(p.state) && p.errno == OK
    ensures Safe(OnVersion(p, ch))
  {
    hide Sane, Safe, Digit, Decimal, Free;
    var r := OnVersion(p, ch);
    if r.Go? { VersionFree(r.p.state); }
    StepFreeSafe(r);
  }

  lemma {:induction false} VersionFree(s: State)
    requires IsVersion(s) || IsStatus(s) || s == HeaderFieldStart
    ensures Free(s)
  {
  }

  lemma {:induction false} SafeFieldStart(p: Parser, ch: char)
    requires p.state == HeaderFieldStart && p.errno == OK
    ensures Safe(OnFieldStart(p, ch))
  {
    hide Token;
  }

  lemma {:induction false} FieldStays(p: Parser, ch: char, c: char)
    requires FieldHeader(p.header)
    ensures var q := FieldChar(p, ch, c); FieldHeader(q.header) && q == p.(header := q.header, index := q.index)
  {
  }

  lemma {:induction false} SafeField(p: Parser, ch: char)
    requires p.state == HeaderField && p.errno == OK && Sane(p, 1)
    ensures Safe(OnField(p, ch))
  {
    hide Token, FieldChar, FieldHeader;
    FieldStays(p, ch, Token(ch));
  }

  lemma {:induction false} SafeValueStart(p: Parser, ch: char)
    requires p.state == HeaderValueStart && p.errno == OK
    ensures Safe(OnValueStart(p, ch))
  {
    hide Lower, IsNum;
  }

  lemma {:induction false} ValueHeader(p: Parser)
    requires p.state == HeaderValue && Sane(p, 1)
    ensures p.header != Connection && p.header != TransferEncoding
  {
  }

  lemma {:induction false} ValueSane(p: Parser)
    requires p.state == HeaderAlmostDone || (p.state == HeaderValue && p.header != Connection && p.header != TransferEncoding)
    ensures Sane(p, 0)
  {
  }

  lemma {:induction false} SafeValue(p: Parser, ch: char)
    requires p.state == HeaderValue && p.errno == OK && Sane(p, 1)
    ensures Safe(OnValue(p, ch))
  {
    hide Lower, Accumulate, IsNum, Sane, IsChunk;
    var r := OnValue(p, ch);
    assert p.header != Connection && p.header != TransferEncoding by { ValueHeader(p); }
    if r.Go? { ValueSane(r.p); }
  }

  lemma {:induction false} SafeAlmostDone(p: Parser, ch: char, skip: bool)
    requires p.state == HeadersAlmostDone && p.errno == OK
    ensures Safe(OnHeadersDone(p, ch, skip))
  {
    hide MessageNeedsEof, NewMessage, FieldHeader, Safe, Sane;
    MessageFree(p);
    StepFreeSafe(OnHeadersDone(p, ch, skip));
  }

  lemma {:induction false} SafeHeadersDone(p: Parser, ch: char, skip: bool)
    requires p.state == HeadersDone && p.errno == OK
    ensures Safe(OnHeadersDone(p, ch, skip))
  {
    hide MessageNeedsEof, NewMessage, FieldHeader, Sane, Free;
    MessageFree(p.(nread := 0));
    var r := OnHeadersDone(p, ch, skip);
    if r.Go? { DoneSane(r.p, p.flags.chunked, p.length); }
    if r.Leave? { FreeSane(r.p); }
  }

  lemma {:induction false} FreeSane(p: Parser)
    requires Free(p.state)
    ensures Sane(p, 0)
  {
  }

  /** The states the end of the headers leads to. */
  lemma {:induction false} DoneSane(p: Parser, chunked: bool, length: nat)
    requires p.flags.chunked == chunked && p.length == length
    requires || Free(p.state) || (p.state == ChunkSizeStart && chunked && p.nread == 0) || (p.state == BodyIdentity && 0 < length < ULLONG_MAX)
             || p.state == BodyIdentityEof
    ensures Sane(p, 0)
  {
  }

  lemma {:induction false} SafeChunkStart(p: Parser, ch: char)
    requires p.state == ChunkSizeStart && p.errno == OK && Sane(p, 1)
    ensures Safe(OnChunk(p, ch))
  {
    hide Unhex;
  }

  lemma {:induction false} SafeChunkSize(p: Parser, ch: char)
    requires p.state == ChunkSize && p.errno == OK && Sane(p, 1)
    ensures Safe(OnChunk(p, ch))
  {
    hide Accumulate, Unhex;
  }

  lemma {:induction false} SafeChunk(p: Parser, ch: char)
    requires IsChunk(p.state) && p.errno == OK && Sane(p, 1)
    ensures Safe(OnChunk(p, ch))
  {
    hide Accumulate, Unhex;
    if p.state == ChunkSizeStart || p.state == ChunkSize {
      hide Safe, OnChunk, Sane;
      if p.state == ChunkSize { SafeChunkSize(p, ch); } else { SafeChunkStart(p, ch); }
    }
  }

  lemma {:induction false} SafeDone(p: Parser, ch: char, skip: bool)
    requires p.state == MessageDone && p.errno == OK
    ensures Safe(Switch(p, ch, skip))
  {
    hide NewMessage, OnStart, OnMethod, OnStatus, OnUrl, OnVersion, OnFieldStart, OnField, OnValueStart, OnValue, OnHeaderDone, OnHeadersDone, OnChunk, Safe, Sane;
    MessageFree(p);
    StepFreeSafe(Switch(p, ch, skip));
  }

  lemma {:induction false} SafeOther(p: Parser, ch: char, skip: bool)
    requires (p.state == HeaderAlmostDone || p.state == HeaderValueLws) && p.errno == OK
    ensures Safe(Switch(p, ch, skip))
  {
    hide NewMessage, OnStart, OnMethod, OnStatus, OnUrl, OnVersion, OnFieldStart, OnField, OnValueStart, OnValue, OnHeadersDone, OnChunk, Safe, Sane;
    StepFreeSafe(Switch(p, ch, skip));
  }

  lemma {:induction false} SwitchSafe(p: Parser, ch: char, skip: bool)
    requires !TakesBody(p.state) && p.errno == OK && Sane(p, 1)
    ensures Safe(Switch(p, ch, skip))
  {
    hide Safe, OnStart, OnMethod, OnStatus, OnUrl, OnVersion, OnFieldStart, OnField, OnValueStart, OnValue, OnHeaderDone, OnHeadersDone, OnChunk;
    if IsStart(p.state) {
      SafeStart(p, ch);
    } else if IsStatus(p.state) {
      SafeStatus(p, ch);
    } else if IsChunk(p.state) {
      SafeChunk(p, ch);
    } else if p.state == HeaderFieldStart {
      SafeFieldStart(p, ch);
    } else if p.state == HeaderField {
      SafeField(p, ch);
    } else if p.state == HeaderValueStart {
      SafeValueStart(p, ch);
    } else if p.state == HeaderValue {
      SafeValue(p, ch);
    } else if p.state == HeadersAlmostDone {
      SafeAlmostDone(p, ch, skip);
    } else if p.state == HeadersDone {
      SafeHeadersDone(p, ch, skip);
    } else if p.state == ReqMethod {
      SafeMethod(p, ch);
    } else if p.state == ReqSpacesBeforeUrl || InUrl(p.state) {
      SafeUrl(p, ch);
    } else if IsVersion(p.state) {
      SafeVersion(p, ch);
    } else if p.state == MessageDone {
      SafeDone(p, ch, skip);
    } else {
      SafeOther(p, ch, skip);
    }
  }

  ghost predicate SafeFed(r: Fed) {
    match r
    case Fine(p, _) => Sane(p, 0) && p.errno == OK
    case Left(p, _, _) => Sane(p, 0) && p.errno == OK
    case Broken(p) => p.errno != AssertionFailed
  }

  lemma {:induction false} TurnSafe(skip: Parser -> bool, p: Parser, ch: char)
    requires !TakesBody(p.state) && p.errno == OK && Sane(p, 1)
    ensures SafeFed(Turn(skip, p, ch))
    decreases Turns(p.state)
  {
    hide Switch, Sane;
    SwitchOrderly(p, ch, skip(p));
    SwitchSafe(p, ch, skip(p));
    var r := Switch(p, ch, skip(p));
    if r.Go? && r.again {
      SaneLater(r.p);
      TurnSafe(skip, r.p, ch);
    }
  }

  lemma {:induction false} SaneLater(p: Parser)
    requires Sane(p, 0) && p.state != ChunkSizeStart
    ensures Sane(p, 1)
  {
  }

  lemma {:induction false} ByteSafe(skip: Parser -> bool, p: Parser, ch: char)
    requires p.errno == OK && Sane(p, 0)
    ensures SafeFed(ByteStep(skip, p, ch))
  {
    hide Turn;
    if TakesBody(p.state) {
      MessageFree(p.(length := 0));
    } else {
      TurnSafe(skip, Count(p), ch);
    }
  }

  /** Whatever the stream, no assertion of the parser fails. */
  lemma {:induction false} NoAssertionFails(skip: Parser -> bool, p: Parser, s: string)
    requires p.errno == OK && Sane(p, 0)
    ensures SafeFed(Feed(skip, p, s))
    decreases |s|
  {
    hide ByteStep, Sane;
    if s != "" {
      ByteSafe(skip, p, s[0]);
      var r := ByteStep(skip, p, s[0]);
      if r.Fine? { NoAssertionFails(skip, r.p, s[1..]); }
    }
  }

  lemma {:induction false} InitSane(t: PType)
    ensures Sane(Init(t), 0) && Init(t).errno == OK
  {
  }

  // ---------- lengths ----------

  /** The number a sequence of digits stands for, after digits worth `start`. */
  function Numeral(start: nat, base: nat, digits: seq<nat>): nat
    decreases |digits|
  {
    if digits == [] then start else Numeral(start * base + digits[0], base, digits[1..])
  }

  /** What the parser stores for the digits; -1 when it refuses one. */
  function Stored(start: U64, base: nat, digits: seq<nat>): (r: int)
    ensures -1 <= r <= ULLONG_MAX
    decreases |digits|
  {
    if digits == [] then start
    else
      var t := Accumulate(start, base, digits[0]);
      if t < 0 then -1 else Stored(t, base, digits[1..])
  }

  lemma {:induction false} NumeralGrows(start: nat, base: nat, digits: seq<nat>)
    requires base >= 1
    ensures Numeral(start, base, digits) >= start
    decreases |digits|
  {
    if digits != [] {
      assert start * base >= start;
      NumeralGrows(start * base + digits[0], base, digits[1..]);
    }
  }

  /** A step is exact when the next value is below the sentinel, and refused when it is the
      sentinel. */
  lemma {:induction false} AccumulateExact(length: U64, base: nat, d: nat)
    requires base >= 2 && length < ULLONG_MAX
    ensures length * base + d < ULLONG_MAX ==> Accumulate(length, base, d) == length * base + d
    ensures length * base + d == ULLONG_MAX ==> Accumulate(length, base, d) == -1
  {
    assert length * base >= length;
  }

  /** A length below 2^64-1 is stored exactly, 2^64-1 itself is refused, and the sentinel for
      "no length" is never stored. */
  lemma {:induction false} LengthExact(start: U64, base: nat, digits: seq<nat>)
    requires base >= 2 && start < ULLONG_MAX
    ensures Numeral(start, base, digits) < ULLONG_MAX ==> Stored(start, base, digits) == Numeral(start, base, digits)
    ensures Numeral(start, base, digits) == ULLONG_MAX && digits != [] ==> Stored(start, base, digits) == -1
    ensures Stored(start, base, digits) != ULLONG_MAX
    decreases |digits|
  {
    if digits != [] {
      var v := start * base + digits[0];
      AccumulateExact(start, base, digits[0]);
      NumeralGrows(v, base, digits[1..]);
      var t := Accumulate(start, base, digits[0]);
      if t >= 0 { LengthExact(t, base, digits[1..]); }
    }
  }

  /** What 64-bit arithmetic makes of the first `k` digits. */
  function Cut(start: nat, base: nat, digits: seq<nat>, k: nat): nat
    requires k <= |digits|
  {
    Numeral(start, base, digits[..k]) % WORD
  }

  /** The digit at which the overflow test stops: the cut value falls, or is the sentinel. */
  predicate Caught(start: nat, base: nat, digits: seq<nat>, k: nat)
    requires k < |digits|
  {
    Cut(start, base, digits, k + 1) < Cut(start, base, digits, k) || Cut(start, base, digits, k + 1) == ULLONG_MAX
  }

  lemma {:induction false} NumeralCut(a: nat, b: nat, base: nat, digits: seq<nat>)
    requires a % WORD == b % WORD
    ensures Numeral(a, base, digits) % WORD == Numeral(b, base, digits) % WORD
    decreases |digits|
  {
    if digits != [] {
      var q := a / WORD - b / WORD;
      assert a == b + q * WORD;
      ModPlus(a * base + digits[0], b * base + digits[0], q * base) by {
        assert a * base == b * base + q * base * WORD;
      }
      NumeralCut(a * base + digits[0], b * base + digits[0], base, digits[1..]);
    }
  }

  lemma {:induction false} ModPlus(a: nat, b: nat, q: int)
    requires a == b + q * WORD
    ensures a % WORD == b % WORD
  {
    var r := b % WORD;
    assert a == (b / WORD + q) * WORD + r;
  }

  /** From the second digit on, the cut values are those of a start that is cut. */
  lemma {:induction false} CutNext(start: nat, t: nat, base: nat, digits: seq<nat>, k: nat)
    requires 0 < k <= |digits| && t == (start * base + digits[0]) % WORD
    ensures Cut(start, base, digits, k) == Cut(t, base, digits[1..], k - 1)
  {
    assert digits[..k][1..] == digits[1..][..k - 1] && digits[..k][0] == digits[0];
    NumeralCut(start * base + digits[0], t, base, digits[1..][..k - 1]);
  }

  /** Some digit is caught. */
  predicate AnyCaught(start: nat, base: nat, digits: seq<nat>) {
    exists k :: 0 <= k < |digits| && Caught(start, base, digits, k)
  }

  lemma {:induction false} CaughtNext(start: nat, t: nat, base: nat, digits: seq<nat>)
    requires digits != [] && t == (start * base + digits[0]) % WORD
    ensures AnyCaught(start, base, digits) <==> Caught(start, base, digits, 0) || AnyCaught(t, base, digits[1..])
  {
    hide Cut;
    var rest := digits[1..];
    forall k | 0 <= k < |rest|
      ensures Caught(start, base, digits, k + 1) == Caught(t, base, rest, k)
    {
      CutNext(start, t, base, digits, k + 1);
      CutNext(start, t, base, digits, k + 2);
    }
    if AnyCaught(start, base, digits) && !Caught(start, base, digits, 0) {
      var k :| 0 <= k < |digits| && Caught(start, base, digits, k);
      assert Caught(start, base, digits, k - 1 + 1) == Caught(t, base, rest, k - 1);
    }
    if AnyCaught(t, base, rest) {
      var k :| 0 <= k < |rest| && Caught(t, base, rest, k);
      assert Caught(start, base, digits, k + 1);
    }
  }

  lemma {:induction false} CaughtFirst(start: U64, base: nat, digits: seq<nat>)
    requires digits != []
    ensures Caught(start, base, digits, 0) <==> Accumulate(start, base, digits[0]) < 0
  {
    assert digits[..1][1..] == [] && digits[..1][0] == digits[0];
    assert Cut(start, base, digits, 0) == start;
    assert Numeral(start, base, digits[..1]) == start * base + digits[0];
  }

  lemma {:induction false} StoredCut(start: U64, base: nat, digits: seq<nat>)
    ensures digits != [] || start < ULLONG_MAX ==>
      Stored(start, base, digits) == if AnyCaught(start, base, digits) then -1 else Numeral(start, base, digits) % WORD
    decreases |digits|
  {
    hide Caught, Accumulate;
    if digits == [] {
      assert !AnyCaught(start, base, digits);
    } else {
      var t := (start * base + digits[0]) % WORD;
      CaughtFirst(start, base, digits);
      CaughtNext(start, t, base, digits);
      NumeralCut(start * base + digits[0], t, base, digits[1..]);
      AccumulateCut(start, base, digits[0]);
      if Accumulate(start, base, digits[0]) >= 0 { StoredCut(t, base, digits[1..]); }
    }
  }

  lemma {:induction false} AccumulateCut(length: U64, base: nat, d: nat)
    ensures var t := Accumulate(length, base, d); t == -1 || (t == (length * base + d) % WORD && t < ULLONG_MAX)
  {
  }

  /** The stored length is right exactly for numbers below 2^64-1. A larger one is refused
      exactly if at some digit the 64-bit value falls or is the sentinel; otherwise its low 64
      bits are stored as if they were the length. */
  lemma {:induction false} WrapUnnoticed(base: nat, digits: seq<nat>)
    requires base >= 2
    ensures Stored(0, base, digits) == Numeral(0, base, digits) <==> Numeral(0, base, digits) < ULLONG_MAX
    ensures Stored(0, base, digits) == -1 <==> AnyCaught(0, base, digits)
    ensures Stored(0, base, digits) >= 0 ==> Stored(0, base, digits) == Numeral(0, base, digits) % WORD
  {
    LengthExact(0, base, digits);
    StoredCut(0, base, digits);
  }

  /** A byte of a header that is looked at once. */
  lemma {:induction false} HeaderByte(skip: Parser -> bool, p: Parser, ch: char, s: Step)
    requires IsHeader(p.state) && p.nread < MAX_HEADER_SIZE
    requires Switch(p.(nread := p.nread + 1), ch, skip(p.(nread := p.nread + 1))) == s && s.Go? && !s.again
    ensures ByteStep(skip, p, ch) == Fine(s.p, Events(s.acts) + OpenData(s.p.state, ch))
  {
    assert Count(p) == p.(nread := p.nread + 1);
    hide Switch, Events, OpenData, Count;
  }

  lemma {:induction false} ValueStartSwitch(p: Parser, ch: char, skipped: bool)
    requires p.state == HeaderValueStart
    ensures Switch(p, ch, skipped) == OnValueStart(p, ch)
  {
    hide OnValueStart;
  }

  lemma {:induction false} ValueSwitch(p: Parser, ch: char, skipped: bool)
    requires p.state == HeaderValue
    ensures Switch(p, ch, skipped) == OnValue(p, ch)
  {
    hide OnValue;
  }

  /** The digits of a content-length value that the parser is in the middle of. */
  lemma {:induction false} ContentLengthDigits(skip: Parser -> bool, p: Parser, s: string)
    requires p.state == HeaderValue && p.header == ContentLength && p.errno == OK && p.length < ULLONG_MAX
    requires p.nread + |s| <= MAX_HEADER_SIZE && (forall k :: 0 <= k < |s| ==> IsNum(s[k]))
    ensures var r, v := Feed(skip, p, s), Stored(p.length, 10, Digits(s));
      if v < 0 then r.Broken? && r.p.errno == InvalidContentLength
      else r.Fine? && r.p == p.(length := v, nread := p.nread + |s|)
    decreases |s|
  {
    if s != "" {
      var r := ByteStep(skip, p, s[0]);
      DigitByte(skip, p, s[0]);
      if r.Fine? { ContentLengthDigits(skip, r.p, s[1..]); }
    }
  }

  lemma {:induction false} DigitByte(skip: Parser -> bool, p: Parser, ch: char)
    requires p.state == HeaderValue && p.header == ContentLength && p.nread < MAX_HEADER_SIZE && IsNum(ch)
    ensures var t := Accumulate(p.length, 10, Digit(ch));
      if t < 0 then ByteStep(skip, p, ch) == Broken(p.(nread := p.nread + 1, errno := InvalidContentLength))
      else ByteStep(skip, p, ch).Fine? && ByteStep(skip, p, ch).p == p.(nread := p.nread + 1, length := t)
  {
    hide ByteStep, Switch, Events, OpenData, Accumulate;
    var q := p.(nread := p.nread + 1);
    ValueSwitch(q, ch, skip(q));
    if Accumulate(p.length, 10, Digit(ch)) < 0 {
      HeaderFails(skip, p, ch, q.(errno := InvalidContentLength));
    } else {
      HeaderByte(skip, p, ch, OnValue(q, ch));
    }
  }

  lemma {:induction false} HeaderFails(skip: Parser -> bool, p: Parser, ch: char, q: Parser)
    requires IsHeader(p.state) && p.nread < MAX_HEADER_SIZE
    requires Switch(p.(nread := p.nread + 1), ch, skip(p.(nread := p.nread + 1))) == Fail(q)
    ensures ByteStep(skip, p, ch) == Broken(q)
  {
    assert Count(p) == p.(nread := p.nread + 1);
    hide Switch, Count;
  }

  function Digits(s: string): seq<nat>
    requires forall k :: 0 <= k < |s| ==> IsNum(s[k])
  {
    if s == "" then [] else [Digit(s[0])] + Digits(s[1..])
  }

  /** A content-length value from its first digit on. */
  lemma {:induction false} HeaderLength(skip: Parser -> bool, p: Parser, s: string)
    requires p.state == HeaderValueStart && p.header == ContentLength && p.errno == OK
    requires s != "" && p.nread + |s| <= MAX_HEADER_SIZE && (forall k :: 0 <= k < |s| ==> IsNum(s[k]))
    ensures var r, v := Feed(skip, p, s), Stored(0, 10, Digits(s));
      if v < 0 then r.Broken? && r.p.errno == InvalidContentLength
      else r.Fine? && r.p == p.(state := HeaderValue, index := 0, length := v, nread := p.nread + |s|)
  {
    hide ByteStep, Feed;
    FirstDigit(skip, p, s[0]);
    var q := p.(state := HeaderValue, index := 0, length := Digit(s[0]), nread := p.nread + 1);
    ContentLengthDigits(skip, q, s[1..]);
    FeedFirst(skip, p, s);
  }

  lemma {:induction false} FeedFirst(skip: Parser -> bool, p: Parser, s: string)
    requires s != "" && ByteStep(skip, p, s[0]).Fine?
    ensures var q := ByteStep(skip, p, s[0]); Feed(skip, p, s) == Later(q.events, Feed(skip, q.p, s[1..]))
  {
    hide ByteStep;
  }

  lemma {:induction false} FirstDigit(skip: Parser -> bool, p: Parser, ch: char)
    requires p.state == HeaderValueStart && p.header == ContentLength && p.nread < MAX_HEADER_SIZE && IsNum(ch)
    ensures Accumulate(0, 10, Digit(ch)) == Digit(ch)
    ensures ByteStep(skip, p, ch).Fine?
         && ByteStep(skip, p, ch).p == p.(state := HeaderValue, index := 0, length := Digit(ch), nread := p.nread + 1)
  {
    hide ByteStep, Switch, Events, OpenData;
    var q := p.(nread := p.nread + 1);
    ValueStartSwitch(q, ch, skip(q));
    HeaderByte(skip, p, ch, OnValueStart(q, ch));
  }

  function Zeros(n: nat): (ds: seq<nat>) {
    if n == 0 then [] else [0] + Zeros(n - 1)
  }

  function Power10(n: nat): (p: nat)
    ensures p > 0
  {
    if n == 0 then 1 else 10 * Power10(n - 1)
  }

  lemma {:induction false} StoredZeros(start: U64, n: nat)
    requires start * Power10(n) < ULLONG_MAX
    ensures Stored(start, 10, Zeros(n)) == start * Power10(n)
    ensures Stored(start, 10, Zeros(n + 1)) == Accumulate(start * Power10(n), 10, 0)
    decreases n
  {
    if n == 0 {
      assert Zeros(1)[1..] == [];
    } else {
      TimesTen(start, Power10(n - 1));
      AccumulateExact(start, 10, 0);
      hide Accumulate, Power10;
      assert Zeros(n + 1)[1..] == Zeros(n) && Zeros(n)[1..] == Zeros(n - 1);
      StoredZeros(start * 10, n - 1);
    }
  }

  lemma {:induction false} TimesTen(a: nat, p: nat)
    requires p > 0
    ensures a * (10 * p) == a * 10 * p && a * 10 <= a * 10 * p
  {
  }

  lemma {:induction false} ZeroDigits(s: string)
    requires forall k :: 0 <= k < |s| ==> s[k] == '0'
    ensures (forall k :: 0 <= k < |s| ==> IsNum(s[k])) && Digits(s) == Zeros(|s|)
    decreases |s|
  {
    if s != "" { ZeroDigits(s[1..]); }
  }

  lemma {:induction false} TenPowers()
    ensures Power10(18) == 1_000_000_000_000_000_000
  {
    assert Power10(9) == 1_000_000_000;
  }

  lemma {:induction false} ThirtyQuintillion()
    ensures Stored(3, 10, Zeros(19)) == 11_553_255_926_290_448_384
  {
    hide Stored, Zeros, Power10;
    TenPowers();
    StoredZeros(3, 18);
  }

  lemma {:induction false} ThirtyDigits()
    ensures var s := "30000000000000000000";
      (forall k :: 0 <= k < |s| ==> IsNum(s[k])) && Digits(s) == [3] + Zeros(19)
  {
    var s := "30000000000000000000";
    assert forall k :: 1 <= k < 20 ==> s[k] == '0';
    ZeroDigits(s[1..]);
  }

  /** A message that declares thirty quintillion bytes is given another length. */
  lemma {:induction false} WrapExample(skip: Parser -> bool, p: Parser)
    requires p.state == HeaderValueStart && p.header == ContentLength && p.errno == OK && p.nread + 20 <= MAX_HEADER_SIZE
    ensures var r := Feed(skip, p, "30000000000000000000");
      r.Fine? && r.p.length == 11_553_255_926_290_448_384 && r.p.errno == OK
  {
    hide Feed, Zeros, Digits;
    ThirtyDigits();
    assert Stored(0, 10, [3] + Zeros(19)) == 11_553_255_926_290_448_384 by {
      assert ([3] + Zeros(19))[1..] == Zeros(19) && Accumulate(0, 10, 3) == 3;
      ThirtyQuintillion();
    }
    HeaderLength(skip, p, "30000000000000000000");
  }

  // ---------- bodies ----------

  /** A declared length frames exactly that many bytes, and one message end. */
  lemma {:induction false} IdentityBody(skip: Parser -> bool, p: Parser, s: string)
    requires p.state == BodyIdentity && 0 < p.length < ULLONG_MAX && p.length <= |s|
    ensures var first, after := Feed(skip, p, s[..p.length]), p.(length := 0);
      && first.Fine? && first.p == after.(state := NewMessage(after))
      && Same(first.events, [Data(Body, s[..p.length]), MessageComplete])
      && Feed(skip, p, s) == Shift(first.events, p.length, Feed(skip, first.p, s[p.length..]))
  {
    hide Feed;
    BodyRun(skip, p, s[..p.length]);
    FeedAppend(skip, p, s[..p.length], s[p.length..]);
    assert s[..p.length] + s[p.length..] == s;
    assert [Data(Body, s[..p.length])] + [MessageComplete] == [Data(Body, s[..p.length]), MessageComplete];
  }

  // ---------- the size of the headers ----------

  /** From the first byte of a message to the end of its headers, and from the start of a chunk
      size to the end of the trailer, 80 KiB are read and no more. */
  lemma {:induction false} HeaderLimit(skip: Parser -> bool, p: Parser, ch: char)
    requires ParsingHeader(p.state) && !TakesBody(p.state)
    ensures p.nread >= 81_920 ==> ByteStep(skip, p, ch) == Broken(p.(nread := p.nread + 1, errno := HeaderOverflow))
    ensures p.nread < 81_920 ==> ByteStep(skip, p, ch) == Turn(skip, p.(nread := p.nread + 1), ch)
  {
    hide Turn;
  }

  // ---------- from the end of the headers ----------

  /** How the body of a message is delimited (section 4.4 of RFC 2616). */
  datatype Framing = NoBody | Declared(n: nat) | InChunks | UntilEof

  function FramingOf(p: Parser, skipped: bool): Framing {
    if skipped || p.flags.skipBody then NoBody
    else if p.flags.chunked then InChunks
    else if p.length != ULLONG_MAX then (if p.length == 0 then NoBody else Declared(p.length))
    else if p.ptype == Request || p.status / 100 == 1 || p.status == 204 || p.status == 304 then NoBody
    else UntilEof
  }

  /** The headers of a message, not of a trailer, that asks for no other protocol are about to
      end. */
  ghost predicate AtHeadersEnd(p: Parser) {
    && p.state == HeadersAlmostDone && p.errno == OK && p.nread < MAX_HEADER_SIZE
    && !p.flags.trailing && !p.flags.upgrade && p.verb != CONNECT
  }

  /** A chunk is about to start. */
  ghost predicate AtChunk(p: Parser) {
    p.state == ChunkSizeStart && p.flags.chunked && p.nread == 0 && p.errno == OK
  }

  /** Past the end of a framed message. The next one is waited for if the connection persists:
      from HTTP/1.1 on unless told to close, and otherwise, to which any minor version 0 belongs,
      only when asked to keep it alive (section 8.1 of RFC 2616). */
  predicate AtMessageEnd(p: Parser) {
    var persists := if p.major >= 1 && p.minor >= 1 then !p.flags.close else p.flags.keepAlive;
    p.errno == OK && p.state == if !persists then Dead else if p.ptype == Request then StartReq else StartRes
  }

  /** A message of this type and version with these flags has ended. */
  ghost predicate Ended(p: Parser, flags: Flags, q: Parser) {
    AtMessageEnd(q) && q.flags == flags && q.ptype == p.ptype && q.major == p.major && q.minor == p.minor
  }

  /** The parser is ready for the body, or past the message that has none. */
  ghost predicate BodyStarts(f: Framing, p: Parser, events: seq<Event>) {
    match f
    case NoBody => events == [MessageComplete] && AtMessageEnd(p)
    case Declared(n) => events == [] && p.state == BodyIdentity && p.length == n && p.errno == OK
    case InChunks => events == [] && AtChunk(p) && !p.flags.trailing
    case UntilEof => events == [] && p.state == BodyIdentityEof && p.errno == OK
  }

  function Skipping(f: Flags, skipped: bool): Flags {
    if skipped then f.(skipBody := true) else f
  }

  lemma {:induction false} SkippingKeeps(f: Flags, skipped: bool)
    ensures Skipping(f, skipped).trailing == f.trailing
  {
  }

  /** The parser when the headers have been announced. */
  function Announced(p: Parser, skipped: bool): Parser {
    p.(state := HeadersDone, upgrade := false, flags := Skipping(p.flags, skipped))
  }

  lemma {:induction false} HeadersAnnounced(skip: Parser -> bool, p: Parser)
    requires AtHeadersEnd(p)
    ensures var q := Announced(Count(p), skip(Count(p)));
      ByteStep(skip, p, LF) == Before([HeadersComplete], Turn(skip, q, LF)) && FramingOf(q, false) == FramingOf(p, skip(Count(p)))
    ensures Announced(Count(p), skip(Count(p))) == p.(state := HeadersDone, upgrade := false, flags := Skipping(p.flags, skip(Count(p))), nread := p.nread + 1)
  {
    hide Count, ByteStep, Turn, Switch, FramingOf, Skipping;
    HeaderTurn(skip, p, LF);
    var q := Announced(Count(p), skip(Count(p)));
    HeadersAgain(Count(p), skip(Count(p)), q);
    FramingKept(p, skip(Count(p)), q);
    TurnAgain(skip, Count(p), LF, q, HeadersComplete);
  }

  /** The last byte of the headers decides how the body is read. */
  lemma {:induction false} HeadersEnd(skip: Parser -> bool, p: Parser)
    requires AtHeadersEnd(p)
    ensures var r := ByteStep(skip, p, LF);
      r.Fine? && r.events != [] && r.events[0] == HeadersComplete && BodyStarts(FramingOf(p, skip(Count(p))), r.p, r.events[1..])
      && r.p == p.(state := r.p.state, nread := 0, upgrade := false, flags := Skipping(p.flags, skip(Count(p))))
  {
    hide Count, ByteStep, Turn, BodyStarts, FramingOf, Skipping, Announced;
    HeadersAnnounced(skip, p);
    SkippingKeeps(p.flags, skip(Count(p)));
    var q := Announced(Count(p), skip(Count(p)));
    HeadersTurn(skip, q);
    var es := Turn(skip, q, LF).events;
    assert ([HeadersComplete] + es)[1..] == es;
  }

  /** A byte of the headers is looked at after it has been counted. */
  lemma {:induction false} HeaderTurn(skip: Parser -> bool, p: Parser, ch: char)
    requires IsHeader(p.state) && p.nread < MAX_HEADER_SIZE
    ensures Count(p) == p.(nread := p.nread + 1) && ByteStep(skip, p, ch) == Turn(skip, Count(p), ch)
  {
    hide Turn;
  }

  lemma {:induction false} TurnAgain(skip: Parser -> bool, p: Parser, ch: char, q: Parser, e: Event)
    requires !TakesBody(p.state) && Switch(p, ch, skip(p)) == Go(q, [Say(e)], true)
    ensures !TakesBody(q.state) && Turn(skip, p, ch) == Before([e], Turn(skip, q, ch))
  {
    hide Switch, Shape, OpenKind, Turns;
    SwitchOrderly(p, ch, skip(p));
    SayOne(e);
    hide Events;
  }

  lemma {:induction false} SayOne(e: Event)
    ensures Events([Say(e)]) == [e]
  {
    assert [Say(e)][1..] == [] && [e] + [] == [e];
  }

  lemma {:induction false} FramingKept(p: Parser, skipped: bool, q: Parser)
    requires q.flags == Skipping(p.flags, skipped)
    requires q.length == p.length && q.ptype == p.ptype && q.status == p.status
    ensures FramingOf(q, false) == FramingOf(p, skipped)
  {
  }

  lemma {:induction false} HeadersAgain(p: Parser, skipped: bool, q: Parser)
    requires p.state == HeadersAlmostDone && !p.flags.trailing && !p.flags.upgrade && p.verb != CONNECT
    requires q == p.(state := HeadersDone, upgrade := false, flags := Skipping(p.flags, skipped))
    ensures Switch(p, LF, skipped) == Go(q, [Say(HeadersComplete)], true)
  {
    hide OnStart, OnMethod, OnStatus, OnUrl, OnVersion, OnFieldStart, OnField, OnValueStart, OnValue, OnHeaderDone, OnChunk, ShouldKeepAlive, NewMessage;
  }

  lemma {:induction false} HeadersStep(p: Parser, skipped: bool)
    requires p.state == HeadersDone && !p.upgrade
    ensures var q := p.(nread := 0);
      OnHeadersDone(p, LF, skipped) ==
        match FramingOf(p, false)
        case NoBody => Go(q.(state := NewMessage(q)), [Say(MessageComplete)], false)
        case Declared(_) => Go(q.(state := BodyIdentity), [], false)
        case InChunks => Go(q.(state := ChunkSizeStart), [], false)
        case UntilEof => Go(q.(state := BodyIdentityEof), [], false)
  {
    hide NewMessage, ShouldKeepAlive;
  }

  lemma {:induction false} HeadersTurn(skip: Parser -> bool, p: Parser)
    requires p.state == HeadersDone && p.errno == OK && !p.flags.trailing && !p.upgrade
    ensures var r := Turn(skip, p, LF);
      r.Fine? && BodyStarts(FramingOf(p, false), r.p, r.events) && r.p == p.(state := r.p.state, nread := 0)
  {
    hide Turn, Switch, OnHeadersDone, FramingOf, NewMessage, OpenData, Events;
    HeadersStep(p, skip(p));
    var q := p.(nread := 0);
    if FramingOf(p, false).NoBody? {
      NoBodyFramed(p, q);
      MessageClosed(q);
    }
    FramingFits(p);
    HeadersSwitch(p, skip(p));
    TurnOnce(skip, p, LF);
    ClosedKinds(LF);
    SayOne(MessageComplete);
    assert [MessageComplete] + [] == [MessageComplete];
  }

  lemma {:induction false} NoBodyFramed(p: Parser, q: Parser)
    requires FramingOf(p, false).NoBody? && q == p.(nread := 0)
    ensures !MessageNeedsEof(q)
  {
  }

  lemma {:induction false} FramingFits(p: Parser)
    ensures FramingOf(p, false).Declared? ==> FramingOf(p, false).n == p.length
    ensures FramingOf(p, false).InChunks? ==> p.flags.chunked
  {
  }

  lemma {:induction false} TurnOnce(skip: Parser -> bool, p: Parser, ch: char)
    requires !TakesBody(p.state) && Switch(p, ch, skip(p)).Go? && !Switch(p, ch, skip(p)).again
    ensures var s := Switch(p, ch, skip(p)); Turn(skip, p, ch) == Fine(s.p, Events(s.acts) + OpenData(s.p.state, ch))
  {
    hide Switch, Events, OpenData;
  }

  lemma {:induction false} HeadersSwitch(p: Parser, skipped: bool)
    requires p.state == HeadersDone
    ensures Switch(p, LF, skipped) == OnHeadersDone(p, LF, skipped)
  {
    hide OnHeadersDone;
  }

  lemma {:induction false} ClosedKinds(ch: char)
    ensures forall s :: s in {Dead, StartReq, StartRes, BodyIdentity, BodyIdentityEof, ChunkSizeStart} ==> OpenData(s, ch) == []
    ensures Events([]) == []
  {
  }

  lemma {:induction false} FeedByteEvents(skip: Parser -> bool, p: Parser, ch: char, q: Parser, es: seq<Event>)
    requires ByteStep(skip, p, ch) == Fine(q, es)
    ensures Feed(skip, p, [ch]) == Fine(q, es)
  {
    hide ByteStep;
    assert [ch][1..] == "" && es + [] == es;
  }

  lemma {:induction false} MessageClosed(p: Parser)
    requires p.errno == OK && !MessageNeedsEof(p)
    ensures AtMessageEnd(p.(state := NewMessage(p)))
  {
  }

  /** A connection may end where a message may begin, at its start or after a message, once it is
      dead, and in a body that lasts until then. */
  lemma {:induction false} EofExact(p: Parser)
    ensures MayEnd(p.state) <==>
      || p.state == Init(Request).state || p.state == Init(Response).state || p.state == Init(Both).state
      || p.state == Dead || p.state == BodyIdentityEof
    ensures AtMessageEnd(p) ==> MayEnd(p.state)
  {
  }
}
