/** The push parser: what a stream of bytes means, one byte at a time, and the buffer-at-a-time
    parser with its marks, which must mean the same however the stream is cut. */
module Http {
  import opened Options
  import opened HttpState

  // ---------- events, up to how data is split ----------

  /** Append an event; data joins data of the same kind. */
  function Push(events: seq<Event>, e: Event): seq<Event> {
    if events != [] && e.Data? && events[|events| - 1].Data? && events[|events| - 1].kind == e.kind then
      events[..|events| - 1] + [Data(e.kind, events[|events| - 1].bytes + e.bytes)]
    else events + [e]
  }

  function JoinTo(acc: seq<Event>, events: seq<Event>): seq<Event>
    decreases |events|
  {
    if events == [] then acc else Push(JoinTo(acc, events[..|events| - 1]), events[|events| - 1])
  }

  /** The events with adjacent data of one kind joined. */
  function Joined(events: seq<Event>): seq<Event> {
    JoinTo([], events)
  }

  lemma {:induction false} JoinAppend(acc: seq<Event>, a: seq<Event>, b: seq<Event>)
    ensures JoinTo(acc, a + b) == JoinTo(JoinTo(acc, a), b)
    decreases |b|
  {
    if b == [] {
      assert a + b == a;
    } else {
      var init, e := b[..|b| - 1], b[|b| - 1];
      assert (a + b)[..|a + b| - 1] == a + init;
      JoinAppend(acc, a, init);
    }
  }

  lemma {:induction false} JoinOne(acc: seq<Event>, e: Event)
    ensures JoinTo(acc, [e]) == Push(acc, e)
  {
    assert [e][..0] == [];
  }

  /** Joining depends on the events only up to joining. */
  lemma {:induction false} JoinJoined(acc: seq<Event>, events: seq<Event>)
    ensures JoinTo(acc, Joined(events)) == JoinTo(acc, events)
    decreases |events|
  {
    if events != [] {
      var init, e := events[..|events| - 1], events[|events| - 1];
      JoinJoined(acc, init);
      JoinPush(acc, Joined(init), e);
    }
  }

  lemma {:induction false} JoinPush(acc: seq<Event>, n: seq<Event>, e: Event)
    ensures JoinTo(acc, Push(n, e)) == Push(JoinTo(acc, n), e)
  {
    if n != [] && e.Data? && n[|n| - 1].Data? && n[|n| - 1].kind == e.kind {
      var init, l := n[..|n| - 1], n[|n| - 1];
      var both := Data(e.kind, l.bytes + e.bytes);
      assert n == init + [l];
      JoinAppend(acc, init, [l]);
      JoinAppend(acc, init, [both]);
      JoinOne(JoinTo(acc, init), l);
      JoinOne(JoinTo(acc, init), both);
      PushTwice(JoinTo(acc, init), l, e);
    } else {
      JoinAppend(acc, n, [e]);
      JoinOne(JoinTo(acc, n), e);
    }
  }

  lemma {:induction false} PushTwice(x: seq<Event>, l: Event, e: Event)
    requires l.Data? && e.Data? && l.kind == e.kind
    ensures Push(Push(x, l), e) == Push(x, Data(e.kind, l.bytes + e.bytes))
  {
    if x != [] && x[|x| - 1].Data? && x[|x| - 1].kind == l.kind {
      assert x[|x| - 1].bytes + l.bytes + e.bytes == x[|x| - 1].bytes + (l.bytes + e.bytes);
    }
  }

  ghost predicate Same(a: seq<Event>, b: seq<Event>) {
    Joined(a) == Joined(b)
  }

  lemma {:induction false} SameRefl(a: seq<Event>)
    ensures Same(a, a)
  {
  }

  lemma {:induction false} SameVia(a: seq<Event>, b: seq<Event>, c: seq<Event>)
    requires Same(a, c) && Same(b, c)
    ensures Same(a, b)
  {
  }

  lemma {:induction false} SameAppend(a: seq<Event>, b: seq<Event>, c: seq<Event>, d: seq<Event>)
    requires Same(a, b) && Same(c, d)
    ensures Same(a + c, b + d)
  {
    JoinAppend([], a, c);
    JoinAppend([], b, d);
    JoinJoined(Joined(a), c);
    JoinJoined(Joined(a), d);
  }

  /** Exchanging what is pending for callbacks and new pending data. */
  lemma {:induction false} SameChain(l: seq<Event>, out: seq<Event>, pend': seq<Event>, pend: seq<Event>, es: seq<Event>, r: seq<Event>)
    requires Same(l + pend, r) && Same(out + pend', pend + es)
    ensures Same(l + out + pend', r + es)
  {
    SameAppend(l, l, out + pend', pend + es);
    SameAppend(l + pend, r, es, es);
    assert l + (out + pend') == l + out + pend';
    assert l + (pend + es) == l + pend + es;
  }

  // ---------- one byte ----------

  /** What feeding bytes leads to: the parser and its events; an error; or the end of the
      protocol after `used` bytes. */
  datatype Fed = Fine(p: Parser, events: seq<Event>) | Left(p: Parser, events: seq<Event>, used: nat) | Broken(p: Parser)

  function Events(acts: seq<Act>): seq<Event> {
    if acts == [] then []
    else (match acts[0]
          case Mark(_) => []
          case Flush(k) => if k == Body then [] else [Data(k, "")]
          case Say(e) => [e]) + Events(acts[1..])
  }

  /** The data a byte belongs to when the parser is in this state after it. */
  function OpenKind(s: State): Option<Kind> {
    if s == HeaderField then Some(Field) else if s == HeaderValue then Some(Value) else if InUrl(s) then Some(Url) else None
  }

  function OpenData(s: State, ch: char): seq<Event> {
    match OpenKind(s)
    case None => []
    case Some(k) => [Data(k, [ch])]
  }

  function Before(events: seq<Event>, r: Fed): Fed {
    match r
    case Fine(p, es) => Fine(p, events + es)
    case Left(p, es, n) => Left(p, events + es, n)
    case Broken(p) => r
  }

  /** How a state's marks and callbacks go with the kind of data it is inside of. */
  ghost predicate Shape(s: State, acts: seq<Act>, t: State) {
    || (acts == [] && OpenKind(s) == OpenKind(t) && s != ChunkDataAlmostDone)
    || (OpenKind(s) == None && OpenKind(t).Some? && acts == [Mark(OpenKind(t).value)] && s != ChunkDataAlmostDone)
    || (OpenKind(s).Some? && OpenKind(t) == None && acts == [Flush(OpenKind(s).value)])
    || (OpenKind(s) == None && OpenKind(t) == None && acts == [Mark(Value), Flush(Value)] && s != ChunkDataAlmostDone)
    || (OpenKind(s) == None && OpenKind(t) == None && |acts| == 1 && acts[0].Say? && !acts[0].event.Data? && s != ChunkDataAlmostDone)
    || (s == ChunkDataAlmostDone && OpenKind(t) == None && acts == [Flush(Body)])
  }

  /** A step that goes on keeps that discipline, does not come to a body state in the middle
      of a byte, and looks at the byte again only finitely often. Only a failing step sets an
      error. */
  ghost predicate Orderly(p: Parser, r: Step) {
    match r
    case Fail(q) => q.errno != OK
    case Leave(q, acts) =>
      q.errno == p.errno && OpenKind(p.state) == None && p.state != ChunkDataAlmostDone && acts == [Say(MessageComplete)]
    case Go(q, acts, again) =>
      && q.errno == p.errno && Shape(p.state, acts, q.state) && q.state != ChunkDataAlmostDone
      && (again ==> !TakesBody(q.state) && Turns(q.state) < Turns(p.state))
  }

  predicate IsStart(s: State) {
    s.Dead? || s.StartReqOrRes? || s.ResOrRespH? || s.StartRes? || s.StartReq?
  }

  predicate IsStatus(s: State) {
    s.ResFirstStatus? || s.ResStatusCode? || s.ResStatus? || s.ResLineAlmostDone? || s.ReqLineAlmostDone?
  }

  predicate IsVersion(s: State) {
    || s.ReqHttpStart? || s.ReqH? || s.ReqHT? || s.ReqHTT? || s.ReqHTTP? || s.ReqFirstMajor? || s.ReqMajor? || s.ReqFirstMinor? || s.ReqMinor?
    || s.ResH? || s.ResHT? || s.ResHTT? || s.ResHTTP? || s.ResFirstMajor? || s.ResMajor? || s.ResFirstMinor? || s.ResMinor?
  }

  predicate IsChunk(s: State) {
    s.ChunkSizeStart? || s.ChunkSize? || s.ChunkParameters? || s.ChunkSizeAlmostDone? || s.ChunkDataAlmostDone? || s.ChunkDataDone?
  }

  predicate IsHeader(s: State) {
    s.HeaderFieldStart? || s.HeaderField? || s.HeaderValueStart? || s.HeaderValue? || s.HeaderAlmostDone? || s.HeaderValueLws?
    || s.HeadersAlmostDone? || s.HeadersDone?
  }

  /** The states outside of any data, for which no mark is set. */
  predicate Outside(s: State) {
    !s.HeaderField? && !s.HeaderValue? && !InUrl(s) && !s.ChunkDataAlmostDone?
  }

  lemma {:induction false} OutsideClosed(s: State)
    requires Outside(s)
    ensures OpenKind(s) == None && s != ChunkDataAlmostDone
  {
  }

  /** A step between such states that sets no mark and is not repeated. */
  lemma {:induction false} OrderlyPlain(p: Parser, r: Step)
    requires r.Go? && r.p.errno == p.errno && Outside(p.state) && Outside(r.p.state)
    requires r.acts == [] || (|r.acts| == 1 && r.acts[0].Say? && !r.acts[0].event.Data?)
    requires r.again ==> !TakesBody(r.p.state) && Turns(r.p.state) < Turns(p.state)
    ensures Orderly(p, r)
  {
    hide OpenKind, Turns, Outside;
    OutsideClosed(p.state);
    OutsideClosed(r.p.state);
  }

  lemma {:induction false} OrderlyStart(p: Parser, ch: char)
    requires IsStart(p.state)
    ensures Orderly(p, OnStart(p, ch))
  {
    hide Shape, OpenKind, FirstVerb;
    var r := OnStart(p, ch);
    if r.Go? { OrderlyPlain(p, r); }
  }

  lemma {:induction false} OrderlyMethod(p: Parser, ch: char)
    requires p.state == ReqMethod
    ensures Orderly(p, OnMethod(p, ch))
  {
    hide Shape, OpenKind, Spelling;
    var r := OnMethod(p, ch);
    if r.Go? { OrderlyPlain(p, r); }
  }

  lemma {:induction false} OrderlyStatus(p: Parser, ch: char)
    requires IsStatus(p.state)
    ensures Orderly(p, OnStatus(p, ch))
  {
    hide Shape, OpenKind, Decimal, Digit;
    var r := OnStatus(p, ch);
    if r.Go? { OrderlyPlain(p, r); }
  }

  lemma {:induction false} OrderlyUrlStart(p: Parser, ch: char)
    requires p.state == ReqSpacesBeforeUrl
    ensures Orderly(p, OnUrl(p, ch))
  {
    hide ParseUrlChar, Turns, OpenKind, Outside;
    UrlStays(ReqSpacesBeforeUrl, ch);
    UrlStays(ReqServerStart, ch);
    OutsideClosed(ReqSpacesBeforeUrl) by { SpacesOutside(); }
  }

  lemma {:induction false} SpacesOutside()
    ensures Outside(ReqSpacesBeforeUrl)
  {
  }

  lemma {:induction false} OrderlyUrl(p: Parser, ch: char)
    requires InUrl(p.state)
    ensures Orderly(p, OnUrl(p, ch))
  {
    hide Shape, OpenKind, ParseUrlChar, InUrl, Outside;
    UrlStays(p.state, ch);
    InUrlOpen(p.state);
    LineOutside(ReqHttpStart);
    LineOutside(ReqLineAlmostDone);
    LineOutside(HeaderFieldStart);
    var r := OnUrl(p, ch);
    if r.Go? {
      if r.acts == [] { OrderlyUrlOn(p, r); } else { OrderlyUrlEnd(p, r); }
    }
  }

  lemma {:induction false} InUrlOpen(s: State)
    requires InUrl(s)
    ensures OpenKind(s) == Some(Url) && s != ChunkDataAlmostDone && s != ReqSpacesBeforeUrl
  {
  }

  lemma {:induction false} OrderlyUrlOn(p: Parser, r: Step)
    requires r.Go? && r.p.errno == p.errno && r.acts == [] && !r.again && OpenKind(p.state) == Some(Url) == OpenKind(r.p.state)
    requires p.state != ChunkDataAlmostDone && r.p.state != ChunkDataAlmostDone
    ensures Orderly(p, r)
  {
    hide OpenKind;
  }

  lemma {:induction false} OrderlyUrlEnd(p: Parser, r: Step)
    requires r.Go? && r.p.errno == p.errno && r.acts == [Flush(Url)] && !r.again && OpenKind(p.state) == Some(Url) && Outside(r.p.state)
    ensures Orderly(p, r)
  {
    hide OpenKind, Outside;
    OutsideClosed(r.p.state);
  }

  lemma {:induction false} UrlStays(s: State, ch: char)
    ensures var t := ParseUrlChar(s, ch); t == Dead || (OpenKind(t) == Some(Url) && t != ChunkDataAlmostDone)
  {
  }

  lemma {:induction false} OrderlyVersion(p: Parser, ch: char)
    requires IsVersion(p.state)
    ensures Orderly(p, OnVersion(p, ch))
  {
    hide Shape, OpenKind, Outside, Decimal, Digit;
    LineOutside(p.state);
    var r := OnVersion(p, ch);
    if r.Go? {
      LineOutside(r.p.state);
      OrderlyPlain(p, r);
    }
  }

  lemma {:induction false} LineOutside(s: State)
    requires IsVersion(s) || IsStatus(s) || s == HeaderFieldStart
    ensures Outside(s)
  {
  }

  lemma {:induction false} OrderlyFieldStart(p: Parser, ch: char)
    requires p.state == HeaderFieldStart
    ensures Orderly(p, OnFieldStart(p, ch))
  {
    hide Token;
  }

  /** A step inside of a header's name or value. */
  lemma {:induction false} OrderlyInside(p: Parser, r: Step, k: Kind)
    requires r.Go? && r.p.errno == p.errno && ((p.state == HeaderField && k == Field) || (p.state == HeaderValue && k == Value))
    requires
      || (r.acts == [] && r.p.state == p.state && !r.again)
      || (r.acts == [Flush(k)] && (r.p.state == HeaderValueStart || r.p.state == HeaderFieldStart) && !r.again)
      || (r.acts == [Flush(k)] && r.p.state == HeaderAlmostDone && (r.again ==> k == Value))
    ensures Orderly(p, r)
  {
  }

  lemma {:induction false} OrderlyField(p: Parser, ch: char)
    requires p.state == HeaderField
    ensures Orderly(p, OnField(p, ch))
  {
    hide Shape, OpenKind, FieldChar, FieldHeader, Token;
    FieldCharState(p, ch, Token(ch));
    var r := OnField(p, ch);
    if r.Go? { OrderlyInside(p, r, Field); }
  }

  lemma {:induction false} FieldCharState(p: Parser, ch: char, c: char)
    ensures var q := FieldChar(p, ch, c); q == p.(header := q.header, index := q.index)
  {
    hide Match;
  }

  lemma {:induction false} OrderlyValueStart(p: Parser, ch: char)
    requires p.state == HeaderValueStart
    ensures Orderly(p, OnValueStart(p, ch))
  {
    hide Lower;
  }

  lemma {:induction false} OrderlyValue(p: Parser, ch: char)
    requires p.state == HeaderValue
    ensures Orderly(p, OnValue(p, ch))
  {
    hide Shape, OpenKind, Accumulate, Lower, Match, IsNum;
    var r := OnValue(p, ch);
    if r.Go? { OrderlyInside(p, r, Value); }
  }

  lemma {:induction false} OrderlyHeaders(p: Parser, ch: char, skip: bool)
    requires p.state == HeadersAlmostDone || p.state == HeadersDone
    ensures Orderly(p, OnHeadersDone(p, ch, skip))
  {
    hide Shape, OpenKind, MessageNeedsEof, NewMessage;
    OutsideClosed(p.state);
    MessageOutside(p);
    MessageOutside(p.(nread := 0));
    var r := OnHeadersDone(p, ch, skip);
    if r.Go? { OrderlyPlain(p, r); }
  }

  lemma {:induction false} MessageOutside(p: Parser)
    ensures Outside(NewMessage(p))
  {
  }

  lemma {:induction false} OrderlyDone(p: Parser, ch: char, skip: bool)
    requires p.state == MessageDone
    ensures Orderly(p, Switch(p, ch, skip))
  {
    hide ShouldKeepAlive, OnStart, OnMethod, OnStatus, OnUrl, OnVersion, OnFieldStart, OnField, OnValueStart, OnValue, OnHeaderDone, OnHeadersDone, OnChunk;
    hide Shape, OpenKind;
    OrderlyPlain(p, Switch(p, ch, skip));
  }

  lemma {:induction false} OrderlyOther(p: Parser, ch: char, skip: bool)
    requires p.state == HeaderAlmostDone || p.state == HeaderValueLws
    ensures Orderly(p, Switch(p, ch, skip))
  {
    hide NewMessage, OnStart, OnMethod, OnStatus, OnUrl, OnVersion, OnFieldStart, OnField, OnValueStart, OnValue, OnHeadersDone, OnChunk;
    hide Shape, OpenKind;
    var r := Switch(p, ch, skip);
    if r.Go? { OrderlyPlain(p, r); }
  }

  lemma {:induction false} OrderlyChunk(p: Parser, ch: char)
    requires IsChunk(p.state)
    ensures Orderly(p, OnChunk(p, ch))
  {
    hide Shape, OpenKind, Accumulate, Unhex;
    var r := OnChunk(p, ch);
    if p.state == ChunkDataAlmostDone {
      assert r.Go? ==> r.acts == [Flush(Body)] && r.p == p.(state := ChunkDataDone);
      if r.Go? { OrderlyDataEnd(p, r); }
    } else if r.Go? {
      OrderlyPlain(p, r);
    }
  }

  lemma {:induction false} OrderlyDataEnd(p: Parser, r: Step)
    requires p.state == ChunkDataAlmostDone && r == Go(p.(state := ChunkDataDone), [Flush(Body)], false)
    ensures Orderly(p, r)
  {
  }

  lemma {:induction false} SwitchOrderly(p: Parser, ch: char, skip: bool)
    requires !TakesBody(p.state)
    ensures Orderly(p, Switch(p, ch, skip))
  {
    hide Orderly, OnStart, OnMethod, OnStatus, OnUrl, OnVersion, OnFieldStart, OnField, OnValueStart, OnValue, OnHeaderDone, OnHeadersDone, OnChunk;
    if IsStart(p.state) {
      OrderlyStart(p, ch);
    } else if IsStatus(p.state) {
      OrderlyStatus(p, ch);
    } else if IsChunk(p.state) {
      OrderlyChunk(p, ch);
    } else if IsHeader(p.state) {
      match p.state {
        case HeaderFieldStart => OrderlyFieldStart(p, ch);
        case HeaderField => OrderlyField(p, ch);
        case HeaderValueStart => OrderlyValueStart(p, ch);
        case HeaderValue => OrderlyValue(p, ch);
        case HeadersAlmostDone => OrderlyHeaders(p, ch, skip);
        case HeadersDone => OrderlyHeaders(p, ch, skip);
        case _ => OrderlyOther(p, ch, skip);
      }
    } else if p.state == ReqMethod {
      OrderlyMethod(p, ch);
    } else if p.state == ReqSpacesBeforeUrl || InUrl(p.state) {
      if p.state == ReqSpacesBeforeUrl { OrderlyUrlStart(p, ch); } else { OrderlyUrl(p, ch); }
    } else if p.state == MessageDone {
      OrderlyDone(p, ch, skip);
    } else {
      OrderlyVersion(p, ch);
    }
  }

  function Turn(skip: Parser -> bool, p: Parser, ch: char): Fed
    requires !TakesBody(p.state)
    decreases Turns(p.state)
  {
    SwitchOrderly(p, ch, skip(p));
    match Switch(p, ch, skip(p))
    case Fail(q) => Broken(q)
    case Leave(q, acts) => Left(q, Events(acts), 1)
    case Go(q, acts, again) =>
      if again then Before(Events(acts), Turn(skip, q, ch))
      else Fine(q, Events(acts) + OpenData(q.state, ch))
  }

  function BodyByte(p: Parser, ch: char): Fed
    requires TakesBody(p.state)
  {
    if p.state == BodyIdentityEof then Fine(p, [Data(Body, [ch])])
    else if (p.state == ChunkData && !p.flags.chunked) || p.length == 0 || p.length == ULLONG_MAX then
      Broken(p.(errno := AssertionFailed))
    else
      var q := p.(length := p.length - 1);
      if q.length > 0 then Fine(q, [Data(Body, [ch])])
      else if p.state == ChunkData then Fine(q.(state := ChunkDataAlmostDone), [Data(Body, [ch])])
      else Fine(q.(state := NewMessage(q)), [Data(Body, [ch]), MessageComplete])
  }

  function Count(p: Parser): Parser {
    if ParsingHeader(p.state) then p.(nread := p.nread + 1) else p
  }

  function ByteStep(skip: Parser -> bool, p: Parser, ch: char): Fed {
    if TakesBody(p.state) then BodyByte(p, ch)
    else if Count(p).nread > MAX_HEADER_SIZE && ParsingHeader(p.state) then Broken(Count(p).(errno := HeaderOverflow))
    else Turn(skip, Count(p), ch)
  }

  /** Feeding bytes one at a time. */
  function Feed(skip: Parser -> bool, p: Parser, s: string): Fed
    decreases |s|
  {
    if s == "" then Fine(p, []) else
    match ByteStep(skip, p, s[0])
    case Fine(q, es) => Later(es, Feed(skip, q, s[1..]))
    case other => other
  }

  /** The rest of a stream after a byte that went well. */
  function Later(events: seq<Event>, r: Fed): Fed {
    match r
    case Fine(p, es) => Fine(p, events + es)
    case Left(p, es, n) => Left(p, events + es, n + 1)
    case Broken(p) => r
  }

  function Shift(events: seq<Event>, n: nat, r: Fed): Fed {
    match r
    case Fine(p, es) => Fine(p, events + es)
    case Left(p, es, k) => Left(p, events + es, n + k)
    case Broken(p) => r
  }

  /** Feeding a concatenation is feeding one part and then the other. */
  lemma {:induction false} FeedAppend(skip: Parser -> bool, p: Parser, a: string, b: string)
    ensures Feed(skip, p, a + b) ==
      match Feed(skip, p, a)
      case Fine(q, es) => Shift(es, |a|, Feed(skip, q, b))
      case other => other
    decreases |a|
  {
    hide ByteStep;
    if a == "" {
      assert a + b == b;
      assert forall es: seq<Event> :: [] + es == es;
    } else {
      assert (a + b)[1..] == a[1..] + b;
      var r := ByteStep(skip, p, a[0]);
      if r.Fine? {
        FeedAppend(skip, r.p, a[1..], b);
        var m := Feed(skip, r.p, a[1..]);
        if m.Fine? {
          var n := Feed(skip, m.p, b);
          assert n.Fine? || n.Left? ==> r.events + (m.events + n.events) == r.events + m.events + n.events;
        }
      }
    }
  }

  // ---------- marks ----------

  /** The marks at the start of byte `i` of a buffer: the kind of data the state is inside of
      has one, and there is no other, except for a body whose end has just been reached. */
  ghost predicate MarksOk(marks: map<Kind, nat>, s: State, i: nat) {
    && (forall k :: k in marks ==> marks[k] <= i)
    && (forall k :: k in marks && k != Body ==> OpenKind(s) == Some(k))
    && (OpenKind(s).Some? ==> OpenKind(s).value in marks)
    && (Body in marks ==> s == ChunkDataAlmostDone && marks[Body] < i)
  }

  /** The data behind the marks that no callback has seen yet. */
  ghost function Pending(marks: map<Kind, nat>, data: string, i: nat): seq<Event>
    requires i <= |data|
  {
    PendingOf(marks, Field, data, i) + PendingOf(marks, Value, data, i) + PendingOf(marks, Url, data, i) + PendingOf(marks, Body, data, i)
  }

  ghost function PendingOf(marks: map<Kind, nat>, k: Kind, data: string, i: nat): seq<Event>
    requires i <= |data|
  {
    if k in marks && marks[k] < i then [Data(k, data[marks[k]..i])] else []
  }

  /** With the mark of a single kind, what is pending is the data behind it. */
  lemma {:induction false} PendingSingle(marks: map<Kind, nat>, k: Kind, data: string, i: nat)
    requires i <= |data| && (forall j :: j in marks ==> j == k)
    ensures Pending(marks, data, i) == PendingOf(marks, k, data, i)
  {
  }

  /** Run a state's marks and callbacks at byte `i`. */
  method Perform(acts: seq<Act>, marks: map<Kind, nat>, data: string, i: nat) returns (left: map<Kind, nat>, log: seq<Event>)
    requires i <= |data| && forall k :: k in marks ==> marks[k] <= i
    ensures (left, log) == Performed(acts, marks, data, i)
  {
    left, log := marks, [];
    ghost var whole := Performed(acts, marks, data, i);
    var n := 0;
    assert acts[0..] == acts && [] + whole.1 == whole.1;
    while n < |acts|
      invariant n <= |acts| && (forall k :: k in left ==> left[k] <= i)
      invariant var rest := Performed(acts[n..], left, data, i); rest.0 == whole.0 && log + rest.1 == whole.1
    {
      assert acts[n..][1..] == acts[n + 1..];
      match acts[n] {
        case Mark(k) =>
          if k !in left { left := left[k := i]; }
        case Flush(k) =>
          if k in left {
            var e := Data(k, data[left[k]..i]);
            left := left - {k};
            ghost var rest := Performed(acts[n + 1..], left, data, i).1;
            assert log + ([e] + rest) == log + [e] + rest;
            log := log + [e];
          }
        case Say(e) =>
          ghost var rest := Performed(acts[n + 1..], left, data, i).1;
          assert log + ([e] + rest) == log + [e] + rest;
          log := log + [e];
      }
      n := n + 1;
    }
    assert acts[n..] == [] && log + [] == log;
  }

  ghost function Performed(acts: seq<Act>, marks: map<Kind, nat>, data: string, i: nat): (map<Kind, nat>, seq<Event>)
    requires i <= |data| && forall k :: k in marks ==> marks[k] <= i
  {
    if acts == [] then (marks, []) else
    match acts[0]
    case Mark(k) => Performed(acts[1..], if k in marks then marks else marks[k := i], data, i)
    case Flush(k) =>
      if k !in marks then Performed(acts[1..], marks, data, i)
      else
        var r := Performed(acts[1..], marks - {k}, data, i);
        (r.0, [Data(k, data[marks[k]..i])] + r.1)
    case Say(e) =>
      var r := Performed(acts[1..], marks, data, i);
      (r.0, [e] + r.1)
  }

  lemma {:induction false} PerformedOne(a: Act, marks: map<Kind, nat>, data: string, i: nat)
    requires i <= |data| && forall k :: k in marks ==> marks[k] <= i
    ensures Performed([a], marks, data, i) ==
      match a
      case Mark(k) => (if k in marks then marks else marks[k := i], [])
      case Flush(k) => if k in marks then (marks - {k}, [Data(k, data[marks[k]..i])]) else (marks, [])
      case Say(e) => (marks, [e])
    ensures Events([a]) == match a case Mark(_) => [] case Flush(k) => if k == Body then [] else [Data(k, "")] case Say(e) => [e]
  {
    assert [a][1..] == [];
    match a
    case Mark(_) =>
    case Flush(k) => if k in marks { assert [Data(k, data[marks[k]..i])] + [] == [Data(k, data[marks[k]..i])]; }
    case Say(e) => assert [e] + [] == [e];
  }

  lemma {:induction false} JoinData(k: Kind, a: string, b: string)
    ensures Same([Data(k, a), Data(k, b)], [Data(k, a + b)])
  {
    var two := [Data(k, a), Data(k, b)];
    assert two[..1] == [Data(k, a)];
    JoinOne([], Data(k, a));
    JoinOne([], Data(k, a + b));
  }

  /** Flushing a mark passes on what was pending. */
  lemma {:induction false} FlushPending(k: Kind, marks: map<Kind, nat>, data: string, i: nat)
    requires i <= |data| && k in marks && marks[k] <= i && (forall j :: j in marks ==> j == k)
    ensures k != Body ==> Same([Data(k, data[marks[k]..i])], Pending(marks, data, i) + [Data(k, "")])
    ensures marks[k] < i ==> Same([Data(k, data[marks[k]..i])], Pending(marks, data, i))
    ensures Pending(marks - {k}, data, i) == []
  {
    PendingSingle(marks, k, data, i);
    PendingSingle(marks - {k}, k, data, i);
    var held := data[marks[k]..i];
    assert held + "" == held;
    if marks[k] < i {
      JoinData(k, held, "");
      assert [Data(k, held)] + [Data(k, "")] == [Data(k, held), Data(k, "")];
    } else {
      assert held == "" && [] + [Data(k, "")] == [Data(k, "")];
    }
  }

  /** A step that goes on leaves the marks in order, and its callbacks pass on what its
      events and the pending data say. */
  lemma {:induction false} StepMarks(s: State, acts: seq<Act>, t: State, marks: map<Kind, nat>, data: string, i: nat)
    requires Shape(s, acts, t) && t != ChunkDataAlmostDone && MarksOk(marks, s, i) && i <= |data|
    ensures var (left, log) := Performed(acts, marks, data, i);
      MarksOk(left, t, i) && Same(log + Pending(left, data, i), Pending(marks, data, i) + Events(acts))
  {
    if acts == [] {
      assert [] + Pending(marks, data, i) == Pending(marks, data, i) + [];
    } else if |acts| == 2 {
      assert marks == map[];
      var only := map[Value := i];
      assert acts[1..] == [Flush(Value)] && map[][Value := i] == only;
      PerformedOne(Flush(Value), only, data, i);
      assert only - {Value} == map[];
      assert data[i..i] == "";
    } else {
      assert acts == [acts[0]];
      hide Performed, Pending, Same, Events;
      StepMarksOne(s, acts[0], t, marks, data, i);
    }
  }

  lemma {:induction false} StepMarksOne(s: State, act: Act, t: State, marks: map<Kind, nat>, data: string, i: nat)
    requires Shape(s, [act], t) && t != ChunkDataAlmostDone && MarksOk(marks, s, i) && i <= |data|
    ensures var (left, log) := Performed([act], marks, data, i);
      MarksOk(left, t, i) && Same(log + Pending(left, data, i), Pending(marks, data, i) + Events([act]))
  {
    hide Performed, Pending, Same, Events, InUrl, MarksOk, OpenKind;
    MarksBound(marks, s, i);
    PerformedOne(act, marks, data, i);
    OpenKinds(s);
    match act
    case Mark(k) => MarkSet(s, k, t, marks, data, i);
    case Flush(k) => MarkFlushed(s, k, t, marks, data, i);
    case Say(e) => MarksNone(s, t, marks, data, i, e);
  }

  lemma {:induction false} OpenKinds(s: State)
    ensures OpenKind(s) != Some(Body) && (s == ChunkDataAlmostDone ==> OpenKind(s) == None)
  {
  }

  lemma {:induction false} MarkSet(s: State, k: Kind, t: State, marks: map<Kind, nat>, data: string, i: nat)
    requires OpenKind(s) == None && OpenKind(t) == Some(k) && s != ChunkDataAlmostDone && t != ChunkDataAlmostDone
    requires MarksOk(marks, s, i) && i <= |data|
    ensures k !in marks && MarksOk(marks[k := i], t, i) && Same([] + Pending(marks[k := i], data, i), Pending(marks, data, i) + [])
  {
    hide InUrl, Same;
    assert marks == map[];
    PendingSingle(marks[k := i], k, data, i);
    assert [] + Pending(marks[k := i], data, i) == Pending(marks, data, i) + [];
    SameRefl([]);
  }

  lemma {:induction false} MarkFlushed(s: State, k: Kind, t: State, marks: map<Kind, nat>, data: string, i: nat)
    requires OpenKind(t) == None && ((OpenKind(s) == Some(k) && k != Body) || (s == ChunkDataAlmostDone && k == Body))
    requires t != ChunkDataAlmostDone && MarksOk(marks, s, i) && i <= |data|
    ensures var es := if k == Body then [] else [Data(k, "")];
      if k in marks then
        MarksOk(marks - {k}, t, i) && Same([Data(k, data[marks[k]..i])] + Pending(marks - {k}, data, i), Pending(marks, data, i) + es)
      else MarksOk(marks, t, i) && Same([] + Pending(marks, data, i), Pending(marks, data, i) + es)
  {
    hide OpenKind, Same, Pending;
    OpenKinds(s);
    if k in marks {
      FlushPending(k, marks, data, i);
      assert [Data(k, data[marks[k]..i])] + [] == [Data(k, data[marks[k]..i])] && Pending(marks, data, i) + [] == Pending(marks, data, i);
    } else {
      assert marks == map[];
      PendingSingle(marks, k, data, i);
      assert k == Body && [] + Pending(marks, data, i) == Pending(marks, data, i) + [];
      SameRefl(Pending(marks, data, i) + []);
    }
  }

  lemma {:induction false} MarksNone(s: State, t: State, marks: map<Kind, nat>, data: string, i: nat, e: Event)
    requires OpenKind(s) == None && OpenKind(t) == None && s != ChunkDataAlmostDone && t != ChunkDataAlmostDone
    requires MarksOk(marks, s, i) && i <= |data|
    ensures MarksOk(marks, t, i) && Same([e] + Pending(marks, data, i), Pending(marks, data, i) + [e])
  {
    hide InUrl, Same;
    assert marks == map[];
    assert [e] + Pending(marks, data, i) == Pending(marks, data, i) + [e];
    SameRefl([e] + Pending(marks, data, i));
  }

  lemma {:induction false} GrowPending(k: Kind, marks: map<Kind, nat>, data: string, i: nat)
    requires i < |data| && k in marks && marks[k] <= i && (forall j :: j in marks ==> j == k)
    ensures Same(Pending(marks, data, i) + [Data(k, [data[i]])], Pending(marks, data, i + 1))
  {
    PendingSingle(marks, k, data, i);
    PendingSingle(marks, k, data, i + 1);
    var m := marks[k];
    assert data[m..i + 1] == data[m..i] + [data[i]];
    if m < i {
      JoinData(k, data[m..i], [data[i]]);
      assert [Data(k, data[m..i])] + [Data(k, [data[i]])] == [Data(k, data[m..i]), Data(k, [data[i]])];
    } else {
      assert data[m..i + 1] == [data[i]] && [] + [Data(k, [data[i]])] == [Data(k, [data[i]])];
    }
  }

  /** Moving past a byte adds it to the data the state is inside of. */
  lemma {:induction false} NextByte(t: State, marks: map<Kind, nat>, data: string, i: nat)
    requires MarksOk(marks, t, i) && t != ChunkDataAlmostDone && i < |data|
    ensures MarksOk(marks, t, i + 1) && Same([] + Pending(marks, data, i + 1), Pending(marks, data, i) + OpenData(t, data[i]))
  {
    hide InUrl;
    match OpenKind(t)
    case None =>
      assert marks == map[];
      assert Pending(marks, data, i) == [] && Pending(marks, data, i + 1) == [];
      assert Pending(marks, data, i) + OpenData(t, data[i]) == [] + Pending(marks, data, i + 1);
    case Some(k) =>
      GrowPending(k, marks, data, i);
      assert [] + Pending(marks, data, i + 1) == Pending(marks, data, i + 1);
  }

  lemma {:induction false} MarksBound(marks: map<Kind, nat>, s: State, i: nat)
    requires MarksOk(marks, s, i)
    ensures forall k :: k in marks ==> marks[k] <= i
  {
  }

  /** The last message ends where nothing is pending. */
  lemma {:induction false} LeaveMarks(s: State, marks: map<Kind, nat>, data: string, i: nat, l: seq<Event>, r: seq<Event>)
    requires MarksOk(marks, s, i) && OpenKind(s) == None && s != ChunkDataAlmostDone && i <= |data|
    requires Same(l + Pending(marks, data, i), r)
    ensures forall k :: k in marks ==> marks[k] <= i
    ensures var acts := [Say(MessageComplete)];
      Same(l + Performed(acts, marks, data, i).1, r + Events(acts))
  {
    PerformedOne(Say(MessageComplete), marks, data, i);
    assert marks == map[];
    assert l + Pending(marks, data, i) == l;
    SameAppend(l, r, [MessageComplete], [MessageComplete]);
  }

  /** A step that goes on, on top of the callbacks `l` that stand for `start` and `past`. */
  lemma {:induction false} StepTaken(s: State, acts: seq<Act>, t: State, marks: map<Kind, nat>, data: string, i: nat,
                                     l: seq<Event>, start: seq<Event>, past: seq<Event>)
    requires Shape(s, acts, t) && t != ChunkDataAlmostDone && MarksOk(marks, s, i) && i < |data|
    requires Same(l + Pending(marks, data, i), start + past)
    ensures forall k :: k in marks ==> marks[k] <= i
    ensures var (left, out) := Performed(acts, marks, data, i);
      && MarksOk(left, t, i) && Same(l + out + Pending(left, data, i), start + (past + Events(acts)))
      && MarksOk(left, t, i + 1) && Same(l + out + Pending(left, data, i + 1), start + (past + Events(acts) + OpenData(t, data[i])))
  {
    hide Shape, Same, Pending, Performed, OpenKind, OpenData, Events;
    MarksBound(marks, s, i);
    StepMarks(s, acts, t, marks, data, i);
    var (left, out) := Performed(acts, marks, data, i);
    var r, es, open := start + past, Events(acts), OpenData(t, data[i]);
    SameChain(l, out, Pending(left, data, i), Pending(marks, data, i), es, r);
    NextByte(t, left, data, i);
    SameChain(l + out, [], Pending(left, data, i + 1), Pending(left, data, i), open, r + es);
    assert r + es == start + (past + es) && l + out + [] == l + out;
    assert r + es + open == start + (past + es + open);
  }

  /** A byte's turns with the callbacks run so far: what is left to happen completes the
      byte's meaning. */
  ghost predicate Mid(skip: Parser -> bool, first: Parser, ch: char, q: Parser, past: seq<Event>) {
    !TakesBody(first.state) && !TakesBody(q.state) && Turn(skip, first, ch) == Before(past, Turn(skip, q, ch))
  }

  lemma {:induction false} BeforeBefore(a: seq<Event>, b: seq<Event>, r: Fed)
    ensures Before(a, Before(b, r)) == Before(a + b, r)
  {
    match r
    case Fine(_, es) => assert a + (b + es) == a + b + es;
    case Left(_, es, _) => assert a + (b + es) == a + b + es;
    case Broken(_) =>
  }

  lemma {:induction false} MidStart(skip: Parser -> bool, first: Parser, ch: char)
    requires !TakesBody(first.state)
    ensures Mid(skip, first, ch, first, [])
  {
    match Turn(skip, first, ch)
    case Fine(_, es) => assert [] + es == es;
    case Left(_, es, _) => assert [] + es == es;
    case Broken(_) =>
  }

  lemma {:induction false} MidStep(skip: Parser -> bool, first: Parser, ch: char, q: Parser, past: seq<Event>)
    requires Mid(skip, first, ch, q, past)
    ensures Orderly(q, Switch(q, ch, skip(q)))
    ensures match Switch(q, ch, skip(q))
            case Fail(r) => Turn(skip, first, ch) == Broken(r)
            case Leave(r, acts) => Turn(skip, first, ch) == Left(r, past + Events(acts), 1)
            case Go(r, acts, again) =>
              if again then Mid(skip, first, ch, r, past + Events(acts))
              else Turn(skip, first, ch) == Fine(r, past + Events(acts) + OpenData(r.state, ch))
  {
    SwitchOrderly(q, ch, skip(q));
    match Switch(q, ch, skip(q))
    case Fail(_) =>
    case Leave(_, _) =>
    case Go(r, acts, again) =>
      if again {
        BeforeBefore(past, Events(acts), Turn(skip, r, ch));
      } else {
        assert past + (Events(acts) + OpenData(r.state, ch)) == past + Events(acts) + OpenData(r.state, ch);
      }
  }

  // ---------- body bytes ----------

  /** The parser after `n` body bytes, and what they mean. */
  function AfterBody(p: Parser, n: nat): Parser
    requires TakesBody(p.state) && (p.state != BodyIdentityEof ==> n <= p.length)
  {
    if p.state == BodyIdentityEof || n == 0 then p
    else
      var q := p.(length := p.length - n);
      if q.length > 0 then q
      else if p.state == ChunkData then q.(state := ChunkDataAlmostDone)
      else q.(state := NewMessage(q))
  }

  ghost predicate BodyReady(p: Parser) {
    TakesBody(p.state) && (p.state != BodyIdentityEof ==> 0 < p.length < ULLONG_MAX) && (p.state == ChunkData ==> p.flags.chunked)
  }

  /** A run of body bytes, no longer than the length that is left, is body data, and the
      message is complete when an identity body's length is used up. */
  lemma {:induction false} BodyRun(skip: Parser -> bool, p: Parser, s: string)
    requires BodyReady(p) && s != "" && (p.state != BodyIdentityEof ==> |s| <= p.length)
    ensures var r := Feed(skip, p, s);
      && r.Fine? && r.p == AfterBody(p, |s|)
      && Same(r.events, [Data(Body, s)] + if p.state == BodyIdentity && |s| == p.length then [MessageComplete] else [])
    decreases |s|
  {
    var q := ByteStep(skip, p, s[0]);
    var done := if p.state == BodyIdentity && |s| == p.length then [MessageComplete] else [];
    if |s| == 1 {
      assert s == [s[0]] && Feed(skip, q.p, s[1..]) == Fine(q.p, []);
      assert q.events + [] == q.events && [Data(Body, s)] + done == q.events;
    } else {
      BodyRun(skip, q.p, s[1..]);
      var rest := Feed(skip, q.p, s[1..]);
      assert s == [s[0]] + s[1..];
      BodyJoin(s[0], s[1..], rest.events, done);
    }
  }

  lemma {:induction false} BodyJoin(ch: char, s: string, events: seq<Event>, done: seq<Event>)
    requires Same(events, [Data(Body, s)] + done)
    ensures Same([Data(Body, [ch])] + events, [Data(Body, [ch] + s)] + done)
  {
    SameAppend([Data(Body, [ch])], [Data(Body, [ch])], events, [Data(Body, s)] + done);
    JoinData(Body, [ch], s);
    SameAppend([Data(Body, [ch]), Data(Body, s)], [Data(Body, [ch] + s)], done, done);
    assert [Data(Body, [ch])] + ([Data(Body, s)] + done) == [Data(Body, [ch]), Data(Body, s)] + done;
  }

  /** The marks between bytes. At the end of a buffer, a body may go on. */
  ghost predicate MarksEnd(marks: map<Kind, nat>, s: State, i: nat, len: nat) {
    || MarksOk(marks, s, i)
    || (i == len && TakesBody(s) && (forall k :: k in marks ==> k == Body && marks[k] < i))
  }

  /** At most one mark is set, between bytes and at the end of a buffer. */
  lemma {:induction false} OneMark(marks: map<Kind, nat>, s: State, i: nat, len: nat)
    requires MarksEnd(marks, s, i, len)
    ensures |marks| <= 1
  {
    if k :| k in marks {
      assert forall j :: j in marks ==> j == k;
      assert marks.Keys == {k};
      assert |marks| == |marks.Keys|;
    }
  }

  lemma {:induction false} FirstMarks(s: State, marks: map<Kind, nat>, data: string)
    requires marks == match OpenKind(s) case Some(k) => map[k := 0] case None => map[]
    ensures MarksEnd(marks, s, 0, |data|) && Same([] + Pending(marks, data, 0), [])
  {
    hide InUrl;
    assert Pending(marks, data, 0) == [];
  }

  lemma {:induction false} FeedNone(skip: Parser -> bool, p: Parser, data: string)
    ensures data[..0] == "" && Feed(skip, p, "") == Fine(p, [])
  {
  }

  lemma {:induction false} BodyMarks(p: Parser, data: string, i: nat, n: nat)
    requires BodyReady(p) && 0 < n && i + n <= |data| && (p.state != BodyIdentityEof ==> n <= p.length)
    requires i + n == |data| || (p.state != BodyIdentityEof && n == p.length)
    ensures var left := if p.state == BodyIdentity && n == p.length then map[] else map[Body := i];
      MarksEnd(left, AfterBody(p, n).state, i + n, |data|)
  {
    if p.state == BodyIdentity && n == p.length {
      NewMessageClosed(p.(length := 0));
    }
  }

  lemma {:induction false} NewMessageClosed(p: Parser)
    ensures OpenKind(NewMessage(p)) == None
  {
  }

  /** The body data of one run is either passed on or pending. */
  lemma {:induction false} BodyPending(data: string, i: nat, n: nat)
    requires 0 < n && i + n <= |data|
    ensures var held := [Data(Body, data[i..i + n])];
      && Same([] + Pending(map[Body := i], data, i + n), held + [])
      && Same(held + [MessageComplete] + Pending(map[], data, i + n), held + [MessageComplete])
  {
    PendingSingle(map[Body := i], Body, data, i + n);
    var held := [Data(Body, data[i..i + n])];
    assert [] + held == held + [];
    assert Pending(map[], data, i + n) == [];
    assert held + [MessageComplete] + [] == held + [MessageComplete];
  }

  /** Before a byte the marks are in order, and inside a body nothing is pending. */
  lemma {:induction false} MarksNow(marks: map<Kind, nat>, s: State, i: nat, data: string)
    requires MarksEnd(marks, s, i, |data|) && i < |data|
    ensures MarksOk(marks, s, i) && (TakesBody(s) ==> Pending(marks, data, i) == [])
  {
    assert TakesBody(s) ==> marks == map[];
  }

  /** Feeding up to the end of a run of body bytes. */
  lemma {:induction false} FeedBody(skip: Parser -> bool, p0: Parser, p: Parser, data: string, i: nat, n: nat, events: seq<Event>)
    requires i < |data| && Feed(skip, p0, data[..i]) == Fine(p, events) && TakesBody(p.state)
    requires BodyReady(p) ==> 0 < n <= |data| - i && (p.state != BodyIdentityEof ==> n <= p.length)
    ensures !BodyReady(p) ==> Feed(skip, p0, data) == Broken(p.(errno := AssertionFailed))
    ensures BodyReady(p) ==> var r := Feed(skip, p, data[i..i + n]);
      && r.Fine? && r.p == AfterBody(p, n)
      && Same(r.events, [Data(Body, data[i..i + n])] + if p.state == BodyIdentity && n == p.length then [MessageComplete] else [])
      && Feed(skip, p0, data[..i + n]) == Fine(r.p, events + r.events)
  {
    hide Feed, Same, AfterBody, BodyReady;
    if BodyReady(p) {
      var s := data[i..i + n];
      BodyRun(skip, p, s);
      FeedAppend(skip, p0, data[..i], s);
      assert data[..i] + s == data[..i + n];
    } else {
      FeedAppend(skip, p0, data[..i], data[i..]);
      assert data[..i] + data[i..] == data;
      FeedStuck(skip, p, data[i..]);
    }
  }

  lemma {:induction false} FeedStuck(skip: Parser -> bool, p: Parser, s: string)
    requires s != "" && TakesBody(p.state) && !BodyReady(p)
    ensures Feed(skip, p, s) == Broken(p.(errno := AssertionFailed))
  {
  }

  /** Feeding up to the end of a byte. */
  lemma {:induction false} FeedByte(skip: Parser -> bool, p0: Parser, p: Parser, data: string, i: nat, events: seq<Event>)
    requires i < |data| && Feed(skip, p0, data[..i]) == Fine(p, events)
    ensures match ByteStep(skip, p, data[i])
            case Fine(q, es) => Feed(skip, p0, data[..i + 1]) == Fine(q, events + es)
            case Left(q, es, n) => Feed(skip, p0, data) == Left(q, events + es, i + n)
            case Broken(q) => Feed(skip, p0, data) == Broken(q)
  {
    hide ByteStep;
    var r := ByteStep(skip, p, data[i]);
    FeedAppend(skip, p0, data[..i], data[i..]);
    assert data[..i] + data[i..] == data;
    FeedAppend(skip, p0, data[..i], [data[i]]);
    assert data[..i] + [data[i]] == data[..i + 1];
    if r.Fine? {
      assert Feed(skip, p, [data[i]]) == Later(r.events, Feed(skip, r.p, ""));
      assert r.events + [] == r.events;
    }
  }

  /** Where a connection may end: between messages, or in a body that lasts until then. */
  predicate MayEnd(s: State) {
    s.BodyIdentityEof? || s.Dead? || s.StartReqOrRes? || s.StartRes? || s.StartReq?
  }

  // ---------- the parser ----------

  class HttpParser {
    const skip: Parser -> bool
    var parser: Parser
    var log: seq<Event>

    constructor (t: PType, skip: Parser -> bool)
      ensures parser == Init(t) && log == [] && this.skip == skip
    {
      this.skip := skip;
      parser, log := Init(t), [];
    }

    /** One turn of the switch, on top of the callbacks `l` that stand for `start` and `past`. */
    method OneTurn(data: string, i: nat, marks: map<Kind, nat>, ghost first: Parser, ghost l: seq<Event>, ghost start: seq<Event>, ghost past: seq<Event>)
      returns (left: map<Kind, nat>, again: bool, go: bool, ghost more: seq<Event>)
      requires i < |data| && !TakesBody(parser.state) && MarksOk(marks, parser.state, i) && parser.errno == OK
      requires Mid(skip, first, data[i], parser, past) && Same(l + Pending(marks, data, i), start + past)
      modifies this`parser, this`log
      ensures old(log) <= log
      ensures again ==>
        && parser.errno == OK && !TakesBody(parser.state) && Turns(parser.state) < Turns(old(parser).state) && MarksOk(left, parser.state, i)
        && Mid(skip, first, data[i], parser, more) && Same(l + log[|old(log)|..] + Pending(left, data, i), start + more)
      ensures !again && go ==>
        && Turn(skip, first, data[i]) == Fine(parser, more) && parser.errno == OK
        && MarksOk(left, parser.state, i + 1) && (forall k :: k in left ==> left[k] <= i)
        && Same(l + log[|old(log)|..] + Pending(left, data, i + 1), start + more)
      ensures !again && !go ==>
        if parser.errno == OK then Turn(skip, first, data[i]) == Left(parser, more, 1) && Same(l + log[|old(log)|..], start + more)
        else Turn(skip, first, data[i]) == Broken(parser)
    {
      hide Switch, Turn, Same, Pending, Performed, Shape, InUrl, OpenKind, OpenData, Events, MarksOk, Mid;
      ghost var before, s := log, parser.state;
      left, again, go, more := marks, false, false, past;
      MarksBound(marks, s, i);
      MidStep(skip, first, data[i], parser, past);
      var out;
      match Switch(parser, data[i], skip(parser)) {
        case Fail(p) =>
          parser := p;
        case Leave(p, acts) =>
          LeaveMarks(s, left, data, i, l, start + past);
          left, out := Perform(acts, left, data, i);
          log := log + out;
          parser := p;
          assert log[|before|..] == out;
          more := past + Events(acts);
          assert start + more == start + past + Events(acts);
        case Go(p, acts, turn) =>
          StepTaken(s, acts, p.state, left, data, i, l, start, past);
          left, out := Perform(acts, left, data, i);
          log := log + out;
          parser := p;
          assert log[|before|..] == out;
          MarksBound(left, p.state, i);
          again, go, more := turn, true, past + Events(acts) + if turn then [] else OpenData(p.state, data[i]);
          assert past + Events(acts) + [] == past + Events(acts);
      }
    }

    /** Look at a byte in a state that takes bytes singly, as often as the states ask for it. */
    method OneByte(data: string, i: nat, marks: map<Kind, nat>) returns (left: map<Kind, nat>, go: bool)
      requires i < |data| && !TakesBody(parser.state) && MarksOk(marks, parser.state, i) && parser.errno == OK
      modifies this`parser, this`log
      ensures old(log) <= log
      ensures match ByteStep(skip, old(parser), data[i])
              case Fine(p, es) =>
                && go && parser == p && p.errno == OK && MarksOk(left, p.state, i + 1) && (forall k :: k in left ==> left[k] <= i)
                && Same(log[|old(log)|..] + Pending(left, data, i + 1), Pending(marks, data, i) + es)
              case Left(p, es, n) =>
                !go && parser == p && p.errno == OK && n == 1 && Same(log[|old(log)|..], Pending(marks, data, i) + es)
              case Broken(p) => !go && parser == p && p.errno != OK
    {
      hide Switch, Turn, Same, Pending, OpenKind, MarksOk, Mid;
      ghost var before, start, past := log, Pending(marks, data, i), [];
      left, go := marks, false;
      if ParsingHeader(parser.state) {
        parser := parser.(nread := parser.nread + 1);
        if parser.nread > MAX_HEADER_SIZE {
          parser := parser.(errno := HeaderOverflow);
          return;
        }
      }
      ghost var first := parser;
      MidStart(skip, first, data[i]);
      assert log[|before|..] + start == start + past;
      SameRefl(start + past);
      var again := true;
      while again
        invariant before <= log
        invariant again ==>
          && !TakesBody(parser.state) && parser.errno == OK && MarksOk(left, parser.state, i)
          && Mid(skip, first, data[i], parser, past) && Same(log[|before|..] + Pending(left, data, i), start + past)
        invariant !again && go ==>
          && Turn(skip, first, data[i]) == Fine(parser, past) && parser.errno == OK
          && MarksOk(left, parser.state, i + 1) && (forall k :: k in left ==> left[k] <= i)
          && Same(log[|before|..] + Pending(left, data, i + 1), start + past)
        invariant !again && !go ==>
          if parser.errno == OK then Turn(skip, first, data[i]) == Left(parser, past, 1) && Same(log[|before|..], start + past)
          else Turn(skip, first, data[i]) == Broken(parser)
        decreases if again then 1 else 0, Turns(parser.state)
      {
        ghost var l := log[|before|..];
        left, again, go, past := OneTurn(data, i, left, first, l, start, past);
        assert log[|before|..] == l + log[|before| + |l|..];
      }
    }

    /** After the last byte that the length of a chunk or of a body allows. */
    method LengthUsedUp(bytes: string, i: nat) returns (left: map<Kind, nat>)
      requires parser.state == ChunkData || parser.state == BodyIdentity
      modifies this`parser, this`log
      ensures parser == old(parser).(state := if old(parser).state == ChunkData then ChunkDataAlmostDone else NewMessage(old(parser)))
      ensures log == old(log) + if old(parser).state == ChunkData then [] else [Data(Body, bytes)] + [MessageComplete]
      ensures left == if old(parser).state == ChunkData then map[Body := i] else map[]
    {
      hide NewMessage;
      if parser.state == ChunkData {
        parser := parser.(state := ChunkDataAlmostDone);
        return map[Body := i];
      }
      log := log + [Data(Body, bytes)];
      parser := parser.(state := NewMessage(parser));
      log := log + [MessageComplete];
      return map[];
    }

    /** Take as much of the buffer as the body's length allows, all at once. */
    method TakeRun(data: string, i: nat) returns (left: map<Kind, nat>, n: nat)
      requires i < |data| && BodyReady(parser) && parser.errno == OK
      modifies this`parser, this`log
      ensures 0 < n <= |data| - i && (old(parser).state != BodyIdentityEof ==> n <= old(parser).length)
      ensures i + n == |data| || (old(parser).state != BodyIdentityEof && n == old(parser).length)
      ensures parser == AfterBody(old(parser), n) && parser.errno == OK
      ensures var done := old(parser).state == BodyIdentity && n == old(parser).length;
        && log == old(log) + (if done then [Data(Body, data[i..i + n])] + [MessageComplete] else [])
        && left == if done then map[] else map[Body := i]
    {
      hide NewMessage;
      left, n := map[Body := i], |data| - i;
      if parser.state != BodyIdentityEof {
        if parser.length < n { n := parser.length; }
        parser := parser.(length := parser.length - n);
        if parser.length == 0 {
          left := LengthUsedUp(data[i..i + n], i);
        }
      }
    }

    method BodyBytes(data: string, i: nat) returns (left: map<Kind, nat>, n: nat, go: bool)
      requires i < |data| && TakesBody(parser.state) && parser.errno == OK
      modifies this`parser, this`log
      ensures old(log) <= log
      ensures !BodyReady(old(parser)) ==> !go && parser == old(parser).(errno := AssertionFailed)
      ensures BodyReady(old(parser)) ==>
        && go && (forall k :: k in left ==> left[k] <= i) && 0 < n <= |data| - i && (old(parser).state != BodyIdentityEof ==> n <= old(parser).length)
        && parser == AfterBody(old(parser), n) && parser.errno == OK && MarksEnd(left, parser.state, i + n, |data|)
        && var done := if old(parser).state == BodyIdentity && n == old(parser).length then [MessageComplete] else [];
           Same(log[|old(log)|..] + Pending(left, data, i + n), [Data(Body, data[i..i + n])] + done)
    {
      hide MarksOk, MarksEnd, Same, Pending, AfterBody;
      if parser.state != BodyIdentityEof {
        if (parser.state == ChunkData && !parser.flags.chunked) || parser.length == 0 || parser.length == ULLONG_MAX {
          parser := parser.(errno := AssertionFailed);
          return map[], 0, false;
        }
      }
      ghost var before, p0 := log, parser;
      left, n := TakeRun(data, i);
      go := true;
      BodyMarks(p0, data, i, n);
      BodyPending(data, i, n);
      assert log[|before|..] == [] || log[|before|..] == [Data(Body, data[i..i + n])] + [MessageComplete];
    }

    /** The next byte, or the next run of body bytes. */
    method Take(data: string, i: nat, marks: map<Kind, nat>, ghost p0: Parser, ghost events: seq<Event>)
      returns (left: map<Kind, nat>, n: nat, go: bool, ghost more: seq<Event>)
      requires i < |data| && MarksOk(marks, parser.state, i) && parser.errno == OK
      requires Feed(skip, p0, data[..i]) == Fine(parser, events)
      modifies this`parser, this`log
      ensures old(log) <= log
      ensures go ==> 0 < n <= |data| - i && parser.errno == OK && MarksEnd(left, parser.state, i + n, |data|)
                     && (forall k :: k in left ==> left[k] <= i)
                     && Feed(skip, p0, data[..i + n]) == Fine(parser, events + more)
                     && Same(log[|old(log)|..] + Pending(left, data, i + n), Pending(marks, data, i) + more)
      ensures !go && parser.errno == OK ==>
                Feed(skip, p0, data) == Left(parser, events + more, i + 1) && Same(log[|old(log)|..], Pending(marks, data, i) + more)
      ensures !go && parser.errno != OK ==> Feed(skip, p0, data) == Broken(parser)
    {
      hide Feed, ByteStep, Same, Pending, MarksOk, BodyReady, AfterBody;
      ghost var p := parser;
      if TakesBody(parser.state) {
        MarksNow(marks, p.state, i, data);
        left, n, go := BodyBytes(data, i);
        FeedBody(skip, p0, p, data, i, n, events);
        more := if go then Feed(skip, p, data[i..i + n]).events else [];
        if go {
          SameVia(log[|old(log)|..] + Pending(left, data, i + n), more, [Data(Body, data[i..i + n])] + if p.state == BodyIdentity && n == p.length then [MessageComplete] else []);
          assert Pending(marks, data, i) + more == more;
        }
      } else {
        FeedByte(skip, p0, p, data, i, events);
        left, go := OneByte(data, i, marks);
        n := 1;
        var r := ByteStep(skip, p, data[i]);
        more := if r.Broken? then [] else r.events;
      }
    }

    /** Feed a buffer. The callbacks' log grows by what the bytes mean, up to how data is
        split, unless there is an error. Returns the number of bytes taken. */
    method Execute(data: string) returns (n: nat)
      requires parser.errno == OK && data != ""
      modifies this`parser, this`log
      ensures old(log) <= log && (parser.errno == OK <==> !Feed(skip, old(parser), data).Broken?)
      ensures match Feed(skip, old(parser), data)
              case Fine(p, events) => parser == p && n == |data| && Same(log[|old(log)|..], events)
              case Left(p, events, used) => parser == p && n == used && Same(log[|old(log)|..], events)
              case Broken(p) => parser == p
    {
      hide Feed, ByteStep, Same, Pending, MarksOk, MarksEnd, OpenKind;
      ghost var before, p0, events := log, parser, [];
      var marks: map<Kind, nat> := match OpenKind(parser.state) case Some(k) => map[k := 0] case None => map[];
      FirstMarks(parser.state, marks, data);
      FeedNone(skip, p0, data);
      assert log[|before|..] == [];
      var i := 0;
      while i < |data|
        invariant i <= |data| && before <= log && MarksEnd(marks, parser.state, i, |data|) && parser.errno == OK
        invariant forall k :: k in marks ==> marks[k] < i || i == 0
        invariant Feed(skip, p0, data[..i]) == Fine(parser, events)
        invariant Same(log[|before|..] + Pending(marks, data, i), events)
      {
        MarksNow(marks, parser.state, i, data);
        ghost var l, pend := log[|before|..], Pending(marks, data, i);
        var n, go;
        ghost var more;
        marks, n, go, more := Take(data, i, marks, p0, events);
        ghost var out := log[|before| + |l|..];
        assert log[|before|..] == l + out;
        if !go {
          if parser.errno == OK {
            assert out + [] == out && l + out + [] == l + out;
            SameChain(l, out, [], pend, more, events);
            return i + 1;
          }
          return i;
        }
        SameChain(l, out, Pending(marks, data, i + n), pend, more, events);
        events := events + more;
        i := i + n;
      }
      assert data[..i] == data;
      ghost var l := log[|before|..];
      OneMark(marks, parser.state, |data|, |data|);
      Flush(marks, data);
      assert log[|before|..] == l + Pending(marks, data, i);
      n := |data|;
    }

    /** After the last byte of a buffer, pass on what is behind the marks. */
    method Flush(marks: map<Kind, nat>, data: string)
      requires |marks| <= 1
      requires forall k :: k in marks ==> marks[k] < |data|
      modifies this`log
      ensures log == old(log) + Pending(marks, data, |data|)
    {
      FlushKind(marks, Field, data);
      FlushKind(marks, Value, data);
      FlushKind(marks, Url, data);
      FlushKind(marks, Body, data);
    }

    method FlushKind(marks: map<Kind, nat>, k: Kind, data: string)
      requires k in marks ==> marks[k] < |data|
      modifies this`log
      ensures log == old(log) + PendingOf(marks, k, data, |data|)
    {
      if k in marks {
        assert data[marks[k]..] == data[marks[k]..|data|];
        log := log + [Data(k, data[marks[k]..])];
      }
      assert old(log) + [] == old(log);
    }

    /** The end of the connection. Only a body that lasts until then is complete. */
    method AtEof() returns (n: nat)
      modifies this`parser, this`log
      ensures log == old(log) + if old(parser.errno) == OK && old(parser.state) == BodyIdentityEof then [MessageComplete] else []
      ensures n == (if old(parser.errno) == OK && !MayEnd(old(parser.state)) then 1 else 0)
      ensures parser == if n == 1 then old(parser).(errno := InvalidEofState) else old(parser)
    {
      if parser.errno != OK { return 0; }
      if parser.state == BodyIdentityEof {
        log := log + [MessageComplete];
      }
      if MayEnd(parser.state) { return 0; }
      parser := parser.(errno := InvalidEofState);
      return 1;
    }

    /** Feed a stream in non-empty pieces, one call each. A parser in error takes nothing more. */
    method ExecuteAll(buffers: seq<string>)
      requires parser.errno == OK && (forall k :: 0 <= k < |buffers| ==> buffers[k] != "")
      requires !Feed(skip, parser, Concat(buffers)).Left?
      modifies this`parser, this`log
      ensures old(log) <= log
      ensures match Feed(skip, old(parser), Concat(buffers))
              case Fine(p, events) => parser == p && Same(log[|old(log)|..], events)
              case Broken(p) => parser == p
              case Left(_, _, _) => true
    {
      hide Feed, Same;
      ghost var p0, before, events := parser, log, [];
      var k := 0;
      SameRefl([]);
      FeedNone(skip, p0, "");
      assert log[|before|..] == [];
      while k < |buffers|
        invariant k <= |buffers| && before <= log && parser.errno == OK
        invariant Feed(skip, p0, Concat(buffers[..k])) == Fine(parser, events) && Same(log[|before|..], events)
      {
        ghost var l, p := log[|before|..], parser;
        ConcatSplit(buffers, k);
        FeedAppend(skip, p0, Concat(buffers[..k]), buffers[k] + Concat(buffers[k + 1..]));
        FeedAppend(skip, p0, Concat(buffers[..k]), buffers[k]);
        FeedAppend(skip, p, buffers[k], Concat(buffers[k + 1..]));
        var n := Execute(buffers[k]);
        if parser.errno != OK { return; }
        ghost var more := Feed(skip, p, buffers[k]).events;
        SameAppend(l, events, log[|before| + |l|..], more);
        assert log[|before|..] == l + log[|before| + |l|..];
        events := events + more;
        k := k + 1;
      }
      assert buffers[..k] == buffers;
    }
  }

  function Concat(buffers: seq<string>): string {
    if buffers == [] then "" else buffers[0] + Concat(buffers[1..])
  }

  lemma {:induction false} ConcatSplit(buffers: seq<string>, k: nat)
    requires k < |buffers|
    ensures Concat(buffers[..k + 1]) == Concat(buffers[..k]) + buffers[k]
    ensures Concat(buffers) == Concat(buffers[..k]) + (buffers[k] + Concat(buffers[k + 1..]))
    decreases k
  {
    if k == 0 {
      assert buffers[..1] == [buffers[0]] && [buffers[0]][1..] == [];
      assert buffers[0] + "" == buffers[0] && "" + buffers[0] == buffers[0];
    } else {
      var rest := buffers[1..];
      ConcatSplit(rest, k - 1);
      assert buffers[..k + 1][1..] == rest[..k] && buffers[..k][1..] == rest[..k - 1] && buffers[k + 1..] == rest[k..];
      assert buffers[0] + (Concat(rest[..k - 1]) + buffers[k]) == buffers[0] + Concat(rest[..k - 1]) + buffers[k];
    }
  }

  /** Feeding piece after piece. */
  function FeedPieces(skip: Parser -> bool, p: Parser, buffers: seq<string>): Fed
    decreases |buffers|
  {
    if buffers == [] then Fine(p, []) else
    match Feed(skip, p, buffers[0])
    case Fine(q, es) => Shift(es, |buffers[0]|, FeedPieces(skip, q, buffers[1..]))
    case other => other
  }

  /** The meaning of a stream does not depend on how it is cut. */
  lemma {:induction false} CutIndependent(skip: Parser -> bool, p: Parser, buffers: seq<string>)
    ensures FeedPieces(skip, p, buffers) == Feed(skip, p, Concat(buffers))
    decreases |buffers|
  {
    hide Feed;
    if buffers == [] {
      FeedNone(skip, p, "");
    } else {
      FeedAppend(skip, p, buffers[0], Concat(buffers[1..]));
      var r := Feed(skip, p, buffers[0]);
      if r.Fine? { CutIndependent(skip, r.p, buffers[1..]); }
    }
  }
}
