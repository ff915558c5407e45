/** Start lines: what the parser reads of a request line and of a status line. */
module HttpStart {
  import opened Options
  import opened HttpState
  import opened Http
  import opened HttpBody
  import opened HttpHeaders
  import U = HttpUrl
  import G = HttpGrammar

  // ---------- decimal numbers ----------

  /** A number as it is written. */
  function Decimals(n: nat): (s: string)
    ensures s != ""
  {
    if n < 10 then ["0123456789"[n]] else Decimals(n / 10) + ["0123456789"[n % 10]]
  }

  lemma {:induction false} DigitRead(n: nat)
    requires n < 10
    ensures var ch := "0123456789"[n]; IsNum(ch) && Digit(ch) == n && ch != ' ' && ch != CR && ch != LF && ch != '\t' && ch != '.'
  {
  }

  lemma {:induction false} DecimalsPlain(n: nat)
    ensures forall k :: 0 <= k < |Decimals(n)| ==> var ch := Decimals(n)[k]; IsNum(ch) && ch != ' ' && ch != CR && ch != LF && ch != '\t' && ch != '.'
    decreases n
  {
    hide IsNum;
    DigitRead(n % 10);
    if n >= 10 { DecimalsPlain(n / 10); }
  }

  lemma {:induction false} NumberRead(n: nat)
    ensures U.Number(Decimals(n), 0) == n
    decreases n
  {
    hide IsNum, Digit;
    DigitRead(n % 10);
    var d := "0123456789"[n % 10];
    assert U.Number([d], n / 10) == n / 10 * 10 + n % 10 by { assert [d][1..] == ""; }
    if n >= 10 {
      hide U.Number;
      NumberRead(n / 10);
      DecimalsPlain(n / 10);
      U.NumberGoesOn(Decimals(n / 10), [d], 0);
    }
  }

  lemma {:induction false} PortStands(u: G.Url)
    requires u.server.Some? && u.server.value.port.Some?
    ensures var off, port, t := |G.Front(u, U.Port)|, u.server.value.port.value, G.Text(u);
      off + |port| <= |t| && t[off..off + |port|] == port
  {
    var v, front := u.server.value, G.Front(u, U.Port);
    var port, rest := v.port.value, u.path + G.QueryText(u.query) + G.FragmentText(u.fragment);
    assert G.OriginText(u) == front + port by { assert G.PortText(v.port) == ":" + port; }
    assert G.Text(u) == front + port + rest;
  }

  /** The port of a URL is read as it is written, unless it ends the buffer and a digit lies
      behind that. */
  lemma {:induction false} PortRead(u: G.Url, connect: bool, n: nat, beyond: string)
    requires G.IsUrl(u, connect) && |G.Text(u)| <= 0xFFFF && u.server.Some? && u.server.value.port == Some(Decimals(n))
    requires |G.Front(u, U.Port)| + |Decimals(n)| < |G.Text(u)| || beyond == "" || !IsNum(beyond[0])
    ensures var r := U.SplitUrl(G.Text(u), connect);
      && r.Some? && U.Port in r.value.present && r.value.spans[U.Index(U.Port)].off <= |G.Text(u)|
      && U.PortNumber(r.value, G.Text(u), beyond) == n
  {
    hide G.IsUrl, U.SplitUrl, Decimals, U.Number, G.Front, G.Text;
    G.SplitText(u, connect);
    var r := U.SplitUrl(G.Text(u), connect).value;
    assert G.Found(u, r, U.Port);
    U.PortExact(G.Text(u), connect, beyond);
    PortStands(u);
    NumberRead(n);
  }

  // ---------- bytes ----------

  /** A byte of a start line that is looked at once. */
  lemma {:induction false} StartByte(skip: Parser -> bool, p: Parser, ch: char, s: Step)
    requires ParsingHeader(p.state) && !TakesBody(p.state) && p.nread < MAX_HEADER_SIZE
    requires Switch(p.(nread := p.nread + 1), ch, skip(p.(nread := p.nread + 1))) == s && s.Go? && !s.again
    ensures ByteStep(skip, p, ch) == Fine(s.p, Events(s.acts) + OpenData(s.p.state, ch))
  {
    assert Count(p) == p.(nread := p.nread + 1);
    hide Switch, Events, OpenData, Count;
  }

  lemma {:induction false} StartFeeds(skip: Parser -> bool, p: Parser, ch: char, q: Parser, acts: seq<Act>, es: seq<Event>)
    requires ParsingHeader(p.state) && !TakesBody(p.state) && p.nread < MAX_HEADER_SIZE
    requires Switch(p.(nread := p.nread + 1), ch, skip(p.(nread := p.nread + 1))) == Go(q, acts, false) && es == Events(acts) + OpenData(q.state, ch)
    ensures Feeds(skip, p, [ch], es) && FedTo(skip, p, [ch]) == q
  {
    hide Feeds, FedTo, Switch, ByteStep;
    StartByte(skip, p, ch, Go(q, acts, false));
    FeedsByte(skip, p, ch, q, es);
  }

  lemma {:induction false} PlainEvents(s: State, ch: char)
    requires !InUrl(s) && s != HeaderField && s != HeaderValue
    ensures Events([]) + OpenData(s, ch) == []
    ensures Events([Say(MessageBegin)]) + OpenData(s, ch) == [MessageBegin] && Events([Flush(Url)]) + OpenData(s, ch) == [Data(Url, "")]
  {
    SayOne(MessageBegin);
    FlushOne(Url);
  }

  // ---------- methods ----------

  /** The names of the methods. */
  function NameOf(v: Method): string {
    match v
    case DELETE => "DELETE" case GET => "GET" case HEAD => "HEAD" case POST => "POST" case PUT => "PUT"
    case CONNECT => "CONNECT" case OPTIONS => "OPTIONS" case TRACE => "TRACE"
    case COPY => "COPY" case LOCK => "LOCK" case MKCOL => "MKCOL" case MOVE => "MOVE" case PROPFIND => "PROPFIND"
    case PROPPATCH => "PROPPATCH" case SEARCH => "SEARCH" case UNLOCK => "UNLOCK"
    case REPORT => "REPORT" case MKACTIVITY => "MKACTIVITY" case CHECKOUT => "CHECKOUT" case MERGE => "MERGE"
    case MSEARCH => "M-SEARCH" case NOTIFY => "NOTIFY" case SUBSCRIBE => "SUBSCRIBE" case UNSUBSCRIBE => "UNSUBSCRIBE"
    case PATCH => "PATCH" case PURGE => "PURGE"
  }

  /** The method the parser has in mind after `i` characters of the name of `v`. */
  function Guess(v: Method, i: nat): Method {
    match v
    case CHECKOUT => if i < 2 then CONNECT else v
    case COPY => if i < 3 then CONNECT else v
    case MOVE => if i < 2 then MKCOL else v
    case MERGE => if i < 2 then MKCOL else v
    case MSEARCH => if i < 2 then MKCOL else v
    case MKACTIVITY => if i < 3 then MKCOL else v
    case SEARCH => if i < 2 then SUBSCRIBE else v
    case PROPFIND => if i < 2 then POST else v
    case PUT => if i < 2 then POST else v
    case PATCH => if i < 2 then POST else v
    case PURGE => if i < 2 then POST else if i < 3 then PUT else v
    case PROPPATCH => if i < 2 then POST else if i < 5 then PROPFIND else v
    case UNSUBSCRIBE => if i < 3 then UNLOCK else v
    case _ => v
  }

  lemma {:induction false} Spelled(v: Method)
    ensures Spelling(v) == NameOf(v) && 3 <= |NameOf(v)| < 255
    ensures forall k :: 0 <= k < |NameOf(v)| ==> NameOf(v)[k] != ' ' && NameOf(v)[k] != '\0'
  {
  }

  lemma {:induction false} FirstGuess(v: Method)
    ensures IsAlpha(NameOf(v)[0]) && FirstVerb(NameOf(v)[0]) == Some(Guess(v, 1))
  {
  }

  /** The guess is right so far. */
  lemma {:induction false} GuessKept(v: Method, i: nat)
    requires 1 <= i < |NameOf(v)| && Guess(v, i) == Guess(v, i + 1)
    ensures i < |NameOf(Guess(v, i))| && NameOf(Guess(v, i))[i] == NameOf(v)[i]
  {
  }

  lemma {:induction false} KeptStep(p: Parser, v: Method, i: nat)
    requires 1 <= i < |NameOf(v)| && Guess(v, i) == Guess(v, i + 1) && p.verb == Guess(v, i) && p.index == i
    ensures OnMethod(p, NameOf(v)[i]) == Go(p.(index := i + 1), [], false)
  {
    hide Spelling, NameOf, Guess;
    Spelled(v);
    Spelled(Guess(v, i));
    GuessKept(v, i);
  }

  /** A character that tells the method from the one guessed so far. */
  lemma {:induction false} ChangedStep(p: Parser, v: Method, i: nat)
    requires 1 <= i < |NameOf(v)| && Guess(v, i) != Guess(v, i + 1) && p.verb == Guess(v, i) && p.index == i
    ensures OnMethod(p, NameOf(v)[i]) == Go(p.(verb := Guess(v, i + 1), index := i + 1), [], false)
  {
  }

  lemma {:induction false} GuessStep(p: Parser, v: Method, i: nat)
    requires 1 <= i < |NameOf(v)| && p.verb == Guess(v, i) && p.index == i
    ensures OnMethod(p, NameOf(v)[i]) == Go(p.(verb := Guess(v, i + 1), index := i + 1), [], false)
  {
    hide OnMethod, NameOf, Guess;
    if Guess(v, i) == Guess(v, i + 1) { KeptStep(p, v, i); } else { ChangedStep(p, v, i); }
  }

  lemma {:induction false} MethodSwitch(p: Parser, ch: char, skipped: bool)
    requires p.state == ReqMethod
    ensures Switch(p, ch, skipped) == OnMethod(p, ch)
  {
    hide OnMethod;
  }

  lemma {:induction false} StartSwitch(p: Parser, ch: char, skipped: bool)
    requires p.state == StartReq || p.state == StartRes || p.state == StartReqOrRes || p.state == ResOrRespH
    ensures Switch(p, ch, skipped) == OnStart(p, ch)
  {
    hide OnStart;
  }

  /** The parser in the middle of the name of a method. */
  function InMethod(p: Parser, v: Method, i: nat): Parser {
    StartMessage(p).(verb := Guess(v, i), index := i, state := ReqMethod, nread := p.nread + i)
  }

  lemma {:induction false} FirstOther(v: Method)
    ensures NameOf(v)[0] != CR && NameOf(v)[0] != LF && (NameOf(v)[0] == 'H' <==> v == HEAD)
  {
  }

  lemma {:induction false} VerbStart(p: Parser, v: Method)
    requires p.state == StartReq
    ensures OnStart(p, NameOf(v)[0]) == Go(StartMessage(p).(verb := Guess(v, 1), index := 1, state := ReqMethod), [Say(MessageBegin)], false)
  {
    hide NameOf, Guess, FirstVerb, IsAlpha;
    FirstOther(v);
    FirstGuess(v);
  }

  lemma {:induction false} MethodFirst(skip: Parser -> bool, p: Parser, v: Method)
    requires p.state == StartReq && p.errno == OK && p.nread < MAX_HEADER_SIZE
    ensures Feeds(skip, p, NameOf(v)[..1], [MessageBegin]) && FedTo(skip, p, NameOf(v)[..1]) == InMethod(p, v, 1)
  {
    hide Feeds, FedTo, Switch, NameOf, Guess, OnStart;
    Spelled(v);
    var ch, q := NameOf(v)[0], p.(nread := p.nread + 1);
    VerbStart(q, v);
    StartSwitch(q, ch, skip(q));
    PlainEvents(ReqMethod, ch);
    StartFeeds(skip, p, ch, InMethod(p, v, 1), [Say(MessageBegin)], [MessageBegin]);
    assert NameOf(v)[..1] == [ch];
  }

  lemma {:induction false} MethodNext(skip: Parser -> bool, p: Parser, v: Method, i: nat)
    requires 1 <= i < |NameOf(v)| && p.nread + i < MAX_HEADER_SIZE
    ensures Feeds(skip, InMethod(p, v, i), [NameOf(v)[i]], []) && FedTo(skip, InMethod(p, v, i), [NameOf(v)[i]]) == InMethod(p, v, i + 1)
  {
    hide Feeds, FedTo, Switch, NameOf, Guess, OnMethod;
    var q, ch := InMethod(p, v, i), NameOf(v)[i];
    var q1 := q.(nread := q.nread + 1);
    GuessStep(q1, v, i);
    MethodSwitch(q1, ch, skip(q1));
    PlainEvents(ReqMethod, ch);
    StartFeeds(skip, q, ch, InMethod(p, v, i + 1), [], []);
  }

  lemma {:induction false} MethodRest(skip: Parser -> bool, p: Parser, v: Method, i: nat)
    requires p.state == StartReq && p.errno == OK && 1 <= i <= |NameOf(v)| && p.nread + |NameOf(v)| <= MAX_HEADER_SIZE
    ensures Feeds(skip, p, NameOf(v)[..i], [MessageBegin]) && FedTo(skip, p, NameOf(v)[..i]) == InMethod(p, v, i)
    decreases i
  {
    hide Feeds, FedTo, NameOf, InMethod;
    if i == 1 {
      MethodFirst(skip, p, v);
    } else {
      MethodRest(skip, p, v, i - 1);
      var ch := NameOf(v)[i - 1];
      MethodNext(skip, p, v, i - 1);
      FeedsThen(skip, p, NameOf(v)[..i - 1], [MessageBegin], [ch], []);
      assert NameOf(v)[..i - 1] + [ch] == NameOf(v)[..i] && [MessageBegin] + [] == [MessageBegin];
    }
  }

  lemma {:induction false} SpaceStep(p: Parser, v: Method)
    requires p.verb == v && p.index == |NameOf(v)|
    ensures OnMethod(p, ' ') == Go(p.(index := (p.index + 1) % 256, state := ReqSpacesBeforeUrl), [], false)
  {
    hide NameOf, Spelling;
    Spelled(v);
  }

  lemma {:induction false} MethodSpace(skip: Parser -> bool, p: Parser, v: Method)
    requires p.state == ReqMethod && p.verb == v && p.index == |NameOf(v)| && p.nread < MAX_HEADER_SIZE
    ensures Feeds(skip, p, " ", [])
    ensures var q := FedTo(skip, p, " "); q == p.(index := q.index, state := ReqSpacesBeforeUrl, nread := p.nread + 1)
  {
    hide Feeds, FedTo, Switch, NameOf, OnMethod;
    var q1 := p.(nread := p.nread + 1);
    SpaceStep(q1, v);
    MethodSwitch(q1, ' ', skip(q1));
    PlainEvents(ReqSpacesBeforeUrl, ' ');
    StartFeeds(skip, p, ' ', q1.(index := (p.index + 1) % 256, state := ReqSpacesBeforeUrl), [], []);
  }

  /** The method of a request and the space behind it: a new message begins, without flags and
      without a length. */
  lemma {:induction false} MethodFeeds(skip: Parser -> bool, p: Parser, v: Method)
    requires p.state == StartReq && p.errno == OK && p.nread + |NameOf(v)| + 1 <= MAX_HEADER_SIZE
    ensures Feeds(skip, p, NameOf(v) + " ", [MessageBegin])
    ensures var q := FedTo(skip, p, NameOf(v) + " ");
      q == p.(flags := NO_FLAGS, length := ULLONG_MAX, verb := v, index := q.index, state := ReqSpacesBeforeUrl, nread := p.nread + |NameOf(v)| + 1)
  {
    hide Feeds, FedTo, NameOf, Guess;
    Spelled(v);
    var n := |NameOf(v)|;
    MethodRest(skip, p, v, n);
    LastGuess(v);
    assert NameOf(v)[..n] == NameOf(v);
    MethodSpace(skip, InMethod(p, v, n), v);
    FeedsThen(skip, p, NameOf(v), [MessageBegin], " ", []);
    assert [MessageBegin] + [] == [MessageBegin];
  }

  lemma {:induction false} LastGuess(v: Method)
    ensures Guess(v, |NameOf(v)|) == v
  {
  }

  // ---------- the URL ----------

  /** The parser has read `r` of a URL. */
  function InTheUrl(p: Parser, r: G.Raw): Parser {
    if r == G.NOTHING then p else p.(state := G.StateOf(r, p.verb == CONNECT), nread := p.nread + |G.RawText(r)|)
  }

  lemma {:induction false} UrlSwitch(p: Parser, ch: char, skipped: bool)
    requires p.state == ReqSpacesBeforeUrl || InUrl(p.state)
    ensures Switch(p, ch, skipped) == OnUrl(p, ch)
  {
    hide OnUrl;
  }

  lemma {:induction false} UrlStates(r: G.Raw, c: bool)
    requires r != G.NOTHING && G.RawOk(r, c)
    ensures InUrl(G.StateOf(r, c))
  {
  }

  lemma {:induction false} UrlStep(p: Parser, s: State, ch: char)
    requires p.state == ReqSpacesBeforeUrl || InUrl(p.state)
    requires s == ParseUrlChar(if p.state != ReqSpacesBeforeUrl then p.state else if p.verb == CONNECT then ReqServerStart else ReqSpacesBeforeUrl, ch)
    requires s != Dead
    ensures OnUrl(p, ch) == Go(p.(state := s), if p.state == ReqSpacesBeforeUrl then [Mark(Url)] else [], false)
  {
    assert ch != ' ' && ch != CR && ch != LF by { assert ch in " \r\n\t\U{0C}" ==> s == Dead; assert " \r\n\t\U{0C}"[0] == ' ' && " \r\n\t\U{0C}"[1] == CR && " \r\n\t\U{0C}"[2] == LF; }
    hide ParseUrlChar;
  }

  lemma {:induction false} UrlEvents(s: State, ch: char)
    requires InUrl(s)
    ensures Events([]) + OpenData(s, ch) == [Data(Url, [ch])] && Events([Mark(Url)]) + OpenData(s, ch) == [Data(Url, [ch])]
  {
    FlushOne(Url);
  }

  lemma {:induction false} UrlNext(skip: Parser -> bool, p: Parser, r: G.Raw, ch: char)
    requires p.state == ReqSpacesBeforeUrl && G.RawOk(r, p.verb == CONNECT) && G.RawOk(G.Add(r, p.verb == CONNECT, ch), p.verb == CONNECT)
    requires p.nread + |G.RawText(r)| < MAX_HEADER_SIZE
    ensures var q := InTheUrl(p, r);
      Feeds(skip, q, [ch], [Data(Url, [ch])]) && FedTo(skip, q, [ch]) == InTheUrl(p, G.Add(r, p.verb == CONNECT, ch))
  {
    hide Feeds, FedTo, Switch, OnUrl, ParseUrlChar, G.Steps, G.RawOk, G.RawText, G.Add, G.StateOf, InUrl;
    var c := p.verb == CONNECT;
    var a, q := G.Add(r, c, ch), InTheUrl(p, r);
    G.AddText(r, c, ch);
    assert a != G.NOTHING by { UrlNone(c); }
    UrlStates(a, c);
    UrlAccepts(r, c, ch);
    if r == G.NOTHING { UrlNone(c); } else { UrlStates(r, c); NotSpaces(G.StateOf(r, c)); }
    var q1 := q.(nread := q.nread + 1);
    UrlStep(q1, G.StateOf(a, c), ch);
    UrlSwitch(q1, ch, skip(q1));
    UrlEvents(G.StateOf(a, c), ch);
    assert ParsingHeader(q.state) && !TakesBody(q.state) by { UrlHeader(q.state); }
    StartFeeds(skip, q, ch, q1.(state := G.StateOf(a, c)), if q1.state == ReqSpacesBeforeUrl then [Mark(Url)] else [], [Data(Url, [ch])]);
  }

  lemma {:induction false} UrlHeader(s: State)
    requires s == ReqSpacesBeforeUrl || InUrl(s)
    ensures ParsingHeader(s) && !TakesBody(s)
  {
  }

  lemma {:induction false} NotSpaces(s: State)
    requires InUrl(s)
    ensures s != ReqSpacesBeforeUrl
  {
  }

  lemma {:induction false} UrlNone(c: bool)
    ensures G.RawText(G.NOTHING) == "" && G.StateOf(G.NOTHING, c) == if c then ReqServerStart else ReqSpacesBeforeUrl
  {
  }

  lemma {:induction false} UrlAccepts(r: G.Raw, c: bool, ch: char)
    requires G.RawOk(r, c) && G.RawOk(G.Add(r, c, ch), c)
    ensures ParseUrlChar(G.StateOf(r, c), ch) == G.StateOf(G.Add(r, c, ch), c) != Dead
  {
    hide G.RawOk, G.Add, G.StateOf, ParseUrlChar;
    G.AllSteps(r, c, ch);
    G.StateLives(G.Add(r, c, ch), c);
  }

  /** The text of a URL is delivered as it is. */
  lemma {:induction false} UrlText(skip: Parser -> bool, p: Parser, r: G.Raw)
    requires p.state == ReqSpacesBeforeUrl && G.RawOk(r, p.verb == CONNECT) && p.nread + |G.RawText(r)| <= MAX_HEADER_SIZE
    ensures Feeds(skip, p, G.RawText(r), DataOf(Url, G.RawText(r))) && FedTo(skip, p, G.RawText(r)) == InTheUrl(p, r)
    decreases |G.RawText(r)|
  {
    hide Feeds, FedTo, G.RawOk, G.RawText, G.Add, G.StateOf, G.Drop, G.Last, Same, InTheUrl;
    var c := p.verb == CONNECT;
    if r == G.NOTHING {
      UrlNone(c);
      FeedsNone(skip, p);
      assert InTheUrl(p, r) == p by { InNoUrl(p); }
    } else {
      var s, ch := G.Drop(r), G.Last(r);
      G.DropOk(r, c);
      G.AddText(s, c, ch);
      var t := G.RawText(s);
      UrlText(skip, p, s);
      UrlNext(skip, p, s, ch);
      FeedsThen(skip, p, t, DataOf(Url, t), [ch], [Data(Url, [ch])]);
      OneMore(t, ch);
      FeedsSame(skip, p, t + [ch], DataOf(Url, t) + [Data(Url, [ch])], DataOf(Url, t + [ch]));
    }
  }

  lemma {:induction false} InNoUrl(p: Parser)
    ensures InTheUrl(p, G.NOTHING) == p
  {
  }

  lemma {:induction false} OneMore(t: string, ch: char)
    ensures Same(DataOf(Url, t) + [Data(Url, [ch])], DataOf(Url, t + [ch]))
  {
    hide Same;
    if t == "" {
      assert "" + [ch] == [ch] && [] + [Data(Url, [ch])] == [Data(Url, [ch])];
      SameRefl([Data(Url, [ch])]);
    } else {
      JoinData(Url, t, [ch]);
      assert [Data(Url, t)] + [Data(Url, [ch])] == [Data(Url, t), Data(Url, [ch])];
    }
  }

  lemma {:induction false} NoText(u: G.Url, c: bool)
    requires G.IsUrl(u, c) && u.server.None? && u.path == ""
    ensures G.Text(u) == ""
  {
  }

  lemma {:induction false} UrlEnds(u: G.Url, c: bool)
    requires G.IsUrl(u, c) && G.Text(u) != ""
    ensures var s := G.StateOf(G.RawOf(u), c);
      InUrl(s) && s != ReqSchema && s != ReqSchemaSlash && s != ReqSchemaSlashSlash && s != ReqServerStart && G.RawOf(u) != G.NOTHING
  {
    if u.server.Some? { G.SeenOfOk(u.server.value); }
    if u.server.None? && u.path == "" { NoText(u, c); }
  }

  lemma {:induction false} UrlSpace(p: Parser)
    requires InUrl(p.state) && p.state != ReqSchema && p.state != ReqSchemaSlash && p.state != ReqSchemaSlashSlash && p.state != ReqServerStart
    ensures OnUrl(p, ' ') == Go(p.(state := ReqHttpStart), [Flush(Url)], false)
  {
    hide ParseUrlChar;
  }

  lemma {:induction false} AfterUrl()
    ensures Events([Flush(Url)]) + OpenData(ReqHttpStart, ' ') == [Data(Url, "")]
  {
    PlainEvents(ReqHttpStart, ' ');
  }

  /** The URL of a request and the space behind it. */
  lemma {:induction false} UrlFeeds(skip: Parser -> bool, p: Parser, u: G.Url)
    requires p.state == ReqSpacesBeforeUrl && G.IsUrl(u, p.verb == CONNECT) && G.Text(u) != "" && p.nread + |G.Text(u)| + 1 <= MAX_HEADER_SIZE
    ensures Feeds(skip, p, G.Text(u) + " ", [Data(Url, G.Text(u))])
    ensures FedTo(skip, p, G.Text(u) + " ") == p.(state := ReqHttpStart, nread := p.nread + |G.Text(u)| + 1)
  {
    hide Feeds, FedTo, Switch, OnUrl, G.IsUrl, G.RawOk, G.RawText, G.StateOf, G.Text, G.RawOf, InUrl;
    var c, r, t := p.verb == CONNECT, G.RawOf(u), G.Text(u);
    G.RawOfText(u);
    G.RawOfOk(u, c);
    UrlText(skip, p, r);
    UrlEnds(u, c);
    var q := InTheUrl(p, r);
    var q1 := q.(nread := q.nread + 1);
    UrlSpace(q1);
    UrlSwitch(q1, ' ', skip(q1));
    assert Events([Flush(Url)]) + OpenData(ReqHttpStart, ' ') == [Data(Url, "")] by { AfterUrl(); }
    assert ParsingHeader(q.state) && !TakesBody(q.state) by { UrlHeader(q.state); }
    StartFeeds(skip, q, ' ', q1.(state := ReqHttpStart), [Flush(Url)], [Data(Url, "")]);
    FeedsEnd(skip, p, t, Url, " ");
  }

  lemma {:induction false} UrlLineEnd(p: Parser, ch: char)
    requires InUrl(p.state) && p.state != ReqSchema && p.state != ReqSchemaSlash && p.state != ReqSchemaSlashSlash && p.state != ReqServerStart
    requires ch == CR || ch == LF
    ensures OnUrl(p, ch) == Go(p.(major := 0, minor := 9, state := if ch == CR then ReqLineAlmostDone else HeaderFieldStart), [Flush(Url)], false)
  {
    hide ParseUrlChar;
  }

  /** A URL that ends its line belongs to a request of HTTP/0.9. */
  lemma {:induction false} UrlEndFeeds(skip: Parser -> bool, p: Parser, u: G.Url, ch: char)
    requires p.state == ReqSpacesBeforeUrl && G.IsUrl(u, p.verb == CONNECT) && G.Text(u) != "" && p.nread + |G.Text(u)| + 1 <= MAX_HEADER_SIZE
    requires ch == CR || ch == LF
    ensures Feeds(skip, p, G.Text(u) + [ch], [Data(Url, G.Text(u))])
    ensures FedTo(skip, p, G.Text(u) + [ch]) ==
      p.(major := 0, minor := 9, state := if ch == CR then ReqLineAlmostDone else HeaderFieldStart, nread := p.nread + |G.Text(u)| + 1)
  {
    hide Feeds, FedTo, Switch, OnUrl, G.IsUrl, G.RawOk, G.RawText, G.StateOf, G.Text, G.RawOf, InUrl;
    var c, r, t := p.verb == CONNECT, G.RawOf(u), G.Text(u);
    G.RawOfText(u);
    G.RawOfOk(u, c);
    UrlText(skip, p, r);
    UrlEnds(u, c);
    var q := InTheUrl(p, r);
    var q1 := q.(nread := q.nread + 1);
    UrlLineEnd(q1, ch);
    UrlSwitch(q1, ch, skip(q1));
    var next := if ch == CR then ReqLineAlmostDone else HeaderFieldStart;
    assert Events([Flush(Url)]) + OpenData(next, ch) == [Data(Url, "")] by { AfterLine(next, ch); }
    assert ParsingHeader(q.state) && !TakesBody(q.state) by { UrlHeader(q.state); }
    StartFeeds(skip, q, ch, q1.(major := 0, minor := 9, state := next), [Flush(Url)], [Data(Url, "")]);
    FeedsEnd(skip, p, t, Url, [ch]);
  }

  lemma {:induction false} AfterLine(s: State, ch: char)
    requires s == ReqLineAlmostDone || s == HeaderFieldStart
    ensures Events([Flush(Url)]) + OpenData(s, ch) == [Data(Url, "")]
  {
    PlainEvents(s, ch);
  }

  // ---------- the version ----------

  /** A byte that moves the parser on and belongs to no data. */
  lemma {:induction false} Moves(skip: Parser -> bool, p: Parser, ch: char, q: Parser)
    requires IsVersion(p.state) || IsStatus(p.state)
    requires p.nread < MAX_HEADER_SIZE && Switch(p.(nread := p.nread + 1), ch, skip(p.(nread := p.nread + 1))) == Go(q, [], false)
    requires IsVersion(q.state) || IsStatus(q.state) || q.state == HeaderFieldStart
    ensures Feeds(skip, p, [ch], []) && FedTo(skip, p, [ch]) == q
  {
    hide Feeds, FedTo, Switch;
    PlainEvents(q.state, ch);
    StartFeeds(skip, p, ch, q, [], []);
  }

  lemma {:induction false} VersionSwitch(p: Parser, ch: char, skipped: bool)
    requires IsVersion(p.state)
    ensures Switch(p, ch, skipped) == OnVersion(p, ch)
  {
    hide OnVersion;
  }

  lemma {:induction false} StatusSwitch(p: Parser, ch: char, skipped: bool)
    requires IsStatus(p.state)
    ensures Switch(p, ch, skipped) == OnStatus(p, ch)
  {
    hide OnStatus;
  }

  lemma {:induction false} VersionMoves(skip: Parser -> bool, p: Parser, ch: char, q: Parser)
    requires IsVersion(p.state) && p.nread < MAX_HEADER_SIZE && OnVersion(p.(nread := p.nread + 1), ch) == Go(q, [], false)
    requires IsVersion(q.state) || IsStatus(q.state) || q.state == HeaderFieldStart
    ensures Feeds(skip, p, [ch], []) && FedTo(skip, p, [ch]) == q
  {
    hide Feeds, FedTo, Switch, OnVersion, IsVersion, IsStatus;
    VersionSwitch(p.(nread := p.nread + 1), ch, skip(p.(nread := p.nread + 1)));
    Moves(skip, p, ch, q);
  }

  lemma {:induction false} StatusMoves(skip: Parser -> bool, p: Parser, ch: char, q: Parser)
    requires IsStatus(p.state) && p.nread < MAX_HEADER_SIZE && OnStatus(p.(nread := p.nread + 1), ch) == Go(q, [], false)
    requires IsVersion(q.state) || IsStatus(q.state) || q.state == HeaderFieldStart
    ensures Feeds(skip, p, [ch], []) && FedTo(skip, p, [ch]) == q
  {
    hide Feeds, FedTo, Switch, OnStatus, IsVersion, IsStatus;
    StatusSwitch(p.(nread := p.nread + 1), ch, skip(p.(nread := p.nread + 1)));
    Moves(skip, p, ch, q);
  }

  /** Two stretches that belong to no data. */
  lemma {:induction false} Quiet(skip: Parser -> bool, p: Parser, a: string, q: Parser, b: string, r: Parser)
    requires Feeds(skip, p, a, []) && FedTo(skip, p, a) == q && Feeds(skip, q, b, []) && FedTo(skip, q, b) == r
    ensures Feeds(skip, p, a + b, []) && FedTo(skip, p, a + b) == r
  {
    hide Feeds, FedTo;
    FeedsThen(skip, p, a, [], b, []);
    var none: seq<Event> := [];
    assert none + none == none;
  }

  /** The states of the protocol's name. */
  function Letters(req: bool, k: nat): State {
    if k == 0 then (if req then ReqH else ResH)
    else if k == 1 then (if req then ReqHT else ResHT)
    else if k == 2 then (if req then ReqHTT else ResHTT)
    else if k == 3 then (if req then ReqHTTP else ResHTTP)
    else if req then ReqFirstMajor else ResFirstMajor
  }

  lemma {:induction false} LetterFeeds(skip: Parser -> bool, p: Parser, req: bool, k: nat)
    requires k < 4 && p.state == Letters(req, k) && p.nread < MAX_HEADER_SIZE
    ensures Feeds(skip, p, ["TTP/"[k]], [])
    ensures FedTo(skip, p, ["TTP/"[k]]) == p.(state := Letters(req, k + 1), nread := p.nread + 1)
  {
    hide Feeds, FedTo;
    VersionMoves(skip, p, "TTP/"[k], p.(state := Letters(req, k + 1), nread := p.nread + 1));
  }

  /** "TTP/", behind the first letter. */
  lemma {:induction false} ProtocolFeeds(skip: Parser -> bool, p: Parser, req: bool)
    requires p.state == Letters(req, 0) && p.nread + 4 <= MAX_HEADER_SIZE
    ensures Feeds(skip, p, "TTP/", []) && FedTo(skip, p, "TTP/") == p.(state := Letters(req, 4), nread := p.nread + 4)
  {
    hide Feeds, FedTo, Letters;
    assert "T" + "T" == "TT" && "TT" + "P" == "TTP" && "TTP" + "/" == "TTP/";
    var p1 := p.(state := Letters(req, 1), nread := p.nread + 1);
    var p2 := p.(state := Letters(req, 2), nread := p.nread + 2);
    var p3 := p.(state := Letters(req, 3), nread := p.nread + 3);
    LetterFeeds(skip, p, req, 0);
    LetterFeeds(skip, p1, req, 1);
    LetterFeeds(skip, p2, req, 2);
    LetterFeeds(skip, p3, req, 3);
    Quiet(skip, p, "T", p1, "T", p2);
    Quiet(skip, p, "TT", p2, "P", p3);
    Quiet(skip, p, "TTP", p3, "/", p.(state := Letters(req, 4), nread := p.nread + 4));
  }

  lemma {:induction false} MajorDigit(p: Parser, req: bool, n: nat, d: nat)
    requires d < 10 && n * 10 + d <= 999
    requires if n == 0 then p.state == Letters(req, 4) && (req ==> d > 0) else p.state == (if req then ReqMajor else ResMajor) && p.major == n
    ensures OnVersion(p, "0123456789"[d]) == Go(p.(state := if req then ReqMajor else ResMajor, major := n * 10 + d), [], false)
  {
    hide IsNum, Digit;
    DigitRead(d);
    assert d > 0 ==> '1' <= "0123456789"[d] <= '9';
  }

  lemma {:induction false} MinorDigit(p: Parser, req: bool, n: nat, d: nat)
    requires d < 10 && n * 10 + d <= 999
    requires if n == 0 then p.state == (if req then ReqFirstMinor else ResFirstMinor)
             else p.state == (if req then ReqMinor else ResMinor) && p.minor == n
    ensures OnVersion(p, "0123456789"[d]) == Go(p.(state := if req then ReqMinor else ResMinor, minor := n * 10 + d), [], false)
  {
    hide IsNum, Digit;
    DigitRead(d);
  }

  /** The major version, of at most three digits, and not zero in a request. */
  lemma {:induction false} MajorFeeds(skip: Parser -> bool, p: Parser, req: bool, n: nat)
    requires p.state == Letters(req, 4) && n <= 999 && (req ==> n > 0) && p.nread + |Decimals(n)| <= MAX_HEADER_SIZE
    ensures Feeds(skip, p, Decimals(n), [])
    ensures FedTo(skip, p, Decimals(n)) == p.(state := if req then ReqMajor else ResMajor, major := n, nread := p.nread + |Decimals(n)|)
    decreases n
  {
    hide Feeds, FedTo, OnVersion;
    var d := "0123456789"[n % 10];
    var q := p.(state := if req then ReqMajor else ResMajor, major := n, nread := p.nread + |Decimals(n)|);
    if n < 10 {
      MajorDigit(p.(nread := p.nread + 1), req, 0, n);
      VersionMoves(skip, p, d, q);
    } else {
      var s := Decimals(n / 10);
      var r := p.(state := if req then ReqMajor else ResMajor, major := n / 10, nread := p.nread + |s|);
      MajorFeeds(skip, p, req, n / 10);
      MajorDigit(r.(nread := r.nread + 1), req, n / 10, n % 10);
      VersionMoves(skip, r, d, q);
      Quiet(skip, p, s, r, [d], q);
    }
  }

  lemma {:induction false} MinorFeeds(skip: Parser -> bool, p: Parser, req: bool, n: nat)
    requires p.state == (if req then ReqFirstMinor else ResFirstMinor) && n <= 999 && p.nread + |Decimals(n)| <= MAX_HEADER_SIZE
    ensures Feeds(skip, p, Decimals(n), [])
    ensures FedTo(skip, p, Decimals(n)) == p.(state := if req then ReqMinor else ResMinor, minor := n, nread := p.nread + |Decimals(n)|)
    decreases n
  {
    hide Feeds, FedTo, OnVersion;
    var d := "0123456789"[n % 10];
    var q := p.(state := if req then ReqMinor else ResMinor, minor := n, nread := p.nread + |Decimals(n)|);
    if n < 10 {
      MinorDigit(p.(nread := p.nread + 1), req, 0, n);
      VersionMoves(skip, p, d, q);
    } else {
      var s := Decimals(n / 10);
      var r := p.(state := if req then ReqMinor else ResMinor, minor := n / 10, nread := p.nread + |s|);
      MinorFeeds(skip, p, req, n / 10);
      MinorDigit(r.(nread := r.nread + 1), req, n / 10, n % 10);
      VersionMoves(skip, r, d, q);
      Quiet(skip, p, s, r, [d], q);
    }
  }

  lemma {:induction false} DotStep(p: Parser, req: bool)
    requires p.state == if req then ReqMajor else ResMajor
    ensures OnVersion(p, '.') == Go(p.(state := if req then ReqFirstMinor else ResFirstMinor), [], false)
  {
  }

  function VersionText(major: nat, minor: nat): string {
    "TTP/" + Decimals(major) + "." + Decimals(minor)
  }

  /** The protocol's name and version, behind the first letter. */
  lemma {:induction false} VersionFeeds(skip: Parser -> bool, p: Parser, req: bool, major: nat, minor: nat)
    requires p.state == Letters(req, 0) && major <= 999 && minor <= 999 && (req ==> major > 0) && p.nread + |VersionText(major, minor)| <= MAX_HEADER_SIZE
    ensures Feeds(skip, p, VersionText(major, minor), [])
    ensures FedTo(skip, p, VersionText(major, minor)) ==
      p.(state := if req then ReqMinor else ResMinor, major := major, minor := minor, nread := p.nread + |VersionText(major, minor)|)
  {
    hide Feeds, FedTo, OnVersion, Decimals;
    var a, b := Decimals(major), Decimals(minor);
    ProtocolFeeds(skip, p, req);
    var p1 := p.(state := Letters(req, 4), nread := p.nread + 4);
    MajorFeeds(skip, p1, req, major);
    var p2 := p1.(state := if req then ReqMajor else ResMajor, major := major, nread := p1.nread + |a|);
    DotStep(p2.(nread := p2.nread + 1), req);
    var p3 := p2.(state := if req then ReqFirstMinor else ResFirstMinor, nread := p2.nread + 1);
    VersionMoves(skip, p2, '.', p3);
    MinorFeeds(skip, p3, req, minor);
    var p4 := p3.(state := if req then ReqMinor else ResMinor, minor := minor, nread := p3.nread + |b|);
    Quiet(skip, p, "TTP/", p1, a, p2);
    Quiet(skip, p, "TTP/" + a, p2, ".", p3);
    Quiet(skip, p, "TTP/" + a + ".", p3, b, p4);
  }

  // ---------- the request line ----------

  lemma {:induction false} HStep(p: Parser)
    requires p.state == ReqHttpStart
    ensures OnVersion(p, 'H') == Go(p.(state := ReqH), [], false)
  {
  }

  lemma {:induction false} RequestEndStep(p: Parser)
    ensures p.state == ReqMinor ==> OnVersion(p, CR) == Go(p.(state := ReqLineAlmostDone), [], false)
    ensures p.state == ReqMinor ==> OnVersion(p, LF) == Go(p.(state := HeaderFieldStart), [], false)
    ensures p.state == ReqLineAlmostDone ==> OnStatus(p, LF) == Go(p.(state := HeaderFieldStart), [], false)
  {
  }

  /** What a request asks for. */
  datatype RequestLine = RequestLine(verb: Method, url: G.Url, major: nat, minor: nat, end: string)

  predicate IsRequestLine(r: RequestLine) {
    G.IsUrl(r.url, r.verb == CONNECT) && G.Text(r.url) != "" && 0 < r.major <= 999 && r.minor <= 999 && IsEnd(r.end)
  }

  function RequestText(r: RequestLine): string {
    NameOf(r.verb) + " " + (G.Text(r.url) + " ") + "H" + VersionText(r.major, r.minor) + r.end
  }

  /** The line end of a start line. */
  lemma {:induction false} RequestEnds(skip: Parser -> bool, p: Parser, end: string)
    requires p.state == ReqMinor && IsEnd(end) && p.nread + |end| <= MAX_HEADER_SIZE
    ensures Feeds(skip, p, end, []) && FedTo(skip, p, end) == p.(state := HeaderFieldStart, nread := p.nread + |end|)
  {
    hide Feeds, FedTo, OnVersion, OnStatus;
    RequestEndStep(p.(nread := p.nread + 1));
    if end == "\n" {
      VersionMoves(skip, p, LF, p.(state := HeaderFieldStart, nread := p.nread + 1));
    } else {
      var q := p.(state := ReqLineAlmostDone, nread := p.nread + 1);
      VersionMoves(skip, p, CR, q);
      AlmostDone(skip, q);
      Quiet(skip, p, [CR], q, [LF], q.(state := HeaderFieldStart, nread := q.nread + 1));
      assert [CR] + [LF] == end;
    }
  }

  lemma {:induction false} AlmostDone(skip: Parser -> bool, p: Parser)
    requires p.state == ReqLineAlmostDone && p.nread < MAX_HEADER_SIZE
    ensures Feeds(skip, p, "\n", []) && FedTo(skip, p, "\n") == p.(state := HeaderFieldStart, nread := p.nread + 1)
  {
    hide Feeds, FedTo, OnStatus;
    RequestEndStep(p.(nread := p.nread + 1));
    StatusMoves(skip, p, LF, p.(state := HeaderFieldStart, nread := p.nread + 1));
  }

  /** The end of the request line. */
  lemma {:induction false} ProtocolEnds(skip: Parser -> bool, p: Parser, major: nat, minor: nat, end: string)
    requires p.state == ReqHttpStart && 0 < major <= 999 && minor <= 999 && IsEnd(end) && p.nread + |VersionText(major, minor)| + 1 + |end| <= MAX_HEADER_SIZE
    ensures Feeds(skip, p, "H" + VersionText(major, minor) + end, [])
    ensures FedTo(skip, p, "H" + VersionText(major, minor) + end) ==
      p.(state := HeaderFieldStart, major := major, minor := minor, nread := p.nread + |VersionText(major, minor)| + 1 + |end|)
  {
    hide Feeds, FedTo, OnVersion, VersionText;
    var t := VersionText(major, minor);
    var p1 := p.(state := ReqH, nread := p.nread + 1);
    HStep(p.(nread := p.nread + 1));
    VersionMoves(skip, p, 'H', p1);
    VersionFeeds(skip, p1, true, major, minor);
    var p2 := p1.(state := ReqMinor, major := major, minor := minor, nread := p1.nread + |t|);
    RequestEnds(skip, p2, end);
    Quiet(skip, p, "H", p1, t, p2);
    Quiet(skip, p, "H" + t, p2, end, p2.(state := HeaderFieldStart, nread := p2.nread + |end|));
  }

  /** A request line is read as it is written; its headers come next. */
  lemma {:induction false} RequestLineFeeds(skip: Parser -> bool, p: Parser, r: RequestLine)
    requires p.state == StartReq && p.errno == OK && IsRequestLine(r) && p.nread + |RequestText(r)| <= MAX_HEADER_SIZE
    ensures Feeds(skip, p, RequestText(r), [MessageBegin, Data(Url, G.Text(r.url))])
    ensures var q := FedTo(skip, p, RequestText(r));
      q == p.(state := HeaderFieldStart, flags := NO_FLAGS, length := ULLONG_MAX, verb := r.verb, major := r.major, minor := r.minor,
              index := q.index, nread := p.nread + |RequestText(r)|)
  {
    hide Feeds, FedTo, VersionText, NameOf, G.Text, G.IsUrl;
    MethodFeeds(skip, p, r.verb);
    var a, b, c := NameOf(r.verb) + " ", G.Text(r.url) + " ", "H" + VersionText(r.major, r.minor) + r.end;
    var p1 := FedTo(skip, p, a);
    UrlFeeds(skip, p1, r.url);
    var p2 := FedTo(skip, p1, b);
    ProtocolEnds(skip, p2, r.major, r.minor, r.end);
    FeedsThen(skip, p, a, [MessageBegin], b, [Data(Url, G.Text(r.url))]);
    var es := [MessageBegin] + [Data(Url, G.Text(r.url))];
    FeedsThen(skip, p, a + b, es, c, []);
    assert es + [] == [MessageBegin, Data(Url, G.Text(r.url))];
    assert a + b + c == RequestText(r);
  }

  /** A request line without a version is one of HTTP/0.9. */
  lemma {:induction false} ShortLineFeeds(skip: Parser -> bool, p: Parser, v: Method, u: G.Url, end: string)
    requires p.state == StartReq && p.errno == OK && G.IsUrl(u, v == CONNECT) && G.Text(u) != "" && IsEnd(end)
    requires p.nread + |NameOf(v)| + 1 + |G.Text(u)| + |end| <= MAX_HEADER_SIZE
    ensures var t := NameOf(v) + " " + (G.Text(u) + end);
      && Feeds(skip, p, t, [MessageBegin, Data(Url, G.Text(u))])
      && var q := FedTo(skip, p, t);
         q == p.(state := HeaderFieldStart, flags := NO_FLAGS, length := ULLONG_MAX, verb := v, major := 0, minor := 9, index := q.index, nread := p.nread + |t|)
  {
    hide Feeds, FedTo, NameOf, G.Text, G.IsUrl;
    MethodFeeds(skip, p, v);
    var a, t := NameOf(v) + " ", G.Text(u);
    var p1 := FedTo(skip, p, a);
    UrlEndFeeds(skip, p1, u, end[0]);
    if end == "\r\n" {
      var p2 := FedTo(skip, p1, t + [CR]);
      AlmostDone(skip, p2);
      FeedsThen(skip, p1, t + [CR], [Data(Url, t)], "\n", []);
      assert t + [CR] + "\n" == t + end && [Data(Url, t)] + [] == [Data(Url, t)];
    }
    FeedsThen(skip, p, a, [MessageBegin], t + end, [Data(Url, t)]);
    assert [MessageBegin] + [Data(Url, t)] == [MessageBegin, Data(Url, t)];
  }

  // ---------- spaces and limits ----------

  /** Where a start line may have any number of spaces. */
  predicate Gap(s: State) {
    s == ReqSpacesBeforeUrl || s == ReqHttpStart || s == ResFirstStatus
  }

  lemma {:induction false} SpacePasses(skip: Parser -> bool, p: Parser)
    requires Gap(p.state) && p.nread < MAX_HEADER_SIZE
    ensures Feeds(skip, p, " ", []) && FedTo(skip, p, " ") == p.(nread := p.nread + 1)
  {
    hide Feeds, FedTo, ParseUrlChar;
    PlainEvents(p.state, ' ');
    StartFeeds(skip, p, ' ', p.(nread := p.nread + 1), [], []);
  }

  /** More spaces than one before the URL, the version of a request or the status make no
      difference. */
  lemma {:induction false} SpacesPass(skip: Parser -> bool, p: Parser, s: string)
    requires Gap(p.state) && p.nread + |s| <= MAX_HEADER_SIZE && forall k :: 0 <= k < |s| ==> s[k] == ' '
    ensures Feeds(skip, p, s, []) && FedTo(skip, p, s) == p.(nread := p.nread + |s|)
    decreases |s|
  {
    hide Feeds, FedTo;
    if s == "" {
      FeedsNone(skip, p);
    } else {
      SpacePasses(skip, p);
      SpacesPass(skip, p.(nread := p.nread + 1), s[1..]);
      Quiet(skip, p, " ", p.(nread := p.nread + 1), s[1..], p.(nread := p.nread + |s|));
      assert " " + s[1..] == s;
    }
  }

  /** The number of which a digit is read: a part of the version, or the status. */
  function Reading(p: Parser): Option<nat> {
    if p.state == ReqMajor || p.state == ResMajor then Some(p.major)
    else if p.state == ReqMinor || p.state == ResMinor then Some(p.minor)
    else if p.state == ResStatusCode then Some(p.status)
    else None
  }

  lemma {:induction false} NumberStep(p: Parser, d: nat)
    requires Reading(p).Some? && d < 10
    ensures var s, n := if p.state == ResStatusCode then OnStatus(p, "0123456789"[d]) else OnVersion(p, "0123456789"[d]), Reading(p).value * 10 + d;
      if n > 999 then s.Fail? && s.p.errno == (if p.state == ResStatusCode then InvalidStatus else InvalidVersion)
      else s.Go? && !s.again && s.acts == [] && s.p.state == p.state && Reading(s.p) == Some(n)
  {
    hide IsNum, Digit;
    DigitRead(d);
  }

  /** It is refused with the digit that takes it above 999, and not before. */
  lemma {:induction false} NumberLimit(skip: Parser -> bool, p: Parser, d: nat)
    requires Reading(p).Some? && d < 10 && p.errno == OK && p.nread < MAX_HEADER_SIZE
    ensures var r, n := ByteStep(skip, p, "0123456789"[d]), Reading(p).value * 10 + d;
      if n > 999 then r.Broken? && r.p.errno == (if p.state == ResStatusCode then InvalidStatus else InvalidVersion)
      else r.Fine? && r.p.state == p.state && Reading(r.p) == Some(n) && r.events == []
  {
    hide Switch, Events, OpenData, OnStatus, OnVersion;
    var q, ch := p.(nread := p.nread + 1), "0123456789"[d];
    NumberStep(q, d);
    NumberSwitch(q, ch, skip(q));
    PlainEvents(p.state, ch);
    assert Count(p) == q;
    if Reading(p).value * 10 + d <= 999 { StartByte(skip, p, ch, Switch(q, ch, skip(q))); }
  }

  lemma {:induction false} NumberSwitch(p: Parser, ch: char, skipped: bool)
    requires Reading(p).Some?
    ensures Switch(p, ch, skipped) == if p.state == ResStatusCode then OnStatus(p, ch) else OnVersion(p, ch)
  {
    hide OnStatus, OnVersion;
  }

  // ---------- between messages ----------

  predicate LineEnds(s: string) {
    forall k :: 0 <= k < |s| ==> s[k] == CR || s[k] == LF
  }

  lemma {:induction false} LeadingByte(skip: Parser -> bool, p: Parser, ch: char)
    requires (p.state == StartReq || p.state == StartReqOrRes || p.state == Dead) && p.nread < MAX_HEADER_SIZE && (ch == CR || ch == LF)
    ensures Feeds(skip, p, [ch], []) && FedTo(skip, p, [ch]) == p.(nread := p.nread + 1)
  {
    hide Feeds, FedTo, FirstVerb;
    PlainEvents(p.state, ch);
    StartFeeds(skip, p, ch, p.(nread := p.nread + 1), [], []);
  }

  /** Line ends before a request, and after a connection that is to be closed, are passed over. */
  lemma {:induction false} LeadingFeeds(skip: Parser -> bool, p: Parser, s: string)
    requires (p.state == StartReq || p.state == StartReqOrRes || p.state == Dead) && p.nread + |s| <= MAX_HEADER_SIZE && LineEnds(s)
    ensures Feeds(skip, p, s, []) && FedTo(skip, p, s) == p.(nread := p.nread + |s|)
    decreases |s|
  {
    hide Feeds, FedTo;
    if s == "" {
      FeedsNone(skip, p);
    } else {
      LeadingByte(skip, p, s[0]);
      LeadingFeeds(skip, p.(nread := p.nread + 1), s[1..]);
      Quiet(skip, p, [s[0]], p.(nread := p.nread + 1), s[1..], p.(nread := p.nread + |s|));
      assert [s[0]] + s[1..] == s;
    }
  }

  /** Nothing else is taken on a connection that is to be closed. */
  lemma {:induction false} ClosedRefuses(skip: Parser -> bool, p: Parser, ends: string, ch: char, rest: string)
    requires p.state == Dead && p.errno == OK && LineEnds(ends) && p.nread + |ends| < MAX_HEADER_SIZE && ch != CR && ch != LF
    ensures var r := Feed(skip, p, ends + ([ch] + rest)); r.Broken? && r.p.errno == ClosedConnection
  {
    LeadingFeeds(skip, p, ends);
    var q := p.(nread := p.nread + |ends|);
    FeedAppend(skip, p, ends, [ch] + rest);
    assert Count(q) == q.(nread := q.nread + 1);
    assert ByteStep(skip, q, ch) == Broken(Count(q).(errno := ClosedConnection));
    assert Feed(skip, q, [ch] + rest) == ByteStep(skip, q, ch);
  }

  function Begins(n: nat): seq<Event> {
    if n == 0 then [] else [MessageBegin] + Begins(n - 1)
  }

  lemma {:induction false} ResponseLead(skip: Parser -> bool, p: Parser, ch: char)
    requires p.state == StartRes && p.nread < MAX_HEADER_SIZE && (ch == CR || ch == LF)
    ensures Feeds(skip, p, [ch], [MessageBegin]) && FedTo(skip, p, [ch]) == StartMessage(p).(nread := p.nread + 1)
  {
    hide Feeds, FedTo;
    var q := p.(nread := p.nread + 1);
    PlainEvents(StartRes, ch);
    StartSwitch(q, ch, skip(q));
    StartFeeds(skip, p, ch, StartMessage(q), [Say(MessageBegin)], [MessageBegin]);
  }

  /** Before a response, each of them announces a message. */
  lemma {:induction false} BegunAgain(skip: Parser -> bool, p: Parser, s: string)
    requires p.state == StartRes && p.nread + |s| <= MAX_HEADER_SIZE && LineEnds(s)
    ensures Feeds(skip, p, s, Begins(|s|))
    ensures var q := FedTo(skip, p, s); q == p.(flags := q.flags, length := q.length, nread := p.nread + |s|)
    decreases |s|
  {
    hide Feeds, FedTo;
    if s == "" {
      FeedsNone(skip, p);
    } else {
      ResponseLead(skip, p, s[0]);
      BegunAgain(skip, StartMessage(p).(nread := p.nread + 1), s[1..]);
      FeedsThen(skip, p, [s[0]], [MessageBegin], s[1..], Begins(|s| - 1));
      assert [s[0]] + s[1..] == s;
    }
  }

  // ---------- the status line ----------

  /** What a response says of itself. */
  datatype StatusLine = StatusLine(major: nat, minor: nat, status: nat, reason: Option<string>, end: string)

  predicate IsStatusLine(r: StatusLine) {
    r.major <= 999 && r.minor <= 999 && r.status <= 999 && IsEnd(r.end) && (r.reason.Some? ==> CR !in r.reason.value && LF !in r.reason.value)
  }

  function ReasonText(r: Option<string>): string {
    match r case None => "" case Some(s) => " " + s
  }

  function StatusText(r: StatusLine): string {
    "H" + VersionText(r.major, r.minor) + " " + Decimals(r.status) + ReasonText(r.reason) + r.end
  }

  lemma {:induction false} ResponseFirst(skip: Parser -> bool, p: Parser)
    requires p.state == StartRes && p.errno == OK && p.nread < MAX_HEADER_SIZE
    ensures Feeds(skip, p, "H", [MessageBegin])
    ensures FedTo(skip, p, "H") == p.(state := ResH, flags := NO_FLAGS, length := ULLONG_MAX, nread := p.nread + 1)
  {
    hide Feeds, FedTo, Switch;
    var q := p.(nread := p.nread + 1);
    StartSwitch(q, 'H', skip(q));
    PlainEvents(ResH, 'H');
    StartFeeds(skip, p, 'H', StartMessage(q).(state := ResH), [Say(MessageBegin)], [MessageBegin]);
  }

  lemma {:induction false} SpaceAfterVersion(skip: Parser -> bool, p: Parser)
    requires p.state == ResMinor && p.nread < MAX_HEADER_SIZE
    ensures Feeds(skip, p, " ", []) && FedTo(skip, p, " ") == p.(state := ResFirstStatus, nread := p.nread + 1)
  {
    hide Feeds, FedTo;
    VersionMoves(skip, p, ' ', p.(state := ResFirstStatus, nread := p.nread + 1));
  }

  lemma {:induction false} StatusDigit(p: Parser, n: nat, d: nat)
    requires d < 10 && n * 10 + d <= 999
    requires if n == 0 then p.state == ResFirstStatus else p.state == ResStatusCode && p.status == n
    ensures OnStatus(p, "0123456789"[d]) == Go(p.(state := ResStatusCode, status := n * 10 + d), [], false)
  {
    hide IsNum, Digit;
    DigitRead(d);
  }

  lemma {:induction false} StatusFeeds(skip: Parser -> bool, p: Parser, n: nat)
    requires p.state == ResFirstStatus && n <= 999 && p.nread + |Decimals(n)| <= MAX_HEADER_SIZE
    ensures Feeds(skip, p, Decimals(n), [])
    ensures FedTo(skip, p, Decimals(n)) == p.(state := ResStatusCode, status := n, nread := p.nread + |Decimals(n)|)
    decreases n
  {
    hide Feeds, FedTo, OnStatus;
    var d := "0123456789"[n % 10];
    var q := p.(state := ResStatusCode, status := n, nread := p.nread + |Decimals(n)|);
    if n < 10 {
      StatusDigit(p.(nread := p.nread + 1), 0, n);
      StatusMoves(skip, p, d, q);
    } else {
      var s := Decimals(n / 10);
      var r := p.(state := ResStatusCode, status := n / 10, nread := p.nread + |s|);
      StatusFeeds(skip, p, n / 10);
      StatusDigit(r.(nread := r.nread + 1), n / 10, n % 10);
      StatusMoves(skip, r, d, q);
      Quiet(skip, p, s, r, [d], q);
    }
  }

  lemma {:induction false} ReasonStep(p: Parser, ch: char)
    ensures p.state == ResStatusCode ==> OnStatus(p, ' ') == Go(p.(state := ResStatus), [], false)
    ensures p.state == ResStatus && ch != CR && ch != LF ==> OnStatus(p, ch) == Go(p, [], false)
    ensures p.state == ResStatus || p.state == ResStatusCode ==> OnStatus(p, CR) == Go(p.(state := ResLineAlmostDone), [], false)
    ensures p.state == ResStatus || p.state == ResStatusCode ==> OnStatus(p, LF) == Go(p.(state := HeaderFieldStart), [], false)
    ensures p.state == ResLineAlmostDone ==> OnStatus(p, LF) == Go(p.(state := HeaderFieldStart), [], false)
  {
  }

  lemma {:induction false} ReasonRest(skip: Parser -> bool, p: Parser, s: string)
    requires p.state == ResStatus && CR !in s && LF !in s && p.nread + |s| <= MAX_HEADER_SIZE
    ensures Feeds(skip, p, s, []) && FedTo(skip, p, s) == p.(nread := p.nread + |s|)
    decreases |s|
  {
    hide Feeds, FedTo, OnStatus;
    if s == "" {
      FeedsNone(skip, p);
    } else {
      var t, ch := s[..|s| - 1], s[|s| - 1];
      var q := p.(nread := p.nread + |t|);
      ReasonRest(skip, p, t);
      ReasonStep(q.(nread := q.nread + 1), ch);
      StatusMoves(skip, q, ch, p.(nread := p.nread + |s|));
      Quiet(skip, p, t, q, [ch], p.(nread := p.nread + |s|));
      assert t + [ch] == s;
    }
  }

  /** What follows the status. */
  lemma {:induction false} ReasonFeeds(skip: Parser -> bool, p: Parser, r: Option<string>, end: string)
    requires p.state == ResStatusCode && (r.Some? ==> CR !in r.value && LF !in r.value) && IsEnd(end) && p.nread + |ReasonText(r)| + |end| <= MAX_HEADER_SIZE
    ensures Feeds(skip, p, ReasonText(r) + end, [])
    ensures FedTo(skip, p, ReasonText(r) + end) == p.(state := HeaderFieldStart, nread := p.nread + |ReasonText(r)| + |end|)
  {
    hide Feeds, FedTo;
    var q := p.(state := if r.None? then ResStatusCode else ResStatus, nread := p.nread + |ReasonText(r)|);
    if r.None? {
      FeedsNone(skip, p);
    } else {
      var p1 := p.(state := ResStatus, nread := p.nread + 1);
      hide OnStatus;
      ReasonStep(p.(nread := p.nread + 1), ' ');
      StatusMoves(skip, p, ' ', p1);
      ReasonRest(skip, p1, r.value);
      Quiet(skip, p, " ", p1, r.value, q);
    }
    StatusLineEnds(skip, q, end);
    Quiet(skip, p, ReasonText(r), q, end, q.(state := HeaderFieldStart, nread := q.nread + |end|));
  }

  lemma {:induction false} StatusCr(skip: Parser -> bool, p: Parser)
    requires (p.state == ResStatus || p.state == ResStatusCode) && p.nread < MAX_HEADER_SIZE
    ensures Feeds(skip, p, "\r", []) && FedTo(skip, p, "\r") == p.(state := ResLineAlmostDone, nread := p.nread + 1)
  {
    hide Feeds, FedTo, OnStatus;
    ReasonStep(p.(nread := p.nread + 1), CR);
    StatusMoves(skip, p, CR, p.(state := ResLineAlmostDone, nread := p.nread + 1));
  }

  lemma {:induction false} StatusLf(skip: Parser -> bool, p: Parser)
    requires (p.state == ResLineAlmostDone || p.state == ResStatus || p.state == ResStatusCode) && p.nread < MAX_HEADER_SIZE
    ensures Feeds(skip, p, "\n", []) && FedTo(skip, p, "\n") == p.(state := HeaderFieldStart, nread := p.nread + 1)
  {
    hide Feeds, FedTo, OnStatus;
    ReasonStep(p.(nread := p.nread + 1), LF);
    StatusMoves(skip, p, LF, p.(state := HeaderFieldStart, nread := p.nread + 1));
  }

  lemma {:induction false} StatusLineEnds(skip: Parser -> bool, p: Parser, end: string)
    requires (p.state == ResStatus || p.state == ResStatusCode) && IsEnd(end) && p.nread + |end| <= MAX_HEADER_SIZE
    ensures Feeds(skip, p, end, []) && FedTo(skip, p, end) == p.(state := HeaderFieldStart, nread := p.nread + |end|)
  {
    hide Feeds, FedTo;
    if end == "\n" {
      StatusLf(skip, p);
    } else {
      StatusCr(skip, p);
      var q := p.(state := ResLineAlmostDone, nread := p.nread + 1);
      StatusLf(skip, q);
      Quiet(skip, p, "\r", q, "\n", q.(state := HeaderFieldStart, nread := q.nread + 1));
      assert "\r" + "\n" == end;
    }
  }

  /** A status line behind its first letter. */
  lemma {:induction false} StatusRest(skip: Parser -> bool, p: Parser, r: StatusLine)
    requires p.state == ResH && IsStatusLine(r) && p.nread + |StatusText(r)| - 1 <= MAX_HEADER_SIZE
    ensures var t := VersionText(r.major, r.minor) + " " + Decimals(r.status) + (ReasonText(r.reason) + r.end);
      && Feeds(skip, p, t, [])
      && FedTo(skip, p, t) == p.(state := HeaderFieldStart, major := r.major, minor := r.minor, status := r.status, nread := p.nread + |t|)
  {
    hide Feeds, FedTo, VersionText, Decimals, ReasonText;
    var a, b, c := VersionText(r.major, r.minor), Decimals(r.status), ReasonText(r.reason) + r.end;
    VersionFeeds(skip, p, false, r.major, r.minor);
    var p2 := p.(state := ResMinor, major := r.major, minor := r.minor, nread := p.nread + |a|);
    SpaceAfterVersion(skip, p2);
    var p3 := p2.(state := ResFirstStatus, nread := p2.nread + 1);
    StatusFeeds(skip, p3, r.status);
    var p4 := p3.(state := ResStatusCode, status := r.status, nread := p3.nread + |b|);
    ReasonFeeds(skip, p4, r.reason, r.end);
    Quiet(skip, p, a, p2, " ", p3);
    Quiet(skip, p, a + " ", p3, b, p4);
    Quiet(skip, p, a + " " + b, p4, c, p4.(state := HeaderFieldStart, nread := p4.nread + |c|));
  }

  /** A status line is read as it is written; its headers come next. */
  lemma {:induction false} StatusLineFeeds(skip: Parser -> bool, p: Parser, r: StatusLine)
    requires p.state == StartRes && p.errno == OK && IsStatusLine(r) && p.nread + |StatusText(r)| <= MAX_HEADER_SIZE
    ensures Feeds(skip, p, StatusText(r), [MessageBegin])
    ensures FedTo(skip, p, StatusText(r)) ==
      p.(state := HeaderFieldStart, flags := NO_FLAGS, length := ULLONG_MAX, major := r.major, minor := r.minor, status := r.status,
         nread := p.nread + |StatusText(r)|)
  {
    hide Feeds, FedTo, VersionText, Decimals, ReasonText;
    var t := VersionText(r.major, r.minor) + " " + Decimals(r.status) + (ReasonText(r.reason) + r.end);
    ResponseFirst(skip, p);
    StatusRest(skip, p.(state := ResH, flags := NO_FLAGS, length := ULLONG_MAX, nread := p.nread + 1), r);
    FeedsThen(skip, p, "H", [MessageBegin], t, []);
    assert [MessageBegin] + [] == [MessageBegin];
    assert "H" + t == StatusText(r);
  }

  // ---------- requests and responses on one connection ----------

  /** A parser for both, once it knows that this is a request. */
  function AsRequest(p: Parser): Parser { p.(ptype := Request, state := StartReq) }

  function AsResponse(p: Parser): Parser { p.(ptype := Response, state := StartRes) }

  lemma {:induction false} OtherStart(p: Parser, v: Method)
    requires p.state == StartReqOrRes && v != HEAD
    ensures OnStart(p, NameOf(v)[0]) == Go(AsRequest(StartMessage(p)), [], true)
  {
    hide NameOf;
    FirstOther(v);
  }

  lemma {:induction false} OtherLetter(skip: Parser -> bool, p: Parser, v: Method)
    requires p.state == StartReqOrRes && p.errno == OK && p.nread < MAX_HEADER_SIZE && v != HEAD
    ensures Feeds(skip, p, NameOf(v)[..1], [MessageBegin]) && FedTo(skip, p, NameOf(v)[..1]) == InMethod(AsRequest(p), v, 1)
  {
    hide Feeds, FedTo, Switch, NameOf, Guess, OnStart, ByteStep, Turn, Events, OpenData;
    Spelled(v);
    var ch := NameOf(v)[0];
    var q := p.(nread := p.nread + 1);
    var r := AsRequest(StartMessage(q));
    OtherStart(q, v);
    VerbStart(r, v);
    StartSwitch(q, ch, skip(q));
    StartSwitch(r, ch, skip(r));
    PlainEvents(ReqMethod, ch);
    StartTurn(skip, p, ch);
    TurnTwice(skip, q, ch, r);
    TurnOnce(skip, r, ch);
    FeedsByte(skip, p, ch, InMethod(AsRequest(p), v, 1), [MessageBegin]);
    assert NameOf(v)[..1] == [ch];
  }

  lemma {:induction false} StartTurn(skip: Parser -> bool, p: Parser, ch: char)
    requires p.state == StartReqOrRes && p.nread < MAX_HEADER_SIZE
    ensures ByteStep(skip, p, ch) == Turn(skip, p.(nread := p.nread + 1), ch)
  {
    hide Turn;
  }

  lemma {:induction false} HStart(p: Parser)
    ensures p.state == StartReqOrRes ==> OnStart(p, 'H') == Go(StartMessage(p).(state := ResOrRespH), [Say(MessageBegin)], false)
    ensures p.state == ResOrRespH ==> OnStart(p, 'T') == Go(p.(ptype := Response, state := ResHT), [], false)
    ensures p.state == ResOrRespH ==> OnStart(p, 'E') == Go(p.(ptype := Request, verb := HEAD, index := 2, state := ReqMethod), [], false)
  {
  }

  lemma {:induction false} HFeeds(skip: Parser -> bool, p: Parser)
    requires p.state == StartReqOrRes && p.errno == OK && p.nread < MAX_HEADER_SIZE
    ensures Feeds(skip, p, "H", [MessageBegin]) && FedTo(skip, p, "H") == StartMessage(p).(state := ResOrRespH, nread := p.nread + 1)
  {
    hide Feeds, FedTo, Switch, OnStart;
    var q := p.(nread := p.nread + 1);
    HStart(q);
    StartSwitch(q, 'H', skip(q));
    PlainEvents(ResOrRespH, 'H');
    StartFeeds(skip, p, 'H', StartMessage(q).(state := ResOrRespH), [Say(MessageBegin)], [MessageBegin]);
  }

  lemma {:induction false} SecondFeeds(skip: Parser -> bool, p: Parser, ch: char, q: Parser)
    requires p.state == ResOrRespH && p.nread < MAX_HEADER_SIZE && OnStart(p.(nread := p.nread + 1), ch) == Go(q, [], false)
    requires q.state == ResHT || q.state == ReqMethod
    ensures Feeds(skip, p, [ch], []) && FedTo(skip, p, [ch]) == q
  {
    hide Feeds, FedTo, Switch, OnStart;
    var r := p.(nread := p.nread + 1);
    StartSwitch(r, ch, skip(r));
    PlainEvents(q.state, ch);
    StartFeeds(skip, p, ch, q, [], []);
  }

  /** The letter behind an H tells a response from a HEAD request. */
  lemma {:induction false} LetterH(skip: Parser -> bool, p: Parser, second: char, q: Parser)
    requires p.state == StartReqOrRes && p.errno == OK && p.nread + 2 <= MAX_HEADER_SIZE
    requires second == 'T' || second == 'E'
    requires q == if second == 'T' then StartMessage(p).(ptype := Response, state := ResHT, nread := p.nread + 2) else InMethod(AsRequest(p), HEAD, 2)
    ensures Feeds(skip, p, ['H', second], [MessageBegin]) && FedTo(skip, p, ['H', second]) == q
  {
    hide Feeds, FedTo, OnStart;
    HFeeds(skip, p);
    var h := StartMessage(p).(state := ResOrRespH, nread := p.nread + 1);
    HStart(h.(nread := h.nread + 1));
    if second == 'T' {
      SecondFeeds(skip, h, 'T', q);
    } else {
      SecondFeeds(skip, h, 'E', q);
    }
    FeedsThen(skip, p, "H", [MessageBegin], [second], []);
    assert "H" + [second] == ['H', second] && [MessageBegin] + [] == [MessageBegin];
  }

  /** A parser for both kinds of messages takes the two first letters of a method's name as one
      for requests does, and the start of a version as one for responses does. */
  lemma {:induction false} EitherKind(skip: Parser -> bool, p: Parser, v: Method)
    requires p.state == StartReqOrRes && p.errno == OK && p.nread + 2 <= MAX_HEADER_SIZE
    ensures Feeds(skip, p, NameOf(v)[..2], [MessageBegin]) && Feeds(skip, AsRequest(p), NameOf(v)[..2], [MessageBegin])
    ensures FedTo(skip, p, NameOf(v)[..2]) == FedTo(skip, AsRequest(p), NameOf(v)[..2])
    ensures Feeds(skip, p, "HT", [MessageBegin]) && Feeds(skip, AsResponse(p), "HT", [MessageBegin])
    ensures FedTo(skip, p, "HT") == FedTo(skip, AsResponse(p), "HT")
  {
    hide Feeds, FedTo, Switch, Guess, NameOf, InMethod, OnVersion;
    LetterH(skip, p, 'T', StartMessage(p).(ptype := Response, state := ResHT, nread := p.nread + 2));
    ResponseT(skip, AsResponse(p));
    Spelled(v);
    MethodFirst(skip, AsRequest(p), v);
    TwoLetters(skip, AsRequest(p), AsRequest(p), v);
    if v == HEAD {
      LetterH(skip, p, 'E', InMethod(AsRequest(p), HEAD, 2));
      assert NameOf(v)[..2] == ['H', 'E'] by { HeadLetters(); }
    } else {
      OtherLetter(skip, p, v);
      TwoLetters(skip, p, AsRequest(p), v);
    }
  }

  lemma {:induction false} HeadLetters()
    ensures NameOf(HEAD)[..2] == ['H', 'E']
  {
  }

  lemma {:induction false} TwoLetters(skip: Parser -> bool, p: Parser, r: Parser, v: Method)
    requires Feeds(skip, p, NameOf(v)[..1], [MessageBegin]) && FedTo(skip, p, NameOf(v)[..1]) == InMethod(r, v, 1) && r.nread + 2 <= MAX_HEADER_SIZE
    requires |NameOf(v)| >= 2
    ensures Feeds(skip, p, NameOf(v)[..2], [MessageBegin]) && FedTo(skip, p, NameOf(v)[..2]) == InMethod(r, v, 2)
  {
    hide Feeds, FedTo, NameOf, InMethod;
    MethodNext(skip, r, v, 1);
    FeedsThen(skip, p, NameOf(v)[..1], [MessageBegin], [NameOf(v)[1]], []);
    assert NameOf(v)[..1] + [NameOf(v)[1]] == NameOf(v)[..2] && [MessageBegin] + [] == [MessageBegin];
  }

  lemma {:induction false} ResponseT(skip: Parser -> bool, p: Parser)
    requires p.state == StartRes && p.errno == OK && p.nread + 2 <= MAX_HEADER_SIZE
    ensures Feeds(skip, p, "HT", [MessageBegin])
    ensures FedTo(skip, p, "HT") == StartMessage(p).(state := ResHT, nread := p.nread + 2)
  {
    hide Feeds, FedTo;
    ResponseFirst(skip, p);
    var q := StartMessage(p).(state := ResH, nread := p.nread + 1);
    VersionMoves(skip, q, 'T', q.(state := ResHT, nread := q.nread + 1));
    FeedsThen(skip, p, "H", [MessageBegin], "T", []);
    assert "H" + "T" == "HT" && [MessageBegin] + [] == [MessageBegin];
  }
}
