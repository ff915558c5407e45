/** Which words the parser takes for a method. */
module HttpMethods {
  import opened Options
  import opened HttpState
  import opened Http
  import opened HttpBody
  import opened HttpHeaders
  import opened HttpStart

  /** In the names of some methods the parser does not look at the third character, unless it
      begins the name of another one. */
  predicate Slips(v: Method, ch: char) {
    && v !in {CONNECT, COPY, MKCOL, MKACTIVITY, SUBSCRIBE, UNSUBSCRIBE, PURGE}
    && ch != '\0' && !(v == PUT && ch == 'R') && !(v == UNLOCK && ch == 'S')
  }

  /** The word begins like this method's name. */
  predicate Like(w: string, v: Method) {
    |w| <= |NameOf(v)| && forall k :: 0 <= k < |w| ==> w[k] == NameOf(v)[k] || (k == 2 && Slips(v, w[2]))
  }

  /** The word is the method's name, but for a third character that is not looked at. */
  predicate Resembles(w: string, v: Method) {
    |w| == |NameOf(v)| && Like(w, v)
  }

  // ---------- words that are taken ----------

  lemma {:induction false} SlipStep(p: Parser, v: Method, ch: char)
    requires p.verb == Guess(v, 2) && p.index == 2 && Slips(v, ch)
    ensures OnMethod(p, ch) == Go(p.(verb := Guess(v, 3), index := 3), [], false)
  {
  }

  lemma {:induction false} TakenNext(skip: Parser -> bool, p: Parser, v: Method, i: nat, ch: char)
    requires 1 <= i < |NameOf(v)| && p.nread + i < MAX_HEADER_SIZE && (ch == NameOf(v)[i] || (i == 2 && Slips(v, ch)))
    ensures Feeds(skip, InMethod(p, v, i), [ch], []) && FedTo(skip, InMethod(p, v, i), [ch]) == InMethod(p, v, i + 1)
  {
    hide Feeds, FedTo, Switch, NameOf, Guess, OnMethod, Slips;
    var q := InMethod(p, v, i);
    var q1 := q.(nread := q.nread + 1);
    if ch == NameOf(v)[i] { GuessStep(q1, v, i); } else { SlipStep(q1, v, ch); }
    MethodSwitch(q1, ch, skip(q1));
    PlainEvents(ReqMethod, ch);
    StartFeeds(skip, q, ch, InMethod(p, v, i + 1), [], []);
  }

  lemma {:induction false} TakenRest(skip: Parser -> bool, p: Parser, v: Method, w: string, i: nat)
    requires p.state == StartReq && p.errno == OK && Resembles(w, v) && 1 <= i <= |w| && p.nread + |w| <= MAX_HEADER_SIZE
    ensures Feeds(skip, p, w[..i], [MessageBegin]) && FedTo(skip, p, w[..i]) == InMethod(p, v, i)
    decreases i
  {
    hide Feeds, FedTo, NameOf, InMethod, Slips;
    if i == 1 {
      Spelled(v);
      MethodFirst(skip, p, v);
      assert w[..1] == NameOf(v)[..1];
    } else {
      TakenRest(skip, p, v, w, i - 1);
      var ch := w[i - 1];
      TakenNext(skip, p, v, i - 1, ch);
      FeedsThen(skip, p, w[..i - 1], [MessageBegin], [ch], []);
      assert w[..i - 1] + [ch] == w[..i] && [MessageBegin] + [] == [MessageBegin];
    }
  }

  // ---------- and no others ----------

  /** The parser is in the middle of a word that it takes for the beginning of its method. */
  ghost predicate InWord(p: Parser, w: string) {
    && p.state == ReqMethod && p.index == |w| && 1 <= |w| && Like(w, p.verb)
    && (p.verb in {COPY, MKACTIVITY, UNSUBSCRIBE, PURGE} ==> |w| >= 3)
  }

  lemma {:induction false} FirstLike(ch: char)
    ensures FirstVerb(ch).Some? ==> FirstVerb(ch).value !in {COPY, MKACTIVITY, UNSUBSCRIBE, PURGE} && NameOf(FirstVerb(ch).value)[0] == ch
  {
  }

  /** The parser stays with its method. */
  lemma {:induction false} Stays(p: Parser, ch: char)
    requires OnMethod(p, ch).Go? && OnMethod(p, ch).p.verb == p.verb && OnMethod(p, ch).p.state == ReqMethod
    requires p.state == ReqMethod && (p.verb in {COPY, MKACTIVITY, UNSUBSCRIBE, PURGE} ==> p.index >= 3)
    ensures p.index < |NameOf(p.verb)| && (ch == NameOf(p.verb)[p.index] || (p.index == 2 && Slips(p.verb, ch)))
  {
    Spelled(p.verb);
    hide NameOf, Spelling;
  }

  /** Two names that are told apart by the character at `i`. */
  predicate Parts(v: Method, u: Method, i: nat, ch: char) {
    && (i == 1 || i == 2 || (i == 4 && v == PROPFIND && u == PROPPATCH))
    && i < |NameOf(u)| && ch == NameOf(u)[i] && i <= |NameOf(v)| && NameOf(u)[..i] == NameOf(v)[..i]
    && (u in {COPY, MKACTIVITY, UNSUBSCRIBE, PURGE} ==> i == 2)
  }

  lemma {:induction false} PartsEarly()
    ensures Parts(CONNECT, CHECKOUT, 1, 'H') && Parts(CONNECT, COPY, 2, 'P') && Parts(MKCOL, MOVE, 1, 'O') && Parts(MKCOL, MERGE, 1, 'E')
    ensures Parts(MKCOL, MSEARCH, 1, '-') && Parts(MKCOL, MKACTIVITY, 2, 'A') && Parts(SUBSCRIBE, SEARCH, 1, 'E')
  {
  }

  lemma {:induction false} PartsLate()
    ensures Parts(POST, PROPFIND, 1, 'R') && Parts(POST, PUT, 1, 'U') && Parts(POST, PATCH, 1, 'A') && Parts(PUT, PURGE, 2, 'R')
    ensures Parts(UNLOCK, UNSUBSCRIBE, 2, 'S') && Parts(PROPFIND, PROPPATCH, 4, 'P')
  {
  }

  /** It turns to another one, whose name has the same beginning. */
  lemma {:induction false} TurnsTo(p: Parser, ch: char)
    requires OnMethod(p, ch).Go? && OnMethod(p, ch).p.verb != p.verb && p.index >= 1
    ensures Parts(p.verb, OnMethod(p, ch).p.verb, p.index, ch)
  {
    PartsEarly();
    PartsLate();
    hide Parts, Spelling;
  }

  lemma {:induction false} StepForm(p: Parser, ch: char)
    requires OnMethod(p, ch).Go?
    ensures var s := OnMethod(p, ch); !s.again && s.acts == [] && s.p == p.(verb := s.p.verb, index := (p.index + 1) % 256, state := s.p.state)
    ensures OnMethod(p, ch).p.state != p.state ==> ch == ' ' && p.index == |NameOf(p.verb)| && OnMethod(p, ch).p == p.(index := (p.index + 1) % 256, state := ReqSpacesBeforeUrl)
  {
    Spelled(p.verb);
    hide NameOf, Spelling;
  }

  lemma {:induction false} LikeMore(w: string, v: Method, ch: char)
    requires Like(w, v) && |w| < |NameOf(v)| && (ch == NameOf(v)[|w|] || (|w| == 2 && Slips(v, ch)))
    ensures Like(w + [ch], v)
  {
    hide NameOf, Slips;
  }

  lemma {:induction false} LikeOther(w: string, v: Method, u: Method)
    requires Like(w, v) && |w| <= |NameOf(u)| && NameOf(u)[..|w|] == NameOf(v)[..|w|] && (|w| <= 2 || (v == PROPFIND && u == PROPPATCH))
    ensures Like(w, u)
  {
    hide NameOf;
    forall k | 0 <= k < |w| ensures w[k] == NameOf(u)[k] || (k == 2 && Slips(u, w[2])) {
      assert NameOf(u)[..|w|][k] == NameOf(v)[..|w|][k];
    }
  }

  /** A step inside of a word. */
  lemma {:induction false} WordGrows(p: Parser, w: string, ch: char)
    requires InWord(p, w) && OnMethod(p, ch).Go? && OnMethod(p, ch).p.state == ReqMethod
    ensures InWord(OnMethod(p, ch).p, w + [ch])
  {
    hide OnMethod, NameOf, Like, Slips;
    StepForm(p, ch);
    Spelled(p.verb);
    var v := OnMethod(p, ch).p.verb;
    Spelled(v);
    LikeLength(w, p.verb);
    if v == p.verb {
      Stays(p, ch);
    } else {
      TurnsTo(p, ch);
      LikeOther(w, p.verb, v);
    }
    LikeMore(w, v, ch);
  }

  lemma {:induction false} LikeLength(w: string, v: Method)
    requires Like(w, v)
    ensures |w| <= |NameOf(v)|
  {
  }

  // ---------- exactly ----------

  lemma {:induction false} StartOnly(p: Parser, ch: char)
    requires p.state == StartReq && ch != CR && ch != LF && OnStart(p, ch).Go?
    ensures FirstVerb(ch).Some? && OnStart(p, ch) == Go(StartMessage(p).(verb := FirstVerb(ch).value, index := 1, state := ReqMethod), [Say(MessageBegin)], false)
  {
    hide FirstVerb;
  }

  lemma {:induction false} WordFirst(skip: Parser -> bool, p: Parser, ch: char)
    requires p.state == StartReq && p.errno == OK && p.nread < MAX_HEADER_SIZE && ch != CR && ch != LF && Feed(skip, p, [ch]).Fine?
    ensures var q := FedTo(skip, p, [ch]); InWord(q, [ch]) && q.nread == p.nread + 1
  {
    hide Switch, FirstVerb, OnStart, NameOf;
    var q := p.(nread := p.nread + 1);
    assert Count(p) == q;
    StartSwitch(q, ch, skip(q));
    var r := ByteStep(skip, p, ch);
    assert r.Fine?;
    StartLeaves(q, ch);
    StartOnly(q, ch);
    FirstLike(ch);
    FeedsByte(skip, p, ch, r.p, r.events);
    Spelled(FirstVerb(ch).value);
  }

  lemma {:induction false} StartLeaves(p: Parser, ch: char)
    ensures !OnStart(p, ch).Leave?
  {
    hide FirstVerb;
  }

  lemma {:induction false} MethodLeaves(p: Parser, ch: char)
    ensures !OnMethod(p, ch).Leave?
  {
    hide Spelling;
  }

  /** A byte inside of a word, or the space behind it. */
  lemma {:induction false} WordByte(skip: Parser -> bool, p: Parser, w: string, ch: char)
    requires InWord(p, w) && p.nread < MAX_HEADER_SIZE && ByteStep(skip, p, ch).Fine?
    ensures var q := ByteStep(skip, p, ch).p;
      if q.state == ReqMethod then InWord(q, w + [ch]) && q.nread == p.nread + 1
      else ch == ' ' && q.state == ReqSpacesBeforeUrl && q.verb == p.verb && Resembles(w, p.verb)
  {
    hide Switch, OnMethod, NameOf, Like, Events, OpenData;
    var q := p.(nread := p.nread + 1);
    assert Count(p) == q;
    MethodSwitch(q, ch, skip(q));
    MethodLeaves(q, ch);
    assert OnMethod(q, ch).Go?;
    StepForm(q, ch);
    assert ByteStep(skip, p, ch).p == OnMethod(q, ch).p;
    if OnMethod(q, ch).p.state == ReqMethod { WordGrows(q, w, ch); }
  }

  /** The parser is still reading a method after every character of the word. */
  ghost predicate ReadOn(skip: Parser -> bool, p: Parser, w: string) {
    forall i :: 1 <= i <= |w| ==> Feed(skip, p, w[..i]).Fine? && FedTo(skip, p, w[..i]).state == ReqMethod
  }

  lemma {:induction false} WordRead(skip: Parser -> bool, p: Parser, w: string, i: nat)
    requires p.state == StartReq && p.errno == OK && 1 <= i <= |w| && w[0] != CR && w[0] != LF && p.nread + |w| <= MAX_HEADER_SIZE
    requires ReadOn(skip, p, w)
    ensures var q := FedTo(skip, p, w[..i]); InWord(q, w[..i]) && q.nread == p.nread + i
    decreases i
  {
    hide FedTo, InWord, ByteStep;
    if i == 1 {
      assert w[..1] == [w[0]];
      WordFirst(skip, p, w[0]);
    } else {
      WordRead(skip, p, w, i - 1);
      var q, ch := FedTo(skip, p, w[..i - 1]), w[i - 1];
      assert w[..i] == w[..i - 1] + [ch];
      LastByte(skip, p, w[..i - 1], ch);
      WordByte(skip, q, w[..i - 1], ch);
    }
  }

  /** The last byte of a stretch that goes well. */
  lemma {:induction false} LastByte(skip: Parser -> bool, p: Parser, s: string, ch: char)
    requires Feed(skip, p, s).Fine? && Feed(skip, p, s + [ch]).Fine?
    ensures ByteStep(skip, FedTo(skip, p, s), ch).Fine? && FedTo(skip, p, s + [ch]) == ByteStep(skip, FedTo(skip, p, s), ch).p
  {
    hide ByteStep;
    FeedAppend(skip, p, s, [ch]);
    var q := FedTo(skip, p, s);
    assert [ch][1..] == "";
    assert Feed(skip, q, [ch]) == match ByteStep(skip, q, ch) case Fine(r, es) => Later(es, Feed(skip, r, "")) case other => other;
  }

  /** The word and the space behind it are read as this method. */
  ghost predicate ReadAs(skip: Parser -> bool, p: Parser, w: string, v: Method) {
    && ReadOn(skip, p, w) && Feed(skip, p, w + " ").Fine?
    && FedTo(skip, p, w + " ").state == ReqSpacesBeforeUrl && FedTo(skip, p, w + " ").verb == v
  }

  /** A word is read as a method exactly if it is the method's name, but for a third character
      that is not looked at. */
  lemma {:induction false} MethodExact(skip: Parser -> bool, p: Parser, w: string, v: Method)
    requires p.state == StartReq && p.errno == OK && w != "" && w[0] != CR && w[0] != LF && p.nread + |w| + 1 <= MAX_HEADER_SIZE
    ensures ReadAs(skip, p, w, v) <==> Resembles(w, v)
  {
    hide FedTo, Feed, InWord, ByteStep, Resembles;
    if Resembles(w, v) { ResemblingRead(skip, p, w, v); }
    if ReadAs(skip, p, w, v) {
      WordRead(skip, p, w, |w|);
      assert w[..|w|] == w;
      LastByte(skip, p, w, ' ');
      WordByte(skip, FedTo(skip, p, w), w, ' ');
    }
  }

  lemma {:induction false} ResemblingRead(skip: Parser -> bool, p: Parser, w: string, v: Method)
    requires p.state == StartReq && p.errno == OK && Resembles(w, v) && p.nread + |w| + 1 <= MAX_HEADER_SIZE
    ensures ReadAs(skip, p, w, v)
  {
    hide Resembles, InMethod, Same, Feed;
    SameLength(w, v);
    forall i | 1 <= i <= |w| ensures Feed(skip, p, w[..i]).Fine? && FedTo(skip, p, w[..i]).state == ReqMethod {
      TakenRest(skip, p, v, w, i);
      InMethodState(p, v, i);
    }
    TakenRest(skip, p, v, w, |w|);
    assert w[..|w|] == w;
    InMethodState(p, v, |w|);
    LastGuess(v);
    MethodSpace(skip, InMethod(p, v, |w|), v);
    FeedsThen(skip, p, w, [MessageBegin], " ", []);
  }

  lemma {:induction false} SameLength(w: string, v: Method)
    requires Resembles(w, v)
    ensures |w| == |NameOf(v)| >= 1
  {
    Spelled(v);
  }

  lemma {:induction false} InMethodState(p: Parser, v: Method, i: nat)
    ensures var q := InMethod(p, v, i); q.state == ReqMethod && q.verb == Guess(v, i) && q.index == i && q.nread == p.nread + i
  {
  }

  /** GEX is read as GET, and so is GE with two spaces behind it. */
  lemma {:induction false} SlipExample(skip: Parser -> bool)
    ensures ReadAs(skip, Init(Request), "GEX", GET) && ReadAs(skip, Init(Request), "GE ", GET)
  {
    hide ReadAs;
    MethodExact(skip, Init(Request), "GEX", GET);
    MethodExact(skip, Init(Request), "GE ", GET);
  }
}
