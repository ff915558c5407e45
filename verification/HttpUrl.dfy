/** Splitting a URL into its parts: one pass with the URL automaton, a second pass over the
    server part, and the port number. */
module HttpUrl {
  import opened Options
  import opened HttpState

  datatype Part = Schema | Host | Port | Path | Query | Fragment | Userinfo

  /** A run of the buffer; both numbers are 16 bits wide. */
  datatype Span = Span(off: nat, len: nat)

  /** The result record: a span for every part, valid if the part is in `present`. */
  datatype Parts = Parts(spans: Spans, present: set<Part>)

  type Spans = s: seq<Span> | |s| == 7 witness [Span(0, 0), Span(0, 0), Span(0, 0), Span(0, 0), Span(0, 0), Span(0, 0), Span(0, 0)]

  function Index(f: Part): (i: nat)
    ensures i < 7
  {
    match f
    case Schema => 0 case Host => 1 case Port => 2 case Path => 3 case Query => 4 case Fragment => 5 case Userinfo => 6
  }

  datatype HostState =
    | HostDead | UserinfoStart | InUserinfo | HostStart | V6Start | InHost | InV6 | V6End | PortStart | InPort

  function U16(n: nat): nat { n % 0x1_0000 }

  function Zeroed(): Parts {
    Parts(seq(7, i => Span(0, 0)), {})
  }

  // ---------- the two passes ----------

  /** The part a state of the URL automaton belongs to; the others are delimiters. */
  function PartOf(s: State): Option<Part> {
    match s
    case ReqSchema => Some(Schema)
    case ReqServer => Some(Host)
    case ReqServerWithAt => Some(Host)
    case ReqPath => Some(Path)
    case ReqQueryString => Some(Query)
    case ReqFragment => Some(Fragment)
    case _ => None
  }

  /** Let the byte at `pos` start a part or, if it is the part of the byte before, extend it. */
  function Extend(u: Parts, part: Part, starts: bool, pos: nat): Parts {
    if starts then Parts(u.spans[Index(part) := Span(U16(pos), 1)], u.present + {part})
    else u.(spans := u.spans[Index(part) := Span(u.spans[Index(part)].off, U16(u.spans[Index(part)].len + 1))])
  }

  datatype Scan = Scan(s: State, last: Option<Part>, foundAt: bool, u: Parts)

  function ScanChar(x: Scan, ch: char, pos: nat): (r: Option<Scan>)
  {
    var s := ParseUrlChar(x.s, ch);
    if s == Dead then None else
    match PartOf(s)
    case None => Some(x.(s := s))
    case Some(part) => Some(Scan(s, Some(part), x.foundAt || s.ReqServerWithAt?, Extend(x.u, part, x.last != Some(part), pos)))
  }

  function ScanFrom(x: Scan, buf: string, pos: nat): (r: Option<Scan>)
    requires pos <= |buf|
    decreases |buf| - pos
  {
    if pos == |buf| then Some(x) else
    match ScanChar(x, buf[pos], pos)
    case None => None
    case Some(x') => ScanFrom(x', buf, pos + 1)
  }

  function HostChar(s: HostState, ch: char): HostState {
    match s
    case InUserinfo => UserinfoChar(ch)
    case UserinfoStart => UserinfoChar(ch)
    case HostStart => if ch == '[' then V6Start else if IsHostChar(ch) then InHost else HostDead
    case InHost => if IsHostChar(ch) then InHost else if ch == ':' then PortStart else HostDead
    case V6End => if ch == ':' then PortStart else HostDead
    case InV6 => if ch == ']' then V6End else if IsHex(ch) || ch == ':' then InV6 else HostDead
    case V6Start => if IsHex(ch) || ch == ':' then InV6 else HostDead
    case InPort => if IsNum(ch) then InPort else HostDead
    case PortStart => if IsNum(ch) then InPort else HostDead
    case HostDead => HostDead
  }

  function UserinfoChar(ch: char): HostState {
    if ch == '@' then HostStart else if IsUserinfoChar(ch) then InUserinfo else HostDead
  }

  /** The host keeps its place in `present`; its span moves to where the name starts. */
  function HostStep(s: HostState, s': HostState, u: Parts, pos: nat): Parts {
    match s'
    case InHost => u.(spans := u.spans[Index(Host) := Span(if s.InHost? then u.spans[Index(Host)].off else U16(pos), U16(u.spans[Index(Host)].len + 1))])
    case InV6 => u.(spans := u.spans[Index(Host) := Span(if s.InV6? then u.spans[Index(Host)].off else U16(pos), U16(u.spans[Index(Host)].len + 1))])
    case InPort => Extend(u, Port, !s.InPort?, pos)
    case InUserinfo => Extend(u, Userinfo, !s.InUserinfo?, pos)
    case _ => u
  }

  function HostFrom(s: HostState, u: Parts, buf: string, pos: nat, end: nat): (r: Option<Parts>)
    requires end <= |buf|
    decreases end - pos
  {
    if pos >= end then
      if s.HostStart? || s.V6Start? || s.InV6? || s.PortStart? || s.InUserinfo? || s.UserinfoStart? then None else Some(u)
    else
      var s' := HostChar(s, buf[pos]);
      if s' == HostDead then None else HostFrom(s', HostStep(s, s', u, pos), buf, pos + 1, end)
  }

  /** The second pass looks at the bytes of the server part, which it then divides. */
  function SplitHost(u: Parts, foundAt: bool, buf: string): (r: Option<Parts>)
    requires u.spans[Index(Host)].off + u.spans[Index(Host)].len <= |buf|
  {
    var h := u.spans[Index(Host)];
    HostFrom(if foundAt then UserinfoStart else HostStart, u.(spans := u.spans[Index(Host) := Span(h.off, 0)]), buf, h.off, h.off + h.len)
  }

  /** strtoul: the number at the front of what lies in memory. */
  function Number(digits: string, acc: nat): nat {
    if digits == [] || !IsNum(digits[0]) then acc else Number(digits[1..], acc * 10 + Digit(digits[0]))
  }

  // ---------- what the first pass keeps ----------

  function Rank(f: Part): nat {
    match f
    case Schema => 0 case Userinfo => 1 case Host => 2 case Port => 3 case Path => 4 case Query => 5 case Fragment => 6
  }

  function End(u: Parts, f: Part): nat {
    u.spans[Index(f)].off + u.spans[Index(f)].len
  }

  /** The parts lie one after the other, in this order, within the first `hi` bytes. */
  ghost predicate Ordered(u: Parts, hi: nat) {
    && (forall f :: f in u.present ==> u.spans[Index(f)].len > 0 && End(u, f) <= hi)
    && (forall f, g :: f in u.present && g in u.present && Rank(f) < Rank(g) ==> End(u, f) <= u.spans[Index(g)].off)
  }

  ghost predicate Covers(u: Parts, i: nat) {
    exists f :: f in u.present && u.spans[Index(f)].off <= i < End(u, f)
  }

  predicate IsDelimiter(ch: char) { ch in ":/?#" }

  /** Where the automaton may be when `last` is the last part that was begun. */
  predicate Linked(s: State, last: Option<Part>) {
    match s
    case ReqSpacesBeforeUrl => last == None
    case ReqSchemaSlash => last == Some(Schema)
    case ReqSchemaSlashSlash => last == Some(Schema)
    case ReqServerStart => last == Some(Schema) || last == None
    case ReqQueryStringStart => last.None? || Rank(last.value) <= 4
    case ReqFragmentStart => last.None? || Rank(last.value) <= 5
    case _ => PartOf(s).Some? && last == PartOf(s)
  }

  /** Parts are begun in order, and `last` is the last one begun. */
  ghost predicate Begun(u: Parts, last: Option<Part>) {
    && u.present <= {Schema, Host, Path, Query, Fragment}
    && (last.None? ==> u.present == {})
    && (last.Some? ==> last.value in u.present && forall f :: f in u.present ==> Rank(f) <= Rank(last.value))
  }

  /** Every byte before `hi` belongs to a part or is a delimiter. */
  ghost predicate Accounted(u: Parts, buf: string, hi: nat)
    requires hi <= |buf|
  {
    forall i :: 0 <= i < hi ==> Covers(u, i) || IsDelimiter(buf[i])
  }

  /** Once the server part has ended, a slash or a question mark follows it. */
  ghost predicate HostClosed(s: State, u: Parts, buf: string, pos: nat)
    requires pos <= |buf|
  {
    && (Host !in u.present ==> u.spans[Index(Host)] == Span(0, 0))
    && (Host in u.present && PartOf(s) != Some(Host) ==>
          End(u, Host) < pos && (buf[End(u, Host)] == '/' || buf[End(u, Host)] == '?'))
  }

  ghost predicate ScanOk(x: Scan, buf: string, pos: nat) {
    && pos <= |buf| && Ordered(x.u, pos) && Linked(x.s, x.last) && Begun(x.u, x.last)
    && (PartOf(x.s).Some? ==> End(x.u, x.last.value) == pos)
    && Accounted(x.u, buf, pos) && HostClosed(x.s, x.u, buf, pos)
  }

  /** A byte of the first pass from `s` to `s'`. */
  predicate LinkedTo(s: State, last: Option<Part>, ch: char, s': State) {
    && (match PartOf(s')
        case None => IsDelimiter(ch) && Linked(s', last)
        case Some(part) => Linked(s', Some(part))
                           && (if last == Some(part) then PartOf(s) == last else last.Some? ==> Rank(last.value) < Rank(part)))
    && (PartOf(s) == Some(Host) && PartOf(s') != Some(Host) ==> ch == '/' || ch == '?')
  }

  predicate InScheme(s: State) {
    s.ReqSpacesBeforeUrl? || s.ReqSchema? || s.ReqSchemaSlash? || s.ReqSchemaSlashSlash?
  }

  lemma {:induction false} LinkedScheme(s: State, last: Option<Part>, ch: char)
    requires InScheme(s) && Linked(s, last) && ParseUrlChar(s, ch) != Dead
    ensures LinkedTo(s, last, ch, ParseUrlChar(s, ch))
  {
    hide IsUrlChar, IsUserinfoChar, IsAlpha, ServerChar, QueryChar;
  }

  lemma {:induction false} LinkedServer(s: State, last: Option<Part>, ch: char)
    requires (s.ReqServerStart? || s.ReqServer? || s.ReqServerWithAt?) && Linked(s, last) && ParseUrlChar(s, ch) != Dead
    ensures LinkedTo(s, last, ch, ParseUrlChar(s, ch))
  {
    hide IsUrlChar, IsUserinfoChar, IsAlpha, QueryChar;
  }

  lemma {:induction false} LinkedTail(s: State, last: Option<Part>, ch: char)
    requires !InScheme(s) && !s.ReqServerStart? && !s.ReqServer? && !s.ReqServerWithAt? && Linked(s, last) && ParseUrlChar(s, ch) != Dead
    ensures LinkedTo(s, last, ch, ParseUrlChar(s, ch))
  {
    hide IsUrlChar, IsUserinfoChar, IsAlpha, ServerChar;
  }

  /** The automaton visits the parts in order, each at most once and without a break; only
      delimiters belong to no part. */
  lemma {:induction false} LinkedStep(s: State, last: Option<Part>, ch: char)
    requires Linked(s, last) && ParseUrlChar(s, ch) != Dead
    ensures LinkedTo(s, last, ch, ParseUrlChar(s, ch))
  {
    hide ParseUrlChar, Linked, LinkedTo;
    if InScheme(s) {
      LinkedScheme(s, last, ch);
    } else if s.ReqServerStart? || s.ReqServer? || s.ReqServerWithAt? {
      LinkedServer(s, last, ch);
    } else {
      LinkedTail(s, last, ch);
    }
  }

  /** Let `part` end at `pos`, behind all others. */
  lemma {:induction false} LastOrdered(u: Parts, u': Parts, part: Part, pos: nat)
    requires Ordered(u, pos) && (forall f :: f in u.present ==> Rank(f) <= Rank(part))
    requires u'.present == u.present + {part} && (forall f :: f != part ==> u'.spans[Index(f)] == u.spans[Index(f)])
    requires u'.spans[Index(part)].len > 0 && End(u', part) == pos + 1
    requires u'.spans[Index(part)].off == if part in u.present then u.spans[Index(part)].off else pos
    ensures Ordered(u', pos + 1)
  {
    hide Index;
    forall f, g | f in u'.present && g in u'.present && Rank(f) < Rank(g) ensures End(u', f) <= u'.spans[Index(g)].off {
      assert f != part && f in u.present;
      assert End(u', f) == End(u, f);
    }
  }

  lemma {:induction false} ExtendOrdered(u: Parts, part: Part, starts: bool, pos: nat)
    requires pos < 0xFFFF && Ordered(u, pos) && forall f :: f in u.present ==> Rank(f) <= Rank(part)
    requires if starts then part !in u.present else part in u.present && End(u, part) == pos
    ensures var u' := Extend(u, part, starts, pos);
      && Ordered(u', pos + 1) && u'.present == u.present + {part}
      && (forall f :: f != part ==> u'.spans[Index(f)] == u.spans[Index(f)])
      && End(u', part) == pos + 1 && u'.spans[Index(part)].off == if starts then pos else u.spans[Index(part)].off
  {
    assert forall f :: f != part ==> Index(f) != Index(part);
    assert U16(pos) == pos && (!starts ==> U16(u.spans[Index(part)].len + 1) == u.spans[Index(part)].len + 1);
    hide Ordered, U16, Rank, Index;
    var u' := Extend(u, part, starts, pos);
    assert u'.present == u.present + {part};
    LastOrdered(u, u', part, pos);
  }

  lemma {:induction false} ExtendCovers(u: Parts, part: Part, starts: bool, pos: nat)
    requires Ordered(u, pos) && pos < 0xFFFF && forall f :: f in u.present ==> Rank(f) <= Rank(part)
    requires if starts then part !in u.present else part in u.present && End(u, part) == pos
    ensures var u' := Extend(u, part, starts, pos);
      (forall i :: 0 <= i < pos && Covers(u, i) ==> Covers(u', i)) && Covers(u', pos)
  {
    hide Rank, Index, Extend, Ordered;
    var u' := Extend(u, part, starts, pos);
    ExtendOrdered(u, part, starts, pos);
    forall i | 0 <= i < pos && Covers(u, i) ensures Covers(u', i) {
      var f :| f in u.present && u.spans[Index(f)].off <= i < End(u, f);
      assert f in u'.present && u'.spans[Index(f)].off <= i < End(u', f);
    }
    assert part in u'.present && u'.spans[Index(part)].off <= pos < End(u', part);
  }

  /** A byte that belongs to a part. */
  lemma {:induction false} PartStep(x: Scan, s': State, part: Part, foundAt: bool, buf: string, pos: nat)
    requires ScanOk(x, buf, pos) && pos < |buf| <= 0xFFFF
    requires PartOf(s') == Some(part) && Linked(s', Some(part)) && part in {Schema, Host, Path, Query, Fragment}
    requires if x.last == Some(part) then PartOf(x.s) == x.last else x.last.Some? ==> Rank(x.last.value) < Rank(part)
    requires PartOf(x.s) == Some(Host) && part != Host ==> buf[pos] == '/' || buf[pos] == '?'
    ensures ScanOk(Scan(s', Some(part), foundAt, Extend(x.u, part, x.last != Some(part), pos)), buf, pos + 1)
  {
    hide Linked, Begun, Accounted, HostClosed, Extend, Ordered, Covers, End, Rank, Index, PartOf;
    LinkedPart(x.s, x.last);
    var u' := Extend(x.u, part, x.last != Some(part), pos);
    BegunStep(x.u, x.last, part, u') by { ExtendPresent(x.u, part, x.last != Some(part), pos); }
    ExtendOrdered(x.u, part, x.last != Some(part), pos);
    ExtendCovers(x.u, part, x.last != Some(part), pos);
    AccountedStep(x.u, u', buf, pos);
    HostClosedStep(x, s', part, u', buf, pos);
  }

  lemma {:induction false} LinkedPart(s: State, last: Option<Part>)
    requires Linked(s, last)
    ensures PartOf(s).Some? ==> PartOf(s) == last
  {
  }

  lemma {:induction false} ExtendPresent(u: Parts, part: Part, starts: bool, pos: nat)
    ensures Extend(u, part, starts, pos).present == if starts then u.present + {part} else u.present
  {
  }

  /** The part of this byte is the last one begun, before or now. */
  lemma {:induction false} BegunStep(u: Parts, last: Option<Part>, part: Part, u': Parts)
    requires Begun(u, last) && part in {Schema, Host, Path, Query, Fragment}
    requires last != Some(part) && last.Some? ==> Rank(last.value) < Rank(part)
    requires u'.present == if last != Some(part) then u.present + {part} else u.present
    ensures Begun(u', Some(part)) && (forall f :: f in u.present ==> Rank(f) <= Rank(part)) && (last != Some(part) <==> part !in u.present)
  {
    hide Rank;
  }

  lemma {:induction false} AccountedStep(u: Parts, u': Parts, buf: string, pos: nat)
    requires pos < |buf| && Accounted(u, buf, pos) && (forall i :: 0 <= i < pos && Covers(u, i) ==> Covers(u', i)) && Covers(u', pos)
    ensures Accounted(u', buf, pos + 1)
  {
    hide Covers, IsDelimiter;
  }

  lemma {:induction false} HostClosedStep(x: Scan, s': State, part: Part, u': Parts, buf: string, pos: nat)
    requires pos < |buf| && HostClosed(x.s, x.u, buf, pos) && PartOf(s') == Some(part) && (PartOf(x.s).Some? ==> PartOf(x.s) == x.last)
    requires PartOf(x.s).Some? ==> End(x.u, x.last.value) == pos
    requires PartOf(x.s) == Some(Host) && part != Host ==> buf[pos] == '/' || buf[pos] == '?'
    requires u'.present == x.u.present + {part} && forall f :: f != part ==> u'.spans[Index(f)] == x.u.spans[Index(f)]
    ensures HostClosed(s', u', buf, pos + 1)
  {
    if part != Host { assert u'.spans[Index(Host)] == x.u.spans[Index(Host)]; }
    hide Index, PartOf;
  }

  lemma {:induction false} ScanStep(x: Scan, buf: string, pos: nat)
    requires ScanOk(x, buf, pos) && pos < |buf| <= 0xFFFF && ScanChar(x, buf[pos], pos).Some?
    ensures ScanOk(ScanChar(x, buf[pos], pos).value, buf, pos + 1)
  {
    hide ScanOk, ParseUrlChar, IsDelimiter, Linked, Rank, PartOf, Extend, Index;
    var s' := ParseUrlChar(x.s, buf[pos]);
    var part := PartOf(s');
    assert Linked(x.s, x.last) by { ScanLinked(x, buf, pos); }
    LinkedStep(x.s, x.last, buf[pos]);
    if part.Some? {
      FirstPassPart(s');
      PartStep(x, s', part.value, x.foundAt || s'.ReqServerWithAt?, buf, pos);
    } else {
      DelimiterStep(x, s', buf, pos);
    }
  }

  lemma {:induction false} ScanLinked(x: Scan, buf: string, pos: nat)
    requires ScanOk(x, buf, pos)
    ensures Linked(x.s, x.last)
  {
  }

  lemma {:induction false} FirstPassPart(s: State)
    requires PartOf(s).Some?
    ensures PartOf(s).value in {Schema, Host, Path, Query, Fragment}
  {
  }

  /** A byte that belongs to no part. */
  lemma {:induction false} DelimiterStep(x: Scan, s': State, buf: string, pos: nat)
    requires ScanOk(x, buf, pos) && pos < |buf| && PartOf(s') == None && LinkedTo(x.s, x.last, buf[pos], s')
    ensures ScanOk(x.(s := s'), buf, pos + 1)
  {
    hide Linked, Rank, Index, IsDelimiter, Covers, Begun;
    LinkedPart(x.s, x.last);
  }

  // ---------- what the second pass keeps ----------

  predicate NameBegun(s: HostState) {
    s.InHost? || s.InV6? || s.V6End? || s.PortStart? || s.InPort?
  }

  predicate IsSeparator(ch: char) { ch in ":/?#@[]" }

  /** User, name and port lie one after the other in the server part, which begins at `lo`. */
  ghost predicate HostOrdered(s: HostState, u: Parts, lo: nat, pos: nat) {
    && (Userinfo in u.present ==>
          && u.spans[Index(Userinfo)].off == lo && u.spans[Index(Userinfo)].len > 0 && End(u, Userinfo) <= pos
          && (NameBegun(s) ==> End(u, Userinfo) <= u.spans[Index(Host)].off))
    && (s.UserinfoStart? ==> pos == lo && Userinfo !in u.present)
    && (s.InUserinfo? ==> Userinfo in u.present && End(u, Userinfo) == pos)
    && (if NameBegun(s) then u.spans[Index(Host)].len > 0 && lo <= u.spans[Index(Host)].off && End(u, Host) <= pos
        else u.spans[Index(Host)].len == 0)
    && (s.InHost? || s.InV6? ==> End(u, Host) == pos)
    && (s.InPort? <==> Port in u.present)
    && (s.InPort? ==> u.spans[Index(Port)].len > 0 && End(u, Port) == pos && End(u, Host) <= u.spans[Index(Port)].off)
  }

  predicate InSpan(sp: Span, i: nat) {
    sp.off <= i < sp.off + sp.len
  }

  ghost predicate HostCovers(u: Parts, i: nat) {
    || (Userinfo in u.present && InSpan(u.spans[Index(Userinfo)], i))
    || InSpan(u.spans[Index(Host)], i)
    || (Port in u.present && InSpan(u.spans[Index(Port)], i))
  }

  ghost predicate HostOk(s: HostState, u: Parts, lo: nat, buf: string, pos: nat) {
    && lo <= pos <= |buf| && s != HostDead && Host in u.present && HostOrdered(s, u, lo, pos)
    && (forall i :: lo <= i < pos ==> HostCovers(u, i) || IsSeparator(buf[i]))
    && (Port in u.present ==> forall i :: u.spans[Index(Port)].off <= i < pos ==> IsNum(buf[i]))
  }

  /** The second pass touches nothing but the server part. */
  ghost predicate OutsideKept(u: Parts, u': Parts) {
    && (forall f :: f in {Schema, Path, Query, Fragment} ==> u'.spans[Index(f)] == u.spans[Index(f)])
    && (forall f :: f in {Schema, Path, Query, Fragment, Host} ==> (f in u'.present <==> f in u.present))
  }

  lemma {:induction false} HostOrderedStep(s: HostState, u: Parts, lo: nat, ch: char, pos: nat)
    requires HostOrdered(s, u, lo, pos) && lo <= pos < 0xFFFF && HostChar(s, ch) != HostDead && Host in u.present
    ensures HostOrdered(HostChar(s, ch), HostStep(s, HostChar(s, ch), u, pos), lo, pos + 1)
  {
    assert U16(pos) == pos;
    assert U16(u.spans[Index(Host)].len + 1) == u.spans[Index(Host)].len + 1;
    assert s.InPort? ==> U16(u.spans[Index(Port)].len + 1) == u.spans[Index(Port)].len + 1;
    assert s.InUserinfo? ==> U16(u.spans[Index(Userinfo)].len + 1) == u.spans[Index(Userinfo)].len + 1;
    hide U16, IsHostChar, IsHex, IsNum, IsUserinfoChar;
  }

  lemma {:induction false} OutsideStep(s: HostState, s': HostState, u: Parts, pos: nat)
    ensures OutsideKept(u, HostStep(s, s', u, pos))
  {
    hide U16;
  }

  lemma {:induction false} HostStepOk(s: HostState, u: Parts, lo: nat, buf: string, pos: nat)
    requires HostOk(s, u, lo, buf, pos) && pos < |buf| <= 0xFFFF && HostChar(s, buf[pos]) != HostDead
    ensures HostOk(HostChar(s, buf[pos]), HostStep(s, HostChar(s, buf[pos]), u, pos), lo, buf, pos + 1)
  {
    HostOrderedStep(s, u, lo, buf[pos], pos);
  }

  lemma {:induction false} HostFromOk(s: HostState, u: Parts, lo: nat, buf: string, pos: nat, end: nat)
    requires HostOk(s, u, lo, buf, pos) && pos <= end <= |buf| <= 0xFFFF && HostFrom(s, u, buf, pos, end).Some?
    ensures var u' := HostFrom(s, u, buf, pos, end).value;
      OutsideKept(u, u') && exists s' :: NameBegun(s') && HostOk(s', u', lo, buf, end)
    decreases end - pos
  {
    if pos >= end {
      assert NameBegun(s);
    } else {
      var s' := HostChar(s, buf[pos]);
      HostStepOk(s, u, lo, buf, pos);
      OutsideStep(s, s', u, pos);
      HostFromOk(s', HostStep(s, s', u, pos), lo, buf, pos + 1, end);
    }
  }

  lemma {:induction false} ScanFromOk(x: Scan, buf: string, pos: nat)
    requires pos <= |buf| <= 0xFFFF && ScanOk(x, buf, pos) && ScanFrom(x, buf, pos).Some?
    ensures ScanOk(ScanFrom(x, buf, pos).value, buf, |buf|)
    decreases |buf| - pos
  {
    hide ScanOk, ScanChar;
    if pos < |buf| {
      ScanStep(x, buf, pos);
      ScanFromOk(ScanChar(x, buf[pos], pos).value, buf, pos + 1);
    }
  }

  // ---------- the whole splitter ----------

  function StartScan(isConnect: bool): Scan {
    Scan(if isConnect then ReqServerStart else ReqSpacesBeforeUrl, None, false, Zeroed())
  }

  lemma {:induction false} StartOk(buf: string, isConnect: bool)
    requires |buf| <= 0xFFFF
    ensures ScanOk(StartScan(isConnect), buf, 0)
    ensures var r := ScanFrom(StartScan(isConnect), buf, 0); r.Some? ==> ScanOk(r.value, buf, |buf|) && End(r.value.u, Host) <= |buf|
  {
    var x := StartScan(isConnect);
    if ScanFrom(x, buf, 0).Some? { ScanFromOk(x, buf, 0); }
  }

  /** The parts of a URL, before the port number is read; nothing if it is rejected. */
  function SplitUrl(buf: string, isConnect: bool): Option<Parts>
    requires |buf| <= 0xFFFF
  {
    StartOk(buf, isConnect);
    match ScanFrom(StartScan(isConnect), buf, 0)
    case None => None
    case Some(x) =>
      if Schema !in x.u.present && Host !in x.u.present then (if isConnect then None else Some(x.u))
      else
        match SplitHost(x.u, x.foundAt, buf)
        case None => None
        case Some(u) => if isConnect && u.present != {Host, Port} then None else Some(u)
  }

  /** The parts of an accepted URL are not empty, lie within the buffer in the order scheme,
      user, host, port, path, query, fragment without overlapping, and every other byte is a
      separator. */
  ghost predicate Partition(u: Parts, buf: string) {
    && Ordered(u, |buf|)
    && forall i :: 0 <= i < |buf| ==> Covers(u, i) || IsSeparator(buf[i])
  }

  /** The port is made of digits and ends with the server part. */
  ghost predicate PortOk(u: Parts, buf: string) {
    Port in u.present ==>
      && End(u, Port) <= |buf|
      && (forall i :: u.spans[Index(Port)].off <= i < End(u, Port) ==> IsNum(buf[i]))
      && (End(u, Port) < |buf| ==> buf[End(u, Port)] == '/' || buf[End(u, Port)] == '?')
  }

  /** Where the second pass starts. */
  function ServerStart(x: Scan): (HostState, Parts) {
    (if x.foundAt then UserinfoStart else HostStart, x.u.(spans := x.u.spans[Index(Host) := Span(x.u.spans[Index(Host)].off, 0)]))
  }

  lemma {:induction false} ServerStartOk(x: Scan, buf: string)
    requires ScanOk(x, buf, |buf|) && Host in x.u.present && End(x.u, Host) <= |buf|
    ensures var (s, u) := ServerStart(x); HostOk(s, u, x.u.spans[Index(Host)].off, buf, x.u.spans[Index(Host)].off) && OutsideKept(x.u, u)
  {
    assert Begun(x.u, x.last);
    hide ScanOk, Ordered, Covers, HostCovers, IsSeparator;
  }

  lemma {:induction false} HostSplitOk(x: Scan, buf: string)
    requires ScanOk(x, buf, |buf|) && |buf| <= 0xFFFF && End(x.u, Host) <= |buf| && SplitHost(x.u, x.foundAt, buf).Some?
    ensures var u := SplitHost(x.u, x.foundAt, buf).value;
      Host in x.u.present && OutsideKept(x.u, u) && exists s :: NameBegun(s) && HostOk(s, u, x.u.spans[Index(Host)].off, buf, End(x.u, Host))
  {
    hide ScanOk, SplitHost, HostFrom, ServerStart, HostOk, OutsideKept, Index, NameBegun;
    var h := x.u.spans[Index(Host)];
    var (s, u1) := ServerStart(x);
    SplitHostFrom(x, buf);
    ServerStartOk(x, buf);
    HostFromOk(s, u1, h.off, buf, h.off, h.off + h.len);
    OutsideTwice(x.u, u1, SplitHost(x.u, x.foundAt, buf).value);
  }

  lemma {:induction false} OutsideTwice(u: Parts, u1: Parts, u2: Parts)
    requires OutsideKept(u, u1) && OutsideKept(u1, u2)
    ensures OutsideKept(u, u2)
  {
    hide Index;
  }

  /** There is a server part when the second pass accepts it. */
  lemma {:induction false} SplitHostFrom(x: Scan, buf: string)
    requires ScanOk(x, buf, |buf|) && End(x.u, Host) <= |buf|
    ensures var (s, u1) := ServerStart(x);
      SplitHost(x.u, x.foundAt, buf) == HostFrom(s, u1, buf, x.u.spans[Index(Host)].off, End(x.u, Host))
    ensures SplitHost(x.u, x.foundAt, buf).Some? ==> Host in x.u.present
  {
    hide Ordered, Linked, Begun, Accounted;
    assert HostClosed(x.s, x.u, buf, |buf|);
  }

  /** Putting the second pass's parts in place of the server part keeps the parts in order. */
  predicate InServer(f: Part) { f == Userinfo || f == Host || f == Port }

  lemma {:induction false} ServerPart(u: Parts, s: HostState, lo: nat, hi: nat, f: Part)
    requires HostOrdered(s, u, lo, hi) && NameBegun(s) && InServer(f) && f in u.present
    ensures lo <= u.spans[Index(f)].off && End(u, f) <= hi && u.spans[Index(f)].len > 0
    ensures forall g :: InServer(g) && g in u.present && Rank(f) < Rank(g) ==> End(u, f) <= u.spans[Index(g)].off
  {
  }

  /** A part lies inside the place of the server part, or where it was. */
  lemma {:induction false} JoinPart(v: Parts, u: Parts, s: HostState, f: Part)
    requires Host in v.present && OutsideKept(v, u) && f in u.present && NameBegun(s)
    requires HostOrdered(s, u, v.spans[Index(Host)].off, End(v, Host))
    ensures u.spans[Index(f)].len > 0 || !InServer(f)
    ensures if InServer(f) then v.spans[Index(Host)].off <= u.spans[Index(f)].off && End(u, f) <= End(v, Host)
            else f in v.present && u.spans[Index(f)] == v.spans[Index(f)]
  {
    if InServer(f) {
      hide OutsideKept;
      ServerPart(u, s, v.spans[Index(Host)].off, End(v, Host), f);
    }
  }

  lemma {:induction false} ServerRank(f: Part, g: Part)
    ensures InServer(f) && !InServer(g) ==> (Rank(f) < Rank(g) <==> Rank(Host) < Rank(g)) && (Rank(g) < Rank(f) <==> Rank(g) < Rank(Host))
  {
  }

  lemma {:induction false} JoinOrdered(v: Parts, u: Parts, s: HostState, n: nat)
    requires Ordered(v, n) && Host in v.present && OutsideKept(v, u) && Host in u.present && NameBegun(s)
    requires HostOrdered(s, u, v.spans[Index(Host)].off, End(v, Host))
    ensures Ordered(u, n)
  {
    hide OutsideKept, HostOrdered, InServer, Rank, Index;
    forall f | f in u.present ensures u.spans[Index(f)].len > 0 && End(u, f) <= n { JoinPart(v, u, s, f); }
    forall f, g | f in u.present && g in u.present && Rank(f) < Rank(g) ensures End(u, f) <= u.spans[Index(g)].off {
      JoinPart(v, u, s, f);
      JoinPart(v, u, s, g);
      ServerRank(f, g);
      ServerRank(g, f);
      if InServer(f) && InServer(g) { ServerPart(u, s, v.spans[Index(Host)].off, End(v, Host), f); }
    }
  }

  lemma {:induction false} JoinCovers(x: Scan, u: Parts, s: HostState, buf: string, i: nat)
    requires ScanOk(x, buf, |buf|) && Host in x.u.present && OutsideKept(x.u, u) && NameBegun(s) && i < |buf|
    requires HostOk(s, u, x.u.spans[Index(Host)].off, buf, End(x.u, Host))
    ensures Covers(u, i) || IsSeparator(buf[i])
  {
    hide Linked, Ordered, HostOrdered;
    if Covers(x.u, i) {
      var f :| f in x.u.present && x.u.spans[Index(f)].off <= i < End(x.u, f);
      if f == Host {
        if HostCovers(u, i) {
          var g := if InSpan(u.spans[Index(Host)], i) then Host else if Userinfo in u.present && InSpan(u.spans[Index(Userinfo)], i) then Userinfo else Port;
          assert g in u.present && u.spans[Index(g)].off <= i < End(u, g);
        }
      } else {
        assert f in u.present && u.spans[Index(f)].off <= i < End(u, f);
      }
    } else {
      assert IsDelimiter(buf[i]);
    }
  }

  lemma {:induction false} AcceptedServer(x: Scan, u: Parts, s: HostState, buf: string)
    requires ScanOk(x, buf, |buf|) && Host in x.u.present && OutsideKept(x.u, u) && NameBegun(s)
    requires HostOk(s, u, x.u.spans[Index(Host)].off, buf, End(x.u, Host))
    ensures Partition(u, buf) && PortOk(u, buf)
  {
    forall i: nat | i < |buf| ensures Covers(u, i) || IsSeparator(buf[i]) { JoinCovers(x, u, s, buf, i); }
    assert PortOk(u, buf) by { hide Covers, Ordered, IsSeparator, IsNum, OutsideKept; }
    hide Covers, IsSeparator, PortOk;
    JoinOrdered(x.u, u, s, |buf|);
  }

  lemma {:induction false} AcceptedPath(x: Scan, buf: string)
    requires ScanOk(x, buf, |buf|)
    ensures Partition(x.u, buf) && PortOk(x.u, buf)
  {
    assert forall i :: 0 <= i < |buf| && IsDelimiter(buf[i]) ==> IsSeparator(buf[i]);
    assert Begun(x.u, x.last) && Accounted(x.u, buf, |buf|);
    hide ScanOk, Covers, Ordered, IsDelimiter, IsSeparator;
  }

  /** Every URL that is accepted is partitioned into its parts. One with a scheme has a host,
      and one for CONNECT is a host and a port. */
  lemma {:induction false} AcceptedUrl(buf: string, isConnect: bool)
    requires |buf| <= 0xFFFF && SplitUrl(buf, isConnect).Some?
    ensures var u := SplitUrl(buf, isConnect).value;
      && Partition(u, buf) && PortOk(u, buf)
      && (Schema in u.present ==> Host in u.present)
      && (isConnect ==> u.present == {Host, Port})
  {
    StartOk(buf, isConnect);
    var x := ScanFrom(StartScan(isConnect), buf, 0).value;
    hide ScanFrom, ScanOk, HostOk, Partition, PortOk, OutsideKept;
    if Schema !in x.u.present && Host !in x.u.present {
      AcceptedPath(x, buf);
    } else {
      HostSplitOk(x, buf);
      var u := SplitHost(x.u, x.foundAt, buf).value;
      var s :| NameBegun(s) && HostOk(s, u, x.u.spans[Index(Host)].off, buf, End(x.u, Host));
      hide SplitHost;
      AcceptedServer(x, u, s, buf);
      ServerHost(s, u, x.u.spans[Index(Host)].off, buf, End(x.u, Host));
    }
  }

  lemma {:induction false} ServerHost(s: HostState, u: Parts, lo: nat, buf: string, hi: nat)
    requires HostOk(s, u, lo, buf, hi)
    ensures Host in u.present
  {
  }

  // ---------- the port ----------

  /** What strtoul makes of the port: it stops at the first byte that is not a digit, be it
      in the buffer or in the memory behind it. (It cuts numbers above 2^64 - 1 to that one,
      which is refused as they are.) */
  function PortNumber(u: Parts, buf: string, beyond: string): nat
    requires u.spans[Index(Port)].off <= |buf|
  {
    Number(buf[u.spans[Index(Port)].off..] + beyond, 0)
  }

  lemma {:induction false} NumberStops(digits: string, more: string, acc: nat)
    requires more == [] || !IsNum(more[0])
    ensures Number(digits + more, acc) == Number(digits, acc)
    decreases digits
  {
    if digits == [] {
      assert digits + more == more;
    } else {
      assert (digits + more)[1..] == digits[1..] + more;
      if IsNum(digits[0]) { NumberStops(digits[1..], more, acc * 10 + Digit(digits[0])); }
    }
  }

  lemma {:induction false} NumberGoesOn(digits: string, more: string, acc: nat)
    requires forall i :: 0 <= i < |digits| ==> IsNum(digits[i])
    ensures Number(digits + more, acc) == Number(more, Number(digits, acc))
    decreases digits
  {
    if digits == [] {
      assert digits + more == more;
    } else {
      assert (digits + more)[1..] == digits[1..] + more;
      NumberGoesOn(digits[1..], more, acc * 10 + Digit(digits[0]));
    }
  }

  /** A further digit changes a number, unless both are zero. */
  lemma {:induction false} NumberChanges(more: string, acc: nat)
    ensures Number(more, acc) >= acc
    ensures more != [] && IsNum(more[0]) ==> (Number(more, acc) == acc <==> acc == 0 && Number(more, 0) == 0)
    decreases more
  {
    if more != [] && IsNum(more[0]) { NumberChanges(more[1..], acc * 10 + Digit(more[0])); }
  }

  /** A number that is read from a buffer and the memory behind it. */
  lemma {:induction false} NumberExact(buf: string, off: nat, end: nat, beyond: string)
    requires off <= end <= |buf| && (forall i :: off <= i < end ==> IsNum(buf[i])) && (end < |buf| ==> !IsNum(buf[end]))
    ensures var own := Number(buf[off..end], 0);
      Number(buf[off..] + beyond, 0) == own <==> end < |buf| || beyond == [] || !IsNum(beyond[0]) || (own == 0 && Number(beyond, 0) == 0)
  {
    hide Number, IsNum;
    assert buf[off..] + beyond == buf[off..end] + (buf[end..] + beyond);
    if end < |buf| || beyond == [] || !IsNum(beyond[0]) {
      NumberStops(buf[off..end], buf[end..] + beyond, 0);
    } else {
      assert buf[end..] + beyond == beyond;
      NumberGoesOn(buf[off..end], beyond, 0);
      NumberChanges(beyond, Number(buf[off..end], 0));
    }
  }

  /** The port number is the number its digits spell exactly if the port does not end the
      buffer, or no digit lies behind the buffer, or the digits on both sides are all zeros. */
  lemma {:induction false} PortExact(buf: string, isConnect: bool, beyond: string)
    requires |buf| <= 0xFFFF && SplitUrl(buf, isConnect).Some? && Port in SplitUrl(buf, isConnect).value.present
    ensures var u := SplitUrl(buf, isConnect).value;
      && u.spans[Index(Port)].off <= End(u, Port) <= |buf|
      && var own := Number(buf[u.spans[Index(Port)].off..End(u, Port)], 0);
         PortNumber(u, buf, beyond) == own <==>
           End(u, Port) < |buf| || beyond == [] || !IsNum(beyond[0]) || (own == 0 && Number(beyond, 0) == 0)
  {
    hide SplitUrl, Partition, Number, Index;
    AcceptedUrl(buf, isConnect);
    var u := SplitUrl(buf, isConnect).value;
    NumberExact(buf, u.spans[Index(Port)].off, End(u, Port), beyond);
  }

  lemma {:induction false} PortBeyondChars()
    ensures ParseUrlChar(ReqServerStart, 'h') == ParseUrlChar(ReqServer, ':') == ParseUrlChar(ReqServer, '8') == ReqServer
  {
    assert "%;:&=+$,"[2] == ':';
  }

  lemma {:induction false} PortBeyondScan()
    ensures var r := ScanFrom(StartScan(true), "h:8", 0);
      r.Some? && r.value.u == Parts(Zeroed().spans[Index(Host) := Span(0, 3)], {Host}) && !r.value.foundAt
  {
    var buf, z := "h:8", Zeroed().spans;
    hide ParseUrlChar;
    PortBeyondChars();
    var x1 := Scan(ReqServer, Some(Host), false, Parts(z[1 := Span(0, 1)], {Host}));
    var x2 := Scan(ReqServer, Some(Host), false, Parts(z[1 := Span(0, 2)], {Host}));
    var x3 := Scan(ReqServer, Some(Host), false, Parts(z[1 := Span(0, 3)], {Host}));
    assert Extend(Zeroed(), Host, true, 0) == Parts(z[1 := Span(0, 1)], {Host});
    assert ScanChar(StartScan(true), 'h', 0) == Some(x1);
    assert z[1 := Span(0, 1)][1 := Span(0, 2)] == z[1 := Span(0, 2)];
    assert ScanChar(x1, ':', 1) == Some(x2);
    assert z[1 := Span(0, 2)][1 := Span(0, 3)] == z[1 := Span(0, 3)];
    assert ScanChar(x2, '8', 2) == Some(x3);
    hide ScanChar;
    assert ScanFrom(x2, buf, 2) == ScanFrom(x3, buf, 3) == Some(x3);
    assert ScanFrom(StartScan(true), buf, 0) == ScanFrom(x1, buf, 1) == ScanFrom(x2, buf, 2);
  }

  /** CONNECT "h:8" with a "0" behind the buffer: the port's digits say 8, the number is 80. */
  lemma {:induction false} PortBeyond()
    ensures SplitUrl("h:8", true).Some?
    ensures var u := SplitUrl("h:8", true).value;
      u.spans[Index(Port)] == Span(2, 1) && PortNumber(u, "h:8", "0") == 80
  {
    PortBeyondScan();
    hide ScanFrom, ParseUrlChar;
    var buf, z := "h:8", Zeroed().spans;
    assert HostChar(HostStart, 'h') == InHost && HostChar(InHost, ':') == PortStart && HostChar(PortStart, '8') == InPort;
    hide HostChar;
    assert z[1 := Span(0, 3)][1 := Span(0, 0)] == z[1 := Span(0, 0)];
    var v0 := Parts(z[1 := Span(0, 0)], {Host});
    var v1 := HostStep(HostStart, InHost, v0, 0);
    var v3 := HostStep(PortStart, InPort, v1, 2);
    assert HostFrom(PortStart, v1, buf, 2, 3) == HostFrom(InPort, v3, buf, 3, 3) == Some(v3);
    assert HostFrom(HostStart, v0, buf, 0, 3) == HostFrom(InHost, v1, buf, 1, 3) == HostFrom(PortStart, v1, buf, 2, 3);
    assert v3.present == {Host, Port} && v3.spans[Index(Port)] == Span(2, 1);
    assert SplitUrl(buf, true) == Some(v3);
    assert buf[2..] + "0" == "80" && "80"[1..] == "0" && "0"[1..] == [];
    assert Number("80", 0) == Number("0", 8) == Number([], 80);
  }

  // ---------- the record the caller passes ----------

  class UrlRecord {
    var present: set<Part>
    var port: nat
    var spans: Spans

    /** A record filled with zeros. */
    constructor ()
      ensures View() == Zeroed() && port == 0
    {
      present, port, spans := {}, 0, Zeroed().spans;
    }

    ghost function View(): Parts
      reads this
    {
      Parts(spans, present)
    }

    method Begin(part: Part, pos: nat)
      modifies this`spans, this`present
      ensures View() == Extend(old(View()), part, true, pos)
    {
      spans := spans[Index(part) := Span(U16(pos), 1)];
      present := present + {part};
    }

    method Grow(part: Part)
      modifies this`spans
      ensures forall pos :: View() == Extend(old(View()), part, false, pos)
    {
      spans := spans[Index(part) := Span(spans[Index(part)].off, U16(spans[Index(part)].len + 1))];
    }

    method ParseHost(buf: string, foundAt: bool) returns (bad: bool)
      requires spans[Index(Host)].off + spans[Index(Host)].len <= |buf|
      modifies this`spans, this`present
      ensures match SplitHost(old(View()), foundAt, buf) case None => bad case Some(u) => !bad && View() == u
    {
      var s := if foundAt then UserinfoStart else HostStart;
      var p := spans[Index(Host)].off;
      var end := p + spans[Index(Host)].len;
      spans := spans[Index(Host) := Span(p, 0)];
      ghost var whole := HostFrom(s, View(), buf, p, end);
      while p < end
        invariant p <= end && HostFrom(s, View(), buf, p, end) == whole
      {
        var next := HostChar(s, buf[p]);
        if next == HostDead { return true; }
        var h := spans[Index(Host)];
        if next == InHost {
          spans := spans[Index(Host) := Span(if s != InHost then U16(p) else h.off, U16(h.len + 1))];
        } else if next == InV6 {
          spans := spans[Index(Host) := Span(if s != InV6 then U16(p) else h.off, U16(h.len + 1))];
        } else if next == InPort {
          if s != InPort { Begin(Port, p); } else { Grow(Port); }
        } else if next == InUserinfo {
          if s != InUserinfo { Begin(Userinfo, p); } else { Grow(Userinfo); }
        }
        s, p := next, p + 1;
      }
      bad := s.HostStart? || s.V6Start? || s.InV6? || s.PortStart? || s.InUserinfo? || s.UserinfoStart?;
    }

    /** `beyond` is what lies in memory behind the buffer. */
    method ParseUrl(buf: string, isConnect: bool, beyond: string) returns (bad: bool)
      requires |buf| <= 0xFFFF && spans == Zeroed().spans
      modifies this
      ensures match SplitUrl(buf, isConnect)
              case None => bad
              case Some(u) =>
                && (Port in u.present ==> u.spans[Index(Port)].off <= |buf|)
                && bad == (Port in u.present && PortNumber(u, buf, beyond) > 0xFFFF)
                && (!bad ==> View() == u && port == if Port in u.present then PortNumber(u, buf, beyond) else 0)
    {
      port, present := 0, {};
      var s := if isConnect then ReqServerStart else ReqSpacesBeforeUrl;
      var last: Option<Part>, foundAt, p := None, false, 0;
      hide ParseUrlChar, PartOf, SplitHost, ScanOk, Extend;
      while p < |buf|
        invariant p <= |buf| && port == 0
        invariant ScanFrom(Scan(s, last, foundAt, View()), buf, p) == ScanFrom(StartScan(isConnect), buf, 0)
      {
        s := ParseUrlChar(s, buf[p]);
        if s == Dead { return true; }
        var part := PartOf(s);
        if part.Some? {
          if s.ReqServerWithAt? { foundAt := true; }
          if part == last { Grow(part.value); } else { Begin(part.value, p); }
          last := part;
        }
        p := p + 1;
      }
      bad := ParseRest(buf, isConnect, beyond, Scan(s, last, foundAt, View()), foundAt);
    }

    /** The server part and the port, after the first pass. */
    method ParseRest(buf: string, isConnect: bool, beyond: string, ghost x: Scan, foundAt: bool) returns (bad: bool)
      requires |buf| <= 0xFFFF && ScanFrom(StartScan(isConnect), buf, 0) == Some(x) && View() == x.u && foundAt == x.foundAt && port == 0
      modifies this
      ensures match SplitUrl(buf, isConnect)
              case None => bad
              case Some(u) =>
                && (Port in u.present ==> u.spans[Index(Port)].off <= |buf|)
                && bad == (Port in u.present && PortNumber(u, buf, beyond) > 0xFFFF)
                && (!bad ==> View() == u && port == if Port in u.present then PortNumber(u, buf, beyond) else 0)
    {
      hide ScanFrom, SplitHost, ScanOk, Number;
      StartOk(buf, isConnect);
      if SplitUrl(buf, isConnect).Some? && Port in SplitUrl(buf, isConnect).value.present { PortExact(buf, isConnect, beyond); }
      if Schema in present || Host in present {
        bad := ParseHost(buf, foundAt);
        if bad { return; }
      }
      if isConnect && present != {Host, Port} { return true; }
      if Port in present {
        var v := Number(buf[spans[Index(Port)].off..] + beyond, 0);
        if v > 0xFFFF { return true; }
        port := v;
      }
      bad := false;
    }
  }
}
