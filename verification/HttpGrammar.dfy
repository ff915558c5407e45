/** The grammar of the URLs that are split: a URL is accepted exactly if it is composed of a
    scheme, a server, a path, a query and a fragment, and each part is found where it was put. */
module HttpGrammar {
  import opened Options
  import opened HttpState
  import opened HttpUrl

  // ---------- characters ----------

  predicate Letter(ch: char) { 'a' <= ch <= 'z' || 'A' <= ch <= 'Z' }

  predicate DigitChar(ch: char) { '0' <= ch <= '9' }

  predicate HexChar(ch: char) { DigitChar(ch) || 'a' <= ch <= 'f' || 'A' <= ch <= 'F' }

  predicate NameChar(ch: char) { Letter(ch) || DigitChar(ch) || ch == '.' || ch == '-' }

  predicate UserChar(ch: char) { Letter(ch) || DigitChar(ch) || ch in "-_.!~*'()%;:&=+$," }

  predicate Visible(ch: char) { 33 <= ch as int <= 126 }

  lemma {:induction false} CharClasses(ch: char)
    ensures IsAlpha(ch) == Letter(ch) && IsNum(ch) == DigitChar(ch) && IsHex(ch) == HexChar(ch) && IsHostChar(ch) == NameChar(ch)
    ensures IsUserinfoChar(ch) == UserChar(ch) && IsUrlChar(ch) == (Visible(ch) && ch != '#' && ch != '?')
    ensures ch in " \r\n\t\U{0C}" ==> !Visible(ch)
    ensures UserChar(ch) ==> Visible(ch) && ch != '#' && ch != '?' && ch != '/' && ch != '@' && ch != '[' && ch != ']'
    ensures Letter(ch) ==> Visible(ch) && ch !in ":/*#?"
  {
  }

  // ---------- the first pass ----------

  /** A fragment behind one or more number signs. */
  datatype Hashed = Hashed(hashes: nat, text: string)

  /** What the first pass has told apart; `slashes` is what has been read of the "://" behind a
      scheme. */
  datatype Raw = Raw(scheme: string, slashes: string, server: string, path: string, query: Option<string>, fragment: Option<Hashed>)

  predicate ServerChars(s: string) {
    && (forall k :: 0 <= k < |s| ==> UserChar(s[k]) || s[k] == '[' || s[k] == ']' || s[k] == '@')
    && (forall k :: 0 < k < |s| ==> s[k] != '@' || s[k - 1] != '@')
  }

  predicate PathChars(s: string) {
    forall k :: 0 <= k < |s| ==> Visible(s[k]) && s[k] != '?' && s[k] != '#'
  }

  predicate QueryChars(s: string) {
    forall k :: 0 <= k < |s| ==> Visible(s[k]) && s[k] != '#'
  }

  predicate FragmentChars(s: string) {
    (s != "" ==> s[0] != '#') && forall k :: 0 <= k < |s| ==> Visible(s[k])
  }

  predicate Letters(s: string) {
    forall k :: 0 <= k < |s| ==> Letter(s[k])
  }

  /** The server part may begin here; `c` for a CONNECT request, whose URL is only a server. */
  predicate ServerMayBegin(r: Raw, c: bool) { r.slashes == "://" || c }

  predicate RawOk(r: Raw, c: bool) {
    && Letters(r.scheme) && r.slashes in {"", ":", ":/", "://"} && (r.scheme == "" ==> r.slashes == "") && (c ==> r.scheme == "")
    && ServerChars(r.server) && (r.server != "" ==> ServerMayBegin(r, c))
    && PathChars(r.path)
    && (r.path != "" ==> (r.path[0] == '/' && (r.scheme != "" ==> r.slashes == "://")) || (r.path[0] == '*' && r.scheme == "" && !c))
    && (r.query.Some? ==> QueryChars(r.query.value) && (r.path != "" || ServerMayBegin(r, c)))
    && (r.fragment.Some? ==> r.fragment.value.hashes > 0 && FragmentChars(r.fragment.value.text) && (r.path != "" || r.query.Some?))
  }

  function Hashes(n: nat): (s: string)
    ensures |s| == n
  {
    seq(n, i => '#')
  }

  function QueryText(q: Option<string>): string {
    match q case None => "" case Some(s) => "?" + s
  }

  function FragmentText(f: Option<Hashed>): string {
    match f case None => "" case Some(h) => Hashes(h.hashes) + h.text
  }

  function RawText(r: Raw): string {
    r.scheme + r.slashes + r.server + r.path + QueryText(r.query) + FragmentText(r.fragment)
  }

  const NOTHING := Raw("", "", "", "", None, None)

  /** Where the automaton is. */
  function StateOf(r: Raw, c: bool): State {
    if r.fragment.Some? then (if r.fragment.value.text == "" then ReqFragmentStart else ReqFragment)
    else if r.query.Some? then (if r.query.value == "" then ReqQueryStringStart else ReqQueryString)
    else if r.path != "" then ReqPath
    else if r.server != "" then (if r.server[|r.server| - 1] == '@' then ReqServerWithAt else ReqServer)
    else if ServerMayBegin(r, c) then ReqServerStart
    else if r.slashes == ":/" then ReqSchemaSlashSlash
    else if r.slashes == ":" then ReqSchemaSlash
    else if r.scheme != "" then ReqSchema
    else ReqSpacesBeforeUrl
  }

  /** One more character. */
  function Add(r: Raw, c: bool, ch: char): Raw {
    if r.fragment.Some? then
      var h := r.fragment.value;
      r.(fragment := Some(if h.text == "" && ch == '#' then h.(hashes := h.hashes + 1) else h.(text := h.text + [ch])))
    else if ch == '#' then r.(fragment := Some(Hashed(1, "")))
    else if r.query.Some? then r.(query := Some(r.query.value + [ch]))
    else if ch == '?' then r.(query := Some(""))
    else if r.path != "" then r.(path := r.path + [ch])
    else if r.server != "" || ServerMayBegin(r, c) then
      if ch == '/' then r.(path := [ch]) else r.(server := r.server + [ch])
    else if r.slashes != "" then r.(slashes := r.slashes + [ch])
    else if r.scheme != "" then (if ch == ':' then r.(slashes := ":") else r.(scheme := r.scheme + [ch]))
    else if ch == '/' || ch == '*' then r.(path := [ch])
    else r.(scheme := [ch])
  }

  /** Without the last character. */
  function Drop(r: Raw): Raw {
    if r.fragment.Some? then
      var h := r.fragment.value;
      if h.text != "" then r.(fragment := Some(h.(text := h.text[..|h.text| - 1])))
      else if h.hashes > 1 then r.(fragment := Some(h.(hashes := h.hashes - 1)))
      else r.(fragment := None)
    else if r.query.Some? then
      var q := r.query.value;
      if q != "" then r.(query := Some(q[..|q| - 1])) else r.(query := None)
    else if r.path != "" then r.(path := r.path[..|r.path| - 1])
    else if r.server != "" then r.(server := r.server[..|r.server| - 1])
    else if r.slashes != "" then r.(slashes := r.slashes[..|r.slashes| - 1])
    else if r.scheme != "" then r.(scheme := r.scheme[..|r.scheme| - 1])
    else r
  }

  function Last(r: Raw): char
    requires r != NOTHING
  {
    if r.fragment.Some? then (if r.fragment.value.text != "" then r.fragment.value.text[|r.fragment.value.text| - 1] else '#')
    else if r.query.Some? then (if r.query.value != "" then r.query.value[|r.query.value| - 1] else '?')
    else if r.path != "" then r.path[|r.path| - 1]
    else if r.server != "" then r.server[|r.server| - 1]
    else if r.slashes != "" then r.slashes[|r.slashes| - 1]
    else r.scheme[|r.scheme| - 1]
  }

  lemma {:induction false} HashesMore(n: nat)
    ensures Hashes(n + 1) == Hashes(n) + "#"
  {
  }

  lemma {:induction false} HashesFirst(ch: char)
    requires ch == '#'
    ensures Hashes(1) == [ch]
  {
  }

  lemma {:induction false} LongerFragment(h: Hashed, ch: char)
    ensures FragmentText(Some(if h.text == "" && ch == '#' then h.(hashes := h.hashes + 1) else h.(text := h.text + [ch]))) == FragmentText(Some(h)) + [ch]
  {
    HashesMore(h.hashes);
    hide Hashes;
    var hs := Hashes(h.hashes);
    assert hs + (h.text + [ch]) == hs + h.text + [ch];
    if h.text == "" { assert hs + "" == hs && Hashes(h.hashes + 1) + "" == Hashes(h.hashes + 1); }
  }

  /** The character lands at the end of the text. */
  lemma {:induction false} AddText(r: Raw, c: bool, ch: char)
    requires RawOk(r, c)
    ensures RawText(Add(r, c, ch)) == RawText(r) + [ch]
  {
    hide ServerChars, PathChars, QueryChars, FragmentChars, Letters, Hashes;
    var front := r.scheme + r.slashes + r.server;
    if r.fragment.Some? {
      LongerFragment(r.fragment.value, ch);
      hide FragmentText;
      var pre := front + r.path + QueryText(r.query);
      assert pre + (FragmentText(r.fragment) + [ch]) == pre + FragmentText(r.fragment) + [ch];
    } else if ch == '#' {
      HashesFirst(ch);
      assert Hashes(1) + "" == Hashes(1);
      var pre := front + r.path + QueryText(r.query);
      assert pre + "" == pre;
    } else if r.query.Some? {
      var pre, q := front + r.path, r.query.value;
      assert "?" + (q + [ch]) == "?" + q + [ch];
      assert pre + ("?" + q + [ch]) + "" == pre + ("?" + q) + "" + [ch];
    } else if ch == '?' {
      var pre := front + r.path;
      assert "?" + "" == [ch] && pre + [ch] + "" == pre + "" + "" + [ch];
    } else if r.path != "" {
      assert front + (r.path + [ch]) + "" + "" == front + r.path + "" + "" + [ch];
    } else {
      FrontText(r, c, ch);
    }
  }

  lemma {:induction false} PlainText(r: Raw)
    requires r.fragment.None? && r.query.None?
    ensures RawText(r) == r.scheme + r.slashes + r.server + r.path
  {
    var pre := r.scheme + r.slashes + r.server + r.path;
    assert pre + "" + "" == pre;
  }

  lemma {:induction false} FrontText(r: Raw, c: bool, ch: char)
    requires RawOk(r, c) && r.fragment.None? && r.query.None? && r.path == "" && ch != '#' && ch != '?'
    ensures RawText(Add(r, c, ch)) == RawText(r) + [ch]
  {
    hide ServerChars, PathChars, QueryChars, FragmentChars, Letters, Hashes, RawText;
    PlainText(r);
    PlainText(Add(r, c, ch));
    FrontCases(r.scheme, r.slashes, r.server, ch);
  }

  lemma {:induction false} FrontCases(a: string, b: string, c: string, ch: char)
    ensures var all := a + b + c + "" + [ch];
      && a + b + (c + [ch]) + "" == all && a + b + c + [ch] == all
      && (c == "" ==> a + (b + [ch]) + "" + "" == all) && (b == c == "" ==> a + [ch] + "" + "" + "" == all)
  {
  }

  lemma {:induction false} CharsMore(s: string, ch: char)
    ensures Letters(s + [ch]) <==> Letters(s) && Letter(ch)
    ensures PathChars(s + [ch]) <==> PathChars(s) && Visible(ch) && ch != '?' && ch != '#'
    ensures QueryChars(s + [ch]) <==> QueryChars(s) && Visible(ch) && ch != '#'
    ensures FragmentChars(s + [ch]) <==> FragmentChars(s) && Visible(ch) && (s == "" ==> ch != '#')
    ensures Letters("") && PathChars("") && QueryChars("") && FragmentChars("") && ServerChars("")
  {
    hide Letter, Visible;
    var t := s + [ch];
    assert t[|s|] == ch && forall k :: 0 <= k < |s| ==> t[k] == s[k];
  }

  lemma {:induction false} ServerMore(s: string, ch: char)
    ensures ServerChars(s + [ch]) <==>
      ServerChars(s) && (UserChar(ch) || ch == '[' || ch == ']' || (ch == '@' && (s == "" || s[|s| - 1] != '@')))
  {
    hide UserChar;
    var t := s + [ch];
    assert t[|s|] == ch && forall k :: 0 <= k < |s| ==> t[k] == s[k];
    CharClasses('@');
  }

  /** The automaton on one more character: what the grammar allows there, and where that leads. */
  predicate Steps(r: Raw, c: bool, ch: char) {
    ParseUrlChar(StateOf(r, c), ch) == if RawOk(Add(r, c, ch), c) then StateOf(Add(r, c, ch), c) else Dead
  }

  lemma {:induction false} StepsFragment(r: Raw, c: bool, ch: char)
    requires RawOk(r, c) && r.fragment.Some?
    ensures Steps(r, c, ch)
  {
    hide IsAlpha, IsNum, IsHex, IsUserinfoChar, IsUrlChar, UserChar, Letter, ServerChars, PathChars, QueryChars, Letters, FragmentChars, Hashes;
    CharClasses(ch);
    CharsMore(r.fragment.value.text, ch);
  }

  lemma {:induction false} StepsHash(r: Raw, c: bool, ch: char)
    requires RawOk(r, c) && r.fragment.None? && ch == '#'
    ensures Steps(r, c, ch)
  {
    hide IsAlpha, IsNum, IsHex, IsUserinfoChar, IsUrlChar, UserChar, Letter, ServerChars, PathChars, QueryChars, Letters, FragmentChars, Hashes;
    CharClasses(ch);
    CharsMore("", ch);
  }

  lemma {:induction false} StepsQuery(r: Raw, c: bool, ch: char)
    requires RawOk(r, c) && r.fragment.None? && ch != '#' && r.query.Some?
    ensures Steps(r, c, ch)
  {
    hide IsAlpha, IsNum, IsHex, IsUserinfoChar, IsUrlChar, UserChar, Letter, ServerChars, PathChars, QueryChars, Letters, FragmentChars, Hashes;
    CharClasses(ch);
    CharsMore(r.query.value, ch);
  }

  lemma {:induction false} StepsPath(r: Raw, c: bool, ch: char)
    requires RawOk(r, c) && r.fragment.None? && ch != '#' && r.query.None? && r.path != ""
    ensures Steps(r, c, ch)
  {
    hide IsAlpha, IsNum, IsHex, IsUserinfoChar, IsUrlChar, UserChar, Letter, ServerChars, PathChars, QueryChars, Letters, FragmentChars, Hashes;
    CharClasses(ch);
    CharsMore(r.path, ch);
    CharsMore("", ch);
  }

  /** A character that ends the server part. */
  lemma {:induction false} StepsServerEnd(r: Raw, c: bool, ch: char)
    requires RawOk(r, c) && r.fragment.None? && r.query.None? && r.path == "" && ServerMayBegin(r, c) && (ch == '/' || ch == '?')
    ensures Steps(r, c, ch)
  {
    hide IsAlpha, IsNum, IsHex, IsUserinfoChar, IsUrlChar, UserChar, Letter, ServerChars, PathChars, QueryChars, Letters, FragmentChars, Hashes;
    CharClasses(ch);
    CharsMore("", ch);
    assert "" + [ch] == [ch];
  }

  lemma {:induction false} StepsServer(r: Raw, c: bool, ch: char)
    requires RawOk(r, c) && r.fragment.None? && r.query.None? && r.path == "" && ServerMayBegin(r, c) && ch !in "#/?"
    ensures Steps(r, c, ch)
  {
    hide IsAlpha, IsNum, IsHex, IsUserinfoChar, IsUrlChar, UserChar, Letter, ServerChars, PathChars, QueryChars, Letters, FragmentChars, Hashes, Visible;
    CharClasses(ch);
    ServerMore(r.server, ch);
    SignsPlain(ch);
  }

  lemma {:induction false} SignsPlain(ch: char)
    ensures ch == '@' || ch == '[' || ch == ']' ==> ch !in " \r\n\t\U{0C}" && !UserChar(ch)
  {
  }

  lemma {:induction false} StepsSlashes(r: Raw, c: bool, ch: char)
    requires RawOk(r, c) && r.fragment.None? && ch != '#' && r.query.None? && r.path == "" && !ServerMayBegin(r, c) && r.slashes != ""
    ensures Steps(r, c, ch)
  {
    hide IsAlpha, IsNum, IsHex, IsUserinfoChar, IsUrlChar, UserChar, Letter, ServerChars, PathChars, QueryChars, Letters, FragmentChars, Hashes, Visible;
    SlashesMore(r.slashes, ch);
    if ch == '/' { NoSpace(ch); } else if ch == '?' { NoSpace(ch); }
  }

  lemma {:induction false} NoSpace(ch: char)
    requires ch == '/' || ch == '?'
    ensures ch !in " \r\n\t\U{0C}"
  {
  }

  lemma {:induction false} StepsScheme(r: Raw, c: bool, ch: char)
    requires RawOk(r, c) && r.fragment.None? && ch != '#' && r.query.None? && r.path == "" && !ServerMayBegin(r, c) && r.slashes == "" && r.scheme != ""
    ensures Steps(r, c, ch)
  {
    hide IsAlpha, IsNum, IsHex, IsUserinfoChar, IsUrlChar, UserChar, Letter, ServerChars, PathChars, QueryChars, Letters, FragmentChars, Hashes, Visible;
    CharClasses(ch);
    CharsMore(r.scheme, ch);
    assert ch == ':' ==> ch !in " \r\n\t\U{0C}" by { ColonPlain(); }
  }

  lemma {:induction false} ColonPlain()
    ensures ':' !in " \r\n\t\U{0C}"
  {
  }

  lemma {:induction false} StepsFirst(r: Raw, c: bool, ch: char)
    requires RawOk(r, c) && r.fragment.None? && ch != '#' && r.query.None? && r.path == "" && !ServerMayBegin(r, c) && r.slashes == "" && r.scheme == ""
    ensures Steps(r, c, ch)
  {
    hide IsAlpha, IsNum, IsHex, IsUserinfoChar, IsUrlChar, UserChar, Letter, ServerChars, PathChars, QueryChars, Letters, FragmentChars, Hashes;
    CharClasses(ch);
    CharsMore("", ch);
    assert "" + [ch] == [ch];
  }

  lemma {:induction false} SlashesMore(s: string, ch: char)
    ensures s == ":" ==> (s + [ch] == ":/" <==> ch == '/') && s + [ch] != "" && s + [ch] != ":" && s + [ch] != "://"
    ensures s == ":/" ==> (s + [ch] == "://" <==> ch == '/') && s + [ch] != "" && s + [ch] != ":" && s + [ch] != ":/"
  {
    assert (s + [ch])[|s|] == ch;
  }

  lemma {:induction false} AllSteps(r: Raw, c: bool, ch: char)
    requires RawOk(r, c)
    ensures Steps(r, c, ch)
  {
    hide RawOk, Steps;
    if r.fragment.Some? {
      StepsFragment(r, c, ch);
    } else if ch == '#' {
      StepsHash(r, c, ch);
    } else if r.query.Some? {
      StepsQuery(r, c, ch);
    } else if r.path != "" {
      StepsPath(r, c, ch);
    } else if ServerMayBegin(r, c) {
      if ch == '/' || ch == '?' { StepsServerEnd(r, c, ch); } else { StepsServer(r, c, ch); }
    } else if r.slashes != "" {
      StepsSlashes(r, c, ch);
    } else if r.scheme != "" {
      StepsScheme(r, c, ch);
    } else {
      StepsFirst(r, c, ch);
    }
  }

  lemma {:induction false} DropFragment(r: Raw, c: bool)
    requires RawOk(r, c) && r.fragment.Some?
    ensures RawOk(Drop(r), c) && Add(Drop(r), c, Last(r)) == r
  {
    var t := r.fragment.value.text;
    if t != "" {
      assert t[..|t| - 1] + [t[|t| - 1]] == t;
      CharsMore(t[..|t| - 1], t[|t| - 1]);
    }
    CharsMore("", '#');
    hide ServerChars, PathChars, QueryChars, Letters, FragmentChars, Hashes;
  }

  lemma {:induction false} DropTail(r: Raw, c: bool)
    requires RawOk(r, c) && r.fragment.None? && (r.query.Some? || r.path != "")
    ensures RawOk(Drop(r), c) && Add(Drop(r), c, Last(r)) == r
  {
    var t := if r.query.Some? then r.query.value else r.path;
    if t != "" {
      assert t[..|t| - 1] + [t[|t| - 1]] == t;
      CharsMore(t[..|t| - 1], t[|t| - 1]);
    }
    CharsMore("", '?');
    hide ServerChars, PathChars, QueryChars, Letters, FragmentChars, Hashes;
  }

  lemma {:induction false} DropServer(r: Raw, c: bool)
    requires RawOk(r, c) && r.fragment.None? && r.query.None? && r.path == "" && r.server != ""
    ensures RawOk(Drop(r), c) && Add(Drop(r), c, Last(r)) == r
  {
    var t := r.server;
    assert t[..|t| - 1] + [t[|t| - 1]] == t;
    ServerMore(t[..|t| - 1], t[|t| - 1]);
    CharClasses(t[|t| - 1]);
    hide ServerChars, PathChars, Letters, UserChar;
  }

  lemma {:induction false} DropScheme(r: Raw, c: bool)
    requires RawOk(r, c) && r.fragment.None? && r.query.None? && r.path == "" && r.server == "" && r != NOTHING
    ensures RawOk(Drop(r), c) && Add(Drop(r), c, Last(r)) == r
  {
    hide ServerChars, PathChars, Letters, Letter;
    if r.slashes != "" {
      assert ":"[..0] == "" && ":/"[..1] == ":" && "://"[..2] == ":/" && ":" + "/" == ":/" && ":/" + "/" == "://";
    } else {
      var t := r.scheme;
      assert t[..|t| - 1] + [t[|t| - 1]] == t;
      CharsMore(t[..|t| - 1], t[|t| - 1]);
      CharClasses(t[|t| - 1]);
    }
  }

  /** What the grammar allows can be built one character at a time. */
  lemma {:induction false} DropOk(r: Raw, c: bool)
    requires RawOk(r, c) && r != NOTHING
    ensures RawOk(Drop(r), c) && Add(Drop(r), c, Last(r)) == r
  {
    hide RawOk, Drop, Add, Last;
    if r.fragment.Some? {
      DropFragment(r, c);
    } else if r.query.Some? || r.path != "" {
      DropTail(r, c);
    } else if r.server != "" {
      DropServer(r, c);
    } else {
      DropScheme(r, c);
    }
  }

  // ---------- where the first pass puts the parts ----------

  function QueryOf(q: Option<string>): string {
    match q case None => "" case Some(s) => s
  }

  function FragmentOf(f: Option<Hashed>): string {
    match f case None => "" case Some(h) => h.text
  }

  /** The run of a part that is as long as `text`; a part without text is absent. */
  function Placed(text: string, off: nat): Span {
    if text == "" then Span(0, 0) else Span(off, |text|)
  }

  function One(f: Part, text: string): set<Part> {
    if text == "" then {} else {f}
  }

  function PathAt(r: Raw): nat { |r.scheme| + |r.slashes| + |r.server| }

  function HashAt(r: Raw): nat { PathAt(r) + |r.path| + |QueryText(r.query)| }

  function FirstPass(r: Raw): Parts {
    var q, f := QueryOf(r.query), FragmentOf(r.fragment);
    Parts([Placed(r.scheme, 0), Placed(r.server, |r.scheme| + |r.slashes|), Span(0, 0), Placed(r.path, PathAt(r)),
           Placed(q, PathAt(r) + |r.path| + 1), Placed(f, if r.fragment.None? then 0 else HashAt(r) + r.fragment.value.hashes), Span(0, 0)],
          One(Schema, r.scheme) + One(Host, r.server) + One(Path, r.path) + One(Query, q) + One(Fragment, f))
  }

  function LastPart(r: Raw): Option<Part> {
    if FragmentOf(r.fragment) != "" then Some(Fragment)
    else if QueryOf(r.query) != "" then Some(Query)
    else if r.path != "" then Some(Path)
    else if r.server != "" then Some(Host)
    else if r.scheme != "" then Some(Schema)
    else None
  }

  function ScanOf(r: Raw, c: bool): Scan {
    Scan(StateOf(r, c), LastPart(r), '@' in r.server, FirstPass(r))
  }

  lemma {:induction false} RawLength(r: Raw)
    ensures |RawText(r)| == HashAt(r) + (if r.fragment.None? then 0 else r.fragment.value.hashes + |r.fragment.value.text|)
  {
  }

  /** A part that has begun takes one more character. */
  lemma {:induction false} PartGrows(u: Parts, part: Part, text: string, ch: char, off: nat)
    requires off + |text| < 0xFFFF && u.spans[Index(part)] == Placed(text, off) && (text != "" <==> part in u.present)
    ensures Extend(u, part, text == "", off + |text|) == Parts(u.spans[Index(part) := Placed(text + [ch], off)], u.present + {part})
  {
    hide Index;
    assert |text + [ch]| == |text| + 1 && U16(|text| + 1) == |text| + 1 && U16(off) == off;
    if text != "" { assert u.present + {part} == u.present; }
  }

  lemma {:induction false} StateLives(r: Raw, c: bool)
    ensures StateOf(r, c) != Dead
  {
  }

  lemma {:induction false} InFragmentGrows(r: Raw, c: bool, ch: char)
    requires |RawText(r)| < 0xFFFF && r.fragment.Some? && !(r.fragment.value.text == "" && ch == '#')
    ensures FirstPass(Add(r, c, ch)) == Extend(FirstPass(r), Fragment, r.fragment.value.text == "", |RawText(r)|)
  {
    hide RawText, Extend;
    RawLength(r);
    var u, v := FirstPass(r), FirstPass(Add(r, c, ch));
    PartGrows(u, Fragment, r.fragment.value.text, ch, HashAt(r) + r.fragment.value.hashes);
    hide Placed;
    assert v.spans == u.spans[5 := v.spans[5]] && v.present == u.present + {Fragment};
  }

  lemma {:induction false} InFragmentGoes(r: Raw, c: bool, ch: char)
    requires r.fragment.Some? && !(r.fragment.value.text == "" && ch == '#')
    ensures var a := Add(r, c, ch);
      && PartOf(StateOf(a, c)) == LastPart(a) == Some(Fragment) && a.server == r.server && !StateOf(a, c).ReqServerWithAt?
      && (LastPart(r) == Some(Fragment) <==> r.fragment.value.text != "")
  {
  }

  lemma {:induction false} ScanInFragment(r: Raw, c: bool, ch: char)
    requires RawOk(r, c) && RawOk(Add(r, c, ch), c) && |RawText(r)| < 0xFFFF && r.fragment.Some? && !(r.fragment.value.text == "" && ch == '#')
    ensures ScanChar(ScanOf(r, c), ch, |RawText(r)|) == Some(ScanOf(Add(r, c, ch), c))
  {
    hide ParseUrlChar, PartOf, RawOk, RawText, Add, StateOf, LastPart, FirstPass, Extend, QueryOf, FragmentOf;
    AllSteps(r, c, ch);
    StateLives(Add(r, c, ch), c);
    InFragmentGrows(r, c, ch);
    InFragmentGoes(r, c, ch);
  }

  lemma {:induction false} InQueryGrows(r: Raw, c: bool, ch: char)
    requires |RawText(r)| < 0xFFFF && r.fragment.None? && ch != '#' && r.query.Some?
    ensures FirstPass(Add(r, c, ch)) == Extend(FirstPass(r), Query, r.query.value == "", |RawText(r)|)
  {
    hide RawText, Extend;
    RawLength(r);
    var u, v := FirstPass(r), FirstPass(Add(r, c, ch));
    PartGrows(u, Query, r.query.value, ch, PathAt(r) + |r.path| + 1);
    hide Placed;
    assert v.spans == u.spans[4 := v.spans[4]] && v.present == u.present + {Query};
  }

  lemma {:induction false} InQueryGoes(r: Raw, c: bool, ch: char)
    requires r.fragment.None? && ch != '#' && r.query.Some?
    ensures var a := Add(r, c, ch);
      && PartOf(StateOf(a, c)) == LastPart(a) == Some(Query) && a.server == r.server && !StateOf(a, c).ReqServerWithAt?
      && (LastPart(r) == Some(Query) <==> r.query.value != "")
  {
  }

  lemma {:induction false} ScanInQuery(r: Raw, c: bool, ch: char)
    requires RawOk(r, c) && RawOk(Add(r, c, ch), c) && |RawText(r)| < 0xFFFF && r.fragment.None? && ch != '#' && r.query.Some?
    ensures ScanChar(ScanOf(r, c), ch, |RawText(r)|) == Some(ScanOf(Add(r, c, ch), c))
  {
    hide ParseUrlChar, PartOf, RawOk, RawText, Add, StateOf, LastPart, FirstPass, Extend, QueryOf, FragmentOf;
    AllSteps(r, c, ch);
    StateLives(Add(r, c, ch), c);
    InQueryGrows(r, c, ch);
    InQueryGoes(r, c, ch);
  }

  lemma {:induction false} InPathGrows(r: Raw, c: bool, ch: char)
    requires |RawText(r)| < 0xFFFF && r.fragment.None? && ch != '#' && r.query.None? && ch != '?' && Add(r, c, ch).path != ""
    ensures FirstPass(Add(r, c, ch)) == Extend(FirstPass(r), Path, r.path == "", |RawText(r)|)
  {
    hide RawText, Extend;
    RawLength(r);
    var u, v := FirstPass(r), FirstPass(Add(r, c, ch));
    assert r.path == "" ==> "" + [ch] == [ch];
    PartGrows(u, Path, r.path, ch, PathAt(r));
    hide Placed;
    assert v.spans == u.spans[3 := v.spans[3]] && v.present == u.present + {Path};
  }

  lemma {:induction false} InPathGoes(r: Raw, c: bool, ch: char)
    requires r.fragment.None? && ch != '#' && r.query.None? && ch != '?' && Add(r, c, ch).path != ""
    ensures var a := Add(r, c, ch);
      && PartOf(StateOf(a, c)) == LastPart(a) == Some(Path) && a.server == r.server && !StateOf(a, c).ReqServerWithAt?
      && (LastPart(r) == Some(Path) <==> r.path != "")
  {
  }

  lemma {:induction false} ScanInPath(r: Raw, c: bool, ch: char)
    requires RawOk(r, c) && RawOk(Add(r, c, ch), c) && |RawText(r)| < 0xFFFF && r.fragment.None? && ch != '#' && r.query.None? && ch != '?' && Add(r, c, ch).path != ""
    ensures ScanChar(ScanOf(r, c), ch, |RawText(r)|) == Some(ScanOf(Add(r, c, ch), c))
  {
    hide ParseUrlChar, PartOf, RawOk, RawText, Add, StateOf, LastPart, FirstPass, Extend, QueryOf, FragmentOf;
    AllSteps(r, c, ch);
    StateLives(Add(r, c, ch), c);
    InPathGrows(r, c, ch);
    InPathGoes(r, c, ch);
  }

  /** One more number sign. */
  lemma {:induction false} MoreGoes(r: Raw, c: bool, ch: char)
    requires r.fragment.Some? && r.fragment.value.text == "" && ch == '#'
    ensures var a := Add(r, c, ch);
      FirstPass(a) == FirstPass(r) && LastPart(a) == LastPart(r) && StateOf(a, c) == ReqFragmentStart && a.server == r.server
  {
  }

  lemma {:induction false} ScanMore(r: Raw, c: bool, ch: char)
    requires RawOk(r, c) && RawOk(Add(r, c, ch), c) && |RawText(r)| < 0xFFFF && r.fragment.Some? && r.fragment.value.text == "" && ch == '#'
    ensures ScanChar(ScanOf(r, c), ch, |RawText(r)|) == Some(ScanOf(Add(r, c, ch), c))
  {
    hide ParseUrlChar, RawOk, RawText, Add, Extend, FirstPass, LastPart, StateOf;
    AllSteps(r, c, ch);
    MoreGoes(r, c, ch);
  }

  lemma {:induction false} HashState(r: Raw, c: bool, ch: char)
    requires r.fragment.None? && ch == '#' && RawOk(Add(r, c, ch), c) && Steps(r, c, ch)
    ensures ParseUrlChar(StateOf(r, c), ch) == StateOf(Add(r, c, ch), c) == ReqFragmentStart
  {
    hide ParseUrlChar, RawOk;
  }

  lemma {:induction false} FirstPassHash(r: Raw)
    requires r.fragment.None?
    ensures FirstPass(r.(fragment := Some(Hashed(1, "")))) == FirstPass(r) && LastPart(r.(fragment := Some(Hashed(1, "")))) == LastPart(r)
  {
  }

  lemma {:induction false} ScanHash(r: Raw, c: bool, ch: char)
    requires RawOk(r, c) && RawOk(Add(r, c, ch), c) && |RawText(r)| < 0xFFFF && r.fragment.None? && ch == '#'
    ensures ScanChar(ScanOf(r, c), ch, |RawText(r)|) == Some(ScanOf(Add(r, c, ch), c))
  {
    hide ParseUrlChar, RawOk, RawText, Extend, FirstPass, LastPart, Steps, StateOf;
    AllSteps(r, c, ch);
    HashState(r, c, ch);
    FirstPassHash(r);
  }

  lemma {:induction false} MarkState(r: Raw, c: bool, ch: char)
    requires r.fragment.None? && ch == '?' && r.query.None? && RawOk(Add(r, c, ch), c) && Steps(r, c, ch)
    ensures ParseUrlChar(StateOf(r, c), ch) == StateOf(Add(r, c, ch), c) == ReqQueryStringStart
  {
    hide ParseUrlChar, RawOk;
  }

  lemma {:induction false} FirstPassMark(r: Raw)
    requires r.fragment.None? && r.query.None?
    ensures FirstPass(r.(query := Some(""))) == FirstPass(r)
  {
  }

  lemma {:induction false} ScanMark(r: Raw, c: bool, ch: char)
    requires RawOk(r, c) && RawOk(Add(r, c, ch), c) && |RawText(r)| < 0xFFFF && r.fragment.None? && ch == '?' && r.query.None?
    ensures ScanChar(ScanOf(r, c), ch, |RawText(r)|) == Some(ScanOf(Add(r, c, ch), c))
  {
    hide ParseUrlChar, RawOk, RawText, Extend, Placed, PathAt, HashAt, Steps, StateOf, One;
    AllSteps(r, c, ch);
    MarkState(r, c, ch);
    FirstPassMark(r);
  }

  lemma {:induction false} InServerGrows(r: Raw, c: bool, ch: char)
    requires |RawText(r)| < 0xFFFF && r.fragment.None? && r.query.None? && r.path == "" && ch !in "#?/" && (r.server != "" || ServerMayBegin(r, c))
    ensures FirstPass(Add(r, c, ch)) == Extend(FirstPass(r), Host, r.server == "", |RawText(r)|)
  {
    hide RawText, Extend;
    RawLength(r);
    var u, v := FirstPass(r), FirstPass(Add(r, c, ch));
    PartGrows(u, Host, r.server, ch, |r.scheme| + |r.slashes|);
    hide Placed;
    assert v.spans == u.spans[1 := v.spans[1]] && v.present == u.present + {Host};
  }

  lemma {:induction false} InServerGoes(r: Raw, c: bool, ch: char)
    requires r.fragment.None? && r.query.None? && r.path == "" && ch !in "#?/" && (r.server != "" || ServerMayBegin(r, c))
    ensures var a := Add(r, c, ch);
      && PartOf(StateOf(a, c)) == LastPart(a) == Some(Host) && StateOf(a, c).ReqServerWithAt? == (ch == '@')
      && ('@' in a.server <==> '@' in r.server || ch == '@') && (LastPart(r) == Some(Host) <==> r.server != "")
  {
  }

  lemma {:induction false} ScanServer(r: Raw, c: bool, ch: char)
    requires RawOk(r, c) && RawOk(Add(r, c, ch), c) && |RawText(r)| < 0xFFFF && r.fragment.None? && ch != '#' && r.query.None? && ch != '?'
    requires Add(r, c, ch).path == "" && (r.server != "" || ServerMayBegin(r, c))
    ensures ScanChar(ScanOf(r, c), ch, |RawText(r)|) == Some(ScanOf(Add(r, c, ch), c))
  {
    hide ParseUrlChar, PartOf, RawOk, RawText, StateOf, LastPart, FirstPass, Extend, QueryOf, FragmentOf;
    AllSteps(r, c, ch);
    StateLives(Add(r, c, ch), c);
    NoPath(r, c, ch);
    InServerGrows(r, c, ch);
    InServerGoes(r, c, ch);
  }

  lemma {:induction false} NoPath(r: Raw, c: bool, ch: char)
    requires Add(r, c, ch).path == "" && r.fragment.None? && ch != '#' && r.query.None? && ch != '?' && (r.server != "" || ServerMayBegin(r, c))
    ensures r.path == "" && ch !in "#?/"
  {
  }

  lemma {:induction false} InSchemeGrows(r: Raw, c: bool, ch: char)
    requires |RawText(r)| < 0xFFFF && r.slashes == "" && Add(r, c, ch) == r.(scheme := r.scheme + [ch])
    requires r.fragment.None? && r.query.None? && r.path == "" && r.server == ""
    ensures FirstPass(Add(r, c, ch)) == Extend(FirstPass(r), Schema, r.scheme == "", |RawText(r)|)
  {
    hide RawText, Extend, Add;
    RawLength(r);
    var u, v := FirstPass(r), FirstPass(Add(r, c, ch));
    PartGrows(u, Schema, r.scheme, ch, 0);
    hide Placed;
    assert v.spans == u.spans[0 := v.spans[0]] && v.present == u.present + {Schema};
  }

  lemma {:induction false} InSchemeGoes(r: Raw, c: bool, ch: char)
    requires r.fragment.None? && r.query.None? && r.path == "" && r.server == "" && !ServerMayBegin(r, c) && r.slashes == ""
    ensures var a := r.(scheme := r.scheme + [ch]);
      && PartOf(StateOf(a, c)) == LastPart(a) == Some(Schema) && (LastPart(r) == Some(Schema) <==> r.scheme != "") && !StateOf(a, c).ReqServerWithAt?
  {
  }

  lemma {:induction false} InSlashesGoes(r: Raw, a: Raw, c: bool)
    requires r.fragment.None? && r.query.None? && r.path == "" && r.server == "" && a == r.(slashes := a.slashes) && a.slashes != "" && r.scheme != ""
    requires a.slashes in {":", ":/", "://"} && !c
    ensures PartOf(StateOf(a, c)) == None && LastPart(a) == LastPart(r) && FirstPass(a) == FirstPass(r) && !StateOf(a, c).ReqServerWithAt?
  {
  }

  /** How a scheme goes on. */
  lemma {:induction false} SchemeAdds(r: Raw, c: bool, ch: char)
    requires RawOk(r, c) && RawOk(Add(r, c, ch), c) && r.fragment.None? && ch != '#' && r.query.None? && ch != '?'
    requires Add(r, c, ch).path == "" && r.server == "" && !ServerMayBegin(r, c)
    ensures var a := Add(r, c, ch);
      || (r.slashes == "" && a == r.(scheme := r.scheme + [ch]))
      || (a == r.(slashes := a.slashes) && a.slashes in {":", ":/", "://"} && r.scheme != "" && !c)
    ensures r.path == ""
  {
    hide Letters, ServerChars, PathChars, QueryChars, FragmentChars;
    assert r.scheme == "" ==> "" + [ch] == [ch];
  }

  lemma {:induction false} ScanScheme(r: Raw, c: bool, ch: char)
    requires RawOk(r, c) && RawOk(Add(r, c, ch), c) && |RawText(r)| < 0xFFFF && r.fragment.None? && ch != '#' && r.query.None? && ch != '?'
    requires Add(r, c, ch).path == "" && r.server == "" && !ServerMayBegin(r, c)
    ensures ScanChar(ScanOf(r, c), ch, |RawText(r)|) == Some(ScanOf(Add(r, c, ch), c))
  {
    hide ParseUrlChar, PartOf, RawOk, RawText, Add, StateOf, LastPart, FirstPass, Extend, QueryOf, FragmentOf;
    var a := Add(r, c, ch);
    AllSteps(r, c, ch);
    StateLives(a, c);
    SchemeAdds(r, c, ch);
    if r.slashes == "" && a == r.(scheme := r.scheme + [ch]) {
      InSchemeGrows(r, c, ch);
      InSchemeGoes(r, c, ch);
    } else {
      InSlashesGoes(r, a, c);
    }
  }

  /** The first pass keeps each part where the grammar puts it. */
  lemma {:induction false} ScanAdds(r: Raw, c: bool, ch: char)
    requires RawOk(r, c) && RawOk(Add(r, c, ch), c) && |RawText(r)| < 0xFFFF
    ensures ScanChar(ScanOf(r, c), ch, |RawText(r)|) == Some(ScanOf(Add(r, c, ch), c))
  {
    hide RawOk, RawText, ScanChar, ScanOf;
    if r.fragment.Some? {
      if r.fragment.value.text == "" && ch == '#' { ScanMore(r, c, ch); } else { ScanInFragment(r, c, ch); }
    } else if ch == '#' {
      ScanHash(r, c, ch);
    } else if r.query.Some? {
      ScanInQuery(r, c, ch);
    } else if ch == '?' {
      ScanMark(r, c, ch);
    } else if Add(r, c, ch).path != "" {
      ScanInPath(r, c, ch);
    } else if r.server != "" || ServerMayBegin(r, c) {
      ScanServer(r, c, ch);
    } else {
      ScanScheme(r, c, ch);
    }
  }

  lemma {:induction false} ScanSnoc(x: Scan, s: string, ch: char, pos: nat)
    requires pos <= |s|
    ensures ScanFrom(x, s + [ch], pos) == match ScanFrom(x, s, pos) case None => None case Some(y) => ScanChar(y, ch, |s|)
    decreases |s| - pos
  {
    hide ScanChar;
    var t := s + [ch];
    if pos == |s| {
      assert t[pos] == ch;
    } else {
      assert t[pos] == s[pos];
      if ScanChar(x, s[pos], pos).Some? { ScanSnoc(ScanChar(x, s[pos], pos).value, s, ch, pos + 1); }
    }
  }

  lemma {:induction false} ScanNothing(c: bool)
    ensures RawOk(NOTHING, c) && RawText(NOTHING) == "" && ScanFrom(StartScan(c), "", 0) == Some(ScanOf(NOTHING, c))
  {
    assert Zeroed().spans == [Span(0, 0), Span(0, 0), Span(0, 0), Span(0, 0), Span(0, 0), Span(0, 0), Span(0, 0)];
  }

  /** A text of the grammar goes through the first pass, which puts its parts where they are. */
  lemma {:induction false} ScanText(r: Raw, c: bool)
    requires RawOk(r, c) && |RawText(r)| <= 0xFFFF
    ensures ScanFrom(StartScan(c), RawText(r), 0) == Some(ScanOf(r, c))
    decreases |RawText(r)|
  {
    hide RawOk, RawText, Drop, Add, Last, ScanFrom, ScanChar, ScanOf;
    if r == NOTHING {
      ScanNothing(c);
    } else {
      var s, ch := Drop(r), Last(r);
      DropOk(r, c);
      AddText(s, c, ch);
      ScanText(s, c);
      ScanSnoc(StartScan(c), RawText(s), ch, 0);
      ScanAdds(s, c, ch);
    }
  }

  /** What goes through the first pass is a text of the grammar. */
  lemma {:induction false} ScanReads(buf: string, c: bool) returns (r: Raw)
    requires |buf| <= 0xFFFF && ScanFrom(StartScan(c), buf, 0).Some?
    ensures RawOk(r, c) && RawText(r) == buf && ScanFrom(StartScan(c), buf, 0) == Some(ScanOf(r, c))
    decreases |buf|
  {
    hide RawOk, RawText, Add, ScanFrom, ScanChar, ScanOf;
    if buf == "" {
      r := NOTHING;
      ScanNothing(c);
    } else {
      var s, ch := buf[..|buf| - 1], buf[|buf| - 1];
      assert s + [ch] == buf;
      ScanSnoc(StartScan(c), s, ch, 0);
      var q := ScanReads(s, c);
      r := Add(q, c, ch);
      ScanLives(q, c, ch, |s|);
      AllSteps(q, c, ch);
      AddText(q, c, ch);
      ScanText(r, c);
    }
  }

  lemma {:induction false} ScanLives(r: Raw, c: bool, ch: char, pos: nat)
    requires RawOk(r, c) && ScanChar(ScanOf(r, c), ch, pos).Some?
    ensures RawOk(Add(r, c, ch), c)
  {
    hide RawOk, ParseUrlChar, Add, StateOf;
    AllSteps(r, c, ch);
  }

  // ---------- the second pass ----------

  /** What the second pass has told apart in the server part. */
  datatype Seen = Seen(user: string, at: bool, open: bool, name: string, close: bool, colon: bool, port: string)

  predicate UserChars(s: string) {
    forall k :: 0 <= k < |s| ==> UserChar(s[k])
  }

  predicate NameChars(s: string) {
    forall k :: 0 <= k < |s| ==> NameChar(s[k])
  }

  predicate AddressChars(s: string) {
    forall k :: 0 <= k < |s| ==> HexChar(s[k]) || s[k] == ':'
  }

  predicate DigitChars(s: string) {
    forall k :: 0 <= k < |s| ==> DigitChar(s[k])
  }

  /** `a`: an at sign has been found in the server part. */
  predicate SeenOk(v: Seen, a: bool) {
    && UserChars(v.user) && (v.user != "" || v.at ==> a)
    && (v.name != "" || v.open ==> v.at || !a) && (if v.open then AddressChars(v.name) else NameChars(v.name))
    && (v.close ==> v.open && v.name != "")
    && (v.colon ==> v.name != "" && (v.open ==> v.close))
    && DigitChars(v.port) && (v.port != "" ==> v.colon)
  }

  function Sign(here: bool, ch: char): string {
    if here then [ch] else ""
  }

  function SeenText(v: Seen): string {
    v.user + Sign(v.at, '@') + Sign(v.open, '[') + v.name + Sign(v.close, ']') + Sign(v.colon, ':') + v.port
  }

  function SeenState(v: Seen, a: bool): HostState {
    if v.port != "" then InPort
    else if v.colon then PortStart
    else if v.close then V6End
    else if v.name != "" then (if v.open then InV6 else InHost)
    else if v.open then V6Start
    else if v.at || !a then HostStart
    else if v.user != "" then InUserinfo
    else UserinfoStart
  }

  function AddSeen(v: Seen, a: bool, ch: char): Seen {
    if v.colon then v.(port := v.port + [ch])
    else if v.close then (if ch == ':' then v.(colon := true) else v.(port := [ch]))
    else if v.open then (if ch == ']' then v.(close := true) else v.(name := v.name + [ch]))
    else if v.name != "" then (if ch == ':' then v.(colon := true) else v.(name := v.name + [ch]))
    else if v.at || !a then (if ch == '[' then v.(open := true) else v.(name := [ch]))
    else if ch == '@' then v.(at := true)
    else v.(user := v.user + [ch])
  }

  const UNSEEN := Seen("", false, false, "", false, false, "")

  function DropSeen(v: Seen): (Seen, char)
    requires v != UNSEEN
  {
    if v.port != "" then (v.(port := v.port[..|v.port| - 1]), v.port[|v.port| - 1])
    else if v.colon then (v.(colon := false), ':')
    else if v.close then (v.(close := false), ']')
    else if v.name != "" then (v.(name := v.name[..|v.name| - 1]), v.name[|v.name| - 1])
    else if v.open then (v.(open := false), '[')
    else if v.at then (v.(at := false), '@')
    else (v.(user := v.user[..|v.user| - 1]), v.user[|v.user| - 1])
  }

  lemma {:induction false} SeenMore(s: string, ch: char)
    ensures UserChars(s + [ch]) <==> UserChars(s) && UserChar(ch)
    ensures NameChars(s + [ch]) <==> NameChars(s) && NameChar(ch)
    ensures AddressChars(s + [ch]) <==> AddressChars(s) && (HexChar(ch) || ch == ':')
    ensures DigitChars(s + [ch]) <==> DigitChars(s) && DigitChar(ch)
    ensures UserChars("") && NameChars("") && AddressChars("") && DigitChars("")
  {
    hide UserChar, NameChar, HexChar, DigitChar;
    var t := s + [ch];
    assert t[|s|] == ch && forall k :: 0 <= k < |s| ==> t[k] == s[k];
  }

  lemma {:induction false} SeenSteps(v: Seen, a: bool, ch: char)
    requires SeenOk(v, a)
    ensures HostChar(SeenState(v, a), ch) == if SeenOk(AddSeen(v, a, ch), a) then SeenState(AddSeen(v, a, ch), a) else HostDead
  {
    hide IsHostChar, IsHex, IsNum, IsUserinfoChar, UserChar, NameChar, HexChar, DigitChar, UserChars, NameChars, AddressChars, DigitChars;
    ServerSigns(ch);
    SeenMore("", ch);
    SeenMore(v.user, ch);
    SeenMore(v.name, ch);
    SeenMore(v.port, ch);
    assert "" + [ch] == [ch];
  }

  lemma {:induction false} ServerSigns(ch: char)
    ensures IsNum(ch) == DigitChar(ch) && IsHex(ch) == HexChar(ch) && IsHostChar(ch) == NameChar(ch) && IsUserinfoChar(ch) == UserChar(ch)
    ensures UserChar(ch) ==> ch != '@'
    ensures NameChar(ch) || HexChar(ch) || DigitChar(ch) ==> ch != ':' && ch != '[' && ch != ']' && ch != '@' && UserChar(ch)
    ensures ch == ':' ==> UserChar(ch)
  {
  }

  /** The last character can be taken off and put back. */
  predicate Drops(v: Seen, a: bool)
    requires v != UNSEEN
  {
    var (w, ch) := DropSeen(v);
    SeenOk(w, a) && AddSeen(w, a, ch) == v
  }

  lemma {:induction false} DropPort(v: Seen, a: bool)
    requires SeenOk(v, a) && v.colon
    ensures Drops(v, a)
  {
    hide UserChars, NameChars, AddressChars, DigitChars;
    if v.port != "" {
      var s, ch := v.port[..|v.port| - 1], v.port[|v.port| - 1];
      assert s + [ch] == v.port;
      SeenMore(s, ch);
    } else {
      SeenMore("", ':');
    }
  }

  lemma {:induction false} DropName(v: Seen, a: bool)
    requires SeenOk(v, a) && !v.colon && (v.open || v.name != "")
    ensures Drops(v, a)
  {
    hide UserChars, NameChars, AddressChars, DigitChars, NameChar, HexChar, DigitChar, UserChar;
    SeenMore("", '[');
    if !v.close && v.name != "" {
      var s, ch := v.name[..|v.name| - 1], v.name[|v.name| - 1];
      assert s + [ch] == v.name;
      assert s == "" ==> [ch] == v.name;
      SeenMore(s, ch);
      ServerSigns(ch);
    }
  }

  lemma {:induction false} DropUser(v: Seen, a: bool)
    requires SeenOk(v, a) && !v.colon && !v.open && v.name == "" && v != UNSEEN
    ensures Drops(v, a)
  {
    hide UserChars, NameChars, AddressChars, DigitChars, NameChar, HexChar, DigitChar, UserChar;
    SeenMore("", '@');
    if !v.at {
      var s, ch := v.user[..|v.user| - 1], v.user[|v.user| - 1];
      assert s + [ch] == v.user;
      SeenMore(s, ch);
      ServerSigns(ch);
    }
  }

  lemma {:induction false} DropSeenOk(v: Seen, a: bool)
    requires SeenOk(v, a) && v != UNSEEN
    ensures Drops(v, a)
  {
    hide Drops, UserChars, NameChars, AddressChars, DigitChars;
    if v.colon {
      DropPort(v, a);
    } else if v.open || v.name != "" {
      DropName(v, a);
    } else {
      DropUser(v, a);
    }
  }

  lemma {:induction false} AddPortText(v: Seen, a: bool, ch: char)
    requires SeenOk(v, a) && (v.colon || v.close) && SeenOk(AddSeen(v, a, ch), a)
    ensures SeenText(AddSeen(v, a, ch)) == SeenText(v) + [ch]
  {
    hide UserChars, NameChars, AddressChars, DigitChars;
    var front := v.user + Sign(v.at, '@') + Sign(v.open, '[') + v.name + Sign(v.close, ']');
    var pre := front + Sign(v.colon, ':');
    assert pre + (v.port + [ch]) == pre + v.port + [ch];
    assert front + [ch] + "" == front + "" + "" + [ch];
  }

  lemma {:induction false} AddNameText(v: Seen, a: bool, ch: char)
    requires SeenOk(v, a) && !v.colon && !v.close && (v.open || v.name != "") && SeenOk(AddSeen(v, a, ch), a)
    ensures SeenText(AddSeen(v, a, ch)) == SeenText(v) + [ch]
  {
    hide UserChars, NameChars, AddressChars, DigitChars;
    var front := v.user + Sign(v.at, '@') + Sign(v.open, '[');
    NameCases(front, v.name, ch);
  }

  lemma {:induction false} NameCases(a: string, b: string, ch: char)
    ensures var all := a + b + "" + "" + "" + [ch];
      a + b + [ch] + "" + "" == all && a + (b + [ch]) + "" + "" + "" == all && a + b + "" + [ch] + "" == all
  {
  }

  lemma {:induction false} AddUserText(v: Seen, a: bool, ch: char)
    requires SeenOk(v, a) && !v.colon && !v.close && !v.open && v.name == "" && SeenOk(AddSeen(v, a, ch), a)
    ensures SeenText(AddSeen(v, a, ch)) == SeenText(v) + [ch]
  {
    hide UserChars, NameChars, AddressChars, DigitChars;
    UserCases(v.user, Sign(v.at, '@'), ch);
  }

  lemma {:induction false} UserCases(a: string, b: string, ch: char)
    ensures var all := a + b + "" + "" + "" + "" + "" + [ch];
      && a + b + [ch] + "" + "" + "" + "" == all && a + b + "" + [ch] + "" + "" + "" == all
      && (b == "" ==> a + [ch] + "" + "" + "" + "" + "" == all && (a + [ch]) + b + "" + "" + "" + "" + "" == all)
  {
  }

  lemma {:induction false} AddSeenText(v: Seen, a: bool, ch: char)
    requires SeenOk(v, a) && SeenOk(AddSeen(v, a, ch), a)
    ensures SeenText(AddSeen(v, a, ch)) == SeenText(v) + [ch]
  {
    hide SeenOk, SeenText, AddSeen;
    if v.colon || v.close {
      AddPortText(v, a, ch);
    } else if v.open || v.name != "" {
      AddNameText(v, a, ch);
    } else {
      AddUserText(v, a, ch);
    }
  }

  function HostRun(s: HostState, u: Parts, buf: string, pos: nat, end: nat): Option<(HostState, Parts)>
    requires end <= |buf|
    decreases end - pos
  {
    if pos >= end then Some((s, u))
    else
      var s' := HostChar(s, buf[pos]);
      if s' == HostDead then None else HostRun(s', HostStep(s, s', u, pos), buf, pos + 1, end)
  }

  predicate HostEnds(s: HostState) {
    !(s.HostStart? || s.V6Start? || s.InV6? || s.PortStart? || s.InUserinfo? || s.UserinfoStart?)
  }

  lemma {:induction false} HostFromRun(s: HostState, u: Parts, buf: string, pos: nat, end: nat)
    requires end <= |buf|
    ensures HostFrom(s, u, buf, pos, end) ==
      match HostRun(s, u, buf, pos, end) case None => None case Some((t, v)) => if HostEnds(t) then Some(v) else None
    decreases end - pos
  {
    hide HostChar, HostStep;
    if pos < end {
      var s' := HostChar(s, buf[pos]);
      if s' != HostDead { HostFromRun(s', HostStep(s, s', u, pos), buf, pos + 1, end); }
    }
  }

  lemma {:induction false} HostSnoc(s: HostState, u: Parts, buf: string, pos: nat, end: nat)
    requires pos <= end < |buf|
    ensures HostRun(s, u, buf, pos, end + 1) ==
      match HostRun(s, u, buf, pos, end)
      case None => None
      case Some((t, v)) => if HostChar(t, buf[end]) == HostDead then None else Some((HostChar(t, buf[end]), HostStep(t, HostChar(t, buf[end]), v, end)))
    decreases end - pos
  {
    hide HostChar, HostStep;
    if pos < end {
      var s' := HostChar(s, buf[pos]);
      if s' != HostDead { HostSnoc(s', HostStep(s, s', u, pos), buf, pos + 1, end); }
    }
  }

  // ---------- where the second pass puts the parts ----------

  function NameAt(v: Seen): nat { |v.user| + |Sign(v.at, '@')| + |Sign(v.open, '[')| }

  function PortAt(v: Seen): nat { NameAt(v) + |v.name| + |Sign(v.close, ']')| + |Sign(v.colon, ':')| }

  /** The parts with those of a server part that begins at `lo`. */
  function SeenParts(u: Parts, v: Seen, lo: nat): Parts {
    Parts(u.spans[6 := if v.user == "" then u.spans[6] else Span(lo, |v.user|)]
                 [1 := if v.name == "" then Span(lo, 0) else Span(lo + NameAt(v), |v.name|)]
                 [2 := if v.port == "" then u.spans[2] else Span(lo + PortAt(v), |v.port|)],
          u.present + One(Userinfo, v.user) + One(Port, v.port))
  }

  lemma {:induction false} SeenLength(v: Seen)
    ensures |SeenText(v)| == PortAt(v) + |v.port|
  {
  }

  /** A part of the server takes one more character. */
  lemma {:induction false} RunGrows(off: nat, text: string, ch: char)
    requires off + |text| < 0xFFFF
    ensures U16(off + |text|) == off + |text| && U16(|text| + 1) == |text + [ch]| && text + [ch] != ""
  {
  }

  /** The server part takes one more character. */
  predicate Grows(u: Parts, v: Seen, a: bool, ch: char, lo: nat) {
    HostStep(SeenState(v, a), SeenState(AddSeen(v, a, ch), a), SeenParts(u, v, lo), lo + |SeenText(v)|) == SeenParts(u, AddSeen(v, a, ch), lo)
  }

  lemma {:induction false} PortGrows(u: Parts, v: Seen, a: bool, ch: char, lo: nat)
    requires SeenOk(v, a) && lo + |SeenText(v)| < 0xFFFF && Port !in u.present && v.colon
    ensures Grows(u, v, a, ch, lo)
  {
    hide SeenOk, SeenText, U16;
    SeenLength(v);
    RunGrows(lo + PortAt(v), v.port, ch);
    var x, y := SeenParts(u, v, lo), SeenParts(u, v.(port := v.port + [ch]), lo);
    assert y.spans == x.spans[2 := Span(lo + PortAt(v), |v.port + [ch]|)];
    assert y.present == x.present + {Port};
  }

  lemma {:induction false} NameState(v: Seen, a: bool, ch: char)
    requires !v.colon && !v.close && (v.open || v.name != "" || v.at || !a) && v.port == "" && AddSeen(v, a, ch).name != v.name
    ensures var w := v.(name := v.name + [ch]);
      AddSeen(v, a, ch) == w && SeenState(w, a) == (if v.open then InV6 else InHost) && (v.name != "" <==> SeenState(v, a) == SeenState(w, a))
  {
    assert v.name == "" ==> "" + [ch] == [ch];
  }

  lemma {:induction false} NameParts(u: Parts, v: Seen, ch: char, lo: nat)
    ensures var x, y := SeenParts(u, v, lo), SeenParts(u, v.(name := v.name + [ch]), lo);
      v.port == "" ==> y == Parts(x.spans[1 := Span(lo + NameAt(v), |v.name| + 1)], x.present)
  {
    hide NameAt, PortAt, One;
    assert NameAt(v.(name := v.name + [ch])) == NameAt(v) by { NameAtSame(v, ch); }
  }

  lemma {:induction false} NameAtSame(v: Seen, ch: char)
    ensures NameAt(v.(name := v.name + [ch])) == NameAt(v)
  {
  }

  lemma {:induction false} NameSpan(u: Parts, v: Seen, lo: nat)
    ensures SeenParts(u, v, lo).spans[1] == if v.name == "" then Span(lo, 0) else Span(lo + NameAt(v), |v.name|)
  {
  }

  lemma {:induction false} NameLength(v: Seen)
    requires !v.colon && !v.close && v.port == ""
    ensures |SeenText(v)| == NameAt(v) + |v.name|
  {
  }

  lemma {:induction false} NameGrows(u: Parts, v: Seen, a: bool, ch: char, lo: nat)
    requires lo + |SeenText(v)| < 0xFFFF && !v.colon && !v.close && (v.open || v.name != "" || v.at || !a) && v.port == ""
    requires AddSeen(v, a, ch).name != v.name
    ensures Grows(u, v, a, ch, lo)
  {
    hide SeenText, U16, AddSeen, SeenState, SeenParts, NameAt;
    NameLength(v);
    NameState(v, a, ch);
    NameParts(u, v, ch, lo);
    NameSpan(u, v, lo);
    RunGrows(lo + NameAt(v), v.name, ch);
  }

  lemma {:induction false} UserGrows(u: Parts, v: Seen, a: bool, ch: char, lo: nat)
    requires SeenOk(v, a) && lo + |SeenText(v)| < 0xFFFF && Userinfo !in u.present
    requires !v.colon && !v.close && !v.open && v.name == "" && !v.at && a && ch != '@'
    ensures Grows(u, v, a, ch, lo)
  {
    hide UserChars, NameChars, AddressChars, DigitChars, SeenText, U16;
    SeenLength(v);
    RunGrows(lo, v.user, ch);
  }

  /** A separator. */
  lemma {:induction false} SignGrows(u: Parts, v: Seen, a: bool, ch: char, lo: nat)
    requires SeenOk(v, a) && SeenOk(AddSeen(v, a, ch), a)
    requires var w := AddSeen(v, a, ch); w.user == v.user && w.name == v.name && w.port == v.port
    ensures Grows(u, v, a, ch, lo)
  {
    hide UserChars, NameChars, AddressChars, DigitChars, SeenText, U16;
    var w := AddSeen(v, a, ch);
    assert w.name != "" ==> NameAt(w) == NameAt(v);
  }

  lemma {:induction false} SeenGrows(u: Parts, v: Seen, a: bool, ch: char, lo: nat)
    requires SeenOk(v, a) && SeenOk(AddSeen(v, a, ch), a) && lo + |SeenText(v)| < 0xFFFF && Userinfo !in u.present && Port !in u.present
    ensures Grows(u, v, a, ch, lo)
  {
    hide Grows, UserChars, NameChars, AddressChars, DigitChars, SeenText;
    var w := AddSeen(v, a, ch);
    if v.colon {
      PortGrows(u, v, a, ch, lo);
    } else if w.user == v.user && w.name == v.name && w.port == v.port {
      SignGrows(u, v, a, ch, lo);
    } else if v.open || v.name != "" || v.at || !a {
      NameGrows(u, v, a, ch, lo);
    } else {
      UserGrows(u, v, a, ch, lo);
    }
  }

  /** Where the second pass starts. */
  function HostBegin(a: bool): HostState {
    if a then UserinfoStart else HostStart
  }

  /** The text stands in the buffer at `lo`. */
  predicate StandsAt(buf: string, lo: nat, text: string) {
    lo + |text| <= |buf| && buf[lo..lo + |text|] == text
  }

  lemma {:induction false} StandsBefore(buf: string, lo: nat, text: string, ch: char)
    requires StandsAt(buf, lo, text + [ch])
    ensures StandsAt(buf, lo, text) && lo + |text| < |buf| && buf[lo + |text|] == ch
  {
    var t := text + [ch];
    assert t[..|text|] == text && t[|text|] == ch;
    assert buf[lo..lo + |t|][..|text|] == buf[lo..lo + |text|] && buf[lo..lo + |t|][|text|] == buf[lo + |text|];
  }

  lemma {:induction false} SeenBegins(u: Parts, a: bool, lo: nat)
    requires u.spans[1] == Span(lo, 0)
    ensures SeenText(UNSEEN) == "" && SeenState(UNSEEN, a) == HostBegin(a) && SeenParts(u, UNSEEN, lo) == u && SeenOk(UNSEEN, a)
  {
    assert u.spans[6 := u.spans[6]][1 := u.spans[1]][2 := u.spans[2]] == u.spans;
  }

  /** A text of the server's grammar goes through the second pass, which puts its parts where
      they are. */
  lemma {:induction false} HostText(v: Seen, a: bool, u: Parts, buf: string, lo: nat)
    requires SeenOk(v, a) && |buf| <= 0xFFFF && StandsAt(buf, lo, SeenText(v))
    requires u.spans[1] == Span(lo, 0) && Userinfo !in u.present && Port !in u.present
    ensures HostRun(HostBegin(a), u, buf, lo, lo + |SeenText(v)|) == Some((SeenState(v, a), SeenParts(u, v, lo)))
    decreases |SeenText(v)|
  {
    hide SeenOk, SeenText, SeenState, SeenParts, AddSeen, DropSeen, HostChar, HostStep, StandsAt;
    if v == UNSEEN {
      SeenBegins(u, a, lo);
    } else {
      var (w, ch) := DropSeen(v);
      DropSeenOk(v, a);
      AddSeenText(w, a, ch);
      StandsBefore(buf, lo, SeenText(w), ch);
      HostText(w, a, u, buf, lo);
      HostSnoc(HostBegin(a), u, buf, lo, lo + |SeenText(w)|);
      SeenSteps(w, a, ch);
      SeenAlive(v, a);
      SeenGrows(u, w, a, ch, lo);
    }
  }

  lemma {:induction false} SeenAlive(v: Seen, a: bool)
    ensures SeenState(v, a) != HostDead
  {
  }

  lemma {:induction false} SliceSnoc(buf: string, lo: nat, end: nat)
    requires lo < end <= |buf|
    ensures buf[lo..end] == buf[lo..end - 1] + [buf[end - 1]]
  {
  }

  /** What goes through the second pass is a text of the server's grammar. */
  lemma {:induction false} HostReads(a: bool, u: Parts, buf: string, lo: nat, end: nat) returns (v: Seen)
    requires lo <= end <= |buf| <= 0xFFFF && HostRun(HostBegin(a), u, buf, lo, end).Some?
    requires u.spans[1] == Span(lo, 0) && Userinfo !in u.present && Port !in u.present
    ensures SeenOk(v, a) && SeenText(v) == buf[lo..end] && HostRun(HostBegin(a), u, buf, lo, end) == Some((SeenState(v, a), SeenParts(u, v, lo)))
    decreases end - lo
  {
    hide SeenOk, SeenText, SeenState, SeenParts, AddSeen, HostChar, HostStep;
    if lo == end {
      v := UNSEEN;
      SeenBegins(u, a, lo);
    } else {
      var ch := buf[end - 1];
      HostSnoc(HostBegin(a), u, buf, lo, end - 1);
      var w := HostReads(a, u, buf, lo, end - 1);
      v := AddSeen(w, a, ch);
      SeenSteps(w, a, ch);
      SliceSnoc(buf, lo, end);
      AddSeenText(w, a, ch);
      HostText(v, a, u, buf, lo);
    }
  }

  // ---------- the grammar ----------

  datatype Name = Plain(text: string) | Bracketed(text: string)

  /** A server part, with a user before an at sign and a port behind a colon if it has them. */
  datatype Server = Server(user: Option<string>, name: Name, port: Option<string>)

  datatype Url = Url(scheme: string, server: Option<Server>, path: string, query: Option<string>, fragment: Option<Hashed>)

  predicate IsServer(v: Server) {
    && (v.user.Some? ==> UserChars(v.user.value))
    && v.name.text != "" && (if v.name.Bracketed? then AddressChars(v.name.text) else NameChars(v.name.text))
    && (v.port.Some? ==> v.port.value != "" && DigitChars(v.port.value))
  }

  /** Nothing has a text but the server's name and its port. */
  predicate OnlyServer(u: Url)
    requires u.server.Some?
  {
    && u.scheme == "" && u.path == "" && QueryOf(u.query) == "" && FragmentOf(u.fragment) == ""
    && u.server.value.port.Some? && (u.server.value.user.Some? ==> u.server.value.user.value == "")
  }

  /** A URL that is accepted; with `connect`, one of a CONNECT request. */
  predicate IsUrl(u: Url, connect: bool) {
    && Letters(u.scheme) && (u.scheme != "" || connect <==> u.server.Some?) && (u.server.Some? ==> IsServer(u.server.value))
    && (connect ==> OnlyServer(u))
    && PathChars(u.path) && (u.path != "" ==> u.path[0] == '/' || (u.path[0] == '*' && u.server.None?))
    && (u.query.Some? ==> QueryChars(u.query.value) && (u.path != "" || u.server.Some?))
    && (u.fragment.Some? ==> u.fragment.value.hashes > 0 && FragmentChars(u.fragment.value.text) && (u.path != "" || u.query.Some?))
  }

  function UserText(v: Server): string {
    match v.user case None => "" case Some(s) => s + "@"
  }

  function NameText(n: Name): string {
    match n case Plain(s) => s case Bracketed(s) => "[" + s + "]"
  }

  function PortText(p: Option<string>): string {
    match p case None => "" case Some(s) => ":" + s
  }

  function ServerText(v: Server): string {
    UserText(v) + NameText(v.name) + PortText(v.port)
  }

  function SchemeText(u: Url): string {
    if u.scheme == "" then "" else u.scheme + "://"
  }

  function OriginText(u: Url): string {
    SchemeText(u) + match u.server case None => "" case Some(v) => ServerText(v)
  }

  function Text(u: Url): string {
    OriginText(u) + u.path + QueryText(u.query) + FragmentText(u.fragment)
  }

  /** What a part says; nothing if it is not there. */
  function TextOf(u: Url, f: Part): string {
    match f
    case Schema => u.scheme
    case Userinfo => if u.server.Some? && u.server.value.user.Some? then u.server.value.user.value else ""
    case Host => if u.server.Some? then u.server.value.name.text else ""
    case Port => if u.server.Some? && u.server.value.port.Some? then u.server.value.port.value else ""
    case Path => u.path
    case Query => QueryOf(u.query)
    case Fragment => FragmentOf(u.fragment)
  }

  /** What stands in front of a part. */
  function Front(u: Url, f: Part): string {
    match f
    case Schema => ""
    case Userinfo => SchemeText(u)
    case Host => if u.server.None? then "" else SchemeText(u) + UserText(u.server.value) + (if u.server.value.name.Bracketed? then "[" else "")
    case Port => if u.server.None? then "" else SchemeText(u) + UserText(u.server.value) + NameText(u.server.value.name) + ":"
    case Path => OriginText(u)
    case Query => OriginText(u) + u.path + "?"
    case Fragment => if u.fragment.None? then "" else OriginText(u) + u.path + QueryText(u.query) + Hashes(u.fragment.value.hashes)
  }

  /** A part is present exactly if it has a text, and is found where that stands. */
  predicate Found(u: Url, r: Parts, f: Part) {
    && (f in r.present <==> TextOf(u, f) != "")
    && r.spans[Index(f)] == Placed(TextOf(u, f), |Front(u, f)|)
  }

  ghost predicate Located(u: Url, r: Parts) {
    forall f: Part :: Found(u, r, f)
  }

  // ---------- from one to the other ----------

  function SeenOf(v: Server): Seen {
    var b := v.name.Bracketed?;
    Seen(if v.user.Some? then v.user.value else "", v.user.Some?, b, v.name.text, b, v.port.Some?, if v.port.Some? then v.port.value else "")
  }

  function ServerOf(v: Seen): Server {
    Server(if v.at then Some(v.user) else None, if v.open then Bracketed(v.name) else Plain(v.name), if v.colon then Some(v.port) else None)
  }

  function RawOf(u: Url): Raw {
    Raw(u.scheme, if u.scheme == "" then "" else "://", if u.server.None? then "" else ServerText(u.server.value), u.path, u.query, u.fragment)
  }

  lemma {:induction false} SeenOfText(v: Server)
    ensures SeenText(SeenOf(v)) == ServerText(v)
  {
    hide Sign, UserText, NameText, PortText;
    var w, user := SeenOf(v), UserText(v);
    UserSigns(v);
    NameSigns(user, v.name);
    PortSigns(user + NameText(v.name), v.port);
  }

  lemma {:induction false} UserSigns(v: Server)
    ensures SeenOf(v).user + Sign(SeenOf(v).at, '@') == UserText(v)
  {
  }

  lemma {:induction false} NameSigns(front: string, n: Name)
    ensures front + Sign(n.Bracketed?, '[') + n.text + Sign(n.Bracketed?, ']') == front + NameText(n)
  {
  }

  lemma {:induction false} PortSigns(front: string, port: Option<string>)
    ensures front + Sign(port.Some?, ':') + (if port.Some? then port.value else "") == front + PortText(port)
  {
  }

  lemma {:induction false} SeenOfOk(v: Server)
    requires IsServer(v)
    ensures SeenOk(SeenOf(v), v.user.Some?) && HostEnds(SeenState(SeenOf(v), v.user.Some?)) && ServerText(v) != ""
  {
    hide UserChars, NameChars, AddressChars, DigitChars;
    SeenMore("", ' ');
  }

  lemma {:induction false} ServerOfOk(v: Seen, a: bool)
    requires SeenOk(v, a) && HostEnds(SeenState(v, a))
    ensures IsServer(ServerOf(v)) && SeenOf(ServerOf(v)) == v && a == v.at
  {
    hide UserChars, NameChars, AddressChars, DigitChars;
  }

  lemma {:induction false} SeenChar(v: Seen, a: bool, ch: char)
    requires SeenOk(v, a) && SeenOk(AddSeen(v, a, ch), a)
    ensures UserChar(ch) || ch == '[' || ch == ']' || (ch == '@' && !v.at)
    ensures AddSeen(v, a, ch).at == (v.at || ch == '@')
  {
    hide UserChar, NameChar, HexChar, DigitChar, UserChars, NameChars, AddressChars, DigitChars;
    ServerSigns(ch);
    SeenMore("", ch);
    SeenMore(v.user, ch);
    SeenMore(v.name, ch);
    SeenMore(v.port, ch);
    assert "" + [ch] == [ch];
  }

  /** What the second pass takes for a server is one for the first pass. */
  lemma {:induction false} SeenFits(v: Seen, a: bool)
    requires SeenOk(v, a)
    ensures ServerChars(SeenText(v)) && ('@' in SeenText(v) <==> v.at)
    decreases |SeenText(v)|
  {
    hide SeenOk, SeenText, AddSeen, DropSeen, ServerChars, UserChar;
    if v == UNSEEN {
      assert SeenText(v) == "" by { SeenBegins(Zeroed(), a, 0); }
      CharsMore("", ' ');
    } else {
      var (w, ch) := DropSeen(v);
      DropSeenOk(v, a);
      AddSeenText(w, a, ch);
      SeenFits(w, a);
      SeenChar(w, a, ch);
      ServerMore(SeenText(w), ch);
    }
  }

  lemma {:induction false} RawOfText(u: Url)
    ensures RawText(RawOf(u)) == Text(u)
  {
    var s, v := SchemeText(u), RawOf(u).server;
    assert u.scheme + RawOf(u).slashes == s;
    assert OriginText(u) == s + v;
  }

  lemma {:induction false} RawOfOk(u: Url, connect: bool)
    requires IsUrl(u, connect)
    ensures RawOk(RawOf(u), connect)
    ensures u.server.Some? ==> RawOf(u).server != "" && ('@' in RawOf(u).server <==> u.server.value.user.Some?)
  {
    hide IsServer, PathChars, QueryChars, FragmentChars, Letters, ServerText, ServerChars;
    CharsMore("", ' ');
    if u.server.Some? {
      var v := u.server.value;
      SeenOfOk(v);
      SeenOfText(v);
      SeenFits(SeenOf(v), v.user.Some?);
    }
  }

  lemma {:induction false} ServerStands(r: Raw)
    ensures StandsAt(RawText(r), |r.scheme| + |r.slashes|, r.server)
  {
    var front, rest := r.scheme + r.slashes, r.path + QueryText(r.query) + FragmentText(r.fragment);
    assert RawText(r) == front + r.server + rest;
  }

  /** The parts after the first pass, with the server part to be divided. */
  function Opened(r: Raw): Parts {
    FirstPass(r).(spans := FirstPass(r).spans[1 := Span(|r.scheme| + |r.slashes|, 0)])
  }

  /** The second pass, on a server part that the first pass has found. */
  lemma {:induction false} SecondPass(r: Raw, buf: string)
    requires buf == RawText(r) && |buf| <= 0xFFFF && r.server != ""
    ensures var lo := |r.scheme| + |r.slashes|;
      && FirstPass(r).spans[1] == Span(lo, |r.server|) && lo + |r.server| <= |buf| && buf[lo..lo + |r.server|] == r.server
      && Opened(r).spans[1] == Span(lo, 0) && Userinfo !in Opened(r).present && Port !in Opened(r).present
      && SplitHost(FirstPass(r), '@' in r.server, buf) ==
           match HostRun(HostBegin('@' in r.server), Opened(r), buf, lo, lo + |r.server|)
           case None => None case Some((t, v)) => if HostEnds(t) then Some(v) else None
  {
    hide HostRun, HostFrom, RawText;
    ServerStands(r);
    var lo := |r.scheme| + |r.slashes|;
    HostFromRun(HostBegin('@' in r.server), Opened(r), buf, lo, lo + |r.server|);
  }

  lemma {:induction false} FoundFirst(u: Url, f: Part)
    requires u.server.None? && u.scheme == ""
    ensures Found(u, FirstPass(RawOf(u)), f)
  {
    hide FragmentText, QueryText, SchemeText, PathAt, HashAt;
    RawOfLengths(u);
  }

  lemma {:induction false} FirstLocated(u: Url)
    requires u.server.None? && u.scheme == ""
    ensures Located(u, FirstPass(RawOf(u)))
  {
    hide Found, FirstPass;
    forall f: Part ensures Found(u, FirstPass(RawOf(u)), f) {
      FoundFirst(u, f);
    }
  }

  lemma {:induction false} RawOfLengths(u: Url)
    ensures var r := RawOf(u);
      && |r.scheme| + |r.slashes| == |SchemeText(u)| && PathAt(r) == |OriginText(u)|
      && (u.fragment.Some? ==> HashAt(r) + u.fragment.value.hashes == |Front(u, Fragment)|)
  {
  }

  lemma {:induction false} ServerLengths(v: Server)
    ensures var w := SeenOf(v);
      && NameAt(w) == |UserText(v)| + (if v.name.Bracketed? then 1 else 0)
      && (v.port.Some? ==> PortAt(w) == |UserText(v)| + |NameText(v.name)| + 1)
  {
  }

  /** The parts outside the server part are those of the first pass. */
  lemma {:induction false} FoundOutside(u: Url, f: Part)
    requires u.server.Some? && f in {Schema, Path, Query, Fragment}
    ensures Found(u, SeenParts(Opened(RawOf(u)), SeenOf(u.server.value), |SchemeText(u)|), f)
  {
    hide FragmentText, QueryText, ServerText, NameAt, PortAt, SchemeText, PathAt, HashAt, Placed;
    RawOfLengths(u);
    var r := SeenParts(Opened(RawOf(u)), SeenOf(u.server.value), |SchemeText(u)|);
    assert r.spans[Index(f)] == FirstPass(RawOf(u)).spans[Index(f)];
    assert f in r.present <==> f in FirstPass(RawOf(u)).present;
  }

  lemma {:induction false} FoundInServer(u: Url, f: Part)
    requires u.server.Some? && IsServer(u.server.value) && f in {Userinfo, Host, Port}
    ensures Found(u, SeenParts(Opened(RawOf(u)), SeenOf(u.server.value), |SchemeText(u)|), f)
  {
    hide FragmentText, QueryText, UserText, NameText, ServerText, NameAt, PortAt, SchemeText, PathAt, HashAt;
    RawOfLengths(u);
    ServerLengths(u.server.value);
    SeenOfOk(u.server.value);
    assert RawOf(u).server != "";
  }

  lemma {:induction false} ServerLocated(u: Url)
    requires u.server.Some? && IsServer(u.server.value)
    ensures Located(u, SeenParts(Opened(RawOf(u)), SeenOf(u.server.value), |SchemeText(u)|))
  {
    hide Found, SeenParts, IsServer;
    forall f: Part ensures Found(u, SeenParts(Opened(RawOf(u)), SeenOf(u.server.value), |SchemeText(u)|), f) {
      if f == Userinfo || f == Host || f == Port { FoundInServer(u, f); } else { FoundOutside(u, f); }
    }
  }

  /** The parts that SplitUrl looks at to decide. */
  lemma {:induction false} FirstPresent(r: Raw)
    ensures (Schema in FirstPass(r).present <==> r.scheme != "") && (Host in FirstPass(r).present <==> r.server != "")
  {
  }

  lemma {:induction false} ConnectParts(u: Url, r: Parts)
    requires Located(u, r) && u.server.Some? && IsServer(u.server.value)
    ensures r.present == {Host, Port} <==> OnlyServer(u)
  {
    hide Front, Placed, Index;
    assert Found(u, r, Schema) && Found(u, r, Userinfo) && Found(u, r, Host) && Found(u, r, Port) && Found(u, r, Path) && Found(u, r, Query) && Found(u, r, Fragment);
    if OnlyServer(u) {
      forall f: Part ensures f in r.present <==> f in {Host, Port} {
        assert Found(u, r, f);
      }
    }
  }

  /** The server part found by the first pass is divided by the second. */
  lemma {:induction false} SplitServer(u: Url, connect: bool)
    requires IsUrl(u, connect) && |Text(u)| <= 0xFFFF && u.server.Some?
    ensures SplitHost(FirstPass(RawOf(u)), '@' in RawOf(u).server, Text(u)) == Some(SeenParts(Opened(RawOf(u)), SeenOf(u.server.value), |SchemeText(u)|))
  {
    hide IsUrl, IsServer, RawOk, RawText, SplitHost, HostRun, SeenParts, FirstPass, ServerText, SeenOk, SeenState, HostEnds;
    var r, buf, v := RawOf(u), Text(u), u.server.value;
    RawOfText(u);
    RawOfOk(u, connect);
    UrlServer(u, connect);
    RawOfLengths(u);
    SecondPass(r, buf);
    SeenOfOk(v);
    SeenOfText(v);
    HostText(SeenOf(v), v.user.Some?, Opened(r), buf, |SchemeText(u)|);
  }

  /** Splitting a text of the grammar gives back its parts. */
  lemma {:induction false} SplitText(u: Url, connect: bool)
    requires IsUrl(u, connect) && |Text(u)| <= 0xFFFF
    ensures SplitUrl(Text(u), connect).Some? && Located(u, SplitUrl(Text(u), connect).value)
  {
    hide IsUrl, IsServer, RawOk, RawText, Text, ScanFrom, SplitHost, Located, SeenParts, Opened, FirstPass, OnlyServer;
    var r := RawOf(u);
    RawOfText(u);
    RawOfOk(u, connect);
    ScanText(r, connect);
    FirstPresent(r);
    UrlServer(u, connect);
    if u.server.None? {
      FirstLocated(u);
    } else {
      SplitServer(u, connect);
      ServerLocated(u);
      ConnectParts(u, SeenParts(Opened(r), SeenOf(u.server.value), |SchemeText(u)|));
    }
  }


  lemma {:induction false} UrlServer(u: Url, connect: bool)
    requires IsUrl(u, connect)
    ensures (u.scheme != "" || connect <==> u.server.Some?) && (u.server.Some? ==> IsServer(u.server.value)) && (connect ==> OnlyServer(u))
  {
  }

  /** The URL that has been told apart. */
  function UrlOf(r: Raw, v: Seen): Url {
    Url.Url(r.scheme, if r.server == "" then None else Some(ServerOf(v)), r.path, r.query, r.fragment)
  }

  lemma {:induction false} UrlWithout(r: Raw)
    requires RawOk(r, false) && r.scheme == "" && r.server == ""
    ensures IsUrl(UrlOf(r, UNSEEN), false) && RawOf(UrlOf(r, UNSEEN)) == r
  {
    hide PathChars, QueryChars, FragmentChars, Letters, ServerChars;
  }

  lemma {:induction false} UrlWith(r: Raw, connect: bool, v: Seen)
    requires RawOk(r, connect) && r.server != "" && SeenText(v) == r.server && SeenOk(v, '@' in r.server) && HostEnds(SeenState(v, '@' in r.server))
    requires connect ==> OnlyServer(UrlOf(r, v))
    ensures IsUrl(UrlOf(r, v), connect) && RawOf(UrlOf(r, v)) == r
  {
    hide PathChars, QueryChars, FragmentChars, Letters, ServerChars, SeenOk, HostEnds, ServerText, SeenText, IsServer, OnlyServer;
    ServerOfOk(v, '@' in r.server);
    SeenOfText(ServerOf(v));
  }

  /** Without a server part the second pass fails. */
  lemma {:induction false} NoServer(r: Raw, buf: string)
    requires r.server == "" && |buf| <= 0xFFFF
    ensures FirstPass(r).spans[1] == Span(0, 0) && SplitHost(FirstPass(r), '@' in r.server, buf) == None
  {
  }

  /** What is split is a text of the grammar. */
  lemma {:induction false} SplitReads(buf: string, connect: bool) returns (u: Url)
    requires |buf| <= 0xFFFF && SplitUrl(buf, connect).Some?
    ensures IsUrl(u, connect) && Text(u) == buf
  {
    hide IsUrl, IsServer, RawOk, RawText, Text, ScanFrom, SplitHost, HostRun, Located, SeenParts, FirstPass, ServerText, OnlyServer, SeenOk, SeenText, SeenState, HostEnds;
    hide RawOf, UrlOf, Opened;
    StartOk(buf, connect);
    var r := ScanReads(buf, connect);
    FirstPresent(r);
    if r.scheme == "" && r.server == "" {
      u := UrlOf(r, UNSEEN);
      UrlWithout(r);
    } else if r.server == "" {
      NoServer(r, buf);
      assert false;
    } else {
      var lo := |r.scheme| + |r.slashes|;
      SecondPass(r, buf);
      var v := HostReads('@' in r.server, Opened(r), buf, lo, lo + |r.server|);
      u := UrlOf(r, v);
      if connect { ConnectRead(r, v, buf); }
      UrlWith(r, connect, v);
    }
    RawOfText(u);
  }

  lemma {:induction false} ConnectRead(r: Raw, v: Seen, buf: string)
    requires r.server != "" && SeenOk(v, '@' in r.server) && HostEnds(SeenState(v, '@' in r.server)) && SeenText(v) == r.server
    requires RawOk(r, true) && SeenParts(Opened(r), v, |r.scheme| + |r.slashes|).present == {Host, Port}
    ensures OnlyServer(UrlOf(r, v))
  {
    hide SeenOk, SeenText, SeenState, HostEnds, RawOk;
    ServerOfOk(v, '@' in r.server);
    var present := SeenParts(Opened(r), v, |r.scheme| + |r.slashes|).present;
    assert Schema !in present && Userinfo !in present && Path !in present && Query !in present && Fragment !in present && Port in present;
  }

  /** A URL is accepted exactly if it is a text of the grammar; and whichever way it is composed,
      each part is found where its text stands. */
  lemma {:induction false} SplitExact(buf: string, connect: bool)
    requires |buf| <= 0xFFFF
    ensures SplitUrl(buf, connect).Some? <==> exists u :: IsUrl(u, connect) && Text(u) == buf
    ensures forall u :: IsUrl(u, connect) && Text(u) == buf ==> SplitUrl(buf, connect).Some? && Located(u, SplitUrl(buf, connect).value)
  {
    hide SplitUrl, IsUrl, Text, Located;
    if SplitUrl(buf, connect).Some? {
      var u := SplitReads(buf, connect);
      assert IsUrl(u, connect) && Text(u) == buf;
    }
    forall u | IsUrl(u, connect) && Text(u) == buf ensures SplitUrl(buf, connect).Some? && Located(u, SplitUrl(buf, connect).value) {
      SplitText(u, connect);
    }
  }
}
