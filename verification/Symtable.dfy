/** The symbol table: one walk over the syntax tree that flags every name of every function
    as declared, free, builtin or special. */
module Symbols {
  import opened Options
  import opened Syntax
  import opened Semantics
  import opened Closures

  datatype Flag = Decl | Free | Builtin | Special

  datatype Kind = ModuleScope | FuncScope

  /** The table entry of one scope; `parent` is the entry of the scope around it. */
  datatype Entry = Entry(symbols: map<Name, Flag>, parent: Option<nat>, kind: Kind)

  /** Entries are referred to by position; `lookup` finds the entry of a syntax node. */
  datatype Table = Table(entries: seq<Entry>, current: Option<nat>, stack: seq<nat>, lookup: map<nat, nat>)

  // ---------- the walk as a sequence of events ----------

  /** What the walk meets, in order. `Reject` is a node it does not know. */
  datatype Event = Declare(id: Name) | Use(id: Name) | Scope(node: nat, events: seq<Event>) | Reject

  function Declared(ids: seq<Name>): seq<Event> {
    if ids == [] then [] else [Declare(ids[0])] + Declared(ids[1..])
  }

  function FnEvents(fn: FnDecl): seq<Event> {
    Declared(fn.params) + StmtsEvents(fn.body)
  }

  /** The key of an item access is not visited. */
  function ExprEvents(e: Expr): seq<Event> {
    match e
    case Lit(_) => []
    case NilLit => []
    case Ident(id) => [Use(id)]
    case ArrayLit(items) => ExprsEvents(items)
    case HashLit(items) => ExprsEvents(items)
    case CallExpr(t, args) => ExprEvents(t) + ExprsEvents(args)
    case GetAttrExpr(t, _) => ExprEvents(t)
    case GetItemExpr(t, _) => ExprEvents(t)
    case NotExpr(x) => ExprEvents(x)
    case Binary(_, l, r) => ExprEvents(l) + ExprEvents(r)
    case FnExpr(fn) => [Scope(fn.id, FnEvents(fn))]
    case SpawnExpr(t, args) => ExprEvents(t) + ExprsEvents(args)
    case Wildcard => [Reject]
  }

  function ExprsEvents(es: seq<Expr>): seq<Event> {
    if es == [] then [] else ExprEvents(es[0]) + ExprsEvents(es[1..])
  }

  /** Names in a pattern are declarations. */
  function PatEvents(p: Expr): seq<Event> {
    match p
    case Ident(id) => [Declare(id)]
    case ArrayLit(items) => PatsEvents(items)
    case HashLit(items) => PatsEvents(items)
    case _ => []
  }

  function PatsEvents(ps: seq<Expr>): seq<Event> {
    if ps == [] then [] else PatEvents(ps[0]) + PatsEvents(ps[1..])
  }

  function StmtEvents(s: Stmt): seq<Event> {
    match s
    case ExprStmt(e) => ExprEvents(e)
    case Assign(id, e) => [Use(id)] + ExprEvents(e)
    case VarDecl(id) => [Declare(id)]
    case VarInit(id, e) => [Declare(id)] + ExprEvents(e)
    case FuncDecl(id, fn) => [Declare(id), Scope(fn.id, FnEvents(fn))]
    case If(c, b) => ExprEvents(c) + StmtsEvents(b)
    case IfElse(c, b, o) => ExprEvents(c) + StmtsEvents(b) + StmtsEvents(o)
    case While(c, b) => ExprEvents(c) + StmtsEvents(b)
    case Match(e, arms) => ExprEvents(e) + ArmsEvents(arms)
    case RetNil => []
    case Ret(e) => ExprEvents(e)
    case Break => []
  }

  function StmtsEvents(ss: seq<Stmt>): seq<Event> {
    if ss == [] then [] else StmtEvents(ss[0]) + StmtsEvents(ss[1..])
  }

  function ArmsEvents(arms: seq<Arm>): seq<Event> {
    if arms == [] then [] else PatEvents(arms[0].test) + StmtsEvents(arms[0].body) + ArmsEvents(arms[1..])
  }

  // ---------- what an event does to the table ----------

  /** Parents are older than their children. */
  ghost predicate Rooted(entries: seq<Entry>) {
    forall i :: 0 <= i < |entries| && entries[i].parent.Some? ==> entries[i].parent.value < i
  }

  ghost predicate Sound(t: Table) {
    && Rooted(t.entries)
    && (t.current.Some? ==> t.current.value < |t.entries|)
    && (forall i :: 0 <= i < |t.stack| ==> t.stack[i] < |t.entries|)
  }

  /** The nearest entry, from `at` outwards, that has the name. */
  function Find(entries: seq<Entry>, at: Option<nat>, id: Name): (r: Option<nat>)
    requires Rooted(entries) && (at.Some? ==> at.value < |entries|)
    ensures r.Some? ==> r.value < |entries| && id in entries[r.value].symbols
    decreases if at.Some? then at.value + 1 else 0
  {
    if at.None? then None
    else if id in entries[at.value].symbols then at
    else Find(entries, entries[at.value].parent, id)
  }

  function Enter(t: Table, node: nat, kind: Kind): Table {
    Table(t.entries + [Entry(map[], t.current, kind)], Some(|t.entries|),
          if t.current.Some? then t.stack + [t.current.value] else t.stack, t.lookup[node := |t.entries|])
  }

  function Leave(t: Table): Table {
    if t.stack == [] then t else t.(current := Some(t.stack[|t.stack| - 1]), stack := t.stack[..|t.stack| - 1])
  }

  function Put(t: Table, id: Name, flag: Flag): Table
    requires t.current.Some? && t.current.value < |t.entries|
  {
    var e := t.entries[t.current.value];
    t.(entries := t.entries[t.current.value := e.(symbols := e.symbols[id := flag])])
  }

  function UseName(t: Table, id: Name, builtins: set<Name>): Option<Table>
    requires Sound(t) && t.current.Some?
  {
    match Find(t.entries, t.current, id)
    case Some(found) =>
      Some(if found == t.current.value || t.entries[found].kind.ModuleScope? then t else Put(t, id, Free))
    case None =>
      if id in builtins then Some(Put(t, id, Builtin))
      else if id == "__file__" || id == "__line__" then Some(Put(t, id, Special))
      else None
  }

  /** Events of a scope change the symbols of its own entry and add entries; nothing else. */
  ghost predicate Grew(t: Table, t': Table) {
    && Sound(t') && t'.current == t.current && t'.stack == t.stack
    && |t.entries| <= |t'.entries|
    && forall i :: 0 <= i < |t.entries| ==>
         && t'.entries[i].parent == t.entries[i].parent && t'.entries[i].kind == t.entries[i].kind
         && t.entries[i].symbols.Keys <= t'.entries[i].symbols.Keys
         && (Some(i) != t.current ==> t'.entries[i] == t.entries[i])
  }

  function RunEvent(t: Table, e: Event, builtins: set<Name>): (r: Option<Table>)
    requires Sound(t) && t.current.Some?
    ensures r.Some? ==> Grew(t, r.value)
    decreases e
  {
    match e
    case Declare(id) => Some(Put(t, id, Decl))
    case Use(id) => UseName(t, id, builtins)
    case Scope(node, events) =>
      (match RunEvents(Enter(t, node, FuncScope), events, builtins)
       case None => None
       case Some(t1) => Some(Leave(t1)))
    case Reject => None
  }

  function RunEvents(t: Table, es: seq<Event>, builtins: set<Name>): (r: Option<Table>)
    requires Sound(t) && t.current.Some?
    ensures r.Some? ==> Grew(t, r.value)
    decreases es
  {
    if es == [] then Some(t) else
    match RunEvent(t, es[0], builtins)
    case None => None
    case Some(t1) => RunEvents(t1, es[1..], builtins)
  }

  lemma {:induction false} RunAppend(t: Table, a: seq<Event>, b: seq<Event>, builtins: set<Name>)
    requires Sound(t) && t.current.Some?
    ensures RunEvents(t, a + b, builtins) ==
      match RunEvents(t, a, builtins)
      case None => None
      case Some(t1) => RunEvents(t1, b, builtins)
    decreases a
  {
    if a == [] {
      assert a + b == b;
    } else {
      assert (a + b)[0] == a[0] && (a + b)[1..] == a[1..] + b;
      var r := RunEvent(t, a[0], builtins);
      if r.Some? { RunAppend(r.value, a[1..], b, builtins); }
    }
  }

  // ---------- what the flags mean ----------

  /** The names a scope declares itself, and the names it uses itself. */
  function Declares(es: seq<Event>): set<Name> {
    if es == [] then {} else (if es[0].Declare? then {es[0].id} else {}) + Declares(es[1..])
  }

  function Uses(es: seq<Event>): set<Name> {
    if es == [] then {} else (if es[0].Use? then {es[0].id} else {}) + Uses(es[1..])
  }

  /** Some scope of this kind around entry `at`, or `at` itself, has the name. */
  ghost predicate Around(entries: seq<Entry>, at: Option<nat>, id: Name, kind: Kind)
    requires Rooted(entries) && (at.Some? ==> at.value < |entries|)
    decreases if at.Some? then at.value + 1 else 0
  {
    at.Some? && ((entries[at.value].kind == kind && id in entries[at.value].symbols) || Around(entries, entries[at.value].parent, id, kind))
  }

  /** The flags of a finished scope: its own declarations are declared; every other name it
      uses is flagged or belongs to the module; and a free name is used, not declared, and
      known to a function around it. */
  ghost predicate Flagged(t: Table, n: nat, es: seq<Event>)
    requires Rooted(t.entries) && n < |t.entries|
  {
    var symbols := t.entries[n].symbols;
    && (forall x :: x in symbols && symbols[x] == Decl <==> x in Declares(es))
    && (forall x :: x in Uses(es) ==> x in symbols || Around(t.entries, t.entries[n].parent, x, ModuleScope))
    && (forall x :: x in symbols && symbols[x] == Free ==>
          x in Uses(es) && x !in Declares(es) && Around(t.entries, t.entries[n].parent, x, FuncScope))
  }

  /** The same for a scope whose walk has begun with some symbols and met `es` since. */
  ghost predicate Flags(t: Table, t': Table, n: nat, es: seq<Event>)
    requires Rooted(t.entries) && Rooted(t'.entries) && n < |t.entries| && n < |t'.entries|
  {
    var before, after := t.entries[n].symbols, t'.entries[n].symbols;
    && (forall x :: x in after && after[x] == Decl <==> (x in before && before[x] == Decl) || x in Declares(es))
    && (forall x :: x in Uses(es) ==> x in after || Around(t'.entries, t'.entries[n].parent, x, ModuleScope))
    && (forall x :: x in after && after[x] == Free ==>
          (x in before && before[x] == Free) || (x in Uses(es) && Around(t'.entries, t'.entries[n].parent, x, FuncScope)))
  }

  lemma {:induction false} AroundGrows(t: Table, t': Table, at: Option<nat>, id: Name, kind: Kind)
    requires Sound(t) && Grew(t, t') && (at.Some? ==> at.value < |t.entries|)
    requires Around(t.entries, at, id, kind)
    ensures Around(t'.entries, at, id, kind)
    decreases if at.Some? then at.value + 1 else 0
  {
    if !(t.entries[at.value].kind == kind && id in t.entries[at.value].symbols) {
      AroundGrows(t, t', t.entries[at.value].parent, id, kind);
    }
  }

  /** The scope a name is found in lies around the current one. */
  lemma {:induction false} FindAround(entries: seq<Entry>, at: Option<nat>, id: Name)
    requires Rooted(entries) && (at.Some? ==> at.value < |entries|)
    ensures var r := Find(entries, at, id); r.Some? ==> Around(entries, at, id, entries[r.value].kind)
    decreases if at.Some? then at.value + 1 else 0
  {
    if at.Some? && id !in entries[at.value].symbols { FindAround(entries, entries[at.value].parent, id); }
  }

  lemma {:induction false} UseFlags(t: Table, id: Name, builtins: set<Name>)
    requires Sound(t) && t.current.Some? && UseName(t, id, builtins).Some?
    ensures Flags(t, UseName(t, id, builtins).value, t.current.value, [Use(id)])
  {
    var n, t' := t.current.value, UseName(t, id, builtins).value;
    assert [Use(id)][1..] == [];
    assert RunEvent(t, Use(id), builtins) == Some(t');
    FindAround(t.entries, t.entries[n].parent, id);
    var r := Find(t.entries, t.entries[n].parent, id);
    if r.Some? { AroundGrows(t, t', t.entries[n].parent, id, t.entries[r.value].kind); }
  }

  lemma {:induction false} EventFlags(t: Table, e: Event, builtins: set<Name>)
    requires Sound(t) && t.current.Some? && RunEvent(t, e, builtins).Some?
    ensures Flags(t, RunEvent(t, e, builtins).value, t.current.value, [e])
  {
    var n, t' := t.current.value, RunEvent(t, e, builtins).value;
    assert [e][1..] == [];
    match e
    case Declare(_) =>
    case Use(id) => UseFlags(t, id, builtins);
    case Scope(node, events) =>
      assert t'.entries[n] == t.entries[n] by { assert Enter(t, node, FuncScope).entries[n] == t.entries[n]; }
    case Reject =>
  }

  lemma {:induction false} FlagsTrans(t: Table, t1: Table, t2: Table, n: nat, es: seq<Event>)
    requires Sound(t) && Sound(t1) && Grew(t1, t2) && n < |t.entries| && n < |t1.entries| && es != []
    requires Flags(t, t1, n, [es[0]]) && Flags(t1, t2, n, es[1..])
    ensures Flags(t, t2, n, es)
  {
    forall x, kind | Around(t1.entries, t1.entries[n].parent, x, kind)
      ensures Around(t2.entries, t2.entries[n].parent, x, kind)
    {
      AroundGrows(t1, t2, t1.entries[n].parent, x, kind);
    }
    hide Around, Rooted;
    assert Declares(es) == Declares([es[0]]) + Declares(es[1..]) by { assert [es[0]][1..] == []; }
    assert Uses(es) == Uses([es[0]]) + Uses(es[1..]) by { assert [es[0]][1..] == []; }
    hide Declares, Uses;
    var n1, n2 := t1.entries[n].symbols, t2.entries[n].symbols;
    assert n1.Keys <= n2.Keys;
    forall x | x in n2 && n2[x] == Free
      ensures (x in t.entries[n].symbols && t.entries[n].symbols[x] == Free) || (x in Uses(es) && Around(t2.entries, t2.entries[n].parent, x, FuncScope))
    {
    }
  }

  lemma {:induction false} EventsFlags(t: Table, es: seq<Event>, builtins: set<Name>)
    requires Sound(t) && t.current.Some? && RunEvents(t, es, builtins).Some?
    ensures Flags(t, RunEvents(t, es, builtins).value, t.current.value, es)
    decreases es
  {
    if es != [] {
      hide RunEvent, Flags;
      var t1 := RunEvent(t, es[0], builtins).value;
      EventFlags(t, es[0], builtins);
      EventsFlags(t1, es[1..], builtins);
      FlagsTrans(t, t1, RunEvents(t1, es[1..], builtins).value, t.current.value, es);
    }
  }

  // ---------- every scope of the tree ----------

  function Nodes(es: seq<Event>): set<nat> {
    if es == [] then {} else (if es[0].Scope? then {es[0].node} + Nodes(es[0].events) else {}) + Nodes(es[1..])
  }

  /** No syntax node opens two scopes. */
  predicate Distinct(es: seq<Event>) {
    es == [] ||
    (Distinct(es[1..]) &&
     (es[0].Scope? ==>
        && Distinct(es[0].events)
        && es[0].node !in Nodes(es[0].events) && es[0].node !in Nodes(es[1..])
        && Nodes(es[0].events) !! Nodes(es[1..])))
  }

  /** Every scope among the events, at any depth, has an entry with the right flags. */
  ghost predicate AllFlagged(t: Table, lo: nat, es: seq<Event>)
    requires Rooted(t.entries)
    decreases es
  {
    es == [] ||
    (AllFlagged(t, lo, es[1..]) &&
     (es[0].Scope? ==>
        && es[0].node in t.lookup && lo <= t.lookup[es[0].node] < |t.entries|
        && Flagged(t, t.lookup[es[0].node], es[0].events)
        && AllFlagged(t, lo, es[0].events)))
  }

  lemma {:induction false} FlaggedStays(t: Table, t': Table, n: nat, es: seq<Event>)
    requires Sound(t) && Grew(t, t') && n < |t.entries| && Some(n) != t.current && Flagged(t, n, es)
    ensures Flagged(t', n, es)
  {
    forall x, kind | Around(t.entries, t.entries[n].parent, x, kind)
      ensures Around(t'.entries, t'.entries[n].parent, x, kind)
    {
      AroundGrows(t, t', t.entries[n].parent, x, kind);
    }
  }

  lemma {:induction false} AllFlaggedStays(t: Table, t': Table, lo: nat, lo': nat, es: seq<Event>)
    requires Sound(t) && Grew(t, t') && AllFlagged(t, lo, es) && lo' <= lo && (t.current.Some? ==> t.current.value < lo)
    requires forall node :: node in Nodes(es) && node in t.lookup ==> node in t'.lookup && t'.lookup[node] == t.lookup[node]
    ensures AllFlagged(t', lo', es)
    decreases es
  {
    assert |t.entries| <= |t'.entries| && Rooted(t'.entries);
    hide Grew, Flagged, Rooted;
    if es != [] {
      AllFlaggedStays(t, t', lo, lo', es[1..]);
      if es[0].Scope? {
        assert es[0].node in Nodes(es);
        FlaggedStays(t, t', t.lookup[es[0].node], es[0].events);
        AllFlaggedStays(t, t', lo, lo', es[0].events);
      }
    }
  }

  lemma {:induction false} LookupKept(t: Table, es: seq<Event>, builtins: set<Name>, node: nat)
    requires Sound(t) && t.current.Some? && RunEvents(t, es, builtins).Some?
    requires node in t.lookup && node !in Nodes(es)
    ensures var t' := RunEvents(t, es, builtins).value; node in t'.lookup && t'.lookup[node] == t.lookup[node]
    decreases es
  {
    if es != [] {
      if es[0].Scope? { LookupKept(Enter(t, es[0].node, FuncScope), es[0].events, builtins, node); }
      LookupKept(RunEvent(t, es[0], builtins).value, es[1..], builtins, node);
    }
  }

  lemma {:induction false} AllFlaggedAfter(t: Table, es: seq<Event>, builtins: set<Name>)
    requires Sound(t) && t.current.Some? && RunEvents(t, es, builtins).Some? && Distinct(es)
    ensures AllFlagged(RunEvents(t, es, builtins).value, |t.entries|, es)
    decreases es
  {
    if es != [] {
      var t1 := RunEvent(t, es[0], builtins).value;
      var t2 := RunEvents(t1, es[1..], builtins).value;
      AllFlaggedAfter(t1, es[1..], builtins);
      AllFlaggedStays(t2, t2, |t1.entries|, |t.entries|, es[1..]);
      hide RunEvent, Flagged;
      if es[0].Scope? {
        assert [es[0]][1..] == [];
        ScopeFlagged(t, es[0], builtins);
        forall node | node in Nodes([es[0]]) && node in t1.lookup
          ensures node in t2.lookup && t2.lookup[node] == t1.lookup[node]
        {
          LookupKept(t1, es[1..], builtins, node);
        }
        AllFlaggedStays(t1, t2, |t.entries|, |t.entries|, [es[0]]);
      }
    }
  }

  lemma {:induction false} ScopeFlagged(t: Table, e: Event, builtins: set<Name>)
    requires Sound(t) && t.current.Some? && RunEvent(t, e, builtins).Some? && e.Scope? && Distinct([e])
    ensures AllFlagged(RunEvent(t, e, builtins).value, |t.entries|, [e])
    decreases e, 0
  {
    assert [e][1..] == [];
    var t0, n := Enter(t, e.node, FuncScope), |t.entries|;
    var t1 := RunEvents(t0, e.events, builtins).value;
    AllFlaggedAfter(t0, e.events, builtins);
    EventsFlags(t0, e.events, builtins);
    LookupKept(t0, e.events, builtins, e.node);
    var t' := Leave(t1);
    assert t'.entries == t1.entries && t'.lookup == t1.lookup;
    LeaveFlagged(t1, n + 1, n, e.events);
    assert Flagged(t', n, e.events);
  }

  lemma {:induction false} LeaveFlagged(t: Table, lo: nat, lo': nat, es: seq<Event>)
    requires Sound(t) && AllFlagged(t, lo, es) && lo' <= lo
    ensures AllFlagged(Leave(t), lo', es)
    decreases es
  {
    if es != [] {
      LeaveFlagged(t, lo, lo', es[1..]);
      if es[0].Scope? { LeaveFlagged(t, lo, lo', es[0].events); }
    }
  }

  // ---------- whole modules ----------

  function ModuleEvents(uses: seq<Name>, body: seq<Stmt>): seq<Event> {
    Declared(uses) + StmtsEvents(body)
  }

  function Empty(): Table {
    Table([], None, [], map[])
  }

  /** The table of a module; nothing if a name is unknown. */
  function ModuleTable(node: nat, uses: seq<Name>, body: seq<Stmt>, builtins: set<Name>): (r: Option<Table>)
    ensures r.Some? ==> Sound(r.value) && 0 < |r.value.entries|
  {
    match RunEvents(Enter(Empty(), node, ModuleScope), ModuleEvents(uses, body), builtins)
    case None => None
    case Some(t) => Some(Leave(t))
  }

  /** In an accepted module every function, however deeply nested, has an entry of its own with
      the right flags. */
  lemma {:induction false} ModuleFlagged(node: nat, uses: seq<Name>, body: seq<Stmt>, builtins: set<Name>)
    requires ModuleTable(node, uses, body, builtins).Some? && Distinct(ModuleEvents(uses, body))
    ensures AllFlagged(ModuleTable(node, uses, body, builtins).value, 1, ModuleEvents(uses, body))
  {
    var t := Enter(Empty(), node, ModuleScope);
    AllFlaggedAfter(t, ModuleEvents(uses, body), builtins);
    LeaveFlagged(RunEvents(t, ModuleEvents(uses, body), builtins).value, 1, 1, ModuleEvents(uses, body));
  }

  /** The compiler takes a function's variables and free names from its entry. */
  ghost predicate Takes(fn: FnDecl, symbols: map<Name, Flag>) {
    && (forall x :: x in fn.vars <==> x in symbols && symbols[x] == Decl)
    && (forall x :: x in fn.freevars <==> x in symbols && symbols[x] == Free)
  }

  lemma {:induction false} FreeEvent(t: Table, e: Event, builtins: set<Name>, x: Name)
    requires Sound(t) && t.current.Some? && RunEvent(t, e, builtins).Some? && e != Declare(x)
    requires var e := t.entries[t.current.value];
      && (x in e.symbols ==> e.symbols[x] == Free)
      && e.parent.Some? && t.entries[e.parent.value].kind == FuncScope && x in t.entries[e.parent.value].symbols
    ensures var symbols := RunEvent(t, e, builtins).value.entries[t.current.value].symbols;
      (x in symbols ==> symbols[x] == Free) && (e == Use(x) ==> x in symbols)
  {
    var n := t.current.value;
    match e
    case Use(id) =>
      assert Find(t.entries, t.entries[n].parent, x) == t.entries[n].parent;
      assert x !in t.entries[n].symbols ==> Find(t.entries, t.current, x) == t.entries[n].parent;
    case Scope(node, events) =>
      assert Enter(t, node, FuncScope).entries[n] == t.entries[n];
    case _ =>
  }

  /** A name that the function around a literal has when the literal is met, and that the
      literal uses without declaring it, ends up free in the literal. */
  lemma {:induction false} FreeIfKnown(t: Table, es: seq<Event>, builtins: set<Name>, x: Name)
    requires Sound(t) && t.current.Some? && RunEvents(t, es, builtins).Some? && x !in Declares(es)
    requires var e := t.entries[t.current.value];
      && (x in e.symbols ==> e.symbols[x] == Free)
      && e.parent.Some? && t.entries[e.parent.value].kind == FuncScope && x in t.entries[e.parent.value].symbols
    ensures var symbols := RunEvents(t, es, builtins).value.entries[t.current.value].symbols;
      (x in symbols ==> symbols[x] == Free) && (x in Uses(es) ==> x in symbols)
    decreases es
  {
    if es != [] {
      var n, t1 := t.current.value, RunEvent(t, es[0], builtins).value;
      FreeEvent(t, es[0], builtins, x);
      assert t1.entries[n].parent == t.entries[n].parent;
      FreeIfKnown(t1, es[1..], builtins, x);
    }
  }

  /** What a frame of a function has: exactly its own declarations and, if it was called as a
      closure, its free names, which all belong to functions around it. Any other name its code
      uses is a builtin, a special name or belongs to the module. */
  lemma {:induction false} FrameNames(t: Table, n: nat, fn: FnDecl, ops: Ops, frames: seq<Frame>, made: World, called: World)
    requires Sound(t) && n < |t.entries| && Flagged(t, n, FnEvents(fn)) && Takes(fn, t.entries[n].symbols)
    requires frames != [] && CaptureAll(ops, frames, fn.freevars, made).Some?
    ensures var frame := NewFrame(fn, CaptureAll(ops, frames, fn.freevars, made).value, called).0;
      && (forall x :: x in frame.locals <==> x in Declares(FnEvents(fn)) || x in fn.freevars)
      && (forall x :: x in fn.freevars ==> x in Uses(FnEvents(fn)) && Around(t.entries, t.entries[n].parent, x, FuncScope))
      && (forall x :: x in Uses(FnEvents(fn)) && x !in frame.locals ==>
            Around(t.entries, t.entries[n].parent, x, ModuleScope)
            || (x in t.entries[n].symbols && (t.entries[n].symbols[x] == Builtin || t.entries[n].symbols[x] == Special)))
  {
    var m := CaptureAll(ops, frames, fn.freevars, made).value;
    CaptureExact(ops, frames, fn.freevars, made);
    FrameExact(fn, m, called);
    forall x ensures x in NewFrame(fn, m, called).0.locals <==> x in fn.vars || x in fn.freevars {}
    hide NewFrame, Around;
  }

  /** The names that occur in an expression outside the keys of item accesses and outside the
      function literals in it. */
  function Visible(e: Expr): set<Name> {
    match e
    case Ident(id) => {id}
    case ArrayLit(items) => VisibleAll(items)
    case HashLit(items) => VisibleAll(items)
    case CallExpr(t, args) => Visible(t) + VisibleAll(args)
    case GetAttrExpr(t, _) => Visible(t)
    case GetItemExpr(t, _) => Visible(t)
    case NotExpr(x) => Visible(x)
    case Binary(_, l, r) => Visible(l) + Visible(r)
    case SpawnExpr(t, args) => Visible(t) + VisibleAll(args)
    case _ => {}
  }

  function VisibleAll(es: seq<Expr>): set<Name> {
    if es == [] then {} else Visible(es[0]) + VisibleAll(es[1..])
  }

  function VisibleIn(s: Stmt): set<Name> {
    match s
    case ExprStmt(e) => Visible(e)
    case Assign(id, e) => {id} + Visible(e)
    case VarInit(_, e) => Visible(e)
    case If(c, b) => Visible(c) + VisibleBody(b)
    case IfElse(c, b, o) => Visible(c) + VisibleBody(b) + VisibleBody(o)
    case While(c, b) => Visible(c) + VisibleBody(b)
    case Match(e, arms) => Visible(e) + VisibleArms(arms)
    case Ret(e) => Visible(e)
    case _ => {}
  }

  function VisibleBody(ss: seq<Stmt>): set<Name> {
    if ss == [] then {} else VisibleIn(ss[0]) + VisibleBody(ss[1..])
  }

  function VisibleArms(arms: seq<Arm>): set<Name> {
    if arms == [] then {} else VisibleBody(arms[0].body) + VisibleArms(arms[1..])
  }

  lemma {:induction false} UsesAppend(a: seq<Event>, b: seq<Event>)
    ensures Uses(a + b) == Uses(a) + Uses(b)
    decreases |a|
  {
    if a == [] {
      assert a + b == b;
    } else {
      assert (a + b)[0] == a[0] && (a + b)[1..] == a[1..] + b;
      UsesAppend(a[1..], b);
    }
  }

  lemma {:induction false} UsesOfExpr(e: Expr)
    ensures Uses(ExprEvents(e)) == Visible(e)
    decreases e, 1
  {
    hide Uses;
    UsesOne();
    match e
    case Ident(id) =>
    case ArrayLit(items) => UsesOfExprs(items);
    case HashLit(items) => UsesOfExprs(items);
    case CallExpr(t, args) => UsesOfExpr(t); UsesOfExprs(args); UsesAppend(ExprEvents(t), ExprsEvents(args));
    case GetAttrExpr(t, _) => UsesOfExpr(t);
    case GetItemExpr(t, _) => UsesOfExpr(t);
    case NotExpr(x) => UsesOfExpr(x);
    case Binary(_, l, r) => UsesOfExpr(l); UsesOfExpr(r); UsesAppend(ExprEvents(l), ExprEvents(r));
    case SpawnExpr(t, args) => UsesOfExpr(t); UsesOfExprs(args); UsesAppend(ExprEvents(t), ExprsEvents(args));
    case _ =>
  }

  lemma {:induction false} UsesOne()
    ensures Uses([]) == {} && Uses([Reject]) == {}
    ensures forall id :: Uses([Use(id)]) == {id}
    ensures forall id :: Uses([Declare(id)]) == {}
    ensures forall node, es :: Uses([Scope(node, es)]) == {}
    ensures forall id, node, es :: Uses([Declare(id), Scope(node, es)]) == {}
  {
    forall e: Event ensures [e][1..] == [] {}
    forall id: Name, node, es ensures [Declare(id), Scope(node, es)][1..] == [Scope(node, es)] {}
  }

  lemma {:induction false} UsesOfExprs(es: seq<Expr>)
    ensures Uses(ExprsEvents(es)) == VisibleAll(es)
    decreases es, 0
  {
    if es != [] {
      UsesOfExpr(es[0]);
      UsesOfExprs(es[1..]);
      UsesAppend(ExprEvents(es[0]), ExprsEvents(es[1..]));
    }
  }

  lemma {:induction false} UsesOfPat(p: Expr)
    ensures Uses(PatEvents(p)) == {}
    decreases p, 1
  {
    match p
    case ArrayLit(items) => UsesOfPats(items);
    case HashLit(items) => UsesOfPats(items);
    case _ =>
  }

  lemma {:induction false} UsesOfPats(ps: seq<Expr>)
    ensures Uses(PatsEvents(ps)) == {}
    decreases ps, 0
  {
    if ps != [] {
      UsesOfPat(ps[0]);
      UsesOfPats(ps[1..]);
      UsesAppend(PatEvents(ps[0]), PatsEvents(ps[1..]));
    }
  }

  lemma {:induction false} UsesOfStmt(s: Stmt)
    ensures Uses(StmtEvents(s)) == VisibleIn(s)
    decreases s, 1
  {
    hide Uses, Visible, ExprEvents;
    UsesOne();
    match s
    case ExprStmt(e) => UsesOfExpr(e);
    case Assign(id, e) => UsesOfExpr(e); UsesAppend([Use(id)], ExprEvents(e));
    case VarInit(id, e) => UsesOfExpr(e); UsesAppend([Declare(id)], ExprEvents(e));
    case If(c, b) => UsesOfExpr(c); UsesOfBody(b); UsesAppend(ExprEvents(c), StmtsEvents(b));
    case IfElse(c, b, o) =>
      UsesOfExpr(c);
      UsesOfBody(b);
      UsesOfBody(o);
      UsesAppend(ExprEvents(c), StmtsEvents(b));
      UsesAppend(ExprEvents(c) + StmtsEvents(b), StmtsEvents(o));
    case While(c, b) => UsesOfExpr(c); UsesOfBody(b); UsesAppend(ExprEvents(c), StmtsEvents(b));
    case Match(e, arms) => UsesOfExpr(e); UsesOfArms(arms); UsesAppend(ExprEvents(e), ArmsEvents(arms));
    case Ret(e) => UsesOfExpr(e);
    case _ =>
  }

  lemma {:induction false} UsesOfBody(ss: seq<Stmt>)
    ensures Uses(StmtsEvents(ss)) == VisibleBody(ss)
    decreases ss, 0
  {
    hide VisibleIn, StmtEvents;
    if ss != [] {
      UsesOfStmt(ss[0]);
      UsesOfBody(ss[1..]);
      UsesAppend(StmtEvents(ss[0]), StmtsEvents(ss[1..]));
    }
  }

  lemma {:induction false} UsesOfArms(arms: seq<Arm>)
    ensures Uses(ArmsEvents(arms)) == VisibleArms(arms)
    decreases arms, 0
  {
    hide VisibleIn, StmtEvents, PatEvents;
    if arms != [] {
      var p, b, rest := PatEvents(arms[0].test), StmtsEvents(arms[0].body), ArmsEvents(arms[1..]);
      UsesOfPat(arms[0].test);
      UsesOfBody(arms[0].body);
      UsesOfArms(arms[1..]);
      UsesAppend(p, b);
      UsesAppend(p + b, rest);
    }
  }

  lemma {:induction false} UsesOfParams(ids: seq<Name>)
    ensures Uses(Declared(ids)) == {}
    decreases ids
  {
    if ids != [] {
      UsesOfParams(ids[1..]);
      assert Declared(ids)[1..] == Declared(ids[1..]);
    }
  }

  /** The key of an item access is not visited: a name that occurs in a function only in such
      keys is not captured, whatever the functions around it declare. */
  lemma {:induction false} KeyNotCaptured(t: Table, n: nat, fn: FnDecl, x: Name)
    requires Sound(t) && n < |t.entries| && Flagged(t, n, FnEvents(fn)) && Takes(fn, t.entries[n].symbols)
    requires x !in VisibleBody(fn.body)
    ensures x !in fn.freevars && (x !in Declares(FnEvents(fn)) ==> x !in fn.vars)
  {
    UsesOfParams(fn.params);
    UsesOfBody(fn.body);
    UsesAppend(Declared(fn.params), StmtsEvents(fn.body));
  }

  // ---------- the walk ----------

  class SymbolTable {
    const builtins: set<Name>
    var entries: seq<Entry>
    var current: Option<nat>
    var stack: seq<nat>
    var lookup: map<nat, nat>

    constructor (builtins: set<Name>)
      ensures View() == Empty() && this.builtins == builtins
    {
      this.builtins := builtins;
      entries, current, stack, lookup := [], None, [], map[];
    }

    ghost function View(): Table
      reads this
    {
      Table(entries, current, stack, lookup)
    }

    ghost predicate Inside()
      reads this
    {
      Sound(View()) && current.Some?
    }

    method EnterScope(node: nat, kind: Kind)
      modifies this
      ensures View() == Enter(old(View()), node, kind)
    {
      var e := |entries|;
      entries := entries + [Entry(map[], current, kind)];
      lookup := lookup[node := e];
      if current.Some? { stack := stack + [current.value]; }
      current := Some(e);
    }

    method LeaveScope()
      modifies this
      ensures View() == Leave(old(View()))
    {
      if |stack| > 0 {
        current := Some(stack[|stack| - 1]);
        stack := stack[..|stack| - 1];
      }
    }

    method Add(id: Name, flag: Flag)
      requires Inside()
      modifies this`entries
      ensures View() == Put(old(View()), id, flag)
    {
      var e := entries[current.value];
      entries := entries[current.value := e.(symbols := e.symbols[id := flag])];
    }

    method VisitIdent(id: Name) returns (ok: bool)
      requires Inside()
      modifies this`entries
      ensures match UseName(old(View()), id, builtins) case None => !ok case Some(t) => ok && View() == t
    {
      var at: Option<nat> := current;
      while at.Some? && id !in entries[at.value].symbols
        invariant Rooted(entries) && (at.Some? ==> at.value < |entries|)
        invariant Find(entries, at, id) == Find(entries, current, id)
        decreases if at.Some? then at.value + 1 else 0
      {
        at := entries[at.value].parent;
      }
      if at.Some? {
        if at != current && entries[at.value].kind != ModuleScope { Add(id, Free); }
        return true;
      }
      if id in builtins {
        Add(id, Builtin);
        return true;
      }
      if id == "__file__" || id == "__line__" {
        Add(id, Special);
        return true;
      }
      ok := false;
    }

    /** The walk over a list of names that are declared. */
    method VisitNames(ids: seq<Name>)
      requires Inside()
      modifies this
      ensures Inside() && RunEvents(old(View()), Declared(ids), builtins) == Some(View())
    {
      var i := 0;
      while i < |ids|
        invariant i <= |ids| && Inside()
        invariant RunEvents(View(), Declared(ids[i..]), builtins) == RunEvents(old(View()), Declared(ids), builtins)
      {
        assert ids[i..][0] == ids[i] && ids[i..][1..] == ids[i + 1..];
        RunAppend(View(), [Declare(ids[i])], Declared(ids[i + 1..]), builtins);
        RunOne(View(), Declare(ids[i]), builtins);
        Add(ids[i], Decl);
        i := i + 1;
      }
    }

    ghost predicate Met(before: Table, es: seq<Event>, ok: bool)
      requires Sound(before) && before.current.Some?
      reads this
    {
      match RunEvents(before, es, builtins) case None => !ok case Some(t) => ok && View() == t
    }

    method VisitFn(fn: FnDecl) returns (ok: bool)
      requires Inside()
      modifies this
      ensures Met(old(View()), [Scope(fn.id, FnEvents(fn))], ok) && (ok ==> Inside())
      decreases fn, 1
    {
      RunOne(View(), Scope(fn.id, FnEvents(fn)), builtins);
      EnterScope(fn.id, FuncScope);
      ghost var entered := View();
      RunAppend(entered, Declared(fn.params), StmtsEvents(fn.body), builtins);
      VisitNames(fn.params);
      ok := VisitStmts(fn.body);
      if ok { LeaveScope(); }
    }

    method VisitExpr(e: Expr) returns (ok: bool)
      requires Inside()
      modifies this
      ensures Met(old(View()), ExprEvents(e), ok) && (ok ==> Inside())
      decreases e, 0
    {
      ghost var t := View();
      ok := true;
      match e
      case Lit(_) =>
      case NilLit =>
      case Ident(id) =>
        RunOne(t, Use(id), builtins);
        ok := VisitIdent(id);
      case ArrayLit(items) => ok := VisitExprs(items);
      case HashLit(items) => ok := VisitExprs(items);
      case CallExpr(target, args) =>
        RunAppend(t, ExprEvents(target), ExprsEvents(args), builtins);
        ok := VisitExpr(target);
        if ok { ok := VisitExprs(args); }
      case GetAttrExpr(target, _) => ok := VisitExpr(target);
      case GetItemExpr(target, _) => ok := VisitExpr(target);
      case NotExpr(x) => ok := VisitExpr(x);
      case Binary(_, l, r) =>
        RunAppend(t, ExprEvents(l), ExprEvents(r), builtins);
        ok := VisitExpr(l);
        if ok { ok := VisitExpr(r); }
      case FnExpr(fn) => ok := VisitFn(fn);
      case SpawnExpr(target, args) =>
        RunAppend(t, ExprEvents(target), ExprsEvents(args), builtins);
        ok := VisitExpr(target);
        if ok { ok := VisitExprs(args); }
      case Wildcard =>
        RunOne(t, Reject, builtins);
        ok := false;
    }

    method VisitExprs(es: seq<Expr>) returns (ok: bool)
      requires Inside()
      modifies this
      ensures Met(old(View()), ExprsEvents(es), ok) && (ok ==> Inside())
      decreases es, 1
    {
      var i := 0;
      while i < |es|
        invariant i <= |es| && Inside()
        invariant RunEvents(View(), ExprsEvents(es[i..]), builtins) == RunEvents(old(View()), ExprsEvents(es), builtins)
      {
        assert es[i..][0] == es[i] && es[i..][1..] == es[i + 1..];
        RunAppend(View(), ExprEvents(es[i]), ExprsEvents(es[i + 1..]), builtins);
        ok := VisitExpr(es[i]);
        if !ok { return; }
        i := i + 1;
      }
      ok := true;
    }

    method VisitPattern(p: Expr)
      requires Inside()
      modifies this
      ensures Inside() && Met(old(View()), PatEvents(p), true)
      decreases p, 0
    {
      match p
      case Ident(id) =>
        RunOne(View(), Declare(id), builtins);
        Add(id, Decl);
      case ArrayLit(items) => VisitPatterns(items);
      case HashLit(items) => VisitPatterns(items);
      case _ =>
    }

    method VisitPatterns(ps: seq<Expr>)
      requires Inside()
      modifies this
      ensures Inside() && Met(old(View()), PatsEvents(ps), true)
      decreases ps, 1
    {
      var i := 0;
      while i < |ps|
        invariant i <= |ps| && Inside()
        invariant RunEvents(View(), PatsEvents(ps[i..]), builtins) == RunEvents(old(View()), PatsEvents(ps), builtins)
      {
        assert ps[i..][0] == ps[i] && ps[i..][1..] == ps[i + 1..];
        RunAppend(View(), PatEvents(ps[i]), PatsEvents(ps[i + 1..]), builtins);
        VisitPattern(ps[i]);
        i := i + 1;
      }
    }

    method VisitStmt(s: Stmt) returns (ok: bool)
      requires Inside()
      modifies this
      ensures Met(old(View()), StmtEvents(s), ok) && (ok ==> Inside())
      decreases s, 0
    {
      ghost var t := View();
      ok := true;
      match s
      case ExprStmt(e) => ok := VisitExpr(e);
      case Assign(id, e) =>
        RunAppend(t, [Use(id)], ExprEvents(e), builtins);
        RunOne(t, Use(id), builtins);
        ok := VisitIdent(id);
        if ok { ok := VisitExpr(e); }
      case VarDecl(id) =>
        RunOne(t, Declare(id), builtins);
        Add(id, Decl);
      case VarInit(id, e) =>
        RunAppend(t, [Declare(id)], ExprEvents(e), builtins);
        RunOne(t, Declare(id), builtins);
        Add(id, Decl);
        ok := VisitExpr(e);
      case FuncDecl(id, fn) =>
        assert StmtEvents(s) == [Declare(id)] + [Scope(fn.id, FnEvents(fn))];
        RunAppend(t, [Declare(id)], [Scope(fn.id, FnEvents(fn))], builtins);
        RunOne(t, Declare(id), builtins);
        Add(id, Decl);
        ok := VisitFn(fn);
      case If(c, b) =>
        RunAppend(t, ExprEvents(c), StmtsEvents(b), builtins);
        ok := VisitExpr(c);
        if ok { ok := VisitStmts(b); }
      case IfElse(c, b, o) =>
        RunAppend(t, ExprEvents(c) + StmtsEvents(b), StmtsEvents(o), builtins);
        RunAppend(t, ExprEvents(c), StmtsEvents(b), builtins);
        ok := VisitExpr(c);
        if ok { ok := VisitStmts(b); }
        if ok { ok := VisitStmts(o); }
      case While(c, b) =>
        RunAppend(t, ExprEvents(c), StmtsEvents(b), builtins);
        ok := VisitExpr(c);
        if ok { ok := VisitStmts(b); }
      case Match(e, arms) =>
        RunAppend(t, ExprEvents(e), ArmsEvents(arms), builtins);
        ok := VisitExpr(e);
        if ok { ok := VisitArms(arms); }
      case RetNil =>
      case Ret(e) => ok := VisitExpr(e);
      case Break =>
    }

    method VisitStmts(ss: seq<Stmt>) returns (ok: bool)
      requires Inside()
      modifies this
      ensures Met(old(View()), StmtsEvents(ss), ok) && (ok ==> Inside())
      decreases ss, 1
    {
      var i := 0;
      while i < |ss|
        invariant i <= |ss| && Inside()
        invariant RunEvents(View(), StmtsEvents(ss[i..]), builtins) == RunEvents(old(View()), StmtsEvents(ss), builtins)
      {
        assert ss[i..][0] == ss[i] && ss[i..][1..] == ss[i + 1..];
        RunAppend(View(), StmtEvents(ss[i]), StmtsEvents(ss[i + 1..]), builtins);
        ok := VisitStmt(ss[i]);
        if !ok { return; }
        i := i + 1;
      }
      ok := true;
    }

    method VisitArms(arms: seq<Arm>) returns (ok: bool)
      requires Inside()
      modifies this
      ensures Met(old(View()), ArmsEvents(arms), ok) && (ok ==> Inside())
      decreases arms, 1
    {
      var i := 0;
      while i < |arms|
        invariant i <= |arms| && Inside()
        invariant RunEvents(View(), ArmsEvents(arms[i..]), builtins) == RunEvents(old(View()), ArmsEvents(arms), builtins)
      {
        assert arms[i..][0] == arms[i] && arms[i..][1..] == arms[i + 1..];
        var arm := arms[i];
        RunAppend(View(), PatEvents(arm.test) + StmtsEvents(arm.body), ArmsEvents(arms[i + 1..]), builtins);
        RunAppend(View(), PatEvents(arm.test), StmtsEvents(arm.body), builtins);
        VisitPattern(arm.test);
        ok := VisitStmts(arm.body);
        if !ok { return; }
        i := i + 1;
      }
      ok := true;
    }

    /** Build the table of a module. */
    method VisitModule(node: nat, uses: seq<Name>, body: seq<Stmt>) returns (ok: bool)
      requires View() == Empty()
      modifies this
      ensures match ModuleTable(node, uses, body, builtins) case None => !ok case Some(t) => ok && View() == t
    {
      EnterScope(node, ModuleScope);
      RunAppend(View(), Declared(uses), StmtsEvents(body), builtins);
      VisitNames(uses);
      ok := VisitStmts(body);
      if ok { LeaveScope(); }
    }
  }

  lemma {:induction false} RunOne(t: Table, e: Event, builtins: set<Name>)
    requires Sound(t) && t.current.Some?
    ensures RunEvents(t, [e], builtins) == RunEvent(t, e, builtins)
  {
    assert [e][1..] == [];
    var r := RunEvent(t, e, builtins);
    if r.Some? { assert RunEvents(r.value, [], builtins) == r; }
  }
}
