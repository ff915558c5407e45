/** Names on the syntax tree: which ones a function declares, which ones its code stores into,
    and when all names of a module are known where they are used. */
module Names {
  import opened Options
  import opened Syntax
  import opened Semantics
  import opened Codegen
  import opened Closures
  import opened Symbols
  import Tree

  // ---------- declarations ----------

  function Among(ids: seq<Name>): set<Name> {
    set x | x in ids
  }

  /** The identifiers in a pattern, keys included. */
  function PatNames(p: Expr): set<Name> {
    match p
    case Ident(id) => {id}
    case ArrayLit(items) => PatsNames(items)
    case HashLit(items) => PatsNames(items)
    case _ => {}
  }

  function PatsNames(ps: seq<Expr>): set<Name> {
    if ps == [] then {} else PatNames(ps[0]) + PatsNames(ps[1..])
  }

  /** The names that a statement declares, outside the function literals in it: those of `var`
      and of function declarations, and those in patterns. */
  function Binds(s: Stmt): set<Name> {
    match s
    case VarDecl(id) => {id}
    case VarInit(id, _) => {id}
    case FuncDecl(id, _) => {id}
    case If(_, b) => BindsAll(b)
    case IfElse(_, b, o) => BindsAll(b) + BindsAll(o)
    case While(_, b) => BindsAll(b)
    case Match(_, arms) => BindsArms(arms)
    case _ => {}
  }

  function BindsAll(ss: seq<Stmt>): set<Name> {
    if ss == [] then {} else Binds(ss[0]) + BindsAll(ss[1..])
  }

  function BindsArms(arms: seq<Arm>): set<Name> {
    if arms == [] then {} else PatNames(arms[0].test) + BindsAll(arms[0].body) + BindsArms(arms[1..])
  }

  lemma {:induction false} DeclaresAppend(a: seq<Event>, b: seq<Event>)
    ensures Declares(a + b) == Declares(a) + Declares(b)
    decreases |a|
  {
    if a == [] {
      assert a + b == b;
    } else {
      assert (a + b)[0] == a[0] && (a + b)[1..] == a[1..] + b;
      DeclaresAppend(a[1..], b);
    }
  }

  lemma {:induction false} DeclaresOne()
    ensures Declares([]) == {} && Declares([Reject]) == {}
    ensures forall id :: Declares([Use(id)]) == {}
    ensures forall id :: Declares([Declare(id)]) == {id}
    ensures forall node, es :: Declares([Scope(node, es)]) == {}
    ensures forall id, node, es :: Declares([Declare(id), Scope(node, es)]) == {id}
  {
    forall e: Event ensures [e][1..] == [] {}
    forall id: Name, node, es ensures [Declare(id), Scope(node, es)][1..] == [Scope(node, es)] {}
  }

  lemma {:induction false} DeclaresOfExpr(e: Expr)
    ensures Declares(ExprEvents(e)) == {}
    decreases e, 1
  {
    hide Declares;
    DeclaresOne();
    match e
    case ArrayLit(items) => DeclaresOfExprs(items);
    case HashLit(items) => DeclaresOfExprs(items);
    case CallExpr(t, args) => DeclaresOfExpr(t); DeclaresOfExprs(args); DeclaresAppend(ExprEvents(t), ExprsEvents(args));
    case GetAttrExpr(t, _) => DeclaresOfExpr(t);
    case GetItemExpr(t, _) => DeclaresOfExpr(t);
    case NotExpr(x) => DeclaresOfExpr(x);
    case Binary(_, l, r) => DeclaresOfExpr(l); DeclaresOfExpr(r); DeclaresAppend(ExprEvents(l), ExprEvents(r));
    case SpawnExpr(t, args) => DeclaresOfExpr(t); DeclaresOfExprs(args); DeclaresAppend(ExprEvents(t), ExprsEvents(args));
    case _ =>
  }

  lemma {:induction false} DeclaresOfExprs(es: seq<Expr>)
    ensures Declares(ExprsEvents(es)) == {}
    decreases es, 0
  {
    if es != [] {
      DeclaresOfExpr(es[0]);
      DeclaresOfExprs(es[1..]);
      DeclaresAppend(ExprEvents(es[0]), ExprsEvents(es[1..]));
    }
  }

  lemma {:induction false} DeclaresOfPat(p: Expr)
    ensures Declares(PatEvents(p)) == PatNames(p)
    decreases p, 1
  {
    hide Declares;
    DeclaresOne();
    match p
    case ArrayLit(items) => DeclaresOfPats(items);
    case HashLit(items) => DeclaresOfPats(items);
    case _ =>
  }

  lemma {:induction false} DeclaresOfPats(ps: seq<Expr>)
    ensures Declares(PatsEvents(ps)) == PatsNames(ps)
    decreases ps, 0
  {
    if ps != [] {
      DeclaresOfPat(ps[0]);
      DeclaresOfPats(ps[1..]);
      DeclaresAppend(PatEvents(ps[0]), PatsEvents(ps[1..]));
    }
  }

  lemma {:induction false} DeclaresOfStmt(s: Stmt)
    ensures Declares(StmtEvents(s)) == Binds(s)
    decreases s, 1
  {
    hide Declares, ExprEvents;
    DeclaresOne();
    match s
    case ExprStmt(e) => DeclaresOfExpr(e);
    case Assign(id, e) => DeclaresOfExpr(e); DeclaresAppend([Use(id)], ExprEvents(e));
    case VarInit(id, e) => DeclaresOfExpr(e); DeclaresAppend([Declare(id)], ExprEvents(e));
    case If(c, b) => DeclaresOfExpr(c); DeclaresOfBody(b); DeclaresAppend(ExprEvents(c), StmtsEvents(b));
    case IfElse(c, b, o) =>
      DeclaresOfExpr(c);
      DeclaresOfBody(b);
      DeclaresOfBody(o);
      DeclaresAppend(ExprEvents(c), StmtsEvents(b));
      DeclaresAppend(ExprEvents(c) + StmtsEvents(b), StmtsEvents(o));
    case While(c, b) => DeclaresOfExpr(c); DeclaresOfBody(b); DeclaresAppend(ExprEvents(c), StmtsEvents(b));
    case Match(e, arms) => DeclaresOfExpr(e); DeclaresOfArms(arms); DeclaresAppend(ExprEvents(e), ArmsEvents(arms));
    case Ret(e) => DeclaresOfExpr(e);
    case _ =>
  }

  lemma {:induction false} DeclaresOfBody(ss: seq<Stmt>)
    ensures Declares(StmtsEvents(ss)) == BindsAll(ss)
    decreases ss, 0
  {
    hide Binds, StmtEvents;
    if ss != [] {
      DeclaresOfStmt(ss[0]);
      DeclaresOfBody(ss[1..]);
      DeclaresAppend(StmtEvents(ss[0]), StmtsEvents(ss[1..]));
    }
  }

  lemma {:induction false} DeclaresOfArms(arms: seq<Arm>)
    ensures Declares(ArmsEvents(arms)) == BindsArms(arms)
    decreases arms, 0
  {
    hide PatNames, PatEvents;
    if arms != [] {
      var p, b, rest := PatEvents(arms[0].test), StmtsEvents(arms[0].body), ArmsEvents(arms[1..]);
      DeclaresOfPat(arms[0].test);
      DeclaresOfBody(arms[0].body);
      DeclaresOfArms(arms[1..]);
      DeclaresAppend(p, b);
      DeclaresAppend(p + b, rest);
    }
  }

  lemma {:induction false} DeclaresOfParams(ids: seq<Name>)
    ensures Declares(Declared(ids)) == Among(ids)
    decreases ids
  {
    if ids != [] {
      DeclaresOfParams(ids[1..]);
      assert Declared(ids)[1..] == Declared(ids[1..]) && Declared(ids)[0] == Declare(ids[0]);
      assert Among(ids) == {ids[0]} + Among(ids[1..]) by { assert ids == [ids[0]] + ids[1..]; }
    }
  }

  /** The declarations of a function are its parameters and the names its body declares outside
      of nested functions. */
  lemma {:induction false} DeclaresExact(fn: FnDecl)
    ensures Declares(FnEvents(fn)) == Among(fn.params) + BindsAll(fn.body)
  {
    hide Declares, Declared, StmtsEvents;
    DeclaresOfParams(fn.params);
    DeclaresOfBody(fn.body);
    DeclaresAppend(Declared(fn.params), StmtsEvents(fn.body));
  }

  lemma {:induction false} UsesExact(fn: FnDecl)
    ensures Uses(FnEvents(fn)) == VisibleBody(fn.body)
  {
    hide Uses, Declared, StmtsEvents, VisibleBody;
    UsesOfParams(fn.params);
    UsesOfBody(fn.body);
    UsesAppend(Declared(fn.params), StmtsEvents(fn.body));
  }

  /** The flags of a function, said of its text: declared are exactly its parameters and the names
      its body declares; every other name that its body mentions is flagged or the module's; and
      a free one is mentioned, not declared, and known to a function around it. */
  lemma {:induction false} FlaggedExact(t: Table, n: nat, fn: FnDecl, x: Name)
    requires Sound(t) && n < |t.entries| && Flagged(t, n, FnEvents(fn))
    ensures var symbols, own := t.entries[n].symbols, Among(fn.params) + BindsAll(fn.body);
      && (x in symbols && symbols[x] == Decl <==> x in own)
      && (x in VisibleBody(fn.body) ==> x in symbols || Around(t.entries, t.entries[n].parent, x, ModuleScope))
      && (x in symbols && symbols[x] == Free ==>
            x in VisibleBody(fn.body) && x !in own && Around(t.entries, t.entries[n].parent, x, FuncScope))
  {
    hide Declares, Uses, Around;
    DeclaresExact(fn);
    UsesExact(fn);
  }

  // ---------- the variables of a pattern ----------

  /** The names that the code of a pattern's variables stores into. */
  function VarNames(vars: seq<(Name, seq<Value>)>): set<Name> {
    if vars == [] then {} else {vars[0].0} + VarNames(vars[1..])
  }

  lemma {:induction false} VarNamesAppend(a: seq<(Name, seq<Value>)>, b: seq<(Name, seq<Value>)>)
    ensures VarNames(a + b) == VarNames(a) + VarNames(b)
    decreases |a|
  {
    if a == [] {
      assert a + b == b;
    } else {
      assert (a + b)[0] == a[0] && (a + b)[1..] == a[1..] + b;
      VarNamesAppend(a[1..], b);
    }
  }

  /** Every variable of a pattern is among its identifiers. */
  lemma {:induction false} VarsNamed(p: Expr, path: seq<Value>)
    ensures VarNames(PatVars(p, path)) <= PatNames(p)
    decreases p, 1
  {
    match p
    case Ident(id) => assert [(id, path)][1..] == [];
    case ArrayLit(items) => ItemsNamed(items, 0, path);
    case HashLit(items) => PairsNamed(items, path);
    case _ =>
  }

  lemma {:induction false} ItemsNamed(ps: seq<Expr>, i: nat, path: seq<Value>)
    ensures VarNames(ItemsVars(ps, i, path)) <= PatsNames(ps)
    decreases ps, 0
  {
    if ps != [] {
      var a, b := PatVars(ps[0], path + [Int(i)]), ItemsVars(ps[1..], i + 1, path);
      VarsNamed(ps[0], path + [Int(i)]);
      ItemsNamed(ps[1..], i + 1, path);
      VarNamesAppend(a, b);
    }
  }

  lemma {:induction false} PairsNamed(ps: seq<Expr>, path: seq<Value>)
    ensures VarNames(PairsVars(ps, path)) <= PatsNames(ps)
    decreases ps, 0
  {
    if |ps| >= 2 {
      var sub := path + [KeyConst(ps[0])];
      var a, b := PatVars(ps[1], sub), PairsVars(ps[2..], path);
      VarsNamed(ps[1], sub);
      PairsNamed(ps[2..], path);
      VarNamesAppend(a, b);
      TwoNamed(ps);
    }
  }

  lemma {:induction false} TwoNamed(ps: seq<Expr>)
    requires |ps| >= 2
    ensures PatsNames(ps) == PatNames(ps[0]) + PatNames(ps[1]) + PatsNames(ps[2..])
  {
    hide PatNames;
    assert ps[1..][0] == ps[1] && ps[1..][1..] == ps[2..];
  }

  /** If the keys are constants, as the compiler wants them, and every key has a value, as the
      grammar has it, the identifiers of a pattern are its variables. */
  lemma {:induction false} VarsExact(p: Expr, path: seq<Value>)
    requires Tree.KeysFine(Tree.Keys(p)) && Tree.AllPaired(Tree.Inside(p))
    ensures VarNames(PatVars(p, path)) == PatNames(p)
    decreases p, 1
  {
    match p
    case Ident(id) => assert [(id, path)][1..] == [];
    case ArrayLit(items) => Tree.PairedBoth({p}, Tree.AllInside(items)); ItemsExact(items, 0, path);
    case HashLit(items) =>
      Tree.PairedBoth({p}, Tree.AllInside(items));
      Tree.PairedOne(p);
      PairsExact(items, path);
    case _ =>
  }

  lemma {:induction false} ItemsExact(ps: seq<Expr>, i: nat, path: seq<Value>)
    requires Tree.KeysFine(Tree.ItemKeys(ps)) && Tree.AllPaired(Tree.AllInside(ps))
    ensures VarNames(ItemsVars(ps, i, path)) == PatsNames(ps)
    decreases ps, 0
  {
    if ps != [] {
      Tree.KeysBoth(Tree.Keys(ps[0]), Tree.ItemKeys(ps[1..]));
      Tree.PairedBoth(Tree.Inside(ps[0]), Tree.AllInside(ps[1..]));
      VarsExact(ps[0], path + [Int(i)]);
      ItemsExact(ps[1..], i + 1, path);
      VarNamesAppend(PatVars(ps[0], path + [Int(i)]), ItemsVars(ps[1..], i + 1, path));
    }
  }

  lemma {:induction false} PairsExact(ps: seq<Expr>, path: seq<Value>)
    requires |ps| % 2 == 0 && Tree.KeysFine(Tree.PairKeys(ps)) && Tree.AllPaired(Tree.AllInside(ps))
    ensures VarNames(PairsVars(ps, path)) == PatsNames(ps)
    decreases ps, 0
  {
    if |ps| >= 2 {
      var sub := path + [KeyConst(ps[0])];
      Tree.KeysBoth({ps[0]} + Tree.Keys(ps[1]), Tree.PairKeys(ps[2..]));
      Tree.KeysBoth({ps[0]}, Tree.Keys(ps[1]));
      Tree.KeyOne(ps[0]);
      InsideTwo(ps);
      VarsExact(ps[1], sub);
      PairsExact(ps[2..], path);
      VarNamesAppend(PatVars(ps[1], sub), PairsVars(ps[2..], path));
      TwoNamed(ps);
    } else {
      assert ps == [];
    }
  }

  lemma {:induction false} InsideTwo(ps: seq<Expr>)
    requires |ps| >= 2 && Tree.AllPaired(Tree.AllInside(ps))
    ensures Tree.AllPaired(Tree.Inside(ps[1])) && Tree.AllPaired(Tree.AllInside(ps[2..]))
  {
    hide Tree.Inside, Tree.AllPaired;
    assert ps[1..][0] == ps[1] && ps[1..][1..] == ps[2..];
    Tree.PairedBoth(Tree.Inside(ps[0]), Tree.AllInside(ps[1..]));
    Tree.PairedBoth(Tree.Inside(ps[1]), Tree.AllInside(ps[2..]));
  }

  // ---------- what the code stores into ----------

  function Stores(code: seq<Instr>): set<Name> {
    set i | i in code && i.StoreName? :: i.id
  }

  lemma {:induction false} StoresAppend(a: seq<Instr>, b: seq<Instr>)
    ensures Stores(a + b) == Stores(a) + Stores(b)
  {
  }

  lemma {:induction false} StoresOne(i: Instr)
    ensures Stores([i]) == if i.StoreName? then {i.id} else {}
  {
    assert i in [i];
  }

  predicate NoStore(code: seq<Instr>) {
    forall k :: 0 <= k < |code| ==> !code[k].StoreName?
  }

  lemma {:induction false} NoStores(code: seq<Instr>)
    requires NoStore(code)
    ensures Stores(code) == {}
  {
  }

  lemma {:induction false} NoStoreBoth(a: seq<Instr>, b: seq<Instr>)
    requires NoStore(a) && NoStore(b)
    ensures NoStore(a + b)
  {
  }

  lemma {:induction false} NoStoreFew(i: Instr, j: Instr, k: Instr, l: Instr)
    requires !i.StoreName? && !j.StoreName? && !k.StoreName? && !l.StoreName?
    ensures NoStore([i]) && NoStore([i, j, k]) && NoStore([i, j, k, l]) && NoStore([])
  {
  }

  lemma {:induction false} ThenOne(code: seq<Instr>, i: Instr)
    requires NoStore(code) && !i.StoreName?
    ensures NoStore(code + [i])
  {
  }

  lemma {:induction false} LeafNoStore(e: Expr, at: nat)
    requires e.Lit? || e.NilLit? || e.Ident? || e.FnExpr? || e.Wildcard?
    ensures NoStore(ExprCode(e, at))
  {
  }

  lemma {:induction false} ExprNoStore(e: Expr, at: nat)
    ensures NoStore(ExprCode(e, at))
    decreases e, 1
  {
    hide NoStore;
    match e
    case ArrayLit(items) => ExprsNoStore(items, at); ThenOne(ExprsCode(items, at), MakeArray(|items| % 256));
    case HashLit(items) => ExprsNoStore(items, at); ThenOne(ExprsCode(items, at), MakeHash(|items| / 2 % 256));
    case CallExpr(t, args) => CallNoStore(t, args, at);
    case GetAttrExpr(t, attr) => ExprNoStore(t, at); ThenOne(ExprCode(t, at), GetAttr(attr));
    case GetItemExpr(t, k) => GetItemNoStore(t, k, at);
    case NotExpr(x) => ExprNoStore(x, at); ThenOne(ExprCode(x, at), Not);
    case Binary(op, l, r) => BinaryNoStore(op, l, r, at);
    case SpawnExpr(t, args) => SpawnNoStore(t, args, at);
    case _ => LeafNoStore(e, at);
  }

  lemma {:induction false} CallNoStore(t: Expr, args: seq<Expr>, at: nat)
    ensures NoStore(ExprCode(CallExpr(t, args), at))
    decreases CallExpr(t, args), 0
  {
    hide NoStore;
    ExprNoStore(t, at);
    ExprsNoStore(args, at + ExprSize(t));
    NoStoreBoth(ExprCode(t, at), ExprsCode(args, at + ExprSize(t)));
    ThenOne(ExprCode(t, at) + ExprsCode(args, at + ExprSize(t)), Call(|args| % 256));
  }

  lemma {:induction false} GetItemShape(t: Expr, k: Expr, at: nat)
    ensures ExprCode(GetItemExpr(t, k), at) == ExprCode(t, at) + ExprCode(k, at + ExprSize(t)) + [GetItem]
  {
  }

  lemma {:induction false} GetItemNoStore(t: Expr, k: Expr, at: nat)
    ensures NoStore(ExprCode(GetItemExpr(t, k), at))
    decreases GetItemExpr(t, k), 0
  {
    hide NoStore, ExprCode, ExprSize;
    GetItemShape(t, k, at);
    ExprNoStore(t, at);
    ExprNoStore(k, at + ExprSize(t));
    NoStoreBoth(ExprCode(t, at), ExprCode(k, at + ExprSize(t)));
    ThenOne(ExprCode(t, at) + ExprCode(k, at + ExprSize(t)), GetItem);
  }

  lemma {:induction false} BinaryNoStore(op: BinOp, l: Expr, r: Expr, at: nat)
    ensures NoStore(ExprCode(Binary(op, l, r), at))
    decreases Binary(op, l, r), 0
  {
    hide NoStore, ExprCode;
    ExprNoStore(l, at);
    if op.And? || op.Or? {
      var right := at + ExprSize(l) + 3;
      ExprNoStore(r, right + 1);
      LogicNoStore(op, l, r, at);
    } else {
      var mid := at + ExprSize(l);
      ExprNoStore(r, mid);
      NoStoreBoth(ExprCode(l, at), ExprCode(r, mid));
      ThenOne(ExprCode(l, at) + ExprCode(r, mid), BinOpCode(op));
      PlainBinary(op, l, r, at);
    }
  }

  lemma {:induction false} PlainBinary(op: BinOp, l: Expr, r: Expr, at: nat)
    requires !op.And? && !op.Or?
    ensures ExprCode(Binary(op, l, r), at) == ExprCode(l, at) + ExprCode(r, at + ExprSize(l)) + [BinOpCode(op)]
  {
  }

  lemma {:induction false} LogicShape(op: BinOp, l: Expr, r: Expr, at: nat)
    requires op.And? || op.Or?
    ensures var right := at + ExprSize(l) + 3;
      ExprCode(Binary(op, l, r), at) ==
        ExprCode(l, at) + [Dup, if op.Or? then JumpIfFalse(right) else JumpIfTrue(right), Jump(right + 1 + ExprSize(r)), Pop] + ExprCode(r, right + 1)
  {
  }

  lemma {:induction false} LogicNoStore(op: BinOp, l: Expr, r: Expr, at: nat)
    requires (op.And? || op.Or?) && NoStore(ExprCode(l, at)) && NoStore(ExprCode(r, at + ExprSize(l) + 4))
    ensures NoStore(ExprCode(Binary(op, l, r), at))
  {
    hide NoStore, ExprCode, ExprSize;
    LogicShape(op, l, r, at);
    var right := at + ExprSize(l) + 3;
    var mid := [Dup, if op.Or? then JumpIfFalse(right) else JumpIfTrue(right), Jump(right + 1 + ExprSize(r)), Pop];
    NoStoreFew(mid[0], mid[1], mid[2], mid[3]);
    NoStoreBoth(ExprCode(l, at), mid);
    NoStoreBoth(ExprCode(l, at) + mid, ExprCode(r, right + 1));
  }

  lemma {:induction false} SpawnShape(t: Expr, args: seq<Expr>, at: nat)
    ensures ExprCode(SpawnExpr(t, args), at) ==
      ExprCode(t, at) + [Spawn, Dup, GetAttr("send")] + ExprsCode(args, at + ExprSize(t) + 3) + [MakeArray(|args| % 256), Call(1), Pop]
  {
  }

  lemma {:induction false} SpawnNoStore(t: Expr, args: seq<Expr>, at: nat)
    ensures NoStore(ExprCode(SpawnExpr(t, args), at))
    decreases SpawnExpr(t, args), 0
  {
    hide NoStore, ExprCode, ExprsCode, ExprSize;
    SpawnShape(t, args, at);
    var a, b, c := ExprCode(t, at), [Spawn, Dup, GetAttr("send")], ExprsCode(args, at + ExprSize(t) + 3);
    ExprNoStore(t, at);
    ExprsNoStore(args, at + ExprSize(t) + 3);
    NoStoreFew(Spawn, Dup, GetAttr("send"), Pop);
    NoStoreFew(MakeArray(|args| % 256), Call(1), Pop, Pop);
    NoStoreBoth(a, b);
    NoStoreBoth(a + b, c);
    NoStoreBoth(a + b + c, [MakeArray(|args| % 256), Call(1), Pop]);
  }

  lemma {:induction false} ExprsNoStore(es: seq<Expr>, at: nat)
    ensures NoStore(ExprsCode(es, at))
    decreases es, 0
  {
    hide NoStore;
    if es == [] {
      NoStoreFew(Pop, Pop, Pop, Pop);
    } else {
      ExprNoStore(es[0], at);
      ExprsNoStore(es[1..], at + ExprSize(es[0]));
      NoStoreBoth(ExprCode(es[0], at), ExprsCode(es[1..], at + ExprSize(es[0])));
    }
  }

  lemma {:induction false} TestsNoStore(class_: Instr, n: nat, next: nat)
    requires !class_.StoreName?
    ensures NoStore(ClassTest(class_, next)) && NoStore(SizeTest(n, next))
  {
  }

  lemma {:induction false} PatNoStore(p: Expr, at: nat, next: nat)
    ensures NoStore(PatCode(p, at, next))
    decreases p, 1
  {
    hide NoStore, ItemsCode, PairsCode, ClassTest, SizeTest, ItemsSize;
    match p
    case Lit(v) => NoStoreFew(Dup, PushConst(v), CompareTop(Eq), JumpIfFalse(next));
    case NilLit => TestsNoStore(PushConst(Class("nil")), 0, next);
    case ArrayLit(items) =>
      var body := at + 11;
      var pop := body + ItemsSize(items) + 1;
      ItemsNoStore(items, 0, body, pop);
      TestsNoStore(PushName("array"), |items|, next);
      NoStoreFew(Jump(pop + 2), Pop, Jump(next), Pop);
      ThreeNoStore(ClassTest(PushName("array"), next), SizeTest(|items|, next), ItemsCode(items, 0, body, pop));
      NoStoreBoth(ClassTest(PushName("array"), next) + SizeTest(|items|, next) + ItemsCode(items, 0, body, pop), [Jump(pop + 2), Pop, Jump(next)]);
    case HashLit(items) =>
      PairsNoStore(items, at + 11, next);
      TestsNoStore(PushName("hash"), |items| / 2, next);
      ThreeNoStore(ClassTest(PushName("hash"), next), SizeTest(|items| / 2, next), PairsCode(items, at + 11, next));
    case _ => NoStoreFew(Pop, Pop, Pop, Pop);
  }

  lemma {:induction false} ThreeNoStore(a: seq<Instr>, b: seq<Instr>, c: seq<Instr>)
    requires NoStore(a) && NoStore(b) && NoStore(c)
    ensures NoStore(a + b + c)
  {
    hide NoStore;
    NoStoreBoth(a, b);
    NoStoreBoth(a + b, c);
  }

  lemma {:induction false} ItemsNoStore(ps: seq<Expr>, i: nat, at: nat, next: nat)
    ensures NoStore(ItemsCode(ps, i, at, next))
    decreases ps, 0
  {
    hide NoStore;
    if ps == [] {
      NoStoreFew(Pop, Pop, Pop, Pop);
    } else {
      PatNoStore(ps[0], at + 3, next);
      ItemsNoStore(ps[1..], i + 1, at + 4 + PatSize(ps[0]), next);
      ItemNoStore(Int(i), PatCode(ps[0], at + 3, next), ItemsCode(ps[1..], i + 1, at + 4 + PatSize(ps[0]), next));
    }
  }

  lemma {:induction false} ItemNoStore(key: Value, code: seq<Instr>, rest: seq<Instr>)
    requires NoStore(code) && NoStore(rest)
    ensures NoStore([Dup, PushConst(key), GetItem] + code + [Pop] + rest)
  {
    hide NoStore;
    NoStoreFew(Dup, PushConst(key), GetItem, Pop);
    NoStoreBoth([Dup, PushConst(key), GetItem], code);
    ThenOne([Dup, PushConst(key), GetItem] + code, Pop);
    NoStoreBoth([Dup, PushConst(key), GetItem] + code + [Pop], rest);
  }

  lemma {:induction false} PairsNoStore(ps: seq<Expr>, at: nat, next: nat)
    ensures NoStore(PairsCode(ps, at, next))
    decreases ps, 0
  {
    hide NoStore;
    if |ps| < 2 {
      NoStoreFew(Pop, Pop, Pop, Pop);
    } else {
      PatNoStore(ps[1], at + 3, next);
      PairsNoStore(ps[2..], at + 4 + PatSize(ps[1]), next);
      ItemNoStore(KeyConst(ps[0]), PatCode(ps[1], at + 3, next), PairsCode(ps[2..], at + 4 + PatSize(ps[1]), next));
    }
  }

  lemma {:induction false} WalkNoStore(path: seq<Value>)
    ensures NoStore(WalkCode(path))
  {
    if path != [] { WalkNoStore(path[1..]); }
  }

  lemma {:induction false} BindsStore(vars: seq<(Name, seq<Value>)>)
    ensures Stores(BindsCode(vars)) == VarNames(vars)
    decreases |vars|
  {
    hide Stores;
    if vars == [] {
      NoStores([]);
    } else {
      var a, b := [Dup] + WalkCode(vars[0].1), [StoreName(vars[0].0)];
      WalkNoStore(vars[0].1);
      NoStores(a);
      StoresOne(StoreName(vars[0].0));
      BindsStore(vars[1..]);
      StoresAppend(a, b);
      StoresAppend(a + b, BindsCode(vars[1..]));
    }
  }

  lemma {:induction false} ParamsStore(params: seq<Name>)
    ensures Stores(ParamsCode(params)) == Among(params)
    decreases |params|
  {
    hide Stores;
    if params == [] {
      NoStores([]);
    } else {
      ParamsStore(Syntax.Init(params));
      StoresOne(StoreName(Syntax.Last(params)));
      StoresAppend([StoreName(Syntax.Last(params))], ParamsCode(Syntax.Init(params)));
      assert params == Syntax.Init(params) + [Syntax.Last(params)];
    }
  }

  lemma {:induction false} StoresThen(a: seq<Instr>, i: Instr)
    requires NoStore(a)
    ensures Stores(a + [i]) == if i.StoreName? then {i.id} else {}
  {
    hide Stores, NoStore;
    NoStores(a);
    StoresOne(i);
    StoresAppend(a, [i]);
  }

  lemma {:induction false} StoresOfSimple(s: Stmt, at: nat, brk: nat)
    requires !s.If? && !s.IfElse? && !s.While? && !s.Match?
    ensures Stores(StmtCode(s, at, brk)) <= Binds(s) + VisibleIn(s)
  {
    hide Stores, NoStore, ExprCode, Visible;
    match s
    case ExprStmt(e) => ExprNoStore(e, at); StoresThen(ExprCode(e, at), Pop);
    case Assign(id, e) => ExprNoStore(e, at); StoresThen(ExprCode(e, at), StoreName(id));
    case VarDecl(_) => NoStoreFew(Pop, Pop, Pop, Pop); NoStores([]);
    case VarInit(id, e) => ExprNoStore(e, at); StoresThen(ExprCode(e, at), StoreName(id));
    case FuncDecl(id, fn) =>
      NoStoreFew(PushConst(Method(fn)), Pop, Pop, Pop);
      StoresThen([PushConst(Method(fn))], StoreName(id));
      assert [PushConst(Method(fn))] + [StoreName(id)] == [PushConst(Method(fn)), StoreName(id)];
    case RetNil =>
      NoStoreFew(PushNil, Pop, Pop, Pop);
      StoresThen([PushNil], RetTop);
      assert [PushNil] + [RetTop] == [PushNil, RetTop];
    case Ret(e) => ExprNoStore(e, at); StoresThen(ExprCode(e, at), RetTop);
    case Break => StoresOne(Jump(brk));
  }

  /** A block behind a condition. */
  lemma {:induction false} GuardedStores(a: seq<Instr>, i: Instr, b: seq<Instr>)
    requires NoStore(a) && !i.StoreName?
    ensures Stores(a + [i] + b) == Stores(b)
  {
    hide Stores, NoStore;
    StoresThen(a, i);
    StoresAppend(a + [i], b);
  }

  lemma {:induction false} JumpStores(a: seq<Instr>, i: Instr)
    requires !i.StoreName?
    ensures Stores(a + [i]) == Stores(a)
  {
    hide Stores;
    StoresOne(i);
    StoresAppend(a, [i]);
  }

  /** The code of a statement stores into names that it declares or uses. */
  lemma {:induction false} StoresOfStmt(s: Stmt, at: nat, brk: nat)
    ensures Stores(StmtCode(s, at, brk)) <= Binds(s) + VisibleIn(s)
    decreases s, 1
  {
    hide Stores, NoStore, ExprCode, Visible, StmtsCode, ArmsCode, ExprSize, StmtsSize, ArmsSize;
    match s
    case If(c, b) =>
      var body := at + ExprSize(c) + 1;
      ExprNoStore(c, at);
      StoresOfBody(b, body, brk);
      GuardedStores(ExprCode(c, at), JumpIfFalse(body + StmtsSize(b)), StmtsCode(b, body, brk));
    case IfElse(c, b, o) => StoresOfIfElse(c, b, o, at, brk);
    case While(c, b) => StoresOfWhile(c, b, at, brk);
    case Match(e, arms) =>
      var first := at + ExprSize(e);
      ExprNoStore(e, at);
      NoStores(ExprCode(e, at));
      StoresOfArms(arms, first, first + ArmsSize(arms), brk);
      StoresAppend(ExprCode(e, at), ArmsCode(arms, first, first + ArmsSize(arms), brk));
    case _ => StoresOfSimple(s, at, brk);
  }

  lemma {:induction false} IfElseShape(c: Expr, b: seq<Stmt>, o: seq<Stmt>, at: nat, brk: nat)
    ensures var body := at + ExprSize(c) + 1;
            var orelse := body + StmtsSize(b) + 1;
      StmtCode(IfElse(c, b, o), at, brk) ==
        ExprCode(c, at) + [JumpIfFalse(orelse)] + StmtsCode(b, body, brk) + [Jump(orelse + StmtsSize(o))] + StmtsCode(o, orelse, brk)
  {
  }

  lemma {:induction false} StoresOfIfElse(c: Expr, b: seq<Stmt>, o: seq<Stmt>, at: nat, brk: nat)
    ensures Stores(StmtCode(IfElse(c, b, o), at, brk)) <= BindsAll(b) + BindsAll(o) + VisibleBody(b) + VisibleBody(o)
    decreases IfElse(c, b, o), 0
  {
    hide Stores, NoStore, ExprCode, StmtCode, StmtsCode, ExprSize, StmtsSize;
    IfElseShape(c, b, o, at, brk);
    var body := at + ExprSize(c) + 1;
    var orelse := body + StmtsSize(b) + 1;
    ExprNoStore(c, at);
    StoresOfBody(b, body, brk);
    StoresOfBody(o, orelse, brk);
    GuardedStores(ExprCode(c, at), JumpIfFalse(orelse), StmtsCode(b, body, brk));
    var first := ExprCode(c, at) + [JumpIfFalse(orelse)] + StmtsCode(b, body, brk);
    JumpStores(first, Jump(orelse + StmtsSize(o)));
    StoresAppend(first + [Jump(orelse + StmtsSize(o))], StmtsCode(o, orelse, brk));
  }

  lemma {:induction false} StoresOfWhile(c: Expr, b: seq<Stmt>, at: nat, brk: nat)
    ensures Stores(StmtCode(While(c, b), at, brk)) <= BindsAll(b) + VisibleBody(b)
    decreases While(c, b), 0
  {
    hide Stores, NoStore, ExprCode, StmtsCode, ExprSize, StmtsSize;
    var body := at + ExprSize(c) + 1;
    var end := body + StmtsSize(b) + 1;
    ExprNoStore(c, at);
    StoresOfBody(b, body, end);
    GuardedStores(ExprCode(c, at), JumpIfFalse(end), StmtsCode(b, body, end));
    JumpStores(ExprCode(c, at) + [JumpIfFalse(end)] + StmtsCode(b, body, end), Jump(at));
  }

  lemma {:induction false} StoresOfBody(ss: seq<Stmt>, at: nat, brk: nat)
    ensures Stores(StmtsCode(ss, at, brk)) <= BindsAll(ss) + VisibleBody(ss)
    decreases ss, 0
  {
    hide Stores, Binds, VisibleIn, StmtCode;
    if ss == [] {
      NoStoreFew(Pop, Pop, Pop, Pop);
      NoStores([]);
    } else {
      StoresOfStmt(ss[0], at, brk);
      StoresOfBody(ss[1..], at + StmtSize(ss[0]), brk);
      StoresAppend(StmtCode(ss[0], at, brk), StmtsCode(ss[1..], at + StmtSize(ss[0]), brk));
    }
  }

  lemma {:induction false} StoresOfArm(arm: Arm, at: nat, end: nat, brk: nat)
    ensures Stores(ArmCode(arm, at, end, brk)) <= PatNames(arm.test) + BindsAll(arm.body) + VisibleBody(arm.body)
    decreases arm, 1
  {
    hide Stores, NoStore, PatCode, PatVars, BindsCode;
    var vars := PatVars(arm.test, []);
    var body := at + PatSize(arm.test) + BindsSize(vars) + 1;
    var a, b, c := PatCode(arm.test, at, at + ArmSize(arm)), BindsCode(vars), StmtsCode(arm.body, body, brk);
    PatNoStore(arm.test, at, at + ArmSize(arm));
    NoStores(a);
    BindsStore(vars);
    VarsNamed(arm.test, []);
    StoresOfBody(arm.body, body, brk);
    StoresAppend(a, b);
    StoresOne(Pop);
    StoresAppend(a + b, [Pop]);
    StoresAppend(a + b + [Pop], c);
    StoresOne(Jump(end));
    StoresAppend(a + b + [Pop] + c, [Jump(end)]);
  }

  lemma {:induction false} StoresOfArms(arms: seq<Arm>, at: nat, end: nat, brk: nat)
    ensures Stores(ArmsCode(arms, at, end, brk)) <= BindsArms(arms) + VisibleArms(arms)
    decreases arms, 0
  {
    hide Stores, ArmCode, PatNames;
    if arms == [] {
      NoStoreFew(Pop, Pop, Pop, Pop);
      NoStores([]);
    } else {
      StoresOfArm(arms[0], at, end, brk);
      StoresOfArms(arms[1..], at + ArmSize(arms[0]), end, brk);
      StoresAppend(ArmCode(arms[0], at, end, brk), ArmsCode(arms[1..], at + ArmSize(arms[0]), end, brk));
    }
  }

  lemma {:induction false} StoresOfFn(fn: FnDecl)
    ensures Among(fn.params) <= Stores(FnCode(fn)) <= Declares(FnEvents(fn)) + Uses(FnEvents(fn))
  {
    hide Stores, Declares, Uses, StmtsCode, ParamsCode;
    ParamsStore(fn.params);
    StoresOfBody(fn.body, |fn.params|, 0);
    StoresAppend(ParamsCode(fn.params), StmtsCode(fn.body, |fn.params|, 0));
    DeclaresExact(fn);
    UsesOfParams(fn.params);
    UsesOfBody(fn.body);
    UsesAppend(Declared(fn.params), StmtsEvents(fn.body));
  }

  /** In an accepted module a name that the code of a function stores into is flagged for it, or
      belongs to the module. The function's frame holds it exactly if it is one of the
      function's own declarations or free; otherwise it is used there as a name of the module,
      a builtin or a special name, and the store aborts. */
  lemma {:induction false} StoresFlagged(t: Table, n: nat, fn: FnDecl, ops: Ops, frames: seq<Frame>, made: World, called: World, x: Name)
    requires Sound(t) && n < |t.entries| && Flagged(t, n, FnEvents(fn)) && Takes(fn, t.entries[n].symbols)
    requires frames != [] && CaptureAll(ops, frames, fn.freevars, made).Some? && x in Stores(FnCode(fn))
    ensures x in t.entries[n].symbols || Around(t.entries, t.entries[n].parent, x, ModuleScope)
    ensures var (frame, w) := NewFrame(fn, CaptureAll(ops, frames, fn.freevars, made).value, called);
      && (x in frame.locals <==> x in Among(fn.params) + BindsAll(fn.body) || x in fn.freevars)
      && (x !in frame.locals ==> (forall v :: Store(frame, x, v, w).None?) && x in Uses(FnEvents(fn)))
      && (x !in frame.locals ==> Around(t.entries, t.entries[n].parent, x, ModuleScope) || Outer(t.entries[n].symbols, x))
  {
    hide Stores, Declares, Uses, Around, NewFrame;
    StoresOfFn(fn);
    DeclaresExact(fn);
    FrameNames(t, n, fn, ops, frames, made, called);
  }

  /** Flagged as a builtin or as a special name. */
  predicate Outer(symbols: map<Name, Flag>, x: Name) {
    x in symbols && (symbols[x] == Builtin || symbols[x] == Special)
  }

  // ---------- when a module is accepted ----------

  predicate Known(x: Name, known: set<Name>, builtins: set<Name>) {
    x in known || x in builtins || x == "__file__" || x == "__line__"
  }

  /** Every name in the expression is known, outside of item keys, and every function literal in
      it is in order. */
  predicate ExprKnown(e: Expr, known: set<Name>, builtins: set<Name>) {
    match e
    case Ident(id) => Known(id, known, builtins)
    case ArrayLit(items) => ExprsKnown(items, known, builtins)
    case HashLit(items) => ExprsKnown(items, known, builtins)
    case CallExpr(t, args) => ExprKnown(t, known, builtins) && ExprsKnown(args, known, builtins)
    case GetAttrExpr(t, _) => ExprKnown(t, known, builtins)
    case GetItemExpr(t, _) => ExprKnown(t, known, builtins)
    case NotExpr(x) => ExprKnown(x, known, builtins)
    case Binary(_, l, r) => ExprKnown(l, known, builtins) && ExprKnown(r, known, builtins)
    case FnExpr(fn) => FnKnown(fn, known, builtins)
    case SpawnExpr(t, args) => ExprKnown(t, known, builtins) && ExprsKnown(args, known, builtins)
    case Wildcard => false
    case _ => true
  }

  predicate ExprsKnown(es: seq<Expr>, known: set<Name>, builtins: set<Name>) {
    es == [] || (ExprKnown(es[0], known, builtins) && ExprsKnown(es[1..], known, builtins))
  }

  /** A function knows what is known where it stands, and its parameters. */
  predicate FnKnown(fn: FnDecl, known: set<Name>, builtins: set<Name>) {
    StmtsKnown(fn.body, known + Among(fn.params), builtins)
  }

  /** A declaration is known from where it stands to the end of its function: in the initial value
      of its variable and in its own function already. */
  predicate StmtKnown(s: Stmt, known: set<Name>, builtins: set<Name>) {
    match s
    case ExprStmt(e) => ExprKnown(e, known, builtins)
    case Assign(id, e) => Known(id, known, builtins) && ExprKnown(e, known, builtins)
    case VarDecl(_) => true
    case VarInit(id, e) => ExprKnown(e, known + {id}, builtins)
    case FuncDecl(id, fn) => FnKnown(fn, known + {id}, builtins)
    case If(c, b) => ExprKnown(c, known, builtins) && StmtsKnown(b, known, builtins)
    case IfElse(c, b, o) =>
      ExprKnown(c, known, builtins) && StmtsKnown(b, known, builtins) && StmtsKnown(o, known + BindsAll(b), builtins)
    case While(c, b) => ExprKnown(c, known, builtins) && StmtsKnown(b, known, builtins)
    case Match(e, arms) => ExprKnown(e, known, builtins) && ArmsKnown(arms, known, builtins)
    case RetNil => true
    case Ret(e) => ExprKnown(e, known, builtins)
    case Break => true
  }

  predicate StmtsKnown(ss: seq<Stmt>, known: set<Name>, builtins: set<Name>) {
    ss == [] || (StmtKnown(ss[0], known, builtins) && StmtsKnown(ss[1..], known + Binds(ss[0]), builtins))
  }

  predicate ArmsKnown(arms: seq<Arm>, known: set<Name>, builtins: set<Name>) {
    arms == [] ||
    (StmtsKnown(arms[0].body, known + PatNames(arms[0].test), builtins)
     && ArmsKnown(arms[1..], known + PatNames(arms[0].test) + BindsAll(arms[0].body), builtins))
  }

  /** The same for what the walk meets. */
  predicate Resolves(es: seq<Event>, known: set<Name>, builtins: set<Name>) {
    es == [] ||
    match es[0]
    case Declare(id) => Resolves(es[1..], known + {id}, builtins)
    case Use(id) => Known(id, known, builtins) && Resolves(es[1..], known, builtins)
    case Scope(_, inner) => Resolves(inner, known, builtins) && Resolves(es[1..], known, builtins)
    case Reject => false
  }

  lemma {:induction false} ResolvesAppend(a: seq<Event>, b: seq<Event>, known: set<Name>, builtins: set<Name>)
    ensures Resolves(a + b, known, builtins) <==> Resolves(a, known, builtins) && Resolves(b, known + Declares(a), builtins)
    decreases |a|
  {
    if a == [] {
      assert a + b == b && known + Declares(a) == known;
    } else {
      assert (a + b)[0] == a[0] && (a + b)[1..] == a[1..] + b;
      var more := if a[0].Declare? then known + {a[0].id} else known;
      ResolvesAppend(a[1..], b, more, builtins);
      assert more + Declares(a[1..]) == known + Declares(a);
    }
  }

  lemma {:induction false} ResolvesOne(e: Event, known: set<Name>, builtins: set<Name>)
    ensures Resolves([e], known, builtins) <==>
      match e
      case Declare(_) => true
      case Use(id) => Known(id, known, builtins)
      case Scope(_, inner) => Resolves(inner, known, builtins)
      case Reject => false
  {
    assert [e][1..] == [];
  }

  /** Events without declarations, and then others. */
  lemma {:induction false} ResolvesPlain(a: seq<Event>, b: seq<Event>, known: set<Name>, builtins: set<Name>)
    requires Declares(a) == {}
    ensures Resolves(a + b, known, builtins) <==> Resolves(a, known, builtins) && Resolves(b, known, builtins)
  {
    hide Declares, Resolves;
    ResolvesAppend(a, b, known, builtins);
    assert known + {} == known;
  }

  lemma {:induction false} ResolvesExpr(e: Expr, known: set<Name>, builtins: set<Name>)
    ensures Resolves(ExprEvents(e), known, builtins) <==> ExprKnown(e, known, builtins)
    decreases e, 1
  {
    hide Resolves, Known, FnEvents;
    match e
    case Lit(_) => ResolvesNone(known, builtins);
    case NilLit => ResolvesNone(known, builtins);
    case Ident(id) => ResolvesOne(Use(id), known, builtins);
    case ArrayLit(items) => ResolvesExprs(items, known, builtins);
    case HashLit(items) => ResolvesExprs(items, known, builtins);
    case CallExpr(t, args) => ResolvesCall(e, t, args, known, builtins);
    case GetAttrExpr(t, _) => ResolvesExpr(t, known, builtins);
    case GetItemExpr(t, _) => ResolvesExpr(t, known, builtins);
    case NotExpr(x) => ResolvesExpr(x, known, builtins);
    case Binary(_, l, r) =>
      ResolvesExpr(l, known, builtins);
      ResolvesExpr(r, known, builtins);
      DeclaresOfExpr(l);
      ResolvesPlain(ExprEvents(l), ExprEvents(r), known, builtins);
    case FnExpr(fn) =>
      ResolvesOne(Scope(fn.id, FnEvents(fn)), known, builtins);
      ResolvesFn(fn, known, builtins);
    case SpawnExpr(t, args) => ResolvesCall(e, t, args, known, builtins);
    case Wildcard => ResolvesOne(Reject, known, builtins);
  }

  lemma {:induction false} ResolvesNone(known: set<Name>, builtins: set<Name>)
    ensures Resolves([], known, builtins)
  {
  }

  lemma {:induction false} ResolvesCall(e: Expr, t: Expr, args: seq<Expr>, known: set<Name>, builtins: set<Name>)
    requires e == CallExpr(t, args) || e == SpawnExpr(t, args)
    ensures Resolves(ExprEvents(t) + ExprsEvents(args), known, builtins) <==> ExprKnown(t, known, builtins) && ExprsKnown(args, known, builtins)
    decreases e, 0
  {
    hide Resolves, ExprKnown, ExprsKnown;
    ResolvesExpr(t, known, builtins);
    ResolvesExprs(args, known, builtins);
    DeclaresOfExpr(t);
    ResolvesPlain(ExprEvents(t), ExprsEvents(args), known, builtins);
  }

  lemma {:induction false} ResolvesExprs(es: seq<Expr>, known: set<Name>, builtins: set<Name>)
    ensures Resolves(ExprsEvents(es), known, builtins) <==> ExprsKnown(es, known, builtins)
    decreases es, 0
  {
    hide Resolves, ExprKnown;
    if es == [] {
      ResolvesNone(known, builtins);
    } else {
      ResolvesExpr(es[0], known, builtins);
      ResolvesExprs(es[1..], known, builtins);
      DeclaresOfExpr(es[0]);
      ResolvesPlain(ExprEvents(es[0]), ExprsEvents(es[1..]), known, builtins);
    }
  }

  lemma {:induction false} ResolvesNames(ids: seq<Name>, known: set<Name>, builtins: set<Name>)
    ensures Resolves(Declared(ids), known, builtins)
    decreases ids
  {
    if ids != [] {
      assert Declared(ids)[1..] == Declared(ids[1..]) && Declared(ids)[0] == Declare(ids[0]);
      ResolvesNames(ids[1..], known + {ids[0]}, builtins);
    }
  }

  lemma {:induction false} ResolvesFn(fn: FnDecl, known: set<Name>, builtins: set<Name>)
    ensures Resolves(FnEvents(fn), known, builtins) <==> FnKnown(fn, known, builtins)
    decreases fn, 0
  {
    hide Resolves, Declared, StmtsEvents, StmtsKnown, Declares;
    ResolvesNames(fn.params, known, builtins);
    DeclaresOfParams(fn.params);
    ResolvesAppend(Declared(fn.params), StmtsEvents(fn.body), known, builtins);
    ResolvesBody(fn.body, known + Among(fn.params), builtins);
  }

  lemma {:induction false} ResolvesPat(p: Expr, known: set<Name>, builtins: set<Name>)
    ensures Resolves(PatEvents(p), known, builtins)
    decreases p, 1
  {
    hide Resolves;
    ResolvesNone(known, builtins);
    match p
    case Ident(id) => ResolvesOne(Declare(id), known, builtins);
    case ArrayLit(items) => ResolvesPats(items, known, builtins);
    case HashLit(items) => ResolvesPats(items, known, builtins);
    case _ =>
  }

  lemma {:induction false} ResolvesPats(ps: seq<Expr>, known: set<Name>, builtins: set<Name>)
    ensures Resolves(PatsEvents(ps), known, builtins)
    decreases ps, 0
  {
    hide Resolves;
    if ps == [] {
      ResolvesNone(known, builtins);
    } else {
      ResolvesPat(ps[0], known, builtins);
      ResolvesPats(ps[1..], known + Declares(PatEvents(ps[0])), builtins);
      ResolvesAppend(PatEvents(ps[0]), PatsEvents(ps[1..]), known, builtins);
    }
  }

  lemma {:induction false} ResolvesStmt(s: Stmt, known: set<Name>, builtins: set<Name>)
    ensures Resolves(StmtEvents(s), known, builtins) <==> StmtKnown(s, known, builtins)
    decreases s, 1
  {
    hide Resolves, Known, ExprKnown, StmtsKnown, ExprEvents, FnEvents, FnKnown, Declares;
    ResolvesNone(known, builtins);
    DeclaresOne();
    match s
    case ExprStmt(e) => ResolvesExpr(e, known, builtins);
    case Assign(id, e) =>
      ResolvesExpr(e, known, builtins);
      ResolvesOne(Use(id), known, builtins);
      ResolvesPlain([Use(id)], ExprEvents(e), known, builtins);
    case VarDecl(id) => ResolvesOne(Declare(id), known, builtins);
    case VarInit(id, e) =>
      ResolvesExpr(e, known + {id}, builtins);
      ResolvesOne(Declare(id), known, builtins);
      ResolvesAppend([Declare(id)], ExprEvents(e), known, builtins);
    case FuncDecl(id, fn) =>
      ResolvesFn(fn, known + {id}, builtins);
      ResolvesOne(Declare(id), known, builtins);
      ResolvesOne(Scope(fn.id, FnEvents(fn)), known + {id}, builtins);
      ResolvesAppend([Declare(id)], [Scope(fn.id, FnEvents(fn))], known, builtins);
      assert [Declare(id)] + [Scope(fn.id, FnEvents(fn))] == [Declare(id), Scope(fn.id, FnEvents(fn))];
    case If(c, b) => ResolvesBlock(s, c, b, known, builtins);
    case IfElse(c, b, o) =>
      ResolvesBlock(s, c, b, known, builtins);
      ResolvesBody(o, known + BindsAll(b), builtins);
      BlockDeclares(c, b);
      ResolvesAppend(ExprEvents(c) + StmtsEvents(b), StmtsEvents(o), known, builtins);
    case While(c, b) => ResolvesBlock(s, c, b, known, builtins);
    case Match(e, arms) =>
      ResolvesExpr(e, known, builtins);
      ResolvesArms(arms, known, builtins);
      DeclaresOfExpr(e);
      ResolvesPlain(ExprEvents(e), ArmsEvents(arms), known, builtins);
    case RetNil =>
    case Ret(e) => ResolvesExpr(e, known, builtins);
    case Break =>
  }

  lemma {:induction false} BlockDeclares(c: Expr, b: seq<Stmt>)
    ensures Declares(ExprEvents(c) + StmtsEvents(b)) == BindsAll(b)
  {
    hide Declares;
    DeclaresOfExpr(c);
    DeclaresOfBody(b);
    DeclaresAppend(ExprEvents(c), StmtsEvents(b));
  }

  lemma {:induction false} ResolvesBlock(s: Stmt, c: Expr, b: seq<Stmt>, known: set<Name>, builtins: set<Name>)
    requires s == If(c, b) || s == While(c, b) || (s.IfElse? && s.cond == c && s.body == b)
    ensures Resolves(ExprEvents(c) + StmtsEvents(b), known, builtins) <==> ExprKnown(c, known, builtins) && StmtsKnown(b, known, builtins)
    decreases s, 0
  {
    hide Resolves, ExprKnown, StmtsKnown, Declares;
    ResolvesExpr(c, known, builtins);
    ResolvesBody(b, known, builtins);
    DeclaresOfExpr(c);
    ResolvesPlain(ExprEvents(c), StmtsEvents(b), known, builtins);
  }

  lemma {:induction false} ResolvesBody(ss: seq<Stmt>, known: set<Name>, builtins: set<Name>)
    ensures Resolves(StmtsEvents(ss), known, builtins) <==> StmtsKnown(ss, known, builtins)
    decreases ss, 0
  {
    hide Resolves, StmtKnown, Binds, StmtEvents, Declares;
    if ss == [] {
      ResolvesNone(known, builtins);
    } else {
      ResolvesStmt(ss[0], known, builtins);
      DeclaresOfStmt(ss[0]);
      ResolvesBody(ss[1..], known + Binds(ss[0]), builtins);
      ResolvesAppend(StmtEvents(ss[0]), StmtsEvents(ss[1..]), known, builtins);
    }
  }

  lemma {:induction false} ResolvesArms(arms: seq<Arm>, known: set<Name>, builtins: set<Name>)
    ensures Resolves(ArmsEvents(arms), known, builtins) <==> ArmsKnown(arms, known, builtins)
    decreases arms, 0
  {
    hide Resolves, StmtsKnown, PatNames, PatEvents, Declares;
    if arms == [] {
      ResolvesNone(known, builtins);
    } else {
      var p, b, rest := PatEvents(arms[0].test), StmtsEvents(arms[0].body), ArmsEvents(arms[1..]);
      var named := known + PatNames(arms[0].test);
      ResolvesPat(arms[0].test, known, builtins);
      DeclaresOfPat(arms[0].test);
      ResolvesBody(arms[0].body, named, builtins);
      DeclaresOfBody(arms[0].body);
      ResolvesArms(arms[1..], named + BindsAll(arms[0].body), builtins);
      ResolvesAppend(p, b, known, builtins);
      DeclaresAppend(p, b);
      ResolvesAppend(p + b, rest, known, builtins);
      assert known + (PatNames(arms[0].test) + BindsAll(arms[0].body)) == named + BindsAll(arms[0].body);
    }
  }

  // ---------- the table knows what is known ----------

  /** The names found from the current scope are those that are known; besides, builtins and
      special names that have been met. */
  ghost predicate Knows(t: Table, known: set<Name>, builtins: set<Name>)
    requires Sound(t)
  {
    forall x ::
      && (x in known ==> Find(t.entries, t.current, x).Some?)
      && (Find(t.entries, t.current, x).Some? ==> Known(x, known, builtins))
  }

  /** Entries that agree on their names up to `at` find the same. */
  lemma {:induction false} FindSame(a: seq<Entry>, b: seq<Entry>, at: Option<nat>, x: Name)
    requires Rooted(a) && Rooted(b) && (at.Some? ==> at.value < |a| && at.value < |b|)
    requires forall i :: 0 <= i < |a| && i < |b| && (at.Some? && i <= at.value) ==> a[i].parent == b[i].parent && (x in a[i].symbols <==> x in b[i].symbols)
    ensures Find(a, at, x) == Find(b, at, x)
    decreases if at.Some? then at.value + 1 else 0
  {
    if at.Some? && x !in a[at.value].symbols { FindSame(a, b, a[at.value].parent, x); }
  }

  lemma {:induction false} FindPut(t: Table, id: Name, flag: Flag, x: Name)
    requires Sound(t) && t.current.Some?
    ensures Sound(Put(t, id, flag))
    ensures Find(Put(t, id, flag).entries, t.current, x).Some? <==> x == id || Find(t.entries, t.current, x).Some?
  {
    var n := t.current.value;
    var e' := Put(t, id, flag).entries;
    if x != id && x !in t.entries[n].symbols { FindSame(t.entries, e', t.entries[n].parent, x); }
  }

  lemma {:induction false} KnowsPut(t: Table, id: Name, flag: Flag, known: set<Name>, more: set<Name>, builtins: set<Name>)
    requires Sound(t) && t.current.Some? && Knows(t, known, builtins)
    requires more == known + {id} || (more == known && Known(id, known, builtins))
    ensures Sound(Put(t, id, flag)) && Knows(Put(t, id, flag), more, builtins)
  {
    hide Find, Put;
    var t' := Put(t, id, flag);
    FindPut(t, id, flag, id);
    assert t'.current == t.current by { PutStays(t, id, flag); }
    forall x
      ensures x in more ==> Find(t'.entries, t'.current, x).Some?
      ensures Find(t'.entries, t'.current, x).Some? ==> Known(x, more, builtins)
    {
      FindPut(t, id, flag, x);
    }
  }

  lemma {:induction false} PutStays(t: Table, id: Name, flag: Flag)
    requires Sound(t) && t.current.Some?
    ensures Put(t, id, flag).current == t.current
  {
  }

  lemma {:induction false} KnowsUse(t: Table, id: Name, known: set<Name>, builtins: set<Name>)
    requires Sound(t) && t.current.Some? && Knows(t, known, builtins)
    ensures UseName(t, id, builtins).Some? <==> Known(id, known, builtins)
    ensures UseName(t, id, builtins).Some? ==> var t' := UseName(t, id, builtins).value; Sound(t') && Knows(t', known, builtins)
  {
    hide Put, Knows;
    assert Find(t.entries, t.current, id).Some? ==> Known(id, known, builtins) by { Asked(t, id, known, builtins); }
    assert id in known ==> Find(t.entries, t.current, id).Some? by { Asked(t, id, known, builtins); }
    if Known(id, known, builtins) {
      KnowsPut(t, id, Free, known, known, builtins);
      KnowsPut(t, id, Builtin, known, known, builtins);
      KnowsPut(t, id, Special, known, known, builtins);
    }
  }

  lemma {:induction false} Asked(t: Table, id: Name, known: set<Name>, builtins: set<Name>)
    requires Sound(t) && Knows(t, known, builtins)
    ensures id in known ==> Find(t.entries, t.current, id).Some?
    ensures Find(t.entries, t.current, id).Some? ==> Known(id, known, builtins)
  {
  }

  /** Tables in which the same names are found. */
  ghost predicate SameFound(t: Table, t': Table)
    requires Sound(t) && Sound(t')
  {
    forall x :: Find(t.entries, t.current, x).Some? <==> Find(t'.entries, t'.current, x).Some?
  }

  lemma {:induction false} KnowsSame(t: Table, t': Table, known: set<Name>, builtins: set<Name>)
    requires Sound(t) && Sound(t') && SameFound(t, t') && Knows(t, known, builtins)
    ensures Knows(t', known, builtins)
  {
    hide Known;
  }

  lemma {:induction false} EnterSame(t: Table, node: nat)
    requires Sound(t) && t.current.Some?
    ensures Sound(Enter(t, node, FuncScope)) && SameFound(t, Enter(t, node, FuncScope))
  {
    var t' := Enter(t, node, FuncScope);
    forall x ensures Find(t.entries, t.current, x).Some? <==> Find(t'.entries, t'.current, x).Some? {
      FindSame(t.entries, t'.entries, t.current, x);
    }
  }

  /** After an inner scope the same names are found as before it. */
  lemma {:induction false} ScopeSame(t: Table, node: nat, es: seq<Event>, builtins: set<Name>)
    requires Sound(t) && t.current.Some? && RunEvent(t, Scope(node, es), builtins).Some?
    ensures var t' := RunEvent(t, Scope(node, es), builtins).value; Sound(t') && SameFound(t, t')
  {
    var t' := RunEvent(t, Scope(node, es), builtins).value;
    var t0 := Enter(t, node, FuncScope);
    var t1 := RunEvents(t0, es, builtins).value;
    assert Grew(t0, t1) && Grew(t, t');
    assert forall i :: 0 <= i < |t.entries| ==> t1.entries[i] == t0.entries[i] == t.entries[i];
    forall x ensures Find(t.entries, t.current, x).Some? <==> Find(t'.entries, t'.current, x).Some? {
      FindSame(t.entries, t'.entries, t.current, x);
    }
  }

  lemma {:induction false} KnowsEvent(t: Table, e: Event, known: set<Name>, builtins: set<Name>)
    requires Sound(t) && t.current.Some? && Knows(t, known, builtins)
    ensures RunEvent(t, e, builtins).Some? <==> Resolves([e], known, builtins)
    ensures RunEvent(t, e, builtins).Some? ==> Knows(RunEvent(t, e, builtins).value, known + Declares([e]), builtins)
    decreases e
  {
    hide Knows, Put, UseName, Known, Declares, Resolves;
    ResolvesOne(e, known, builtins);
    DeclaresOne();
    assert known + {} == known;
    match e
    case Declare(id) => KnowsPut(t, id, Decl, known, known + {id}, builtins);
    case Use(id) => KnowsUse(t, id, known, builtins);
    case Scope(node, inner) =>
      EnterSame(t, node);
      KnowsSame(t, Enter(t, node, FuncScope), known, builtins);
      KnowsRun(Enter(t, node, FuncScope), inner, known, builtins);
      if RunEvent(t, e, builtins).Some? {
        ScopeSame(t, node, inner, builtins);
        KnowsSame(t, RunEvent(t, e, builtins).value, known, builtins);
      }
    case Reject =>
  }

  /** The walk goes through exactly if every use finds its name known. */
  lemma {:induction false} KnowsRun(t: Table, es: seq<Event>, known: set<Name>, builtins: set<Name>)
    requires Sound(t) && t.current.Some? && Knows(t, known, builtins)
    ensures RunEvents(t, es, builtins).Some? <==> Resolves(es, known, builtins)
    ensures RunEvents(t, es, builtins).Some? ==> Knows(RunEvents(t, es, builtins).value, known + Declares(es), builtins)
    decreases es
  {
    hide Knows, RunEvent, Known;
    if es == [] {
      assert known + {} == known;
    } else {
      var more := known + Declares([es[0]]);
      KnowsEvent(t, es[0], known, builtins);
      assert es == [es[0]] + es[1..];
      ResolvesAppend([es[0]], es[1..], known, builtins);
      DeclaresAppend([es[0]], es[1..]);
      hide Resolves, Declares;
      if RunEvent(t, es[0], builtins).Some? {
        KnowsRun(RunEvent(t, es[0], builtins).value, es[1..], more, builtins);
        assert more + Declares(es[1..]) == known + Declares(es);
      }
    }
  }

  /** A module is accepted exactly if every name is known where it is used: imported by the
      module, declared before, in the same function or in one around it, or a builtin or special
      name. */
  lemma {:induction false} AcceptedExact(node: nat, uses: seq<Name>, body: seq<Stmt>, builtins: set<Name>)
    ensures ModuleTable(node, uses, body, builtins).Some? <==> StmtsKnown(body, Among(uses), builtins)
  {
    hide Resolves, StmtsKnown, Declared, StmtsEvents, RunEvents, Declares;
    var t := Enter(Empty(), node, ModuleScope);
    assert Knows(t, {}, builtins);
    KnowsRun(t, ModuleEvents(uses, body), {}, builtins);
    ResolvesNames(uses, {}, builtins);
    DeclaresOfParams(uses);
    ResolvesAppend(Declared(uses), StmtsEvents(body), {}, builtins);
    assert {} + Among(uses) == Among(uses);
    ResolvesBody(body, Among(uses), builtins);
  }

  // ---------- builtins and special names ----------

  /** Builtin is flagged only what is one; special only the two special names that are none. */
  ghost predicate Honest(t: Table, builtins: set<Name>) {
    forall i, x :: 0 <= i < |t.entries| && x in t.entries[i].symbols ==>
      && (t.entries[i].symbols[x] == Builtin ==> x in builtins)
      && (t.entries[i].symbols[x] == Special ==> x !in builtins && (x == "__file__" || x == "__line__"))
  }

  lemma {:induction false} HonestPut(t: Table, id: Name, flag: Flag, builtins: set<Name>)
    requires Sound(t) && t.current.Some? && Honest(t, builtins)
    requires flag == Builtin ==> id in builtins
    requires flag == Special ==> id !in builtins && (id == "__file__" || id == "__line__")
    ensures Honest(Put(t, id, flag), builtins)
  {
  }

  lemma {:induction false} HonestUse(t: Table, id: Name, builtins: set<Name>)
    requires Sound(t) && t.current.Some? && Honest(t, builtins) && UseName(t, id, builtins).Some?
    ensures Honest(UseName(t, id, builtins).value, builtins)
  {
    hide Honest, Put;
    HonestPut(t, id, Free, builtins);
    if id in builtins { HonestPut(t, id, Builtin, builtins); }
    if id !in builtins && (id == "__file__" || id == "__line__") { HonestPut(t, id, Special, builtins); }
  }

  lemma {:induction false} HonestMove(t: Table, node: nat, builtins: set<Name>)
    requires Honest(t, builtins)
    ensures Honest(Enter(t, node, FuncScope), builtins) && Honest(Leave(t), builtins)
  {
    var u := Enter(t, node, FuncScope);
    assert forall i :: 0 <= i < |u.entries| ==> u.entries[i].symbols == (if i < |t.entries| then t.entries[i].symbols else map[]);
    assert Leave(t).entries == t.entries;
  }

  lemma {:induction false} HonestEvent(t: Table, e: Event, builtins: set<Name>)
    requires Sound(t) && t.current.Some? && Honest(t, builtins) && RunEvent(t, e, builtins).Some?
    ensures Honest(RunEvent(t, e, builtins).value, builtins)
    decreases e
  {
    hide Honest, Put, UseName, Enter, Leave, Sound, Grew;
    match e
    case Declare(id) => HonestPut(t, id, Decl, builtins);
    case Use(id) => HonestUse(t, id, builtins);
    case Scope(node, inner) =>
      var u := Enter(t, node, FuncScope);
      EnterSound(t, node);
      HonestMove(t, node, builtins);
      HonestRun(u, inner, builtins);
      HonestMove(RunEvents(u, inner, builtins).value, node, builtins);
    case Reject =>
  }

  lemma {:induction false} EnterSound(t: Table, node: nat)
    requires Sound(t) && t.current.Some?
    ensures Sound(Enter(t, node, FuncScope)) && Enter(t, node, FuncScope).current.Some?
  {
  }

  lemma {:induction false} HonestRun(t: Table, es: seq<Event>, builtins: set<Name>)
    requires Sound(t) && t.current.Some? && Honest(t, builtins) && RunEvents(t, es, builtins).Some?
    ensures Honest(RunEvents(t, es, builtins).value, builtins)
    decreases es
  {
    hide RunEvent, Honest;
    if es != [] {
      HonestEvent(t, es[0], builtins);
      HonestRun(RunEvent(t, es[0], builtins).value, es[1..], builtins);
    }
  }

  /** In every table of a module. */
  lemma {:induction false} ModuleHonest(node: nat, uses: seq<Name>, body: seq<Stmt>, builtins: set<Name>)
    requires ModuleTable(node, uses, body, builtins).Some?
    ensures Honest(ModuleTable(node, uses, body, builtins).value, builtins)
  {
    HonestRun(Enter(Empty(), node, ModuleScope), ModuleEvents(uses, body), builtins);
  }

  function Setter(): FnDecl {
    FnDecl(1, [], [Assign("x", Lit(Int(1)))], [], [])
  }

  function SetterModule(): seq<Stmt> {
    [VarDecl("x"), FuncDecl("f", Setter())]
  }

  lemma {:induction false} SetterEvents()
    ensures StmtsEvents(SetterModule()) == [Declare("x"), Declare("f"), Scope(1, [Use("x")])] && FnEvents(Setter()) == [Use("x")]
  {
    var body := SetterModule();
    assert body[1..] == [FuncDecl("f", Setter())] && body[1..][1..] == [];
    var inner := Setter().body;
    assert inner[0] == Assign("x", Lit(Int(1))) && inner[1..] == [];
    assert StmtEvents(inner[0]) == [Use("x")] + [] == [Use("x")];
    assert StmtsEvents(inner) == StmtEvents(inner[0]) + StmtsEvents(inner[1..]) == [Use("x")] + [] == [Use("x")];
    var none: seq<Event> := [];
    assert FnEvents(Setter()) == none + [Use("x")] == [Use("x")];
    var f := [Declare("f"), Scope(1, [Use("x")])];
    assert StmtEvents(body[1]) == f;
    assert StmtsEvents(body[1..]) == f + none == f;
  }

  lemma {:induction false} SetterStores()
    ensures "x" in Stores(FnCode(Setter()))
  {
    assert Setter().body[1..] == [];
    assert FnCode(Setter()) == [PushConst(Int(1)), StoreName("x")];
    assert StoreName("x") in FnCode(Setter());
  }

  lemma {:induction false} SetterWalk(t: Table)
    requires t == Put(Put(Enter(Empty(), 0, ModuleScope), "x", Decl), "f", Decl)
    ensures Sound(t) && RunEvents(t, [Scope(1, [Use("x")])], {}) == Some(Leave(Enter(t, 1, FuncScope)))
  {
    var u := Enter(t, 1, FuncScope);
    assert Find(u.entries, u.current, "x") == Some(0);
    assert RunEvents(u, [Use("x")], {}) == Some(u) by { assert [Use("x")][1..] == []; }
    assert [Scope(1, [Use("x")])][1..] == [];
  }

  /** An assignment to a variable of the module is accepted and stores into its name, but the name
      is not flagged for the function at all. */
  lemma {:induction false} ModuleStoreExample()
    ensures "x" in Stores(FnCode(Setter()))
    ensures var r := ModuleTable(0, [], SetterModule(), {});
      r.Some? && 1 in r.value.lookup && r.value.lookup[1] == 1 && r.value.entries[1].symbols == map[]
  {
    hide Stores, StmtsEvents, FnCode, Find;
    SetterStores();
    SetterEvents();
    var es := [Declare("x"), Declare("f"), Scope(1, [Use("x")])];
    assert ModuleEvents([], SetterModule()) == es by { assert [] + es == es; }
    var t0 := Enter(Empty(), 0, ModuleScope);
    var t1 := Put(Put(t0, "x", Decl), "f", Decl);
    assert es[1..] == [Declare("f"), Scope(1, [Use("x")])] && es[1..][1..] == [Scope(1, [Use("x")])];
    SetterWalk(t1);
  }
}
