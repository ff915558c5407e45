/** The nodes of a syntax tree, and what the compiler's acceptance says of them one by one. */
module Tree {
  import opened Options
  import opened Syntax
  import opened Codegen
  import opened Acceptance
  import Compilation

  // ---------- the nodes of a tree ----------

  /** A node of a function: an expression outside of patterns, a function literal or declaration,
      a whole pattern, or a `break`, which stands in a loop of its own function (`own`) or in a
      loop of any function around it (`any`). */
  datatype Node = ExprNode(e: Expr) | FnNode(fn: FnDecl) | PatternNode(p: Expr) | BreakNode(own: bool, any: bool)

  function ExprNodes(e: Expr, any: bool): set<Node> {
    {ExprNode(e)} +
    match e
    case ArrayLit(items) => ExprsNodes(items, any)
    case HashLit(items) => ExprsNodes(items, any)
    case CallExpr(t, args) => ExprNodes(t, any) + ExprsNodes(args, any)
    case GetAttrExpr(t, _) => ExprNodes(t, any)
    case GetItemExpr(t, k) => ExprNodes(t, any) + ExprNodes(k, any)
    case NotExpr(x) => ExprNodes(x, any)
    case Binary(_, l, r) => ExprNodes(l, any) + ExprNodes(r, any)
    case FnExpr(fn) => {FnNode(fn)} + FnNodes(fn, any)
    case SpawnExpr(t, args) => ExprNodes(t, any) + ExprsNodes(args, any)
    case _ => {}
  }

  function ExprsNodes(es: seq<Expr>, any: bool): set<Node> {
    if es == [] then {} else ExprNodes(es[0], any) + ExprsNodes(es[1..], any)
  }

  /** The nodes of a function's body, those of the functions in it included. */
  function FnNodes(fn: FnDecl, any: bool): set<Node> {
    StmtsNodes(fn.body, false, any)
  }

  function StmtNodes(s: Stmt, own: bool, any: bool): set<Node> {
    match s
    case ExprStmt(e) => ExprNodes(e, any)
    case Assign(_, e) => ExprNodes(e, any)
    case VarDecl(_) => {}
    case VarInit(_, e) => ExprNodes(e, any)
    case FuncDecl(_, fn) => {FnNode(fn)} + FnNodes(fn, any)
    case If(c, b) => ExprNodes(c, any) + StmtsNodes(b, own, any)
    case IfElse(c, b, o) => ExprNodes(c, any) + StmtsNodes(b, own, any) + StmtsNodes(o, own, any)
    case While(c, b) => ExprNodes(c, any) + StmtsNodes(b, true, true)
    case Match(e, arms) => ExprNodes(e, any) + ArmsNodes(arms, own, any)
    case RetNil => {}
    case Ret(e) => ExprNodes(e, any)
    case Break => {BreakNode(own, any)}
  }

  function StmtsNodes(ss: seq<Stmt>, own: bool, any: bool): set<Node> {
    if ss == [] then {} else StmtNodes(ss[0], own, any) + StmtsNodes(ss[1..], own, any)
  }

  function ArmsNodes(arms: seq<Arm>, own: bool, any: bool): set<Node> {
    if arms == [] then {} else {PatternNode(arms[0].test)} + StmtsNodes(arms[0].body, own, any) + ArmsNodes(arms[1..], own, any)
  }

  /** The nodes of a pattern, each with the number of arrays and hashes around it. */
  function PartNodes(p: Expr, level: nat): set<(Expr, nat)> {
    {(p, level)} +
    match p
    case ArrayLit(items) => ItemNodes(items, level + 1)
    case HashLit(items) => ValueNodes(items, level + 1)
    case _ => {}
  }

  function ItemNodes(ps: seq<Expr>, level: nat): set<(Expr, nat)> {
    if ps == [] then {} else PartNodes(ps[0], level) + ItemNodes(ps[1..], level)
  }

  /** Every second item of a hash is a value. */
  function ValueNodes(ps: seq<Expr>, level: nat): set<(Expr, nat)> {
    if |ps| < 2 then {} else PartNodes(ps[1], level) + ValueNodes(ps[2..], level)
  }

  /** The keys of its hashes. */
  function Keys(p: Expr): set<Expr> {
    match p
    case ArrayLit(items) => ItemKeys(items)
    case HashLit(items) => PairKeys(items)
    case _ => {}
  }

  function ItemKeys(ps: seq<Expr>): set<Expr> {
    if ps == [] then {} else Keys(ps[0]) + ItemKeys(ps[1..])
  }

  function PairKeys(ps: seq<Expr>): set<Expr> {
    if |ps| < 2 then {} else {ps[0]} + Keys(ps[1]) + PairKeys(ps[2..])
  }

  /** Its variables, in the order in which they are written. */
  function Names(p: Expr): seq<Name> {
    match p
    case Ident(id) => [id]
    case ArrayLit(items) => ItemNames(items)
    case HashLit(items) => PairNames(items)
    case _ => []
  }

  function ItemNames(ps: seq<Expr>): seq<Name> {
    if ps == [] then [] else Names(ps[0]) + ItemNames(ps[1..])
  }

  function PairNames(ps: seq<Expr>): seq<Name> {
    if |ps| < 2 then [] else Names(ps[1]) + PairNames(ps[2..])
  }

  // ---------- what is asked of a node ----------

  predicate IsContainer(p: Expr) {
    p.ArrayLit? || p.HashLit?
  }

  predicate IsConstant(p: Expr) {
    p.Lit? || p.NilLit?
  }

  /** A pattern of constants, names, wildcards, arrays and hashes, with at most 16 arrays and
      hashes inside each other, at most 16 variables, and constant keys. */
  ghost predicate PatternFine(p: Expr) {
    && (forall x :: x in PartNodes(p, 0) ==> IsConstant(x.0) || x.0.Ident? || x.0.Wildcard? || (IsContainer(x.0) && x.1 < 16))
    && (forall k :: k in Keys(p) ==> IsConstant(k))
    && |Names(p)| <= 16
  }

  /** The operands of a node fit the byte that counts them. */
  predicate CountsFit(e: Expr) {
    match e
    case ArrayLit(items) => |items| <= 255
    case HashLit(items) => |items| % 2 == 0 && |items| / 2 <= 255
    case CallExpr(_, args) => |args| <= 255
    case SpawnExpr(_, args) => |args| <= 255
    case _ => true
  }

  ghost predicate Fine(n: Node, limits: bool) {
    match n
    case ExprNode(e) => e != Wildcard && (limits ==> CountsFit(e))
    case FnNode(_) => true
    case PatternNode(p) => PatternFine(p)
    case BreakNode(own, _) => own
  }

  ghost predicate AllFine(ns: set<Node>, limits: bool) {
    forall n :: n in ns ==> Fine(n, limits)
  }

  lemma {:induction false} FineBoth(a: set<Node>, b: set<Node>, limits: bool)
    ensures AllFine(a + b, limits) <==> AllFine(a, limits) && AllFine(b, limits)
  {
    hide Fine;
  }

  lemma {:induction false} FineOne(n: Node, limits: bool)
    ensures AllFine({n}, limits) <==> Fine(n, limits)
  {
    hide Fine;
  }

  // ---------- patterns ----------

  ghost predicate PartsFine(ns: set<(Expr, nat)>) {
    forall x :: x in ns ==> IsConstant(x.0) || x.0.Ident? || x.0.Wildcard? || (IsContainer(x.0) && x.1 < 16)
  }

  ghost predicate KeysFine(ks: set<Expr>) {
    forall k :: k in ks ==> IsConstant(k)
  }

  lemma {:induction false} PartsBoth(a: set<(Expr, nat)>, b: set<(Expr, nat)>)
    ensures PartsFine(a + b) <==> PartsFine(a) && PartsFine(b)
  {
  }

  lemma {:induction false} KeysBoth(a: set<Expr>, b: set<Expr>)
    ensures KeysFine(a + b) <==> KeysFine(a) && KeysFine(b)
  {
  }

  lemma {:induction false} PatternParts(p: Expr, level: nat)
    ensures PatOk(p, level) <==> PartsFine(PartNodes(p, level)) && KeysFine(Keys(p))
    ensures PatCount(p) == |Names(p)|
    decreases p
  {
    hide PartsFine, KeysFine;
    assert PartsFine({(p, level)}) <==> IsConstant(p) || p.Ident? || p.Wildcard? || (IsContainer(p) && level < 16) by { PartOne(p, level); }
    match p
    case ArrayLit(items) =>
      PartsBoth({(p, level)}, ItemNodes(items, level + 1));
      ItemParts(items, level + 1);
    case HashLit(items) =>
      PartsBoth({(p, level)}, ValueNodes(items, level + 1));
      PairParts(items, level + 1);
    case _ =>
      PartsBoth({(p, level)}, {});
      NoParts();
  }

  lemma {:induction false} PartOne(p: Expr, level: nat)
    ensures PartsFine({(p, level)}) <==> IsConstant(p) || p.Ident? || p.Wildcard? || (IsContainer(p) && level < 16)
  {
    assert (p, level) in {(p, level)};
  }

  lemma {:induction false} NoParts()
    ensures PartsFine({}) && KeysFine({})
  {
  }

  lemma {:induction false} ItemParts(ps: seq<Expr>, level: nat)
    ensures ItemsOk(ps, level) <==> PartsFine(ItemNodes(ps, level)) && KeysFine(ItemKeys(ps))
    ensures ItemsCount(ps) == |ItemNames(ps)|
    decreases ps
  {
    hide PartsFine, KeysFine, PatOk, PartNodes, Keys, Names, PatCount;
    if ps == [] {
      NoParts();
    } else {
      PatternParts(ps[0], level);
      ItemParts(ps[1..], level);
      PartsBoth(PartNodes(ps[0], level), ItemNodes(ps[1..], level));
      KeysBoth(Keys(ps[0]), ItemKeys(ps[1..]));
    }
  }

  lemma {:induction false} PairParts(ps: seq<Expr>, level: nat)
    ensures PairsOk(ps, level) <==> PartsFine(ValueNodes(ps, level)) && KeysFine(PairKeys(ps))
    ensures PairsCount(ps) == |PairNames(ps)|
    decreases ps
  {
    hide PartsFine, KeysFine, PatOk, PartNodes, Keys, Names, PatCount;
    if |ps| < 2 {
      NoParts();
    } else {
      PatternParts(ps[1], level);
      PairParts(ps[2..], level);
      PartsBoth(PartNodes(ps[1], level), ValueNodes(ps[2..], level));
      KeysBoth({ps[0]} + Keys(ps[1]), PairKeys(ps[2..]));
      KeysBoth({ps[0]}, Keys(ps[1]));
      KeyOne(ps[0]);
    }
  }

  lemma {:induction false} KeyOne(k: Expr)
    ensures KeysFine({k}) <==> IsConstant(k)
  {
    assert k in {k};
  }

  lemma {:induction false} PatternExact(p: Expr)
    ensures PatternFine(p) <==> PatOk(p, 0) && PatCount(p) <= MAX_BIND_VARS
  {
    hide PartNodes, Keys, Names, PatOk, PatCount, IsConstant, IsContainer;
    PatternParts(p, 0);
  }

  // ---------- acceptance ----------

  lemma {:induction false} ExprExact(e: Expr, any: bool, limits: bool)
    ensures ExprOk(e, limits) <==> AllFine(ExprNodes(e, any), limits)
    decreases e, 1
  {
    hide AllFine, Fine;
    var self := {ExprNode(e)};
    FineOne(ExprNode(e), limits);
    assert Fine(ExprNode(e), limits) <==> e != Wildcard && (limits ==> CountsFit(e)) by { FineExpr(e, limits); }
    match e
    case ArrayLit(items) =>
      ExprsExact(items, any, limits);
      FineBoth(self, ExprsNodes(items, any), limits);
    case HashLit(items) =>
      ExprsExact(items, any, limits);
      FineBoth(self, ExprsNodes(items, any), limits);
    case CallExpr(t, args) =>
      WithArgs(e, any, limits);
      FineBoth(self, ExprNodes(t, any) + ExprsNodes(args, any), limits);
    case GetAttrExpr(t, _) =>
      ExprExact(t, any, limits);
      FineBoth(self, ExprNodes(t, any), limits);
    case GetItemExpr(t, k) =>
      ExprExact(t, any, limits);
      ExprExact(k, any, limits);
      FineBoth(ExprNodes(t, any), ExprNodes(k, any), limits);
      FineBoth(self, ExprNodes(t, any) + ExprNodes(k, any), limits);
    case NotExpr(x) =>
      ExprExact(x, any, limits);
      FineBoth(self, ExprNodes(x, any), limits);
    case Binary(_, l, r) =>
      ExprExact(l, any, limits);
      ExprExact(r, any, limits);
      FineBoth(ExprNodes(l, any), ExprNodes(r, any), limits);
      FineBoth(self, ExprNodes(l, any) + ExprNodes(r, any), limits);
    case FnExpr(fn) =>
      FunctionExact(fn, any, limits);
      FineBoth(self, {FnNode(fn)} + FnNodes(fn, any), limits);
    case SpawnExpr(t, args) =>
      WithArgs(e, any, limits);
      FineBoth(self, ExprNodes(t, any) + ExprsNodes(args, any), limits);
    case _ =>
      FineBoth(self, {}, limits);
      FineNone(limits);
  }

  lemma {:induction false} FineExpr(e: Expr, limits: bool)
    ensures Fine(ExprNode(e), limits) <==> e != Wildcard && (limits ==> CountsFit(e))
  {
  }

  lemma {:induction false} FineNone(limits: bool)
    ensures AllFine({}, limits)
  {
  }

  lemma {:induction false} WithArgs(e: Expr, any: bool, limits: bool)
    requires e.CallExpr? || e.SpawnExpr?
    ensures ExprOk(e.target, limits) && ExprsOk(e.args, limits) <==> AllFine(ExprNodes(e.target, any) + ExprsNodes(e.args, any), limits)
    decreases e, 0
  {
    hide AllFine, Fine, ExprOk, ExprsOk, ExprNodes, ExprsNodes;
    ExprExact(e.target, any, limits);
    ExprsExact(e.args, any, limits);
    FineBoth(ExprNodes(e.target, any), ExprsNodes(e.args, any), limits);
  }

  lemma {:induction false} ExprsExact(es: seq<Expr>, any: bool, limits: bool)
    ensures ExprsOk(es, limits) <==> AllFine(ExprsNodes(es, any), limits)
    decreases es, 0
  {
    hide AllFine, Fine, ExprOk, ExprNodes;
    if es == [] {
      FineNone(limits);
    } else {
      ExprExact(es[0], any, limits);
      ExprsExact(es[1..], any, limits);
      FineBoth(ExprNodes(es[0], any), ExprsNodes(es[1..], any), limits);
    }
  }

  /** A function, as a literal or a declaration. */
  lemma {:induction false} FunctionExact(fn: FnDecl, any: bool, limits: bool)
    ensures FnOk(fn, limits) <==> AllFine({FnNode(fn)} + FnNodes(fn, any), limits)
    decreases fn, 0
  {
    hide AllFine, StmtsOk, StmtsNodes;
    StmtsExact(fn.body, false, any, limits);
    FineOne(FnNode(fn), limits);
    FineBoth({FnNode(fn)}, FnNodes(fn, any), limits);
  }

  lemma {:induction false} StmtExact(s: Stmt, own: bool, any: bool, limits: bool)
    ensures StmtOk(s, own, limits) <==> AllFine(StmtNodes(s, own, any), limits)
    decreases s, 1
  {
    hide AllFine, Fine, ExprOk, ExprNodes, StmtsOk, StmtsNodes;
    match s
    case ExprStmt(e) => ExprExact(e, any, limits);
    case Assign(_, e) => ExprExact(e, any, limits);
    case VarDecl(_) => FineNone(limits);
    case VarInit(_, e) => ExprExact(e, any, limits);
    case FuncDecl(_, fn) => FunctionExact(fn, any, limits);
    case If(c, b) => GuardedExact(s, own, any, any, limits);
    case IfElse(c, b, o) =>
      GuardedExact(s, own, any, any, limits);
      StmtsExact(o, own, any, limits);
      FineBoth(ExprNodes(c, any) + StmtsNodes(b, own, any), StmtsNodes(o, own, any), limits);
    case While(c, b) => GuardedExact(s, true, any, true, limits);
    case Match(e, arms) =>
      ExprExact(e, any, limits);
      ArmsExact(arms, own, any, limits);
      FineBoth(ExprNodes(e, any), ArmsNodes(arms, own, any), limits);
    case RetNil => FineNone(limits);
    case Ret(e) => ExprExact(e, any, limits);
    case Break =>
      FineOne(BreakNode(own, any), limits);
      assert Fine(BreakNode(own, any), limits) <==> own by { FineBreak(own, any, limits); }
  }

  lemma {:induction false} FineBreak(own: bool, any: bool, limits: bool)
    ensures Fine(BreakNode(own, any), limits) <==> own
  {
  }

  lemma {:induction false} GuardedExact(s: Stmt, own: bool, any: bool, inner: bool, limits: bool)
    requires s.If? || s.IfElse? || s.While?
    ensures ExprOk(s.cond, limits) && StmtsOk(s.body, own, limits) <==> AllFine(ExprNodes(s.cond, any) + StmtsNodes(s.body, own, inner), limits)
    decreases s, 0
  {
    hide AllFine, Fine, ExprOk, ExprNodes, StmtsOk, StmtsNodes;
    ExprExact(s.cond, any, limits);
    StmtsExact(s.body, own, inner, limits);
    FineBoth(ExprNodes(s.cond, any), StmtsNodes(s.body, own, inner), limits);
  }

  lemma {:induction false} StmtsExact(ss: seq<Stmt>, own: bool, any: bool, limits: bool)
    ensures StmtsOk(ss, own, limits) <==> AllFine(StmtsNodes(ss, own, any), limits)
    decreases ss, 0
  {
    hide AllFine, Fine, StmtOk, StmtNodes;
    if ss == [] {
      FineNone(limits);
    } else {
      StmtExact(ss[0], own, any, limits);
      StmtsExact(ss[1..], own, any, limits);
      FineBoth(StmtNodes(ss[0], own, any), StmtsNodes(ss[1..], own, any), limits);
    }
  }

  lemma {:induction false} ArmsExact(arms: seq<Arm>, own: bool, any: bool, limits: bool)
    ensures ArmsOk(arms, own, limits) <==> AllFine(ArmsNodes(arms, own, any), limits)
    decreases arms, 0
  {
    hide AllFine, StmtsOk, StmtsNodes, PatternFine, PatOk, PatCount;
    if arms == [] {
      FineNone(limits);
    } else {
      var test, body := arms[0].test, arms[0].body;
      PatternExact(test);
      FineOne(PatternNode(test), limits);
      StmtsExact(body, own, any, limits);
      ArmsExact(arms[1..], own, any, limits);
      FineBoth({PatternNode(test)}, StmtsNodes(body, own, any), limits);
      FineBoth({PatternNode(test)} + StmtsNodes(body, own, any), ArmsNodes(arms[1..], own, any), limits);
    }
  }

  /** A function is accepted exactly if no wildcard stands outside of a pattern, every `break`
      stands in a loop of its own function, and every pattern is made as `PatternFine` says; its
      operand counts fit exactly if those of every node do. */
  lemma {:induction false} AcceptedExact(fn: FnDecl, limits: bool)
    ensures FnOk(fn, limits) <==> AllFine(FnNodes(fn, false), limits)
  {
    hide AllFine, StmtsOk, StmtsNodes;
    StmtsExact(fn.body, false, false, limits);
  }

  // ---------- what the compiler asks of its callers ----------

  /** A pattern with everything inside of it, keys included. */
  function Inside(p: Expr): set<Expr> {
    {p} + if p.ArrayLit? || p.HashLit? then AllInside(p.items) else {}
  }

  function AllInside(ps: seq<Expr>): set<Expr> {
    if ps == [] then {} else Inside(ps[0]) + AllInside(ps[1..])
  }

  /** A `break` belongs to a loop of its own function or to none at all, and every hash of a
      pattern has a value for each key, as the grammar has it. */
  ghost predicate Placed(n: Node) {
    match n
    case BreakNode(own, any) => own || !any
    case PatternNode(p) => AllPaired(Inside(p))
    case _ => true
  }

  ghost predicate AllPaired(ps: set<Expr>) {
    forall p :: p in ps && p.HashLit? ==> |p.items| % 2 == 0
  }

  ghost predicate AllPlaced(ns: set<Node>) {
    forall n :: n in ns ==> Placed(n)
  }

  lemma {:induction false} PlacedBoth(a: set<Node>, b: set<Node>)
    ensures AllPlaced(a + b) <==> AllPlaced(a) && AllPlaced(b)
  {
    hide Placed;
  }

  lemma {:induction false} PlacedOne(n: Node)
    ensures AllPlaced({n}) <==> Placed(n)
  {
    hide Placed;
    assert n in {n};
  }

  lemma {:induction false} PlacedNone()
    ensures AllPlaced({}) && AllPaired({})
  {
  }

  lemma {:induction false} PairedBoth(a: set<Expr>, b: set<Expr>)
    ensures AllPaired(a + b) <==> AllPaired(a) && AllPaired(b)
  {
  }

  lemma {:induction false} PairedOne(p: Expr)
    ensures AllPaired({p}) <==> (p.HashLit? ==> |p.items| % 2 == 0)
  {
    assert p in {p};
  }

  lemma {:induction false} PatPlaced(p: Expr)
    ensures Compilation.PatScoped(p) <==> AllPaired(Inside(p))
    decreases p, 1
  {
    hide AllPaired;
    PairedOne(p);
    PlacedNone();
    PairedBoth({p}, if p.ArrayLit? || p.HashLit? then AllInside(p.items) else {});
    if p.ArrayLit? || p.HashLit? { PatsPlaced(p.items); }
  }

  lemma {:induction false} PatsPlaced(ps: seq<Expr>)
    ensures Compilation.PatsScoped(ps) <==> AllPaired(AllInside(ps))
    decreases ps, 0
  {
    hide AllPaired, Compilation.PatScoped, Inside;
    if ps == [] {
      PlacedNone();
    } else {
      PatPlaced(ps[0]);
      PatsPlaced(ps[1..]);
      PairedBoth(Inside(ps[0]), AllInside(ps[1..]));
    }
  }

  lemma {:induction false} ExprPlaced(e: Expr, any: bool)
    ensures Compilation.ExprScoped(e, any) <==> AllPlaced(ExprNodes(e, any))
    decreases e, 1
  {
    var self := {ExprNode(e)};
    hide AllPlaced, Placed, Compilation.StmtsScoped, StmtsNodes;
    ItselfPlaced(e);
    match e
    case ArrayLit(items) =>
      ExprsPlaced(items, any);
      PlacedBoth(self, ExprsNodes(items, any));
    case HashLit(items) =>
      ExprsPlaced(items, any);
      PlacedBoth(self, ExprsNodes(items, any));
    case CallExpr(t, args) => CallPlaced(e, any);
    case GetAttrExpr(t, _) =>
      ExprPlaced(t, any);
      PlacedBoth(self, ExprNodes(t, any));
    case GetItemExpr(t, k) =>
      ExprPlaced(t, any);
      ExprPlaced(k, any);
      PlacedBoth(ExprNodes(t, any), ExprNodes(k, any));
      PlacedBoth(self, ExprNodes(t, any) + ExprNodes(k, any));
    case NotExpr(x) =>
      ExprPlaced(x, any);
      PlacedBoth(self, ExprNodes(x, any));
    case Binary(_, l, r) =>
      ExprPlaced(l, any);
      ExprPlaced(r, any);
      PlacedBoth(ExprNodes(l, any), ExprNodes(r, any));
      PlacedBoth(self, ExprNodes(l, any) + ExprNodes(r, any));
    case FnExpr(fn) =>
      FunctionPlaced(fn, any);
      PlacedBoth(self, {FnNode(fn)} + FnNodes(fn, any));
    case SpawnExpr(t, args) => CallPlaced(e, any);
    case _ => PlacedBoth(self, {});
  }

  lemma {:induction false} ItselfPlaced(e: Expr)
    ensures AllPlaced({ExprNode(e)}) && AllPlaced({})
  {
  }

  lemma {:induction false} CallPlaced(e: Expr, any: bool)
    requires e.CallExpr? || e.SpawnExpr?
    ensures Compilation.ExprScoped(e, any) <==> AllPlaced(ExprNodes(e, any))
    decreases e, 0
  {
    hide AllPlaced, Placed, Compilation.ExprsScoped, ExprsNodes;
    ItselfPlaced(e);
    ExprPlaced(e.target, any);
    ExprsPlaced(e.args, any);
    PlacedBoth(ExprNodes(e.target, any), ExprsNodes(e.args, any));
    PlacedBoth({ExprNode(e)}, ExprNodes(e.target, any) + ExprsNodes(e.args, any));
  }

  lemma {:induction false} ExprsPlaced(es: seq<Expr>, any: bool)
    ensures Compilation.ExprsScoped(es, any) <==> AllPlaced(ExprsNodes(es, any))
    decreases es, 0
  {
    hide AllPlaced, Placed, Compilation.ExprScoped, ExprNodes;
    if es == [] {
      PlacedNone();
    } else {
      ExprPlaced(es[0], any);
      ExprsPlaced(es[1..], any);
      PlacedBoth(ExprNodes(es[0], any), ExprsNodes(es[1..], any));
    }
  }

  lemma {:induction false} FunctionPlaced(fn: FnDecl, any: bool)
    ensures Compilation.StmtsScoped(fn.body, false, any) <==> AllPlaced({FnNode(fn)} + FnNodes(fn, any))
    decreases fn, 0
  {
    hide AllPlaced, Compilation.StmtsScoped, StmtsNodes;
    StmtsPlaced(fn.body, false, any);
    PlacedOne(FnNode(fn));
    PlacedBoth({FnNode(fn)}, FnNodes(fn, any));
  }

  lemma {:induction false} StmtPlaced(s: Stmt, own: bool, any: bool)
    ensures Compilation.StmtScoped(s, own, any) <==> AllPlaced(StmtNodes(s, own, any))
    decreases s, 1
  {
    hide AllPlaced, Placed, Compilation.ExprScoped, ExprNodes, Compilation.StmtsScoped, StmtsNodes;
    PlacedNone();
    match s
    case ExprStmt(e) => ExprPlaced(e, any);
    case Assign(_, e) => ExprPlaced(e, any);
    case VarInit(_, e) => ExprPlaced(e, any);
    case FuncDecl(_, fn) => FunctionPlaced(fn, any);
    case If(c, b) => GuardedPlaced(s, own, any, any);
    case IfElse(c, b, o) =>
      GuardedPlaced(s, own, any, any);
      StmtsPlaced(o, own, any);
      PlacedBoth(ExprNodes(c, any) + StmtsNodes(b, own, any), StmtsNodes(o, own, any));
    case While(c, b) => GuardedPlaced(s, true, any, true);
    case Match(e, arms) =>
      ExprPlaced(e, any);
      ArmsPlaced(arms, own, any);
      PlacedBoth(ExprNodes(e, any), ArmsNodes(arms, own, any));
    case Ret(e) => ExprPlaced(e, any);
    case Break =>
      PlacedOne(BreakNode(own, any));
      assert Placed(BreakNode(own, any)) <==> own || !any by { BreakPlaced(own, any); }
    case _ =>
  }

  lemma {:induction false} BreakPlaced(own: bool, any: bool)
    ensures Placed(BreakNode(own, any)) <==> own || !any
  {
  }

  lemma {:induction false} GuardedPlaced(s: Stmt, own: bool, any: bool, inner: bool)
    requires s.If? || s.IfElse? || s.While?
    ensures Compilation.ExprScoped(s.cond, any) && Compilation.StmtsScoped(s.body, own, inner) <==>
            AllPlaced(ExprNodes(s.cond, any) + StmtsNodes(s.body, own, inner))
    decreases s, 0
  {
    hide AllPlaced, Placed, Compilation.ExprScoped, ExprNodes, Compilation.StmtsScoped, StmtsNodes;
    ExprPlaced(s.cond, any);
    StmtsPlaced(s.body, own, inner);
    PlacedBoth(ExprNodes(s.cond, any), StmtsNodes(s.body, own, inner));
  }

  lemma {:induction false} StmtsPlaced(ss: seq<Stmt>, own: bool, any: bool)
    ensures Compilation.StmtsScoped(ss, own, any) <==> AllPlaced(StmtsNodes(ss, own, any))
    decreases ss, 0
  {
    hide AllPlaced, Placed, Compilation.StmtScoped, StmtNodes;
    if ss == [] {
      PlacedNone();
    } else {
      StmtPlaced(ss[0], own, any);
      StmtsPlaced(ss[1..], own, any);
      PlacedBoth(StmtNodes(ss[0], own, any), StmtsNodes(ss[1..], own, any));
    }
  }

  lemma {:induction false} ArmsPlaced(arms: seq<Arm>, own: bool, any: bool)
    ensures Compilation.ArmsScoped(arms, own, any) <==> AllPlaced(ArmsNodes(arms, own, any))
    decreases arms, 0
  {
    hide AllPlaced, AllPaired, Inside, Compilation.StmtsScoped, StmtsNodes, Compilation.PatScoped;
    if arms == [] {
      PlacedNone();
    } else {
      var test, body := arms[0].test, arms[0].body;
      PatPlaced(test);
      PlacedOne(PatternNode(test));
      StmtsPlaced(body, own, any);
      ArmsPlaced(arms[1..], own, any);
      PlacedBoth({PatternNode(test)}, StmtsNodes(body, own, any));
      PlacedBoth({PatternNode(test)} + StmtsNodes(body, own, any), ArmsNodes(arms[1..], own, any));
    }
  }

  /** What the compiler asks of a function is this of every node. */
  lemma {:induction false} ScopedExact(fn: FnDecl)
    ensures Compilation.StmtsScoped(fn.body, false, false) <==> AllPlaced(FnNodes(fn, false))
  {
    hide AllPlaced, Compilation.StmtsScoped, StmtsNodes;
    StmtsPlaced(fn.body, false, false);
  }

  // ---------- the functions of a tree ----------

  lemma {:induction false} ExprFnsExact(e: Expr, any: bool, f: FnDecl)
    ensures f in ExprFns(e) <==> FnNode(f) in ExprNodes(e, any)
    decreases e, 1
  {
    match e
    case ArrayLit(items) => ExprsFnsExact(items, any, f);
    case HashLit(items) => ExprsFnsExact(items, any, f);
    case CallExpr(t, args) =>
      ExprFnsExact(t, any, f);
      ExprsFnsExact(args, any, f);
    case GetAttrExpr(t, _) => ExprFnsExact(t, any, f);
    case GetItemExpr(t, k) =>
      ExprFnsExact(t, any, f);
      ExprFnsExact(k, any, f);
    case NotExpr(x) => ExprFnsExact(x, any, f);
    case Binary(_, l, r) =>
      ExprFnsExact(l, any, f);
      ExprFnsExact(r, any, f);
    case FnExpr(fn) => StmtsFnsExact(fn.body, false, any, f);
    case SpawnExpr(t, args) =>
      ExprFnsExact(t, any, f);
      ExprsFnsExact(args, any, f);
    case _ =>
  }

  lemma {:induction false} ExprsFnsExact(es: seq<Expr>, any: bool, f: FnDecl)
    ensures f in ExprsFns(es) <==> FnNode(f) in ExprsNodes(es, any)
    decreases es, 0
  {
    hide ExprFns, ExprNodes;
    if es != [] {
      ExprFnsExact(es[0], any, f);
      ExprsFnsExact(es[1..], any, f);
    }
  }

  lemma {:induction false} StmtFnsExact(s: Stmt, own: bool, any: bool, f: FnDecl)
    ensures f in StmtFns(s) <==> FnNode(f) in StmtNodes(s, own, any)
    decreases s, 1
  {
    hide ExprFns, ExprNodes, StmtsFns, StmtsNodes;
    match s
    case ExprStmt(e) => ExprFnsExact(e, any, f);
    case Assign(_, e) => ExprFnsExact(e, any, f);
    case VarInit(_, e) => ExprFnsExact(e, any, f);
    case FuncDecl(_, fn) => StmtsFnsExact(fn.body, false, any, f);
    case If(c, b) =>
      ExprFnsExact(c, any, f);
      StmtsFnsExact(b, own, any, f);
    case IfElse(c, b, o) =>
      ExprFnsExact(c, any, f);
      StmtsFnsExact(b, own, any, f);
      StmtsFnsExact(o, own, any, f);
    case While(c, b) =>
      ExprFnsExact(c, any, f);
      StmtsFnsExact(b, true, true, f);
    case Match(e, arms) =>
      ExprFnsExact(e, any, f);
      ArmsFnsExact(arms, own, any, f);
    case Ret(e) => ExprFnsExact(e, any, f);
    case _ =>
  }

  lemma {:induction false} StmtsFnsExact(ss: seq<Stmt>, own: bool, any: bool, f: FnDecl)
    ensures f in StmtsFns(ss) <==> FnNode(f) in StmtsNodes(ss, own, any)
    decreases ss, 0
  {
    hide StmtFns, StmtNodes;
    if ss != [] {
      StmtFnsExact(ss[0], own, any, f);
      StmtsFnsExact(ss[1..], own, any, f);
    }
  }

  lemma {:induction false} ArmsFnsExact(arms: seq<Arm>, own: bool, any: bool, f: FnDecl)
    ensures f in ArmsFns(arms) <==> FnNode(f) in ArmsNodes(arms, own, any)
    decreases arms, 0
  {
    hide StmtsFns, StmtsNodes;
    if arms != [] {
      StmtsFnsExact(arms[0].body, own, any, f);
      ArmsFnsExact(arms[1..], own, any, f);
    }
  }

  /** The functions that get a code object when `fn` is compiled: itself, and every literal and
      declaration inside of it, at any depth. */
  lemma {:induction false} FnsExact(fn: FnDecl, f: FnDecl)
    ensures f in FnFns(fn) <==> f == fn || FnNode(f) in FnNodes(fn, false)
  {
    hide StmtsFns, StmtsNodes;
    StmtsFnsExact(fn.body, false, false, f);
  }
}
