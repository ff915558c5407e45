/** Which functions the compiler accepts. With `limits`, also that every operand count fits
    the single byte it is emitted in and that hash literals have a value for every key. */
module Acceptance {
  import opened Options
  import opened Syntax

  const MAX_BIND_PATH: nat := 16
  const MAX_BIND_VARS: nat := 16

  predicate ExprOk(e: Expr, limits: bool) {
    match e
    case ArrayLit(items) => ExprsOk(items, limits) && (limits ==> |items| <= 255)
    case HashLit(items) => ExprsOk(items, limits) && (limits ==> |items| <= 511 && |items| % 2 == 0)
    case CallExpr(t, args) => ExprOk(t, limits) && ExprsOk(args, limits) && (limits ==> |args| <= 255)
    case GetAttrExpr(t, _) => ExprOk(t, limits)
    case GetItemExpr(t, k) => ExprOk(t, limits) && ExprOk(k, limits)
    case NotExpr(x) => ExprOk(x, limits)
    case Binary(_, l, r) => ExprOk(l, limits) && ExprOk(r, limits)
    case FnExpr(fn) => FnOk(fn, limits)
    case SpawnExpr(t, args) => ExprOk(t, limits) && ExprsOk(args, limits) && (limits ==> |args| <= 255)
    case Wildcard => false
    case _ => true
  }

  predicate ExprsOk(es: seq<Expr>, limits: bool) {
    es == [] || (ExprOk(es[0], limits) && ExprsOk(es[1..], limits))
  }

  predicate FnOk(fn: FnDecl, limits: bool) {
    StmtsOk(fn.body, false, limits)
  }

  predicate StmtOk(s: Stmt, inLoop: bool, limits: bool) {
    match s
    case ExprStmt(e) => ExprOk(e, limits)
    case Assign(_, e) => ExprOk(e, limits)
    case VarDecl(_) => true
    case VarInit(_, e) => ExprOk(e, limits)
    case FuncDecl(_, fn) => FnOk(fn, limits)
    case If(c, b) => ExprOk(c, limits) && StmtsOk(b, inLoop, limits)
    case IfElse(c, b, o) => ExprOk(c, limits) && StmtsOk(b, inLoop, limits) && StmtsOk(o, inLoop, limits)
    case While(c, b) => ExprOk(c, limits) && StmtsOk(b, true, limits)
    case Match(e, arms) => ExprOk(e, limits) && ArmsOk(arms, inLoop, limits)
    case RetNil => true
    case Ret(e) => ExprOk(e, limits)
    case Break => inLoop
  }

  predicate StmtsOk(ss: seq<Stmt>, inLoop: bool, limits: bool) {
    ss == [] || (StmtOk(ss[0], inLoop, limits) && StmtsOk(ss[1..], inLoop, limits))
  }

  predicate ArmOk(arm: Arm, inLoop: bool, limits: bool) {
    PatOk(arm.test, 0) && PatCount(arm.test) <= MAX_BIND_VARS && StmtsOk(arm.body, inLoop, limits)
  }

  predicate ArmsOk(arms: seq<Arm>, inLoop: bool, limits: bool) {
    arms == [] || (ArmOk(arms[0], inLoop, limits) && ArmsOk(arms[1..], inLoop, limits))
  }

  /** A pattern at nesting depth `depth` that the compiler can test. */
  predicate PatOk(p: Expr, depth: nat) {
    match p
    case Lit(_) => true
    case NilLit => true
    case Ident(_) => true
    case Wildcard => true
    case ArrayLit(items) => depth < MAX_BIND_PATH && ItemsOk(items, depth + 1)
    case HashLit(items) => depth < MAX_BIND_PATH && PairsOk(items, depth + 1)
    case _ => false
  }

  predicate ItemsOk(ps: seq<Expr>, depth: nat) {
    ps == [] || (PatOk(ps[0], depth) && ItemsOk(ps[1..], depth))
  }

  predicate PairsOk(ps: seq<Expr>, depth: nat) {
    |ps| < 2 || ((ps[0].Lit? || ps[0].NilLit?) && PatOk(ps[1], depth) && PairsOk(ps[2..], depth))
  }

  /** The number of variables a pattern binds. */
  function PatCount(p: Expr): nat {
    match p
    case Ident(_) => 1
    case ArrayLit(items) => ItemsCount(items)
    case HashLit(items) => PairsCount(items)
    case _ => 0
  }

  function ItemsCount(ps: seq<Expr>): nat {
    if ps == [] then 0 else PatCount(ps[0]) + ItemsCount(ps[1..])
  }

  function PairsCount(ps: seq<Expr>): nat {
    if |ps| < 2 then 0 else PatCount(ps[1]) + PairsCount(ps[2..])
  }
}
