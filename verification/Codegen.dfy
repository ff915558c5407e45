/** The code each syntax node compiles to, as instructions with absolute addresses: `at` is
    the address of the node's first word, `brk` the address a `break` jumps to, and `next`
    the address a failing pattern jumps to. */
module Codegen {
  import opened Options
  import opened Syntax

  // ---------- sizes: the number of words a node emits, wherever it is placed ----------

  function ExprSize(e: Expr): nat {
    match e
    case Lit(_) => 1
    case NilLit => 1
    case Ident(_) => 1
    case ArrayLit(items) => ExprsSize(items) + 1
    case HashLit(items) => ExprsSize(items) + 1
    case CallExpr(t, args) => ExprSize(t) + ExprsSize(args) + 1
    case GetAttrExpr(t, _) => ExprSize(t) + 1
    case GetItemExpr(t, k) => ExprSize(t) + ExprSize(k) + 1
    case NotExpr(x) => ExprSize(x) + 1
    case Binary(op, l, r) => ExprSize(l) + ExprSize(r) + (if op.And? || op.Or? then 4 else 1)
    case FnExpr(fn) => if fn.freevars == [] then 1 else 2
    case SpawnExpr(t, args) => ExprSize(t) + ExprsSize(args) + 6
    case Wildcard => 0
  }

  function ExprsSize(es: seq<Expr>): nat {
    if es == [] then 0 else ExprSize(es[0]) + ExprsSize(es[1..])
  }

  function PatSize(p: Expr): nat {
    match p
    case Lit(_) => 4
    case NilLit => 5
    case ArrayLit(items) => 11 + ItemsSize(items) + 3
    case HashLit(items) => 11 + PairsSize(items)
    case _ => 0
  }

  function ItemsSize(ps: seq<Expr>): nat {
    if ps == [] then 0 else 4 + PatSize(ps[0]) + ItemsSize(ps[1..])
  }

  function PairsSize(ps: seq<Expr>): nat {
    if |ps| < 2 then 0 else 4 + PatSize(ps[1]) + PairsSize(ps[2..])
  }

  function StmtSize(s: Stmt): nat {
    match s
    case ExprStmt(e) => ExprSize(e) + 1
    case Assign(_, e) => ExprSize(e) + 1
    case VarDecl(_) => 0
    case VarInit(_, e) => ExprSize(e) + 1
    case FuncDecl(_, _) => 2
    case If(c, b) => ExprSize(c) + 1 + StmtsSize(b)
    case IfElse(c, b, o) => ExprSize(c) + 1 + StmtsSize(b) + 1 + StmtsSize(o)
    case While(c, b) => ExprSize(c) + 1 + StmtsSize(b) + 1
    case Match(e, arms) => ExprSize(e) + ArmsSize(arms)
    case RetNil => 2
    case Ret(e) => ExprSize(e) + 1
    case Break => 1
  }

  function StmtsSize(ss: seq<Stmt>): nat {
    if ss == [] then 0 else StmtSize(ss[0]) + StmtsSize(ss[1..])
  }

  function ArmSize(arm: Arm): nat {
    PatSize(arm.test) + BindsSize(PatVars(arm.test, [])) + 1 + StmtsSize(arm.body) + 1
  }

  function ArmsSize(arms: seq<Arm>): nat {
    if arms == [] then 0 else ArmSize(arms[0]) + ArmsSize(arms[1..])
  }

  // ---------- expressions ----------

  function BinOpCode(op: BinOp): Instr
    requires op.Compare? || op.Arith?
  {
    match op
    case Compare(c) => CompareTop(c)
    case Arith(a) => ArithTop(a)
  }

  function FnValueCode(fn: FnDecl): seq<Instr> {
    [PushConst(Method(fn))] + if fn.freevars == [] then [] else [MakeClosure]
  }

  /** Operand counts are single bytes. */
  function ExprCode(e: Expr, at: nat): (code: seq<Instr>)
    ensures |code| == ExprSize(e)
  {
    match e
    case Lit(v) => [PushConst(v)]
    case NilLit => [PushNil]
    case Ident(id) => [PushName(id)]
    case ArrayLit(items) => ExprsCode(items, at) + [MakeArray(|items| % 256)]
    case HashLit(items) => ExprsCode(items, at) + [MakeHash(|items| / 2 % 256)]
    case CallExpr(t, args) =>
      ExprCode(t, at) + ExprsCode(args, at + ExprSize(t)) + [Call(|args| % 256)]
    case GetAttrExpr(t, attr) => ExprCode(t, at) + [GetAttr(attr)]
    case GetItemExpr(t, k) => ExprCode(t, at) + ExprCode(k, at + ExprSize(t)) + [GetItem]
    case NotExpr(x) => ExprCode(x, at) + [Not]
    case Binary(op, l, r) =>
      var mid := at + ExprSize(l);
      if op.And? || op.Or? then
        var right := mid + 3;
        var end := right + 1 + ExprSize(r);
        ExprCode(l, at)
          + [Dup, if op.Or? then JumpIfFalse(right) else JumpIfTrue(right), Jump(end), Pop]
          + ExprCode(r, right + 1)
      else
        ExprCode(l, at) + ExprCode(r, mid) + [BinOpCode(op)]
    case FnExpr(fn) => FnValueCode(fn)
    case SpawnExpr(t, args) =>
      ExprCode(t, at) + [Spawn, Dup, GetAttr("send")]
        + ExprsCode(args, at + ExprSize(t) + 3) + [MakeArray(|args| % 256), Call(1), Pop]
    case Wildcard => []
  }

  function ExprsCode(es: seq<Expr>, at: nat): (code: seq<Instr>)
    ensures |code| == ExprsSize(es)
  {
    if es == [] then [] else ExprCode(es[0], at) + ExprsCode(es[1..], at + ExprSize(es[0]))
  }

  // ---------- patterns ----------

  function ClassTest(class_: Instr, next: nat): seq<Instr> {
    [Dup, GetClass, class_, CompareTop(Eq), JumpIfFalse(next)]
  }

  function SizeTest(n: nat, next: nat): seq<Instr> {
    [Dup, GetAttr("size"), Call(0), PushConst(Int(n)), CompareTop(Eq), JumpIfFalse(next)]
  }

  /** The constant a hash pattern looks its key up with. */
  function KeyConst(key: Expr): Value {
    match key
    case Lit(v) => v
    case _ => Nil
  }

  /** Code that tests the value on top of the stack, leaving it there, and jumps to `next`
      when the test fails. */
  function PatCode(p: Expr, at: nat, next: nat): (code: seq<Instr>)
    ensures |code| == PatSize(p)
  {
    match p
    case Lit(v) => [Dup, PushConst(v), CompareTop(Eq), JumpIfFalse(next)]
    case NilLit => ClassTest(PushConst(Class("nil")), next)
    case ArrayLit(items) =>
      var body := at + 11;
      var pop := body + ItemsSize(items) + 1;
      ClassTest(PushName("array"), next) + SizeTest(|items|, next)
        + ItemsCode(items, 0, body, pop) + [Jump(pop + 2), Pop, Jump(next)]
    case HashLit(items) =>
      ClassTest(PushName("hash"), next) + SizeTest(|items| / 2, next) + PairsCode(items, at + 11, next)
    case _ => []
  }

  function ItemsCode(ps: seq<Expr>, i: nat, at: nat, next: nat): (code: seq<Instr>)
    ensures |code| == ItemsSize(ps)
  {
    if ps == [] then [] else
    [Dup, PushConst(Int(i)), GetItem] + PatCode(ps[0], at + 3, next) + [Pop]
      + ItemsCode(ps[1..], i + 1, at + 4 + PatSize(ps[0]), next)
  }

  function PairsCode(ps: seq<Expr>, at: nat, next: nat): (code: seq<Instr>)
    ensures |code| == PairsSize(ps)
  {
    if |ps| < 2 then [] else
    [Dup, PushConst(KeyConst(ps[0])), GetItem] + PatCode(ps[1], at + 3, next) + [Pop]
      + PairsCode(ps[2..], at + 4 + PatSize(ps[1]), next)
  }

  /** The variables a pattern binds, each with the keys that lead from the matched value to
      the variable's value. */
  function PatVars(p: Expr, path: seq<Value>): seq<(Name, seq<Value>)> {
    match p
    case Ident(id) => [(id, path)]
    case ArrayLit(items) => ItemsVars(items, 0, path)
    case HashLit(items) => PairsVars(items, path)
    case _ => []
  }

  function ItemsVars(ps: seq<Expr>, i: nat, path: seq<Value>): seq<(Name, seq<Value>)> {
    if ps == [] then [] else PatVars(ps[0], path + [Int(i)]) + ItemsVars(ps[1..], i + 1, path)
  }

  function PairsVars(ps: seq<Expr>, path: seq<Value>): seq<(Name, seq<Value>)> {
    if |ps| < 2 then [] else PatVars(ps[1], path + [KeyConst(ps[0])]) + PairsVars(ps[2..], path)
  }

  function BindsSize(vars: seq<(Name, seq<Value>)>): nat {
    if vars == [] then 0 else 2 + 2 * |vars[0].1| + BindsSize(vars[1..])
  }

  function WalkCode(path: seq<Value>): (code: seq<Instr>)
    ensures |code| == 2 * |path|
  {
    if path == [] then [] else [PushConst(path[0]), GetItem] + WalkCode(path[1..])
  }

  function BindsCode(vars: seq<(Name, seq<Value>)>): (code: seq<Instr>)
    ensures |code| == BindsSize(vars)
  {
    if vars == [] then [] else [Dup] + WalkCode(vars[0].1) + [StoreName(vars[0].0)] + BindsCode(vars[1..])
  }

  // ---------- statements ----------

  function StmtCode(s: Stmt, at: nat, brk: nat): (code: seq<Instr>)
    ensures |code| == StmtSize(s)
  {
    match s
    case ExprStmt(e) => ExprCode(e, at) + [Pop]
    case Assign(id, e) => ExprCode(e, at) + [StoreName(id)]
    case VarDecl(_) => []
    case VarInit(id, e) => ExprCode(e, at) + [StoreName(id)]
    case FuncDecl(id, fn) => [PushConst(Method(fn)), StoreName(id)]
    case If(c, b) =>
      var body := at + ExprSize(c) + 1;
      ExprCode(c, at) + [JumpIfFalse(body + StmtsSize(b))] + StmtsCode(b, body, brk)
    case IfElse(c, b, o) =>
      var body := at + ExprSize(c) + 1;
      var orelse := body + StmtsSize(b) + 1;
      ExprCode(c, at) + [JumpIfFalse(orelse)] + StmtsCode(b, body, brk)
        + [Jump(orelse + StmtsSize(o))] + StmtsCode(o, orelse, brk)
    case While(c, b) =>
      var body := at + ExprSize(c) + 1;
      var end := body + StmtsSize(b) + 1;
      ExprCode(c, at) + [JumpIfFalse(end)] + StmtsCode(b, body, end) + [Jump(at)]
    case Match(e, arms) =>
      var first := at + ExprSize(e);
      ExprCode(e, at) + ArmsCode(arms, first, first + ArmsSize(arms), brk)
    case RetNil => [PushNil, RetTop]
    case Ret(e) => ExprCode(e, at) + [RetTop]
    case Break => [Jump(brk)]
  }

  function StmtsCode(ss: seq<Stmt>, at: nat, brk: nat): (code: seq<Instr>)
    ensures |code| == StmtsSize(ss)
  {
    if ss == [] then [] else StmtCode(ss[0], at, brk) + StmtsCode(ss[1..], at + StmtSize(ss[0]), brk)
  }

  function ArmCode(arm: Arm, at: nat, end: nat, brk: nat): (code: seq<Instr>)
    ensures |code| == ArmSize(arm)
  {
    var vars := PatVars(arm.test, []);
    var body := at + PatSize(arm.test) + BindsSize(vars) + 1;
    PatCode(arm.test, at, at + ArmSize(arm)) + BindsCode(vars) + [Pop]
      + StmtsCode(arm.body, body, brk) + [Jump(end)]
  }

  function ArmsCode(arms: seq<Arm>, at: nat, end: nat, brk: nat): (code: seq<Instr>)
    ensures |code| == ArmsSize(arms)
  {
    if arms == [] then [] else
    ArmCode(arms[0], at, end, brk) + ArmsCode(arms[1..], at + ArmSize(arms[0]), end, brk)
  }

  // ---------- the functions in a node ----------

  /** Every function literal and function declaration in a node, at any depth. */
  function ExprFns(e: Expr): set<FnDecl> {
    match e
    case ArrayLit(items) => ExprsFns(items)
    case HashLit(items) => ExprsFns(items)
    case CallExpr(t, args) => ExprFns(t) + ExprsFns(args)
    case GetAttrExpr(t, _) => ExprFns(t)
    case GetItemExpr(t, k) => ExprFns(t) + ExprFns(k)
    case NotExpr(x) => ExprFns(x)
    case Binary(_, l, r) => ExprFns(l) + ExprFns(r)
    case FnExpr(fn) => FnFns(fn)
    case SpawnExpr(t, args) => ExprFns(t) + ExprsFns(args)
    case _ => {}
  }

  function ExprsFns(es: seq<Expr>): set<FnDecl> {
    if es == [] then {} else ExprFns(es[0]) + ExprsFns(es[1..])
  }

  function StmtFns(s: Stmt): set<FnDecl> {
    match s
    case ExprStmt(e) => ExprFns(e)
    case Assign(_, e) => ExprFns(e)
    case VarInit(_, e) => ExprFns(e)
    case FuncDecl(_, fn) => FnFns(fn)
    case If(c, b) => ExprFns(c) + StmtsFns(b)
    case IfElse(c, b, o) => ExprFns(c) + StmtsFns(b) + StmtsFns(o)
    case While(c, b) => ExprFns(c) + StmtsFns(b)
    case Match(e, arms) => ExprFns(e) + ArmsFns(arms)
    case Ret(e) => ExprFns(e)
    case _ => {}
  }

  function StmtsFns(ss: seq<Stmt>): set<FnDecl> {
    if ss == [] then {} else StmtFns(ss[0]) + StmtsFns(ss[1..])
  }

  function ArmsFns(arms: seq<Arm>): set<FnDecl> {
    if arms == [] then {} else StmtsFns(arms[0].body) + ArmsFns(arms[1..])
  }

  /** A function and all functions in it. */
  function FnFns(fn: FnDecl): set<FnDecl> {
    StmtsFns(fn.body) + {fn}
  }

  // ---------- functions ----------

  /** The prologue pops the arguments into the parameters, last one first. */
  function ParamsCode(params: seq<Name>): (code: seq<Instr>)
    ensures |code| == |params|
  {
    if params == [] then [] else [StoreName(Last(params))] + ParamsCode(Init(params))
  }

  function FnCode(fn: FnDecl): seq<Instr> {
    ParamsCode(fn.params) + StmtsCode(fn.body, |fn.params|, 0)
  }
}
