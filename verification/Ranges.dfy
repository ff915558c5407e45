/** Every jump the generators emit stays inside its own code, and every count fits a byte. */
module Ranges {
  import opened Options
  import opened Syntax
  import opened Codegen

  predicate Target(i: Instr, bound: nat) {
    && (i.Jump? || i.JumpIfFalse? || i.JumpIfTrue? ==> i.addr <= bound)
    && (i.Call? ==> i.nargs < 256) && (i.MakeArray? || i.MakeHash? ==> i.n < 256)
  }

  ghost predicate Within(code: seq<Instr>, bound: nat) {
    forall k {:trigger code[k]} :: 0 <= k < |code| ==> Target(code[k], bound)
  }

  lemma {:induction false} Join(a: seq<Instr>, b: seq<Instr>, bound: nat)
    requires Within(a, bound) && Within(b, bound)
    ensures Within(a + b, bound)
  {
  }

  lemma {:induction false} Then(a: seq<Instr>, i: Instr, bound: nat)
    requires Within(a, bound) && Target(i, bound)
    ensures Within(a + [i], bound)
  {
  }

  lemma {:induction false} ExprWithin(e: Expr, at: nat, bound: nat)
    requires at + ExprSize(e) <= bound
    ensures Within(ExprCode(e, at), bound)
    decreases e, 1
  {
    hide ExprsCode, ExprsSize, Within, Target;
    match e
    case ArrayLit(items) =>
      ExprsWithin(items, at, bound);
      Then(ExprsCode(items, at), MakeArray(|items| % 256), bound);
    case HashLit(items) =>
      ExprsWithin(items, at, bound);
      Then(ExprsCode(items, at), MakeHash(|items| / 2 % 256), bound);
    case CallExpr(t, args) =>
      ExprWithin(t, at, bound);
      ExprsWithin(args, at + ExprSize(t), bound);
      Join(ExprCode(t, at), ExprsCode(args, at + ExprSize(t)), bound);
      Then(ExprCode(t, at) + ExprsCode(args, at + ExprSize(t)), Call(|args| % 256), bound);
    case GetAttrExpr(t, attr) =>
      ExprWithin(t, at, bound);
      Then(ExprCode(t, at), GetAttr(attr), bound);
    case GetItemExpr(t, k) =>
      ExprWithin(t, at, bound);
      ExprWithin(k, at + ExprSize(t), bound);
      Join(ExprCode(t, at), ExprCode(k, at + ExprSize(t)), bound);
      Then(ExprCode(t, at) + ExprCode(k, at + ExprSize(t)), GetItem, bound);
    case NotExpr(x) =>
      ExprWithin(x, at, bound);
      Then(ExprCode(x, at), Not, bound);
    case Binary(op, l, r) => BinaryWithin(op, l, r, at, bound);
    case SpawnExpr(_, _) => SpawnWithin(e, at, bound);
    case _ => LeafWithin(e, at, bound);
  }

  lemma {:induction false} SpawnWithin(e: Expr, at: nat, bound: nat)
    requires e.SpawnExpr? && at + ExprSize(e) <= bound
    ensures Within(ExprCode(e, at), bound)
    decreases e, 0
  {
    hide ExprsCode, ExprsSize, Within, Target;
    ExprWithin(e.target, at, bound);
    ExprsWithin(e.args, at + ExprSize(e.target) + 3, bound);
    SpawnParts(ExprCode(e.target, at), ExprsCode(e.args, at + ExprSize(e.target) + 3), |e.args|, bound);
  }

  lemma {:induction false} LeafWithin(e: Expr, at: nat, bound: nat)
    requires e.Lit? || e.NilLit? || e.Ident? || e.FnExpr? || e.Wildcard?
    ensures Within(ExprCode(e, at), bound)
  {
  }

  lemma {:induction false} SpawnParts(target: seq<Instr>, args: seq<Instr>, n: nat, bound: nat)
    requires Within(target, bound) && Within(args, bound)
    ensures Within(target + [Spawn, Dup, GetAttr("send")] + args + [MakeArray(n % 256), Call(1), Pop], bound)
  {
    Join(target, [Spawn, Dup, GetAttr("send")], bound);
    Join(target + [Spawn, Dup, GetAttr("send")], args, bound);
  }

  lemma {:induction false} LogicParts(l: seq<Instr>, branch: Instr, end: nat, r: seq<Instr>, bound: nat)
    requires Within(l, bound) && Within(r, bound) && (branch.JumpIfFalse? || branch.JumpIfTrue?) && branch.addr <= bound && end <= bound
    ensures Within(l + [Dup, branch, Jump(end), Pop] + r, bound)
  {
    Join(l, [Dup, branch, Jump(end), Pop], bound);
    Join(l + [Dup, branch, Jump(end), Pop], r, bound);
  }

  lemma {:induction false} LogicWithin(op: BinOp, l: Expr, r: Expr, at: nat, bound: nat)
    requires (op.And? || op.Or?) && at + ExprSize(Binary(op, l, r)) <= bound
    requires Within(ExprCode(l, at), bound) && Within(ExprCode(r, at + ExprSize(l) + 4), bound)
    ensures Within(ExprCode(Binary(op, l, r), at), bound)
  {
    hide ExprsCode, ExprsSize, Within;
    var mid := at + ExprSize(l);
    var branch, end := if op.Or? then JumpIfFalse(mid + 3) else JumpIfTrue(mid + 3), mid + 4 + ExprSize(r);
    assert ExprCode(Binary(op, l, r), at) == ExprCode(l, at) + [Dup, branch, Jump(end), Pop] + ExprCode(r, mid + 4);
    assert end == at + ExprSize(Binary(op, l, r));
    hide ExprCode, ExprSize;
    LogicParts(ExprCode(l, at), branch, end, ExprCode(r, mid + 4), bound);
  }

  lemma {:induction false} OperatorWithin(op: BinOp, l: Expr, r: Expr, at: nat, bound: nat)
    requires !op.And? && !op.Or?
    requires Within(ExprCode(l, at), bound) && Within(ExprCode(r, at + ExprSize(l)), bound)
    ensures Within(ExprCode(Binary(op, l, r), at), bound)
  {
    hide ExprsCode, ExprsSize, Within;
    Join(ExprCode(l, at), ExprCode(r, at + ExprSize(l)), bound);
    Then(ExprCode(l, at) + ExprCode(r, at + ExprSize(l)), BinOpCode(op), bound);
  }

  lemma {:induction false} BinaryWithin(op: BinOp, l: Expr, r: Expr, at: nat, bound: nat)
    requires at + ExprSize(Binary(op, l, r)) <= bound
    ensures Within(ExprCode(Binary(op, l, r), at), bound)
    decreases Binary(op, l, r), 0
  {
    var mid := at + ExprSize(l);
    assert ExprSize(Binary(op, l, r)) == ExprSize(l) + (if op.And? || op.Or? then 4 else 1) + ExprSize(r);
    hide ExprCode, ExprSize, Within;
    ExprWithin(l, at, bound);
    if op.And? || op.Or? {
      ExprWithin(r, mid + 4, bound);
      LogicWithin(op, l, r, at, bound);
    } else {
      ExprWithin(r, mid, bound);
      OperatorWithin(op, l, r, at, bound);
    }
  }

  lemma {:induction false} ExprsWithin(es: seq<Expr>, at: nat, bound: nat)
    requires at + ExprsSize(es) <= bound
    ensures Within(ExprsCode(es, at), bound)
    decreases es, 0
  {
    if es != [] {
      ExprWithin(es[0], at, bound);
      ExprsWithin(es[1..], at + ExprSize(es[0]), bound);
    }
  }

  lemma {:induction false} ExitWithin(end: nat, next: nat, bound: nat)
    requires end <= bound && next <= bound
    ensures Within([Jump(end), Pop, Jump(next)], bound)
  {
  }

  lemma {:induction false} PatWithin(p: Expr, at: nat, next: nat, bound: nat)
    requires at + PatSize(p) <= bound && next <= bound
    ensures Within(PatCode(p, at, next), bound)
    decreases p, 0
  {
    hide ItemsCode, PairsCode, ItemsSize, PairsSize, ClassTest, SizeTest, Within;
    if p.ArrayLit? {
      var pop := at + 11 + ItemsSize(p.items) + 1;
      var head := ClassTest(PushName("array"), next) + SizeTest(|p.items|, next);
      HeadWithin("array", |p.items|, next, bound);
      ItemsWithin(p.items, 0, at + 11, pop, bound);
      ExitWithin(pop + 2, next, bound);
      Join(head, ItemsCode(p.items, 0, at + 11, pop), bound);
      Join(head + ItemsCode(p.items, 0, at + 11, pop), [Jump(pop + 2), Pop, Jump(next)], bound);
    } else if p.HashLit? {
      var head := ClassTest(PushName("hash"), next) + SizeTest(|p.items| / 2, next);
      HeadWithin("hash", |p.items| / 2, next, bound);
      PairsWithin(p.items, at + 11, next, bound);
      Join(head, PairsCode(p.items, at + 11, next), bound);
    } else {
      TestWithin(p, at, next, bound);
    }
  }

  lemma {:induction false} HeadWithin(class_: Name, n: nat, next: nat, bound: nat)
    requires next <= bound
    ensures Within(ClassTest(PushName(class_), next) + SizeTest(n, next), bound)
  {
  }

  lemma {:induction false} TestWithin(p: Expr, at: nat, next: nat, bound: nat)
    requires next <= bound && !p.ArrayLit? && !p.HashLit?
    ensures Within(PatCode(p, at, next), bound)
  {
  }

  lemma {:induction false} FetchWithin(key: Value, test: seq<Instr>, rest: seq<Instr>, bound: nat)
    requires Within(test, bound) && Within(rest, bound)
    ensures Within([Dup, PushConst(key), GetItem] + test + [Pop] + rest, bound)
  {
    Join([Dup, PushConst(key), GetItem], test, bound);
    Join([Dup, PushConst(key), GetItem] + test, [Pop], bound);
    Join([Dup, PushConst(key), GetItem] + test + [Pop], rest, bound);
  }

  lemma {:induction false} ItemsWithin(ps: seq<Expr>, i: nat, at: nat, next: nat, bound: nat)
    requires at + ItemsSize(ps) <= bound && next <= bound
    ensures Within(ItemsCode(ps, i, at, next), bound)
    decreases ps, 0
  {
    if ps != [] {
      hide Within, PatCode, PatSize;
      var test, rest := PatCode(ps[0], at + 3, next), ItemsCode(ps[1..], i + 1, at + 4 + PatSize(ps[0]), next);
      assert ItemsCode(ps, i, at, next) == [Dup, PushConst(Int(i)), GetItem] + test + [Pop] + rest;
      assert ItemsSize(ps) == 4 + PatSize(ps[0]) + ItemsSize(ps[1..]);
      hide ItemsCode, ItemsSize;
      PatWithin(ps[0], at + 3, next, bound);
      ItemsWithin(ps[1..], i + 1, at + 4 + PatSize(ps[0]), next, bound);
      FetchWithin(Int(i), test, rest, bound);
    }
  }

  lemma {:induction false} PairsWithin(ps: seq<Expr>, at: nat, next: nat, bound: nat)
    requires at + PairsSize(ps) <= bound && next <= bound
    ensures Within(PairsCode(ps, at, next), bound)
    decreases ps, 0
  {
    if |ps| >= 2 {
      hide Within, PatCode, PatSize;
      var test, rest := PatCode(ps[1], at + 3, next), PairsCode(ps[2..], at + 4 + PatSize(ps[1]), next);
      assert PairsCode(ps, at, next) == [Dup, PushConst(KeyConst(ps[0])), GetItem] + test + [Pop] + rest;
      assert PairsSize(ps) == 4 + PatSize(ps[1]) + PairsSize(ps[2..]);
      hide PairsCode, PairsSize, KeyConst;
      PatWithin(ps[1], at + 3, next, bound);
      PairsWithin(ps[2..], at + 4 + PatSize(ps[1]), next, bound);
      FetchWithin(KeyConst(ps[0]), test, rest, bound);
    }
  }

  lemma {:induction false} WalkWithin(path: seq<Value>, bound: nat)
    ensures Within(WalkCode(path), bound)
    decreases path
  {
    if path != [] { WalkWithin(path[1..], bound); }
  }

  lemma {:induction false} BindsWithin(vars: seq<(Name, seq<Value>)>, bound: nat)
    ensures Within(BindsCode(vars), bound)
    decreases vars
  {
    if vars != [] {
      WalkWithin(vars[0].1, bound);
      BindsWithin(vars[1..], bound);
      Join([Dup], WalkCode(vars[0].1), bound);
    }
  }

  lemma {:induction false} StmtWithin(s: Stmt, at: nat, brk: nat, bound: nat)
    requires at + StmtSize(s) <= bound && brk <= bound
    ensures Within(StmtCode(s, at, brk), bound)
    decreases s, 1
  {
    hide ExprCode, ExprSize, StmtsCode, StmtsSize, ArmsCode, ArmsSize, WalkCode;
    match s
    case ExprStmt(e) => ExprWithin(e, at, bound);
    case Assign(_, e) => ExprWithin(e, at, bound);
    case VarInit(_, e) => ExprWithin(e, at, bound);
    case Ret(e) => ExprWithin(e, at, bound);
    case If(c, b) =>
      ExprWithin(c, at, bound);
      StmtsWithin(b, at + ExprSize(c) + 1, brk, bound);
    case IfElse(c, b, o) => IfElseWithin(c, b, o, at, brk, bound);
    case While(c, b) =>
      ExprWithin(c, at, bound);
      StmtsWithin(b, at + ExprSize(c) + 1, at + StmtSize(s), bound);
    case Match(e, arms) =>
      ExprWithin(e, at, bound);
      ArmsWithin(arms, at + ExprSize(e), at + StmtSize(s), brk, bound);
    case _ =>
  }

  lemma {:induction false} IfElseWithin(c: Expr, b: seq<Stmt>, o: seq<Stmt>, at: nat, brk: nat, bound: nat)
    requires at + StmtSize(IfElse(c, b, o)) <= bound && brk <= bound
    ensures Within(StmtCode(IfElse(c, b, o), at, brk), bound)
    decreases IfElse(c, b, o), 0
  {
    hide ExprCode, ExprSize, StmtsCode, StmtsSize, Within;
    var body := at + ExprSize(c) + 1;
    var orelse := body + StmtsSize(b) + 1;
    ExprWithin(c, at, bound);
    StmtsWithin(b, body, brk, bound);
    StmtsWithin(o, orelse, brk, bound);
    Then(ExprCode(c, at), JumpIfFalse(orelse), bound);
    Join(ExprCode(c, at) + [JumpIfFalse(orelse)], StmtsCode(b, body, brk), bound);
    Then(ExprCode(c, at) + [JumpIfFalse(orelse)] + StmtsCode(b, body, brk), Jump(orelse + StmtsSize(o)), bound);
    Join(ExprCode(c, at) + [JumpIfFalse(orelse)] + StmtsCode(b, body, brk) + [Jump(orelse + StmtsSize(o))], StmtsCode(o, orelse, brk), bound);
  }

  lemma {:induction false} StmtsWithin(ss: seq<Stmt>, at: nat, brk: nat, bound: nat)
    requires at + StmtsSize(ss) <= bound && brk <= bound
    ensures Within(StmtsCode(ss, at, brk), bound)
    decreases ss, 0
  {
    if ss != [] {
      StmtWithin(ss[0], at, brk, bound);
      StmtsWithin(ss[1..], at + StmtSize(ss[0]), brk, bound);
    }
  }

  lemma {:induction false} ArmWithin(arm: Arm, at: nat, end: nat, brk: nat, bound: nat)
    requires at + ArmSize(arm) <= bound && end <= bound && brk <= bound
    ensures Within(ArmCode(arm, at, end, brk), bound)
    decreases arm, 0
  {
    hide Within, PatCode, BindsCode, StmtsCode, PatVars, PatSize, BindsSize, StmtsSize;
    var vars := PatVars(arm.test, []);
    var body := at + PatSize(arm.test) + BindsSize(vars) + 1;
    var test, binds, ss := PatCode(arm.test, at, at + ArmSize(arm)), BindsCode(vars), StmtsCode(arm.body, body, brk);
    PatWithin(arm.test, at, at + ArmSize(arm), bound);
    BindsWithin(vars, bound);
    StmtsWithin(arm.body, body, brk, bound);
    Join(test, binds, bound);
    Then(test + binds, Pop, bound);
    Join(test + binds + [Pop], ss, bound);
    Then(test + binds + [Pop] + ss, Jump(end), bound);
  }

  lemma {:induction false} ArmsWithin(arms: seq<Arm>, at: nat, end: nat, brk: nat, bound: nat)
    requires at + ArmsSize(arms) <= bound && end <= bound && brk <= bound
    ensures Within(ArmsCode(arms, at, end, brk), bound)
    decreases arms, 0
  {
    if arms != [] {
      ArmWithin(arms[0], at, end, brk, bound);
      ArmsWithin(arms[1..], at + ArmSize(arms[0]), end, brk, bound);
    }
  }

  lemma {:induction false} ParamsWithin(params: seq<Name>, bound: nat)
    ensures Within(ParamsCode(params), bound)
    decreases |params|
  {
    if params != [] { ParamsWithin(Init(params), bound); }
  }

  /** No jump of a function's code leads outside it; the end itself is a legal target. */
  lemma {:induction false} FnWithin(fn: FnDecl)
    ensures Within(FnCode(fn), |FnCode(fn)|)
  {
    var bound := |FnCode(fn)|;
    ParamsWithin(fn.params, bound);
    StmtsWithin(fn.body, |fn.params|, 0, bound);
    Join(ParamsCode(fn.params), StmtsCode(fn.body, |fn.params|, 0), bound);
  }
}
