/** Where the parts of a node's code lie. Each lemma takes the code of one kind of node
    apart into the code of its children and the instructions between them. */
module Layout {
  import opened Options
  import opened Syntax
  import opened Codegen

  ghost predicate At(code: seq<Instr>, at: nat, part: seq<Instr>) {
    at + |part| <= |code| && forall k {:trigger part[k]} :: 0 <= k < |part| ==> code[at + k] == part[k]
  }

  predicate InstrAt(code: seq<Instr>, pc: nat, i: Instr) {
    pc < |code| && code[pc] == i
  }

  lemma {:induction false} Split(code: seq<Instr>, at: nat, a: seq<Instr>, b: seq<Instr>)
    requires At(code, at, a + b)
    ensures At(code, at, a) && At(code, at + |a|, b)
  {
    assert forall k :: 0 <= k < |a| ==> (a + b)[k] == a[k];
    assert forall k :: 0 <= k < |b| ==> (a + b)[|a| + k] == b[k];
  }

  lemma {:induction false} SplitLast(code: seq<Instr>, at: nat, a: seq<Instr>, i: Instr)
    requires At(code, at, a + [i])
    ensures At(code, at, a) && InstrAt(code, at + |a|, i)
  {
    Split(code, at, a, [i]);
    assert [i][0] == i;
  }

  lemma {:induction false} SplitMid(code: seq<Instr>, at: nat, a: seq<Instr>, i: Instr, b: seq<Instr>)
    requires At(code, at, a + [i] + b)
    ensures At(code, at, a) && InstrAt(code, at + |a|, i) && At(code, at + |a| + 1, b)
  {
    Split(code, at, a + [i], b);
    SplitLast(code, at, a, i);
  }

  lemma {:induction false} Split4(code: seq<Instr>, at: nat, a: seq<Instr>, b: seq<Instr>, c: seq<Instr>, d: seq<Instr>)
    requires At(code, at, a + b + c + d)
    ensures At(code, at, a) && At(code, at + |a|, b) && At(code, at + |a| + |b|, c) && At(code, at + |a| + |b| + |c|, d)
  {
    Split(code, at, a + b + c, d);
    Split(code, at, a + b, c);
    Split(code, at, a, b);
  }

  lemma {:induction false} Pick(code: seq<Instr>, at: nat, part: seq<Instr>, k: nat)
    requires At(code, at, part) && k < |part|
    ensures InstrAt(code, at + k, part[k])
  {
  }

  lemma {:induction false} Pick3(code: seq<Instr>, at: nat, a: Instr, b: Instr, c: Instr)
    requires At(code, at, [a, b, c])
    ensures InstrAt(code, at, a) && InstrAt(code, at + 1, b) && InstrAt(code, at + 2, c)
  {
    var part := [a, b, c];
    assert part[0] == a && part[1] == b && part[2] == c;
  }

  // ---------- expressions ----------

  lemma {:induction false} ListLayout(code: seq<Instr>, at: nat, es: seq<Expr>)
    requires At(code, at, ExprsCode(es, at)) && es != []
    ensures At(code, at, ExprCode(es[0], at)) && At(code, at + ExprSize(es[0]), ExprsCode(es[1..], at + ExprSize(es[0])))
  {
    Split(code, at, ExprCode(es[0], at), ExprsCode(es[1..], at + ExprSize(es[0])));
  }

  lemma {:induction false} ArrayLayout(code: seq<Instr>, at: nat, items: seq<Expr>)
    requires At(code, at, ExprCode(ArrayLit(items), at))
    ensures At(code, at, ExprsCode(items, at)) && InstrAt(code, at + ExprsSize(items), MakeArray(|items| % 256))
  {
    SplitLast(code, at, ExprsCode(items, at), MakeArray(|items| % 256));
  }

  lemma {:induction false} HashLayout(code: seq<Instr>, at: nat, items: seq<Expr>)
    requires At(code, at, ExprCode(HashLit(items), at))
    ensures At(code, at, ExprsCode(items, at)) && InstrAt(code, at + ExprsSize(items), MakeHash(|items| / 2 % 256))
  {
    SplitLast(code, at, ExprsCode(items, at), MakeHash(|items| / 2 % 256));
  }

  lemma {:induction false} CallLayout(code: seq<Instr>, at: nat, t: Expr, args: seq<Expr>)
    requires At(code, at, ExprCode(CallExpr(t, args), at))
    ensures At(code, at, ExprCode(t, at)) && At(code, at + ExprSize(t), ExprsCode(args, at + ExprSize(t)))
    ensures InstrAt(code, at + ExprSize(t) + ExprsSize(args), Call(|args| % 256))
  {
    SplitLast(code, at, ExprCode(t, at) + ExprsCode(args, at + ExprSize(t)), Call(|args| % 256));
    Split(code, at, ExprCode(t, at), ExprsCode(args, at + ExprSize(t)));
  }

  lemma {:induction false} GetAttrLayout(code: seq<Instr>, at: nat, t: Expr, attr: Name)
    requires At(code, at, ExprCode(GetAttrExpr(t, attr), at))
    ensures At(code, at, ExprCode(t, at)) && InstrAt(code, at + ExprSize(t), GetAttr(attr))
  {
    SplitLast(code, at, ExprCode(t, at), GetAttr(attr));
  }

  lemma {:induction false} NotLayout(code: seq<Instr>, at: nat, x: Expr)
    requires At(code, at, ExprCode(NotExpr(x), at))
    ensures At(code, at, ExprCode(x, at)) && InstrAt(code, at + ExprSize(x), Not)
  {
    SplitLast(code, at, ExprCode(x, at), Not);
  }

  lemma {:induction false} PairLayout(code: seq<Instr>, at: nat, l: Expr, r: Expr, i: Instr)
    requires At(code, at, ExprCode(l, at) + ExprCode(r, at + ExprSize(l)) + [i])
    ensures At(code, at, ExprCode(l, at)) && At(code, at + ExprSize(l), ExprCode(r, at + ExprSize(l)))
    ensures InstrAt(code, at + ExprSize(l) + ExprSize(r), i)
  {
    SplitLast(code, at, ExprCode(l, at) + ExprCode(r, at + ExprSize(l)), i);
    Split(code, at, ExprCode(l, at), ExprCode(r, at + ExprSize(l)));
  }

  lemma {:induction false} GetItemLayout(code: seq<Instr>, at: nat, t: Expr, k: Expr)
    requires At(code, at, ExprCode(GetItemExpr(t, k), at))
    ensures At(code, at, ExprCode(t, at)) && At(code, at + ExprSize(t), ExprCode(k, at + ExprSize(t)))
    ensures InstrAt(code, at + ExprSize(t) + ExprSize(k), GetItem)
  {
    PairLayout(code, at, t, k, GetItem);
  }

  lemma {:induction false} OperatorLayout(code: seq<Instr>, at: nat, op: BinOp, l: Expr, r: Expr)
    requires At(code, at, ExprCode(Binary(op, l, r), at)) && (op.Compare? || op.Arith?)
    ensures At(code, at, ExprCode(l, at)) && At(code, at + ExprSize(l), ExprCode(r, at + ExprSize(l)))
    ensures InstrAt(code, at + ExprSize(l) + ExprSize(r), BinOpCode(op))
  {
    PairLayout(code, at, l, r, BinOpCode(op));
  }

  lemma {:induction false} LogicLayout(code: seq<Instr>, at: nat, op: BinOp, l: Expr, r: Expr)
    requires At(code, at, ExprCode(Binary(op, l, r), at)) && (op.And? || op.Or?)
    ensures var mid := at + ExprSize(l);
            && At(code, at, ExprCode(l, at))
            && InstrAt(code, mid, Dup)
            && InstrAt(code, mid + 1, if op.Or? then JumpIfFalse(mid + 3) else JumpIfTrue(mid + 3))
            && InstrAt(code, mid + 2, Jump(mid + 4 + ExprSize(r)))
            && InstrAt(code, mid + 3, Pop)
            && At(code, mid + 4, ExprCode(r, mid + 4))
  {
    hide At, ExprSize;
    var mid := at + ExprSize(l);
    var glue := [Dup, if op.Or? then JumpIfFalse(mid + 3) else JumpIfTrue(mid + 3), Jump(mid + 4 + ExprSize(r)), Pop];
    Split(code, at, ExprCode(l, at) + glue, ExprCode(r, mid + 4));
    Split(code, at, ExprCode(l, at), glue);
    Pick(code, mid, glue, 0);
    Pick(code, mid, glue, 1);
    Pick(code, mid, glue, 2);
    Pick(code, mid, glue, 3);
  }

  lemma {:induction false} SpawnLayout(code: seq<Instr>, at: nat, t: Expr, args: seq<Expr>)
    requires At(code, at, ExprCode(SpawnExpr(t, args), at))
    ensures var mid := at + ExprSize(t);
            var last := mid + 3 + ExprsSize(args);
            && At(code, at, ExprCode(t, at))
            && InstrAt(code, mid, Spawn) && InstrAt(code, mid + 1, Dup) && InstrAt(code, mid + 2, GetAttr("send"))
            && At(code, mid + 3, ExprsCode(args, mid + 3))
            && InstrAt(code, last, MakeArray(|args| % 256)) && InstrAt(code, last + 1, Call(1)) && InstrAt(code, last + 2, Pop)
  {
    hide At, ExprsCode, ExprSize, ExprsSize;
    var mid := at + ExprSize(t);
    var head, tail := [Spawn, Dup, GetAttr("send")], [MakeArray(|args| % 256), Call(1), Pop];
    Split4(code, at, ExprCode(t, at), head, ExprsCode(args, mid + 3), tail);
    Pick3(code, mid, Spawn, Dup, GetAttr("send"));
    Pick3(code, mid + 3 + ExprsSize(args), MakeArray(|args| % 256), Call(1), Pop);
  }

  // ---------- patterns ----------

  ghost predicate ClassTestAt(code: seq<Instr>, at: nat, push: Instr, next: nat) {
    && InstrAt(code, at, Dup) && InstrAt(code, at + 1, GetClass) && InstrAt(code, at + 2, push)
    && InstrAt(code, at + 3, CompareTop(Eq)) && InstrAt(code, at + 4, JumpIfFalse(next))
  }

  ghost predicate SizeTestAt(code: seq<Instr>, at: nat, n: nat, next: nat) {
    && InstrAt(code, at, Dup) && InstrAt(code, at + 1, GetAttr("size")) && InstrAt(code, at + 2, Call(0))
    && InstrAt(code, at + 3, PushConst(Int(n)))
    && InstrAt(code, at + 4, CompareTop(Eq)) && InstrAt(code, at + 5, JumpIfFalse(next))
  }

  ghost predicate FetchAt(code: seq<Instr>, at: nat, key: Value) {
    InstrAt(code, at, Dup) && InstrAt(code, at + 1, PushConst(key)) && InstrAt(code, at + 2, GetItem)
  }

  lemma {:induction false} ClassTestLayout(code: seq<Instr>, at: nat, push: Instr, next: nat)
    requires At(code, at, ClassTest(push, next))
    ensures ClassTestAt(code, at, push, next)
  {
    var part := ClassTest(push, next);
    assert part[0] == Dup && part[1] == GetClass && part[2] == push && part[3] == CompareTop(Eq) && part[4] == JumpIfFalse(next);
  }

  lemma {:induction false} SizeTestLayout(code: seq<Instr>, at: nat, n: nat, next: nat)
    requires At(code, at, SizeTest(n, next))
    ensures SizeTestAt(code, at, n, next)
  {
    var part := SizeTest(n, next);
    assert part[0] == Dup && part[1] == GetAttr("size") && part[2] == Call(0);
    assert part[3] == PushConst(Int(n)) && part[4] == CompareTop(Eq) && part[5] == JumpIfFalse(next);
  }

  lemma {:induction false} LitPatLayout(code: seq<Instr>, at: nat, v: Value, next: nat)
    requires At(code, at, PatCode(Lit(v), at, next))
    ensures InstrAt(code, at, Dup) && InstrAt(code, at + 1, PushConst(v))
    ensures InstrAt(code, at + 2, CompareTop(Eq)) && InstrAt(code, at + 3, JumpIfFalse(next))
  {
    var part := [Dup, PushConst(v), CompareTop(Eq), JumpIfFalse(next)];
    assert part[0] == Dup && part[1] == PushConst(v) && part[2] == CompareTop(Eq) && part[3] == JumpIfFalse(next);
  }

  ghost predicate ArrayPatAt(code: seq<Instr>, at: nat, items: seq<Expr>, pop: nat, next: nat) {
    && ClassTestAt(code, at, PushName("array"), next) && SizeTestAt(code, at + 5, |items|, next)
    && At(code, at + 11, ItemsCode(items, 0, at + 11, pop))
    && pop > 0 && InstrAt(code, pop - 1, Jump(pop + 2)) && InstrAt(code, pop, Pop) && InstrAt(code, pop + 1, Jump(next))
  }

  lemma {:induction false} ArrayPatParts(code: seq<Instr>, at: nat, head: seq<Instr>, size: seq<Instr>, inner: seq<Instr>, out: nat, next: nat)
    requires At(code, at, head + size + inner + [Jump(out), Pop, Jump(next)])
    ensures At(code, at, head) && At(code, at + |head|, size) && At(code, at + |head| + |size|, inner)
    ensures var end := at + |head| + |size| + |inner|;
            InstrAt(code, end, Jump(out)) && InstrAt(code, end + 1, Pop) && InstrAt(code, end + 2, Jump(next))
  {
    Split4(code, at, head, size, inner, [Jump(out), Pop, Jump(next)]);
    Pick3(code, at + |head| + |size| + |inner|, Jump(out), Pop, Jump(next));
  }

  lemma {:induction false} ArrayPatLayout(code: seq<Instr>, at: nat, items: seq<Expr>, next: nat)
    requires At(code, at, PatCode(ArrayLit(items), at, next))
    ensures ArrayPatAt(code, at, items, at + 12 + ItemsSize(items), next)
  {
    hide At, ItemsCode, ItemsSize;
    var pop := at + 12 + ItemsSize(items);
    ArrayPatParts(code, at, ClassTest(PushName("array"), next), SizeTest(|items|, next),
                  ItemsCode(items, 0, at + 11, pop), pop + 2, next);
    ClassTestLayout(code, at, PushName("array"), next);
    SizeTestLayout(code, at + 5, |items|, next);
  }

  lemma {:induction false} HashPatLayout(code: seq<Instr>, at: nat, items: seq<Expr>, next: nat)
    requires At(code, at, PatCode(HashLit(items), at, next))
    ensures ClassTestAt(code, at, PushName("hash"), next) && SizeTestAt(code, at + 5, |items| / 2, next)
    ensures At(code, at + 11, PairsCode(items, at + 11, next))
  {
    var head, size := ClassTest(PushName("hash"), next), SizeTest(|items| / 2, next);
    Split(code, at, head + size, PairsCode(items, at + 11, next));
    Split(code, at, head, size);
    ClassTestLayout(code, at, PushName("hash"), next);
    SizeTestLayout(code, at + 5, |items| / 2, next);
  }

  lemma {:induction false} FetchLayout(code: seq<Instr>, at: nat, key: Value, test: seq<Instr>, rest: seq<Instr>)
    requires At(code, at, [Dup, PushConst(key), GetItem] + test + [Pop] + rest)
    ensures FetchAt(code, at, key) && At(code, at + 3, test)
    ensures InstrAt(code, at + 3 + |test|, Pop) && At(code, at + 4 + |test|, rest)
  {
    SplitMid(code, at, [Dup, PushConst(key), GetItem] + test, Pop, rest);
    Split(code, at, [Dup, PushConst(key), GetItem], test);
    Pick3(code, at, Dup, PushConst(key), GetItem);
  }

  lemma {:induction false} ItemsLayout(code: seq<Instr>, at: nat, ps: seq<Expr>, i: nat, pop: nat)
    requires At(code, at, ItemsCode(ps, i, at, pop)) && ps != []
    ensures var size := PatSize(ps[0]);
            && FetchAt(code, at, Int(i)) && At(code, at + 3, PatCode(ps[0], at + 3, pop)) && InstrAt(code, at + 3 + size, Pop)
            && At(code, at + 4 + size, ItemsCode(ps[1..], i + 1, at + 4 + size, pop))
  {
    FetchLayout(code, at, Int(i), PatCode(ps[0], at + 3, pop), ItemsCode(ps[1..], i + 1, at + 4 + PatSize(ps[0]), pop));
  }

  lemma {:induction false} PairsLayout(code: seq<Instr>, at: nat, ps: seq<Expr>, next: nat)
    requires At(code, at, PairsCode(ps, at, next)) && |ps| >= 2
    ensures var size := PatSize(ps[1]);
            && FetchAt(code, at, KeyConst(ps[0])) && At(code, at + 3, PatCode(ps[1], at + 3, next))
            && InstrAt(code, at + 3 + size, Pop)
            && At(code, at + 4 + size, PairsCode(ps[2..], at + 4 + size, next))
  {
    FetchLayout(code, at, KeyConst(ps[0]), PatCode(ps[1], at + 3, next), PairsCode(ps[2..], at + 4 + PatSize(ps[1]), next));
  }

  lemma {:induction false} WalkLayout(code: seq<Instr>, at: nat, path: seq<Value>)
    requires At(code, at, WalkCode(path)) && path != []
    ensures InstrAt(code, at, PushConst(path[0])) && InstrAt(code, at + 1, GetItem) && At(code, at + 2, WalkCode(path[1..]))
  {
    Split(code, at, [PushConst(path[0]), GetItem], WalkCode(path[1..]));
    var part := [PushConst(path[0]), GetItem];
    assert part[0] == PushConst(path[0]) && part[1] == GetItem;
  }

  lemma {:induction false} BindsLayout(code: seq<Instr>, at: nat, vars: seq<(Name, seq<Value>)>)
    requires At(code, at, BindsCode(vars)) && vars != []
    ensures var size := 2 * |vars[0].1|;
            && InstrAt(code, at, Dup) && At(code, at + 1, WalkCode(vars[0].1))
            && InstrAt(code, at + 1 + size, StoreName(vars[0].0)) && At(code, at + 2 + size, BindsCode(vars[1..]))
  {
    var walk := WalkCode(vars[0].1);
    SplitMid(code, at, [Dup] + walk, StoreName(vars[0].0), BindsCode(vars[1..]));
    Split(code, at, [Dup], walk);
    Pick(code, at, [Dup], 0);
  }

  // ---------- statements and functions ----------

  lemma {:induction false} IfLayout(code: seq<Instr>, at: nat, c: Expr, b: seq<Stmt>, brk: nat)
    requires At(code, at, StmtCode(If(c, b), at, brk))
    ensures var body := at + ExprSize(c) + 1;
            && At(code, at, ExprCode(c, at)) && InstrAt(code, body - 1, JumpIfFalse(body + StmtsSize(b)))
            && At(code, body, StmtsCode(b, body, brk))
  {
    var body := at + ExprSize(c) + 1;
    SplitMid(code, at, ExprCode(c, at), JumpIfFalse(body + StmtsSize(b)), StmtsCode(b, body, brk));
  }

  lemma {:induction false} IfElseLayout(code: seq<Instr>, at: nat, c: Expr, b: seq<Stmt>, o: seq<Stmt>, brk: nat)
    requires At(code, at, StmtCode(IfElse(c, b, o), at, brk))
    ensures var body := at + ExprSize(c) + 1;
            var orelse := body + StmtsSize(b) + 1;
            && At(code, at, ExprCode(c, at)) && InstrAt(code, body - 1, JumpIfFalse(orelse))
            && At(code, body, StmtsCode(b, body, brk)) && InstrAt(code, orelse - 1, Jump(orelse + StmtsSize(o)))
            && At(code, orelse, StmtsCode(o, orelse, brk))
  {
    hide At, ExprCode, StmtsCode, ExprSize, StmtsSize;
    var body := at + ExprSize(c) + 1;
    var orelse := body + StmtsSize(b) + 1;
    SplitMid(code, at, ExprCode(c, at) + [JumpIfFalse(orelse)] + StmtsCode(b, body, brk),
             Jump(orelse + StmtsSize(o)), StmtsCode(o, orelse, brk));
    SplitMid(code, at, ExprCode(c, at), JumpIfFalse(orelse), StmtsCode(b, body, brk));
  }

  lemma {:induction false} WhileCode(at: nat, c: Expr, b: seq<Stmt>, brk: nat)
    ensures var body := at + ExprSize(c) + 1;
            var end := body + StmtsSize(b) + 1;
            StmtCode(While(c, b), at, brk) == ExprCode(c, at) + [JumpIfFalse(end)] + StmtsCode(b, body, end) + [Jump(at)]
  {
  }

  lemma {:induction false} WhileLayout(code: seq<Instr>, at: nat, c: Expr, b: seq<Stmt>, brk: nat)
    requires At(code, at, StmtCode(While(c, b), at, brk))
    ensures var body := at + ExprSize(c) + 1;
            var end := body + StmtsSize(b) + 1;
            && At(code, at, ExprCode(c, at)) && InstrAt(code, body - 1, JumpIfFalse(end))
            && At(code, body, StmtsCode(b, body, end)) && InstrAt(code, end - 1, Jump(at))
  {
    hide At, StmtCode, ExprCode, StmtsCode, ExprSize, StmtsSize;
    var body := at + ExprSize(c) + 1;
    var end := body + StmtsSize(b) + 1;
    WhileCode(at, c, b, brk);
    SplitLast(code, at, ExprCode(c, at) + [JumpIfFalse(end)] + StmtsCode(b, body, end), Jump(at));
    SplitMid(code, at, ExprCode(c, at), JumpIfFalse(end), StmtsCode(b, body, end));
  }

  lemma {:induction false} MatchLayout(code: seq<Instr>, at: nat, e: Expr, arms: seq<Arm>, brk: nat)
    requires At(code, at, StmtCode(Match(e, arms), at, brk))
    ensures var first := at + ExprSize(e);
            At(code, at, ExprCode(e, at)) && At(code, first, ArmsCode(arms, first, first + ArmsSize(arms), brk))
  {
    var first := at + ExprSize(e);
    Split(code, at, ExprCode(e, at), ArmsCode(arms, first, first + ArmsSize(arms), brk));
  }

  lemma {:induction false} StmtsLayout(code: seq<Instr>, at: nat, ss: seq<Stmt>, brk: nat)
    requires At(code, at, StmtsCode(ss, at, brk)) && ss != []
    ensures var mid := at + StmtSize(ss[0]);
            At(code, at, StmtCode(ss[0], at, brk)) && At(code, mid, StmtsCode(ss[1..], mid, brk))
  {
    Split(code, at, StmtCode(ss[0], at, brk), StmtsCode(ss[1..], at + StmtSize(ss[0]), brk));
  }

  ghost predicate ArmAt(code: seq<Instr>, at: nat, arm: Arm, end: nat, brk: nat) {
    var vars := PatVars(arm.test, []);
    var next, binds := at + ArmSize(arm), at + PatSize(arm.test);
    var body := binds + BindsSize(vars) + 1;
    && At(code, at, PatCode(arm.test, at, next)) && At(code, binds, BindsCode(vars)) && InstrAt(code, body - 1, Pop)
    && At(code, body, StmtsCode(arm.body, body, brk)) && InstrAt(code, next - 1, Jump(end))
  }

  lemma {:induction false} ArmParts(code: seq<Instr>, at: nat, test: seq<Instr>, binds: seq<Instr>, ss: seq<Instr>, end: nat)
    requires At(code, at, test + binds + [Pop] + ss + [Jump(end)])
    ensures At(code, at, test) && At(code, at + |test|, binds) && InstrAt(code, at + |test| + |binds|, Pop)
    ensures At(code, at + |test| + |binds| + 1, ss) && InstrAt(code, at + |test| + |binds| + 1 + |ss|, Jump(end))
  {
    SplitLast(code, at, test + binds + [Pop] + ss, Jump(end));
    Split4(code, at, test, binds, [Pop], ss);
    Pick(code, at + |test| + |binds|, [Pop], 0);
  }

  lemma {:induction false} ArmLayout(code: seq<Instr>, at: nat, arm: Arm, end: nat, brk: nat)
    requires At(code, at, ArmCode(arm, at, end, brk))
    ensures ArmAt(code, at, arm, end, brk)
  {
    hide At, StmtsCode, StmtsSize, BindsCode;
    var vars := PatVars(arm.test, []);
    var body := at + PatSize(arm.test) + BindsSize(vars) + 1;
    var test, ss := PatCode(arm.test, at, at + ArmSize(arm)), StmtsCode(arm.body, body, brk);
    ArmParts(code, at, test, BindsCode(vars), ss, end);
  }

  lemma {:induction false} ArmsLayout(code: seq<Instr>, at: nat, arms: seq<Arm>, end: nat, brk: nat)
    requires At(code, at, ArmsCode(arms, at, end, brk)) && arms != []
    ensures ArmAt(code, at, arms[0], end, brk)
    ensures At(code, at + ArmSize(arms[0]), ArmsCode(arms[1..], at + ArmSize(arms[0]), end, brk))
  {
    Split(code, at, ArmCode(arms[0], at, end, brk), ArmsCode(arms[1..], at + ArmSize(arms[0]), end, brk));
    ArmLayout(code, at, arms[0], end, brk);
  }

  lemma {:induction false} ParamsLayout(code: seq<Instr>, at: nat, params: seq<Name>)
    requires At(code, at, ParamsCode(params)) && params != []
    ensures InstrAt(code, at, StoreName(Last(params))) && At(code, at + 1, ParamsCode(Init(params)))
  {
    Split(code, at, [StoreName(Last(params))], ParamsCode(Init(params)));
    assert [StoreName(Last(params))][0] == StoreName(Last(params));
  }

  lemma {:induction false} FnLayout(fn: FnDecl)
    ensures var code, body := FnCode(fn), StmtsCode(fn.body, |fn.params|, 0);
            At(code, 0, ParamsCode(fn.params)) && At(code, |fn.params|, body) && |code| == |fn.params| + |body|
  {
    Split(FnCode(fn), 0, ParamsCode(fn.params), StmtsCode(fn.body, |fn.params|, 0));
  }
}
