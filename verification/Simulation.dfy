/** Running compiled code does what evaluating the syntax tree does. */
module Simulation {
  import opened Options
  import opened Syntax
  import opened Semantics
  import opened Machine
  import opened Codegen
  import opened Evaluator
  import opened Layout
  import opened Acceptance

  /** A frame running `code`. `go` is the machine's behaviour from an address, as a value:
      the proofs look inside it only where `Unfold` says so. */
  datatype Ctx = Ctx(ops: Ops, codeOf: FnDecl -> seq<Instr>, code: seq<Instr>, base: nat, frames: seq<Frame>,
                     go: (nat, nat, seq<Value>, World) -> Outcome)

  ghost predicate Unfold(m: Ctx, fuel: nat, pc: nat, stack: seq<Value>, w: World) { true }

  ghost predicate Compiled(ops: Ops, codeOf: FnDecl -> seq<Instr>) {
    forall fn :: ops.loaded(fn) ==> codeOf(fn) == FnCode(fn)
  }

  ghost predicate Ready(m: Ctx, stack: seq<Value>) {
    && m.frames != [] && m.base <= |stack| && Compiled(m.ops, m.codeOf)
    && forall fuel, pc, s, w {:trigger Unfold(m, fuel, pc, s, w)} ::
         Unfold(m, fuel, pc, s, w) ==>
         m.go(fuel, pc, s, w) == Run(fuel, m.ops, m.codeOf, m.code, pc, m.base, s, m.frames, w)
  }

  function MakeCtx(ops: Ops, codeOf: FnDecl -> seq<Instr>, code: seq<Instr>, base: nat, frames: seq<Frame>): Ctx
    requires frames != []
  {
    Ctx(ops, codeOf, code, base, frames,
        (fuel: nat, pc: nat, s: seq<Value>, w: World) => Run(fuel, ops, codeOf, code, pc, base, s, frames, w))
  }

  // ---------- what agreement means ----------

  predicate Modelled(why: Failure) {
    !why.NotCompiled? && why != Unsupported
  }

  ghost predicate ExprAgrees(m: Ctx, fuel: nat, out: Outcome, end: nat, stack: seq<Value>, r: ExprResult) {
    match r
    case Val(v, w) => out == m.go(fuel, end, stack + [v], w)
    case ExprStop(why) => Modelled(why) ==> out == Stop(why)
  }

  ghost predicate ListAgrees(m: Ctx, fuel: nat, out: Outcome, end: nat, stack: seq<Value>, r: ListResult) {
    match r
    case Vals(vs, w) => out == m.go(fuel, end, stack + vs, w)
    case ListStop(why) => Modelled(why) ==> out == Stop(why)
  }

  ghost predicate StmtAgrees(m: Ctx, out: Outcome, end: nat, brk: nat, stack: seq<Value>, r: StmtResult) {
    match r
    case Next(left, w, f) => out == m.go(f, end, stack + left, w)
    case Broke(left, w, f) => end <= brk ==> out == m.go(f, brk, stack + left, w)
    case Returned(v, w) => out == Done(v, w)
    case StmtStop(why) => Modelled(why) ==> out == Stop(why)
  }

  ghost predicate MatchAgrees(m: Ctx, fuel: nat, out: Outcome, end: nat, next: nat, stack: seq<Value>, r: MatchResult) {
    match r
    case Matched(w) => out == m.go(fuel, end, stack, w)
    case Mismatch(left, w) => out == m.go(fuel, next, stack + left, w)
    case MatchStop(why) => Modelled(why) ==> out == Stop(why)
  }

  ghost predicate CallAgrees(out: Outcome, r: Outcome) {
    (r.Stop? ==> Modelled(r.why)) ==> out == r
  }

  // ---------- single instructions ----------

  lemma {:induction false} InitLast(s: seq<Value>, v: Value)
    ensures Last(s + [v]) == v && Init(s + [v]) == s
  {
    assert (s + [v])[..|s + [v]| - 1] == s;
  }

  lemma {:induction false} StepRuns(m: Ctx, fuel: nat, pc: nat, i: Instr, stack: seq<Value>, w: World)
    requires Ready(m, stack) && InstrAt(m.code, pc, i) && !IsControl(i)
    ensures m.go(fuel, pc, stack, w) ==
      match Exec(m.ops, i, m.base, stack, m.frames, w)
      case Bad(why) => Stop(why)
      case Ok(stack', w') => m.go(fuel, pc + 1, stack', w')
  {
    hide At;
    assert Unfold(m, fuel, pc, stack, w);
    match Exec(m.ops, i, m.base, stack, m.frames, w)
    case Bad(_) =>
    case Ok(stack', w') => assert Unfold(m, fuel, pc + 1, stack', w');
  }

  lemma {:induction false} ConstRuns(m: Ctx, fuel: nat, pc: nat, v: Value, stack: seq<Value>, w: World)
    requires Ready(m, stack) && InstrAt(m.code, pc, PushConst(v))
    ensures m.go(fuel, pc, stack, w) == if v == Null then Stop(Abort) else m.go(fuel, pc + 1, stack + [v], w)
  {
    hide At, InstrAt;
    StepRuns(m, fuel, pc, PushConst(v), stack, w);
  }

  lemma {:induction false} DupRuns(m: Ctx, fuel: nat, pc: nat, stack: seq<Value>, v: Value, w: World)
    requires Ready(m, stack) && InstrAt(m.code, pc, Dup)
    ensures m.go(fuel, pc, stack + [v], w) ==
      if v == Null then Stop(Abort) else m.go(fuel, pc + 1, stack + [v] + [v], w)
  {
    hide At, InstrAt;
    StepRuns(m, fuel, pc, Dup, stack + [v], w);
  }

  lemma {:induction false} UnaryRuns(m: Ctx, fuel: nat, pc: nat, i: Instr, stack: seq<Value>, v: Value, w: World)
    requires Ready(m, stack) && InstrAt(m.code, pc, i)
    requires i.StoreName? || i.Pop? || i.Not? || i.GetClass? || i.GetAttr? || i.Spawn? || i.MakeClosure?
    ensures m.go(fuel, pc, stack + [v], w) ==
      match ExecUnary(m.ops, i, v, stack, m.frames, w)
      case Bad(why) => Stop(why)
      case Ok(stack', w') => m.go(fuel, pc + 1, stack', w')
  {
    hide At, InstrAt;
    StepRuns(m, fuel, pc, i, stack + [v], w);
    InitLast(stack, v);
  }

  lemma {:induction false} PopRuns(m: Ctx, fuel: nat, pc: nat, stack: seq<Value>, v: Value, w: World)
    requires Ready(m, stack) && InstrAt(m.code, pc, Pop)
    ensures m.go(fuel, pc, stack + [v], w) == if v == Null then Stop(Abort) else m.go(fuel, pc + 1, stack, w)
  {
    hide At, InstrAt;
    UnaryRuns(m, fuel, pc, Pop, stack, v, w);
  }

  lemma {:induction false} GetAttrRuns(m: Ctx, fuel: nat, pc: nat, attr: Name, stack: seq<Value>, v: Value, w: World)
    requires Ready(m, stack) && InstrAt(m.code, pc, GetAttr(attr))
    ensures ExprAgrees(m, fuel, m.go(fuel, pc, stack + [v], w), pc + 1, stack,
              if v == Null then ExprStop(Abort) else NonNull(w.cells, m.ops.getattr(w.heap, v, attr)))
  {
    hide At, InstrAt;
    UnaryRuns(m, fuel, pc, GetAttr(attr), stack, v, w);
  }

  lemma {:induction false} BinaryRuns(m: Ctx, fuel: nat, pc: nat, i: Instr, stack: seq<Value>, l: Value, r: Value, w: World)
    requires Ready(m, stack) && InstrAt(m.code, pc, i) && IsBinary(i)
    ensures m.go(fuel, pc, stack + [l] + [r], w) ==
      if r == Null then Stop(Abort) else
      match ExecBinary(m.ops, i, l, r, stack, w)
      case Bad(why) => Stop(why)
      case Ok(stack', w') => m.go(fuel, pc + 1, stack', w')
  {
    hide At, InstrAt;
    StepRuns(m, fuel, pc, i, stack + [l] + [r], w);
    InitLast(stack + [l], r);
    InitLast(stack, l);
  }

  lemma {:induction false} GetItemRuns(m: Ctx, fuel: nat, pc: nat, stack: seq<Value>, v: Value, key: Value, w: World)
    requires Ready(m, stack) && InstrAt(m.code, pc, GetItem)
    ensures ExprAgrees(m, fuel, m.go(fuel, pc, stack + [v] + [key], w), pc + 1, stack,
              if v == Null || key == Null then ExprStop(Abort) else NonNull(w.cells, m.ops.getitem(w.heap, v, key)))
  {
    hide At, InstrAt;
    BinaryRuns(m, fuel, pc, GetItem, stack, v, key, w);
  }

  lemma {:induction false} OperatorRuns(m: Ctx, fuel: nat, pc: nat, op: BinOp, stack: seq<Value>, l: Value, r: Value, w: World)
    requires Ready(m, stack) && (op.Compare? || op.Arith?) && InstrAt(m.code, pc, BinOpCode(op))
    ensures ExprAgrees(m, fuel, m.go(fuel, pc, stack + [l] + [r], w), pc + 1, stack, Combine(m.ops, op, l, r, w))
  {
    hide At, InstrAt;
    BinaryRuns(m, fuel, pc, BinOpCode(op), stack, l, r, w);
  }

  lemma {:induction false} JumpRuns(m: Ctx, fuel: nat, pc: nat, a: nat, stack: seq<Value>, w: World)
    requires Ready(m, stack) && InstrAt(m.code, pc, Jump(a))
    ensures m.go(fuel, pc, stack, w) ==
      if a > pc then m.go(fuel, a, stack, w)
      else if fuel == 0 then Stop(OutOfFuel)
      else m.go(fuel - 1, a, stack, w)
  {
    hide At;
    assert Unfold(m, fuel, pc, stack, w) && Unfold(m, fuel, a, stack, w);
    assert fuel > 0 ==> Unfold(m, fuel - 1, a, stack, w);
  }

  lemma {:induction false} BranchRuns(m: Ctx, fuel: nat, pc: nat, i: Instr, stack: seq<Value>, v: Value, w: World)
    requires Ready(m, stack) && InstrAt(m.code, pc, i)
    requires (i.JumpIfFalse? || i.JumpIfTrue?) && i.addr > pc
    ensures m.go(fuel, pc, stack + [v], w) ==
      if v == Null then Stop(Abort)
      else if Falsy(v) == i.JumpIfFalse? then m.go(fuel, i.addr, stack, w)
      else m.go(fuel, pc + 1, stack, w)
  {
    hide At;
    InitLast(stack, v);
    assert Unfold(m, fuel, pc, stack + [v], w);
    assert Unfold(m, fuel, i.addr, stack, w) && Unfold(m, fuel, pc + 1, stack, w);
  }

  lemma {:induction false} RetRuns(m: Ctx, fuel: nat, pc: nat, stack: seq<Value>, v: Value, w: World)
    requires Ready(m, stack) && InstrAt(m.code, pc, RetTop)
    ensures m.go(fuel, pc, stack + [v], w) == Done(v, w)
  {
    hide At;
    assert Unfold(m, fuel, pc, stack + [v], w);
  }

  lemma {:induction false} PopManyBack(base: nat, stack: seq<Value>, vs: seq<Value>, allowNull: bool)
    requires base <= |stack|
    ensures PopMany(base, stack + vs, |vs|, allowNull) ==
      if !allowNull && Null in vs then PopFailed(Abort) else PoppedMany(vs, stack)
    decreases |vs|
  {
    if vs == [] {
      assert stack + vs == stack;
    } else {
      assert stack + vs == stack + Init(vs) + [Last(vs)];
      assert Init(vs) + [Last(vs)] == vs;
      InitLast(stack + Init(vs), Last(vs));
      PopManyBack(base, stack, Init(vs), allowNull);
    }
  }

  lemma {:induction false} MakeArrayRuns(m: Ctx, fuel: nat, pc: nat, stack: seq<Value>, vs: seq<Value>, w: World)
    requires Ready(m, stack) && InstrAt(m.code, pc, MakeArray(|vs| % 256))
    ensures ExprAgrees(m, fuel, m.go(fuel, pc, stack + vs, w), pc + 1, stack, MakeArrayValue(vs, w))
  {
    hide At, InstrAt;
    StepRuns(m, fuel, pc, MakeArray(|vs| % 256), stack + vs, w);
    if |vs| <= 255 {
      PopManyBack(m.base, stack, vs, false);
    }
  }

  lemma {:induction false} PopPairsBack(ops: Ops, h: Heap, base: nat, stack: seq<Value>, vs: seq<Value>, acc: seq<(Value, Value)>)
    requires base <= |stack| && |vs| % 2 == 0
    ensures var r := PopPairs(ops, h, base, stack + vs, |vs| / 2, acc);
            match HashPairs(ops, h, vs, acc)
            case None => r.0 == Bad(Abort)
            case Some(pairs) => r.0.Ok? && r.0.stack == stack && r.1 == pairs
    decreases |vs|
  {
    if vs == [] {
      assert stack + vs == stack;
    } else {
      var rest, k, v := vs[..|vs| - 2], vs[|vs| - 2], vs[|vs| - 1];
      assert stack + vs == stack + rest + [k] + [v];
      InitLast(stack + rest + [k], v);
      InitLast(stack + rest, k);
      if v != Null && k != Null && k != Nil && HashPut(ops, h, acc, k, v).Some? {
        PopPairsBack(ops, h, base, stack, rest, HashPut(ops, h, acc, k, v).value);
      }
    }
  }

  lemma {:induction false} MakeHashRuns(m: Ctx, fuel: nat, pc: nat, stack: seq<Value>, vs: seq<Value>, w: World)
    requires Ready(m, stack) && InstrAt(m.code, pc, MakeHash(|vs| / 2 % 256))
    ensures ExprAgrees(m, fuel, m.go(fuel, pc, stack + vs, w), pc + 1, stack, MakeHashValue(m.ops, vs, w))
  {
    hide Run, HashPairs, PopPairs, At, InstrAt;
    StepRuns(m, fuel, pc, MakeHash(|vs| / 2 % 256), stack + vs, w);
    if |vs| <= 511 && |vs| % 2 == 0 {
      PopPairsBack(m.ops, w.heap, m.base, stack, vs, []);
    }
  }

  // ---------- calls ----------

  lemma {:induction false} CallStep(m: Ctx, fuel: nat, pc: nat, stack: seq<Value>, target: Value, args: seq<Value>, w: World)
    requires Ready(m, stack) && InstrAt(m.code, pc, Call(|args|))
    ensures m.go(fuel, pc, stack + [target] + args, w) ==
      if target == Null then Stop(Abort)
      else if fuel == 0 then Stop(OutOfFuel)
      else match CallValue(fuel - 1, m.ops, m.codeOf, stack, m.frames, target, args, w)
           case Stop(why) => Stop(why)
           case Done(v, w') => if v == Null then Stop(Abort) else m.go(fuel, pc + 1, stack + [v], w')
  {
    hide At;
    assert Unfold(m, fuel, pc, stack + [target] + args, w);
    PopManyBack(m.base, stack + [target], args, true);
    InitLast(stack, target);
    if fuel > 0 {
      var r := CallValue(fuel - 1, m.ops, m.codeOf, stack, m.frames, target, args, w);
      assert r.Done? ==> Unfold(m, fuel, pc + 1, stack + [r.v], r.w);
    }
  }

  lemma {:induction false} ApplyRuns(m: Ctx, fuel: nat, pc: nat, site: Expr, stack: seq<Value>, target: Value, args: seq<Value>, w: World)
    requires Ready(m, stack) && InstrAt(m.code, pc, Call(|args| % 256))
    ensures ExprAgrees(m, fuel, m.go(fuel, pc, stack + [target] + args, w), pc + 1, stack,
                       Apply(fuel, m.ops, site, Under(stack), m.frames, target, args, w))
    decreases fuel, site, 0
  {
    hide At, InstrAt, Run, CallValue, CallFunction;
    if |args| <= 255 {
      CallStep(m, fuel, pc, stack, target, args, w);
      if target != Null && fuel > 0 {
        CallRuns(fuel - 1, m.ops, m.codeOf, stack, m.frames, target, args, w);
      }
    }
  }

  /** Calling a value runs, in a new frame, code that does what its body means. */
  lemma {:induction false} CallRuns(fuel: nat, ops: Ops, codeOf: FnDecl -> seq<Instr>, stack: seq<Value>,
                                    frames: seq<Frame>, target: Value, args: seq<Value>, w: World)
    requires Compiled(ops, codeOf)
    ensures CallAgrees(CallValue(fuel, ops, codeOf, stack, frames, target, args, w),
                       CallFunction(fuel, ops, Under(stack), frames, target, args, w))
    decreases fuel
  {
    hide BindParams, RunBody, FnCode, FnOk, At, InstrAt;
    if (target.Method? || target.Closure?) && (!ops.loaded(target.fn) || !FnOk(target.fn, true)) {
    } else if target.Method? || target.Closure? {
      var (frame, w1) := NewFrame(target.fn, if target.Closure? then target.bindings else map[], w);
      var m := MakeCtx(ops, codeOf, FnCode(target.fn), |stack|, frames + [frame]);
      FnLayout(target.fn);
      assert Unfold(m, fuel, 0, stack + args, w1);
      ParamsRun(m, fuel, 0, target.fn.params, stack, args, w1);
      var b := BindParams(frame, target.fn.params, args, Under(stack), w1);
      if b.Bound? {
        BodyRuns(m, fuel, target.fn, stack, b.surplus, b.w);
      }
    } else {
      NativeRuns(fuel, ops, codeOf, stack, frames, ops.native(w.heap, target, args), w);
    }
  }

  lemma {:induction false} NativeRuns(fuel: nat, ops: Ops, codeOf: FnDecl -> seq<Instr>, stack: seq<Value>,
                                      frames: seq<Frame>, act: NativeAct, w: World)
    requires Compiled(ops, codeOf)
    ensures CallAgrees(RunNative(fuel, ops, codeOf, stack, frames, act, w),
                       EvalNative(fuel, ops, Under(stack), frames, act, w))
    decreases fuel, 0
  {
    hide CallValue, CallFunction;
    if act.Invoke? && fuel > 0 {
      var w1 := World(w.cells, act.heap);
      CallRuns(fuel - 1, ops, codeOf, stack, frames, act.target, act.args, w1);
      var r := CallFunction(fuel - 1, ops, Under(stack), frames, act.target, act.args, w1);
      if r.Done? && r.v != Null {
        NativeRuns(fuel - 1, ops, codeOf, stack, frames, ops.resume(r.w.heap, act.saved, r.v), r.w);
      }
    }
  }

  lemma {:induction false} ParamsRun(m: Ctx, fuel: nat, at: nat, params: seq<Name>, stack: seq<Value>, args: seq<Value>, w: World)
    requires Ready(m, stack) && m.base == |stack| && At(m.code, at, ParamsCode(params))
    ensures var out := m.go(fuel, at, stack + args, w);
            match BindParams(Last(m.frames), params, args, Under(stack), w)
            case Bound(surplus, w') => out == m.go(fuel, at + |params|, stack + surplus, w')
            case BindStop(why) => out == Stop(why)
    decreases |params|
  {
    hide At, InstrAt;
    if params != [] {
      ParamsLayout(m.code, at, params);
      StoreParam(m, fuel, at, Last(params), stack, args, w);
      var v := if args == [] then Nil else Last(args);
      var s := Store(Last(m.frames), Last(params), v, w);
      if (args != [] || stack == []) && s.Some? {
        ParamsRun(m, fuel, at + 1, Init(params), stack, if args == [] then [] else Init(args), s.value);
      }
    }
  }

  lemma {:induction false} StoreParam(m: Ctx, fuel: nat, at: nat, id: Name, stack: seq<Value>, args: seq<Value>, w: World)
    requires Ready(m, stack) && m.base == |stack| && InstrAt(m.code, at, StoreName(id))
    ensures m.go(fuel, at, stack + args, w) ==
      if args == [] && stack != [] then Stop(Underflow) else
      match Store(Last(m.frames), id, if args == [] then Nil else Last(args), w)
      case None => Stop(Abort)
      case Some(w') => m.go(fuel, at + 1, stack + if args == [] then [] else Init(args), w')
  {
    hide At, InstrAt;
    StepRuns(m, fuel, at, StoreName(id), stack + args, w);
    if args == [] {
      assert stack + args == stack;
    } else {
      assert stack + args == stack + Init(args) + [Last(args)];
      InitLast(stack + Init(args), Last(args));
    }
  }

  lemma {:induction false} BodyRuns(m: Ctx, fuel: nat, fn: FnDecl, stack: seq<Value>, surplus: seq<Value>, w: World)
    requires Ready(m, stack) && m.code == FnCode(fn)
    ensures CallAgrees(m.go(fuel, |fn.params|, stack + surplus, w),
                       RunBody(fuel, m.ops, fn, surplus, Under(stack), m.frames, w))
    decreases fuel, fn
  {
    hide EvalStmts, StmtsCode, ParamsCode, At, InstrAt;
    FnLayout(fn);
    StmtsRun(m, fuel, |fn.params|, 0, fn.body, stack + surplus, w);
    assert Under(stack + surplus) == TopOr(surplus, Under(stack));
    var r := EvalStmts(fuel, m.ops, fn.body, TopOr(surplus, Under(stack)), m.frames, w);
    if r.Next? {
      assert stack + surplus + r.left == stack + (surplus + r.left);
      EndRuns(m, r.fuel, stack, surplus + r.left, r.w);
    }
  }

  /** Running off the end returns the top of the shared stack. */
  lemma {:induction false} EndRuns(m: Ctx, fuel: nat, stack: seq<Value>, left: seq<Value>, w: World)
    requires Ready(m, stack)
    ensures m.go(fuel, |m.code|, stack + left, w) ==
      match TopOr(left, Under(stack))
      case None => Done(Nil, w)
      case Some(v) => Done(v, w)
  {
    assert Unfold(m, fuel, |m.code|, stack + left, w);
  }

  // ---------- expressions ----------

  /** An expression's code runs from its first address to its last and leaves exactly the
      evaluator's value on top of the old stack. */
  lemma {:induction false} ExprRuns(m: Ctx, fuel: nat, at: nat, e: Expr, stack: seq<Value>, w: World)
    requires Ready(m, stack) && At(m.code, at, ExprCode(e, at))
    ensures ExprAgrees(m, fuel, m.go(fuel, at, stack, w), at + ExprSize(e), stack,
                       EvalExpr(fuel, m.ops, e, Under(stack), m.frames, w))
    decreases fuel, e, 3
  {
    hide At, InstrAt;
    match e
    case Lit(_) => LeafRuns(m, fuel, at, e, stack, w);
    case NilLit => LeafRuns(m, fuel, at, e, stack, w);
    case Ident(_) => LeafRuns(m, fuel, at, e, stack, w);
    case FnExpr(_) => LeafRuns(m, fuel, at, e, stack, w);
    case ArrayLit(_) => ArrayRuns(m, fuel, at, e, stack, w);
    case HashLit(_) => HashRuns(m, fuel, at, e, stack, w);
    case CallExpr(_, _) => CallExprRuns(m, fuel, at, e, stack, w);
    case GetAttrExpr(_, _) => GetAttrExprRuns(m, fuel, at, e, stack, w);
    case GetItemExpr(_, _) => GetItemExprRuns(m, fuel, at, e, stack, w);
    case NotExpr(_) => NotRuns(m, fuel, at, e, stack, w);
    case Binary(op, _, _) =>
      if op.And? || op.Or? {
        LogicRuns(m, fuel, at, e, stack, w);
      } else {
        BinaryExprRuns(m, fuel, at, e, stack, w);
      }
    case SpawnExpr(_, _) => SpawnRuns(m, fuel, at, e, stack, w);
    case Wildcard =>
  }

  lemma {:induction false} LeafRuns(m: Ctx, fuel: nat, at: nat, e: Expr, stack: seq<Value>, w: World)
    requires Ready(m, stack) && At(m.code, at, ExprCode(e, at)) && (e.Lit? || e.NilLit? || e.Ident? || e.FnExpr?)
    ensures ExprAgrees(m, fuel, m.go(fuel, at, stack, w), at + ExprSize(e), stack,
                       EvalExpr(fuel, m.ops, e, Under(stack), m.frames, w))
  {
    hide At, InstrAt;
    Pick(m.code, at, ExprCode(e, at), 0);
    StepRuns(m, fuel, at, ExprCode(e, at)[0], stack, w);
    if e.FnExpr? && e.fn.freevars != [] {
      Pick(m.code, at, ExprCode(e, at), 1);
      UnaryRuns(m, fuel, at + 1, MakeClosure, stack, Method(e.fn), w);
    }
  }

  lemma {:induction false} ExprsRun(m: Ctx, fuel: nat, at: nat, es: seq<Expr>, stack: seq<Value>, w: World)
    requires Ready(m, stack) && At(m.code, at, ExprsCode(es, at))
    ensures ListAgrees(m, fuel, m.go(fuel, at, stack, w), at + ExprsSize(es), stack,
                       EvalExprs(fuel, m.ops, es, Under(stack), m.frames, w))
    decreases fuel, es, 0
  {
    hide EvalExpr, ExprCode, ExprSize, ExprsCode, At, InstrAt;
    if es == [] {
      assert stack + [] == stack;
    } else {
      ListLayout(m.code, at, es);
      ExprRuns(m, fuel, at, es[0], stack, w);
      var r := EvalExpr(fuel, m.ops, es[0], Under(stack), m.frames, w);
      if r.Val? {
        ExprsRun(m, fuel, at + ExprSize(es[0]), es[1..], stack + [r.v], r.w);
        var rs := EvalExprs(fuel, m.ops, es[1..], Some(r.v), m.frames, r.w);
        assert rs.Vals? ==> stack + [r.v] + rs.vs == stack + ([r.v] + rs.vs);
      }
    }
  }

  lemma {:induction false} ArrayRuns(m: Ctx, fuel: nat, at: nat, e: Expr, stack: seq<Value>, w: World)
    requires Ready(m, stack) && At(m.code, at, ExprCode(e, at)) && e.ArrayLit?
    ensures ExprAgrees(m, fuel, m.go(fuel, at, stack, w), at + ExprSize(e), stack,
                       EvalExpr(fuel, m.ops, e, Under(stack), m.frames, w))
    decreases fuel, e, 1
  {
    hide ExprCode, ExprsCode, EvalExprs, Apply, Combine, MakeArrayValue, At, InstrAt;
    ArrayLayout(m.code, at, e.items);
    ExprsRun(m, fuel, at, e.items, stack, w);
    var r := EvalExprs(fuel, m.ops, e.items, Under(stack), m.frames, w);
    if r.Vals? {
      MakeArrayRuns(m, fuel, at + ExprsSize(e.items), stack, r.vs, r.w);
    }
  }

  lemma {:induction false} HashRuns(m: Ctx, fuel: nat, at: nat, e: Expr, stack: seq<Value>, w: World)
    requires Ready(m, stack) && At(m.code, at, ExprCode(e, at)) && e.HashLit?
    ensures ExprAgrees(m, fuel, m.go(fuel, at, stack, w), at + ExprSize(e), stack,
                       EvalExpr(fuel, m.ops, e, Under(stack), m.frames, w))
    decreases fuel, e, 1
  {
    hide ExprCode, ExprsCode, EvalExprs, Apply, Combine, MakeHashValue, At, InstrAt;
    HashLayout(m.code, at, e.items);
    ExprsRun(m, fuel, at, e.items, stack, w);
    var r := EvalExprs(fuel, m.ops, e.items, Under(stack), m.frames, w);
    if r.Vals? {
      MakeHashRuns(m, fuel, at + ExprsSize(e.items), stack, r.vs, r.w);
    }
  }

  lemma {:induction false} CallExprRuns(m: Ctx, fuel: nat, at: nat, e: Expr, stack: seq<Value>, w: World)
    requires Ready(m, stack) && At(m.code, at, ExprCode(e, at)) && e.CallExpr?
    ensures ExprAgrees(m, fuel, m.go(fuel, at, stack, w), at + ExprSize(e), stack,
                       EvalExpr(fuel, m.ops, e, Under(stack), m.frames, w))
    decreases fuel, e, 1
  {
    hide ExprCode, ExprsCode, EvalExprs, Apply, Combine, At, InstrAt;
    var mid := at + ExprSize(e.target);
    CallLayout(m.code, at, e.target, e.args);
    ExprRuns(m, fuel, at, e.target, stack, w);
    var r := EvalExpr(fuel, m.ops, e.target, Under(stack), m.frames, w);
    if r.Val? {
      ExprsRun(m, fuel, mid, e.args, stack + [r.v], r.w);
      var rs := EvalExprs(fuel, m.ops, e.args, Some(r.v), m.frames, r.w);
      if rs.Vals? {
        ApplyRuns(m, fuel, mid + ExprsSize(e.args), e, stack, r.v, rs.vs, rs.w);
      }
    }
  }

  lemma {:induction false} GetAttrExprRuns(m: Ctx, fuel: nat, at: nat, e: Expr, stack: seq<Value>, w: World)
    requires Ready(m, stack) && At(m.code, at, ExprCode(e, at)) && e.GetAttrExpr?
    ensures ExprAgrees(m, fuel, m.go(fuel, at, stack, w), at + ExprSize(e), stack,
                       EvalExpr(fuel, m.ops, e, Under(stack), m.frames, w))
    decreases fuel, e, 1
  {
    hide ExprCode, ExprsCode, EvalExprs, Apply, Combine, At, InstrAt;
    GetAttrLayout(m.code, at, e.target, e.attr);
    ExprRuns(m, fuel, at, e.target, stack, w);
    var r := EvalExpr(fuel, m.ops, e.target, Under(stack), m.frames, w);
    if r.Val? {
      GetAttrRuns(m, fuel, at + ExprSize(e.target), e.attr, stack, r.v, r.w);
    }
  }

  lemma {:induction false} GetItemExprRuns(m: Ctx, fuel: nat, at: nat, e: Expr, stack: seq<Value>, w: World)
    requires Ready(m, stack) && At(m.code, at, ExprCode(e, at)) && e.GetItemExpr?
    ensures ExprAgrees(m, fuel, m.go(fuel, at, stack, w), at + ExprSize(e), stack,
                       EvalExpr(fuel, m.ops, e, Under(stack), m.frames, w))
    decreases fuel, e, 1
  {
    hide ExprCode, ExprsCode, EvalExprs, Apply, Combine, At, InstrAt;
    var mid := at + ExprSize(e.target);
    GetItemLayout(m.code, at, e.target, e.key);
    ExprRuns(m, fuel, at, e.target, stack, w);
    var r := EvalExpr(fuel, m.ops, e.target, Under(stack), m.frames, w);
    if r.Val? {
      ExprRuns(m, fuel, mid, e.key, stack + [r.v], r.w);
      var k := EvalExpr(fuel, m.ops, e.key, Some(r.v), m.frames, r.w);
      if k.Val? {
        GetItemRuns(m, fuel, mid + ExprSize(e.key), stack, r.v, k.v, k.w);
      }
    }
  }

  lemma {:induction false} NotRuns(m: Ctx, fuel: nat, at: nat, e: Expr, stack: seq<Value>, w: World)
    requires Ready(m, stack) && At(m.code, at, ExprCode(e, at)) && e.NotExpr?
    ensures ExprAgrees(m, fuel, m.go(fuel, at, stack, w), at + ExprSize(e), stack,
                       EvalExpr(fuel, m.ops, e, Under(stack), m.frames, w))
    decreases fuel, e, 1
  {
    hide ExprCode, ExprsCode, EvalExprs, Apply, Combine, At, InstrAt;
    NotLayout(m.code, at, e.e);
    ExprRuns(m, fuel, at, e.e, stack, w);
    var r := EvalExpr(fuel, m.ops, e.e, Under(stack), m.frames, w);
    if r.Val? {
      UnaryRuns(m, fuel, at + ExprSize(e.e), Not, stack, r.v, r.w);
    }
  }

  lemma {:induction false} BinaryExprRuns(m: Ctx, fuel: nat, at: nat, e: Expr, stack: seq<Value>, w: World)
    requires Ready(m, stack) && At(m.code, at, ExprCode(e, at)) && e.Binary? && (e.op.Compare? || e.op.Arith?)
    ensures ExprAgrees(m, fuel, m.go(fuel, at, stack, w), at + ExprSize(e), stack,
                       EvalExpr(fuel, m.ops, e, Under(stack), m.frames, w))
    decreases fuel, e, 1
  {
    hide ExprCode, ExprsCode, ExprsSize, EvalExprs, Combine, CallFunction, At, InstrAt;
    var mid := at + ExprSize(e.left);
    OperatorLayout(m.code, at, e.op, e.left, e.right);
    ExprRuns(m, fuel, at, e.left, stack, w);
    var l := EvalExpr(fuel, m.ops, e.left, Under(stack), m.frames, w);
    if l.Val? {
      RightRuns(m, fuel, mid, e.op, e.right, stack, l.v, l.w);
    }
  }

  lemma {:induction false} RightRuns(m: Ctx, fuel: nat, at: nat, op: BinOp, e: Expr, stack: seq<Value>, l: Value, w: World)
    requires Ready(m, stack) && (op.Compare? || op.Arith?)
    requires At(m.code, at, ExprCode(e, at)) && InstrAt(m.code, at + ExprSize(e), BinOpCode(op))
    ensures ExprAgrees(m, fuel, m.go(fuel, at, stack + [l], w), at + ExprSize(e) + 1, stack,
              match EvalExpr(fuel, m.ops, e, Some(l), m.frames, w)
              case ExprStop(why) => ExprStop(why)
              case Val(r, w') => Combine(m.ops, op, l, r, w'))
    decreases fuel, e, 4
  {
    hide At, InstrAt;
    ExprRuns(m, fuel, at, e, stack + [l], w);
    var r := EvalExpr(fuel, m.ops, e, Some(l), m.frames, w);
    if r.Val? {
      OperatorRuns(m, fuel, at + ExprSize(e), op, stack, l, r.v, r.w);
    }
  }

  /** The right operand runs only when the left one does not decide the result. */
  lemma {:induction false} LogicMeans(fuel: nat, ops: Ops, e: Expr, under: Option<Value>, frames: seq<Frame>, w: World)
    requires frames != [] && e.Binary? && (e.op.And? || e.op.Or?)
    ensures EvalExpr(fuel, ops, e, under, frames, w) ==
      match EvalExpr(fuel, ops, e.left, under, frames, w)
      case ExprStop(why) => ExprStop(why)
      case Val(l, w1) =>
        if l == Null then ExprStop(Abort) else if Falsy(l) == e.op.And? then Val(l, w1) else EvalExpr(fuel, ops, e.right, under, frames, w1)
  {
  }

  lemma {:induction false} LogicRuns(m: Ctx, fuel: nat, at: nat, e: Expr, stack: seq<Value>, w: World)
    requires Ready(m, stack) && At(m.code, at, ExprCode(e, at)) && e.Binary? && (e.op.And? || e.op.Or?)
    ensures ExprAgrees(m, fuel, m.go(fuel, at, stack, w), at + ExprSize(e), stack,
                       EvalExpr(fuel, m.ops, e, Under(stack), m.frames, w))
    decreases fuel, e, 1
  {
    hide ExprCode, ExprsCode, ExprsSize, EvalExprs, Combine, CallFunction, Apply, SendArgs, FnValue, MakeArrayValue, MakeHashValue, Resolve, EvalExpr, Run, At, InstrAt;
    var mid := at + ExprSize(e.left);
    LogicLayout(m.code, at, e.op, e.left, e.right);
    LogicMeans(fuel, m.ops, e, Under(stack), m.frames, w);
    ExprRuns(m, fuel, at, e.left, stack, w);
    var l := EvalExpr(fuel, m.ops, e.left, Under(stack), m.frames, w);
    if l.Val? {
      DecideRuns(m, fuel, mid, e.op, mid + 4 + ExprSize(e.right), stack, l.v, l.w);
      if l.v != Null && Falsy(l.v) != e.op.And? {
        ExprRuns(m, fuel, mid + 4, e.right, stack, l.w);
      }
    }
  }

  lemma {:induction false} DecideRuns(m: Ctx, fuel: nat, mid: nat, op: BinOp, end: nat, stack: seq<Value>, v: Value, w: World)
    requires Ready(m, stack) && (op.And? || op.Or?) && end > mid + 3
    requires InstrAt(m.code, mid, Dup) && InstrAt(m.code, mid + 2, Jump(end)) && InstrAt(m.code, mid + 3, Pop)
    requires InstrAt(m.code, mid + 1, if op.Or? then JumpIfFalse(mid + 3) else JumpIfTrue(mid + 3))
    ensures m.go(fuel, mid, stack + [v], w) ==
      if v == Null then Stop(Abort)
      else if Falsy(v) == op.And? then m.go(fuel, end, stack + [v], w)
      else m.go(fuel, mid + 4, stack, w)
  {
    hide At, InstrAt;
    DupRuns(m, fuel, mid, stack, v, w);
    BranchRuns(m, fuel, mid + 1, if op.Or? then JumpIfFalse(mid + 3) else JumpIfTrue(mid + 3), stack + [v], v, w);
    JumpRuns(m, fuel, mid + 2, end, stack + [v], w);
    PopRuns(m, fuel, mid + 3, stack, v, w);
  }

  lemma {:induction false} SpawnMeans(fuel: nat, ops: Ops, e: Expr, under: Option<Value>, frames: seq<Frame>, w: World)
    requires frames != [] && e.SpawnExpr?
    ensures EvalExpr(fuel, ops, e, under, frames, w) ==
      match EvalExpr(fuel, ops, e.target, under, frames, w)
      case ExprStop(why) => ExprStop(why)
      case Val(v, w1) =>
        if v == Null || v.Closure? then ExprStop(Abort) else
        match NonNull(w1.cells, ops.spawn(w1.heap, v))
        case ExprStop(why) => ExprStop(why)
        case Val(task, w2) => SendArgs(fuel, ops, e, task, frames, w2)
  {
    hide SendArgs;
  }

  lemma {:induction false} NewTaskRuns(m: Ctx, fuel: nat, pc: nat, stack: seq<Value>, v: Value, w: World)
    requires Ready(m, stack) && InstrAt(m.code, pc, Spawn)
    ensures m.go(fuel, pc, stack + [v], w) ==
      if v == Null || v.Closure? then Stop(Abort) else
      match NonNull(w.cells, m.ops.spawn(w.heap, v))
      case ExprStop(why) => Stop(why)
      case Val(task, w') => m.go(fuel, pc + 1, stack + [task], w')
  {
    hide Run, At, InstrAt;
    UnaryRuns(m, fuel, pc, Spawn, stack, v, w);
  }

  lemma {:induction false} SpawnRuns(m: Ctx, fuel: nat, at: nat, e: Expr, stack: seq<Value>, w: World)
    requires Ready(m, stack) && At(m.code, at, ExprCode(e, at)) && e.SpawnExpr?
    ensures ExprAgrees(m, fuel, m.go(fuel, at, stack, w), at + ExprSize(e), stack,
                       EvalExpr(fuel, m.ops, e, Under(stack), m.frames, w))
    decreases fuel, e, 2
  {
    hide SendArgs, ExprCode, ExprsCode, ExprsSize, CallFunction, EvalExprs, EvalExpr, ExecUnary, Run, At, InstrAt;
    var mid := at + ExprSize(e.target);
    SpawnLayout(m.code, at, e.target, e.args);
    SpawnMeans(fuel, m.ops, e, Under(stack), m.frames, w);
    ExprRuns(m, fuel, at, e.target, stack, w);
    var r := EvalExpr(fuel, m.ops, e.target, Under(stack), m.frames, w);
    if r.Val? {
      NewTaskRuns(m, fuel, mid, stack, r.v, r.w);
      if r.v != Null && !r.v.Closure? {
        var t := NonNull(r.w.cells, m.ops.spawn(r.w.heap, r.v));
        if t.Val? {
          SendRuns(m, fuel, mid + 1, e, stack, t.v, t.w);
        }
      }
    }
  }

  lemma {:induction false} SendRuns(m: Ctx, fuel: nat, at: nat, e: Expr, stack: seq<Value>, task: Value, w: World)
    requires Ready(m, stack) && e.SpawnExpr? && task != Null
    requires InstrAt(m.code, at, Dup) && InstrAt(m.code, at + 1, GetAttr("send")) && At(m.code, at + 2, ExprsCode(e.args, at + 2))
    requires var last := at + 2 + ExprsSize(e.args);
      InstrAt(m.code, last, MakeArray(|e.args| % 256)) && InstrAt(m.code, last + 1, Call(1)) && InstrAt(m.code, last + 2, Pop)
    ensures ExprAgrees(m, fuel, m.go(fuel, at, stack + [task], w), at + 5 + ExprsSize(e.args), stack,
                       SendArgs(fuel, m.ops, e, task, m.frames, w))
    decreases fuel, e, 1
  {
    hide EvalExpr, EvalExprs, ExprCode, ExprsCode, ExprsSize, CallFunction, MakeArrayValue, Run, At, InstrAt;
    DupRuns(m, fuel, at, stack, task, w);
    GetAttrRuns(m, fuel, at + 1, "send", stack + [task], task, w);
    var s := NonNull(w.cells, m.ops.getattr(w.heap, task, "send"));
    if s.Val? {
      var last := at + 2 + ExprsSize(e.args);
      ExprsRun(m, fuel, at + 2, e.args, stack + [task] + [s.v], s.w);
      var rs := EvalExprs(fuel, m.ops, e.args, Some(s.v), m.frames, s.w);
      if rs.Vals? {
        MakeArrayRuns(m, fuel, last, stack + [task] + [s.v], rs.vs, rs.w);
        var a := MakeArrayValue(rs.vs, rs.w);
        if a.Val? {
          assert Call(1) == Call(|[a.v]| % 256);
          ApplyRuns(m, fuel, last + 1, e, stack + [task], s.v, [a.v], a.w);
          var r := Apply(fuel, m.ops, e, Some(task), m.frames, s.v, [a.v], a.w);
          if r.Val? {
            PopRuns(m, fuel, last + 2, stack + [task], r.v, r.w);
          }
        }
      }
    }
  }

  // ---------- patterns ----------

  lemma {:induction false} EqualsRuns(m: Ctx, fuel: nat, at: nat, next: nat, stack: seq<Value>, l: Value, r: Value, w: World)
    requires Ready(m, stack) && InstrAt(m.code, at, CompareTop(Eq)) && InstrAt(m.code, at + 1, JumpIfFalse(next)) && next > at + 1
    ensures MatchAgrees(m, fuel, m.go(fuel, at, stack + [l] + [r], w), at + 2, next, stack, Equals(m.ops, l, r, w))
  {
    hide At, InstrAt;
    BinaryRuns(m, fuel, at, CompareTop(Eq), stack, l, r, w);
    match CompareValues(m.ops, Eq, l, r, w)
    case None =>
    case Some(b) =>
      BranchRuns(m, fuel, at + 1, JumpIfFalse(next), stack, b, w);
      assert stack + [] == stack;
  }

  lemma {:induction false} ClassRuns(m: Ctx, fuel: nat, pc: nat, stack: seq<Value>, v: Value, w: World)
    requires Ready(m, stack) && InstrAt(m.code, pc, GetClass) && v != Null
    ensures m.go(fuel, pc, stack + [v], w) == m.go(fuel, pc + 1, stack + [m.ops.classOf(w.heap, v)], w)
  {
    hide Run, At, InstrAt;
    UnaryRuns(m, fuel, pc, GetClass, stack, v, w);
  }

  /** The class that a value's class is compared with. */
  lemma {:induction false} PushRuns(m: Ctx, fuel: nat, pc: nat, push: Instr, stack: seq<Value>, w: World)
    requires Ready(m, stack) && InstrAt(m.code, pc, push) && (push == PushConst(Class("nil")) || push.PushName?)
    ensures m.go(fuel, pc, stack, w) ==
      match (if push.PushName? then Resolve(m.ops, Last(m.frames), push.id, w) else Some(push.v))
      case None => Stop(Abort)
      case Some(v) => m.go(fuel, pc + 1, stack + [v], w)
  {
    hide Run, Resolve, At, InstrAt;
    StepRuns(m, fuel, pc, push, stack, w);
  }

  lemma {:induction false} ClassTestRuns(m: Ctx, fuel: nat, at: nat, push: Instr, next: nat, stack: seq<Value>, v: Value, w: World)
    requires Ready(m, stack) && ClassTestAt(m.code, at, push, next) && next >= at + 5
    requires push == PushConst(Class("nil")) || push.PushName?
    ensures MatchAgrees(m, fuel, m.go(fuel, at, stack + [v], w), at + 5, next, stack + [v],
              HasClass(m.ops, v, if push.PushName? then Resolve(m.ops, Last(m.frames), push.id, w) else Some(push.v), w))
  {
    hide Equals, Exec, ExecUnary, Run, Resolve, At, InstrAt;
    DupRuns(m, fuel, at, stack, v, w);
    if v != Null {
      var c := m.ops.classOf(w.heap, v);
      ClassRuns(m, fuel, at + 1, stack + [v], v, w);
      PushRuns(m, fuel, at + 2, push, stack + [v] + [c], w);
      var k := if push.PushName? then Resolve(m.ops, Last(m.frames), push.id, w) else Some(push.v);
      if k.Some? {
        EqualsRuns(m, fuel, at + 3, next, stack + [v], c, k.value, w);
      }
    }
  }

  lemma {:induction false} SizeTestRuns(m: Ctx, fuel: nat, at: nat, n: nat, site: Expr, next: nat, stack: seq<Value>, v: Value, w: World)
    requires Ready(m, stack) && SizeTestAt(m.code, at, n, next) && next >= at + 6 && v != Null
    ensures MatchAgrees(m, fuel, m.go(fuel, at, stack + [v], w), at + 6, next, stack + [v],
                        HasSize(fuel, m.ops, site, v, n, m.frames, w))
    decreases fuel, site, 1
  {
    hide Apply, CallFunction, At, InstrAt;
    DupRuns(m, fuel, at, stack, v, w);
    GetAttrRuns(m, fuel, at + 1, "size", stack + [v], v, w);
    var g := NonNull(w.cells, m.ops.getattr(w.heap, v, "size"));
    if g.Val? {
      assert stack + [v] + [g.v] + [] == stack + [v] + [g.v];
      ApplyRuns(m, fuel, at + 2, site, stack + [v], g.v, [], g.w);
      var r := Apply(fuel, m.ops, site, Some(v), m.frames, g.v, [], g.w);
      if r.Val? {
        ConstRuns(m, fuel, at + 3, Int(n), stack + [v] + [r.v], r.w);
        EqualsRuns(m, fuel, at + 4, next, stack + [v], r.v, Int(n), r.w);
      }
    }
  }

  /** A pattern's code falls through, with the value still on top, when the pattern matches;
      otherwise it goes to `next` with the matcher's residue above the value. */
  lemma {:induction false} PatRuns(m: Ctx, fuel: nat, at: nat, p: Expr, next: nat, stack: seq<Value>, v: Value, w: World)
    requires Ready(m, stack) && At(m.code, at, PatCode(p, at, next)) && next >= at + PatSize(p)
    ensures MatchAgrees(m, fuel, m.go(fuel, at, stack + [v], w), at + PatSize(p), next, stack + [v],
                        MatchTest(fuel, m.ops, p, v, m.frames, w))
    decreases fuel, p, 4
  {
    hide MatchSized, PatCode, ItemsSize, PairsSize, At, InstrAt;
    match p
    case Lit(c) => LitPatRuns(m, fuel, at, p, next, stack, v, w);
    case NilLit => NilPatRuns(m, fuel, at, p, next, stack, v, w);
    case ArrayLit(_) => ArrayPatRuns(m, fuel, at, p, next, stack, v, w);
    case HashLit(_) => HashPatRuns(m, fuel, at, p, next, stack, v, w);
    case _ =>
  }

  lemma {:induction false} LitPatRuns(m: Ctx, fuel: nat, at: nat, p: Expr, next: nat, stack: seq<Value>, v: Value, w: World)
    requires Ready(m, stack) && At(m.code, at, PatCode(p, at, next)) && next >= at + PatSize(p) && p.Lit?
    ensures MatchAgrees(m, fuel, m.go(fuel, at, stack + [v], w), at + PatSize(p), next, stack + [v],
                        MatchTest(fuel, m.ops, p, v, m.frames, w))
  {
    hide At, InstrAt;
    LitPatLayout(m.code, at, p.v, next);
    DupRuns(m, fuel, at, stack, v, w);
    ConstRuns(m, fuel, at + 1, p.v, stack + [v] + [v], w);
    EqualsRuns(m, fuel, at + 2, next, stack + [v], v, p.v, w);
  }

  lemma {:induction false} NilPatRuns(m: Ctx, fuel: nat, at: nat, p: Expr, next: nat, stack: seq<Value>, v: Value, w: World)
    requires Ready(m, stack) && At(m.code, at, PatCode(p, at, next)) && next >= at + PatSize(p) && p.NilLit?
    ensures MatchAgrees(m, fuel, m.go(fuel, at, stack + [v], w), at + PatSize(p), next, stack + [v],
                        MatchTest(fuel, m.ops, p, v, m.frames, w))
  {
    hide At, InstrAt;
    ClassTestLayout(m.code, at, PushConst(Class("nil")), next);
    ClassTestRuns(m, fuel, at, PushConst(Class("nil")), next, stack, v, w);
  }

  lemma {:induction false} ArrayTestMeans(fuel: nat, ops: Ops, p: Expr, v: Value, frames: seq<Frame>, w: World)
    requires frames != [] && p.ArrayLit?
    ensures var c := HasClass(ops, v, Resolve(ops, Last(frames), "array", w), w);
      && MatchTest(fuel, ops, p, v, frames, w) == (if c.Matched? then MatchSized(fuel, ops, p, v, frames, c.w) else c)
      && (c.Matched? ==> v != Null)
  {
    hide MatchSized, Resolve;
  }

  lemma {:induction false} ArrayPatRuns(m: Ctx, fuel: nat, at: nat, p: Expr, next: nat, stack: seq<Value>, v: Value, w: World)
    requires Ready(m, stack) && At(m.code, at, PatCode(p, at, next)) && next >= at + PatSize(p) && p.ArrayLit?
    ensures MatchAgrees(m, fuel, m.go(fuel, at, stack + [v], w), at + PatSize(p), next, stack + [v],
                        MatchTest(fuel, m.ops, p, v, m.frames, w))
    decreases fuel, p, 3
  {
    hide MatchSized, PatCode, ItemsCode, PairsCode, ItemsSize, PairsSize, Resolve, Run, Equals, At, HasClass, MatchTest, InstrAt;
    ArrayPatLayout(m.code, at, p.items, next);
    ArrayTestMeans(fuel, m.ops, p, v, m.frames, w);
    ClassTestRuns(m, fuel, at, PushName("array"), next, stack, v, w);
    var c := HasClass(m.ops, v, Resolve(m.ops, Last(m.frames), "array", w), w);
    if c.Matched? {
      ArrayPartsRun(m, fuel, at, p, next, stack, v, c.w);
    }
  }

  lemma {:induction false} HashPatRuns(m: Ctx, fuel: nat, at: nat, p: Expr, next: nat, stack: seq<Value>, v: Value, w: World)
    requires Ready(m, stack) && At(m.code, at, PatCode(p, at, next)) && next >= at + PatSize(p) && p.HashLit?
    ensures MatchAgrees(m, fuel, m.go(fuel, at, stack + [v], w), at + PatSize(p), next, stack + [v],
                        MatchTest(fuel, m.ops, p, v, m.frames, w))
    decreases fuel, p, 3
  {
    hide MatchSized, PatCode, ItemsCode, PairsCode, ItemsSize, PairsSize, At, InstrAt;
    HashPatLayout(m.code, at, p.items, next);
    ClassTestRuns(m, fuel, at, PushName("hash"), next, stack, v, w);
    var c := HasClass(m.ops, v, Resolve(m.ops, Last(m.frames), "hash", w), w);
    if c.Matched? {
      HashPartsRun(m, fuel, at, p, next, stack, v, c.w);
    }
  }

  lemma {:induction false} ArrayPartsRun(m: Ctx, fuel: nat, at: nat, p: Expr, next: nat, stack: seq<Value>, v: Value, w: World)
    requires Ready(m, stack) && v != Null && p.ArrayLit? && next >= at + PatSize(p)
    requires ArrayPatAt(m.code, at, p.items, at + 12 + ItemsSize(p.items), next)
    ensures MatchAgrees(m, fuel, m.go(fuel, at + 5, stack + [v], w), at + PatSize(p), next, stack + [v],
                        MatchSized(fuel, m.ops, p, v, m.frames, w))
    decreases fuel, p, 2
  {
    hide MatchTest, MatchItems, HasSize, PatCode, ItemsCode, PairsCode, ItemsSize, Run, At, InstrAt;
    var pop := at + 12 + ItemsSize(p.items);
    SizeTestRuns(m, fuel, at + 5, |p.items|, p, next, stack, v, w);
    var s := HasSize(fuel, m.ops, p, v, |p.items|, m.frames, w);
    if s.Matched? {
      ItemsRun(m, fuel, at + 11, p.items, 0, pop, next, stack, v, s.w);
      var r := MatchItems(fuel, m.ops, p.items, 0, v, m.frames, s.w);
      if r.Matched? {
        JumpRuns(m, fuel, pop - 1, pop + 2, stack + [v], r.w);
      }
    }
  }

  /** The items of an array pattern, together with the code at `pop` that drops one operand
      when an item fails. */
  lemma {:induction false} ItemsRun(m: Ctx, fuel: nat, at: nat, ps: seq<Expr>, i: nat, pop: nat, next: nat,
                                    stack: seq<Value>, v: Value, w: World)
    requires Ready(m, stack) && v != Null && At(m.code, at, ItemsCode(ps, i, at, pop))
    requires at + ItemsSize(ps) <= pop && pop + 1 < next
    requires InstrAt(m.code, pop, Pop) && InstrAt(m.code, pop + 1, Jump(next))
    ensures MatchAgrees(m, fuel, m.go(fuel, at, stack + [v], w), at + ItemsSize(ps), next, stack + [v],
                        MatchItems(fuel, m.ops, ps, i, v, m.frames, w))
    decreases fuel, ps, 0
  {
    hide MatchTest, MatchItem, PatCode, ItemsCode, PatSize, FetchAt, At, InstrAt;
    if ps == [] { return; }
    ItemsLayout(m.code, at, ps, i, pop);
    FetchRuns(m, fuel, at, Int(i), stack, v, w);
    var x := NonNull(w.cells, m.ops.getitem(w.heap, v, Int(i)));
    if x.Val? {
      ItemRuns(m, fuel, at + 3, ps[0], pop, next, stack + [v], x.v, x.w);
      var r := MatchItem(fuel, m.ops, ps[0], x.v, m.frames, x.w);
      if r.Matched? {
        ItemsRun(m, fuel, at + 4 + PatSize(ps[0]), ps[1..], i + 1, pop, next, stack, v, r.w);
      }
    }
  }

  lemma {:induction false} ItemRuns(m: Ctx, fuel: nat, at: nat, p: Expr, pop: nat, next: nat, stack: seq<Value>, item: Value, w: World)
    requires Ready(m, stack) && At(m.code, at, PatCode(p, at, pop)) && InstrAt(m.code, at + PatSize(p), Pop)
    requires at + PatSize(p) <= pop && pop + 1 < next && InstrAt(m.code, pop, Pop) && InstrAt(m.code, pop + 1, Jump(next))
    ensures MatchAgrees(m, fuel, m.go(fuel, at, stack + [item], w), at + PatSize(p) + 1, next, stack,
                        MatchItem(fuel, m.ops, p, item, m.frames, w))
    decreases fuel, p, 5
  {
    hide MatchTest, PatCode, PatSize, At, InstrAt;
    PatRuns(m, fuel, at, p, pop, stack, item, w);
    var r := MatchTest(fuel, m.ops, p, item, m.frames, w);
    if r.Matched? {
      PopRuns(m, fuel, at + PatSize(p), stack, item, r.w);
    } else if r.Mismatch? {
      DropRuns(m, fuel, pop, next, stack, [item] + r.left, r.w);
      assert stack + [item] + r.left == stack + ([item] + r.left);
    }
  }

  lemma {:induction false} DropRuns(m: Ctx, fuel: nat, pop: nat, next: nat, stack: seq<Value>, held: seq<Value>, w: World)
    requires Ready(m, stack) && held != [] && pop + 1 < next
    requires InstrAt(m.code, pop, Pop) && InstrAt(m.code, pop + 1, Jump(next))
    ensures m.go(fuel, pop, stack + held, w) ==
      if Last(held) == Null then Stop(Abort) else m.go(fuel, next, stack + Init(held), w)
  {
    hide At, InstrAt;
    assert stack + held == stack + Init(held) + [Last(held)];
    PopRuns(m, fuel, pop, stack + Init(held), Last(held), w);
    JumpRuns(m, fuel, pop + 1, next, stack + Init(held), w);
  }

  lemma {:induction false} FetchRuns(m: Ctx, fuel: nat, at: nat, key: Value, stack: seq<Value>, v: Value, w: World)
    requires Ready(m, stack) && v != Null && FetchAt(m.code, at, key)
    ensures ExprAgrees(m, fuel, m.go(fuel, at, stack + [v], w), at + 3, stack + [v],
              if key == Null then ExprStop(Abort) else NonNull(w.cells, m.ops.getitem(w.heap, v, key)))
  {
    DupRuns(m, fuel, at, stack, v, w);
    ConstRuns(m, fuel, at + 1, key, stack + [v] + [v], w);
    GetItemRuns(m, fuel, at + 2, stack + [v], v, key, w);
  }

  lemma {:induction false} HashPartsRun(m: Ctx, fuel: nat, at: nat, p: Expr, next: nat, stack: seq<Value>, v: Value, w: World)
    requires Ready(m, stack) && v != Null && p.HashLit? && next >= at + PatSize(p)
    requires SizeTestAt(m.code, at + 5, |p.items| / 2, next) && At(m.code, at + 11, PairsCode(p.items, at + 11, next))
    ensures MatchAgrees(m, fuel, m.go(fuel, at + 5, stack + [v], w), at + PatSize(p), next, stack + [v],
                        MatchSized(fuel, m.ops, p, v, m.frames, w))
    decreases fuel, p, 2
  {
    hide MatchTest, MatchPairs, HasSize, PatCode, PairsCode, PairsSize, At, InstrAt;
    SizeTestRuns(m, fuel, at + 5, |p.items| / 2, p, next, stack, v, w);
    var s := HasSize(fuel, m.ops, p, v, |p.items| / 2, m.frames, w);
    if s.Matched? {
      PairsRun(m, fuel, at + 11, p.items, next, stack, v, s.w);
    }
  }

  lemma {:induction false} PairsRun(m: Ctx, fuel: nat, at: nat, ps: seq<Expr>, next: nat, stack: seq<Value>, v: Value, w: World)
    requires Ready(m, stack) && v != Null && At(m.code, at, PairsCode(ps, at, next))
    requires at + PairsSize(ps) <= next
    ensures MatchAgrees(m, fuel, m.go(fuel, at, stack + [v], w), at + PairsSize(ps), next, stack + [v],
                        MatchPairs(fuel, m.ops, ps, v, m.frames, w))
    decreases fuel, ps, 0
  {
    hide MatchTest, MatchValue, MatchSized, PatCode, PairsCode, PatSize, FetchAt, At, InstrAt;
    if |ps| < 2 { return; }
    var key := KeyConst(ps[0]);
    PairsLayout(m.code, at, ps, next);
    FetchRuns(m, fuel, at, key, stack, v, w);
    if key == Null { return; }
    var x := NonNull(w.cells, m.ops.getitem(w.heap, v, key));
    if x.Val? {
      ValueRuns(m, fuel, at + 3, ps[1], next, stack + [v], x.v, x.w);
      var r := MatchValue(fuel, m.ops, ps[1], x.v, m.frames, x.w);
      if r.Matched? {
        PairsRun(m, fuel, at + 4 + PatSize(ps[1]), ps[2..], next, stack, v, r.w);
      }
    }
  }

  lemma {:induction false} ValueRuns(m: Ctx, fuel: nat, at: nat, p: Expr, next: nat, stack: seq<Value>, value: Value, w: World)
    requires Ready(m, stack) && At(m.code, at, PatCode(p, at, next)) && InstrAt(m.code, at + PatSize(p), Pop)
    requires at + PatSize(p) <= next
    ensures MatchAgrees(m, fuel, m.go(fuel, at, stack + [value], w), at + PatSize(p) + 1, next, stack,
                        MatchValue(fuel, m.ops, p, value, m.frames, w))
    decreases fuel, p, 5
  {
    hide MatchTest, PatCode, PatSize, At, InstrAt;
    PatRuns(m, fuel, at, p, next, stack, value, w);
    var r := MatchTest(fuel, m.ops, p, value, m.frames, w);
    if r.Matched? {
      PopRuns(m, fuel, at + PatSize(p), stack, value, r.w);
    } else if r.Mismatch? {
      assert stack + [value] + r.left == stack + ([value] + r.left);
    }
  }

  lemma {:induction false} WalkRuns(m: Ctx, fuel: nat, at: nat, path: seq<Value>, stack: seq<Value>, v: Value, w: World)
    requires Ready(m, stack) && At(m.code, at, WalkCode(path))
    ensures ExprAgrees(m, fuel, m.go(fuel, at, stack + [v], w), at + 2 * |path|, stack, Walk(m.ops, v, path, w))
    ensures Walk(m.ops, v, path, w).ExprStop? ==> Walk(m.ops, v, path, w).why == Abort
    decreases path
  {
    hide At, InstrAt;
    if path == [] { return; }
    WalkLayout(m.code, at, path);
    ConstRuns(m, fuel, at, path[0], stack + [v], w);
    GetItemRuns(m, fuel, at + 1, stack, v, path[0], w);
    if v != Null && path[0] != Null {
      var x := NonNull(w.cells, m.ops.getitem(w.heap, v, path[0]));
      if x.Val? {
        WalkRuns(m, fuel, at + 2, path[1..], stack, x.v, x.w);
      }
    }
  }

  lemma {:induction false} BindsRun(m: Ctx, fuel: nat, at: nat, vars: seq<(Name, seq<Value>)>, stack: seq<Value>, v: Value, w: World)
    requires Ready(m, stack) && At(m.code, at, BindsCode(vars))
    ensures var out := m.go(fuel, at, stack + [v], w);
            match BindVars(m.ops, vars, v, m.frames, w)
            case None => out == Stop(Abort)
            case Some(w') => out == m.go(fuel, at + BindsSize(vars), stack + [v], w')
    decreases vars
  {
    hide Walk, WalkCode, BindsCode, At, InstrAt;
    if vars == [] { return; }
    var (id, path) := vars[0];
    BindsLayout(m.code, at, vars);
    DupRuns(m, fuel, at, stack, v, w);
    if v != Null {
      WalkRuns(m, fuel, at + 1, path, stack + [v], v, w);
      var x := Walk(m.ops, v, path, w);
      if x.Val? {
        UnaryRuns(m, fuel, at + 1 + 2 * |path|, StoreName(id), stack + [v], x.v, x.w);
        var s := Store(Last(m.frames), id, x.v, x.w);
        if s.Some? {
          BindsRun(m, fuel, at + 2 + 2 * |path|, vars[1..], stack, v, s.value);
        }
      }
    }
  }

  // ---------- statements ----------

  lemma {:induction false} StoreRuns(m: Ctx, fuel: nat, pc: nat, id: Name, stack: seq<Value>, v: Value, w: World, brk: nat)
    requires Ready(m, stack) && InstrAt(m.code, pc, StoreName(id))
    ensures StmtAgrees(m, m.go(fuel, pc, stack + [v], w), pc + 1, brk, stack, StoreResult(m.frames, id, Val(v, w), fuel))
  {
    hide At, InstrAt;
    UnaryRuns(m, fuel, pc, StoreName(id), stack, v, w);
    assert stack + [] == stack;
  }

  lemma {:induction false} AssignRuns(m: Ctx, fuel: nat, at: nat, id: Name, e: Expr, stack: seq<Value>, w: World, brk: nat)
    requires Ready(m, stack) && At(m.code, at, ExprCode(e, at) + [StoreName(id)])
    ensures StmtAgrees(m, m.go(fuel, at, stack, w), at + ExprSize(e) + 1, brk, stack,
                       StoreResult(m.frames, id, EvalExpr(fuel, m.ops, e, Under(stack), m.frames, w), fuel))
    decreases fuel, e, 4
  {
    hide At, InstrAt, EvalExpr, ExprCode, ExprSize, Run;
    SplitLast(m.code, at, ExprCode(e, at), StoreName(id));
    ExprRuns(m, fuel, at, e, stack, w);
    var r := EvalExpr(fuel, m.ops, e, Under(stack), m.frames, w);
    if r.Val? {
      StoreRuns(m, fuel, at + ExprSize(e), id, stack, r.v, r.w, brk);
    }
  }

  /** A condition followed by a forward branch that is taken when it is false. */
  lemma {:induction false} CondRuns(m: Ctx, fuel: nat, at: nat, c: Expr, target: nat, stack: seq<Value>, w: World)
    requires Ready(m, stack) && At(m.code, at, ExprCode(c, at)) && InstrAt(m.code, at + ExprSize(c), JumpIfFalse(target))
    requires target > at + ExprSize(c)
    ensures var out := m.go(fuel, at, stack, w);
            match EvalExpr(fuel, m.ops, c, Under(stack), m.frames, w)
            case ExprStop(why) => Modelled(why) ==> out == Stop(why)
            case Val(v, w') =>
              out == if v == Null then Stop(Abort) else m.go(fuel, if Falsy(v) then target else at + ExprSize(c) + 1, stack, w')
    decreases fuel, c, 4
  {
    hide At, InstrAt;
    ExprRuns(m, fuel, at, c, stack, w);
    var r := EvalExpr(fuel, m.ops, c, Under(stack), m.frames, w);
    if r.Val? {
      BranchRuns(m, fuel, at + ExprSize(c), JumpIfFalse(target), stack, r.v, r.w);
    }
  }

  /** A statement's code runs to its end, to the enclosing loop's end, or to a return, as
      the evaluator says, with exactly the evaluator's residue left on the stack. */
  lemma {:induction false} StmtRuns(m: Ctx, fuel: nat, at: nat, brk: nat, s: Stmt, stack: seq<Value>, w: World)
    requires Ready(m, stack) && At(m.code, at, StmtCode(s, at, brk))
    ensures StmtAgrees(m, m.go(fuel, at, stack, w), at + StmtSize(s), brk, stack,
                       EvalStmt(fuel, m.ops, s, Under(stack), m.frames, w))
    decreases fuel, s, 2
  {
    hide EvalExpr, EvalStmts, EvalArms, Iterate, ExprCode, ExprSize, StmtsSize, StmtsCode, ArmsCode, ArmsSize, At, InstrAt;
    match s
    case ExprStmt(_) => ValueStmtRuns(m, fuel, at, brk, s, stack, w);
    case Ret(_) => ValueStmtRuns(m, fuel, at, brk, s, stack, w);
    case Assign(id, e) => AssignRuns(m, fuel, at, id, e, stack, w, brk);
    case VarDecl(_) => assert stack + [] == stack;
    case VarInit(id, e) => AssignRuns(m, fuel, at, id, e, stack, w, brk);
    case FuncDecl(_, _) => SimpleStmtRuns(m, fuel, at, brk, s, stack, w);
    case If(_, _) => IfRuns(m, fuel, at, brk, s, stack, w);
    case IfElse(_, _, _) => IfElseRuns(m, fuel, at, brk, s, stack, w);
    case While(_, _) => WhileRuns(m, fuel, at, brk, s, stack, w);
    case Match(_, _) => MatchRuns(m, fuel, at, brk, s, stack, w);
    case RetNil => SimpleStmtRuns(m, fuel, at, brk, s, stack, w);
    case Break => SimpleStmtRuns(m, fuel, at, brk, s, stack, w);
  }

  lemma {:induction false} SimpleStmtRuns(m: Ctx, fuel: nat, at: nat, brk: nat, s: Stmt, stack: seq<Value>, w: World)
    requires Ready(m, stack) && At(m.code, at, StmtCode(s, at, brk)) && (s.FuncDecl? || s.RetNil? || s.Break?)
    ensures StmtAgrees(m, m.go(fuel, at, stack, w), at + StmtSize(s), brk, stack,
                       EvalStmt(fuel, m.ops, s, Under(stack), m.frames, w))
  {
    hide At, InstrAt;
    var code := StmtCode(s, at, brk);
    Pick(m.code, at, code, 0);
    if s.Break? {
      JumpRuns(m, fuel, at, brk, stack, w);
      assert stack + [] == stack;
    } else {
      Pick(m.code, at, code, 1);
      StepRuns(m, fuel, at, code[0], stack, w);
      if s.RetNil? {
        RetRuns(m, fuel, at + 1, stack, Nil, w);
      } else {
        StoreRuns(m, fuel, at + 1, s.id, stack, Method(s.fn), w, brk);
      }
    }
  }

  lemma {:induction false} ValueStmtRuns(m: Ctx, fuel: nat, at: nat, brk: nat, s: Stmt, stack: seq<Value>, w: World)
    requires Ready(m, stack) && At(m.code, at, StmtCode(s, at, brk)) && (s.ExprStmt? || s.Ret?)
    ensures StmtAgrees(m, m.go(fuel, at, stack, w), at + StmtSize(s), brk, stack,
                       EvalStmt(fuel, m.ops, s, Under(stack), m.frames, w))
    decreases fuel, s, 1
  {
    hide EvalExpr, ExprCode, ExprSize, EvalStmts, EvalArms, Iterate, StoreResult, At, InstrAt;
    SplitLast(m.code, at, ExprCode(s.e, at), if s.Ret? then RetTop else Pop);
    ExprRuns(m, fuel, at, s.e, stack, w);
    var r := EvalExpr(fuel, m.ops, s.e, Under(stack), m.frames, w);
    if r.Val? {
      if s.Ret? {
        RetRuns(m, fuel, at + ExprSize(s.e), stack, r.v, r.w);
      } else {
        PopRuns(m, fuel, at + ExprSize(s.e), stack, r.v, r.w);
        assert stack + [] == stack;
      }
    }
  }

  lemma {:induction false} IfRuns(m: Ctx, fuel: nat, at: nat, brk: nat, s: Stmt, stack: seq<Value>, w: World)
    requires Ready(m, stack) && At(m.code, at, StmtCode(s, at, brk)) && s.If?
    ensures StmtAgrees(m, m.go(fuel, at, stack, w), at + StmtSize(s), brk, stack,
                       EvalStmt(fuel, m.ops, s, Under(stack), m.frames, w))
    decreases fuel, s, 1
  {
    hide EvalExpr, EvalStmts, StmtCode, StmtsCode, ExprCode, ExprSize, StmtsSize, At, InstrAt;
    var body := at + ExprSize(s.cond) + 1;
    IfLayout(m.code, at, s.cond, s.body, brk);
    CondRuns(m, fuel, at, s.cond, body + StmtsSize(s.body), stack, w);
    var r := EvalExpr(fuel, m.ops, s.cond, Under(stack), m.frames, w);
    assert stack + [] == stack;
    if r.Val? && !Falsy(r.v) {
      StmtsRun(m, fuel, body, brk, s.body, stack, r.w);
    }
  }

  lemma {:induction false} IfElseRuns(m: Ctx, fuel: nat, at: nat, brk: nat, s: Stmt, stack: seq<Value>, w: World)
    requires Ready(m, stack) && At(m.code, at, StmtCode(s, at, brk)) && s.IfElse?
    ensures StmtAgrees(m, m.go(fuel, at, stack, w), at + StmtSize(s), brk, stack,
                       EvalStmt(fuel, m.ops, s, Under(stack), m.frames, w))
    decreases fuel, s, 1
  {
    hide EvalExpr, EvalStmts, StmtCode, StmtsCode, ExprCode, ExprSize, StmtsSize, At, InstrAt;
    var body := at + ExprSize(s.cond) + 1;
    var orelse := body + StmtsSize(s.body) + 1;
    IfElseLayout(m.code, at, s.cond, s.body, s.orelse, brk);
    CondRuns(m, fuel, at, s.cond, orelse, stack, w);
    var r := EvalExpr(fuel, m.ops, s.cond, Under(stack), m.frames, w);
    if r.Val? && r.v != Null {
      if Falsy(r.v) {
        StmtsRun(m, fuel, orelse, brk, s.orelse, stack, r.w);
      } else {
        StmtsSkip(m, fuel, body, brk, s.body, orelse + StmtsSize(s.orelse), stack, r.w);
      }
    }
  }

  /** Statements followed by a forward jump end where the jump leads. */
  lemma {:induction false} SkipRuns(m: Ctx, out: Outcome, pc: nat, end: nat, brk: nat, stack: seq<Value>, r: StmtResult)
    requires Ready(m, stack) && InstrAt(m.code, pc, Jump(end)) && end > pc
    requires StmtAgrees(m, out, pc, brk, stack, r)
    ensures StmtAgrees(m, out, end, brk, stack, r)
  {
    hide At, InstrAt;
    if r.Next? {
      JumpRuns(m, r.fuel, pc, end, stack + r.left, r.w);
    }
  }

  lemma {:induction false} StmtsSkip(m: Ctx, fuel: nat, at: nat, brk: nat, ss: seq<Stmt>, end: nat, stack: seq<Value>, w: World)
    requires Ready(m, stack) && At(m.code, at, StmtsCode(ss, at, brk))
    requires InstrAt(m.code, at + StmtsSize(ss), Jump(end)) && end > at + StmtsSize(ss)
    ensures StmtAgrees(m, m.go(fuel, at, stack, w), end, brk, stack,
                       EvalStmts(fuel, m.ops, ss, Under(stack), m.frames, w))
    decreases fuel, ss, 1
  {
    hide At, InstrAt;
    StmtsRun(m, fuel, at, brk, ss, stack, w);
    SkipRuns(m, m.go(fuel, at, stack, w), at + StmtsSize(ss), end, brk, stack,
             EvalStmts(fuel, m.ops, ss, Under(stack), m.frames, w));
  }

  lemma {:induction false} WhileRuns(m: Ctx, fuel: nat, at: nat, brk: nat, s: Stmt, stack: seq<Value>, w: World)
    requires Ready(m, stack) && At(m.code, at, StmtCode(s, at, brk)) && s.While?
    ensures StmtAgrees(m, m.go(fuel, at, stack, w), at + StmtSize(s), brk, stack,
                       EvalStmt(fuel, m.ops, s, Under(stack), m.frames, w))
    decreases fuel, s, 1
  {
    hide EvalExpr, EvalStmts, Iterate, StmtCode, StmtsCode, ExprCode, ExprSize, StmtsSize, At, InstrAt;
    var body := at + ExprSize(s.cond) + 1;
    var end := body + StmtsSize(s.body) + 1;
    WhileLayout(m.code, at, s.cond, s.body, brk);
    CondRuns(m, fuel, at, s.cond, end, stack, w);
    assert stack + [] == stack;
    var r := EvalExpr(fuel, m.ops, s.cond, Under(stack), m.frames, w);
    if r.Val? && r.v != Null && !Falsy(r.v) {
      IterateRuns(m, fuel, at, brk, s, stack, r.w);
    }
  }

  lemma {:induction false} IterateRuns(m: Ctx, fuel: nat, at: nat, brk: nat, s: Stmt, stack: seq<Value>, w: World)
    requires Ready(m, stack) && At(m.code, at, StmtCode(s, at, brk)) && s.While?
    ensures StmtAgrees(m, m.go(fuel, at + ExprSize(s.cond) + 1, stack, w), at + StmtSize(s), brk, stack,
                       Iterate(fuel, m.ops, s, Under(stack), m.frames, w))
    decreases fuel, s, 0
  {
    hide EvalStmt, EvalStmts, StmtCode, StmtsCode, ExprCode, At, InstrAt;
    var body := at + ExprSize(s.cond) + 1;
    var end := body + StmtsSize(s.body) + 1;
    WhileLayout(m.code, at, s.cond, s.body, brk);
    StmtsRun(m, fuel, body, end, s.body, stack, w);
    var b := EvalStmts(fuel, m.ops, s.body, Under(stack), m.frames, w);
    if b.Next? {
      JumpRuns(m, b.fuel, end - 1, at, stack + b.left, b.w);
      if b.fuel > 0 {
        StmtRuns(m, b.fuel - 1, at, brk, s, stack + b.left, b.w);
        PrefixedAgrees(m, m.go(b.fuel - 1, at, stack + b.left, b.w), end, brk, stack, b.left,
                       EvalStmt(b.fuel - 1, m.ops, s, TopOr(b.left, Under(stack)), m.frames, b.w));
      }
    }
  }

  lemma {:induction false} MatchRuns(m: Ctx, fuel: nat, at: nat, brk: nat, s: Stmt, stack: seq<Value>, w: World)
    requires Ready(m, stack) && At(m.code, at, StmtCode(s, at, brk)) && s.Match?
    ensures StmtAgrees(m, m.go(fuel, at, stack, w), at + StmtSize(s), brk, stack,
                       EvalStmt(fuel, m.ops, s, Under(stack), m.frames, w))
    decreases fuel, s, 1
  {
    hide EvalExpr, EvalArms, StmtCode, ExprCode, ExprSize, ArmsCode, ArmsSize, At, InstrAt;
    var first := at + ExprSize(s.e);
    MatchLayout(m.code, at, s.e, s.arms, brk);
    ExprRuns(m, fuel, at, s.e, stack, w);
    var r := EvalExpr(fuel, m.ops, s.e, Under(stack), m.frames, w);
    if r.Val? {
      ArmsRun(m, fuel, first, first + ArmsSize(s.arms), brk, s.arms, stack, [r.v], r.w);
    }
  }

  lemma {:induction false} PrefixedAgrees(m: Ctx, out: Outcome, end: nat, brk: nat, stack: seq<Value>, left: seq<Value>, r: StmtResult)
    requires StmtAgrees(m, out, end, brk, stack + left, r)
    ensures StmtAgrees(m, out, end, brk, stack, Prefixed(left, r))
  {
    if r.Next? || r.Broke? {
      assert stack + left + r.left == stack + (left + r.left);
    }
  }

  lemma {:induction false} StmtsRun(m: Ctx, fuel: nat, at: nat, brk: nat, ss: seq<Stmt>, stack: seq<Value>, w: World)
    requires Ready(m, stack) && At(m.code, at, StmtsCode(ss, at, brk))
    ensures StmtAgrees(m, m.go(fuel, at, stack, w), at + StmtsSize(ss), brk, stack,
                       EvalStmts(fuel, m.ops, ss, Under(stack), m.frames, w))
    decreases fuel, ss, 0
  {
    hide EvalStmt, StmtCode, StmtSize, StmtsCode, At, InstrAt;
    if ss == [] {
      assert stack + [] == stack;
    } else {
      var mid := at + StmtSize(ss[0]);
      StmtsLayout(m.code, at, ss, brk);
      StmtRuns(m, fuel, at, brk, ss[0], stack, w);
      var r := EvalStmt(fuel, m.ops, ss[0], Under(stack), m.frames, w);
      if r.Next? {
        StmtsRun(m, r.fuel, mid, brk, ss[1..], stack + r.left, r.w);
        PrefixedAgrees(m, m.go(r.fuel, mid, stack + r.left, r.w), at + StmtsSize(ss), brk, stack, r.left,
                       EvalStmts(r.fuel, m.ops, ss[1..], TopOr(r.left, Under(stack)), m.frames, r.w));
      }
    }
  }

  lemma {:induction false} ArmsRun(m: Ctx, fuel: nat, at: nat, end: nat, brk: nat, arms: seq<Arm>,
                                   stack: seq<Value>, held: seq<Value>, w: World)
    requires Ready(m, stack) && held != [] && At(m.code, at, ArmsCode(arms, at, end, brk))
    requires end == at + ArmsSize(arms)
    ensures StmtAgrees(m, m.go(fuel, at, stack + held, w), end, brk, stack,
                       EvalArms(fuel, m.ops, arms, held, Under(stack), m.frames, w))
    decreases fuel, arms, 0
  {
    hide MatchTest, TakeArm, PatCode, PatSize, StmtsCode, ArmsCode, ArmCode, BindsSize, PatVars, Run, At, InstrAt;
    if arms == [] { return; }
    var next := at + ArmSize(arms[0]);
    var v, below := Last(held), stack + Init(held);
    ArmsLayout(m.code, at, arms, end, brk);
    assert stack + held == below + [v];
    PatRuns(m, fuel, at, arms[0].test, next, below, v, w);
    var r := MatchTest(fuel, m.ops, arms[0].test, v, m.frames, w);
    if r.Mismatch? {
      assert below + [v] + r.left == stack + (held + r.left);
      ArmsRun(m, fuel, next, end, brk, arms[1..], stack, held + r.left, r.w);
    } else if r.Matched? {
      ArmBodyRuns(m, fuel, at, end, brk, arms[0], stack, held, r.w);
    }
  }

  lemma {:induction false} ArmBodyRuns(m: Ctx, fuel: nat, at: nat, end: nat, brk: nat, arm: Arm,
                                       stack: seq<Value>, held: seq<Value>, w: World)
    requires Ready(m, stack) && held != [] && ArmAt(m.code, at, arm, end, brk) && end >= at + ArmSize(arm)
    ensures StmtAgrees(m, m.go(fuel, at + PatSize(arm.test), stack + held, w), end, brk, stack,
                       TakeArm(fuel, m.ops, arm, held, Under(stack), m.frames, w))
    decreases fuel, arm, 0
  {
    hide EvalStmts, BindVars, PatCode, PatSize, StmtsCode, StmtsSize, BindsCode, BindsSize, PatVars;
    var vars := PatVars(arm.test, []);
    var binds := at + PatSize(arm.test);
    var body := binds + BindsSize(vars) + 1;
    var v, below := Last(held), stack + Init(held);
    assert stack + held == below + [v];
    BindsRun(m, fuel, binds, vars, below, v, w);
    var b := BindVars(m.ops, vars, v, m.frames, w);
    if b.Some? {
      PopRuns(m, fuel, body - 1, below, v, b.value);
      if v != Null {
        StmtsSkip(m, fuel, body, brk, arm.body, end, below, b.value);
        PrefixedAgrees(m, m.go(fuel, body, below, b.value), end, brk, stack, Init(held),
                       EvalStmts(fuel, m.ops, arm.body, TopOr(Init(held), Under(stack)), m.frames, b.value));
      }
    }
  }
}
