/** The evaluator gives a meaning to everything the compiler accepts within the operand
    limits: it stops with `Unsupported` for no function it agrees to call. */
module Coverage {
  import opened Options
  import opened Syntax
  import opened Semantics
  import opened Acceptance
  import opened Evaluator
  import Codegen

  /** The evaluator meets nothing that the compiler refuses in functions it accepts, and takes a caller's operand for one
      reason only: a call with fewer arguments than parameters, above an operand. */
  predicate Expected(ops: Ops, why: Failure) {
    && why != Unsupported && why != Underflow && (why.NotCompiled? ==> !ops.loaded(why.fn) || !FnOk(why.fn, true))
    && (why.Missing? ==> why.given < |why.fn.params| && why.under.Some?)
  }

  predicate Fine(ops: Ops, r: ExprResult) { r.ExprStop? ==> Expected(ops, r.why) }

  predicate StmtFine(ops: Ops, r: StmtResult, inLoop: bool) {
    (r.StmtStop? ==> Expected(ops, r.why)) && (r.Broke? ==> inLoop)
  }

  lemma {:induction false} CallCovered(fuel: nat, ops: Ops, under: Option<Value>, frames: seq<Frame>, target: Value, args: seq<Value>, w: World)
    ensures var r := CallFunction(fuel, ops, under, frames, target, args, w); r.Stop? ==> Expected(ops, r.why)
    decreases fuel
  {
    hide EvalStmts;
    if target.Method? || target.Closure? {
      if ops.loaded(target.fn) && FnOk(target.fn, true) {
        var (frame, w1) := NewFrame(target.fn, if target.Closure? then target.bindings else map[], w);
        BindCovered(frame, target.fn.params, args, under, w1);
        var b := BindParams(frame, target.fn.params, args, under, w1);
        if b.Bound? {
          StmtsCovered(fuel, ops, target.fn.body, false, TopOr(b.surplus, under), frames + [frame], b.w);
        }
      }
    } else {
      NativeCovered(fuel, ops, under, frames, ops.native(w.heap, target, args), w);
    }
  }

  lemma {:induction false} BindCovered(frame: Frame, params: seq<Name>, args: seq<Value>, under: Option<Value>, w: World)
    ensures match BindParams(frame, params, args, under, w)
            case BindStop(why) => why == Abort || (why == Underflow && |args| < |params| && under.Some?)
            case Bound(_, _) => true
    decreases |params|
  {
    if params != [] && (args != [] || under.None?) {
      var s := Store(frame, Last(params), if args == [] then Nil else Last(args), w);
      if s.Some? {
        BindCovered(frame, Init(params), if args == [] then [] else Init(args), under, s.value);
      }
    }
  }

  lemma {:induction false} NativeCovered(fuel: nat, ops: Ops, under: Option<Value>, frames: seq<Frame>, act: NativeAct, w: World)
    ensures var r := EvalNative(fuel, ops, under, frames, act, w); r.Stop? ==> Expected(ops, r.why)
    decreases fuel, 0
  {
    if act.Invoke? && fuel > 0 {
      var w1 := World(w.cells, act.heap);
      CallCovered(fuel - 1, ops, under, frames, act.target, act.args, w1);
      var r := CallFunction(fuel - 1, ops, under, frames, act.target, act.args, w1);
      if r.Done? && r.v != Null {
        NativeCovered(fuel - 1, ops, under, frames, ops.resume(r.w.heap, act.saved, r.v), r.w);
      }
    }
  }

  lemma {:induction false} ApplyCovered(fuel: nat, ops: Ops, site: Expr, under: Option<Value>, frames: seq<Frame>, target: Value, args: seq<Value>, w: World)
    requires frames != [] && |args| <= 255
    ensures Fine(ops, Apply(fuel, ops, site, under, frames, target, args, w))
    decreases fuel, site, 0
  {
    if target != Null && fuel > 0 {
      CallCovered(fuel - 1, ops, under, frames, target, args, w);
    }
  }

  lemma {:induction false} ExprCovered(fuel: nat, ops: Ops, e: Expr, under: Option<Value>, frames: seq<Frame>, w: World)
    requires frames != [] && ExprOk(e, true)
    ensures Fine(ops, EvalExpr(fuel, ops, e, under, frames, w))
    decreases fuel, e, 2
  {
    hide CallFunction, EvalExprs, Apply, FnOk;
    match e
    case ArrayLit(items) => ExprsCovered(fuel, ops, items, under, frames, w);
    case HashLit(items) => ExprsCovered(fuel, ops, items, under, frames, w);
    case CallExpr(t, args) =>
      ExprCovered(fuel, ops, t, under, frames, w);
      var r := EvalExpr(fuel, ops, t, under, frames, w);
      if r.Val? {
        ExprsCovered(fuel, ops, args, Some(r.v), frames, r.w);
        var rs := EvalExprs(fuel, ops, args, Some(r.v), frames, r.w);
        if rs.Vals? {
          ApplyCovered(fuel, ops, e, under, frames, r.v, rs.vs, rs.w);
        }
      }
    case GetAttrExpr(t, _) => ExprCovered(fuel, ops, t, under, frames, w);
    case GetItemExpr(t, k) =>
      ExprCovered(fuel, ops, t, under, frames, w);
      var r := EvalExpr(fuel, ops, t, under, frames, w);
      if r.Val? { ExprCovered(fuel, ops, k, Some(r.v), frames, r.w); }
    case NotExpr(x) => ExprCovered(fuel, ops, x, under, frames, w);
    case Binary(op, l, r) =>
      ExprCovered(fuel, ops, l, under, frames, w);
      var lr := EvalExpr(fuel, ops, l, under, frames, w);
      if lr.Val? {
        ExprCovered(fuel, ops, r, if op.And? || op.Or? then under else Some(lr.v), frames, lr.w);
      }
    case SpawnExpr(t, args) =>
      ExprCovered(fuel, ops, t, under, frames, w);
      var r := EvalExpr(fuel, ops, t, under, frames, w);
      if r.Val? {
        var task := NonNull(r.w.cells, ops.spawn(r.w.heap, r.v));
        if task.Val? { SendCovered(fuel, ops, e, task.v, frames, task.w); }
      }
    case _ =>
  }

  lemma {:induction false} SendCovered(fuel: nat, ops: Ops, e: Expr, task: Value, frames: seq<Frame>, w: World)
    requires frames != [] && e.SpawnExpr? && ExprOk(e, true)
    ensures Fine(ops, SendArgs(fuel, ops, e, task, frames, w))
    decreases fuel, e, 1
  {
    hide CallFunction, EvalExprs, Apply, FnOk;
    var s := NonNull(w.cells, ops.getattr(w.heap, task, "send"));
    if s.Val? {
      ExprsCovered(fuel, ops, e.args, Some(s.v), frames, s.w);
      var rs := EvalExprs(fuel, ops, e.args, Some(s.v), frames, s.w);
      if rs.Vals? {
        var a := MakeArrayValue(rs.vs, rs.w);
        if a.Val? { ApplyCovered(fuel, ops, e, Some(task), frames, s.v, [a.v], a.w); }
      }
    }
  }

  lemma {:induction false} ExprsCovered(fuel: nat, ops: Ops, es: seq<Expr>, under: Option<Value>, frames: seq<Frame>, w: World)
    requires frames != [] && ExprsOk(es, true)
    ensures var r := EvalExprs(fuel, ops, es, under, frames, w); r.ListStop? ==> Expected(ops, r.why)
    decreases fuel, es, 0
  {
    if es != [] {
      ExprCovered(fuel, ops, es[0], under, frames, w);
      var r := EvalExpr(fuel, ops, es[0], under, frames, w);
      if r.Val? { ExprsCovered(fuel, ops, es[1..], Some(r.v), frames, r.w); }
    }
  }

  lemma {:induction false} StmtCovered(fuel: nat, ops: Ops, s: Stmt, inLoop: bool, under: Option<Value>, frames: seq<Frame>, w: World)
    requires frames != [] && StmtOk(s, inLoop, true)
    ensures StmtFine(ops, EvalStmt(fuel, ops, s, under, frames, w), inLoop)
    decreases fuel, s, 1
  {
    assert Expected(ops, Abort);
    hide Expected, Store, StmtsOk, ExprOk, ArmsOk;
    hide EvalExpr, EvalStmts, EvalArms, Iterate, FnOk;
    match s
    case ExprStmt(e) => ExprCovered(fuel, ops, e, under, frames, w);
    case Assign(_, e) => ExprCovered(fuel, ops, e, under, frames, w);
    case VarInit(_, e) => ExprCovered(fuel, ops, e, under, frames, w);
    case Ret(e) => ExprCovered(fuel, ops, e, under, frames, w);
    case If(c, b) =>
      ExprCovered(fuel, ops, c, under, frames, w);
      var r := EvalExpr(fuel, ops, c, under, frames, w);
      if r.Val? { StmtsCovered(fuel, ops, b, inLoop, under, frames, r.w); }
    case IfElse(c, b, o) =>
      ExprCovered(fuel, ops, c, under, frames, w);
      var r := EvalExpr(fuel, ops, c, under, frames, w);
      if r.Val? { StmtsCovered(fuel, ops, if Falsy(r.v) then o else b, inLoop, under, frames, r.w); }
    case While(c, b) =>
      ExprCovered(fuel, ops, c, under, frames, w);
      var r := EvalExpr(fuel, ops, c, under, frames, w);
      if r.Val? { IterateCovered(fuel, ops, s, inLoop, under, frames, r.w); }
    case Match(e, arms) =>
      ExprCovered(fuel, ops, e, under, frames, w);
      var r := EvalExpr(fuel, ops, e, under, frames, w);
      if r.Val? { ArmsCovered(fuel, ops, arms, inLoop, [r.v], under, frames, r.w); }
    case _ =>
  }

  lemma {:induction false} IterateCovered(fuel: nat, ops: Ops, s: Stmt, inLoop: bool, under: Option<Value>, frames: seq<Frame>, w: World)
    requires frames != [] && s.While? && StmtOk(s, inLoop, true)
    ensures StmtFine(ops, Iterate(fuel, ops, s, under, frames, w), inLoop)
    decreases fuel, s, 0
  {
    hide EvalStmt, EvalStmts;
    StmtsCovered(fuel, ops, s.body, true, under, frames, w);
    var r := EvalStmts(fuel, ops, s.body, under, frames, w);
    if r.Next? && r.fuel > 0 {
      StmtCovered(r.fuel - 1, ops, s, inLoop, TopOr(r.left, under), frames, r.w);
    }
  }

  lemma {:induction false} StmtsCovered(fuel: nat, ops: Ops, ss: seq<Stmt>, inLoop: bool, under: Option<Value>, frames: seq<Frame>, w: World)
    requires frames != [] && StmtsOk(ss, inLoop, true)
    ensures StmtFine(ops, EvalStmts(fuel, ops, ss, under, frames, w), inLoop)
    decreases fuel, ss, 0
  {
    hide EvalStmt;
    if ss != [] {
      StmtCovered(fuel, ops, ss[0], inLoop, under, frames, w);
      var r := EvalStmt(fuel, ops, ss[0], under, frames, w);
      if r.Next? {
        StmtsCovered(r.fuel, ops, ss[1..], inLoop, TopOr(r.left, under), frames, r.w);
      }
    }
  }

  lemma {:induction false} ArmsCovered(fuel: nat, ops: Ops, arms: seq<Arm>, inLoop: bool, held: seq<Value>, under: Option<Value>, frames: seq<Frame>, w: World)
    requires frames != [] && held != [] && ArmsOk(arms, inLoop, true)
    ensures StmtFine(ops, EvalArms(fuel, ops, arms, held, under, frames, w), inLoop)
    decreases fuel, arms, 0
  {
    hide MatchTest, EvalStmts;
    if arms != [] {
      PatCovered(fuel, ops, arms[0].test, 0, Last(held), frames, w);
      var r := MatchTest(fuel, ops, arms[0].test, Last(held), frames, w);
      if r.Mismatch? {
        ArmsCovered(fuel, ops, arms[1..], inLoop, held + r.left, under, frames, r.w);
      } else if r.Matched? {
        var b := BindVars(ops, Codegen.PatVars(arms[0].test, []), Last(held), frames, r.w);
        if b.Some? { StmtsCovered(fuel, ops, arms[0].body, inLoop, TopOr(Init(held), under), frames, b.value); }
      }
    }
  }

  lemma {:induction false} PatCovered(fuel: nat, ops: Ops, p: Expr, depth: nat, v: Value, frames: seq<Frame>, w: World)
    requires frames != [] && PatOk(p, depth)
    ensures var r := MatchTest(fuel, ops, p, v, frames, w); r.MatchStop? ==> Expected(ops, r.why)
    decreases fuel, p, 3
  {
    hide MatchItems, MatchPairs, HasSize;
    if p.ArrayLit? || p.HashLit? {
      var c := HasClass(ops, v, Resolve(ops, Last(frames), if p.ArrayLit? then "array" else "hash", w), w);
      if c.Matched? {
        var n := if p.ArrayLit? then |p.items| else |p.items| / 2;
        SizeCovered(fuel, ops, p, v, n, frames, c.w);
        var s := HasSize(fuel, ops, p, v, n, frames, c.w);
        if s.Matched? {
          if p.ArrayLit? {
            ItemsCovered(fuel, ops, p.items, depth + 1, 0, v, frames, s.w);
          } else {
            PairsCovered(fuel, ops, p.items, depth + 1, v, frames, s.w);
          }
        }
      }
    }
  }

  lemma {:induction false} SizeCovered(fuel: nat, ops: Ops, site: Expr, v: Value, n: nat, frames: seq<Frame>, w: World)
    requires frames != []
    ensures var r := HasSize(fuel, ops, site, v, n, frames, w); r.MatchStop? ==> Expected(ops, r.why)
    decreases fuel, site, 1
  {
    hide Apply;
    var g := NonNull(w.cells, ops.getattr(w.heap, v, "size"));
    if g.Val? { ApplyCovered(fuel, ops, site, Some(v), frames, g.v, [], g.w); }
  }

  lemma {:induction false} ItemsCovered(fuel: nat, ops: Ops, ps: seq<Expr>, depth: nat, i: nat, v: Value, frames: seq<Frame>, w: World)
    requires frames != [] && ItemsOk(ps, depth)
    ensures var r := MatchItems(fuel, ops, ps, i, v, frames, w); r.MatchStop? ==> Expected(ops, r.why)
    decreases fuel, ps, 0
  {
    hide MatchTest;
    if ps != [] {
      var x := NonNull(w.cells, ops.getitem(w.heap, v, Int(i)));
      if x.Val? {
        PatCovered(fuel, ops, ps[0], depth, x.v, frames, x.w);
        var r := MatchItem(fuel, ops, ps[0], x.v, frames, x.w);
        if r.Matched? { ItemsCovered(fuel, ops, ps[1..], depth, i + 1, v, frames, r.w); }
      }
    }
  }

  lemma {:induction false} PairsCovered(fuel: nat, ops: Ops, ps: seq<Expr>, depth: nat, v: Value, frames: seq<Frame>, w: World)
    requires frames != [] && PairsOk(ps, depth)
    ensures var r := MatchPairs(fuel, ops, ps, v, frames, w); r.MatchStop? ==> Expected(ops, r.why)
    decreases fuel, ps, 0
  {
    hide MatchTest;
    if |ps| >= 2 && Codegen.KeyConst(ps[0]) != Null {
      var x := NonNull(w.cells, ops.getitem(w.heap, v, Codegen.KeyConst(ps[0])));
      if x.Val? {
        PatCovered(fuel, ops, ps[1], depth, x.v, frames, x.w);
        var r := MatchValue(fuel, ops, ps[1], x.v, frames, x.w);
        if r.Matched? { PairsCovered(fuel, ops, ps[2..], depth, v, frames, r.w); }
      }
    }
  }
}
