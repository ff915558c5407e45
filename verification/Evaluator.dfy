/** A direct evaluator of the syntax tree: what a program means, with no code, addresses or
    operand stack.

    Two things leak from the machine into the language, and the evaluator states them openly.
    `under` is the operand that lies just below the node being evaluated, if any: a function
    that runs off its end returns it. A statement's residue (`left`) lists the operands it
    leaves behind: a `match` in which no arm matches never drops its scrutinee, and a failing
    hash pattern never drops the value it extracted. */
module Evaluator {
  import opened Options
  import opened Syntax
  import opened Semantics
  import opened Codegen
  import opened Acceptance

  datatype ExprResult = Val(v: Value, w: World) | ExprStop(why: Failure)

  datatype ListResult = Vals(vs: seq<Value>, w: World) | ListStop(why: Failure)

  /** `fuel` is what remains for further loop iterations of the same function. */
  datatype StmtResult =
    | Next(left: seq<Value>, w: World, fuel: nat)
    | Broke(left: seq<Value>, w: World, fuel: nat)
    | Returned(v: Value, w: World)
    | StmtStop(why: Failure)

  datatype MatchResult = Matched(w: World) | Mismatch(left: seq<Value>, w: World) | MatchStop(why: Failure)

  datatype BindResult = Bound(surplus: seq<Value>, w: World) | BindStop(why: Failure)

  function Prefixed(left: seq<Value>, r: StmtResult): (r': StmtResult)
    ensures r'.Next? <==> r.Next?
    ensures r'.Broke? <==> r.Broke?
    ensures r'.Next? || r'.Broke? ==> r'.fuel == r.fuel
  {
    match r
    case Next(l, w, f) => Next(left + l, w, f)
    case Broke(l, w, f) => Broke(left + l, w, f)
    case _ => r
  }

  function NonNull(cells: seq<Value>, r: (Heap, Value)): ExprResult {
    if r.1 == Null then ExprStop(Abort) else Val(r.1, World(cells, r.0))
  }

  function EvalExpr(fuel: nat, ops: Ops, e: Expr, under: Option<Value>, frames: seq<Frame>, w: World): ExprResult
    requires frames != []
    decreases fuel, e, 2
  {
    match e
    case Lit(v) => if v == Null then ExprStop(Abort) else Val(v, w)
    case NilLit => Val(Nil, w)
    case Ident(id) =>
      (match Resolve(ops, Last(frames), id, w)
       case None => ExprStop(Abort)
       case Some(v) => Val(v, w))
    case ArrayLit(items) =>
      (match EvalExprs(fuel, ops, items, under, frames, w)
       case ListStop(why) => ExprStop(why)
       case Vals(vs, w') => MakeArrayValue(vs, w'))
    case HashLit(items) =>
      (match EvalExprs(fuel, ops, items, under, frames, w)
       case ListStop(why) => ExprStop(why)
       case Vals(vs, w') => MakeHashValue(ops, vs, w'))
    case CallExpr(t, args) =>
      (match EvalExpr(fuel, ops, t, under, frames, w)
       case ExprStop(why) => ExprStop(why)
       case Val(target, w1) =>
         match EvalExprs(fuel, ops, args, Some(target), frames, w1)
         case ListStop(why) => ExprStop(why)
         case Vals(vs, w2) => Apply(fuel, ops, e, under, frames, target, vs, w2))
    case GetAttrExpr(t, attr) =>
      (match EvalExpr(fuel, ops, t, under, frames, w)
       case ExprStop(why) => ExprStop(why)
       case Val(v, w1) => if v == Null then ExprStop(Abort) else NonNull(w1.cells, ops.getattr(w1.heap, v, attr)))
    case GetItemExpr(t, k) =>
      (match EvalExpr(fuel, ops, t, under, frames, w)
       case ExprStop(why) => ExprStop(why)
       case Val(v, w1) =>
         match EvalExpr(fuel, ops, k, Some(v), frames, w1)
         case ExprStop(why) => ExprStop(why)
         case Val(key, w2) =>
           if v == Null || key == Null then ExprStop(Abort) else NonNull(w2.cells, ops.getitem(w2.heap, v, key)))
    case NotExpr(x) =>
      (match EvalExpr(fuel, ops, x, under, frames, w)
       case ExprStop(why) => ExprStop(why)
       case Val(v, w1) => if v == Null then ExprStop(Abort) else Val(Bool(Falsy(v)), w1))
    case Binary(op, l, r) =>
      (match EvalExpr(fuel, ops, l, under, frames, w)
       case ExprStop(why) => ExprStop(why)
       case Val(lv, w1) =>
         if op.And? || op.Or? then
           if lv == Null then ExprStop(Abort)
           else if Falsy(lv) == op.And? then Val(lv, w1)
           else EvalExpr(fuel, ops, r, under, frames, w1)
         else
           match EvalExpr(fuel, ops, r, Some(lv), frames, w1)
           case ExprStop(why) => ExprStop(why)
           case Val(rv, w2) => Combine(ops, op, lv, rv, w2))
    case FnExpr(fn) => FnValue(ops, fn, frames, w)
    case SpawnExpr(t, args) =>
      (match EvalExpr(fuel, ops, t, under, frames, w)
       case ExprStop(why) => ExprStop(why)
       case Val(v, w1) =>
         if v == Null || v.Closure? then ExprStop(Abort) else
         match NonNull(w1.cells, ops.spawn(w1.heap, v))
         case ExprStop(why) => ExprStop(why)
         case Val(task, w2) => SendArgs(fuel, ops, e, task, frames, w2))
    case Wildcard => ExprStop(Unsupported)
  }

  /** The part of a spawn that sends the new task its arguments. */
  function SendArgs(fuel: nat, ops: Ops, e: Expr, task: Value, frames: seq<Frame>, w: World): ExprResult
    requires frames != [] && e.SpawnExpr?
    decreases fuel, e, 1
  {
    match NonNull(w.cells, ops.getattr(w.heap, task, "send"))
    case ExprStop(why) => ExprStop(why)
    case Val(send, w1) =>
      match EvalExprs(fuel, ops, e.args, Some(send), frames, w1)
      case ListStop(why) => ExprStop(why)
      case Vals(vs, w2) =>
        match MakeArrayValue(vs, w2)
        case ExprStop(why) => ExprStop(why)
        case Val(message, w3) =>
          match Apply(fuel, ops, e, Some(task), frames, send, [message], w3)
          case ExprStop(why) => ExprStop(why)
          case Val(_, w4) => Val(task, w4)
  }

  /** Left to right; each operand lies under the next. */
  function EvalExprs(fuel: nat, ops: Ops, es: seq<Expr>, under: Option<Value>, frames: seq<Frame>, w: World): (r: ListResult)
    requires frames != []
    ensures r.Vals? ==> |r.vs| == |es|
    decreases fuel, es, 0
  {
    if es == [] then Vals([], w) else
    match EvalExpr(fuel, ops, es[0], under, frames, w)
    case ExprStop(why) => ListStop(why)
    case Val(v, w1) =>
      match EvalExprs(fuel, ops, es[1..], Some(v), frames, w1)
      case ListStop(why) => ListStop(why)
      case Vals(vs, w2) => Vals([v] + vs, w2)
  }

  function MakeArrayValue(vs: seq<Value>, w: World): ExprResult {
    if |vs| > 255 then ExprStop(Unsupported)
    else if Null in vs then ExprStop(Abort)
    else Val(Object(|w.heap|), World(w.cells, w.heap + [ArrayObj(vs)]))
  }

  /** Pairs are put from the last to the first, so an earlier pair overrides a later one. */
  function HashPairs(ops: Ops, h: Heap, vs: seq<Value>, acc: seq<(Value, Value)>): Option<seq<(Value, Value)>> {
    if |vs| < 2 then Some(acc) else
    var key, value := vs[|vs| - 2], vs[|vs| - 1];
    if value == Null || key == Null || key == Nil then None else
    match HashPut(ops, h, acc, key, value)
    case None => None
    case Some(acc') => HashPairs(ops, h, vs[..|vs| - 2], acc')
  }

  function MakeHashValue(ops: Ops, vs: seq<Value>, w: World): ExprResult {
    if |vs| > 511 || |vs| % 2 != 0 then ExprStop(Unsupported) else
    match HashPairs(ops, w.heap, vs, [])
    case None => ExprStop(Abort)
    case Some(pairs) => Val(Object(|w.heap|), World(w.cells, w.heap + [HashObj(pairs)]))
  }

  function Combine(ops: Ops, op: BinOp, l: Value, r: Value, w: World): ExprResult
    requires op.Compare? || op.Arith?
  {
    if l == Null || r == Null then ExprStop(Abort) else
    match op
    case Compare(c) =>
      (match CompareValues(ops, c, l, r, w)
       case None => ExprStop(Abort)
       case Some(b) => Val(b, w))
    case Arith(a) =>
      (match ops.arith(w.heap, a, l, r)
       case None => ExprStop(Abort)
       case Some((h, v)) => Val(v, World(w.cells, h)))
  }

  /** A function literal without free names is the method itself. */
  function FnValue(ops: Ops, fn: FnDecl, frames: seq<Frame>, w: World): ExprResult
    requires frames != []
  {
    if fn.freevars == [] then Val(Method(fn), w) else
    match CaptureAll(ops, frames, fn.freevars, w)
    case None => ExprStop(Abort)
    case Some(m) => Val(Closure(fn, m), w)
  }

  /** Call `target` from the node `site`; the result must not be the null pointer. */
  function Apply(fuel: nat, ops: Ops, ghost site: Expr, under: Option<Value>, frames: seq<Frame>, target: Value, args: seq<Value>, w: World): ExprResult
    requires frames != []
    decreases fuel, site, 0
  {
    if |args| > 255 then ExprStop(Unsupported)
    else if target == Null then ExprStop(Abort)
    else if fuel == 0 then ExprStop(OutOfFuel)
    else match CallFunction(fuel - 1, ops, under, frames, target, args, w)
         case Stop(why) => ExprStop(why)
         case Done(v, w') => if v == Null then ExprStop(Abort) else Val(v, w')
  }

  /** Store arguments into parameters, last one first. Surplus arguments stay behind as
      residue; a missing one is taken from below, or is nil when nothing lies below. */
  function BindParams(frame: Frame, params: seq<Name>, args: seq<Value>, under: Option<Value>, w: World): BindResult {
    if params == [] then Bound(args, w)
    else if args == [] && under.Some? then BindStop(Underflow)
    else
      match Store(frame, Last(params), if args == [] then Nil else Last(args), w)
      case None => BindStop(Abort)
      case Some(w') => BindParams(frame, Init(params), if args == [] then [] else Init(args), under, w')
  }

  function CallFunction(fuel: nat, ops: Ops, under: Option<Value>, frames: seq<Frame>, target: Value, args: seq<Value>, w: World): Outcome
    decreases fuel
  {
    if target.Method? || target.Closure? then
      if !ops.loaded(target.fn) || !FnOk(target.fn, true) then Stop(NotCompiled(target.fn)) else
      var (frame, w1) := NewFrame(target.fn, if target.Closure? then target.bindings else map[], w);
      var out := match BindParams(frame, target.fn.params, args, under, w1)
                 case BindStop(why) => Stop(why)
                 case Bound(surplus, w2) => RunBody(fuel, ops, target.fn, surplus, under, frames + [frame], w2);
      OfCall(out, target.fn, |args|, under)
    else
      EvalNative(fuel, ops, under, frames, ops.native(w.heap, target, args), w)
  }

  /** A body that runs off its end yields the last operand left behind, or else whatever
      lies under the call, or else nil. */
  function RunBody(fuel: nat, ops: Ops, fn: FnDecl, surplus: seq<Value>, under: Option<Value>, frames: seq<Frame>, w: World): Outcome
    requires frames != []
    decreases fuel, fn
  {
    match EvalStmts(fuel, ops, fn.body, TopOr(surplus, under), frames, w)
    case StmtStop(why) => Stop(why)
    case Returned(v, w') => Done(v, w')
    case Broke(_, _, _) => Stop(Unsupported)
    case Next(left, w', _) =>
      match TopOr(surplus + left, under)
      case None => Done(Nil, w')
      case Some(v) => Done(v, w')
  }

  function EvalNative(fuel: nat, ops: Ops, under: Option<Value>, frames: seq<Frame>, act: NativeAct, w: World): Outcome
    decreases fuel, 0
  {
    match act
    case Finish(h, v) => Done(v, World(w.cells, h))
    case GiveUp => Stop(Abort)
    case Invoke(h, target, args, saved) =>
      if fuel == 0 then Stop(OutOfFuel) else
      match CallFunction(fuel - 1, ops, under, frames, target, args, World(w.cells, h))
      case Stop(why) => Stop(why)
      case Done(v, w') =>
        if v == Null then Stop(Abort)
        else EvalNative(fuel - 1, ops, under, frames, ops.resume(w'.heap, saved, v), w')
  }

  // ---------- statements ----------

  function StoreResult(frames: seq<Frame>, id: Name, r: ExprResult, fuel: nat): StmtResult
    requires frames != []
  {
    match r
    case ExprStop(why) => StmtStop(why)
    case Val(v, w) =>
      match Store(Last(frames), id, v, w)
      case None => StmtStop(Abort)
      case Some(w') => Next([], w', fuel)
  }

  function EvalStmt(fuel: nat, ops: Ops, s: Stmt, under: Option<Value>, frames: seq<Frame>, w: World): (r: StmtResult)
    requires frames != []
    ensures r.Next? || r.Broke? ==> r.fuel <= fuel
    decreases fuel, s, 1
  {
    match s
    case ExprStmt(e) =>
      (match EvalExpr(fuel, ops, e, under, frames, w)
       case ExprStop(why) => StmtStop(why)
       case Val(v, w') => if v == Null then StmtStop(Abort) else Next([], w', fuel))
    case Assign(id, e) => StoreResult(frames, id, EvalExpr(fuel, ops, e, under, frames, w), fuel)
    case VarDecl(_) => Next([], w, fuel)
    case VarInit(id, e) => StoreResult(frames, id, EvalExpr(fuel, ops, e, under, frames, w), fuel)
    case FuncDecl(id, fn) => StoreResult(frames, id, Val(Method(fn), w), fuel)
    case If(c, b) =>
      (match EvalExpr(fuel, ops, c, under, frames, w)
       case ExprStop(why) => StmtStop(why)
       case Val(v, w') =>
         if v == Null then StmtStop(Abort)
         else if Falsy(v) then Next([], w', fuel)
         else EvalStmts(fuel, ops, b, under, frames, w'))
    case IfElse(c, b, o) =>
      (match EvalExpr(fuel, ops, c, under, frames, w)
       case ExprStop(why) => StmtStop(why)
       case Val(v, w') =>
         if v == Null then StmtStop(Abort)
         else EvalStmts(fuel, ops, if Falsy(v) then o else b, under, frames, w'))
    case While(c, b) =>
      (match EvalExpr(fuel, ops, c, under, frames, w)
       case ExprStop(why) => StmtStop(why)
       case Val(v, w') =>
         if v == Null then StmtStop(Abort)
         else if Falsy(v) then Next([], w', fuel)
         else Iterate(fuel, ops, s, under, frames, w'))
    case Match(e, arms) =>
      (match EvalExpr(fuel, ops, e, under, frames, w)
       case ExprStop(why) => StmtStop(why)
       case Val(v, w') => EvalArms(fuel, ops, arms, [v], under, frames, w'))
    case RetNil => Returned(Nil, w)
    case Ret(e) =>
      (match EvalExpr(fuel, ops, e, under, frames, w)
       case ExprStop(why) => StmtStop(why)
       case Val(v, w') => Returned(v, w'))
    case Break => Broke([], w, fuel)
  }

  /** One iteration of a loop's body, and then the loop again. */
  function Iterate(fuel: nat, ops: Ops, s: Stmt, under: Option<Value>, frames: seq<Frame>, w: World): (r: StmtResult)
    requires frames != [] && s.While?
    ensures r.Next? || r.Broke? ==> r.fuel <= fuel
    decreases fuel, s, 0
  {
    match EvalStmts(fuel, ops, s.body, under, frames, w)
    case Broke(left, w1, f) => Next(left, w1, f)
    case Next(left, w1, f) =>
      if f == 0 then StmtStop(OutOfFuel)
      else Prefixed(left, EvalStmt(f - 1, ops, s, TopOr(left, under), frames, w1))
    case stop => stop
  }

  function EvalStmts(fuel: nat, ops: Ops, ss: seq<Stmt>, under: Option<Value>, frames: seq<Frame>, w: World): (r: StmtResult)
    requires frames != []
    ensures r.Next? || r.Broke? ==> r.fuel <= fuel
    decreases fuel, ss, 0
  {
    if ss == [] then Next([], w, fuel) else
    match EvalStmt(fuel, ops, ss[0], under, frames, w)
    case Next(left, w1, f1) => Prefixed(left, EvalStmts(f1, ops, ss[1..], TopOr(left, under), frames, w1))
    case other => other
  }

  /** Try the arms in turn on the last value of `held`: the scrutinee, followed by what
      failing hash patterns have abandoned on top of it. */
  function EvalArms(fuel: nat, ops: Ops, arms: seq<Arm>, held: seq<Value>, under: Option<Value>, frames: seq<Frame>, w: World): (r: StmtResult)
    requires frames != [] && held != []
    ensures r.Next? || r.Broke? ==> r.fuel <= fuel
    decreases fuel, arms, 0
  {
    if arms == [] then Next(held, w, fuel) else
    match MatchTest(fuel, ops, arms[0].test, Last(held), frames, w)
    case MatchStop(why) => StmtStop(why)
    case Mismatch(left, w1) => EvalArms(fuel, ops, arms[1..], held + left, under, frames, w1)
    case Matched(w1) => TakeArm(fuel, ops, arms[0], held, under, frames, w1)
  }

  /** What a matching arm does: bind the pattern's variables, drop the value, run the body. */
  function TakeArm(fuel: nat, ops: Ops, arm: Arm, held: seq<Value>, under: Option<Value>, frames: seq<Frame>, w: World): (r: StmtResult)
    requires frames != [] && held != []
    ensures r.Next? || r.Broke? ==> r.fuel <= fuel
    decreases fuel, arm, 0
  {
    match BindVars(ops, PatVars(arm.test, []), Last(held), frames, w)
    case None => StmtStop(Abort)
    case Some(w1) =>
      if Last(held) == Null then StmtStop(Abort)
      else Prefixed(Init(held), EvalStmts(fuel, ops, arm.body, TopOr(Init(held), under), frames, w1))
  }

  // ---------- patterns ----------

  function Walk(ops: Ops, v: Value, path: seq<Value>, w: World): ExprResult
    decreases path
  {
    if path == [] then Val(v, w)
    else if v == Null || path[0] == Null then ExprStop(Abort)
    else match NonNull(w.cells, ops.getitem(w.heap, v, path[0]))
         case ExprStop(why) => ExprStop(why)
         case Val(x, w') => Walk(ops, x, path[1..], w')
  }

  /** Store each pattern variable with the value its path leads to. */
  function BindVars(ops: Ops, vars: seq<(Name, seq<Value>)>, v: Value, frames: seq<Frame>, w: World): Option<World>
    requires frames != []
  {
    if vars == [] then Some(w)
    else if v == Null then None
    else match Walk(ops, v, vars[0].1, w)
         case ExprStop(_) => None
         case Val(x, w1) =>
           match Store(Last(frames), vars[0].0, x, w1)
           case None => None
           case Some(w2) => BindVars(ops, vars[1..], v, frames, w2)
  }

  function Equals(ops: Ops, l: Value, r: Value, w: World): MatchResult {
    match CompareValues(ops, Eq, l, r, w)
    case None => MatchStop(Abort)
    case Some(b) => if Falsy(b) then Mismatch([], w) else Matched(w)
  }

  function HasClass(ops: Ops, v: Value, class_: Option<Value>, w: World): MatchResult {
    if v == Null then MatchStop(Abort) else
    match class_
    case None => MatchStop(Abort)
    case Some(c) => Equals(ops, ops.classOf(w.heap, v), c, w)
  }

  /** Ask the value for its size, by a call of its `size` method, and compare. */
  function HasSize(fuel: nat, ops: Ops, ghost site: Expr, v: Value, n: nat, frames: seq<Frame>, w: World): MatchResult
    requires frames != []
    decreases fuel, site, 1
  {
    match NonNull(w.cells, ops.getattr(w.heap, v, "size"))
    case ExprStop(why) => MatchStop(why)
    case Val(getter, w1) =>
      match Apply(fuel, ops, site, Some(v), frames, getter, [], w1)
      case ExprStop(why) => MatchStop(why)
      case Val(size, w2) => Equals(ops, size, Int(n), w2)
  }

  function MatchTest(fuel: nat, ops: Ops, p: Expr, v: Value, frames: seq<Frame>, w: World): MatchResult
    requires frames != []
    decreases fuel, p, 3
  {
    match p
    case Lit(c) => if v == Null || c == Null then MatchStop(Abort) else Equals(ops, v, c, w)
    case NilLit => HasClass(ops, v, Some(Class("nil")), w)
    case Ident(_) => Matched(w)
    case Wildcard => Matched(w)
    case ArrayLit(_) =>
      (match HasClass(ops, v, Resolve(ops, Last(frames), "array", w), w)
       case Matched(w1) => MatchSized(fuel, ops, p, v, frames, w1)
       case other => other)
    case HashLit(_) =>
      (match HasClass(ops, v, Resolve(ops, Last(frames), "hash", w), w)
       case Matched(w1) => MatchSized(fuel, ops, p, v, frames, w1)
       case other => other)
    case _ => MatchStop(Unsupported)
  }

  /** The rest of an array or hash pattern once the class agrees: the size, then the parts. */
  function MatchSized(fuel: nat, ops: Ops, p: Expr, v: Value, frames: seq<Frame>, w: World): MatchResult
    requires frames != [] && (p.ArrayLit? || p.HashLit?)
    decreases fuel, p, 2
  {
    match HasSize(fuel, ops, p, v, if p.ArrayLit? then |p.items| else |p.items| / 2, frames, w)
    case Matched(w1) =>
      if p.ArrayLit? then MatchItems(fuel, ops, p.items, 0, v, frames, w1)
      else MatchPairs(fuel, ops, p.items, v, frames, w1)
    case other => other
  }

  function MatchItems(fuel: nat, ops: Ops, ps: seq<Expr>, i: nat, v: Value, frames: seq<Frame>, w: World): MatchResult
    requires frames != []
    decreases fuel, ps, 0
  {
    if ps == [] then Matched(w) else
    match NonNull(w.cells, ops.getitem(w.heap, v, Int(i)))
    case ExprStop(why) => MatchStop(why)
    case Val(item, w1) =>
      match MatchItem(fuel, ops, ps[0], item, frames, w1)
      case Matched(w2) => MatchItems(fuel, ops, ps[1..], i + 1, v, frames, w2)
      case other => other
  }

  /** An array pattern drops one operand when an item fails: the item itself, or the last
      value a failing hash pattern inside it abandoned. */
  function MatchItem(fuel: nat, ops: Ops, p: Expr, item: Value, frames: seq<Frame>, w: World): MatchResult
    requires frames != []
    decreases fuel, p, 4
  {
    match MatchTest(fuel, ops, p, item, frames, w)
    case Matched(w1) => if item == Null then MatchStop(Abort) else Matched(w1)
    case Mismatch(left, w1) =>
      var held := [item] + left;
      if Last(held) == Null then MatchStop(Abort) else Mismatch(Init(held), w1)
    case stop => stop
  }

  function MatchPairs(fuel: nat, ops: Ops, ps: seq<Expr>, v: Value, frames: seq<Frame>, w: World): MatchResult
    requires frames != []
    decreases fuel, ps, 0
  {
    if |ps| < 2 then Matched(w)
    else if KeyConst(ps[0]) == Null then MatchStop(Abort)
    else
      match NonNull(w.cells, ops.getitem(w.heap, v, KeyConst(ps[0])))
      case ExprStop(why) => MatchStop(why)
      case Val(value, w1) =>
        match MatchValue(fuel, ops, ps[1], value, frames, w1)
        case Matched(w2) => MatchPairs(fuel, ops, ps[2..], v, frames, w2)
        case other => other
  }

  /** A hash pattern drops nothing when a value fails: the extracted value stays behind. */
  function MatchValue(fuel: nat, ops: Ops, p: Expr, value: Value, frames: seq<Frame>, w: World): MatchResult
    requires frames != []
    decreases fuel, p, 4
  {
    match MatchTest(fuel, ops, p, value, frames, w)
    case Matched(w1) => if value == Null then MatchStop(Abort) else Matched(w1)
    case Mismatch(left, w1) => Mismatch([value] + left, w1)
    case stop => stop
  }
}
