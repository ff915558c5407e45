/** The virtual machine as a function: what running a code object from an address does.

    Fuel is spent only where execution may repeat: one unit for each backward jump of a
    frame, one for each call and one for each callback from native code. Between two such
    points the program counter only grows, so a run diverges exactly when no amount of
    fuel is enough. */
module Machine {
  import opened Options
  import opened Syntax
  import opened Semantics

  datatype Popped = Popped(v: Value, rest: seq<Value>) | NoOperand

  datatype PoppedMany = PoppedMany(vs: seq<Value>, rest: seq<Value>) | PopFailed(why: Failure)

  datatype Step = Ok(stack: seq<Value>, w: World) | Bad(why: Failure)

  /** Popping an empty stack yields nil; popping below the frame's base is an underflow. */
  function PopValue(base: nat, stack: seq<Value>): Popped {
    if |stack| > base then Popped(Last(stack), Init(stack))
    else if stack == [] then Popped(Nil, [])
    else NoOperand
  }

  function PopMany(base: nat, stack: seq<Value>, n: nat, allowNull: bool): PoppedMany {
    if n == 0 then PoppedMany([], stack) else
    match PopValue(base, stack)
    case NoOperand => PopFailed(Underflow)
    case Popped(v, rest) =>
      if v == Null && !allowNull then PopFailed(Abort) else
      match PopMany(base, rest, n - 1, allowNull)
      case PopFailed(why) => PopFailed(why)
      case PoppedMany(vs, rest') => PoppedMany(vs + [v], rest')
  }

  /** The value a finished frame returns: whatever is on top of the shared stack. */
  function TopOrNil(stack: seq<Value>): Value {
    if stack == [] then Nil else Last(stack)
  }

  /** MAKEHASH pops value, key pairs, so the last pair written is put first. */
  function PopPairs(ops: Ops, h: Heap, base: nat, stack: seq<Value>, n: nat, acc: seq<(Value, Value)>): (r: (Step, seq<(Value, Value)>))
    decreases n
  {
    if n == 0 then (Ok(stack, World([], [])), acc) else
    match PopValue(base, stack)
    case NoOperand => (Bad(Underflow), [])
    case Popped(v, rest) =>
      if v == Null then (Bad(Abort), []) else
      match PopValue(base, rest)
      case NoOperand => (Bad(Underflow), [])
      case Popped(k, rest') =>
        if k == Null || k == Nil then (Bad(Abort), []) else
        match HashPut(ops, h, acc, k, v)
        case None => (Bad(Abort), [])
        case Some(acc') => PopPairs(ops, h, base, rest', n - 1, acc')
  }

  /** Push the result of an operation that reports failure with the null pointer. */
  function PushNonNull(stack: seq<Value>, cells: seq<Value>, r: (Heap, Value)): Step {
    if r.1 == Null then Bad(Abort) else Ok(stack + [r.1], World(cells, r.0))
  }

  function ExecUnary(ops: Ops, i: Instr, v: Value, rest: seq<Value>, frames: seq<Frame>, w: World): Step
    requires frames != []
  {
    match i
    case StoreName(id) =>
      (match Store(Last(frames), id, v, w)
       case None => Bad(Abort)
       case Some(w') => Ok(rest, w'))
    case Pop => if v == Null then Bad(Abort) else Ok(rest, w)
    case Not => if v == Null then Bad(Abort) else Ok(rest + [Bool(Falsy(v))], w)
    case GetClass => if v == Null then Bad(Abort) else Ok(rest + [ops.classOf(w.heap, v)], w)
    case GetAttr(attr) =>
      if v == Null then Bad(Abort) else PushNonNull(rest, w.cells, ops.getattr(w.heap, v, attr))
    case Spawn =>
      if v == Null || v.Closure? then Bad(Abort) else PushNonNull(rest, w.cells, ops.spawn(w.heap, v))
    case MakeClosure =>
      if !v.Method? then Bad(Abort) else
      (match CaptureAll(ops, frames, v.fn.freevars, w)
       case None => Bad(Abort)
       case Some(m) => Ok(rest + [Closure(v.fn, m)], w))
    case _ => Bad(Abort)
  }

  function ExecBinary(ops: Ops, i: Instr, l: Value, r: Value, rest: seq<Value>, w: World): Step {
    match i
    case CompareTop(op) =>
      (match CompareValues(ops, op, l, r, w)
       case None => Bad(Abort)
       case Some(b) => Ok(rest + [b], w))
    case ArithTop(op) =>
      if l == Null || r == Null then Bad(Abort) else
      (match ops.arith(w.heap, op, l, r)
       case None => Bad(Abort)
       case Some((h, v)) => Ok(rest + [v], World(w.cells, h)))
    case GetItem =>
      if l == Null || r == Null then Bad(Abort) else PushNonNull(rest, w.cells, ops.getitem(w.heap, l, r))
    case _ => Bad(Abort)
  }

  predicate IsControl(i: Instr) {
    i.Jump? || i.JumpIfFalse? || i.JumpIfTrue? || i.Call? || i.RetTop?
  }

  predicate IsBinary(i: Instr) {
    i.CompareTop? || i.ArithTop? || i.GetItem?
  }

  /** One instruction that neither jumps, calls nor returns. */
  function Exec(ops: Ops, i: Instr, base: nat, stack: seq<Value>, frames: seq<Frame>, w: World): Step
    requires frames != [] && !IsControl(i)
  {
    match i
    case PushConst(v) => if v == Null then Bad(Abort) else Ok(stack + [v], w)
    case PushNil => Ok(stack + [Nil], w)
    case PushName(id) =>
      (match Resolve(ops, Last(frames), id, w)
       case None => Bad(Abort)
       case Some(v) => Ok(stack + [v], w))
    case Dup =>
      if TopOrNil(stack) == Null then Bad(Abort) else Ok(stack + [TopOrNil(stack)], w)
    case MakeArray(n) =>
      (match PopMany(base, stack, n, false)
       case PopFailed(why) => Bad(why)
       case PoppedMany(vs, rest) =>
         Ok(rest + [Object(|w.heap|)], World(w.cells, w.heap + [ArrayObj(vs)])))
    case MakeHash(n) =>
      (match PopPairs(ops, w.heap, base, stack, n, [])
       case (Bad(why), _) => Bad(why)
       case (Ok(rest, _), pairs) =>
         Ok(rest + [Object(|w.heap|)], World(w.cells, w.heap + [HashObj(pairs)])))
    case _ =>
      match PopValue(base, stack)
      case NoOperand => Bad(Underflow)
      case Popped(v, rest) =>
        if !IsBinary(i) then ExecUnary(ops, i, v, rest, frames, w)
        else if v == Null then Bad(Abort)
        else match PopValue(base, rest)
             case NoOperand => Bad(Underflow)
             case Popped(l, rest') => ExecBinary(ops, i, l, v, rest', w)
  }

  /** Run `code` in the top frame of `frames` from address `pc` until it returns or runs
      off its end. The operands below `base` belong to the callers. */
  function Run(fuel: nat, ops: Ops, codeOf: FnDecl -> seq<Instr>, code: seq<Instr>, pc: nat,
               base: nat, stack: seq<Value>, frames: seq<Frame>, w: World): Outcome
    requires frames != []
    decreases fuel, if pc < |code| then |code| - pc else 0
  {
    if pc >= |code| then Done(TopOrNil(stack), w) else
    match code[pc]
    case RetTop => Done(TopOrNil(stack), w)
    case Jump(a) =>
      if a > pc then Run(fuel, ops, codeOf, code, a, base, stack, frames, w)
      else if fuel == 0 then Stop(OutOfFuel)
      else Run(fuel - 1, ops, codeOf, code, a, base, stack, frames, w)
    case JumpIfFalse(a) =>
      (match PopValue(base, stack)
       case NoOperand => Stop(Underflow)
       case Popped(v, rest) =>
         if v == Null then Stop(Abort)
         else if !Falsy(v) then Run(fuel, ops, codeOf, code, pc + 1, base, rest, frames, w)
         else if a > pc then Run(fuel, ops, codeOf, code, a, base, rest, frames, w)
         else if fuel == 0 then Stop(OutOfFuel)
         else Run(fuel - 1, ops, codeOf, code, a, base, rest, frames, w))
    case JumpIfTrue(a) =>
      (match PopValue(base, stack)
       case NoOperand => Stop(Underflow)
       case Popped(v, rest) =>
         if v == Null then Stop(Abort)
         else if Falsy(v) then Run(fuel, ops, codeOf, code, pc + 1, base, rest, frames, w)
         else if a > pc then Run(fuel, ops, codeOf, code, a, base, rest, frames, w)
         else if fuel == 0 then Stop(OutOfFuel)
         else Run(fuel - 1, ops, codeOf, code, a, base, rest, frames, w))
    case Call(n) =>
      (match PopMany(base, stack, n, true)
       case PopFailed(why) => Stop(why)
       case PoppedMany(args, rest) =>
         match PopValue(base, rest)
         case NoOperand => Stop(Underflow)
         case Popped(target, rest') =>
           if target == Null then Stop(Abort)
           else if fuel == 0 then Stop(OutOfFuel)
           else match CallValue(fuel - 1, ops, codeOf, rest', frames, target, args, w)
                case Stop(why) => Stop(why)
                case Done(v, w') =>
                  if v == Null then Stop(Abort)
                  else Run(fuel, ops, codeOf, code, pc + 1, base, rest' + [v], frames, w'))
    case i =>
      match Exec(ops, i, base, stack, frames, w)
      case Bad(why) => Stop(why)
      case Ok(stack', w') => Run(fuel, ops, codeOf, code, pc + 1, base, stack', frames, w')
  }

  /** Call a value above the operands `stack`. A bytecode method gets a new frame, and its
      arguments are pushed on the shared stack for its prologue to store. */
  function CallValue(fuel: nat, ops: Ops, codeOf: FnDecl -> seq<Instr>, stack: seq<Value>,
                     frames: seq<Frame>, target: Value, args: seq<Value>, w: World): Outcome
    decreases fuel
  {
    if target.Method? || target.Closure? then
      var (frame, w1) := NewFrame(target.fn, if target.Closure? then target.bindings else map[], w);
      OfCall(Run(fuel, ops, codeOf, codeOf(target.fn), 0, |stack|, stack + args, frames + [frame], w1),
             target.fn, |args|, Under(stack))
    else
      RunNative(fuel, ops, codeOf, stack, frames, ops.native(w.heap, target, args), w)
  }

  function RunNative(fuel: nat, ops: Ops, codeOf: FnDecl -> seq<Instr>, stack: seq<Value>,
                     frames: seq<Frame>, act: NativeAct, w: World): Outcome
    decreases fuel, 0
  {
    match act
    case Finish(h, v) => Done(v, World(w.cells, h))
    case GiveUp => Stop(Abort)
    case Invoke(h, target, args, saved) =>
      if fuel == 0 then Stop(OutOfFuel) else
      match CallValue(fuel - 1, ops, codeOf, stack, frames, target, args, World(w.cells, h))
      case Stop(why) => Stop(why)
      case Done(v, w') =>
        if v == Null then Stop(Abort)
        else RunNative(fuel - 1, ops, codeOf, stack, frames, ops.resume(w'.heap, saved, v), w')
  }
}
