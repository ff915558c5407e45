/** Value operations and machine state used by the virtual machine and the evaluator alike. */
module Semantics {
  import opened Options
  import opened Syntax

  datatype Ordering = Less | Equal | Greater | NotComparable | CmpError

  datatype Obj = ArrayObj(items: seq<Value>) | HashObj(pairs: seq<(Value, Value)>) | OtherObj(fields: seq<Value>)

  type Heap = seq<Obj>

  /** Variable cells are reached only through frames; everything else lives in the heap. */
  datatype World = World(cells: seq<Value>, heap: Heap)

  /** What native code does next: finish, give up, or call a value and be resumed with its result. */
  datatype NativeAct =
    | Finish(heap: Heap, v: Value)
    | GiveUp
    | Invoke(heap: Heap, target: Value, args: seq<Value>, saved: seq<Value>)

  /** The value operations, left abstract. A result of `Null` is the C null pointer;
      `None` is a call of chimp_bug, which aborts the process. `loaded` says which functions
      have a code object that holds their code. */
  datatype Ops = Ops(
    loaded: FnDecl -> bool,
    cmp: (Heap, Value, Value) -> Ordering,
    arith: (Heap, ArithOp, Value, Value) -> Option<(Heap, Value)>,
    getattr: (Heap, Value, Name) -> (Heap, Value),
    getitem: (Heap, Value, Value) -> (Heap, Value),
    classOf: (Heap, Value) -> Value,
    global: (Heap, FnDecl, Name) -> Option<Value>,
    spawn: (Heap, Value) -> (Heap, Value),
    native: (Heap, Value, seq<Value>) -> NativeAct,
    resume: (Heap, seq<Value>, Value) -> NativeAct
  )

  datatype Frame = Frame(fn: FnDecl, locals: map<Name, Binding>)

  /** Why a run stops without a value. `Underflow`: an instruction reached below the operands
      of its own frame. A call reports that as `Missing`: while `fn` ran with `given` arguments,
      it took `under`, the last operand of its caller. The machine never reports the last two.
      `NotCompiled`: the evaluator was asked to call `fn`, which has no code or which the
      compiler does not accept. `Unsupported`: it met a construct the compiler rejects or cannot
      encode. */
  datatype Failure = Abort | OutOfFuel | Underflow | Missing(fn: FnDecl, given: nat, under: Option<Value>) | NotCompiled(fn: FnDecl) | Unsupported

  datatype Outcome = Done(v: Value, w: World) | Stop(why: Failure)

  /** The last operand, or what lies under the operands if there are none. */
  function TopOr(left: seq<Value>, under: Option<Value>): Option<Value> {
    if left == [] then under else Some(Last(left))
  }

  function Under(stack: seq<Value>): Option<Value> {
    TopOr(stack, None)
  }

  /** The outcome of a call, from that of the function's code. */
  function OfCall(out: Outcome, fn: FnDecl, given: nat, under: Option<Value>): Outcome {
    if out == Stop(Underflow) then Stop(Missing(fn, given, under)) else out
  }

  predicate Falsy(v: Value) {
    v == Nil || v == Bool(false)
  }

  predicate Holds(op: CmpOp, o: Ordering) {
    match op
    case Eq => o == Equal
    case Neq => o != Equal
    case Gt => o == Greater
    case Gte => o == Greater || o == Equal
    case Lt => o == Less
    case Lte => o == Less || o == Equal
  }

  /** The locals of a new frame: a fresh cell for each declared variable, then the
      closure's bindings on top. */
  function DeclareVars(vars: seq<Name>, first: nat): map<Name, Binding> {
    if vars == [] then map[] else DeclareVars(Init(vars), first)[Last(vars) := Cell(first + |vars| - 1)]
  }

  function NewFrame(fn: FnDecl, bindings: map<Name, Binding>, w: World): (Frame, World) {
    (Frame(fn, DeclareVars(fn.vars, |w.cells|) + bindings),
     w.(cells := w.cells + seq(|fn.vars|, i => Null)))
  }

  /** Name lookup for a push: the top frame, then the module and the builtins. */
  function Resolve(ops: Ops, frame: Frame, id: Name, w: World): Option<Value> {
    if id in frame.locals then
      match frame.locals[id]
      case Cell(loc) => if loc < |w.cells| then Some(w.cells[loc]) else None
      case Direct(v) => Some(v)
    else ops.global(w.heap, frame.fn, id)
  }

  function Store(frame: Frame, id: Name, v: Value, w: World): Option<World> {
    if v != Null && id in frame.locals && frame.locals[id].Cell? && frame.locals[id].loc < |w.cells| then
      Some(w.(cells := w.cells[frame.locals[id].loc := v]))
    else None
  }

  /** Name lookup for a closure: every frame from the innermost outwards, keeping the
      cell itself, then the module and the builtins of the innermost frame. */
  function Capture(ops: Ops, frames: seq<Frame>, top: Frame, id: Name, w: World): Option<Binding> {
    if frames != [] && id in Last(frames).locals then Some(Last(frames).locals[id])
    else if frames != [] then Capture(ops, Init(frames), top, id, w)
    else match ops.global(w.heap, top.fn, id)
         case None => None
         case Some(v) => Some(Direct(v))
  }

  function CaptureAll(ops: Ops, frames: seq<Frame>, ids: seq<Name>, w: World): Option<map<Name, Binding>>
    requires frames != []
  {
    if ids == [] then Some(map[]) else
    match CaptureAll(ops, frames, Init(ids), w)
    case None => None
    case Some(m) =>
      match Capture(ops, frames, Last(frames), Last(ids), w)
      case None => None
      case Some(b) => Some(m[Last(ids) := b])
  }

  /** chimp_hash_put on an association list. */
  function HashPut(ops: Ops, h: Heap, pairs: seq<(Value, Value)>, k: Value, v: Value): Option<seq<(Value, Value)>> {
    if pairs == [] then Some([(k, v)]) else
    match ops.cmp(h, pairs[0].0, k)
    case CmpError => None
    case Equal => Some([(pairs[0].0, v)] + pairs[1..])
    case _ =>
      match HashPut(ops, h, pairs[1..], k, v)
      case None => None
      case Some(rest) => Some([pairs[0]] + rest)
  }

  function CompareValues(ops: Ops, op: CmpOp, l: Value, r: Value, w: World): Option<Value> {
    if l == Null || r == Null then None
    else
      var o := ops.cmp(w.heap, l, r);
      if o == CmpError then None else Some(Bool(Holds(op, o)))
  }
}
