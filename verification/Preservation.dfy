/** What the simulation means for whole calls: the compiled program and the syntax tree agree
    on results, on aborts and on divergence, whatever the value operations do. */
module Preservation {
  import opened Options
  import opened Syntax
  import opened Semantics
  import opened Machine
  import opened Codegen
  import opened Acceptance
  import opened Evaluator
  import opened Simulation
  import Coverage

  /** The machine with every function compiled. */
  function Execute(fuel: nat, ops: Ops, stack: seq<Value>, frames: seq<Frame>, target: Value, args: seq<Value>, w: World): Outcome {
    CallValue(fuel, ops, fn => FnCode(fn), stack, frames, target, args, w)
  }

  /** The evaluator; all it sees of the caller's operands is the last one. */
  function Meaning(fuel: nat, ops: Ops, stack: seq<Value>, frames: seq<Frame>, target: Value, args: seq<Value>, w: World): Outcome {
    CallFunction(fuel, ops, Under(stack), frames, target, args, w)
  }

  /** The run calls a function that has no code, or that the compiler rejects. */
  predicate Refused(out: Outcome) {
    out.Stop? && out.why.NotCompiled?
  }

  /** Semantic preservation: any call has the outcome the evaluator gives it, for every
      amount of fuel, unless it reaches a function the compiler rejects. */
  lemma {:induction false} CompilerCorrect(fuel: nat, ops: Ops, stack: seq<Value>, frames: seq<Frame>, target: Value, args: seq<Value>, w: World)
    requires !Refused(Meaning(fuel, ops, stack, frames, target, args, w))
    ensures Execute(fuel, ops, stack, frames, target, args, w) == Meaning(fuel, ops, stack, frames, target, args, w)
  {
    CallRuns(fuel, ops, fn => FnCode(fn), stack, frames, target, args, w);
    Coverage.CallCovered(fuel, ops, Under(stack), frames, target, args, w);
  }

  /** The compiled call diverges exactly when the evaluator does. */
  lemma {:induction false} DivergenceAgrees(ops: Ops, stack: seq<Value>, frames: seq<Frame>, target: Value, args: seq<Value>, w: World)
    requires forall fuel :: !Refused(Meaning(fuel, ops, stack, frames, target, args, w))
    ensures (forall fuel :: Execute(fuel, ops, stack, frames, target, args, w) == Stop(OutOfFuel))
       <==> (forall fuel :: Meaning(fuel, ops, stack, frames, target, args, w) == Stop(OutOfFuel))
  {
    forall fuel
      ensures Execute(fuel, ops, stack, frames, target, args, w) == Meaning(fuel, ops, stack, frames, target, args, w)
    {
      CompilerCorrect(fuel, ops, stack, frames, target, args, w);
    }
  }

  /** The operands of the callers, other than the last, cannot influence a call. */
  lemma {:induction false} CallerOperandsHidden(fuel: nat, ops: Ops, stack: seq<Value>, stack': seq<Value>, frames: seq<Frame>,
                                                target: Value, args: seq<Value>, w: World)
    requires Under(stack) == Under(stack')
    requires !Refused(Meaning(fuel, ops, stack, frames, target, args, w))
    ensures Execute(fuel, ops, stack, frames, target, args, w) == Execute(fuel, ops, stack', frames, target, args, w)
  {
    CompilerCorrect(fuel, ops, stack, frames, target, args, w);
    CompilerCorrect(fuel, ops, stack', frames, target, args, w);
  }

  // ---------- fuel ----------

  /** Fuel only bounds a run: once a run ends otherwise than by exhausting it, more changes
      nothing. */
  lemma {:induction false} RunStable(fuel: nat, more: nat, ops: Ops, codeOf: FnDecl -> seq<Instr>, code: seq<Instr>, pc: nat,
                                     base: nat, stack: seq<Value>, frames: seq<Frame>, w: World)
    requires frames != []
    requires Run(fuel, ops, codeOf, code, pc, base, stack, frames, w) != Stop(OutOfFuel)
    ensures Run(fuel + more, ops, codeOf, code, pc, base, stack, frames, w) == Run(fuel, ops, codeOf, code, pc, base, stack, frames, w)
    decreases fuel, if pc < |code| then |code| - pc else 0
  {
    hide Exec, PopMany, CallValue;
    if pc < |code| {
      match code[pc]
      case RetTop =>
      case Jump(a) => GoStable(fuel, more, ops, codeOf, code, pc, a, base, stack, frames, w);
      case JumpIfFalse(a) => BranchStable(fuel, more, ops, codeOf, code, pc, base, stack, frames, w);
      case JumpIfTrue(a) => BranchStable(fuel, more, ops, codeOf, code, pc, base, stack, frames, w);
      case Call(n) =>
        var p := PopMany(base, stack, n, true);
        if p.PoppedMany? {
          var t := PopValue(base, p.rest);
          if t.Popped? && t.v != Null {
            CallStable(fuel - 1, more, ops, codeOf, t.rest, frames, t.v, p.vs, w);
            var r := CallValue(fuel - 1, ops, codeOf, t.rest, frames, t.v, p.vs, w);
            if r.Done? && r.v != Null {
              RunStable(fuel, more, ops, codeOf, code, pc + 1, base, t.rest + [r.v], frames, r.w);
            }
          }
        }
      case i =>
        var s := Exec(ops, i, base, stack, frames, w);
        if s.Ok? {
          RunStable(fuel, more, ops, codeOf, code, pc + 1, base, s.stack, frames, s.w);
        }
    }
  }

  /** Where a run continues after a jump, with what is left of its fuel. */
  function Go(fuel: nat, ops: Ops, codeOf: FnDecl -> seq<Instr>, code: seq<Instr>, pc: nat, a: nat,
              base: nat, stack: seq<Value>, frames: seq<Frame>, w: World): Outcome
    requires frames != []
  {
    if a > pc then Run(fuel, ops, codeOf, code, a, base, stack, frames, w)
    else if fuel == 0 then Stop(OutOfFuel)
    else Run(fuel - 1, ops, codeOf, code, a, base, stack, frames, w)
  }

  lemma {:induction false} GoStable(fuel: nat, more: nat, ops: Ops, codeOf: FnDecl -> seq<Instr>, code: seq<Instr>, pc: nat, a: nat,
                                    base: nat, stack: seq<Value>, frames: seq<Frame>, w: World)
    requires frames != [] && pc < |code| && Go(fuel, ops, codeOf, code, pc, a, base, stack, frames, w) != Stop(OutOfFuel)
    ensures Go(fuel + more, ops, codeOf, code, pc, a, base, stack, frames, w) == Go(fuel, ops, codeOf, code, pc, a, base, stack, frames, w)
    decreases fuel, |code| - pc, 0
  {
    hide Run;
    if a > pc {
      RunStable(fuel, more, ops, codeOf, code, a, base, stack, frames, w);
    } else {
      RunStable(fuel - 1, more, ops, codeOf, code, a, base, stack, frames, w);
    }
  }

  lemma {:induction false} BranchStable(fuel: nat, more: nat, ops: Ops, codeOf: FnDecl -> seq<Instr>, code: seq<Instr>, pc: nat,
                                        base: nat, stack: seq<Value>, frames: seq<Frame>, w: World)
    requires frames != [] && pc < |code| && (code[pc].JumpIfFalse? || code[pc].JumpIfTrue?)
    requires Run(fuel, ops, codeOf, code, pc, base, stack, frames, w) != Stop(OutOfFuel)
    ensures Run(fuel + more, ops, codeOf, code, pc, base, stack, frames, w) == Run(fuel, ops, codeOf, code, pc, base, stack, frames, w)
    decreases fuel, |code| - pc, 1
  {
    hide Exec, PopMany, CallValue;
    var p := PopValue(base, stack);
    if p.Popped? && p.v != Null {
      if Falsy(p.v) == code[pc].JumpIfFalse? {
        GoStable(fuel, more, ops, codeOf, code, pc, code[pc].addr, base, p.rest, frames, w);
      } else {
        RunStable(fuel, more, ops, codeOf, code, pc + 1, base, p.rest, frames, w);
      }
    }
  }

  lemma {:induction false} CallStable(fuel: nat, more: nat, ops: Ops, codeOf: FnDecl -> seq<Instr>, stack: seq<Value>,
                                      frames: seq<Frame>, target: Value, args: seq<Value>, w: World)
    requires CallValue(fuel, ops, codeOf, stack, frames, target, args, w) != Stop(OutOfFuel)
    ensures CallValue(fuel + more, ops, codeOf, stack, frames, target, args, w) == CallValue(fuel, ops, codeOf, stack, frames, target, args, w)
    decreases fuel
  {
    if target.Method? || target.Closure? {
      hide Run;
      var (frame, w1) := NewFrame(target.fn, if target.Closure? then target.bindings else map[], w);
      RunStable(fuel, more, ops, codeOf, codeOf(target.fn), 0, |stack|, stack + args, frames + [frame], w1);
    } else {
      NativeStable(fuel, more, ops, codeOf, stack, frames, ops.native(w.heap, target, args), w);
    }
  }

  lemma {:induction false} NativeStable(fuel: nat, more: nat, ops: Ops, codeOf: FnDecl -> seq<Instr>, stack: seq<Value>,
                                        frames: seq<Frame>, act: NativeAct, w: World)
    requires RunNative(fuel, ops, codeOf, stack, frames, act, w) != Stop(OutOfFuel)
    ensures RunNative(fuel + more, ops, codeOf, stack, frames, act, w) == RunNative(fuel, ops, codeOf, stack, frames, act, w)
    decreases fuel, 0
  {
    hide CallValue;
    if act.Invoke? {
      var w1 := World(w.cells, act.heap);
      CallStable(fuel - 1, more, ops, codeOf, stack, frames, act.target, act.args, w1);
      var r := CallValue(fuel - 1, ops, codeOf, stack, frames, act.target, act.args, w1);
      if r.Done? && r.v != Null {
        NativeStable(fuel - 1, more, ops, codeOf, stack, frames, ops.resume(r.w.heap, act.saved, r.v), r.w);
      }
    }
  }

  // ---------- arity ----------

  /** A prologue takes an operand of its caller exactly when arguments are missing and the
      caller has an operand to lose (or a store aborts first). */
  lemma {:induction false} PrologueUnderflow(frame: Frame, params: seq<Name>, args: seq<Value>, under: Option<Value>, w: World)
    ensures var r := BindParams(frame, params, args, under, w);
            && (r == BindStop(Underflow) ==> |args| < |params| && under.Some?)
            && (|args| < |params| && under.Some? ==> r.BindStop?)
            && (r.Bound? ==> r.surplus == if |args| <= |params| then [] else args[..|args| - |params|])
    decreases |params|
  {
    if params != [] && (args != [] || under.None?) {
      var s := Store(frame, Last(params), if args == [] then Nil else Last(args), w);
      if s.Some? {
        PrologueUnderflow(frame, Init(params), if args == [] then [] else Init(args), under, s.value);
      }
    }
  }

  /** In compiled code an instruction reaches below the operands of its frame for one reason
      only: somewhere in the run a function is called with too few arguments above an operand of
      its caller, which its prologue pops. */
  lemma {:induction false} OnlyMissingArguments(fuel: nat, ops: Ops, stack: seq<Value>, frames: seq<Frame>, target: Value, args: seq<Value>, w: World)
    requires !Refused(Meaning(fuel, ops, stack, frames, target, args, w))
    ensures match Execute(fuel, ops, stack, frames, target, args, w)
            case Stop(Missing(fn, given, under)) => given < |fn.params| && under.Some?
            case out => out != Stop(Underflow)
  {
    CompilerCorrect(fuel, ops, stack, frames, target, args, w);
    Coverage.CallCovered(fuel, ops, Under(stack), frames, target, args, w);
  }

  /** The given arguments go to the last parameters; each needs a variable, and a value. */
  predicate Storable(frame: Frame, params: seq<Name>, args: seq<Value>, w: World) {
    args == [] || params == [] || (Store(frame, Last(params), Last(args), w).Some? && Storable(frame, Init(params), Init(args), w))
  }

  lemma {:induction false} StorableStays(frame: Frame, params: seq<Name>, args: seq<Value>, w: World, w': World)
    requires |w.cells| == |w'.cells|
    ensures Storable(frame, params, args, w) == Storable(frame, params, args, w')
    decreases |params|
  {
    if args != [] && params != [] { StorableStays(frame, Init(params), Init(args), w, w'); }
  }

  /** Conversely every such call is reported, unless storing a given argument aborts first. */
  lemma {:induction false} PrologueShort(frame: Frame, params: seq<Name>, args: seq<Value>, under: Option<Value>, w: World)
    requires |args| < |params| && under.Some?
    ensures BindParams(frame, params, args, under, w) == BindStop(if Storable(frame, params, args, w) then Underflow else Abort)
    decreases |params|
  {
    if args != [] {
      var s := Store(frame, Last(params), Last(args), w);
      if s.Some? {
        StorableStays(frame, Init(params), Init(args), w, s.value);
        PrologueShort(frame, Init(params), Init(args), under, s.value);
      }
    }
  }

  /** A call is the one that takes its caller's operand exactly if arguments are missing, the
      caller has an operand, and the given arguments can be stored. */
  lemma {:induction false} MissingExact(fuel: nat, ops: Ops, stack: seq<Value>, frames: seq<Frame>, target: Value, args: seq<Value>, w: World)
    requires (target.Method? || target.Closure?) && ops.loaded(target.fn) && FnOk(target.fn, true)
    requires !Refused(Meaning(fuel, ops, stack, frames, target, args, w))
    ensures var fn := target.fn;
            var (frame, w1) := NewFrame(fn, if target.Closure? then target.bindings else map[], w);
            (Execute(fuel, ops, stack, frames, target, args, w) == Stop(Missing(fn, |args|, Under(stack))))
              <==> (|args| < |fn.params| && stack != [] && Storable(frame, fn.params, args, w1))
  {
    hide EvalStmts, FnOk;
    CompilerCorrect(fuel, ops, stack, frames, target, args, w);
    OnlyMissingArguments(fuel, ops, stack, frames, target, args, w);
    if |args| < |target.fn.params| && stack != [] {
      var (frame, w1) := NewFrame(target.fn, if target.Closure? then target.bindings else map[], w);
      PrologueShort(frame, target.fn.params, args, Under(stack), w1);
    }
  }
}
