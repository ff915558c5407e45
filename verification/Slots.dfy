/** The stack machine as the interpreter has it: one array of slots and a size. Popping below
    the operands of the running frame is not noticed. A pop only lowers the size, a push
    overwrites the slot it finds, and a call that returns sets the size back to what it was. */
module Slots {
  import opened Options
  import opened Syntax
  import opened Semantics
  import opened Machine
  import opened Codegen
  import opened Acceptance
  import opened Layout
  import opened Preservation
  import Coverage
  import Evaluator
  import Simulation

  /** How a run ends: with a value and the slots it left, or without one. */
  datatype Exit = Back(v: Value, slots: seq<Value>, w: World) | Halt(why: Failure)

  /** The slots once `stack` has been written from the bottom up; those above it are stale. */
  function Overlay(stack: seq<Value>, slots: seq<Value>): (r: seq<Value>)
    ensures |r| >= |slots| && |r| >= |stack| && r[..|stack|] == stack
  {
    stack + if |stack| <= |slots| then slots[|stack|..] else []
  }

  /** The size after a pop; an empty stack stays empty. */
  function Lower(size: nat): nat {
    if size == 0 then 0 else size - 1
  }

  function PopSize(size: nat, n: nat): nat {
    if n <= size then size - n else 0
  }

  /** The last `n` operands, with nil for each that is not there. */
  function LastMany(stack: seq<Value>, n: nat): (vs: seq<Value>)
    ensures |vs| == n
  {
    if n <= |stack| then stack[|stack| - n..] else seq(n - |stack|, _ => Nil) + stack
  }

  /** Run `code` from address `pc` on the first `size` slots. */
  function RunSlots(fuel: nat, ops: Ops, codeOf: FnDecl -> seq<Instr>, code: seq<Instr>, pc: nat,
                    slots: seq<Value>, size: nat, frames: seq<Frame>, w: World): (r: Exit)
    requires frames != [] && size <= |slots|
    ensures r.Back? ==> |r.slots| >= |slots|
    decreases fuel, if pc < |code| then |code| - pc else 0
  {
    var top := TopOrNil(slots[..size]);
    if pc >= |code| then Back(top, slots, w) else
    match code[pc]
    case RetTop => Back(top, slots, w)
    case Jump(a) => GoSlots(fuel, ops, codeOf, code, pc, a, slots, size, frames, w)
    case JumpIfFalse(a) => BranchSlots(fuel, ops, codeOf, code, pc, a, Falsy(top), slots, size, frames, w)
    case JumpIfTrue(a) => BranchSlots(fuel, ops, codeOf, code, pc, a, !Falsy(top), slots, size, frames, w)
    case Call(n) => CallStepSlots(fuel, ops, codeOf, code, pc, n, slots, size, frames, w)
    case _ => PlainSlots(fuel, ops, codeOf, code, pc, slots, size, frames, w)
  }

  /** An instruction that neither jumps, calls nor returns. */
  function PlainSlots(fuel: nat, ops: Ops, codeOf: FnDecl -> seq<Instr>, code: seq<Instr>, pc: nat,
                      slots: seq<Value>, size: nat, frames: seq<Frame>, w: World): (r: Exit)
    requires frames != [] && size <= |slots| && pc < |code| && !IsControl(code[pc])
    ensures r.Back? ==> |r.slots| >= |slots|
    decreases fuel, |code| - pc, 0
  {
    match Exec(ops, code[pc], 0, slots[..size], frames, w)
    case Bad(_) => Halt(Abort)
    case Ok(stack, w') => RunSlots(fuel, ops, codeOf, code, pc + 1, Overlay(stack, slots), |stack|, frames, w')
  }

  function GoSlots(fuel: nat, ops: Ops, codeOf: FnDecl -> seq<Instr>, code: seq<Instr>, pc: nat, a: nat,
                   slots: seq<Value>, size: nat, frames: seq<Frame>, w: World): (r: Exit)
    requires frames != [] && size <= |slots| && pc < |code|
    ensures r.Back? ==> |r.slots| >= |slots|
    decreases fuel, |code| - pc, 0
  {
    if a > pc then RunSlots(fuel, ops, codeOf, code, a, slots, size, frames, w)
    else if fuel == 0 then Halt(OutOfFuel)
    else RunSlots(fuel - 1, ops, codeOf, code, a, slots, size, frames, w)
  }

  /** A conditional jump, which is taken or not by the operand it pops. */
  function BranchSlots(fuel: nat, ops: Ops, codeOf: FnDecl -> seq<Instr>, code: seq<Instr>, pc: nat, a: nat, taken: bool,
                       slots: seq<Value>, size: nat, frames: seq<Frame>, w: World): (r: Exit)
    requires frames != [] && size <= |slots| && pc < |code|
    ensures r.Back? ==> |r.slots| >= |slots|
    decreases fuel, |code| - pc, 1
  {
    if TopOrNil(slots[..size]) == Null then Halt(Abort)
    else if taken then GoSlots(fuel, ops, codeOf, code, pc, a, slots, Lower(size), frames, w)
    else RunSlots(fuel, ops, codeOf, code, pc + 1, slots, Lower(size), frames, w)
  }

  /** A CALL instruction: its result goes where the target was. */
  function CallStepSlots(fuel: nat, ops: Ops, codeOf: FnDecl -> seq<Instr>, code: seq<Instr>, pc: nat, n: nat,
                         slots: seq<Value>, size: nat, frames: seq<Frame>, w: World): (r: Exit)
    requires frames != [] && size <= |slots| && pc < |code|
    ensures r.Back? ==> |r.slots| >= |slots|
    decreases fuel, |code| - pc, 0
  {
    var rest := PopSize(size, n);
    var target := TopOrNil(slots[..rest]);
    if target == Null then Halt(Abort)
    else if fuel == 0 then Halt(OutOfFuel)
    else match CallSlots(fuel - 1, ops, codeOf, slots, Lower(rest), frames, target, LastMany(slots[..size], n), w)
         case Halt(why) => Halt(why)
         case Back(v, slots', w') =>
           if v == Null then Halt(Abort)
           else RunSlots(fuel, ops, codeOf, code, pc + 1, Overlay(slots'[..Lower(rest)] + [v], slots'), Lower(rest) + 1, frames, w')
  }

  /** Call a value above the first `size` slots. */
  function CallSlots(fuel: nat, ops: Ops, codeOf: FnDecl -> seq<Instr>, slots: seq<Value>, size: nat,
                     frames: seq<Frame>, target: Value, args: seq<Value>, w: World): (r: Exit)
    requires size <= |slots|
    ensures r.Back? ==> |r.slots| >= |slots|
    decreases fuel
  {
    if target.Method? || target.Closure? then
      var (frame, w1) := NewFrame(target.fn, if target.Closure? then target.bindings else map[], w);
      RunSlots(fuel, ops, codeOf, codeOf(target.fn), 0, Overlay(slots[..size] + args, slots), size + |args|, frames + [frame], w1)
    else
      NativeSlots(fuel, ops, codeOf, slots, size, frames, ops.native(w.heap, target, args), w)
  }

  function NativeSlots(fuel: nat, ops: Ops, codeOf: FnDecl -> seq<Instr>, slots: seq<Value>, size: nat,
                       frames: seq<Frame>, act: NativeAct, w: World): (r: Exit)
    requires size <= |slots|
    ensures r.Back? ==> |r.slots| >= |slots|
    decreases fuel, 0
  {
    match act
    case Finish(h, v) => Back(v, slots, World(w.cells, h))
    case GiveUp => Halt(Abort)
    case Invoke(h, target, args, saved) =>
      if fuel == 0 then Halt(OutOfFuel) else
      match CallSlots(fuel - 1, ops, codeOf, slots, size, frames, target, args, World(w.cells, h))
      case Halt(why) => Halt(why)
      case Back(v, slots', w') =>
        if v == Null then Halt(Abort)
        else NativeSlots(fuel - 1, ops, codeOf, slots', size, frames, ops.resume(w'.heap, saved, v), w')
  }

  // ---------- the slots agree with the guarded machine ----------

  /** The guarded machine saw a caller's operand being taken. */
  predicate Taken(why: Failure) {
    why == Underflow || why.Missing?
  }

  /** What the two machines have in common above `base`. */
  ghost predicate Agrees(out: Outcome, exit: Exit, base: nat, slots: seq<Value>)
    requires base <= |slots|
  {
    match out
    case Done(v, w) => exit.Back? && exit.v == v && exit.w == w && base <= |exit.slots| && exit.slots[..base] == slots[..base]
    case Stop(why) => Taken(why) || exit == Halt(why)
  }

  lemma {:induction false} LastManyLast(stack: seq<Value>, n: nat)
    requires n > 0
    ensures Last(LastMany(stack, n)) == TopOrNil(stack)
    ensures Init(LastMany(stack, n)) == LastMany(stack[..Lower(|stack|)], n - 1)
  {
  }

  lemma {:induction false} PopTop(stack: seq<Value>)
    ensures PopValue(0, stack) == Popped(TopOrNil(stack), stack[..Lower(|stack|)])
  {
  }

  lemma {:induction false} TakeLess(stack: seq<Value>, n: nat)
    requires n > 0
    ensures var rest := stack[..Lower(|stack|)];
      |rest| == Lower(|stack|) && rest[..PopSize(|rest|, n - 1)] == stack[..PopSize(|stack|, n)]
  {
  }

  lemma {:induction false} PopManySlots(stack: seq<Value>, n: nat)
    ensures PopMany(0, stack, n, true) == PoppedMany(LastMany(stack, n), stack[..PopSize(|stack|, n)])
    decreases n
  {
    if n == 0 {
      assert stack[..|stack|] == stack && LastMany(stack, 0) == [];
    } else {
      hide LastMany, TopOrNil, PopValue, PopSize, Lower;
      var rest, vs := stack[..Lower(|stack|)], LastMany(stack, n);
      PopTop(stack);
      LastManyLast(stack, n);
      TakeLess(stack, n);
      PopManySlots(rest, n - 1);
      assert vs == Init(vs) + [Last(vs)];
    }
  }

  /** A guard that is not hit changes nothing. */
  lemma {:induction false} PopManyGuarded(base: nat, stack: seq<Value>, n: nat, allowNull: bool)
    requires base <= |stack|
    ensures match PopMany(base, stack, n, allowNull)
            case PopFailed(why) => why == Underflow || (why == Abort && PopMany(0, stack, n, allowNull) == PopFailed(Abort))
            case many => base <= |many.rest| && many.rest <= stack && many == PopMany(0, stack, n, allowNull)
    decreases n
  {
    if n > 0 {
      var p := PopValue(base, stack);
      if p.Popped? && (p.v != Null || allowNull) {
        PopManyGuarded(base, p.rest, n - 1, allowNull);
      }
    }
  }

  lemma {:induction false} PopPairsGuarded(ops: Ops, h: Heap, base: nat, stack: seq<Value>, n: nat, acc: seq<(Value, Value)>)
    requires base <= |stack|
    ensures match PopPairs(ops, h, base, stack, n, acc)
            case (Bad(why), ps) => why == Underflow || (why == Abort && PopPairs(ops, h, 0, stack, n, acc).0 == Bad(Abort))
            case (Ok(rest, w), ps) => base <= |rest| && rest <= stack && PopPairs(ops, h, 0, stack, n, acc) == (Ok(rest, w), ps)
    decreases n
  {
    if n > 0 {
      var p := PopValue(base, stack);
      if p.Popped? && p.v != Null {
        var q := PopValue(base, p.rest);
        if q.Popped? && q.v != Null && q.v != Nil && HashPut(ops, h, acc, q.v, p.v).Some? {
          PopPairsGuarded(ops, h, base, q.rest, n - 1, HashPut(ops, h, acc, q.v, p.v).value);
        }
      }
    }
  }

  lemma {:induction false} ExecGuarded(ops: Ops, i: Instr, base: nat, stack: seq<Value>, frames: seq<Frame>, w: World)
    requires frames != [] && !IsControl(i) && base <= |stack|
    ensures match Exec(ops, i, base, stack, frames, w)
            case Bad(why) => why == Underflow || (why == Abort && Exec(ops, i, 0, stack, frames, w) == Bad(Abort))
            case ok => ok == Exec(ops, i, 0, stack, frames, w) && base <= |ok.stack| && ok.stack[..base] == stack[..base]
  {
    hide ExecUnary, ExecBinary, PopMany, PopPairs, Resolve;
    match i {
      case MakeArray(n) => PopManyGuarded(base, stack, n, false);
      case MakeHash(n) => PopPairsGuarded(ops, w.heap, base, stack, n, []);
      case _ =>
        if TakesOperand(i) {
          hide Exec;
          TopGuarded(ops, i, base, stack, frames, w);
        }
    }
  }

  /** Instructions that pop one or two operands. */
  predicate TakesOperand(i: Instr) {
    !i.PushConst? && !i.PushNil? && !i.PushName? && !i.Dup? && !i.MakeArray? && !i.MakeHash? && !IsControl(i)
  }

  lemma {:induction false} TopGuarded(ops: Ops, i: Instr, base: nat, stack: seq<Value>, frames: seq<Frame>, w: World)
    requires frames != [] && TakesOperand(i) && base <= |stack|
    ensures match Exec(ops, i, base, stack, frames, w)
            case Bad(why) => why == Underflow || (why == Abort && Exec(ops, i, 0, stack, frames, w) == Bad(Abort))
            case ok => ok == Exec(ops, i, 0, stack, frames, w) && base <= |ok.stack| && ok.stack[..base] == stack[..base]
  {
    hide ExecUnary, ExecBinary;
    var p := PopValue(base, stack);
    if p.Popped? {
      if !IsBinary(i) {
        UnaryKeeps(ops, i, p.v, p.rest, frames, w);
      } else {
        var q := PopValue(base, p.rest);
        if q.Popped? { BinaryKeeps(ops, i, q.v, p.v, q.rest, w); }
      }
    }
  }

  lemma {:induction false} UnaryKeeps(ops: Ops, i: Instr, v: Value, rest: seq<Value>, frames: seq<Frame>, w: World)
    requires frames != []
    ensures match ExecUnary(ops, i, v, rest, frames, w) case Ok(stack, _) => rest <= stack case Bad(why) => why == Abort
  {
    hide Store, CaptureAll;
  }

  lemma {:induction false} BinaryKeeps(ops: Ops, i: Instr, l: Value, r: Value, rest: seq<Value>, w: World)
    ensures match ExecBinary(ops, i, l, r, rest, w) case Ok(stack, _) => rest <= stack case Bad(why) => why == Abort
  {
    hide CompareValues;
  }

  /** As long as the guarded machine does not see a caller's operand being taken, the slots hold
      its operands and the run ends as it says; the operands below `base` are as they were. */
  lemma {:induction false} RunAgrees(fuel: nat, ops: Ops, codeOf: FnDecl -> seq<Instr>, code: seq<Instr>, pc: nat, base: nat,
                                     slots: seq<Value>, size: nat, frames: seq<Frame>, w: World)
    requires frames != [] && base <= size <= |slots|
    ensures Agrees(Run(fuel, ops, codeOf, code, pc, base, slots[..size], frames, w),
                   RunSlots(fuel, ops, codeOf, code, pc, slots, size, frames, w), base, slots)
    decreases fuel, if pc < |code| then |code| - pc else 0
  {
    hide Exec, PopMany, CallValue, CallSlots, LastMany, Overlay;
    if pc < |code| {
      match code[pc]
      case RetTop =>
      case Jump(a) => GoAgrees(fuel, ops, codeOf, code, pc, a, base, slots, size, frames, w);
      case JumpIfFalse(a) => BranchAgrees(fuel, ops, codeOf, code, pc, base, slots, size, frames, w);
      case JumpIfTrue(a) => BranchAgrees(fuel, ops, codeOf, code, pc, base, slots, size, frames, w);
      case Call(n) => CallStepAgrees(fuel, ops, codeOf, code, pc, base, slots, size, frames, w);
      case i =>
        PlainAgrees(fuel, ops, codeOf, code, pc, base, slots, size, frames, w);
    }
  }

  lemma {:induction false} OverlayKeeps(stack: seq<Value>, slots: seq<Value>, base: nat)
    requires base <= |stack|
    ensures Overlay(stack, slots)[..base] == stack[..base] && Overlay(stack, slots)[..|stack|] == stack
  {
  }

  lemma {:induction false} PlainAgrees(fuel: nat, ops: Ops, codeOf: FnDecl -> seq<Instr>, code: seq<Instr>, pc: nat, base: nat,
                                       slots: seq<Value>, size: nat, frames: seq<Frame>, w: World)
    requires frames != [] && base <= size <= |slots| && pc < |code| && !IsControl(code[pc])
    ensures Agrees(Run(fuel, ops, codeOf, code, pc, base, slots[..size], frames, w),
                   RunSlots(fuel, ops, codeOf, code, pc, slots, size, frames, w), base, slots)
    decreases fuel, |code| - pc, 1
  {
    hide Exec, PopMany, CallValue, CallSlots, Overlay, LastMany;
    ExecGuarded(ops, code[pc], base, slots[..size], frames, w);
    var s := Exec(ops, code[pc], base, slots[..size], frames, w);
    if s.Ok? {
      OverlayKeeps(s.stack, slots, base);
      assert slots[..size][..base] == slots[..base];
      RunAgrees(fuel, ops, codeOf, code, pc + 1, base, Overlay(s.stack, slots), |s.stack|, frames, s.w);
    }
  }

  lemma {:induction false} GoAgrees(fuel: nat, ops: Ops, codeOf: FnDecl -> seq<Instr>, code: seq<Instr>, pc: nat, a: nat, base: nat,
                                    slots: seq<Value>, size: nat, frames: seq<Frame>, w: World)
    requires frames != [] && base <= size <= |slots| && pc < |code|
    ensures Agrees(Go(fuel, ops, codeOf, code, pc, a, base, slots[..size], frames, w),
                   GoSlots(fuel, ops, codeOf, code, pc, a, slots, size, frames, w), base, slots)
    decreases fuel, |code| - pc, 0
  {
    hide Run, RunSlots;
    if a > pc {
      RunAgrees(fuel, ops, codeOf, code, a, base, slots, size, frames, w);
    } else if fuel > 0 {
      RunAgrees(fuel - 1, ops, codeOf, code, a, base, slots, size, frames, w);
    }
  }

  lemma {:induction false} BranchAgrees(fuel: nat, ops: Ops, codeOf: FnDecl -> seq<Instr>, code: seq<Instr>, pc: nat, base: nat,
                                        slots: seq<Value>, size: nat, frames: seq<Frame>, w: World)
    requires frames != [] && base <= size <= |slots| && pc < |code| && (code[pc].JumpIfFalse? || code[pc].JumpIfTrue?)
    ensures Agrees(Run(fuel, ops, codeOf, code, pc, base, slots[..size], frames, w),
                   RunSlots(fuel, ops, codeOf, code, pc, slots, size, frames, w), base, slots)
    decreases fuel, |code| - pc, 1
  {
    hide Exec, PopMany, CallValue, CallSlots, Falsy;
    var p := PopValue(base, slots[..size]);
    if p.Popped? && p.v != Null {
      assert p.rest == slots[..Lower(size)];
      var a := if Falsy(p.v) == code[pc].JumpIfFalse? then code[pc].addr else pc + 1;
      GoAgrees(fuel, ops, codeOf, code, pc, a, base, slots, Lower(size), frames, w);
    }
  }

  lemma {:induction false} CallStepAgrees(fuel: nat, ops: Ops, codeOf: FnDecl -> seq<Instr>, code: seq<Instr>, pc: nat, base: nat,
                                          slots: seq<Value>, size: nat, frames: seq<Frame>, w: World)
    requires frames != [] && base <= size <= |slots| && pc < |code| && code[pc].Call?
    ensures Agrees(Run(fuel, ops, codeOf, code, pc, base, slots[..size], frames, w),
                   RunSlots(fuel, ops, codeOf, code, pc, slots, size, frames, w), base, slots)
    decreases fuel, |code| - pc, 1
  {
    hide Exec, PopMany, PopValue, TopOrNil, CallValue, CallSlots, LastMany, Overlay, Lower, PopSize;
    var n := code[pc].nargs;
    CallTaken(base, slots, size, n);
    var p := PopMany(base, slots[..size], n, true);
    if p.PoppedMany? {
      var t := PopValue(base, p.rest);
      if t.Popped? && t.v != Null && fuel > 0 {
        var rest := Lower(PopSize(size, n));
        CallAgrees(fuel - 1, ops, codeOf, slots, rest, frames, t.v, p.vs, w);
        var r, x := CallValue(fuel - 1, ops, codeOf, t.rest, frames, t.v, p.vs, w), CallSlots(fuel - 1, ops, codeOf, slots, rest, frames, t.v, p.vs, w);
        if r.Done? && r.v != Null {
          ResultSlots(base, slots, rest, x.slots, r.v);
          RunAgrees(fuel, ops, codeOf, code, pc + 1, base, Overlay(x.slots[..rest] + [r.v], x.slots), rest + 1, frames, r.w);
        }
      }
    }
  }

  /** What a call takes from the slots if the guard is not hit. */
  lemma {:induction false} CallTaken(base: nat, slots: seq<Value>, size: nat, n: nat)
    requires base <= size <= |slots|
    ensures PopSize(size, n) <= |slots| && Lower(PopSize(size, n)) <= |slots|
    ensures match PopMany(base, slots[..size], n, true)
            case PopFailed(why) => why == Underflow
            case PoppedMany(vs, rest) =>
              && vs == LastMany(slots[..size], n) && rest == slots[..PopSize(size, n)]
              && match PopValue(base, rest)
                 case NoOperand => true
                 case Popped(v, rest') =>
                   v == TopOrNil(slots[..PopSize(size, n)]) && base <= Lower(PopSize(size, n)) && rest' == slots[..Lower(PopSize(size, n))]
  {
    hide PopMany, LastMany;
    PopManyGuarded(base, slots[..size], n, true);
    PopManySlots(slots[..size], n);
  }

  /** The slots after a call, with its result. */
  lemma {:induction false} ResultSlots(base: nat, slots: seq<Value>, rest: nat, after: seq<Value>, v: Value)
    requires base <= rest <= |slots| && rest <= |after| && after[..rest] == slots[..rest]
    ensures var slots' := Overlay(after[..rest] + [v], after);
      rest + 1 <= |slots'| && slots'[..rest + 1] == slots[..rest] + [v] && slots'[..base] == slots[..base]
  {
    var slots' := Overlay(after[..rest] + [v], after);
    assert slots'[..rest + 1] == after[..rest] + [v];
    assert slots'[..base] == slots'[..rest + 1][..base];
    assert slots[..base] == slots[..rest][..base];
    hide Overlay;
  }

  /** A call that is not reported to take a caller's operand leaves them all as they were. */
  lemma {:induction false} CallAgrees(fuel: nat, ops: Ops, codeOf: FnDecl -> seq<Instr>, slots: seq<Value>, size: nat,
                                      frames: seq<Frame>, target: Value, args: seq<Value>, w: World)
    requires size <= |slots|
    ensures Agrees(CallValue(fuel, ops, codeOf, slots[..size], frames, target, args, w),
                   CallSlots(fuel, ops, codeOf, slots, size, frames, target, args, w), size, slots)
    decreases fuel
  {
    hide Run, RunSlots, Overlay;
    if target.Method? || target.Closure? {
      var (frame, w1) := NewFrame(target.fn, if target.Closure? then target.bindings else map[], w);
      var slots' := Overlay(slots[..size] + args, slots);
      RunAgrees(fuel, ops, codeOf, codeOf(target.fn), 0, size, slots', size + |args|, frames + [frame], w1);
      assert slots'[..size] == (slots[..size] + args)[..size] == slots[..size];
    } else {
      NativeAgrees(fuel, ops, codeOf, slots, size, frames, ops.native(w.heap, target, args), w);
    }
  }

  lemma {:induction false} NativeAgrees(fuel: nat, ops: Ops, codeOf: FnDecl -> seq<Instr>, slots: seq<Value>, size: nat,
                                        frames: seq<Frame>, act: NativeAct, w: World)
    requires size <= |slots|
    ensures Agrees(RunNative(fuel, ops, codeOf, slots[..size], frames, act, w),
                   NativeSlots(fuel, ops, codeOf, slots, size, frames, act, w), size, slots)
    decreases fuel, 0
  {
    hide CallValue, CallSlots;
    if act.Invoke? && fuel > 0 {
      var w1 := World(w.cells, act.heap);
      CallAgrees(fuel - 1, ops, codeOf, slots, size, frames, act.target, act.args, w1);
      var r := CallValue(fuel - 1, ops, codeOf, slots[..size], frames, act.target, act.args, w1);
      var x := CallSlots(fuel - 1, ops, codeOf, slots, size, frames, act.target, act.args, w1);
      if r.Done? && r.v != Null {
        NativeAgrees(fuel - 1, ops, codeOf, x.slots, size, frames, ops.resume(r.w.heap, act.saved, r.v), r.w);
      }
    }
  }

  /** Compiled code on the slots: unless a function is somewhere called with too few arguments
      above an operand, a call ends as the evaluator says and its caller's operands are intact. */
  lemma {:induction false} SlotsCorrect(fuel: nat, ops: Ops, codeOf: FnDecl -> seq<Instr>, slots: seq<Value>, size: nat,
                                        frames: seq<Frame>, target: Value, args: seq<Value>, w: World)
    requires size <= |slots| && forall fn :: ops.loaded(fn) ==> codeOf(fn) == FnCode(fn)
    ensures var r := CallSlots(fuel, ops, codeOf, slots, size, frames, target, args, w);
            match Meaning(fuel, ops, slots[..size], frames, target, args, w)
            case Done(v, w') => r.Back? && r.v == v && r.w == w' && r.slots[..size] == slots[..size]
            case Stop(Missing(fn, given, under)) => given < |fn.params| && under.Some?
            case Stop(NotCompiled(fn)) => !ops.loaded(fn) || !FnOk(fn, true)
            case Stop(why) => r == Halt(why)
  {
    Simulation.CallRuns(fuel, ops, codeOf, slots[..size], frames, target, args, w);
    Coverage.CallCovered(fuel, ops, Under(slots[..size]), frames, target, args, w);
    CallAgrees(fuel, ops, codeOf, slots, size, frames, target, args, w);
  }

  // ---------- what a call takes ----------

  /** Store values into parameters, last one first. */
  function StoreEach(frame: Frame, params: seq<Name>, vs: seq<Value>, w: World): Option<World>
    requires |vs| == |params|
  {
    if params == [] then Some(w) else
    match Store(frame, Last(params), Last(vs), w)
    case None => None
    case Some(w') => StoreEach(frame, Init(params), Init(vs), w')
  }

  lemma {:induction false} ParamsTake(fuel: nat, ops: Ops, codeOf: FnDecl -> seq<Instr>, code: seq<Instr>, at: nat, params: seq<Name>,
                                      slots: seq<Value>, size: nat, frames: seq<Frame>, w: World)
    requires frames != [] && size <= |slots| && At(code, at, ParamsCode(params))
    ensures RunSlots(fuel, ops, codeOf, code, at, slots, size, frames, w) ==
      match StoreEach(Last(frames), params, LastMany(slots[..size], |params|), w)
      case None => Halt(Abort)
      case Some(w') => RunSlots(fuel, ops, codeOf, code, at + |params|, slots, PopSize(size, |params|), frames, w')
    decreases |params|
  {
    hide LastMany, RunSlots, Store, At, ParamsCode, TopOrNil;
    if params != [] {
      ParamsLayout(code, at, params);
      var stack := slots[..size];
      LastManyLast(stack, |params|);
      assert stack[..Lower(size)] == slots[..Lower(size)];
      StoreTakes(fuel, ops, codeOf, code, at, Last(params), slots, size, frames, w);
      var s := Store(Last(frames), Last(params), TopOrNil(stack), w);
      if s.Some? {
        ParamsTake(fuel, ops, codeOf, code, at + 1, Init(params), slots, Lower(size), frames, s.value);
      }
    }
  }

  lemma {:induction false} StoreTakes(fuel: nat, ops: Ops, codeOf: FnDecl -> seq<Instr>, code: seq<Instr>, pc: nat, id: Name,
                                      slots: seq<Value>, size: nat, frames: seq<Frame>, w: World)
    requires frames != [] && size <= |slots| && InstrAt(code, pc, StoreName(id))
    ensures RunSlots(fuel, ops, codeOf, code, pc, slots, size, frames, w) ==
      match Store(Last(frames), id, TopOrNil(slots[..size]), w)
      case None => Halt(Abort)
      case Some(w') => RunSlots(fuel, ops, codeOf, code, pc + 1, slots, Lower(size), frames, w')
  {
    hide Store;
    var stack := slots[..size];
    assert size > 0 ==> Init(stack) == stack[..Lower(size)];
    assert Overlay(stack[..Lower(size)], slots) == slots;
  }

  /** Whatever the number of arguments, the parameters of a function get the last operands of
      its caller and the arguments taken together, and nil where there is none; the body then
      runs on what is left of both. */
  lemma {:induction false} CallTakes(fuel: nat, ops: Ops, slots: seq<Value>, size: nat, frames: seq<Frame>, target: Value, args: seq<Value>, w: World)
    requires size <= |slots| && (target.Method? || target.Closure?)
    ensures var fn, stack := target.fn, slots[..size] + args;
            var (frame, w1) := NewFrame(fn, if target.Closure? then target.bindings else map[], w);
            CallSlots(fuel, ops, fn => FnCode(fn), slots, size, frames, target, args, w) ==
              match StoreEach(frame, fn.params, LastMany(stack, |fn.params|), w1)
              case None => Halt(Abort)
              case Some(w2) => RunSlots(fuel, ops, fn => FnCode(fn), FnCode(fn), |fn.params|, Overlay(stack, slots),
                                        PopSize(|stack|, |fn.params|), frames + [frame], w2)
  {
    hide LastMany, RunSlots, ParamsCode, StmtsCode, At;
    var fn, stack := target.fn, slots[..size] + args;
    var (frame, w1) := NewFrame(fn, if target.Closure? then target.bindings else map[], w);
    FnLayout(fn);
    OverlayKeeps(stack, slots, |stack|);
    ParamsTake(fuel, ops, fn => FnCode(fn), FnCode(fn), 0, fn.params, Overlay(stack, slots), |stack|, frames + [frame], w1);
  }

  /** `fn |x| { ret 1 }`, and `fn { ret [7, f()] }` where f is the former. */
  function TakesOne(): FnDecl { FnDecl(0, ["x"], [Ret(Lit(Int(1)))], ["x"], []) }

  function PassesNone(): FnDecl {
    FnDecl(1, [], [Ret(ArrayLit([Lit(Int(7)), CallExpr(FnExpr(TakesOne()), [])]))], [], [])
  }

  lemma {:induction false} ExampleCode()
    ensures FnCode(TakesOne()) == [StoreName("x"), PushConst(Int(1)), RetTop]
    ensures FnCode(PassesNone()) == [PushConst(Int(7)), PushConst(Method(TakesOne())), Call(0), MakeArray(2), RetTop]
  {
  }

  lemma {:induction false} CalleeFrame(w: World)
    ensures var (frame, w1) := NewFrame(TakesOne(), map[], w);
            Store(frame, "x", Int(7), w1) == Some(World(w.cells + [Int(7)], w.heap))
  {
    var (frame, w1) := NewFrame(TakesOne(), map[], w);
    assert Init(["x"]) == [] && DeclareVars(["x"], |w.cells|) == map["x" := Cell(|w.cells|)];
    assert w1.cells == w.cells + [Null];
    assert w1.cells[|w.cells| := Int(7)] == w.cells + [Int(7)];
  }

  lemma {:induction false} CalleeRuns(ops: Ops, codeOf: FnDecl -> seq<Instr>, frames: seq<Frame>, v: Value, w: World)
    requires codeOf(TakesOne()) == [StoreName("x"), PushConst(Int(1)), RetTop]
    ensures CallSlots(0, ops, codeOf, [Int(7), v], 1, frames, Method(TakesOne()), [], w)
         == Back(Int(1), [Int(1), v], World(w.cells + [Int(7)], w.heap))
  {
    hide Store, NewFrame, RunSlots;
    CalleeFrame(w);
    var code := codeOf(TakesOne());
    var (frame, w1) := NewFrame(TakesOne(), map[], w);
    var fs, w2 := frames + [frame], World(w.cells + [Int(7)], w.heap);
    assert Overlay([Int(7), v][..1] + [], [Int(7), v]) == [Int(7), v];
    StoreTakes(0, ops, codeOf, code, 0, "x", [Int(7), v], 1, fs, w1);
    PushTakes(0, ops, codeOf, code, 1, Int(1), [Int(7), v], 0, fs, w2);
    assert [Int(7), v][0 := Int(1)] == [Int(1), v];
    EndTakes(0, ops, codeOf, code, 2, [Int(1), v], 1, fs, w2);
    assert Last(fs) == frame && TopOrNil([Int(7), v][..1]) == Int(7);
  }

  lemma {:induction false} PushTakes(fuel: nat, ops: Ops, codeOf: FnDecl -> seq<Instr>, code: seq<Instr>, pc: nat, v: Value,
                                     slots: seq<Value>, size: nat, frames: seq<Frame>, w: World)
    requires frames != [] && size <= |slots| && InstrAt(code, pc, PushConst(v)) && v != Null
    ensures RunSlots(fuel, ops, codeOf, code, pc, slots, size, frames, w) ==
            RunSlots(fuel, ops, codeOf, code, pc + 1, if size < |slots| then slots[size := v] else slots + [v], size + 1, frames, w)
  {
    assert Overlay(slots[..size] + [v], slots) == if size < |slots| then slots[size := v] else slots + [v];
  }

  lemma {:induction false} EndTakes(fuel: nat, ops: Ops, codeOf: FnDecl -> seq<Instr>, code: seq<Instr>, pc: nat,
                                    slots: seq<Value>, size: nat, frames: seq<Frame>, w: World)
    requires frames != [] && size <= |slots| && InstrAt(code, pc, RetTop)
    ensures RunSlots(fuel, ops, codeOf, code, pc, slots, size, frames, w) == Back(TopOrNil(slots[..size]), slots, w)
  {
  }

  lemma {:induction false} PlainTakes(fuel: nat, ops: Ops, codeOf: FnDecl -> seq<Instr>, code: seq<Instr>, pc: nat,
                                      slots: seq<Value>, size: nat, frames: seq<Frame>, w: World)
    requires frames != [] && size <= |slots| && pc < |code| && !IsControl(code[pc])
    ensures RunSlots(fuel, ops, codeOf, code, pc, slots, size, frames, w) ==
      match Exec(ops, code[pc], 0, slots[..size], frames, w)
      case Bad(_) => Halt(Abort)
      case Ok(stack, w') => RunSlots(fuel, ops, codeOf, code, pc + 1, Overlay(stack, slots), |stack|, frames, w')
  {
    hide Exec;
  }

  /** The call instruction as a step. */
  function CallStep(fuel: nat, ops: Ops, codeOf: FnDecl -> seq<Instr>, n: nat, slots: seq<Value>, size: nat, frames: seq<Frame>, w: World): (r: Exit)
    requires size <= |slots|
    ensures r.Back? ==> r.v != Null && |r.slots| >= |slots| && |r.slots| >= Lower(PopSize(size, n)) + 1
  {
    var rest := PopSize(size, n);
    var target := TopOrNil(slots[..rest]);
    if target == Null then Halt(Abort)
    else if fuel == 0 then Halt(OutOfFuel)
    else
      match CallSlots(fuel - 1, ops, codeOf, slots, Lower(rest), frames, target, LastMany(slots[..size], n), w)
      case Halt(why) => Halt(why)
      case Back(v, slots', w') => if v == Null then Halt(Abort) else Back(v, Overlay(slots'[..Lower(rest)] + [v], slots'), w')
  }

  lemma {:induction false} StepCalls(fuel: nat, ops: Ops, codeOf: FnDecl -> seq<Instr>, code: seq<Instr>, pc: nat,
                                     slots: seq<Value>, size: nat, frames: seq<Frame>, w: World)
    requires frames != [] && size <= |slots| && pc < |code| && code[pc].Call?
    ensures RunSlots(fuel, ops, codeOf, code, pc, slots, size, frames, w) ==
      match CallStep(fuel, ops, codeOf, code[pc].nargs, slots, size, frames, w)
      case Halt(why) => Halt(why)
      case Back(_, slots', w') => RunSlots(fuel, ops, codeOf, code, pc + 1, slots', Lower(PopSize(size, code[pc].nargs)) + 1, frames, w')
  {
    hide CallSlots, LastMany, Overlay;
  }

  lemma {:induction false} PairMade(ops: Ops, fs: seq<Frame>, a: Value, b: Value, w: World)
    requires fs != [] && a != Null && b != Null
    ensures Exec(ops, MakeArray(2), 0, [a, b], fs, w) == Ok([Object(|w.heap|)], World(w.cells, w.heap + [ArrayObj([a, b])]))
  {
    var none: seq<Value> := [];
    assert Init([a, b]) == [a] && Init([a]) == none && none + [a] == [a] && [a] + [b] == [a, b];
    assert PopMany(0, [a], 1, false) == PoppedMany([a], none);
    assert PopMany(0, [a, b], 2, false) == PoppedMany([a, b], none);
    assert none + [Object(|w.heap|)] == [Object(|w.heap|)];
  }

  lemma {:induction false} ArrayTakes(ops: Ops, codeOf: FnDecl -> seq<Instr>, code: seq<Instr>, fs: seq<Frame>, a: Value, b: Value, w: World)
    requires fs != [] && |code| == 5 && code[3..] == [MakeArray(2), RetTop] && a != Null && b != Null
    ensures RunSlots(1, ops, codeOf, code, 3, [a, b], 2, fs, w)
         == Back(Object(|w.heap|), [Object(|w.heap|), b], World(w.cells, w.heap + [ArrayObj([a, b])]))
  {
    hide RunSlots, Exec;
    var o := Object(|w.heap|);
    assert code[3] == code[3..][0] && code[4] == code[3..][1];
    PairMade(ops, fs, a, b, w);
    assert [a, b][..2] == [a, b];
    PlainTakes(1, ops, codeOf, code, 3, [a, b], 2, fs, w);
    assert Overlay([o], [a, b]) == [o, b];
    EndTakes(1, ops, codeOf, code, 4, [o, b], 1, fs, World(w.cells, w.heap + [ArrayObj([a, b])]));
    assert TopOrNil([o, b][..1]) == o;
  }

  lemma {:induction false} CallerRuns(ops: Ops, codeOf: FnDecl -> seq<Instr>, code: seq<Instr>, fs: seq<Frame>, w: World)
    requires fs != [] && codeOf(TakesOne()) == [StoreName("x"), PushConst(Int(1)), RetTop]
    requires code == [PushConst(Int(7)), PushConst(Method(TakesOne())), Call(0), MakeArray(2), RetTop]
    ensures var r := RunSlots(1, ops, codeOf, code, 0, [], 0, fs, w);
            && r.Back? && r.v == Object(|w.heap|)
            && r.w == World(w.cells + [Int(7)], w.heap + [ArrayObj([Int(1), Int(1)])])
  {
    hide RunSlots, CallSlots;
    var f, w2 := Method(TakesOne()), World(w.cells + [Int(7)], w.heap);
    assert [] + [Int(7)] == [Int(7)] && [Int(7)] + [f] == [Int(7), f] && [Int(7), f][..2] == [Int(7), f];
    PushTakes(1, ops, codeOf, code, 0, Int(7), [], 0, fs, w);
    PushTakes(1, ops, codeOf, code, 1, f, [Int(7)], 1, fs, w);
    CalleeRuns(ops, codeOf, fs, f, w);
    assert LastMany([Int(7), f], 0) == [];
    assert Overlay([Int(1), f][..1] + [Int(1)], [Int(1), f]) == [Int(1), Int(1)];
    StepCalls(1, ops, codeOf, code, 2, [Int(7), f], 2, fs, w);
    assert code[3..] == [MakeArray(2), RetTop];
    ArrayTakes(ops, codeOf, code, fs, Int(1), Int(1), w2);
  }

  lemma {:induction false} CalleeMeans(ops: Ops, frames: seq<Frame>, w: World)
    requires ops.loaded(TakesOne())
    ensures Evaluator.CallFunction(0, ops, Some(Int(7)), frames, Method(TakesOne()), [], w) == Stop(Missing(TakesOne(), 0, Some(Int(7))))
  {
  }

  lemma {:induction false} CallerMeans(ops: Ops, w: World)
    requires ops.loaded(TakesOne()) && ops.loaded(PassesNone())
    ensures Meaning(1, ops, [], [], Method(PassesNone()), [], w) == Stop(Missing(TakesOne(), 0, Some(Int(7))))
  {
    var (frame, w1) := NewFrame(PassesNone(), map[], w);
    CalleeMeans(ops, [frame], w1);
    var items := [Lit(Int(7)), CallExpr(FnExpr(TakesOne()), [])];
    assert items[1..] == [CallExpr(FnExpr(TakesOne()), [])];
    var stop := Evaluator.ExprStop(Missing(TakesOne(), 0, Some(Int(7))));
    assert Evaluator.EvalExpr(1, ops, items[1], Some(Int(7)), [frame], w1) == stop;
    assert Evaluator.EvalExprs(1, ops, items, None, [frame], w1) == Evaluator.ListStop(stop.why);
    assert [] + [frame] == [frame];
    assert Evaluator.EvalStmts(1, ops, PassesNone().body, None, [frame], w1) == Evaluator.StmtStop(stop.why);
  }

  /** The 7 that the caller had on the stack becomes the argument that was not given, and the
      callee's own operand is written over it: the array made is [1, 1]. */
  lemma {:induction false} OperandLost(ops: Ops, w: World)
    requires ops.loaded(TakesOne()) && ops.loaded(PassesNone())
    ensures Meaning(1, ops, [], [], Method(PassesNone()), [], w) == Stop(Missing(TakesOne(), 0, Some(Int(7))))
    ensures var r := CallSlots(1, ops, fn => FnCode(fn), [], 0, [], Method(PassesNone()), [], w);
            && r.Back? && r.v == Object(|w.heap|)
            && r.w == World(w.cells + [Int(7)], w.heap + [ArrayObj([Int(1), Int(1)])])
  {
    ExampleCode();
    hide FnCode, RunSlots, Meaning;
    CallerMeans(ops, w);
    var (frame, w1) := NewFrame(PassesNone(), map[], w);
    assert w1.cells == w.cells;
    assert Overlay([][..0] + [], []) == [] && [] + [frame] == [frame];
    CallerRuns(ops, fn => FnCode(fn), FnCode(PassesNone()), [frame], w);
  }
}
