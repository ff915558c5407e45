/** The interpreter: one shared operand stack, a frame stack, and a loop over the words of a
    code object that re-enters itself through calls. */
module Interpreter {
  import opened Options
  import opened Syntax
  import opened Semantics
  import opened CodeObjects
  import opened Machine
  import opened Slots

  /** What a call comes back with. `Aborted`: the process was stopped by chimp_bug or an
      operation failed. `Exhausted`: the fuel ran out. */
  datatype Result = Got(v: Value) | Aborted | Exhausted

  /** The interpreter ends as the slot machine does: with its value, slots, variables and heap,
      or without a value for the same reason. */
  ghost predicate Ends(exit: Exit, res: Result, slots: seq<Value>, w: World) {
    match exit
    case Back(v, slots', w') => res == Got(v) && slots == slots' && w == w'
    case Halt(OutOfFuel) => res == Exhausted
    case Halt(_) => res == Aborted
  }

  /** Every word of the code object is an instruction whose operand exists. */
  predicate Decodable(co: CodeObject) {
    forall pc :: 0 <= pc < |co.words| ==> Decode(co, pc).Some?
  }

  /** The instructions of a code object's words. */
  function Decoded(co: CodeObject): (code: seq<Instr>)
    ensures Decodable(co) ==> Decodes(co, code)
  {
    if Decodable(co) then seq(|co.words|, pc requires 0 <= pc < |co.words| && Decode(co, pc).Some? => Decode(co, pc).value) else []
  }

  class Vm {
    const ops: Ops
    const codeOf: FnDecl -> CodeObject
    ghost const meaning: FnDecl -> seq<Instr>
    var slots: seq<Value>
    var size: nat
    var frames: seq<Frame>
    var world: World

    constructor (ops: Ops, codeOf: FnDecl -> CodeObject, world: World, ghost meaning: FnDecl -> seq<Instr>)
      requires forall fn :: Decodes(codeOf(fn), meaning(fn))
      ensures Valid() && this.ops == ops && this.codeOf == codeOf && this.meaning == meaning
      ensures slots == [] && size == 0 && frames == [] && this.world == world
    {
      this.ops, this.codeOf, this.meaning := ops, codeOf, meaning;
      slots, size, frames := [], 0, [];
      this.world := world;
    }

    ghost predicate Valid()
      reads this
    {
      size <= |slots| && forall fn :: Decodes(codeOf(fn), meaning(fn))
    }

    /** The operands in use; slots above `size` hold stale values. */
    ghost function Stack(): seq<Value>
      requires size <= |slots|
      reads this
    {
      slots[..size]
    }

    /** Write the slot above the operands, or append one. */
    method Push(v: Value)
      requires size <= |slots|
      modifies this`slots, this`size
      ensures size == old(size) + 1 <= |slots| && Stack() == old(Stack()) + [v] && slots == Overlay(old(Stack()) + [v], old(slots))
    {
      if size < |slots| {
        slots := slots[size := v];
      } else {
        slots := slots + [v];
      }
      size := size + 1;
    }

    /** Popping an empty stack yields nil; the slot keeps its value. */
    method Pop() returns (v: Value)
      requires size <= |slots|
      modifies this`size
      ensures size == Lower(old(size)) <= |slots| && v == TopOrNil(old(Stack())) && Stack() == old(Stack())[..size]
    {
      if size == 0 { return Nil; }
      size := size - 1;
      v := slots[size];
    }

    method Top() returns (v: Value)
      requires size <= |slots|
      ensures v == TopOrNil(Stack())
    {
      v := if size == 0 then Nil else slots[size - 1];
    }

    /** Pop `n` operands; the last popped comes first. */
    method PopArgs(n: nat, allowNull: bool) returns (ok: bool, vs: seq<Value>)
      requires size <= |slots|
      modifies this`size
      ensures size <= |slots|
      ensures match PopMany(0, old(Stack()), n, allowNull)
              case PoppedMany(vs', rest) => ok && vs == vs' && Stack() == rest
              case PopFailed(_) => !ok
    {
      vs := [];
      ghost var whole := PopMany(0, Stack(), n, allowNull);
      var i := 0;
      while i < n
        invariant i <= n && size <= |slots| && slots == old(slots)
        invariant match PopMany(0, Stack(), n - i, allowNull)
                  case PoppedMany(vs', rest) => whole == PoppedMany(vs' + vs, rest)
                  case PopFailed(why) => whole == PopFailed(why)
      {
        ghost var stack := Stack();
        var v := Pop();
        assert PopValue(0, stack) == Popped(v, Stack());
        if v == Null && !allowNull { return false, []; }
        assert forall a: seq<Value> :: a + [v] + vs == a + ([v] + vs);
        vs := [v] + vs;
        i := i + 1;
      }
      ok := true;
    }

    /** Make a hash from the top `n` pairs, the last one first. */
    method PopHash(n: nat) returns (ok: bool, pairs: seq<(Value, Value)>)
      requires size <= |slots|
      modifies this`size
      ensures size <= |slots|
      ensures var r := PopPairs(ops, world.heap, 0, old(Stack()), n, []);
              match r.0
              case Ok(rest, _) => ok && pairs == r.1 && Stack() == rest
              case Bad(_) => !ok
    {
      pairs := [];
      ghost var whole := PopPairs(ops, world.heap, 0, Stack(), n, []);
      var i := 0;
      while i < n
        invariant i <= n && size <= |slots| && slots == old(slots)
        invariant whole == PopPairs(ops, world.heap, 0, Stack(), n - i, pairs)
      {
        ghost var stack := Stack();
        var v := Pop();
        assert PopValue(0, stack) == Popped(v, Stack());
        if v == Null { return false, []; }
        ghost var rest := Stack();
        var k := Pop();
        assert PopValue(0, rest) == Popped(k, Stack());
        if k == Null || k == Nil { return false, []; }
        match HashPut(ops, world.heap, pairs, k, v)
        case None => return false, [];
        case Some(more) => pairs := more;
        i := i + 1;
      }
      ok := true;
    }

    /** The value of a name: a local of the top frame, dereferenced if it is a variable, or
        else a name of the module or a builtin. */
    method ResolveName(id: Name) returns (ok: bool, v: Value)
      requires frames != []
      ensures match Resolve(ops, Last(frames), id, world)
              case Some(v') => ok && v == v'
              case None => !ok
    {
      v := Null;
      var frame := Last(frames);
      if id in frame.locals {
        match frame.locals[id]
        case Direct(d) => return true, d;
        case Cell(loc) =>
          if loc >= |world.cells| { return false, Null; }
          return true, world.cells[loc];
      }
      match ops.global(world.heap, frame.fn, id)
      case None => ok := false;
      case Some(g) => ok, v := true, g;
    }

    /** The binding a closure captures: the nearest frame that has the name, walking up the
        frame stack, or else a name of the innermost frame's module or a builtin. */
    method ResolveBinding(id: Name) returns (ok: bool, b: Binding)
      requires frames != []
      ensures match Capture(ops, frames, Last(frames), id, world)
              case Some(b') => ok && b == b'
              case None => !ok
    {
      b := Direct(Null);
      var i := |frames|;
      assert frames[..i] == frames;
      while i > 0
        invariant 0 <= i <= |frames|
        invariant Capture(ops, frames, Last(frames), id, world) == Capture(ops, frames[..i], Last(frames), id, world)
      {
        i := i - 1;
        assert Init(frames[..i + 1]) == frames[..i] && Last(frames[..i + 1]) == frames[i];
        if id in frames[i].locals {
          return true, frames[i].locals[id];
        }
      }
      match ops.global(world.heap, Last(frames).fn, id)
      case None => ok := false;
      case Some(g) => ok, b := true, Direct(g);
    }

    method CaptureNames(ids: seq<Name>) returns (ok: bool, bindings: map<Name, Binding>)
      requires frames != []
      ensures match CaptureAll(ops, frames, ids, world)
              case Some(m) => ok && bindings == m
              case None => !ok
    {
      bindings := map[];
      var i := 0;
      while i < |ids|
        invariant i <= |ids| && CaptureAll(ops, frames, ids[..i], world) == Some(bindings)
      {
        assert Init(ids[..i + 1]) == ids[..i] && Last(ids[..i + 1]) == ids[i];
        var b;
        ok, b := ResolveBinding(ids[i]);
        if !ok {
          CaptureFails(ops, frames, ids, i + 1, world);
          return;
        }
        bindings := bindings[ids[i] := b];
        i := i + 1;
      }
      assert ids[..i] == ids;
      ok := true;
    }

    /** Store the popped value in the variable a name is bound to in the top frame. */
    method StoreLocal(id: Name, v: Value) returns (ok: bool)
      requires frames != []
      modifies this`world
      ensures match Store(Last(frames), id, v, old(world))
              case Some(w) => ok && world == w
              case None => !ok && world == old(world)
    {
      ok := false;
      var frame := Last(frames);
      if v != Null && id in frame.locals {
        match frame.locals[id]
        case Direct(_) =>
        case Cell(loc) =>
          if loc < |world.cells| {
            world := world.(cells := world.cells[loc := v]);
            ok := true;
          }
      }
    }

    /** A step that started with `before` in the slots ended like `step`. */
    ghost predicate Stepped(step: Step, ok: bool, before: seq<Value>)
      requires size <= |slots|
      reads this
    {
      && |slots| >= |before|
      && match step
         case Ok(stack, w) => ok && Stack() == stack && slots == Overlay(stack, before) && world == w
         case Bad(_) => !ok
    }

    /** Push the result of an operation; the null pointer means that it failed. */
    method PushResult(r: (Heap, Value)) returns (ok: bool)
      requires size <= |slots|
      modifies this`slots, this`size, this`world
      ensures size <= |slots|
      ensures Stepped(PushNonNull(old(Stack()), old(world.cells), r), ok, old(slots))
    {
      ok := r.1 != Null;
      if ok {
        Push(r.1);
        world := world.(heap := r.0);
      }
    }

    /** An instruction that neither jumps, calls nor returns. */
    method Step(i: Instr) returns (ok: bool)
      requires frames != [] && !IsControl(i) && size <= |slots|
      modifies this`slots, this`size, this`world
      ensures size <= |slots|
      ensures Stepped(Exec(ops, i, 0, old(Stack()), frames, old(world)), ok, old(slots))
    {
      if i.PushConst? {
        ok := i.v != Null;
        if ok { Push(i.v); }
      } else if i.PushNil? {
        Push(Nil);
        ok := true;
      } else if i.PushName? {
        var v;
        ok, v := ResolveName(i.id);
        if ok { Push(v); }
      } else if i.Dup? {
        var v := Top();
        ok := v != Null;
        if ok { Push(v); }
      } else if i.MakeArray? {
        var vs;
        ok, vs := PopArgs(i.n, false);
        if ok { PushObject(ArrayObj(vs)); }
      } else if i.MakeHash? {
        var pairs;
        ok, pairs := PopHash(i.n);
        if ok { PushObject(HashObj(pairs)); }
      } else if IsBinary(i) {
        ok := StepBinary(i);
      } else {
        ok := StepUnary(i);
      }
    }

    method PushObject(o: Obj)
      requires size <= |slots|
      modifies this`slots, this`size, this`world
      ensures size <= |slots| && Stack() == old(Stack()) + [Object(old(|world.heap|))] && slots == Overlay(Stack(), old(slots))
      ensures world == old(World(world.cells, world.heap + [o]))
    {
      Push(Object(|world.heap|));
      world := world.(heap := world.heap + [o]);
    }

    method StepUnary(i: Instr) returns (ok: bool)
      requires frames != [] && !IsControl(i) && !IsBinary(i) && size <= |slots|
      requires !i.PushConst? && !i.PushNil? && !i.PushName? && !i.Dup? && !i.MakeArray? && !i.MakeHash?
      modifies this`slots, this`size, this`world
      ensures size <= |slots|
      ensures Stepped(Exec(ops, i, 0, old(Stack()), frames, old(world)), ok, old(slots))
    {
      var v := Pop();
      ok := v != Null;
      if !ok { return; }
      match i {
        case StoreName(id) => ok := StoreLocal(id, v);
        case Pop =>
        case Not => Push(Bool(Falsy(v)));
        case GetClass => Push(ops.classOf(world.heap, v));
        case GetAttr(attr) => ok := PushResult(ops.getattr(world.heap, v, attr));
        case Spawn =>
          ok := !v.Closure?;
          if ok { ok := PushResult(ops.spawn(world.heap, v)); }
        case MakeClosure =>
          ok := v.Method?;
          if ok {
            var bindings;
            ok, bindings := CaptureNames(v.fn.freevars);
            if ok { Push(Closure(v.fn, bindings)); }
          }
      }
    }

    method StepBinary(i: Instr) returns (ok: bool)
      requires frames != [] && IsBinary(i) && size <= |slots|
      modifies this`slots, this`size, this`world
      ensures size <= |slots|
      ensures Stepped(Exec(ops, i, 0, old(Stack()), frames, old(world)), ok, old(slots))
    {
      hide ExecUnary, ExecBinary, PopMany, PopPairs, Resolve;
      var r := Pop();
      ok := r != Null;
      if !ok { return; }
      var l := Pop();
      ok := ApplyBinary(i, l, r);
    }

    /** The operation of a binary instruction on the operands it popped. */
    method ApplyBinary(i: Instr, l: Value, r: Value) returns (ok: bool)
      requires IsBinary(i) && r != Null && size <= |slots|
      modifies this`slots, this`size, this`world
      ensures size <= |slots|
      ensures Stepped(ExecBinary(ops, i, l, r, old(Stack()), old(world)), ok, old(slots))
    {
      ok := l != Null;
      if !ok { return; }
      match i {
        case CompareTop(op) =>
          var o := ops.cmp(world.heap, l, r);
          ok := o != CmpError;
          if ok { Push(Bool(Holds(op, o))); }
        case ArithTop(op) =>
          match ops.arith(world.heap, op, l, r) {
            case None => ok := false;
            case Some((h, v)) =>
              Push(v);
              world := world.(heap := h);
          }
        case GetItem => ok := PushResult(ops.getitem(world.heap, l, r));
      }
    }

    /** The locals of a new frame: a fresh variable for each declared name, and the
        closure's bindings on top. */
    method MakeFrame(fn: FnDecl, bindings: map<Name, Binding>) returns (frame: Frame)
      modifies this`world
      ensures (frame, world) == NewFrame(fn, bindings, old(world))
    {
      ghost var first := |world.cells|;
      var locals := map[];
      var i := 0;
      while i < |fn.vars|
        invariant i <= |fn.vars| && locals == DeclareVars(fn.vars[..i], first)
        invariant world == old(world.(cells := world.cells + seq(i, _ => Null)))
      {
        assert Init(fn.vars[..i + 1]) == fn.vars[..i] && Last(fn.vars[..i + 1]) == fn.vars[i];
        locals := locals[fn.vars[i] := Cell(|world.cells|)];
        world := world.(cells := world.cells + [Null]);
        assert seq(i + 1, _ => Null) == seq(i, _ => Null) + [Null];
        i := i + 1;
      }
      assert fn.vars[..i] == fn.vars;
      assert world.cells == old(world.cells) + seq(|fn.vars|, i => Null);
      frame := Frame(fn, locals + bindings);
    }

    /** Whether a conditional jump is taken; unknown if the operand is the null pointer. */
    method Test(i: Instr) returns (known: bool, taken: bool)
      requires size <= |slots|
      modifies this`size
      ensures size == Lower(old(size)) <= |slots|
      ensures var v := TopOrNil(old(Stack())); known == (v != Null) && taken == (Falsy(v) == i.JumpIfFalse?)
    {
      var v := Pop();
      known, taken := v != Null, Falsy(v) == i.JumpIfFalse?;
    }

    /** Run a frame to its end. `code` is what its words stand for. */
    method EvalFrame(frame: Frame, co: CodeObject, fuel: nat, ghost code: seq<Instr>) returns (res: Result)
      requires Valid() && Decodes(co, code)
      modifies this
      ensures Valid() && |slots| >= old(|slots|) && (res.Got? ==> frames == old(frames))
      ensures Ends(RunSlots(fuel, ops, meaning, code, 0, old(slots), old(size), old(frames) + [frame], old(world)), res, slots, world)
      decreases fuel, 1
    {
      hide Decode, Exec, CallSlots, Decodes, RunSlots, CallStep, Falsy, Overlay;
      ghost var whole := RunSlots(fuel, ops, meaning, code, 0, slots, size, frames + [frame], world);
      frames := frames + [frame];
      assert |co.words| == |code| by { WordsDecode(co, code, 0); }
      var pc: nat, f: nat := 0, fuel;
      while pc < |co.words|
        invariant Valid() && |slots| >= old(|slots|) && frames == old(frames) + [frame] && f <= fuel
        invariant whole == RunSlots(f, ops, meaning, code, pc, slots, size, frames, world)
        decreases f, |co.words| - pc
      {
        WordsDecode(co, code, pc);
        var i := Decode(co, pc).value;
        if i.RetTop? {
          break;
        } else if i.Jump? {
          SlotsJump(f, ops, meaning, code, pc, slots, size, frames, world);
          if i.addr <= pc {
            if f == 0 { return Exhausted; }
            f := f - 1;
          }
          pc := i.addr;
        } else if i.JumpIfFalse? || i.JumpIfTrue? {
          SlotsBranch(f, ops, meaning, code, pc, slots, size, frames, world);
          var known, taken := Test(i);
          if !known { return Aborted; }
          if !taken {
            pc := pc + 1;
          } else {
            if i.addr <= pc {
              if f == 0 { return Exhausted; }
              f := f - 1;
            }
            pc := i.addr;
          }
        } else if i.Call? {
          StepCalls(f, ops, meaning, code, pc, slots, size, frames, world);
          res := CallFromTop(i.nargs, f);
          if !res.Got? { return; }
          pc := pc + 1;
        } else {
          PlainTakes(f, ops, meaning, code, pc, slots, size, frames, world);
          var ok := Step(i);
          if !ok { return Aborted; }
          pc := pc + 1;
        }
      }
      SlotsEnd(f, ops, meaning, code, pc, slots, size, frames, world);
      frames := Init(frames);
      assert frames == old(frames);
      var v := Pop();
      res := Got(v);
    }

    /** The call instruction: arguments, then the target, come off the stack, and the result
        goes on it. */
    method CallFromTop(nargs: nat, fuel: nat) returns (res: Result)
      requires Valid()
      modifies this
      ensures Valid() && |slots| >= old(|slots|) && (res.Got? ==> frames == old(frames) && size == Lower(PopSize(old(size), nargs)) + 1)
      ensures Ends(CallStep(fuel, ops, meaning, nargs, old(slots), old(size), old(frames), old(world)), res, slots, world)
      decreases fuel, 0
    {
      hide CallSlots, Decodes, LastMany, Overlay;
      PopManySlots(Stack(), nargs);
      var ok, args := PopArgs(nargs, true);
      var target := Pop();
      if target == Null { return Aborted; }
      if fuel == 0 { return Exhausted; }
      res := CallObject(target, args, fuel - 1);
      if !res.Got? { return; }
      if res.v == Null { return Aborted; }
      Push(res.v);
    }

    /** Call a value with arguments. Afterwards the stack has the size it had before. */
    method CallObject(target: Value, args: seq<Value>, fuel: nat) returns (res: Result)
      requires Valid()
      modifies this
      ensures Valid() && |slots| >= old(|slots|) && (res.Got? ==> frames == old(frames) && size == old(size))
      ensures Ends(CallSlots(fuel, ops, meaning, old(slots), old(size), old(frames), target, args, old(world)), res, slots, world)
      decreases fuel, 3
    {
      hide RunSlots, Decodes;
      if target.Method? {
        res := Invoke(target.fn, map[], args, fuel);
      } else if target.Closure? {
        res := Invoke(target.fn, target.bindings, args, fuel);
      } else {
        res := CallNative(ops.native(world.heap, target, args), fuel);
      }
    }

    /** Run a bytecode method above the operands of its caller, and restore the stack's size. */
    method Invoke(fn: FnDecl, bindings: map<Name, Binding>, args: seq<Value>, fuel: nat) returns (res: Result)
      requires Valid()
      modifies this
      ensures Valid() && |slots| >= old(|slots|) && (res.Got? ==> frames == old(frames) && size == old(size))
      ensures var (frame, w) := NewFrame(fn, bindings, old(world));
              Ends(RunSlots(fuel, ops, meaning, meaning(fn), 0, Overlay(old(Stack()) + args, old(slots)), old(size) + |args|, old(frames) + [frame], w),
                   res, slots, world)
      decreases fuel, 2
    {
      hide RunSlots, Decodes;
      var saved := size;
      ghost var stack := Stack();
      var frame := MakeFrame(fn, bindings);
      ghost var w := world;
      var i := 0;
      while i < |args|
        invariant i <= |args| && frames == old(frames) && world == w
        invariant size == saved + i <= |slots| && Stack() == stack + args[..i] && slots == Overlay(Stack(), old(slots))
      {
        Push(args[i]);
        i := i + 1;
      }
      assert args[..i] == args && (frame, w) == NewFrame(fn, bindings, old(world));
      assert slots == Overlay(old(Stack()) + args, old(slots));
      res := EvalFrame(frame, codeOf(fn), fuel, meaning(fn));
      size := saved;
    }

    /** Run native code, which may call back into the interpreter any number of times. */
    method CallNative(start: NativeAct, fuel: nat) returns (res: Result)
      requires Valid()
      modifies this
      ensures Valid() && |slots| >= old(|slots|) && (res.Got? ==> frames == old(frames) && size == old(size))
      ensures Ends(NativeSlots(fuel, ops, meaning, old(slots), old(size), old(frames), start, old(world)), res, slots, world)
      decreases fuel, 0
    {
      hide CallSlots, Decodes;
      ghost var whole := NativeSlots(fuel, ops, meaning, slots, size, frames, start, world);
      var act, f: nat := start, fuel;
      while act.Invoke?
        invariant Valid() && |slots| >= old(|slots|) && frames == old(frames) && size == old(size) && f <= fuel
        invariant whole == NativeSlots(f, ops, meaning, slots, size, frames, act, world)
        decreases f
      {
        if f == 0 { return Exhausted; }
        world := world.(heap := act.heap);
        res := CallObject(act.target, act.args, f - 1);
        if !res.Got? { return; }
        if res.v == Null { return Aborted; }
        act := ops.resume(world.heap, act.saved, res.v);
        f := f - 1;
      }
      if act.GiveUp? { return Aborted; }
      world := world.(heap := act.heap);
      res := Got(act.v);
    }
  }

  // ---------- one step of the machine ----------

  lemma {:induction false} SlotsJump(fuel: nat, ops: Ops, codeOf: FnDecl -> seq<Instr>, code: seq<Instr>, pc: nat,
                                     slots: seq<Value>, size: nat, frames: seq<Frame>, w: World)
    requires frames != [] && size <= |slots| && pc < |code| && code[pc].Jump?
    ensures RunSlots(fuel, ops, codeOf, code, pc, slots, size, frames, w) ==
            GoSlots(fuel, ops, codeOf, code, pc, code[pc].addr, slots, size, frames, w)
  {
  }

  lemma {:induction false} SlotsBranch(fuel: nat, ops: Ops, codeOf: FnDecl -> seq<Instr>, code: seq<Instr>, pc: nat,
                                       slots: seq<Value>, size: nat, frames: seq<Frame>, w: World)
    requires frames != [] && size <= |slots| && pc < |code| && (code[pc].JumpIfFalse? || code[pc].JumpIfTrue?)
    ensures RunSlots(fuel, ops, codeOf, code, pc, slots, size, frames, w) ==
      var v := TopOrNil(slots[..size]);
      if v == Null then Halt(Abort)
      else if Falsy(v) != code[pc].JumpIfFalse? then RunSlots(fuel, ops, codeOf, code, pc + 1, slots, Lower(size), frames, w)
      else GoSlots(fuel, ops, codeOf, code, pc, code[pc].addr, slots, Lower(size), frames, w)
  {
  }

  lemma {:induction false} SlotsEnd(fuel: nat, ops: Ops, codeOf: FnDecl -> seq<Instr>, code: seq<Instr>, pc: nat,
                                    slots: seq<Value>, size: nat, frames: seq<Frame>, w: World)
    requires frames != [] && size <= |slots| && (pc >= |code| || code[pc].RetTop?)
    ensures RunSlots(fuel, ops, codeOf, code, pc, slots, size, frames, w) == Back(TopOrNil(slots[..size]), slots, w)
  {
  }

  lemma {:induction false} WordsDecode(co: CodeObject, code: seq<Instr>, pc: nat)
    requires Decodes(co, code)
    ensures |co.words| == |code|
    ensures pc < |code| ==> Decode(co, pc) == Some(code[pc])
  {
  }

  /** A name that cannot be captured spoils the whole closure. */
  lemma {:induction false} CaptureFails(ops: Ops, frames: seq<Frame>, ids: seq<Name>, n: nat, w: World)
    requires frames != [] && n <= |ids| && CaptureAll(ops, frames, ids[..n], w).None?
    ensures CaptureAll(ops, frames, ids, w).None?
    decreases |ids| - n
  {
    if n == |ids| {
      assert ids[..n] == ids;
    } else {
      assert Init(ids[..n + 1]) == ids[..n];
      CaptureFails(ops, frames, ids, n + 1, w);
    }
  }
}
