/** The history of a run: the calls it enters, the closures it makes, and the variables it reads
    and writes, in order. What a closure shares with the function that made it is stated here for
    whole runs, whichever calls have ended in between. */
module History {
  import opened Options
  import opened Syntax
  import opened Semantics
  import opened Machine
  import opened Closures

  /** `frame` is the frame in which a variable is read or written; `Entered` is the frame pushed
      to call `target`; `Made` is a closure made while `frames` were running. */
  datatype Event =
    | Entered(frame: Frame, target: Value)
    | Made(frames: seq<Frame>, closure: Value)
    | Read(frame: Frame, id: Name, v: Value)
    | Wrote(frame: Frame, id: Name, v: Value)

  predicate IsFunction(target: Value) {
    target.Method? || target.Closure?
  }

  /** The frame a call of `target` pushes. */
  function FrameOf(target: Value, w: World): Frame
    requires IsFunction(target)
  {
    NewFrame(target.fn, if target.Closure? then target.bindings else map[], w).0
  }

  // ---------- the history of a run ----------

  /** What an instruction that is carried out adds to the history. */
  function Noted(i: Instr, stack: seq<Value>, frames: seq<Frame>, after: seq<Value>): seq<Event>
    requires frames != []
  {
    match i
    case PushName(id) => [Read(Last(frames), id, TopOrNil(after))]
    case StoreName(id) => [Wrote(Last(frames), id, TopOrNil(stack))]
    case MakeClosure => [Made(frames, TopOrNil(after))]
    case _ => []
  }

  /** The history of `Machine.Run` on the same arguments. */
  function RunHistory(fuel: nat, ops: Ops, codeOf: FnDecl -> seq<Instr>, code: seq<Instr>, pc: nat,
                      base: nat, stack: seq<Value>, frames: seq<Frame>, w: World): seq<Event>
    requires frames != []
    decreases fuel, if pc < |code| then |code| - pc else 0
  {
    if pc >= |code| then [] else
    match code[pc]
    case RetTop => []
    case Jump(a) => JumpHistory(fuel, ops, codeOf, code, pc, a, base, stack, frames, w)
    case JumpIfFalse(a) => BranchHistory(fuel, ops, codeOf, code, pc, a, base, stack, frames, w)
    case JumpIfTrue(a) => BranchHistory(fuel, ops, codeOf, code, pc, a, base, stack, frames, w)
    case Call(n) =>
      (match PopMany(base, stack, n, true)
       case PopFailed(_) => []
       case PoppedMany(args, rest) =>
         match PopValue(base, rest)
         case NoOperand => []
         case Popped(target, rest') =>
           if target == Null || fuel == 0 then [] else
           CallHistory(fuel - 1, ops, codeOf, rest', frames, target, args, w) +
           match CallValue(fuel - 1, ops, codeOf, rest', frames, target, args, w)
           case Stop(_) => []
           case Done(v, w') =>
             if v == Null then [] else RunHistory(fuel, ops, codeOf, code, pc + 1, base, rest' + [v], frames, w'))
    case i =>
      match Exec(ops, i, base, stack, frames, w)
      case Bad(_) => []
      case Ok(stack', w') => Noted(i, stack, frames, stack') + RunHistory(fuel, ops, codeOf, code, pc + 1, base, stack', frames, w')
  }

  function JumpHistory(fuel: nat, ops: Ops, codeOf: FnDecl -> seq<Instr>, code: seq<Instr>, pc: nat, a: nat,
                       base: nat, stack: seq<Value>, frames: seq<Frame>, w: World): seq<Event>
    requires frames != [] && pc < |code|
    decreases fuel, |code| - pc, 0
  {
    if a > pc then RunHistory(fuel, ops, codeOf, code, a, base, stack, frames, w)
    else if fuel == 0 then []
    else RunHistory(fuel - 1, ops, codeOf, code, a, base, stack, frames, w)
  }

  function BranchHistory(fuel: nat, ops: Ops, codeOf: FnDecl -> seq<Instr>, code: seq<Instr>, pc: nat, a: nat,
                         base: nat, stack: seq<Value>, frames: seq<Frame>, w: World): seq<Event>
    requires frames != [] && pc < |code| && (code[pc] == JumpIfFalse(a) || code[pc] == JumpIfTrue(a))
    decreases fuel, |code| - pc, 1
  {
    match PopValue(base, stack)
    case NoOperand => []
    case Popped(v, rest) =>
      if v == Null then []
      else if Falsy(v) != code[pc].JumpIfFalse? then RunHistory(fuel, ops, codeOf, code, pc + 1, base, rest, frames, w)
      else JumpHistory(fuel, ops, codeOf, code, pc, a, base, rest, frames, w)
  }

  function CallHistory(fuel: nat, ops: Ops, codeOf: FnDecl -> seq<Instr>, stack: seq<Value>,
                       frames: seq<Frame>, target: Value, args: seq<Value>, w: World): seq<Event>
    decreases fuel
  {
    if target.Method? || target.Closure? then
      var (frame, w1) := NewFrame(target.fn, if target.Closure? then target.bindings else map[], w);
      [Entered(frame, target)] + RunHistory(fuel, ops, codeOf, codeOf(target.fn), 0, |stack|, stack + args, frames + [frame], w1)
    else
      NativeHistory(fuel, ops, codeOf, stack, frames, ops.native(w.heap, target, args), w)
  }

  function NativeHistory(fuel: nat, ops: Ops, codeOf: FnDecl -> seq<Instr>, stack: seq<Value>,
                         frames: seq<Frame>, act: NativeAct, w: World): seq<Event>
    decreases fuel, 0
  {
    if !act.Invoke? || fuel == 0 then [] else
    var w1 := World(w.cells, act.heap);
    CallHistory(fuel - 1, ops, codeOf, stack, frames, act.target, act.args, w1) +
    match CallValue(fuel - 1, ops, codeOf, stack, frames, act.target, act.args, w1)
    case Stop(_) => []
    case Done(v, w') =>
      if v == Null then [] else NativeHistory(fuel - 1, ops, codeOf, stack, frames, ops.resume(w'.heap, act.saved, v), w')
  }

  // ---------- a history is right ----------

  /** The variables after an event. */
  function After(cells: seq<Value>, e: Event): seq<Value> {
    match e
    case Entered(frame, _) => cells + seq(|frame.fn.vars|, i => Null)
    case Wrote(frame, id, v) =>
      if id in frame.locals && frame.locals[id].Cell? && frame.locals[id].loc < |cells| then cells[frame.locals[id].loc := v] else cells
    case _ => cells
  }

  function AfterAll(cells: seq<Value>, t: seq<Event>): seq<Value> {
    if t == [] then cells else After(AfterAll(cells, Init(t)), Last(t))
  }

  /** An event as it must be when the variables hold `cells`: a call gets the frame its target
      and the variables so far determine, a closure has what its literal captures, and a variable
      that is read or written is one of these. */
  ghost predicate Right(ops: Ops, cells: seq<Value>, e: Event) {
    match e
    case Entered(frame, target) =>
      IsFunction(target) && frame == FrameOf(target, World(cells, []))
    case Made(frames, closure) =>
      && frames != [] && closure.Closure?
      && exists h :: CaptureAll(ops, frames, closure.fn.freevars, World(cells, h)) == Some(closure.bindings)
    case Read(frame, id, v) =>
      id in frame.locals && frame.locals[id].Cell? ==> frame.locals[id].loc < |cells| && v == cells[frame.locals[id].loc]
    case Wrote(frame, id, v) =>
      id in frame.locals && frame.locals[id].Cell? && frame.locals[id].loc < |cells|
  }

  ghost predicate AllRight(ops: Ops, cells: seq<Value>, t: seq<Event>) {
    t == [] || (AllRight(ops, cells, Init(t)) && Right(ops, AfterAll(cells, Init(t)), Last(t)))
  }

  lemma {:induction false} RightAppend(ops: Ops, cells: seq<Value>, a: seq<Event>, b: seq<Event>)
    ensures AfterAll(cells, a + b) == AfterAll(AfterAll(cells, a), b)
    ensures AllRight(ops, cells, a) && AllRight(ops, AfterAll(cells, a), b) ==> AllRight(ops, cells, a + b)
    decreases |b|
  {
    hide After, Right;
    if b == [] {
      assert a + b == a;
    } else {
      assert Init(a + b) == a + Init(b) && Last(a + b) == Last(b);
      RightAppend(ops, cells, a, Init(b));
    }
  }

  lemma {:induction false} RightOne(ops: Ops, cells: seq<Value>, e: Event)
    ensures AfterAll(cells, [e]) == After(cells, e)
    ensures AllRight(ops, cells, [e]) <==> Right(ops, cells, e)
  {
    assert Init([e]) == [] && Last([e]) == e;
  }

  /** The history of an instruction. */
  lemma {:induction false} ExecRight(ops: Ops, i: Instr, base: nat, stack: seq<Value>, frames: seq<Frame>, w: World)
    requires frames != [] && !IsControl(i) && Exec(ops, i, base, stack, frames, w).Ok?
    ensures var s := Exec(ops, i, base, stack, frames, w);
            var t := Noted(i, stack, frames, s.stack);
      AllRight(ops, w.cells, t) && AfterAll(w.cells, t) == s.w.cells
  {
    hide CaptureAll, PopMany, PopPairs, AfterAll, AllRight;
    var s := Exec(ops, i, base, stack, frames, w);
    if i.PushName? || i.StoreName? || i.MakeClosure? {
      RightOne(ops, w.cells, Noted(i, stack, frames, s.stack)[0]);
      if i.MakeClosure? { MadeRight(ops, base, stack, frames, w); }
    } else {
      RightNone(ops, w.cells);
    }
  }

  lemma {:induction false} RightNone(ops: Ops, cells: seq<Value>)
    ensures AllRight(ops, cells, []) && AfterAll(cells, []) == cells
  {
  }

  lemma {:induction false} MadeRight(ops: Ops, base: nat, stack: seq<Value>, frames: seq<Frame>, w: World)
    requires frames != [] && Exec(ops, MakeClosure, base, stack, frames, w).Ok?
    ensures var s := Exec(ops, MakeClosure, base, stack, frames, w);
      s.w == w && Right(ops, w.cells, Made(frames, TopOrNil(s.stack)))
  {
    hide CaptureAll;
    var v := PopValue(base, stack).v;
    assert CaptureAll(ops, frames, v.fn.freevars, World(w.cells, w.heap)).Some?;
  }

  /** `t` is right, and leads to the variables at the end of the run if the run ends. */
  ghost predicate Explains(ops: Ops, w: World, t: seq<Event>, r: Outcome) {
    AllRight(ops, w.cells, t) && (r.Done? ==> r.w.cells == AfterAll(w.cells, t))
  }

  lemma {:induction false} ExplainsAppend(ops: Ops, w: World, a: seq<Event>, w1: World, b: seq<Event>, r: Outcome)
    requires AllRight(ops, w.cells, a) && w1.cells == AfterAll(w.cells, a) && Explains(ops, w1, b, r)
    ensures Explains(ops, w, a + b, r)
  {
    hide AllRight, AfterAll;
    RightAppend(ops, w.cells, a, b);
  }

  /** Every run is explained by its history. */
  lemma {:induction false} RunExplained(fuel: nat, ops: Ops, codeOf: FnDecl -> seq<Instr>, code: seq<Instr>, pc: nat,
                                        base: nat, stack: seq<Value>, frames: seq<Frame>, w: World)
    requires frames != []
    ensures Explains(ops, w, RunHistory(fuel, ops, codeOf, code, pc, base, stack, frames, w),
                     Run(fuel, ops, codeOf, code, pc, base, stack, frames, w))
    decreases fuel, if pc < |code| then |code| - pc else 0
  {
    hide Exec, PopMany, CallValue, CallHistory, Noted, AllRight, AfterAll;
    RightNone(ops, w.cells);
    if pc < |code| {
      match code[pc]
      case RetTop =>
      case Jump(a) =>
        if a > pc { RunExplained(fuel, ops, codeOf, code, a, base, stack, frames, w); }
        else if fuel > 0 { RunExplained(fuel - 1, ops, codeOf, code, a, base, stack, frames, w); }
      case JumpIfFalse(a) => BranchExplained(fuel, ops, codeOf, code, pc, a, base, stack, frames, w);
      case JumpIfTrue(a) => BranchExplained(fuel, ops, codeOf, code, pc, a, base, stack, frames, w);
      case Call(n) => AfterCallExplained(fuel, ops, codeOf, code, pc, n, base, stack, frames, w);
      case i =>
        var s := Exec(ops, i, base, stack, frames, w);
        if s.Ok? {
          ExecRight(ops, i, base, stack, frames, w);
          RunExplained(fuel, ops, codeOf, code, pc + 1, base, s.stack, frames, s.w);
          ExplainsAppend(ops, w, Noted(i, stack, frames, s.stack), s.w, RunHistory(fuel, ops, codeOf, code, pc + 1, base, s.stack, frames, s.w),
                         Run(fuel, ops, codeOf, code, pc + 1, base, s.stack, frames, s.w));
        }
    }
  }

  lemma {:induction false} BranchExplained(fuel: nat, ops: Ops, codeOf: FnDecl -> seq<Instr>, code: seq<Instr>, pc: nat, a: nat,
                                           base: nat, stack: seq<Value>, frames: seq<Frame>, w: World)
    requires frames != [] && pc < |code| && (code[pc] == JumpIfFalse(a) || code[pc] == JumpIfTrue(a))
    ensures Explains(ops, w, BranchHistory(fuel, ops, codeOf, code, pc, a, base, stack, frames, w),
                     Run(fuel, ops, codeOf, code, pc, base, stack, frames, w))
    decreases fuel, |code| - pc, 0
  {
    hide Exec, PopMany, CallValue, AllRight, AfterAll;
    RightNone(ops, w.cells);
    var p := PopValue(base, stack);
    if p.Popped? && p.v != Null {
      if Falsy(p.v) != code[pc].JumpIfFalse? {
        RunExplained(fuel, ops, codeOf, code, pc + 1, base, p.rest, frames, w);
      } else if a > pc {
        RunExplained(fuel, ops, codeOf, code, a, base, p.rest, frames, w);
      } else if fuel > 0 {
        RunExplained(fuel - 1, ops, codeOf, code, a, base, p.rest, frames, w);
      }
    }
  }

  lemma {:induction false} AfterCallExplained(fuel: nat, ops: Ops, codeOf: FnDecl -> seq<Instr>, code: seq<Instr>, pc: nat, n: nat,
                                              base: nat, stack: seq<Value>, frames: seq<Frame>, w: World)
    requires frames != [] && pc < |code| && code[pc] == Call(n)
    ensures Explains(ops, w, RunHistory(fuel, ops, codeOf, code, pc, base, stack, frames, w),
                     Run(fuel, ops, codeOf, code, pc, base, stack, frames, w))
    decreases fuel, |code| - pc, 0
  {
    hide Exec, PopMany, CallValue, CallHistory, AllRight, AfterAll;
    RightNone(ops, w.cells);
    var p := PopMany(base, stack, n, true);
    if p.PoppedMany? && fuel > 0 {
      var t := PopValue(base, p.rest);
      if t.Popped? && t.v != Null {
        CallExplained(fuel - 1, ops, codeOf, t.rest, frames, t.v, p.vs, w);
        var h, r := CallHistory(fuel - 1, ops, codeOf, t.rest, frames, t.v, p.vs, w), CallValue(fuel - 1, ops, codeOf, t.rest, frames, t.v, p.vs, w);
        assert h + [] == h;
        if r.Done? && r.v != Null {
          RunExplained(fuel, ops, codeOf, code, pc + 1, base, t.rest + [r.v], frames, r.w);
          ExplainsAppend(ops, w, h, r.w, RunHistory(fuel, ops, codeOf, code, pc + 1, base, t.rest + [r.v], frames, r.w),
                         Run(fuel, ops, codeOf, code, pc + 1, base, t.rest + [r.v], frames, r.w));
        }
      }
    }
  }

  lemma {:induction false} CallExplained(fuel: nat, ops: Ops, codeOf: FnDecl -> seq<Instr>, stack: seq<Value>,
                                         frames: seq<Frame>, target: Value, args: seq<Value>, w: World)
    ensures Explains(ops, w, CallHistory(fuel, ops, codeOf, stack, frames, target, args, w),
                     CallValue(fuel, ops, codeOf, stack, frames, target, args, w))
    decreases fuel
  {
    hide Run, RunHistory, AllRight, AfterAll;
    if target.Method? || target.Closure? {
      var (frame, w1) := NewFrame(target.fn, if target.Closure? then target.bindings else map[], w);
      RunExplained(fuel, ops, codeOf, codeOf(target.fn), 0, |stack|, stack + args, frames + [frame], w1);
      RightOne(ops, w.cells, Entered(frame, target));
      ExplainsAppend(ops, w, [Entered(frame, target)], w1,
                     RunHistory(fuel, ops, codeOf, codeOf(target.fn), 0, |stack|, stack + args, frames + [frame], w1),
                     Run(fuel, ops, codeOf, codeOf(target.fn), 0, |stack|, stack + args, frames + [frame], w1));
    } else {
      NativeExplained(fuel, ops, codeOf, stack, frames, ops.native(w.heap, target, args), w);
    }
  }

  lemma {:induction false} NativeExplained(fuel: nat, ops: Ops, codeOf: FnDecl -> seq<Instr>, stack: seq<Value>,
                                           frames: seq<Frame>, act: NativeAct, w: World)
    ensures Explains(ops, w, NativeHistory(fuel, ops, codeOf, stack, frames, act, w), RunNative(fuel, ops, codeOf, stack, frames, act, w))
    decreases fuel, 0
  {
    hide CallValue, CallHistory, AllRight, AfterAll;
    RightNone(ops, w.cells);
    if act.Invoke? && fuel > 0 {
      var w1 := World(w.cells, act.heap);
      CallExplained(fuel - 1, ops, codeOf, stack, frames, act.target, act.args, w1);
      var h, r := CallHistory(fuel - 1, ops, codeOf, stack, frames, act.target, act.args, w1),
                  CallValue(fuel - 1, ops, codeOf, stack, frames, act.target, act.args, w1);
      assert h + [] == h;
      if r.Done? && r.v != Null {
        var next := ops.resume(r.w.heap, act.saved, r.v);
        NativeExplained(fuel - 1, ops, codeOf, stack, frames, next, r.w);
        ExplainsAppend(ops, w, h, r.w, NativeHistory(fuel - 1, ops, codeOf, stack, frames, next, r.w),
                       RunNative(fuel - 1, ops, codeOf, stack, frames, next, r.w));
      }
    }
  }

  // ---------- what a history says about variables ----------

  predicate WritesTo(e: Event, c: nat) {
    e.Wrote? && e.id in e.frame.locals && e.frame.locals[e.id] == Cell(c)
  }

  /** The value last stored in a variable: by the last write in the history, or before it. A
      variable that came with a call of the history starts as the null pointer. */
  function Latest(cells: seq<Value>, t: seq<Event>, c: nat): Value {
    if t == [] then (if c < |cells| then cells[c] else Null)
    else if WritesTo(Last(t), c) then Last(t).v
    else Latest(cells, Init(t), c)
  }

  lemma {:induction false} CellIsLatest(ops: Ops, cells: seq<Value>, t: seq<Event>, c: nat)
    requires AllRight(ops, cells, t)
    ensures |AfterAll(cells, t)| >= |cells|
    ensures Latest(cells, t, c) == if c < |AfterAll(cells, t)| then AfterAll(cells, t)[c] else Null
    decreases |t|
  {
    if t != [] { CellIsLatest(ops, cells, Init(t), c); }
  }

  /** An event of a right history is right at its time. */
  lemma {:induction false} RightAt(ops: Ops, cells: seq<Value>, t: seq<Event>, k: nat)
    requires AllRight(ops, cells, t) && k < |t|
    ensures AllRight(ops, cells, t[..k]) && Right(ops, AfterAll(cells, t[..k]), t[k])
    decreases |t|
  {
    if k < |t| - 1 {
      RightAt(ops, cells, Init(t), k);
      assert Init(t)[..k] == t[..k];
    } else {
      assert Init(t) == t[..k];
    }
  }

  /** Nothing the machine does ever removes a variable: the cells a closure holds are still
      there after the frame that declared them has returned. */
  lemma {:induction false} CellsStay(fuel: nat, ops: Ops, codeOf: FnDecl -> seq<Instr>, code: seq<Instr>, pc: nat,
                                     base: nat, stack: seq<Value>, frames: seq<Frame>, w: World)
    requires frames != []
    ensures var r := Run(fuel, ops, codeOf, code, pc, base, stack, frames, w); r.Done? ==> |r.w.cells| >= |w.cells|
  {
    hide Run, RunHistory;
    RunExplained(fuel, ops, codeOf, code, pc, base, stack, frames, w);
    CellIsLatest(ops, w.cells, RunHistory(fuel, ops, codeOf, code, pc, base, stack, frames, w), 0);
  }

  /** Every read of a variable gives the value last stored in it, through whatever frame. */
  lemma {:induction false} ReadsLatest(ops: Ops, cells: seq<Value>, t: seq<Event>, k: nat)
    requires AllRight(ops, cells, t) && k < |t| && t[k].Read?
    requires t[k].id in t[k].frame.locals && t[k].frame.locals[t[k].id].Cell?
    ensures t[k].v == Latest(cells, t[..k], t[k].frame.locals[t[k].id].loc)
  {
    RightAt(ops, cells, t, k);
    CellIsLatest(ops, cells, t[..k], t[k].frame.locals[t[k].id].loc);
  }

  /** The frame pushed to call a closure is one that the frame running when the closure was made
      `Makes`. */
  lemma {:induction false} EnteredMakes(ops: Ops, cells: seq<Value>, t: seq<Event>, m: nat, e: nat)
    requires AllRight(ops, cells, t) && m < |t| && e < |t|
    requires t[m].Made? && t[e].Entered? && t[e].target == t[m].closure
    ensures t[m].frames != [] && Makes(ops, Last(t[m].frames), t[e].frame)
  {
    hide CaptureAll;
    RightAt(ops, cells, t, m);
    RightAt(ops, cells, t, e);
    var frames, now := t[m].frames, AfterAll(cells, t[..m]);
    var h :| CaptureAll(ops, frames, t[m].closure.fn.freevars, World(now, h)) == Some(t[m].closure.bindings);
    assert frames == Init(frames) + [Last(frames)];
    assert t[e].frame.fn == t[m].closure.fn;
  }

  /** Frames of which each called a closure that the one before it made. */
  ghost predicate Nested(t: seq<Event>, fs: seq<Frame>) {
    forall i :: 0 <= i < |fs| - 1 ==> CalledFrom(t, fs[i], fs[i + 1])
  }

  ghost predicate CalledFrom(t: seq<Event>, outer: Frame, inner: Frame) {
    exists m, e :: 0 <= m < |t| && 0 <= e < |t| && CallOf(t[m], t[e], outer, inner)
  }

  ghost predicate CallOf(made: Event, entered: Event, outer: Frame, inner: Frame) {
    && made.Made? && entered.Entered? && entered.target == made.closure && entered.frame == inner
    && made.frames != [] && Last(made.frames) == outer
  }

  lemma {:induction false} NestedChain(ops: Ops, cells: seq<Value>, t: seq<Event>, fs: seq<Frame>)
    requires AllRight(ops, cells, t) && Nested(t, fs)
    ensures Chain(ops, fs)
  {
    hide AllRight, Makes;
    forall i | 0 <= i < |fs| - 1
      ensures Makes(ops, fs[i], fs[i + 1])
    {
      assert CalledFrom(t, fs[i], fs[i + 1]);
      var m, e :| 0 <= m < |t| && 0 <= e < |t| && CallOf(t[m], t[e], fs[i], fs[i + 1]);
      EnteredMakes(ops, cells, t, m, e);
    }
  }

  /** The frames of the nested functions share the variable, and whichever of them reads it gets
      the value last stored in it; a write through any of them is such a store. */
  lemma {:induction false} NestedReads(ops: Ops, cells: seq<Value>, t: seq<Event>, fs: seq<Frame>, id: Name, k: nat, r: nat)
    requires AllRight(ops, cells, t) && Nested(t, fs) && k < |fs| && r < |t| && t[r].Read? && t[r].frame == fs[k] && t[r].id == id
    requires id in fs[0].locals && fs[0].locals[id].Cell? && (forall i :: 0 < i < |fs| ==> id in fs[i].fn.freevars)
    ensures var c := fs[0].locals[id].loc;
      && t[r].v == Latest(cells, t[..r], c)
      && forall i, e :: 0 <= i < |fs| && e in t && e.Wrote? && e.frame == fs[i] && e.id == id ==> WritesTo(e, c)
  {
    NestedChain(ops, cells, t, fs);
    hide AllRight, Chain, Latest, Nested;
    SharedThroughout(ops, fs, id, k);
    ReadsLatest(ops, cells, t, r);
    forall i | 0 <= i < |fs|
      ensures id in fs[i].locals && fs[i].locals[id] == fs[0].locals[id]
    {
      SharedThroughout(ops, fs, id, i);
    }
  }

  /** In every run, whichever calls have ended: a function that reads a variable it shares with
      the literals around it gets the value last stored through any of their frames. */
  lemma {:induction false} RunReads(fuel: nat, ops: Ops, codeOf: FnDecl -> seq<Instr>, code: seq<Instr>, pc: nat, base: nat,
                                    stack: seq<Value>, frames: seq<Frame>, w: World, fs: seq<Frame>, id: Name, k: nat, r: nat)
    requires frames != [] && k < |fs|
    requires var t := RunHistory(fuel, ops, codeOf, code, pc, base, stack, frames, w);
      Nested(t, fs) && r < |t| && t[r].Read? && t[r].frame == fs[k] && t[r].id == id
    requires id in fs[0].locals && fs[0].locals[id].Cell? && (forall i :: 0 < i < |fs| ==> id in fs[i].fn.freevars)
    ensures var t, c := RunHistory(fuel, ops, codeOf, code, pc, base, stack, frames, w), fs[0].locals[id].loc;
      && t[r].v == Latest(w.cells, t[..r], c)
      && forall i, e :: 0 <= i < |fs| && e in t && e.Wrote? && e.frame == fs[i] && e.id == id ==> WritesTo(e, c)
  {
    hide RunHistory, AllRight, Nested, Latest, WritesTo;
    RunExplained(fuel, ops, codeOf, code, pc, base, stack, frames, w);
    NestedReads(ops, w.cells, RunHistory(fuel, ops, codeOf, code, pc, base, stack, frames, w), fs, id, k, r);
  }

  /** A function is called, makes a closure and returns it; other things happen; then the closure
      is called. The variable of the ended call is still there, and a read of it through the
      closure's frame gives the value last stored in it, through either frame and at any time. */
  lemma {:induction false} CallAfterReturn(
      fuel: nat, ops: Ops, codeOf: FnDecl -> seq<Instr>, stack: seq<Value>, frames: seq<Frame>, target: Value, args: seq<Value>, w: World,
      outer: Frame, made: seq<Frame>, closure: Value, w1: World, between: seq<Event>, w2: World,
      fuel2: nat, stack2: seq<Value>, frames2: seq<Frame>, args2: seq<Value>, inner: Frame, id: Name)
    requires IsFunction(target) && outer == FrameOf(target, w) && made != [] && Last(made) == outer
    requires CallValue(fuel, ops, codeOf, stack, frames, target, args, w) == Done(closure, w1)
    requires Made(made, closure) in CallHistory(fuel, ops, codeOf, stack, frames, target, args, w)
    requires AllRight(ops, w1.cells, between) && w2.cells == AfterAll(w1.cells, between)
    requires closure.Closure? && inner == FrameOf(closure, w2)
    requires id in outer.locals && outer.locals[id].Cell? && id in closure.fn.freevars
    ensures id in inner.locals && inner.locals[id] == outer.locals[id]
    ensures var past := CallHistory(fuel, ops, codeOf, stack, frames, target, args, w) + between;
            var now := CallHistory(fuel2, ops, codeOf, stack2, frames2, closure, args2, w2);
      && now != [] && now[0] == Entered(inner, closure)
      && forall r :: 0 <= r < |now| && now[r].Read? && now[r].frame == inner && now[r].id == id ==>
           now[r].v == Latest(w.cells, past + now[..r], outer.locals[id].loc)
  {
    hide CallValue, RunHistory, AllRight, AfterAll, Makes, Latest;
    var call, now := CallHistory(fuel, ops, codeOf, stack, frames, target, args, w), CallHistory(fuel2, ops, codeOf, stack2, frames2, closure, args2, w2);
    assert now[0] == Entered(inner, closure);
    hide CallHistory;
    var past := call + between;
    CallExplained(fuel, ops, codeOf, stack, frames, target, args, w);
    CallExplained(fuel2, ops, codeOf, stack2, frames2, closure, args2, w2);
    RightAppend(ops, w.cells, call, between);
    RightAppend(ops, w.cells, past, now);
    var t := past + now;
    var m :| 0 <= m < |call| && call[m] == Made(made, closure);
    assert t[m] == call[m] && t[|past|] == now[0];
    EnteredMakes(ops, w.cells, t, m, |past|);
    SharedOnce(ops, outer, inner, id);
    forall r | 0 <= r < |now| && now[r].Read? && now[r].frame == inner && now[r].id == id
      ensures now[r].v == Latest(w.cells, past + now[..r], outer.locals[id].loc)
    {
      assert t[|past| + r] == now[r] && t[..|past| + r] == past + now[..r];
      ReadsLatest(ops, w.cells, t, |past| + r);
    }
  }
}
