/** Variables shared between a function and the literals it makes: a closure holds the cells
    themselves, so both sides read and write the same variables for as long as either lives. */
module Closures {
  import opened Options
  import opened Syntax
  import opened Semantics

  // ---------- new frames ----------

  /** Every declared variable of a call has a cell of its own that nobody else can hold. */
  lemma {:induction false} DeclaredFresh(vars: seq<Name>, first: nat)
    ensures var locals := DeclareVars(vars, first);
      && (forall id :: id in locals <==> id in vars)
      && (forall id :: id in locals ==> locals[id].Cell? && first <= locals[id].loc < first + |vars|)
      && (forall id, id' :: id in locals && id' in locals && id != id' ==> locals[id] != locals[id'])
    decreases |vars|
  {
    if vars != [] {
      DeclaredFresh(Init(vars), first);
      assert vars == Init(vars) + [Last(vars)];
    }
  }

  /** A frame has a new cell, without a value, for each declared name, and the bindings of a
      closure on top; no two declared names share a cell. */
  lemma {:induction false} FrameExact(fn: FnDecl, bindings: map<Name, Binding>, w: World)
    ensures var (frame, w') := NewFrame(fn, bindings, w);
      && w'.cells[..|w.cells|] == w.cells && w'.heap == w.heap
      && (forall id :: id in frame.locals <==> id in fn.vars || id in bindings)
      && (forall id :: id in bindings ==> frame.locals[id] == bindings[id])
      && (forall id :: id in frame.locals && id !in bindings ==>
            && frame.locals[id].Cell? && |w.cells| <= frame.locals[id].loc < |w'.cells| && w'.cells[frame.locals[id].loc] == Null
            && forall id' :: id' in frame.locals && id' !in bindings && id' != id ==> frame.locals[id'] != frame.locals[id])
  {
    DeclaredFresh(fn.vars, |w.cells|);
  }

  // ---------- capture ----------

  /** The binding a closure takes for a name: that of the innermost frame which has it. */
  function Nearest(frames: seq<Frame>, id: Name): Option<Binding> {
    if frames == [] then None
    else if id in Last(frames).locals then Some(Last(frames).locals[id])
    else Nearest(Init(frames), id)
  }

  lemma {:induction false} CaptureNearest(ops: Ops, frames: seq<Frame>, top: Frame, id: Name, w: World)
    ensures Capture(ops, frames, top, id, w) ==
      if Nearest(frames, id).Some? then Nearest(frames, id)
      else match ops.global(w.heap, top.fn, id) case None => None case Some(v) => Some(Direct(v))
    decreases |frames|
  {
    if frames != [] && id !in Last(frames).locals { CaptureNearest(ops, Init(frames), top, id, w); }
  }

  lemma {:induction false} CaptureExact(ops: Ops, frames: seq<Frame>, ids: seq<Name>, w: World)
    requires frames != [] && CaptureAll(ops, frames, ids, w).Some?
    ensures var m := CaptureAll(ops, frames, ids, w).value;
      && (forall id :: id in m <==> id in ids)
      && (forall id :: id in m ==> Capture(ops, frames, Last(frames), id, w) == Some(m[id]))
    decreases |ids|
  {
    if ids != [] {
      CaptureExact(ops, frames, Init(ids), w);
      assert ids == Init(ids) + [Last(ids)];
    }
  }

  /** `inner` is the frame of a call of a closure that `outer` made: whoever called `outer`,
      and whenever and with whatever arguments the closure is called. */
  ghost predicate Makes(ops: Ops, outer: Frame, inner: Frame) {
    exists callers: seq<Frame>, made: World, called: World ::
      var m := CaptureAll(ops, callers + [outer], inner.fn.freevars, made);
      m.Some? && inner == NewFrame(inner.fn, m.value, called).0
  }

  /** A name that the enclosing frame has is bound to the same cell in the closure's frame. */
  lemma {:induction false} SharedOnce(ops: Ops, outer: Frame, inner: Frame, id: Name)
    requires Makes(ops, outer, inner) && id in outer.locals && id in inner.fn.freevars
    ensures id in inner.locals && inner.locals[id] == outer.locals[id]
  {
    var callers: seq<Frame>, made: World, called: World :|
      var m := CaptureAll(ops, callers + [outer], inner.fn.freevars, made);
      m.Some? && inner == NewFrame(inner.fn, m.value, called).0;
    var m := CaptureAll(ops, callers + [outer], inner.fn.freevars, made).value;
    CaptureExact(ops, callers + [outer], inner.fn.freevars, made);
    FrameExact(inner.fn, m, called);
  }

  ghost predicate Chain(ops: Ops, fs: seq<Frame>) {
    forall i :: 0 <= i < |fs| - 1 ==> Makes(ops, fs[i], fs[i + 1])
  }

  /** A name that the outermost function has, and that is free in every function down to the
      innermost literal, is one variable in all their frames. */
  lemma {:induction false} SharedThroughout(ops: Ops, fs: seq<Frame>, id: Name, k: nat)
    requires Chain(ops, fs) && k < |fs| && id in fs[0].locals
    requires forall i :: 0 < i < |fs| ==> id in fs[i].fn.freevars
    ensures id in fs[k].locals && fs[k].locals[id] == fs[0].locals[id]
    decreases k
  {
    if k > 0 {
      SharedThroughout(ops, fs, id, k - 1);
      assert Makes(ops, fs[k - 1], fs[k - 1 + 1]);
      SharedOnce(ops, fs[k - 1], fs[k], id);
    }
  }

  /** Reads and writes through any of these frames are seen through all of them, and touch no
      other variable. */
  lemma {:induction false} SharedVariable(ops: Ops, fs: seq<Frame>, id: Name, j: nat, k: nat, v: Value, w: World)
    requires Chain(ops, fs) && j < |fs| && k < |fs| && id in fs[0].locals
    requires forall i :: 0 < i < |fs| ==> id in fs[i].fn.freevars
    ensures Resolve(ops, fs[j], id, w) == Resolve(ops, fs[k], id, w)
    ensures Store(fs[j], id, v, w) == Store(fs[k], id, v, w)
    ensures match Store(fs[j], id, v, w)
            case None => true
            case Some(w') =>
              && Resolve(ops, fs[k], id, w') == Some(v)
              && w'.heap == w.heap && |w'.cells| == |w.cells|
              && forall c :: 0 <= c < |w.cells| && Cell(c) != fs[0].locals[id] ==> w'.cells[c] == w.cells[c]
  {
    SharedThroughout(ops, fs, id, j);
    SharedThroughout(ops, fs, id, k);
  }

  /** Exactly which names a literal shares with the function around it: those the function's
      frame has, which are its declared names and, in a closure, its own free names. For any
      other name the binding comes from whoever called the function. */
  lemma {:induction false} SharedExact(ops: Ops, callers: seq<Frame>, outer: Frame, fn: FnDecl, id: Name, made: World)
    requires id in fn.freevars && CaptureAll(ops, callers + [outer], fn.freevars, made).Some?
    ensures var m := CaptureAll(ops, callers + [outer], fn.freevars, made).value;
      && id in m
      && (id in outer.locals ==> m[id] == outer.locals[id])
      && (id !in outer.locals && Nearest(callers, id).Some? ==> Some(m[id]) == Nearest(callers, id))
      && (id !in outer.locals && Nearest(callers, id).None? ==> m[id].Direct?)
  {
    var frames := callers + [outer];
    CaptureExact(ops, frames, fn.freevars, made);
    CaptureNearest(ops, frames, outer, id, made);
    assert Init(frames) == callers && Last(frames) == outer;
  }

  /** Two callers, two variables: a name the enclosing function does not have is looked up in
      the functions that happen to be running. */
  lemma {:induction false} CallersDecide(ops: Ops, w: World)
    ensures var fn, f := FnDecl(1, [], [], [], ["x"]), Frame(FnDecl(0, [], [], [], []), map[]);
      forall c :: CaptureAll(ops, [Frame(f.fn, map["x" := Cell(c)])] + [f], fn.freevars, w) == Some(map["x" := Cell(c)])
  {
    var f := Frame(FnDecl(0, [], [], [], []), map[]);
    forall c: nat
      ensures CaptureAll(ops, [Frame(f.fn, map["x" := Cell(c)])] + [f], ["x"], w) == Some(map["x" := Cell(c)])
    {
      var g := Frame(f.fn, map["x" := Cell(c)]);
      assert Init([g] + [f]) == [g] && Init(["x"]) == [];
      assert Capture(ops, [g] + [f], f, "x", w) == Capture(ops, [g], f, "x", w);
    }
  }
}
