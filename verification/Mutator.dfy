/** A program that works on a collected heap, and the same program on a heap that is never
    collected. Every run of the first corresponds to the run of the second. */
module Mutator {
  import opened Collector

  /** The program holds references on its stack: it allocates, loads a class or an edge of an
      object it holds, overwrites an object, drops a reference, registers a root, or asks for a
      collection. Numbers are positions on the stack. */
  datatype Action = New | Load(i: nat, k: nat) | Save(i: nat, klass: nat, edges: seq<nat>) | Drop | Root(i: nat) | Collect

  // ---------- the heap that is never collected ----------

  datatype Thing = Thing(klass: Ref, edges: seq<Ref>)

  /** Objects in the order in which they were allocated; `Here` is a position in it. */
  datatype Ideal = Ideal(things: seq<Thing>, roots: seq<Ref>, stack: seq<Ref>)

  function Parts(t: Thing): seq<Ref> {
    [t.klass] + t.edges
  }

  predicate Holds(s: Ideal, i: nat) {
    i < |s.stack| && s.stack[i].Here? && s.stack[i].slot < |s.things|
  }

  function Pick(stack: seq<Ref>, at: seq<nat>): (rs: seq<Ref>)
    requires forall k :: 0 <= k < |at| ==> at[k] < |stack|
    ensures |rs| == |at| && forall k :: 0 <= k < |rs| ==> rs[k] == stack[at[k]]
  {
    seq(|at|, k requires 0 <= k < |at| => stack[at[k]])
  }

  /** Whether an action is possible; one that is not changes nothing. */
  predicate Possible(s: Ideal, a: Action) {
    match a
    case Load(i, k) => Holds(s, i) && k < |Parts(s.things[s.stack[i].slot])|
    case Save(i, c, es) => Holds(s, i) && c < |s.stack| && forall k :: 0 <= k < |es| ==> es[k] < |s.stack|
    case Drop => s.stack != []
    case Root(i) => i < |s.stack|
    case _ => true
  }

  function Step(s: Ideal, a: Action): Ideal {
    if !Possible(s, a) then s else
    match a
    case New => Ideal(s.things + [Thing(Null, [])], s.roots, s.stack + [Here(|s.things|)])
    case Load(i, k) => s.(stack := s.stack + [Parts(s.things[s.stack[i].slot])[k]])
    case Save(i, c, es) => s.(things := s.things[s.stack[i].slot := Thing(s.stack[c], Pick(s.stack, es))])
    case Drop => s.(stack := s.stack[..|s.stack| - 1])
    case Root(i) => s.(roots := s.roots + [s.stack[i]])
    case Collect => s
  }

  function Run(actions: seq<Action>): Ideal {
    if actions == [] then Ideal([], [], []) else Step(Run(actions[..|actions| - 1]), actions[|actions| - 1])
  }

  // ---------- what can be reached ----------

  ghost function Reach(slots: seq<Slot>, starts: seq<Ref>): set<nat> {
    set i | 0 <= i < |slots| && Reachable(slots, starts, i)
  }

  lemma {:induction false} ReachChild(slots: seq<Slot>, starts: seq<Ref>, i: nat, c: Ref)
    requires i in Reach(slots, starts) && c in Children(slots[i]) && Contains(slots, c)
    ensures c.slot in Reach(slots, starts)
  {
    var p :| PathFrom(slots, starts, p, i);
    assert PathFrom(slots, starts, p + [c.slot], c.slot);
  }

  lemma {:induction false} ReachClosed(slots: seq<Slot>, starts: seq<Ref>)
    ensures Closed(slots, Reach(slots, starts)) && Within(slots, starts, Reach(slots, starts))
  {
    hide Reachable;
    forall i, c | i in Reach(slots, starts) && c in Children(slots[i]) && Contains(slots, c)
      ensures c.slot in Reach(slots, starts)
    {
      ReachChild(slots, starts, i, c);
    }
    forall c | c in starts && Contains(slots, c)
      ensures c.slot in Reach(slots, starts)
    {
      ReachStart(slots, starts, c.slot);
    }
  }

  lemma {:induction false} ReachStart(slots: seq<Slot>, starts: seq<Ref>, i: nat)
    requires Here(i) in starts && i < |slots|
    ensures Reachable(slots, starts, i)
  {
    assert PathFrom(slots, starts, [i], i);
  }

  /** Whatever is reachable lies in every closed set that holds the starting slots. */
  lemma {:induction false} ReachIn(slots: seq<Slot>, starts: seq<Ref>, part: set<nat>)
    requires Closed(slots, part) && Within(slots, starts, part)
    ensures Reach(slots, starts) <= part
  {
    forall i | i in Reach(slots, starts)
      ensures i in part
    {
      var p :| PathFrom(slots, starts, p, i);
      ReachStays(slots, starts, part, p, i);
    }
  }

  // ---------- correspondence ----------

  /** A reference into the heap and the one for the same object of the ideal heap; `names` says
      which object a slot holds. */
  ghost predicate Same(names: map<nat, nat>, r: Ref, ideal: Ref) {
    if r.Here? then r.slot in names && ideal == Here(names[r.slot]) else ideal == r
  }

  ghost predicate AllSame(names: map<nat, nat>, rs: seq<Ref>, ideals: seq<Ref>) {
    |rs| == |ideals| && forall k :: 0 <= k < |rs| ==> Same(names, rs[k], ideals[k])
  }

  /** Different slots hold different objects. */
  ghost predicate Naming(names: map<nat, nat>, n: nat) {
    && (forall i :: i in names ==> names[i] < n)
    && (forall i, j :: i in names && j in names && names[i] == names[j] ==> i == j)
  }

  ghost predicate Holding(names: map<nat, nat>, slots: seq<Slot>, things: seq<Thing>, part: set<nat>) {
    forall i {:trigger i in part} :: i in part ==>
      i < |slots| && i in names && names[i] < |things| && AllSame(names, Children(slots[i]), Parts(things[names[i]]))
  }

  /** What the program holds and can reach is what it would hold and reach on the ideal heap. */
  ghost predicate Models(names: map<nat, nat>, slots: seq<Slot>, roots: seq<Ref>, stack: seq<Ref>, s: Ideal) {
    && Naming(names, |s.things|) && AllSame(names, roots, s.roots) && AllSame(names, stack, s.stack)
    && Holding(names, slots, s.things, Reach(slots, roots + stack))
  }

  /** The starting slots of the program are live, and so is all it can reach. */
  lemma {:induction false} ReachLive(slots: seq<Slot>, starts: seq<Ref>, live: set<nat>)
    requires Owned(slots, live) && OwnedRefs(starts, live)
    ensures Reach(slots, starts) <= live
  {
    ReachIn(slots, starts, live);
  }

  lemma {:induction false} AllSameKept(names: map<nat, nat>, x: nat, n: nat, rs: seq<Ref>, ideals: seq<Ref>)
    requires AllSame(names, rs, ideals) && Here(x) !in rs
    ensures AllSame(names[x := n], rs, ideals)
  {
    forall k | 0 <= k < |rs|
      ensures Same(names[x := n], rs[k], ideals[k])
    {
      assert rs[k] in rs;
    }
  }

  /** A slot that the program cannot reach is not referred to by anything it can reach. */
  lemma {:induction false} NotThere(slots: seq<Slot>, starts: seq<Ref>, live: set<nat>, x: nat)
    requires Owned(slots, live) && OwnedRefs(starts, live) && (forall i :: i in live ==> i < |slots|)
    requires x !in Reach(slots, starts)
    ensures Here(x) !in starts && forall i :: i in Reach(slots, starts) ==> Here(x) !in Children(slots[i])
  {
    ReachClosed(slots, starts);
    ReachLive(slots, starts, live);
    hide Reach;
    assert Here(x) in starts ==> Contains(slots, Here(x));
    forall i | i in Reach(slots, starts)
      ensures i < |slots| && Here(x) !in Children(slots[i])
    {
      assert Here(x) in Children(slots[i]) ==> x in live && Contains(slots, Here(x));
    }
  }

  lemma {:induction false} NewStarts(a: seq<Slot>, b: seq<Slot>, roots: seq<Ref>, stack: seq<Ref>, live: set<nat>, x: nat)
    requires Owned(a, live) && OwnedRefs(roots + stack, live) && (forall i :: i in live ==> i < |a|)
    requires x < |b| && Children(b[x]) == [Null]
    requires forall i :: i in Reach(a, roots + stack) ==> i < |b| && Children(b[i]) == Children(a[i])
    ensures Reach(b, roots + (stack + [Here(x)])) <= Reach(a, roots + stack) + {x}
  {
    var starts, more := roots + stack, roots + (stack + [Here(x)]);
    var part := Reach(a, starts) + {x};
    ReachClosed(a, starts);
    ReachLive(a, starts, live);
    hide Reach;
    forall i, c | i in part && i < |b| && c in Children(b[i]) && Contains(b, c)
      ensures c.slot in part
    {
      if i in Reach(a, starts) && i < |a| && c in Children(a[i]) {
        assert c.slot in live && Contains(a, c);
      }
    }
    forall c | c in more && Contains(b, c)
      ensures c.slot in part
    {
      if c in starts { assert c.slot in live && Contains(a, c); }
    }
    ReachIn(b, more, part);
  }

  lemma {:induction false} AfterNew(names: map<nat, nat>, a: seq<Slot>, b: seq<Slot>, roots: seq<Ref>, stack: seq<Ref>, s: Ideal, live: set<nat>, x: nat)
    requires Models(names, a, roots, stack, s) && Owned(a, live) && OwnedRefs(roots + stack, live) && (forall i :: i in live ==> i < |a|)
    requires x !in Reach(a, roots + stack) && x < |b| && Children(b[x]) == [Null]
    requires forall i :: i in Reach(a, roots + stack) ==> i < |b| && Children(b[i]) == Children(a[i])
    ensures Models(names[x := |s.things|], b, roots, stack + [Here(x)], Step(s, New))
  {
    var starts, n, s' := roots + stack, |s.things|, Step(s, New);
    var names' := names[x := n];
    NewStarts(a, b, roots, stack, live, x);
    NotThere(a, starts, live, x);
    AllSameKept(names, x, n, roots, s.roots);
    AllSameKept(names, x, n, stack, s.stack);
    forall i | i in Reach(a, starts) + {x}
      ensures i < |b| && i in names' && names'[i] < |s'.things| && AllSame(names', Children(b[i]), Parts(s'.things[names'[i]]))
    {
      if i != x { AllSameKept(names, x, n, Children(a[i]), Parts(s.things[names[i]])); }
    }
    hide Reach;
    assert Holding(names', b, s'.things, Reach(a, starts) + {x});
  }

  /** An action after which no more can be reached than before. */
  lemma {:induction false} AfterLess(names: map<nat, nat>, slots: seq<Slot>, starts: seq<Ref>, things: seq<Thing>, part: set<nat>)
    requires Holding(names, slots, things, part) && Within(slots, starts, part) && Closed(slots, part)
    ensures Holding(names, slots, things, Reach(slots, starts))
  {
    ReachIn(slots, starts, part);
  }

  lemma {:induction false} AfterLoad(names: map<nat, nat>, slots: seq<Slot>, roots: seq<Ref>, stack: seq<Ref>, s: Ideal, i: nat, k: nat)
    requires Models(names, slots, roots, stack, s) && i < |stack| && stack[i].Here? && stack[i].slot < |slots|
    requires k < |Children(slots[stack[i].slot])|
    ensures Possible(s, Load(i, k))
    ensures Models(names, slots, roots, stack + [Children(slots[stack[i].slot])[k]], Step(s, Load(i, k)))
  {
    var starts, x := roots + stack, stack[i].slot;
    var c := Children(slots[x])[k];
    ReachClosed(slots, starts);
    assert stack[i] in starts && Contains(slots, stack[i]);
    hide Reach, Closed;
    assert x in Reach(slots, starts) && Same(names, stack[i], s.stack[i]);
    assert Same(names, c, Parts(s.things[names[x]])[k]);
    assert Within(slots, roots + (stack + [c]), Reach(slots, starts)) by {
      assert c in Children(slots[x]);
      assert Contains(slots, c) ==> c.slot in Reach(slots, starts) by { ReachChildren(slots, starts, x, c); }
    }
    AfterLess(names, slots, roots + (stack + [c]), s.things, Reach(slots, starts));
  }

  lemma {:induction false} ReachChildren(slots: seq<Slot>, starts: seq<Ref>, x: nat, c: Ref)
    requires x in Reach(slots, starts) && c in Children(slots[x])
    ensures Contains(slots, c) ==> c.slot in Reach(slots, starts)
  {
    hide Reach;
    if Contains(slots, c) { ReachChild(slots, starts, x, c); }
  }

  lemma {:induction false} PickSame(names: map<nat, nat>, stack: seq<Ref>, ideals: seq<Ref>, at: seq<nat>)
    requires AllSame(names, stack, ideals) && forall k :: 0 <= k < |at| ==> at[k] < |stack|
    ensures AllSame(names, Pick(stack, at), Pick(ideals, at))
  {
    forall k | 0 <= k < |at|
      ensures Same(names, Pick(stack, at)[k], Pick(ideals, at)[k])
    {
      assert Same(names, stack[at[k]], ideals[at[k]]);
    }
  }

  lemma {:induction false} SaveHolds(names: map<nat, nat>, a: seq<Slot>, things: seq<Thing>, part: set<nat>, x: nat, v: Slot, t: Thing)
    requires Holding(names, a, things, part) && Naming(names, |things|) && x in part
    requires AllSame(names, Children(v), Parts(t))
    ensures names[x] < |things| && Holding(names, a[x := v], things[names[x] := t], part)
  {
  }

  lemma {:induction false} SaveClosed(a: seq<Slot>, part: set<nat>, x: nat, v: Slot, starts: seq<Ref>)
    requires Closed(a, part) && Within(a, starts, part) && x < |a| && forall c :: c in Children(v) ==> c in starts
    ensures Closed(a[x := v], part) && Within(a[x := v], starts, part)
  {
    var b := a[x := v];
    forall j, c | j in part && j < |b| && c in Children(b[j]) && Contains(b, c)
      ensures c.slot in part
    {
      assert Contains(a, c);
    }
  }

  lemma {:induction false} AfterSave(names: map<nat, nat>, a: seq<Slot>, b: seq<Slot>, roots: seq<Ref>, stack: seq<Ref>, s: Ideal, i: nat, klass: nat, edges: seq<nat>)
    requires Models(names, a, roots, stack, s) && i < |stack| && stack[i].Here? && stack[i].slot < |a|
    requires klass < |stack| && forall k :: 0 <= k < |edges| ==> edges[k] < |stack|
    requires b == a[stack[i].slot := a[stack[i].slot].(klass := stack[klass], edges := Pick(stack, edges))]
    ensures Possible(s, Save(i, klass, edges)) && Models(names, b, roots, stack, Step(s, Save(i, klass, edges)))
  {
    var starts, x := roots + stack, stack[i].slot;
    var part, things := Reach(a, starts), Step(s, Save(i, klass, edges)).things;
    var v, t := a[x].(klass := stack[klass], edges := Pick(stack, edges)), Thing(s.stack[klass], Pick(s.stack, edges));
    ReachClosed(a, starts);
    assert stack[i] in starts && Contains(a, stack[i]);
    hide Reach;
    assert x in part && Same(names, stack[i], s.stack[i]) && Same(names, stack[klass], s.stack[klass]);
    PickSame(names, stack, s.stack, edges);
    SaveHolds(names, a, s.things, part, x, v, t);
    SaveClosed(a, part, x, v, starts);
    hide Holding, AllSame, Closed, Within;
    AfterLess(names, b, starts, things, part);
  }

  lemma {:induction false} AfterCollect(names: map<nat, nat>, a: seq<Slot>, b: seq<Slot>, roots: seq<Ref>, stack: seq<Ref>, s: Ideal)
    requires Models(names, a, roots, stack, s) && SameObjects(a, b)
    ensures Models(names, b, roots, stack, s)
  {
    var part := Reach(a, roots + stack);
    ReachClosed(a, roots + stack);
    hide Reach;
    forall i | 0 <= i < |a| ensures Children(a[i]) == Children(b[i]) {}
    AfterLess(names, b, roots + stack, s.things, part);
  }

  /** Moving references the program has between its stack and the roots, or dropping them. */
  lemma {:induction false} AfterMove(names: map<nat, nat>, slots: seq<Slot>, roots: seq<Ref>, stack: seq<Ref>, s: Ideal, roots': seq<Ref>, stack': seq<Ref>, s': Ideal)
    requires Models(names, slots, roots, stack, s) && s'.things == s.things
    requires AllSame(names, roots', s'.roots) && AllSame(names, stack', s'.stack)
    requires forall c :: c in roots' + stack' ==> c in roots + stack
    ensures Models(names, slots, roots', stack', s')
  {
    ReachClosed(slots, roots + stack);
    hide Reach;
    AfterLess(names, slots, roots' + stack', s.things, Reach(slots, roots + stack));
  }

  /** Two references that the program holds are the same on one heap if and only if they are on
      the other. */
  lemma {:induction false} SameAnswers(names: map<nat, nat>, slots: seq<Slot>, roots: seq<Ref>, stack: seq<Ref>, s: Ideal, i: nat, j: nat)
    requires Models(names, slots, roots, stack, s) && i < |stack| && j < |stack|
    ensures |s.stack| == |stack| && (stack[i] == stack[j] <==> s.stack[i] == s.stack[j])
    ensures (stack[i] == Null <==> s.stack[i] == Null)
  {
    assert Same(names, stack[i], s.stack[i]) && Same(names, stack[j], s.stack[j]);
  }

  // ---------- the program on the collected heap ----------

  /** An object is held on the collected heap if and only if it is on the ideal one, and it has
      as many references. */
  lemma {:induction false} HeldSame(names: map<nat, nat>, slots: seq<Slot>, roots: seq<Ref>, stack: seq<Ref>, s: Ideal, live: set<nat>, i: nat)
    requires Models(names, slots, roots, stack, s) && OwnedRefs(stack, live) && forall j :: j in live ==> j < |slots|
    ensures Holds(s, i) <==> i < |stack| && stack[i].Here?
    ensures Holds(s, i) ==> stack[i].slot in live && stack[i].slot < |slots|
    ensures Holds(s, i) ==> |Children(slots[stack[i].slot])| == |Parts(s.things[s.stack[i].slot])|
  {
    if i < |stack| {
      assert Same(names, stack[i], s.stack[i]) && stack[i] in stack;
      if stack[i].Here? {
        var starts := roots + stack;
        ReachClosed(slots, starts);
        assert stack[i] in starts && Contains(slots, stack[i]);
        assert stack[i].slot in Reach(slots, starts);
      }
    }
  }

  lemma {:induction false} LiveBound(slots: seq<Slot>, head: Link, list: seq<nat>)
    requires Linked(slots, head, list)
    ensures forall j :: j in Elements(list) ==> j < |slots|
  {
  }

  /** What a program's references lead to is in the live list. */
  lemma {:induction false} StillOwned(refs: seq<Ref>, roots: seq<Ref>, slots: seq<Slot>, list: seq<nat>, list': seq<nat>)
    requires OwnedRefs(refs, Elements(list)) && (forall j :: j in list ==> j < |slots|)
    requires forall j :: j in list && Reachable(slots, roots + [] + refs, j) ==> j in list'
    ensures OwnedRefs(refs, Elements(list'))
  {
    hide Reachable;
    forall c | c in refs && c.Here?
      ensures c.slot in Elements(list')
    {
      assert c in roots + [] + refs;
      ReachStart(slots, roots + [] + refs, c.slot);
    }
  }

  class Program {
    const gc: Gc
    var stack: seq<Ref>
    ghost var names: map<nat, nat>
    ghost var ideal: Ideal

    ghost predicate Valid()
      reads this, gc
    {
      gc.Valid() && OwnedRefs(stack, Elements(gc.liveList)) && Models(names, gc.slots, gc.roots, stack, ideal)
    }

    constructor (memory: seq<Slot>)
      requires |memory| == SLAB_SIZE
      ensures Valid() && fresh(gc) && ideal == Run([])
    {
      gc := new Gc(memory);
      stack, names, ideal := [], map[], Ideal([], [], []);
      new;
      assert gc.roots + stack == [];
      ReachClosed(gc.slots, []);
      assert Within(gc.slots, [], {}) && Closed(gc.slots, {});
      ReachIn(gc.slots, [], {});
    }

    /** Allocate an object and hold it. */
    method New(memory: seq<Slot>)
      requires Valid() && |memory| == SLAB_SIZE
      modifies this, gc
      ensures Valid() && ideal == Step(old(ideal), Action.New)
    {
      ghost var a, roots, list := gc.slots, gc.roots, gc.liveList;
      LiveBound(a, gc.live, list);
      OwnedTogether(roots, stack, Elements(list));
      ReachLive(a, roots + stack, Elements(list));
      assert [] + stack == stack && roots + [] + stack == roots + stack;
      var x := gc.NewObject(memory, [], stack);
      StillOwned(stack, roots, a, list, gc.liveList);
      AfterNew(names, a, gc.slots, roots, stack, ideal, Elements(list), x);
      names, ideal := names[x := |ideal.things|], Step(ideal, Action.New);
      stack := stack + [Here(x)];
    }

    /** Hold a reference of an object: number 0 is its class, the others are its edges. */
    method Load(i: nat, k: nat)
      requires Valid()
      modifies this
      ensures Valid() && ideal == Step(old(ideal), Action.Load(i, k))
    {
      LiveBound(gc.slots, gc.live, gc.liveList);
      HeldSame(names, gc.slots, gc.roots, stack, ideal, Elements(gc.liveList), i);
      if i < |stack| && stack[i].Here? && k < |Children(gc.slots[stack[i].slot])| {
        var c := Children(gc.slots[stack[i].slot])[k];
        AfterLoad(names, gc.slots, gc.roots, stack, ideal, i, k);
        assert c in Children(gc.slots[stack[i].slot]);
        stack := stack + [c];
      }
      ideal := Step(ideal, Action.Load(i, k));
    }

    /** Overwrite an object with references that the program holds. */
    method Save(i: nat, klass: nat, edges: seq<nat>)
      requires Valid()
      modifies this`ideal, gc
      ensures Valid() && ideal == Step(old(ideal), Action.Save(i, klass, edges))
    {
      ghost var a, s := gc.slots, ideal;
      LiveBound(a, gc.live, gc.liveList);
      HeldSame(names, a, gc.roots, stack, s, Elements(gc.liveList), i);
      ideal := Step(s, Action.Save(i, klass, edges));
      if i < |stack| && stack[i].Here? && klass < |stack| && forall k :: 0 <= k < |edges| ==> edges[k] < |stack| {
        var rs := Pick(stack, edges);
        assert forall c :: c in [stack[klass]] + rs ==> c in stack;
        gc.Write(stack[i].slot, stack[klass], rs);
        AfterSave(names, a, gc.slots, gc.roots, stack, s, i, klass, edges);
      }
    }

    method Drop()
      requires Valid()
      modifies this
      ensures Valid() && ideal == Step(old(ideal), Action.Drop)
    {
      if stack != [] {
        var rest := stack[..|stack| - 1];
        AfterMove(names, gc.slots, gc.roots, stack, ideal, gc.roots, rest, Step(ideal, Action.Drop));
        stack := rest;
      }
      ideal := Step(ideal, Action.Drop);
    }

    /** Register a root: the object stays when the program drops it. */
    method Root(i: nat)
      requires Valid()
      modifies this`ideal, gc
      ensures Valid() && ideal == Step(old(ideal), Action.Root(i))
    {
      ghost var s := ideal;
      ideal := Step(s, Action.Root(i));
      if i < |stack| {
        assert Same(names, stack[i], s.stack[i]) && stack[i] in stack;
        AfterMove(names, gc.slots, gc.roots, stack, s, gc.roots + [stack[i]], stack, ideal);
        gc.MakeRoot(stack[i]);
      }
    }

    method Collect()
      requires Valid()
      modifies this`ideal, gc
      ensures Valid() && ideal == Step(old(ideal), Action.Collect)
    {
      ghost var a, roots, list := gc.slots, gc.roots, gc.liveList;
      LiveBound(a, gc.live, list);
      assert [] + stack == stack;
      var some := gc.Collect([], stack);
      StillOwned(stack, roots, a, list, gc.liveList);
      AfterCollect(names, a, gc.slots, roots, stack, ideal);
    }
  }

  /** Any run of a program on the collected heap, whatever collections happen in it, corresponds
      to its run on a heap that is never collected. */
  method Execute(actions: seq<Action>, memory: seq<Slot>) returns (program: Program)
    requires |memory| == SLAB_SIZE
    ensures program.Valid() && program.ideal == Run(actions)
  {
    program := new Program(memory);
    var i := 0;
    while i < |actions|
      invariant i <= |actions| && program.Valid() && program.ideal == Run(actions[..i]) && fresh(program) && fresh(program.gc)
    {
      assert actions[..i + 1][..i] == actions[..i] && actions[..i + 1][i] == actions[i];
      match actions[i] {
        case New => program.New(memory);
        case Load(j, k) => program.Load(j, k);
        case Save(j, klass, edges) => program.Save(j, klass, edges);
        case Drop => program.Drop();
        case Root(j) => program.Root(j);
        case Collect => program.Collect();
      }
      i := i + 1;
    }
    assert actions[..i] == actions;
  }
}
