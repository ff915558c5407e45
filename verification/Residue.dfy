/** What a failing pattern leaves on the operand stack: nothing at all, exactly if every hash
    value in the pattern is irrefutable. */
module Residue {
  import opened Options
  import opened Syntax
  import opened Semantics
  import opened Machine
  import opened Codegen
  import opened Acceptance
  import opened Evaluator
  import opened Builtins

  predicate Irrefutable(p: Expr) {
    p.Ident? || p.Wildcard?
  }

  /** Every value position of a hash pattern, at any depth, is irrefutable. */
  predicate SafeValues(p: Expr) {
    match p
    case ArrayLit(items) => SafeItems(items)
    case HashLit(items) => SafePairs(items)
    case _ => true
  }

  predicate SafeItems(ps: seq<Expr>) {
    ps == [] || (SafeValues(ps[0]) && SafeItems(ps[1..]))
  }

  predicate SafePairs(ps: seq<Expr>) {
    |ps| < 2 || (Irrefutable(ps[1]) && SafePairs(ps[2..]))
  }

  // ---------- no residue ----------

  lemma {:induction false} TestLeavesNothing(fuel: nat, ops: Ops, p: Expr, v: Value, frames: seq<Frame>, w: World)
    requires frames != [] && SafeValues(p)
    ensures var r := MatchTest(fuel, ops, p, v, frames, w); r.Mismatch? ==> r.left == []
    decreases p, 1
  {
    hide HasSize, HasClass, Resolve;
    if p.ArrayLit? || p.HashLit? {
      assert MatchTest(fuel, ops, p, v, frames, w).Mismatch? ==>
        var c := HasClass(ops, v, Resolve(ops, Last(frames), if p.ArrayLit? then "array" else "hash", w), w);
        c.Mismatch? || c.Matched?;
      ClassLeavesNothing(ops, v, Resolve(ops, Last(frames), if p.ArrayLit? then "array" else "hash", w), w);
      forall w1 ensures var r := MatchSized(fuel, ops, p, v, frames, w1); r.Mismatch? ==> r.left == [] {
        SizedLeavesNothing(fuel, ops, p, v, frames, w1);
      }
    } else if p.NilLit? {
      ClassLeavesNothing(ops, v, Some(Class("nil")), w);
    }
  }

  lemma {:induction false} ClassLeavesNothing(ops: Ops, v: Value, c: Option<Value>, w: World)
    ensures var r := HasClass(ops, v, c, w); (r.Mismatch? ==> r.left == [] && r.w == w) && (r.Matched? ==> r.w == w)
  {
  }

  lemma {:induction false} SizedLeavesNothing(fuel: nat, ops: Ops, p: Expr, v: Value, frames: seq<Frame>, w: World)
    requires frames != [] && SafeValues(p) && (p.ArrayLit? || p.HashLit?)
    ensures var r := MatchSized(fuel, ops, p, v, frames, w); r.Mismatch? ==> r.left == []
    decreases p, 0
  {
    hide Apply;
    var s := HasSize(fuel, ops, p, v, if p.ArrayLit? then |p.items| else |p.items| / 2, frames, w);
    assert s.Mismatch? ==> s.left == [];
    if s.Matched? {
      if p.ArrayLit? {
        ItemsLeaveNothing(fuel, ops, p.items, 0, v, frames, s.w);
      } else {
        PairsLeaveNothing(fuel, ops, p.items, v, frames, s.w);
      }
    }
  }

  lemma {:induction false} ItemsLeaveNothing(fuel: nat, ops: Ops, ps: seq<Expr>, i: nat, v: Value, frames: seq<Frame>, w: World)
    requires frames != [] && SafeItems(ps)
    ensures var r := MatchItems(fuel, ops, ps, i, v, frames, w); r.Mismatch? ==> r.left == []
    decreases ps
  {
    hide MatchTest;
    if ps != [] {
      var x := NonNull(w.cells, ops.getitem(w.heap, v, Int(i)));
      if x.Val? {
        TestLeavesNothing(fuel, ops, ps[0], x.v, frames, x.w);
        var r := MatchItem(fuel, ops, ps[0], x.v, frames, x.w);
        assert r.Mismatch? ==> r.left == [] by { assert [x.v] + [] == [x.v]; }
        if r.Matched? { ItemsLeaveNothing(fuel, ops, ps[1..], i + 1, v, frames, r.w); }
      }
    }
  }

  lemma {:induction false} PairsLeaveNothing(fuel: nat, ops: Ops, ps: seq<Expr>, v: Value, frames: seq<Frame>, w: World)
    requires frames != [] && SafePairs(ps)
    ensures !MatchPairs(fuel, ops, ps, v, frames, w).Mismatch?
    decreases ps
  {
    if |ps| >= 2 && KeyConst(ps[0]) != Null {
      var x := NonNull(w.cells, ops.getitem(w.heap, v, KeyConst(ps[0])));
      if x.Val? {
        assert MatchTest(fuel, ops, ps[1], x.v, frames, x.w) == Matched(x.w);
        var r := MatchValue(fuel, ops, ps[1], x.v, frames, x.w);
        if r.Matched? { PairsLeaveNothing(fuel, ops, ps[2..], v, frames, r.w); }
      }
    }
  }

  // ---------- matching with the built-in classes ----------

  lemma {:induction false} ClassTests(v: Value, class_: Name, w: World)
    requires v != Null
    ensures HasClass(Operations(), v, Some(Class(class_)), w) ==
            if ClassOf(w.heap, v) == Class(class_) then Matched(w) else Mismatch([], w)
  {
  }

  lemma {:induction false} SizeTests(fuel: nat, site: Expr, v: Value, n: nat, frames: seq<Frame>, w: World)
    requires fuel > 0 && frames != [] && Sized(w.heap, v)
    ensures HasSize(fuel, Operations(), site, v, n, frames, w) == if SizeOf(w.heap, v) == n then Matched(w) else Mismatch([], w)
  {
    var ops := Operations();
    var size := Native(SIZE, [v]);
    assert ops.getattr(w.heap, v, "size") == (w.heap, size);
    assert ops.native(w.heap, size, []) == NativeAct.Finish(w.heap, Int(SizeOf(w.heap, v)));
    assert CallFunction(fuel - 1, ops, Some(v), frames, size, [], w) == Done(Int(SizeOf(w.heap, v)), w);
    assert Apply(fuel, ops, site, Some(v), frames, size, [], w) == Val(Int(SizeOf(w.heap, v)), w);
  }

  /** A frame in which the names `array` and `hash` are the built-in classes. */
  const BARE: Frame := Frame(FnDecl(0, [], [], [], []), map[])

  lemma {:induction false} BareNames(w: World)
    ensures Resolve(Operations(), BARE, "array", w) == Some(Class("array"))
    ensures Resolve(Operations(), BARE, "hash", w) == Some(Class("hash"))
  {
  }

  // ---------- residue whenever a hash value can fail ----------

  /** The constants a program can write in a pattern. */
  predicate IsConst(v: Value) {
    v.Bool? || v.Int? || v.Float? || v.Str?
  }

  predicate RealConsts(p: Expr) {
    match p
    case Lit(v) => IsConst(v)
    case ArrayLit(items) => RealItems(items)
    case HashLit(items) => RealPairs(items)
    case _ => true
  }

  predicate RealItems(ps: seq<Expr>) {
    ps == [] || (RealConsts(ps[0]) && RealItems(ps[1..]))
  }

  predicate RealPairs(ps: seq<Expr>) {
    |ps| < 2 || ((ps[0].Lit? ==> IsConst(ps[0].v)) && RealConsts(ps[1]) && RealPairs(ps[2..]))
  }

  /** Pairs under distinct keys, to make up a hash's size. */
  function Fillers(from: int, n: nat): seq<(Value, Value)> {
    seq(n, i => (Int(from + i), Nil))
  }

  /** A value that fits a pattern whose hash values are irrefutable, with its heap. */
  function Fill(p: Expr, h: Heap): (r: (Heap, Value))
    ensures h <= r.0 && (RealConsts(p) ==> r.1 != Null)
  {
    match p
    case Lit(c) => (h, c)
    case ArrayLit(items) =>
      var (h1, vs) := FillItems(items, h);
      (h1 + [ArrayObj(vs)], Object(|h1|))
    case HashLit(items) => (h + [HashObj(Fillers(0, |items| / 2))], Object(|h|))
    case _ => (h, Nil)
  }

  function FillItems(ps: seq<Expr>, h: Heap): (r: (Heap, seq<Value>))
    ensures h <= r.0 && |r.1| == |ps|
  {
    if ps == [] then (h, []) else
    var (h1, v) := Fill(ps[0], h);
    var (h2, vs) := FillItems(ps[1..], h1);
    (h2, [v] + vs)
  }

  /** The key of the first hash value that can fail, with a value that it refuses. */
  function BadPair(ps: seq<Expr>): (r: (Value, Value))
    requires !SafePairs(ps)
    ensures r.1 != Null && (RealPairs(ps) ==> !r.0.Object?)
  {
    if Irrefutable(ps[1]) then BadPair(ps[2..]) else (KeyConst(ps[0]), if ps[1].NilLit? then Bool(true) else Nil)
  }

  /** A value that fits a pattern up to the first hash value that can fail. */
  function Miss(p: Expr, h: Heap): (r: (Heap, Value))
    requires !SafeValues(p)
    ensures h <= r.0 && r.1 != Null
  {
    match p
    case ArrayLit(items) =>
      var (h1, vs) := MissItems(items, h);
      (h1 + [ArrayObj(vs)], Object(|h1|))
    case HashLit(items) =>
      var bad := BadPair(items);
      (h + [HashObj([bad] + Fillers(if bad.0.Int? then bad.0.i + 1 else 0, |items| / 2 - 1))], Object(|h|))
  }

  function MissItems(ps: seq<Expr>, h: Heap): (r: (Heap, seq<Value>))
    requires !SafeItems(ps)
    ensures h <= r.0 && |r.1| == |ps|
  {
    if SafeValues(ps[0]) then
      var (h1, v) := Fill(ps[0], h);
      var (h2, vs) := MissItems(ps[1..], h1);
      (h2, [v] + vs)
    else
      var (h1, v) := Miss(ps[0], h);
      (h1, [v] + seq(|ps| - 1, _ => Nil))
  }

  lemma {:induction false} FilledMatches(p: Expr, d: nat, h: Heap, w: World)
    requires PatOk(p, d) && RealConsts(p) && SafeValues(p) && Fill(p, h).0 <= w.heap
    ensures MatchTest(1, Operations(), p, Fill(p, h).1, [BARE], w) == Matched(w)
    decreases p
  {
    hide HasClass, HasSize, Resolve, Operations;
    var v := Fill(p, h).1;
    BareNames(w);
    match p
    case Lit(c) => EqualMatches(c, w);
    case NilLit => ClassTests(Nil, "nil", w);
    case ArrayLit(items) =>
      ClassTests(v, "array", w);
      SizeTests(1, p, v, |items|, [BARE], w);
      FilledItemsMatch(items, 0, d + 1, h, v, w);
    case HashLit(items) =>
      ClassTests(v, "hash", w);
      SizeTests(1, p, v, |items| / 2, [BARE], w);
      SafePairsMatch(items, d + 1, v, w);
    case _ =>
  }

  lemma {:induction false} EqualMatches(c: Value, w: World)
    requires c != Null
    ensures Equals(Operations(), c, c, w) == Matched(w)
  {
  }

  lemma {:induction false} FilledItemsMatch(ps: seq<Expr>, i: nat, d: nat, h: Heap, v: Value, w: World)
    requires ItemsOk(ps, d) && RealItems(ps) && SafeItems(ps) && FillItems(ps, h).0 <= w.heap
    requires IsArray(w.heap, v) && i + |ps| == |w.heap[v.loc].items| && w.heap[v.loc].items[i..] == FillItems(ps, h).1
    ensures MatchItems(1, Operations(), ps, i, v, [BARE], w) == Matched(w)
    decreases ps
  {
    if ps != [] {
      hide MatchTest;
      var items := w.heap[v.loc].items;
      var (h1, x) := Fill(ps[0], h);
      assert items[i] == items[i..][0] == x && items[i + 1..] == items[i..][1..];
      FilledMatches(ps[0], d, h, w);
      FilledItemsMatch(ps[1..], i + 1, d, h1, v, w);
    }
  }

  lemma {:induction false} LookupSolid(h: Heap, pairs: seq<(Value, Value)>, key: Value)
    requires forall k :: 0 <= k < |pairs| ==> pairs[k].1 != Null && !pairs[k].0.Object?
    requires !key.Object?
    ensures Lookup(h, pairs, key) != Null
    decreases pairs
  {
    if pairs != [] { LookupSolid(h, pairs[1..], key); }
  }

  /** Irrefutable hash values match whatever is found, nil included. */
  lemma {:induction false} SafePairsMatch(ps: seq<Expr>, d: nat, v: Value, w: World)
    requires PairsOk(ps, d) && RealPairs(ps) && SafePairs(ps)
    requires IsHash(w.heap, v) && forall k :: 0 <= k < |w.heap[v.loc].pairs| ==> w.heap[v.loc].pairs[k].1 != Null && !w.heap[v.loc].pairs[k].0.Object?
    ensures MatchPairs(1, Operations(), ps, v, [BARE], w) == Matched(w)
    decreases ps
  {
    if |ps| >= 2 {
      var key := KeyConst(ps[0]);
      var value := Lookup(w.heap, w.heap[v.loc].pairs, key);
      LookupSolid(w.heap, w.heap[v.loc].pairs, key);
      assert Operations().getitem(w.heap, v, key) == (w.heap, value);
      assert MatchValue(1, Operations(), ps[1], value, [BARE], w) == Matched(w);
      SafePairsMatch(ps[2..], d, v, w);
    }
  }

  /** The match fails, and operands stay behind. */
  predicate Abandons(r: MatchResult, w: World) {
    r.Mismatch? && r.left != [] && Null !in r.left && r.w == w
  }

  lemma {:induction false} MissAbandons(p: Expr, d: nat, h: Heap, w: World)
    requires PatOk(p, d) && RealConsts(p) && !SafeValues(p) && Miss(p, h).0 <= w.heap
    ensures Abandons(MatchTest(1, Operations(), p, Miss(p, h).1, [BARE], w), w)
    decreases p
  {
    hide HasClass, HasSize, Resolve, Operations;
    var v := Miss(p, h).1;
    BareNames(w);
    if p.ArrayLit? {
      ClassTests(v, "array", w);
      SizeTests(1, p, v, |p.items|, [BARE], w);
      MissItemsAbandon(p.items, 0, d + 1, h, v, w);
    } else {
      ClassTests(v, "hash", w);
      SizeTests(1, p, v, |p.items| / 2, [BARE], w);
      BadPairAbandons(p.items, d + 1, BadPair(p.items), v, w);
    }
  }

  lemma {:induction false} MissItemsAbandon(ps: seq<Expr>, i: nat, d: nat, h: Heap, v: Value, w: World)
    requires ItemsOk(ps, d) && RealItems(ps) && !SafeItems(ps) && MissItems(ps, h).0 <= w.heap
    requires IsArray(w.heap, v) && i + |ps| == |w.heap[v.loc].items| && w.heap[v.loc].items[i..] == MissItems(ps, h).1
    ensures Abandons(MatchItems(1, Operations(), ps, i, v, [BARE], w), w)
    decreases ps
  {
    hide MatchTest;
    var items := w.heap[v.loc].items;
    assert items[i] == items[i..][0] && items[i + 1..] == items[i..][1..];
    if SafeValues(ps[0]) {
      var (h1, x) := Fill(ps[0], h);
      FilledMatches(ps[0], d, h, w);
      MissItemsAbandon(ps[1..], i + 1, d, h1, v, w);
    } else {
      MissAbandons(ps[0], d, h, w);
      var r := MatchTest(1, Operations(), ps[0], items[i], [BARE], w);
      var held := [items[i]] + r.left;
      assert |Init(held)| == |r.left| && Last(held) == Last(r.left);
      assert forall x :: x in Init(held) ==> x in held;
    }
  }

  lemma {:induction false} BadPairAbandons(ps: seq<Expr>, d: nat, bad: (Value, Value), v: Value, w: World)
    requires PairsOk(ps, d) && RealPairs(ps) && !SafePairs(ps) && bad == BadPair(ps)
    requires IsHash(w.heap, v) && w.heap[v.loc].pairs != [] && w.heap[v.loc].pairs[0] == bad
    requires forall k :: 0 <= k < |w.heap[v.loc].pairs| ==> w.heap[v.loc].pairs[k].1 != Null && !w.heap[v.loc].pairs[k].0.Object?
    ensures Abandons(MatchPairs(1, Operations(), ps, v, [BARE], w), w)
    decreases ps
  {
    var pairs := w.heap[v.loc].pairs;
    var key := KeyConst(ps[0]);
    var value := Lookup(w.heap, pairs, key);
    LookupSolid(w.heap, pairs, key);
    assert Operations().getitem(w.heap, v, key) == (w.heap, value);
    if Irrefutable(ps[1]) {
      assert MatchValue(1, Operations(), ps[1], value, [BARE], w) == Matched(w);
      BadPairAbandons(ps[2..], d, bad, v, w);
    } else {
      hide MatchTest;
      Refused(ps[1], d, bad.1, w);
      assert Lookup(w.heap, pairs, bad.0) == bad.1;
      assert MatchValue(1, Operations(), ps[1], bad.1, [BARE], w) == Mismatch([bad.1] + [], w);
    }
  }

  lemma {:induction false} Refused(p: Expr, d: nat, v: Value, w: World)
    requires PatOk(p, d) && RealConsts(p) && !Irrefutable(p) && v == if p.NilLit? then Bool(true) else Nil
    ensures MatchTest(1, Operations(), p, v, [BARE], w) == Mismatch([], w)
  {
    hide HasClass, Resolve;
    BareNames(w);
    match p
    case Lit(c) =>
    case NilLit => ClassTests(v, "nil", w);
    case ArrayLit(_) => ClassTests(v, "array", w);
    case HashLit(_) => ClassTests(v, "hash", w);
  }

  /** A failing pattern leaves the stack as it was exactly when every hash value in it is
      irrefutable: then for all values and all operations on them, and otherwise not even with
      the built-in classes, for arrays and hashes of constants. */
  lemma {:induction false} ResidueExact(p: Expr)
    requires PatOk(p, 0) && RealConsts(p)
    ensures SafeValues(p) ==>
      forall fuel: nat, ops, v, frames, w | frames != [] && MatchTest(fuel, ops, p, v, frames, w).Mismatch? ::
        MatchTest(fuel, ops, p, v, frames, w).left == []
    ensures SafeValues(p) <==>
      forall v, w | MatchTest(1, Operations(), p, v, [BARE], w).Mismatch? ::
        MatchTest(1, Operations(), p, v, [BARE], w).left == []
  {
    hide MatchTest, Operations;
    if SafeValues(p) {
      forall fuel: nat, ops, v, frames, w | frames != [] && MatchTest(fuel, ops, p, v, frames, w).Mismatch?
        ensures MatchTest(fuel, ops, p, v, frames, w).left == []
      {
        TestLeavesNothing(fuel, ops, p, v, frames, w);
      }
    } else {
      var (h, v) := Miss(p, []);
      MissAbandons(p, 0, [], World([], h));
    }
  }

  /** `{"k": 1}` does not match a hash with 2 under "k", and the 2 stays on the stack. */
  lemma {:induction false} ResidueExample()
    ensures var p := HashLit([Lit(Str("k")), Lit(Int(1))]);
      var w := World([], [HashObj([(Str("k"), Int(2))])]);
      MatchTest(1, Operations(), p, Object(0), [BARE], w) == Mismatch([Int(2)], w)
  {
    hide HasClass, HasSize, Resolve;
    var items := [Lit(Str("k")), Lit(Int(1))];
    var w := World([], [HashObj([(Str("k"), Int(2))])]);
    BareNames(w);
    ClassTests(Object(0), "hash", w);
    SizeTests(1, HashLit(items), Object(0), 1, [BARE], w);
    assert MatchTest(1, Operations(), items[1], Int(2), [BARE], w) == Mismatch([], w);
    assert MatchValue(1, Operations(), items[1], Int(2), [BARE], w) == Mismatch([Int(2)] + [], w);
    assert MatchPairs(1, Operations(), items, Object(0), [BARE], w) == Mismatch([Int(2)], w);
  }
}
