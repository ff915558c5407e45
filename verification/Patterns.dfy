/** Pattern matching as a reader of the language expects it: a value fits a pattern or it does
    not, and a variable stands for the part of the value at its place in the pattern. The
    compiled test agrees with that, and leaves nothing behind, exactly for patterns whose hash
    values cannot fail. */
module Patterns {
  import opened Options
  import opened Syntax
  import opened Semantics
  import opened Machine
  import opened Codegen
  import opened Acceptance
  import opened Evaluator
  import opened Layout
  import opened Simulation
  import opened Residue
  import opened Builtins
  import Coverage

  // ---------- what a match means ----------

  predicate IsA(ops: Ops, h: Heap, v: Value, class_: Value) {
    ops.cmp(h, ops.classOf(h, v), class_) == Equal
  }

  /** A pattern looks only into values of the two classes. */
  predicate Opens(ops: Ops, h: Heap, classes: (Value, Value), v: Value) {
    IsA(ops, h, v, classes.0) || IsA(ops, h, v, classes.1)
  }

  function Part(ops: Ops, h: Heap, v: Value, k: Value): Value {
    ops.getitem(h, v, k).1
  }

  predicate SizeIs(ops: Ops, h: Heap, v: Value, n: nat) {
    var size := ops.native(h, ops.getattr(h, v, "size").1, []);
    size.Finish? && ops.cmp(h, size.v, Int(n)) == Equal
  }

  /** Looking into `v` changes nothing: its parts are plain lookups, and its size comes from
      native code. */
  ghost predicate Calm(ops: Ops, h: Heap, v: Value) {
    && (forall k {:trigger ops.getitem(h, v, k)} :: ops.getitem(h, v, k).0 == h)
    && var g := ops.getattr(h, v, "size");
       g.0 == h && !g.1.Method? && !g.1.Closure?
       && (ops.native(h, g.1, []).GiveUp? || (ops.native(h, g.1, []).Finish? && ops.native(h, g.1, []).heap == h))
  }

  /** That holds of the arrays and hashes, whatever other classes do. */
  ghost predicate Quiet(ops: Ops, classes: (Value, Value)) {
    forall h, v {:trigger Calm(ops, h, v)} :: Opens(ops, h, classes, v) ==> Calm(ops, h, v)
  }

  /** It does hold of the built-in classes. */
  lemma {:induction false} BuiltinsQuiet()
    ensures Quiet(Operations(), (Class("array"), Class("hash")))
  {
    forall h, v | Opens(Operations(), h, (Class("array"), Class("hash")), v)
      ensures Calm(Operations(), h, v)
    {
      assert ClassOf(h, v) == Class("array") || ClassOf(h, v) == Class("hash");
    }
  }

  /** Whether `v` fits the pattern; `classes` are the values of the names `array` and `hash`. */
  predicate Fits(ops: Ops, h: Heap, classes: (Value, Value), p: Expr, v: Value)
    decreases p
  {
    match p
    case Lit(c) => ops.cmp(h, v, c) == Equal
    case NilLit => IsA(ops, h, v, Class("nil"))
    case Ident(_) => true
    case Wildcard => true
    case ArrayLit(items) =>
      && IsA(ops, h, v, classes.0) && SizeIs(ops, h, v, |items|)
      && forall i :: 0 <= i < |items| ==> Fits(ops, h, classes, items[i], Part(ops, h, v, Int(i)))
    case HashLit(items) =>
      && IsA(ops, h, v, classes.1) && SizeIs(ops, h, v, |items| / 2)
      && forall i :: 0 <= i < |items| / 2 ==> Fits(ops, h, classes, items[2 * i + 1], Part(ops, h, v, KeyConst(items[2 * i])))
    case _ => false
  }

  /** The variables of a pattern with the parts of `v` they stand for, in the order in which
      they are written. */
  function Seen(ops: Ops, h: Heap, p: Expr, v: Value): seq<(Name, Value)> {
    match p
    case Ident(id) => [(id, v)]
    case ArrayLit(items) => ItemsSeen(ops, h, items, 0, v)
    case HashLit(items) => PairsSeen(ops, h, items, v)
    case _ => []
  }

  function ItemsSeen(ops: Ops, h: Heap, ps: seq<Expr>, i: nat, v: Value): seq<(Name, Value)> {
    if ps == [] then [] else
    Seen(ops, h, ps[0], Part(ops, h, v, Int(i))) + ItemsSeen(ops, h, ps[1..], i + 1, v)
  }

  function PairsSeen(ops: Ops, h: Heap, ps: seq<Expr>, v: Value): seq<(Name, Value)> {
    if |ps| < 2 then [] else
    Seen(ops, h, ps[1], Part(ops, h, v, KeyConst(ps[0]))) + PairsSeen(ops, h, ps[2..], v)
  }

  function StoreAll(frame: Frame, binds: seq<(Name, Value)>, w: World): Option<World> {
    if binds == [] then Some(w) else
    match Store(frame, binds[0].0, binds[0].1, w)
    case None => None
    case Some(w') => StoreAll(frame, binds[1..], w')
  }

  /** The names `array` and `hash` as the compiled code sees them. */
  ghost predicate Classes(ops: Ops, frames: seq<Frame>, w: World, classes: (Value, Value))
    requires frames != []
  {
    Resolve(ops, Last(frames), "array", w) == Some(classes.0) && Resolve(ops, Last(frames), "hash", w) == Some(classes.1)
  }

  predicate CmpFails(ops: Ops, h: Heap, l: Value, r: Value) {
    l == Null || r == Null || ops.cmp(h, l, r) == CmpError
  }

  predicate ClassFails(ops: Ops, h: Heap, v: Value, class_: Value) {
    v == Null || CmpFails(ops, h, ops.classOf(h, v), class_)
  }

  predicate SizeFails(ops: Ops, h: Heap, v: Value, n: nat) {
    var getter := ops.getattr(h, v, "size").1;
    var size := ops.native(h, getter, []);
    getter == Null || !size.Finish? || CmpFails(ops, h, size.v, Int(n))
  }

  /** An operation fails that the test needs before it is decided; `enough` says whether there is
      fuel for a call. */
  predicate Fails(ops: Ops, h: Heap, classes: (Value, Value), enough: bool, p: Expr, v: Value) {
    match p
    case Lit(c) => CmpFails(ops, h, v, c)
    case NilLit => ClassFails(ops, h, v, Class("nil"))
    case Ident(_) => false
    case Wildcard => false
    case ArrayLit(items) =>
      ClassFails(ops, h, v, classes.0) ||
      (IsA(ops, h, v, classes.0) &&
       (!enough || SizeFails(ops, h, v, |items|) || (SizeIs(ops, h, v, |items|) && ItemsFail(ops, h, classes, enough, items, 0, v))))
    case HashLit(items) =>
      ClassFails(ops, h, v, classes.1) ||
      (IsA(ops, h, v, classes.1) &&
       (!enough || SizeFails(ops, h, v, |items| / 2) || (SizeIs(ops, h, v, |items| / 2) && PairsFail(ops, h, classes, enough, items, v))))
    case _ => true
  }

  predicate ItemsFail(ops: Ops, h: Heap, classes: (Value, Value), enough: bool, ps: seq<Expr>, i: nat, v: Value) {
    ps != [] &&
    var item := Part(ops, h, v, Int(i));
    item == Null || Fails(ops, h, classes, enough, ps[0], item)
    || (Fits(ops, h, classes, ps[0], item) && ItemsFail(ops, h, classes, enough, ps[1..], i + 1, v))
  }

  predicate PairsFail(ops: Ops, h: Heap, classes: (Value, Value), enough: bool, ps: seq<Expr>, v: Value) {
    |ps| >= 2 &&
    var item := Part(ops, h, v, KeyConst(ps[0]));
    KeyConst(ps[0]) == Null || item == Null || Fails(ops, h, classes, enough, ps[1], item)
    || (Fits(ops, h, classes, ps[1], item) && PairsFail(ops, h, classes, enough, ps[2..], v))
  }

  ghost predicate Decides(r: MatchResult, fits: bool, fails: bool, w: World) {
    match r
    case Matched(w') => !fails && fits && w' == w
    case Mismatch(left, w') => !fails && !fits && left == [] && w' == w
    case MatchStop(why) => fails && !why.NotCompiled?
  }

  lemma {:induction false} QuietPart(ops: Ops, h: Heap, classes: (Value, Value), v: Value, k: Value)
    requires Quiet(ops, classes) && Opens(ops, h, classes, v)
    ensures ops.getitem(h, v, k) == (h, Part(ops, h, v, k))
  {
    assert Calm(ops, h, v);
  }

  lemma {:induction false} CalmOf(ops: Ops, h: Heap, classes: (Value, Value), v: Value)
    requires Quiet(ops, classes) && Opens(ops, h, classes, v)
    ensures Calm(ops, h, v)
  {
  }

  lemma {:induction false} IrrefutableFits(fuel: nat, ops: Ops, classes: (Value, Value), p: Expr, v: Value, frames: seq<Frame>, w: World)
    requires frames != [] && Irrefutable(p)
    ensures MatchTest(fuel, ops, p, v, frames, w) == Matched(w) && Fits(ops, w.heap, classes, p, v)
    ensures !Fails(ops, w.heap, classes, fuel > 0, p, v)
  {
  }

  lemma {:induction false} EqualsDecides(ops: Ops, l: Value, r: Value, w: World)
    ensures Decides(Equals(ops, l, r, w), ops.cmp(w.heap, l, r) == Equal, CmpFails(ops, w.heap, l, r), w)
  {
  }

  lemma {:induction false} SizeDecides(fuel: nat, ops: Ops, site: Expr, v: Value, n: nat, frames: seq<Frame>, w: World)
    requires frames != [] && Calm(ops, w.heap, v)
    ensures Decides(HasSize(fuel, ops, site, v, n, frames, w), SizeIs(ops, w.heap, v, n), fuel == 0 || SizeFails(ops, w.heap, v, n), w)
  {
    hide Equals;
    var g := ops.getattr(w.heap, v, "size");
    if g.1 != Null && fuel > 0 {
      var r := Apply(fuel, ops, site, Some(v), frames, g.1, [], w);
      assert w == World(w.cells, g.0);
      var act := ops.native(w.heap, g.1, []);
      assert CallFunction(fuel - 1, ops, Some(v), frames, g.1, [], w) == EvalNative(fuel - 1, ops, Some(v), frames, act, w);
      if r.Val? {
        EqualsDecides(ops, r.v, Int(n), w);
      }
    }
  }

  /** The test stops exactly if an operation that it needs fails; otherwise it agrees with the
      reference and leaves nothing behind. */
  lemma {:induction false} TestDecides(fuel: nat, ops: Ops, classes: (Value, Value), p: Expr, v: Value, frames: seq<Frame>, w: World)
    requires frames != [] && Quiet(ops, classes) && SafeValues(p) && Classes(ops, frames, w, classes)
    ensures Decides(MatchTest(fuel, ops, p, v, frames, w), Fits(ops, w.heap, classes, p, v), Fails(ops, w.heap, classes, fuel > 0, p, v), w)
    decreases p, 1
  {
    hide Equals, HasSize, SizeIs, Quiet;
    match p
    case Lit(c) => EqualsDecides(ops, v, c, w);
    case NilLit => EqualsDecides(ops, ops.classOf(w.heap, v), Class("nil"), w);
    case ArrayLit(items) => ArrayDecides(fuel, ops, classes, items, v, frames, w);
    case HashLit(items) => HashDecides(fuel, ops, classes, items, v, frames, w);
    case _ =>
  }

  lemma {:induction false} ArrayDecides(fuel: nat, ops: Ops, classes: (Value, Value), items: seq<Expr>, v: Value, frames: seq<Frame>, w: World)
    requires frames != [] && Quiet(ops, classes) && SafeItems(items) && Classes(ops, frames, w, classes)
    ensures var p := ArrayLit(items);
      Decides(MatchTest(fuel, ops, p, v, frames, w), Fits(ops, w.heap, classes, p, v), Fails(ops, w.heap, classes, fuel > 0, p, v), w)
    decreases items, 2
  {
    hide Equals, HasSize, SizeIs, Quiet, MatchItems, ItemsFail;
    EqualsDecides(ops, ops.classOf(w.heap, v), classes.0, w);
    if IsA(ops, w.heap, v, classes.0) {
      CalmOf(ops, w.heap, classes, v);
      SizeDecides(fuel, ops, ArrayLit(items), v, |items|, frames, w);
      ItemsDecide(fuel, ops, classes, items, items, 0, v, frames, w);
    }
  }

  lemma {:induction false} HashDecides(fuel: nat, ops: Ops, classes: (Value, Value), items: seq<Expr>, v: Value, frames: seq<Frame>, w: World)
    requires frames != [] && Quiet(ops, classes) && SafeValues(HashLit(items)) && Classes(ops, frames, w, classes)
    ensures var p := HashLit(items);
      Decides(MatchTest(fuel, ops, p, v, frames, w), Fits(ops, w.heap, classes, p, v), Fails(ops, w.heap, classes, fuel > 0, p, v), w)
    decreases items, 2
  {
    hide Equals, HasSize, SizeIs, Quiet, MatchPairs, PairsFail;
    EqualsDecides(ops, ops.classOf(w.heap, v), classes.1, w);
    if IsA(ops, w.heap, v, classes.1) {
      CalmOf(ops, w.heap, classes, v);
      SizeDecides(fuel, ops, HashLit(items), v, |items| / 2, frames, w);
      PairsDecide(fuel, ops, classes, items, items, 0, v, frames, w);
    }
  }

  lemma {:induction false} ItemsDecide(fuel: nat, ops: Ops, classes: (Value, Value), all: seq<Expr>, ps: seq<Expr>, i: nat,
                                       v: Value, frames: seq<Frame>, w: World)
    requires frames != [] && Quiet(ops, classes) && SafeItems(ps) && Classes(ops, frames, w, classes)
    requires i <= |all| && ps == all[i..] && Opens(ops, w.heap, classes, v)
    ensures Decides(MatchItems(fuel, ops, ps, i, v, frames, w),
                    forall j :: i <= j < |all| ==> Fits(ops, w.heap, classes, all[j], Part(ops, w.heap, v, Int(j))),
                    ItemsFail(ops, w.heap, classes, fuel > 0, ps, i, v), w)
    decreases ps, 1
  {
    hide MatchTest, Fits, Classes, Quiet;
    if ps != [] {
      assert ps[0] == all[i] && ps[1..] == all[i + 1..];
      QuietPart(ops, w.heap, classes, v, Int(i));
      var item := Part(ops, w.heap, v, Int(i));
      TestDecides(fuel, ops, classes, ps[0], item, frames, w);
      assert [item] + [] == [item];
      ItemsDecide(fuel, ops, classes, all, ps[1..], i + 1, v, frames, w);
      assert w == World(w.cells, w.heap);
    }
  }

  lemma {:induction false} PairsDecide(fuel: nat, ops: Ops, classes: (Value, Value), all: seq<Expr>, ps: seq<Expr>, i: nat,
                                       v: Value, frames: seq<Frame>, w: World)
    requires frames != [] && Quiet(ops, classes) && SafePairs(ps)
    requires 2 * i <= |all| && ps == all[2 * i..] && Opens(ops, w.heap, classes, v)
    ensures Decides(MatchPairs(fuel, ops, ps, v, frames, w),
                    forall j :: i <= j < |all| / 2 ==> Fits(ops, w.heap, classes, all[2 * j + 1], Part(ops, w.heap, v, KeyConst(all[2 * j]))),
                    PairsFail(ops, w.heap, classes, fuel > 0, ps, v), w)
    decreases ps
  {
    hide MatchTest, Fits, Irrefutable, Quiet;
    if |ps| >= 2 {
      assert ps[0] == all[2 * i] && ps[1] == all[2 * i + 1] && ps[2..] == all[2 * (i + 1)..];
      QuietPart(ops, w.heap, classes, v, KeyConst(ps[0]));
      var item := Part(ops, w.heap, v, KeyConst(ps[0]));
      IrrefutableFits(fuel, ops, classes, ps[1], item, frames, w);
      PairsDecide(fuel, ops, classes, all, ps[2..], i + 1, v, frames, w);
      assert w == World(w.cells, w.heap);
    }
  }

  // ---------- which tests abort ----------

  /** No null pointer inside the arrays and hashes of a heap. */
  ghost predicate Solid(h: Heap) {
    forall loc {:trigger h[loc]} :: 0 <= loc < |h| ==>
      match h[loc]
      case ArrayObj(items) => Null !in items
      case HashObj(pairs) => forall k :: 0 <= k < |pairs| ==> pairs[k].1 != Null
      case OtherObj(_) => true
  }

  /** Whether a value fits a pattern, with the built-in classes. */
  predicate Accepts(h: Heap, p: Expr, v: Value) {
    Fits(Operations(), h, (Class("array"), Class("hash")), p, v)
  }

  /** An array is among the keys in front of the one that is looked up, if that is there at all. */
  predicate PastArray(h: Heap, pairs: seq<(Value, Value)>, key: Value) {
    exists i :: 0 <= i < |pairs| && IsArray(h, pairs[i].0) && forall j :: 0 <= j < i ==> pairs[j].0 != key
  }

  /** The parts of `v` that a test looks at, in order and up to the first that does not fit, lead
      to an array in the place of a constant, or to a key that is looked up past an array. */
  predicate Aborts(h: Heap, p: Expr, v: Value) {
    match p
    case Lit(_) => IsArray(h, v)
    case ArrayLit(items) => IsArray(h, v) && |h[v.loc].items| == |items| && ItemsAbort(h, items, h[v.loc].items)
    case HashLit(items) => IsHash(h, v) && |h[v.loc].pairs| == |items| / 2 && PairsAbort(h, items, h[v.loc].pairs)
    case _ => false
  }

  predicate ItemsAbort(h: Heap, ps: seq<Expr>, vs: seq<Value>)
    requires |ps| == |vs|
  {
    ps != [] && (Aborts(h, ps[0], vs[0]) || (Accepts(h, ps[0], vs[0]) && ItemsAbort(h, ps[1..], vs[1..])))
  }

  predicate PairsAbort(h: Heap, ps: seq<Expr>, pairs: seq<(Value, Value)>) {
    |ps| >= 2 &&
    var value := Lookup(h, pairs, KeyConst(ps[0]));
    PastArray(h, pairs, KeyConst(ps[0])) || Aborts(h, ps[1], value) || (Accepts(h, ps[1], value) && PairsAbort(h, ps[2..], pairs))
  }

  /** A test with the built-in classes aborts exactly if `Aborts` says so; otherwise it matches
      exactly if the value fits. */
  ghost predicate Judged(r: MatchResult, fits: bool, aborts: bool, w: World) {
    match r
    case Matched(w') => !aborts && fits && w' == w
    case Mismatch(left, w') => !aborts && !fits && w' == w && Null !in left
    case MatchStop(why) => aborts && why == Abort
  }

  lemma {:induction false} AcceptsArray(h: Heap, items: seq<Expr>, v: Value)
    ensures Accepts(h, ArrayLit(items), v) <==>
      IsArray(h, v) && |h[v.loc].items| == |items| && forall j :: 0 <= j < |items| ==> Accepts(h, items[j], Part(Operations(), h, v, Int(j)))
  {
    ClassIs(h, v);
  }

  lemma {:induction false} AcceptsHash(h: Heap, items: seq<Expr>, v: Value)
    ensures Accepts(h, HashLit(items), v) <==>
      IsHash(h, v) && |h[v.loc].pairs| == |items| / 2 && PairsAccepted(h, items, 0, v)
  {
    ClassIs(h, v);
  }

  predicate PairsAccepted(h: Heap, all: seq<Expr>, i: nat, v: Value) {
    forall j :: i <= j < |all| / 2 ==> Accepts(h, all[2 * j + 1], Part(Operations(), h, v, KeyConst(all[2 * j])))
  }

  lemma {:induction false} PairsAcceptedNext(h: Heap, all: seq<Expr>, i: nat, v: Value)
    requires 2 * i + 2 <= |all|
    ensures PairsAccepted(h, all, i, v) <==>
      Accepts(h, all[2 * i + 1], Part(Operations(), h, v, KeyConst(all[2 * i]))) && PairsAccepted(h, all, i + 1, v)
  {
    hide Accepts, Part, Operations, KeyConst;
  }

  lemma {:induction false} ClassIs(h: Heap, v: Value)
    ensures IsA(Operations(), h, v, Class("array")) <==> IsArray(h, v)
    ensures IsA(Operations(), h, v, Class("hash")) <==> IsHash(h, v)
    ensures Sized(h, v) ==> forall n: nat :: SizeIs(Operations(), h, v, n) <==> SizeOf(h, v) == n
  {
  }

  lemma {:induction false} OpenExact(fuel: nat, p: Expr, v: Value, frames: seq<Frame>, w: World)
    requires frames != [] && (p.Ident? || p.Wildcard?)
    ensures Judged(MatchTest(fuel, Operations(), p, v, frames, w), Accepts(w.heap, p, v), Aborts(w.heap, p, v), w)
  {
  }

  lemma {:induction false} NilExact(fuel: nat, v: Value, frames: seq<Frame>, w: World)
    requires frames != [] && v != Null
    ensures Judged(MatchTest(fuel, Operations(), NilLit, v, frames, w), Accepts(w.heap, NilLit, v), Aborts(w.heap, NilLit, v), w)
  {
    ClassTests(v, "nil", w);
  }

  /** The outcome of every test with the built-in classes, whatever the pattern and the value. */
  lemma {:induction false} TestExact(fuel: nat, p: Expr, d: nat, v: Value, frames: seq<Frame>, w: World)
    requires frames != [] && fuel > 0 && PatOk(p, d) && RealConsts(p) && v != Null && Solid(w.heap)
    requires Classes(Operations(), frames, w, (Class("array"), Class("hash")))
    ensures Judged(MatchTest(fuel, Operations(), p, v, frames, w), Accepts(w.heap, p, v), Aborts(w.heap, p, v), w)
    decreases p
  {
    hide HasClass, HasSize, Resolve, Solid, Accepts, Operations;
    match p
    case Lit(c) => LitExact(fuel, c, v, frames, w);
    case NilLit => NilExact(fuel, v, frames, w);
    case ArrayLit(items) =>
      ClassTests(v, "array", w);
      AcceptsArray(w.heap, items, v);
      if IsArray(w.heap, v) {
        SizeTests(fuel, p, v, |items|, frames, w);
        if SizeOf(w.heap, v) == |items| { ItemsExact(fuel, items, items, 0, d + 1, v, frames, w); }
      }
    case HashLit(items) =>
      ClassTests(v, "hash", w);
      AcceptsHash(w.heap, items, v);
      if IsHash(w.heap, v) {
        SizeTests(fuel, p, v, |items| / 2, frames, w);
        if SizeOf(w.heap, v) == |items| / 2 { PairsExact(fuel, items, items, 0, d + 1, v, frames, w); }
      }
    case _ => OpenExact(fuel, p, v, frames, w);
  }

  // ---------- the same without the operations ----------

  /** The value that a hash has under a constant; nil if it has none. */
  function ValueUnder(pairs: seq<(Value, Value)>, key: Value): Value {
    if pairs == [] then Nil else if pairs[0].0 == key then pairs[0].1 else ValueUnder(pairs[1..], key)
  }

  /** A constant stands for itself, a name or a wildcard for anything, an array for an array of as
      many items that suit, and a hash for one of as many pairs with values that suit. */
  predicate Suits(h: Heap, p: Expr, v: Value) {
    match p
    case Lit(c) => v == c
    case NilLit => v == Nil
    case Ident(_) => true
    case Wildcard => true
    case ArrayLit(items) => IsArray(h, v) && |h[v.loc].items| == |items| && ItemsSuit(h, items, h[v.loc].items)
    case HashLit(items) => IsHash(h, v) && |h[v.loc].pairs| == |items| / 2 && PairsSuit(h, items, h[v.loc].pairs)
    case _ => false
  }

  predicate ItemsSuit(h: Heap, ps: seq<Expr>, vs: seq<Value>)
    requires |ps| == |vs|
  {
    ps == [] || (Suits(h, ps[0], vs[0]) && ItemsSuit(h, ps[1..], vs[1..]))
  }

  predicate PairsSuit(h: Heap, ps: seq<Expr>, pairs: seq<(Value, Value)>) {
    |ps| < 2 || (Suits(h, ps[1], ValueUnder(pairs, KeyConst(ps[0]))) && PairsSuit(h, ps[2..], pairs))
  }

  lemma {:induction false} PastArrayNext(h: Heap, pairs: seq<(Value, Value)>, key: Value)
    requires pairs != [] && (IsArray(h, pairs[0].0) || (pairs[0].0 != key && PastArray(h, pairs[1..], key)))
    ensures PastArray(h, pairs, key)
  {
    if !IsArray(h, pairs[0].0) {
      var i :| 0 <= i < |pairs[1..]| && IsArray(h, pairs[1..][i].0) && forall j :: 0 <= j < i ==> pairs[1..][j].0 != key;
      assert IsArray(h, pairs[i + 1].0);
      forall j | 0 <= j < i + 1 ensures pairs[j].0 != key {
        if j > 0 { assert pairs[j] == pairs[1..][j - 1]; }
      }
    }
  }

  lemma {:induction false} LookupUnder(h: Heap, pairs: seq<(Value, Value)>, key: Value)
    requires (IsConst(key) || key == Nil) && !PastArray(h, pairs, key)
    ensures Lookup(h, pairs, key) == ValueUnder(pairs, key)
    decreases pairs
  {
    hide PastArray, Cmp;
    if pairs != [] {
      CmpConst(h, pairs[0].0, key, |h|);
      if IsArray(h, pairs[0].0) || (pairs[0].0 != key && PastArray(h, pairs[1..], key)) {
        PastArrayNext(h, pairs, key);
      } else if pairs[0].0 != key {
        LookupUnder(h, pairs[1..], key);
      }
    }
  }

  /** The keys of a pattern are constants. */
  lemma {:induction false} AcceptsPairs(h: Heap, all: seq<Expr>, i: nat, v: Value)
    requires IsHash(h, v) && 2 * i <= |all|
    ensures PairsAccepted(h, all, i, v) <==>
      2 * i + 2 > |all| || (Accepts(h, all[2 * i + 1], Lookup(h, h[v.loc].pairs, KeyConst(all[2 * i]))) && PairsAccepted(h, all, i + 1, v))
  {
    hide Accepts, KeyConst;
    if 2 * i + 2 <= |all| {
      PairsAcceptedNext(h, all, i, v);
      assert Part(Operations(), h, v, KeyConst(all[2 * i])) == Lookup(h, h[v.loc].pairs, KeyConst(all[2 * i])) by { hide Lookup; }
    }
  }

  predicate ItemsAccepted(h: Heap, ps: seq<Expr>, vs: seq<Value>)
    requires |ps| == |vs|
  {
    ps == [] || (Accepts(h, ps[0], vs[0]) && ItemsAccepted(h, ps[1..], vs[1..]))
  }

  lemma {:induction false} ItemPart(h: Heap, v: Value, i: nat)
    requires IsArray(h, v) && i < |h[v.loc].items|
    ensures Part(Operations(), h, v, Int(i)) == h[v.loc].items[i]
  {
  }

  lemma {:induction false} ItemsFrom(h: Heap, all: seq<Expr>, i: nat, v: Value)
    requires IsArray(h, v) && |all| == |h[v.loc].items| && i <= |all|
    ensures (forall j :: i <= j < |all| ==> Accepts(h, all[j], Part(Operations(), h, v, Int(j)))) <==> ItemsAccepted(h, all[i..], h[v.loc].items[i..])
    decreases |all| - i
  {
    hide Accepts, Part, Operations;
    var items := h[v.loc].items;
    if i < |all| {
      ItemPart(h, v, i);
      ItemsFrom(h, all, i + 1, v);
      assert all[i..][0] == all[i] && all[i..][1..] == all[i + 1..] && items[i..][0] == items[i] && items[i..][1..] == items[i + 1..];
    }
  }

  lemma {:induction false} ItemsSuitExact(h: Heap, ps: seq<Expr>, vs: seq<Value>, d: nat)
    requires |ps| == |vs| && ItemsOk(ps, d) && RealItems(ps) && !ItemsAbort(h, ps, vs)
    ensures ItemsAccepted(h, ps, vs) <==> ItemsSuit(h, ps, vs)
    decreases ps, 0
  {
    hide Accepts, Aborts, Suits, PatOk, RealConsts;
    if ps != [] {
      SuitsExact(h, ps[0], d, vs[0]);
      if Accepts(h, ps[0], vs[0]) { ItemsSuitExact(h, ps[1..], vs[1..], d); }
    }
  }

  lemma {:induction false} PairsSuitExact(h: Heap, all: seq<Expr>, ps: seq<Expr>, i: nat, d: nat, v: Value)
    requires IsHash(h, v) && 2 * i <= |all| && ps == all[2 * i..] && PairsOk(ps, d) && RealPairs(ps) && !PairsAbort(h, ps, h[v.loc].pairs)
    ensures PairsAccepted(h, all, i, v) <==> PairsSuit(h, ps, h[v.loc].pairs)
    decreases ps, 0
  {
    hide Accepts, Aborts, Suits, PatOk, RealConsts, Lookup, PastArray, PairsAccepted;
    var pairs := h[v.loc].pairs;
    AcceptsPairs(h, all, i, v);
    if |ps| >= 2 {
      assert ps[0] == all[2 * i] && ps[1] == all[2 * i + 1] && ps[2..] == all[2 * (i + 1)..];
      var key := KeyConst(ps[0]);
      KeyReal(ps, d);
      LookupUnder(h, pairs, key);
      SuitsExact(h, ps[1], d, Lookup(h, pairs, key));
      if Accepts(h, ps[1], Lookup(h, pairs, key)) { PairsSuitExact(h, all, ps[2..], i + 1, d, v); }
    }
  }

  lemma {:induction false} KeyReal(ps: seq<Expr>, d: nat)
    requires |ps| >= 2 && PairsOk(ps, d) && RealPairs(ps)
    ensures IsConst(KeyConst(ps[0])) || KeyConst(ps[0]) == Nil
  {
  }

  /** Unless its test aborts, a value fits a pattern exactly if it suits it. */
  lemma {:induction false} SuitsExact(h: Heap, p: Expr, d: nat, v: Value)
    requires PatOk(p, d) && RealConsts(p) && !Aborts(h, p, v)
    ensures Accepts(h, p, v) <==> Suits(h, p, v)
    decreases p, 1
  {
    match p
    case Lit(c) => LitSuits(h, c, v);
    case NilLit => ClassIsNil(h, v);
    case ArrayLit(items) =>
      hide Accepts, Operations;
      AcceptsArray(h, items, v);
      if IsArray(h, v) && |h[v.loc].items| == |items| {
        ItemsFrom(h, items, 0, v);
        assert items[0..] == items && h[v.loc].items[0..] == h[v.loc].items;
        ItemsSuitExact(h, items, h[v.loc].items, d + 1);
      }
    case HashLit(items) =>
      hide Accepts, Operations;
      AcceptsHash(h, items, v);
      if IsHash(h, v) && |h[v.loc].pairs| == |items| / 2 {
        assert items[0..] == items;
        PairsSuitExact(h, items, items, 0, d + 1, v);
      }
    case _ =>
  }

  lemma {:induction false} LitSuits(h: Heap, c: Value, v: Value)
    requires IsConst(c)
    ensures Accepts(h, Lit(c), v) <==> v == c
  {
    hide Cmp;
    CmpConst(h, v, c, |h|);
  }

  lemma {:induction false} ClassIsNil(h: Heap, v: Value)
    ensures Accepts(h, NilLit, v) <==> v == Nil
  {
  }

  /** The outcome of every test, said of the value alone. */
  lemma {:induction false} TestSuits(fuel: nat, p: Expr, d: nat, v: Value, frames: seq<Frame>, w: World)
    requires frames != [] && fuel > 0 && PatOk(p, d) && RealConsts(p) && v != Null && Solid(w.heap)
    requires Classes(Operations(), frames, w, (Class("array"), Class("hash")))
    ensures match MatchTest(fuel, Operations(), p, v, frames, w)
            case Matched(w') => Suits(w.heap, p, v) && w' == w
            case Mismatch(left, w') => !Suits(w.heap, p, v) && w' == w
            case MatchStop(why) => Aborts(w.heap, p, v) && why == Abort
    ensures MatchTest(fuel, Operations(), p, v, frames, w).MatchStop? <==> Aborts(w.heap, p, v)
  {
    hide MatchTest, Suits, Accepts, Aborts, Solid, Operations;
    TestExact(fuel, p, d, v, frames, w);
    if !Aborts(w.heap, p, v) { SuitsExact(w.heap, p, d, v); }
  }

  lemma {:induction false} LitExact(fuel: nat, c: Value, v: Value, frames: seq<Frame>, w: World)
    requires frames != [] && IsConst(c) && v != Null
    ensures Judged(MatchTest(fuel, Operations(), Lit(c), v, frames, w), Accepts(w.heap, Lit(c), v), IsArray(w.heap, v), w)
  {
    CmpConst(w.heap, v, c, |w.heap|);
    hide Cmp;
  }

  /** A constant is equal only to itself, and only an array cannot be compared with it. */
  lemma {:induction false} CmpConst(h: Heap, v: Value, c: Value, depth: nat)
    requires IsConst(c) || c == Nil
    ensures Cmp(h, v, c, depth) == CmpError <==> IsArray(h, v)
    ensures Cmp(h, v, c, depth) == Equal <==> v == c
  {
  }

  lemma {:induction false} ItemsExact(fuel: nat, all: seq<Expr>, ps: seq<Expr>, i: nat, d: nat, v: Value, frames: seq<Frame>, w: World)
    requires frames != [] && fuel > 0 && ItemsOk(ps, d) && RealItems(ps) && Solid(w.heap)
    requires Classes(Operations(), frames, w, (Class("array"), Class("hash")))
    requires IsArray(w.heap, v) && |all| == |w.heap[v.loc].items| && i <= |all| && ps == all[i..]
    ensures Judged(MatchItems(fuel, Operations(), ps, i, v, frames, w),
                   forall j :: i <= j < |all| ==> Accepts(w.heap, all[j], Part(Operations(), w.heap, v, Int(j))),
                   ItemsAbort(w.heap, ps, w.heap[v.loc].items[i..]), w)
    decreases ps
  {
    if ps != [] {
      hide MatchTest, Classes, Accepts, Aborts;
      var items := w.heap[v.loc].items;
      assert ps[0] == all[i] && ps[1..] == all[i + 1..] && items[i..][0] == items[i] && items[i..][1..] == items[i + 1..];
      assert items[i] in items && items[i] != Null;
      assert Operations().getitem(w.heap, v, Int(i)) == (w.heap, items[i]) && w == World(w.cells, w.heap);
      TestExact(fuel, ps[0], d, items[i], frames, w);
      ItemExact(fuel, ps[0], items[i], Accepts(w.heap, ps[0], items[i]), Aborts(w.heap, ps[0], items[i]), frames, w);
      ItemsExact(fuel, all, ps[1..], i + 1, d, v, frames, w);
    }
  }

  /** Dropping an item, or what it left, does not abort. */
  lemma {:induction false} ItemExact(fuel: nat, p: Expr, item: Value, fits: bool, aborts: bool, frames: seq<Frame>, w: World)
    requires frames != [] && item != Null && Judged(MatchTest(fuel, Operations(), p, item, frames, w), fits, aborts, w)
    ensures Judged(MatchItem(fuel, Operations(), p, item, frames, w), fits, aborts, w)
  {
    hide MatchTest, Operations;
    var r := MatchTest(fuel, Operations(), p, item, frames, w);
    if r.Mismatch? {
      var held := [item] + r.left;
      assert forall x :: x in held ==> x != Null;
      assert Last(held) in held && forall x :: x in Init(held) ==> x in held;
    }
  }

  lemma {:induction false} PairsExact(fuel: nat, all: seq<Expr>, ps: seq<Expr>, i: nat, d: nat, v: Value, frames: seq<Frame>, w: World)
    requires frames != [] && fuel > 0 && PairsOk(ps, d) && RealPairs(ps) && Solid(w.heap)
    requires Classes(Operations(), frames, w, (Class("array"), Class("hash")))
    requires IsHash(w.heap, v) && 2 * i <= |all| && ps == all[2 * i..]
    ensures Judged(MatchPairs(fuel, Operations(), ps, v, frames, w), PairsAccepted(w.heap, all, i, v), PairsAbort(w.heap, ps, w.heap[v.loc].pairs), w)
    decreases ps
  {
    hide MatchTest, Classes, Accepts, Aborts, PairsAccepted, Operations, PastArray, Lookup;
    if |ps| < 2 {
      NoPairsLeft(w.heap, all, i, v);
    } else {
      var key, pairs := KeyConst(ps[0]), w.heap[v.loc].pairs;
      var value := Lookup(w.heap, pairs, key);
      assert ps[0] == all[2 * i] && ps[1] == all[2 * i + 1] && ps[2..] == all[2 * (i + 1)..];
      GetPair(w.heap, v, key);
      assert w == World(w.cells, w.heap);
      LookupExact(w.heap, pairs, key);
      PairsAcceptedNext(w.heap, all, i, v);
      if value != Null {
        TestExact(fuel, ps[1], d, value, frames, w);
        PairsExact(fuel, all, ps[2..], i + 1, d, v, frames, w);
      }
    }
  }

  lemma {:induction false} NoPairsLeft(h: Heap, all: seq<Expr>, i: nat, v: Value)
    requires 2 * i <= |all| < 2 * i + 2
    ensures PairsAccepted(h, all, i, v)
  {
  }

  lemma {:induction false} GetPair(h: Heap, v: Value, key: Value)
    requires IsHash(h, v) && (IsConst(key) || key == Nil)
    ensures Operations().getitem(h, v, key) == (h, Lookup(h, h[v.loc].pairs, key)) && Part(Operations(), h, v, key) == Lookup(h, h[v.loc].pairs, key)
  {
    hide Lookup;
  }

  /** A lookup fails exactly if it passes an array. */
  lemma {:induction false} LookupExact(h: Heap, pairs: seq<(Value, Value)>, key: Value)
    requires IsConst(key) || key == Nil
    requires forall k :: 0 <= k < |pairs| ==> pairs[k].1 != Null
    ensures Lookup(h, pairs, key) == Null <==> PastArray(h, pairs, key)
    decreases pairs
  {
    if pairs != [] {
      CmpConst(h, pairs[0].0, key, |h|);
      hide Cmp, IsArray;
      var rest := pairs[1..];
      LookupExact(h, rest, key);
      if PastArray(h, rest, key) && pairs[0].0 != key {
        var i :| 0 <= i < |rest| && IsArray(h, rest[i].0) && forall j :: 0 <= j < i ==> rest[j].0 != key;
        assert IsArray(h, pairs[i + 1].0) && forall j :: 0 <= j < i + 1 ==> pairs[j].0 != key;
      }
      if PastArray(h, pairs, key) && !IsArray(h, pairs[0].0) {
        var i :| 0 <= i < |pairs| && IsArray(h, pairs[i].0) && forall j :: 0 <= j < i ==> pairs[j].0 != key;
        assert IsArray(h, rest[i - 1].0) && forall j :: 0 <= j < i - 1 ==> rest[j].0 != key;
      }
    }
  }

  /** A hash whose only key is an array. */
  function KeyedByArray(): World {
    World([], [ArrayObj([Int(1)]), HashObj([(Object(0), Int(2))])])
  }

  lemma {:induction false} KeyAborts()
    ensures var w := KeyedByArray(); IsHash(w.heap, Object(1)) && Aborts(w.heap, HashLit([Lit(Str("k")), Ident("x")]), Object(1))
    ensures Solid(KeyedByArray().heap)
  {
    hide Lookup, Accepts;
    var w := KeyedByArray();
    assert IsArray(w.heap, w.heap[1].pairs[0].0) && PastArray(w.heap, w.heap[1].pairs, Str("k"));
  }

  /** `match [1] { 1 { ... } }` aborts, and so does `match {[1]: 2} { {"k": x} { ... } }`. */
  lemma {:induction false} AbortExamples()
    ensures MatchTest(1, Operations(), Lit(Int(1)), Object(0), [BARE], World([], [ArrayObj([Int(1)])])) == MatchStop(Abort)
    ensures MatchTest(1, Operations(), HashLit([Lit(Str("k")), Ident("x")]), Object(1), [BARE], KeyedByArray()) == MatchStop(Abort)
  {
    hide MatchTest, Accepts, Aborts, Operations, KeyedByArray, Solid;
    var one := World([], [ArrayObj([Int(1)])]);
    assert IsArray(one.heap, Object(0));
    LitExact(1, Int(1), Object(0), [BARE], one);
    BareNames(KeyedByArray());
    KeyAborts();
    TestExact(1, HashLit([Lit(Str("k")), Ident("x")]), 0, Object(1), [BARE], KeyedByArray());
  }

  // ---------- variables ----------

  /** Following a variable's recorded path from the matched value leads to the part the
      variable stands for. */
  ghost predicate Leads(ops: Ops, classes: (Value, Value), root: Value, w: World, vars: seq<(Name, seq<Value>)>, seen: seq<(Name, Value)>) {
    && |vars| == |seen|
    && forall j :: 0 <= j < |vars| ==> vars[j].0 == seen[j].0 && Walks(ops, classes, root, vars[j].1, seen[j].1, w)
  }

  /** The walk opens only arrays and hashes on its way to `v`. */
  predicate Walks(ops: Ops, classes: (Value, Value), root: Value, path: seq<Value>, v: Value, w: World) {
    Walk(ops, root, path, w) == Val(v, w) && AllOpen(ops, w.heap, classes, root, path)
  }

  predicate AllOpen(ops: Ops, h: Heap, classes: (Value, Value), v: Value, path: seq<Value>)
    decreases path
  {
    path == [] || (Opens(ops, h, classes, v) && AllOpen(ops, h, classes, Part(ops, h, v, path[0]), path[1..]))
  }

  lemma {:induction false} WalkOn(ops: Ops, classes: (Value, Value), root: Value, path: seq<Value>, k: Value, v: Value, w: World)
    requires Quiet(ops, classes) && Walks(ops, classes, root, path, v, w) && v != Null && k != Null
    requires Opens(ops, w.heap, classes, v) && Part(ops, w.heap, v, k) != Null
    ensures Walks(ops, classes, root, path + [k], Part(ops, w.heap, v, k), w)
    decreases path
  {
    hide Opens, Quiet;
    if path == [] {
      QuietPart(ops, w.heap, classes, v, k);
      assert [k][1..] == [] && path + [k] == [k];
      assert Walk(ops, Part(ops, w.heap, v, k), [], w) == Val(Part(ops, w.heap, v, k), w);
      assert AllOpen(ops, w.heap, classes, Part(ops, w.heap, v, k), []);
    } else {
      QuietPart(ops, w.heap, classes, root, path[0]);
      assert (path + [k])[1..] == path[1..] + [k];
      WalkOn(ops, classes, Part(ops, w.heap, root, path[0]), path[1..], k, v, w);
    }
  }

  lemma {:induction false} LeadsBoth(ops: Ops, classes: (Value, Value), root: Value, w: World, a: seq<(Name, seq<Value>)>, b: seq<(Name, seq<Value>)>,
                                     x: seq<(Name, Value)>, y: seq<(Name, Value)>)
    requires Leads(ops, classes, root, w, a, x) && Leads(ops, classes, root, w, b, y)
    ensures Leads(ops, classes, root, w, a + b, x + y)
  {
  }

  lemma {:induction false} PathsLead(fuel: nat, ops: Ops, classes: (Value, Value), p: Expr, root: Value, path: seq<Value>,
                                     v: Value, frames: seq<Frame>, w: World)
    requires frames != [] && Quiet(ops, classes) && SafeValues(p) && Classes(ops, frames, w, classes)
    requires Walks(ops, classes, root, path, v, w) && MatchTest(fuel, ops, p, v, frames, w).Matched?
    ensures Leads(ops, classes, root, w, PatVars(p, path), Seen(ops, w.heap, p, v))
    decreases p, 1
  {
    hide HasSize, Equals, Walk, Quiet;
    if p.ArrayLit? {
      EqualsDecides(ops, ops.classOf(w.heap, v), classes.0, w);
      CalmOf(ops, w.heap, classes, v);
      SizeDecides(fuel, ops, p, v, |p.items|, frames, w);
      ItemsLead(fuel, ops, classes, p.items, 0, root, path, v, frames, w);
    } else if p.HashLit? {
      EqualsDecides(ops, ops.classOf(w.heap, v), classes.1, w);
      CalmOf(ops, w.heap, classes, v);
      SizeDecides(fuel, ops, p, v, |p.items| / 2, frames, w);
      PairsLead(fuel, ops, classes, p.items, root, path, v, frames, w);
    }
  }

  lemma {:induction false} ItemsLead(fuel: nat, ops: Ops, classes: (Value, Value), ps: seq<Expr>, i: nat, root: Value, path: seq<Value>,
                                     v: Value, frames: seq<Frame>, w: World)
    requires frames != [] && Quiet(ops, classes) && SafeItems(ps) && Classes(ops, frames, w, classes) && v != Null && Opens(ops, w.heap, classes, v)
    requires Walks(ops, classes, root, path, v, w) && MatchItems(fuel, ops, ps, i, v, frames, w).Matched?
    ensures Leads(ops, classes, root, w, ItemsVars(ps, i, path), ItemsSeen(ops, w.heap, ps, i, v))
    decreases ps
  {
    hide MatchTest, Fits, Walk, Quiet, Classes, Leads;
    if ps == [] {
      LeadsNowhere(ops, classes, root, w);
    } else {
      QuietPart(ops, w.heap, classes, v, Int(i));
      var item := Part(ops, w.heap, v, Int(i));
      assert w == World(w.cells, w.heap);
      TestDecides(fuel, ops, classes, ps[0], item, frames, w);
      WalkOn(ops, classes, root, path, Int(i), v, w);
      PathsLead(fuel, ops, classes, ps[0], root, path + [Int(i)], item, frames, w);
      ItemsLead(fuel, ops, classes, ps[1..], i + 1, root, path, v, frames, w);
      LeadsBoth(ops, classes, root, w, PatVars(ps[0], path + [Int(i)]), ItemsVars(ps[1..], i + 1, path),
                Seen(ops, w.heap, ps[0], item), ItemsSeen(ops, w.heap, ps[1..], i + 1, v));
    }
  }

  lemma {:induction false} LeadsNowhere(ops: Ops, classes: (Value, Value), root: Value, w: World)
    ensures Leads(ops, classes, root, w, [], [])
  {
  }

  lemma {:induction false} PairsLead(fuel: nat, ops: Ops, classes: (Value, Value), ps: seq<Expr>, root: Value, path: seq<Value>,
                                     v: Value, frames: seq<Frame>, w: World)
    requires frames != [] && Quiet(ops, classes) && SafePairs(ps) && v != Null && Opens(ops, w.heap, classes, v)
    requires Walks(ops, classes, root, path, v, w) && MatchPairs(fuel, ops, ps, v, frames, w).Matched?
    ensures Leads(ops, classes, root, w, PairsVars(ps, path), PairsSeen(ops, w.heap, ps, v))
    decreases ps
  {
    hide MatchTest, Fits, Walk, Quiet;
    if |ps| >= 2 {
      var key := KeyConst(ps[0]);
      QuietPart(ops, w.heap, classes, v, key);
      var item := Part(ops, w.heap, v, key);
      assert w == World(w.cells, w.heap);
      IrrefutableFits(fuel, ops, classes, ps[1], item, frames, w);
      WalkOn(ops, classes, root, path, key, v, w);
      assert Leads(ops, classes, root, w, PatVars(ps[1], path + [key]), Seen(ops, w.heap, ps[1], item));
      PairsLead(fuel, ops, classes, ps[2..], root, path, v, frames, w);
      LeadsBoth(ops, classes, root, w, PatVars(ps[1], path + [key]), PairsVars(ps[2..], path),
                Seen(ops, w.heap, ps[1], item), PairsSeen(ops, w.heap, ps[2..], v));
    }
  }

  /** Storing one variable does not change where the paths lead. */
  lemma {:induction false} LeadsAfter(ops: Ops, classes: (Value, Value), root: Value, w: World, w': World, vars: seq<(Name, seq<Value>)>, seen: seq<(Name, Value)>)
    requires Quiet(ops, classes) && Leads(ops, classes, root, w, vars, seen) && w'.heap == w.heap
    ensures Leads(ops, classes, root, w', vars, seen)
  {
    hide Quiet, Walks;
    forall j | 0 <= j < |vars| ensures Walks(ops, classes, root, vars[j].1, seen[j].1, w') {
      WalkElsewhere(ops, classes, root, vars[j].1, seen[j].1, w, w');
    }
  }

  lemma {:induction false} WalkElsewhere(ops: Ops, classes: (Value, Value), root: Value, path: seq<Value>, v: Value, w: World, w': World)
    requires Quiet(ops, classes) && w.heap == w'.heap && Walks(ops, classes, root, path, v, w)
    ensures Walks(ops, classes, root, path, v, w')
    decreases path
  {
    hide Opens, Quiet;
    if path != [] {
      QuietPart(ops, w.heap, classes, root, path[0]);
      assert w == World(w.cells, w.heap) && w' == World(w'.cells, w.heap);
      WalkElsewhere(ops, classes, Part(ops, w.heap, root, path[0]), path[1..], v, w, w');
    }
  }

  /** The binding code stores every variable's part, in the order of the pattern. */
  lemma {:induction false} BindsSeen(ops: Ops, classes: (Value, Value), vars: seq<(Name, seq<Value>)>, seen: seq<(Name, Value)>, v: Value, frames: seq<Frame>, w: World)
    requires frames != [] && Quiet(ops, classes) && v != Null && Leads(ops, classes, v, w, vars, seen)
    ensures BindVars(ops, vars, v, frames, w) == StoreAll(Last(frames), seen, w)
    decreases |vars|
  {
    hide Walk, Quiet;
    if vars != [] {
      assert Walk(ops, v, vars[0].1, w) == Val(seen[0].1, w);
      var s := Store(Last(frames), vars[0].0, seen[0].1, w);
      if s.Some? {
        assert Leads(ops, classes, v, w, vars[1..], seen[1..]);
        LeadsAfter(ops, classes, v, w, s.value, vars[1..], seen[1..]);
        BindsSeen(ops, classes, vars[1..], seen[1..], v, frames, s.value);
      }
    }
  }

  // ---------- compiled patterns ----------

  /** Running the compiled test on a value: it reaches the end of the test if the value fits
      and `next` if it does not, with the operands and the variables as they were. */
  lemma {:induction false} CompiledTest(m: Ctx, fuel: nat, at: nat, p: Expr, next: nat, stack: seq<Value>, v: Value, w: World,
                                        classes: (Value, Value))
    requires Ready(m, stack) && At(m.code, at, PatCode(p, at, next)) && next >= at + PatSize(p)
    requires Quiet(m.ops, classes) && SafeValues(p) && PatOk(p, 0) && Classes(m.ops, m.frames, w, classes)
    ensures var out := m.go(fuel, at, stack + [v], w);
      match MatchTest(fuel, m.ops, p, v, m.frames, w)
      case MatchStop(why) => out == Stop(why)
      case _ => out == m.go(fuel, if Fits(m.ops, w.heap, classes, p, v) then at + PatSize(p) else next, stack + [v], w)
    ensures Fails(m.ops, w.heap, classes, fuel > 0, p, v) <==> MatchTest(fuel, m.ops, p, v, m.frames, w).MatchStop?
  {
    hide MatchTest, Fits, Fails, PatCode, PatSize, Quiet, PatOk;
    PatRuns(m, fuel, at, p, next, stack, v, w);
    TestDecides(fuel, m.ops, classes, p, v, m.frames, w);
    assert stack + [v] + [] == stack + [v];
    Coverage.PatCovered(fuel, m.ops, p, 0, v, m.frames, w);
  }

  /** Running the binding code after a test that succeeded: every variable is stored with the
      part of the value at its place, and the value stays on the stack. */
  lemma {:induction false} CompiledBinds(m: Ctx, fuel: nat, at: nat, p: Expr, stack: seq<Value>, v: Value, w: World,
                                         classes: (Value, Value))
    requires Ready(m, stack) && At(m.code, at, BindsCode(PatVars(p, []))) && v != Null
    requires Quiet(m.ops, classes) && SafeValues(p) && Classes(m.ops, m.frames, w, classes)
    requires MatchTest(fuel, m.ops, p, v, m.frames, w).Matched?
    ensures m.go(fuel, at, stack + [v], w) ==
      match StoreAll(Last(m.frames), Seen(m.ops, w.heap, p, v), w)
      case None => Stop(Abort)
      case Some(w') => m.go(fuel, at + BindsSize(PatVars(p, [])), stack + [v], w')
  {
    hide MatchTest, BindsCode, BindVars, StoreAll, Quiet, BindsSize, PatVars, Seen;
    BindsRun(m, fuel, at, PatVars(p, []), stack, v, w);
    PathsLead(fuel, m.ops, classes, p, v, [], v, m.frames, w);
    BindsSeen(m.ops, classes, PatVars(p, []), Seen(m.ops, w.heap, p, v), v, m.frames, w);
  }
}
