/** What the operators of the language answer: comparisons and arithmetic, which values take a
    branch, and what is found in array and hash literals. The code, the words and the tree all agree on
    these answers; here they are the ones the operators are for. */
module Operators {
  import opened Options
  import opened Syntax
  import opened Semantics
  import opened Machine
  import opened Codegen
  import opened Acceptance
  import opened Evaluator
  import opened Builtins
  import opened Simulation
  import opened Layout
  import Patterns
  import Residue
  import Process
  import CodeObjects
  import Interpreter
  import Compilation
  import Tree

  // ---------- comparisons ----------

  function IntAnswer(op: CmpOp, a: int, b: int): bool {
    match op
    case Eq => a == b
    case Neq => a != b
    case Gt => a > b
    case Gte => a >= b
    case Lt => a < b
    case Lte => a <= b
  }

  function FloatAnswer(op: CmpOp, a: real, b: real): bool {
    match op
    case Eq => a == b
    case Neq => a != b
    case Gt => a > b
    case Gte => a >= b
    case Lt => a < b
    case Lte => a <= b
  }

  /** `a` comes first in a dictionary: at the first place where they differ, it has the smaller
      byte or has ended. */
  predicate Precedes(a: string, b: string) {
    exists k :: 0 <= k <= |a| && k < |b| && a[..k] == b[..k] && (k == |a| || a[k] < b[k])
  }

  predicate StrAnswer(op: CmpOp, a: string, b: string) {
    match op
    case Eq => a == b
    case Neq => a != b
    case Gt => Precedes(b, a)
    case Gte => !Precedes(a, b)
    case Lt => Precedes(a, b)
    case Lte => !Precedes(b, a)
  }

  lemma {:induction false} PrecedesNext(a: string, b: string)
    requires a != "" && b != "" && a[0] == b[0]
    ensures Precedes(a, b) <==> Precedes(a[1..], b[1..])
  {
    if Precedes(a, b) {
      var k :| 0 <= k <= |a| && k < |b| && a[..k] == b[..k] && (k == |a| || a[k] < b[k]);
      assert k > 0;
      assert a[1..][..k - 1] == a[..k][1..] && b[1..][..k - 1] == b[..k][1..];
    }
    if Precedes(a[1..], b[1..]) {
      var k :| 0 <= k <= |a[1..]| && k < |b[1..]| && a[1..][..k] == b[1..][..k] && (k == |a[1..]| || a[1..][k] < b[1..][k]);
      assert a[..k + 1] == [a[0]] + a[1..][..k] && b[..k + 1] == [b[0]] + b[1..][..k];
    }
  }

  lemma {:induction false} PrecedesFirst(a: string, b: string)
    requires a == "" || b == "" || a[0] != b[0]
    ensures Precedes(a, b) <==> b != "" && (a == "" || a[0] < b[0])
  {
    assert a[..0] == b[..0];
    assert forall k :: 0 < k <= |a| && k < |b| && a[..k] == b[..k] ==> a[..k][0] == b[..k][0];
  }

  /** Strings are in dictionary order, which is total. */
  lemma {:induction false} BeforePrecedes(a: string, b: string)
    ensures Before(a, b) <==> Precedes(a, b)
    ensures Precedes(b, a) <==> a != b && !Precedes(a, b)
    decreases |a|
  {
    if a != "" && b != "" && a[0] == b[0] {
      PrecedesNext(a, b);
      PrecedesNext(b, a);
      BeforePrecedes(a[1..], b[1..]);
      assert a == [a[0]] + a[1..] && b == [b[0]] + b[1..];
    } else {
      PrecedesFirst(a, b);
      PrecedesFirst(b, a);
    }
  }

  /** The answer of an operator on two numbers or two strings. */
  ghost function Answer(op: CmpOp, l: Value, r: Value): bool
    requires Alike(l, r)
  {
    if l.Int? then IntAnswer(op, l.i, r.i) else if l.Float? then FloatAnswer(op, l.f, r.f) else StrAnswer(op, l.s, r.s)
  }

  predicate Alike(l: Value, r: Value) {
    (l.Int? && r.Int?) || (l.Float? && r.Float?) || (l.Str? && r.Str?)
  }

  /** Numbers and strings compare by their own order, in the evaluator and in the machine. */
  lemma {:induction false} ComparesByOrder(ops: Ops, op: CmpOp, l: Value, r: Value, rest: seq<Value>, w: World)
    requires ops.cmp == Operations().cmp && Alike(l, r)
    ensures Combine(ops, Compare(op), l, r, w) == Val(Bool(Answer(op, l, r)), w)
    ensures ExecBinary(ops, CompareTop(op), l, r, rest, w) == Machine.Ok(rest + [Bool(Answer(op, l, r))], w)
  {
    assert ops.cmp(w.heap, l, r) == Cmp(w.heap, l, r, |w.heap|);
    if l.Str? {
      BeforePrecedes(l.s, r.s);
      hide Before, Precedes;
    }
  }

  predicate Ordered(v: Value) {
    v.Int? || v.Float? || v.Str?
  }

  /** The answer of an operator on two values of which not both are numbers of one class or
      strings: only what has no order is before what has one. */
  predicate UnlikeAnswer(op: CmpOp, l: Value, r: Value) {
    match op
    case Eq => l == r
    case Neq => l != r
    case Gt => false
    case Gte => l == r
    case Lt => !Ordered(l) && Ordered(r)
    case Lte => l == r || (!Ordered(l) && Ordered(r))
  }

  /** Values that are no arrays, and no two of which have an order in common. */
  lemma {:induction false} ComparesUnlike(ops: Ops, op: CmpOp, l: Value, r: Value, w: World)
    requires ops.cmp == Operations().cmp && l != Null && r != Null && !Alike(l, r) && !IsArray(w.heap, l) && !IsArray(w.heap, r)
    ensures Combine(ops, Compare(op), l, r, w) == Val(Bool(UnlikeAnswer(op, l, r)), w)
  {
    assert ops.cmp(w.heap, l, r) == Cmp(w.heap, l, r, |w.heap|);
  }

  lemma {:induction false} CompareMeans(fuel: nat, ops: Ops, op: CmpOp, left: Expr, right: Expr, under: Option<Value>, frames: seq<Frame>,
                                        w: World, l: Value, w1: World, r: Value, w2: World)
    requires frames != [] && EvalExpr(fuel, ops, left, under, frames, w) == Val(l, w1) && EvalExpr(fuel, ops, right, Some(l), frames, w1) == Val(r, w2)
    ensures EvalExpr(fuel, ops, Binary(Compare(op), left, right), under, frames, w) == Combine(ops, Compare(op), l, r, w2)
  {
    hide Combine;
  }

  /** The compiled comparison of any two operands that come out as numbers or strings leaves that
      answer. */
  lemma {:induction false} ComparisonRuns(m: Ctx, fuel: nat, at: nat, op: CmpOp, left: Expr, right: Expr, stack: seq<Value>,
                                          w: World, l: Value, w1: World, r: Value, w2: World)
    requires Ready(m, stack) && m.ops.cmp == Operations().cmp && At(m.code, at, ExprCode(Binary(Compare(op), left, right), at))
    requires EvalExpr(fuel, m.ops, left, Under(stack), m.frames, w) == Val(l, w1)
    requires EvalExpr(fuel, m.ops, right, Some(l), m.frames, w1) == Val(r, w2) && Alike(l, r)
    ensures var e := Binary(Compare(op), left, right);
      m.go(fuel, at, stack, w) == m.go(fuel, at + ExprSize(e), stack + [Bool(Answer(op, l, r))], w2)
  {
    hide EvalExpr, ExprCode, ExprSize, At, Run, Combine, Answer;
    var e := Binary(Compare(op), left, right);
    ComparesByOrder(m.ops, op, l, r, [], w2);
    CompareMeans(fuel, m.ops, op, left, right, Under(stack), m.frames, w, l, w1, r, w2);
    ExprRuns(m, fuel, at, e, stack, w);
  }

  /** Arrays of numbers and strings compare by the first items that differ; if they have not the
      same length they do not compare. */
  lemma {:induction false} ArraysCompare(h: Heap, ls: seq<Value>, rs: seq<Value>, depth: nat, k: nat)
    requires |ls| == |rs| && k <= |ls| && ls[..k] == rs[..k] && (k < |ls| ==> Alike(ls[k], rs[k]) && ls[k] != rs[k])
    ensures CmpItems(h, ls, rs, depth) == if k == |ls| then Equal else Cmp(h, ls[k], rs[k], depth)
    ensures k < |ls| ==> CmpItems(h, ls, rs, depth) != Equal
    decreases |ls|
  {
    if ls != [] {
      if k == 0 {
        assert ls[0] != rs[0];
      } else {
        assert ls[0] == ls[..k][0] == rs[..k][0] == rs[0];
        assert ls[1..][..k - 1] == ls[..k][1..] && rs[1..][..k - 1] == rs[..k][1..];
        ArraysCompare(h, ls[1..], rs[1..], depth, k - 1);
      }
    }
  }

  predicate AllAlike(ls: seq<Value>, rs: seq<Value>) {
    |ls| == |rs| && forall k :: 0 <= k < |ls| ==> Alike(ls[k], rs[k])
  }

  lemma {:induction false} FirstDifference(ls: seq<Value>, rs: seq<Value>) returns (k: nat)
    requires |ls| == |rs|
    ensures k <= |ls| && ls[..k] == rs[..k] && (k < |ls| ==> ls[k] != rs[k])
    decreases |ls|
  {
    k := 0;
    if ls != [] && ls[0] == rs[0] {
      var j := FirstDifference(ls[1..], rs[1..]);
      k := j + 1;
      assert ls[..k] == [ls[0]] + ls[1..][..j] && rs[..k] == [rs[0]] + rs[1..][..j];
    }
  }

  /** Two arrays whose items are pairwise alike are equal exactly if their items are. */
  lemma {:induction false} ArraysEqual(ops: Ops, l: Value, r: Value, w: World)
    requires ops.cmp == Operations().cmp && IsArray(w.heap, l) && IsArray(w.heap, r)
    requires AllAlike(w.heap[l.loc].items, w.heap[r.loc].items) || |w.heap[l.loc].items| != |w.heap[r.loc].items|
    ensures Combine(ops, Compare(Eq), l, r, w) == Val(Bool(w.heap[l.loc].items == w.heap[r.loc].items), w)
    ensures Combine(ops, Compare(Neq), l, r, w) == Val(Bool(w.heap[l.loc].items != w.heap[r.loc].items), w)
  {
    var ls, rs := w.heap[l.loc].items, w.heap[r.loc].items;
    assert ops.cmp(w.heap, l, r) == Cmp(w.heap, l, r, |w.heap|);
    if |ls| == |rs| {
      var k := FirstDifference(ls, rs);
      ArraysCompare(w.heap, ls, rs, |w.heap| - 1, k);
      assert ls[..|ls|] == ls && rs[..|rs|] == rs;
      if k < |ls| { AlikeCmp(w.heap, ls[k], rs[k], |w.heap| - 1); }
    }
  }

  lemma {:induction false} AlikeCmp(h: Heap, l: Value, r: Value, depth: nat)
    requires Alike(l, r) && l != r
    ensures Cmp(h, l, r, depth) == Less || Cmp(h, l, r, depth) == Greater
  {
  }

  // ---------- from end to end ----------

  predicate Direct(op: BinOp) {
    op.Compare? || op.Arith?
  }

  /** `fn { ret l op r }`, for two constants. */
  function Asking(op: BinOp, l: Value, r: Value): FnDecl {
    FnDecl(0, [], [Ret(Binary(op, Lit(l), Lit(r)))], [], [])
  }

  lemma {:induction false} AskingOk(op: BinOp, l: Value, r: Value, limits: bool)
    ensures FnOk(Asking(op, l, r), limits)
  {
    var e := Binary(op, Lit(l), Lit(r));
    assert ExprOk(Lit(l), limits) && ExprOk(Lit(r), limits);
    assert ExprOk(e, limits);
    assert StmtOk(Ret(e), false, limits);
    assert [Ret(e)][1..] == [];
  }

  lemma {:induction false} AskingCode(op: BinOp, l: Value, r: Value)
    requires Direct(op)
    ensures FnCode(Asking(op, l, r)) == [PushConst(l), PushConst(r), BinOpCode(op), RetTop]
  {
    var e := Binary(op, Lit(l), Lit(r));
    assert ExprCode(e, 0) == [PushConst(l)] + [PushConst(r)] + [BinOpCode(op)] by {
      assert ExprSize(Lit(l)) == 1 && ExprCode(Lit(l), 0) == [PushConst(l)] && ExprCode(Lit(r), 1) == [PushConst(r)];
    }
    hide ExprCode, ExprSize;
    assert StmtCode(Ret(e), 0, 0) == ExprCode(e, 0) + [RetTop];
    assert [Ret(e)][1..] == [] && StmtsCode([], StmtSize(Ret(e)), 0) == [];
    hide StmtCode;
    assert StmtsCode([Ret(e)], 0, 0) == StmtCode(Ret(e), 0, 0) + [];
  }

  lemma {:induction false} AskingFits(op: BinOp, l: Value, r: Value)
    requires !l.Method? && !r.Method? && Direct(op)
    ensures CodeObjects.Encodable([PushConst(l), PushConst(r), BinOpCode(op), RetTop])
  {
    hide CodeObjects.NamesIn, CodeObjects.ConstsIn, CodeObjects.MethodsIn;
    var c1 := [] + [PushConst(l)];
    var c2 := c1 + [PushConst(r)];
    var c3 := c2 + [BinOpCode(op)];
    OneMore([], PushConst(l));
    OneMore(c1, PushConst(r));
    OneMore(c2, BinOpCode(op));
    OneMore(c3, RetTop);
    assert [PushConst(l), PushConst(r), BinOpCode(op), RetTop] == c3 + [RetTop];
    NothingIn();
  }

  lemma {:induction false} NothingIn()
    ensures CodeObjects.NamesIn([]) == {} && CodeObjects.ConstsIn([]) == {} && CodeObjects.MethodsIn([]) == 0
  {
  }

  lemma {:induction false} OneMore(code: seq<Instr>, i: Instr)
    requires !CodeObjects.IsNamed(i) && (i.PushConst? ==> !i.v.Method?)
    ensures CodeObjects.NamesIn(code + [i]) == CodeObjects.NamesIn(code) && CodeObjects.MethodsIn(code + [i]) == CodeObjects.MethodsIn(code)
    ensures |CodeObjects.ConstsIn(code + [i])| <= |CodeObjects.ConstsIn(code)| + 1
  {
    assert Init(code + [i]) == code && Last(code + [i]) == i;
  }

  /** The operation, or the abort it ends in. */
  function Told(ops: Ops, op: BinOp, l: Value, r: Value, w: World): Outcome
    requires Direct(op)
  {
    match Combine(ops, op, l, r, w) case Val(v, w1) => Done(v, w1) case ExprStop(why) => Stop(why)
  }

  lemma {:induction false} AskingMeans(fuel: nat, ops: Ops, op: BinOp, l: Value, r: Value, under: Option<Value>, frames: seq<Frame>, w: World)
    requires Direct(op) && ops.loaded(Asking(op, l, r))
    ensures CallFunction(fuel, ops, under, frames, Method(Asking(op, l, r)), [], w) == Told(ops, op, l, r, w)
  {
    var fn := Asking(op, l, r);
    var e := Binary(op, Lit(l), Lit(r));
    AskingOk(op, l, r, true);
    var (frame, w1) := NewFrame(fn, map[], w);
    assert w1 == w;
    var c := Combine(ops, op, l, r, w);
    assert c.ExprStop? ==> c.why == Abort;
    assert EvalExpr(fuel, ops, e, under, frames + [frame], w) == c;
    hide EvalExpr, Combine, FnOk;
    var out := if c.ExprStop? then StmtStop(c.why) else Returned(c.v, c.w);
    assert EvalStmt(fuel, ops, Ret(e), under, frames + [frame], w) == out;
    hide EvalStmt;
    assert fn.body[0] == Ret(e);
    assert EvalStmts(fuel, ops, fn.body, under, frames + [frame], w) == out;
    hide EvalStmts;
    assert RunBody(fuel, ops, fn, [], under, frames + [frame], w) == Told(ops, op, l, r, w);
    hide RunBody;
    assert BindParams(frame, [], [], under, w) == Bound([], w);
  }

  lemma {:induction false} AskingScoped(op: BinOp, l: Value, r: Value)
    ensures Compilation.StmtsScoped(Asking(op, l, r).body, false, false)
  {
    var e := Binary(op, Lit(l), Lit(r));
    assert Compilation.ExprScoped(Lit(l), false) && Compilation.ExprScoped(Lit(r), false);
    assert Compilation.ExprScoped(e, false);
    assert Compilation.StmtScoped(Ret(e), false, false) && [Ret(e)][1..] == [];
  }

  /** Compile `fn { ret l op r }` and run its words. */
  method RunOperator(op: BinOp, l: Value, r: Value, ops: Ops, world: World, fuel: nat) returns (ok: bool, res: Interpreter.Result)
    requires Direct(op) && !l.Method? && !r.Method?
    ensures ok && (match Told(Process.Loaded(ops), op, l, r, world) case Done(v, _) => res == Interpreter.Got(v) case Stop(_) => res == Interpreter.Aborted)
  {
    hide FnOk, FnCode, CallFunction, CodeObjects.Encodable, Tree.AllFine, Tree.AllPlaced, Tree.FnNodes;
    var fn := Asking(op, l, r);
    AskingOk(op, l, r, false);
    AskingCode(op, l, r);
    AskingFits(op, l, r);
    AskingMeans(fuel, Process.Loaded(ops), op, l, r, None, [], world);
    AskingScoped(op, l, r);
    Tree.ScopedExact(fn);
    Tree.AcceptedExact(fn, false);
    var table, vm;
    ok, res, table, vm := Process.RunFunction(fn, [], ops, world, fuel);
  }

  /** A comparison of two numbers or two strings gives its answer. */
  method Ask(op: CmpOp, l: Value, r: Value, ops: Ops, world: World, fuel: nat) returns (ok: bool, res: Interpreter.Result)
    requires ops.cmp == Operations().cmp && Alike(l, r)
    ensures ok && res == Interpreter.Got(Bool(Answer(op, l, r)))
  {
    hide Answer, Combine;
    ComparesByOrder(Process.Loaded(ops), op, l, r, [], world);
    ok, res := RunOperator(Compare(op), l, r, ops, world, fuel);
  }

  // ---------- arithmetic ----------

  function Plain(op: ArithOp, a: int, b: int): int
    requires !op.Div?
  {
    match op case Add => a + b case Sub => a - b case Mul => a * b
  }

  /** `n` and its low 32 bits differ by a multiple of 2^32. */
  lemma {:induction false} Low32Cut(n: int) returns (k: int)
    ensures n == Low32(n) + k * INT_RANGE && (InInt(n) ==> k == 0)
  {
    k := if n % INT_RANGE < 0x8000_0000 then n / INT_RANGE else n / INT_RANGE + 1;
  }

  lemma {:induction false} CutOfPlain(op: ArithOp, a: int, b: int) returns (k: int)
    requires !op.Div?
    ensures Plain(op, a, b) == Plain(op, Low32(a), Low32(b)) + k * INT_RANGE
  {
    hide Low32;
    var i := Low32Cut(a);
    var j := Low32Cut(b);
    var c, d := Low32(a), Low32(b);
    match op
    case Add => k := i + j;
    case Sub => k := i - j;
    case Mul =>
      k := i * d + c * j + i * j * INT_RANGE;
      MulCut(c, d, i, j);
  }

  lemma {:induction false} MulCut(c: int, d: int, i: int, j: int)
    ensures (c + i * INT_RANGE) * (d + j * INT_RANGE) == c * d + (i * d + c * j + i * j * INT_RANGE) * INT_RANGE
  {
  }

  lemma {:induction false} SameLow32(v: int, n: int, k: int)
    requires InInt(v) && n == v + k * INT_RANGE
    ensures v == Low32(n)
  {
  }

  /** Sums, differences and products of integers are right when operands and result fit 32 bits.
      Whatever the operands, a result is the low 32 bits of the right one. */
  lemma {:induction false} IntegerArithmetic(op: ArithOp, a: int, b: int)
    requires !op.Div?
    ensures InInt(a) && InInt(b) && InInt(Plain(op, a, b)) ==> NumberOp(op, Int(a), Int(b)) == Some(Int(Plain(op, a, b)))
    ensures NumberOp(op, Int(a), Int(b)).Some? ==> NumberOp(op, Int(a), Int(b)) == Some(Int(Low32(Plain(op, a, b))))
    ensures NumberOp(op, Int(a), Int(b)) == Some(Int(Plain(op, a, b))) <==> InInt(Plain(op, a, b)) && InInt(Plain(op, Low32(a), Low32(b)))
  {
    hide Low32;
    var i := Low32Cut(a);
    var j := Low32Cut(b);
    var k := CutOfPlain(op, a, b);
    var v := Plain(op, Low32(a), Low32(b));
    assert IntArith(op, Low32(a), Low32(b)) == if InInt(v) then Some(v) else None;
    if InInt(v) { SameLow32(v, Plain(op, a, b), k); }
    if InInt(Plain(op, a, b)) { SameLow32(Plain(op, a, b), Plain(op, a, b), 0); }
  }

  /** Division of integers drops the fraction: the remainder is smaller than the divisor and has
      the sign of the dividend. */
  lemma {:induction false} IntegerDivision(a: int, b: int)
    requires InInt(a) && InInt(b) && b != 0 && !(a == -0x8000_0000 && b == -1)
    ensures var r := NumberOp(Div, Int(a), Int(b));
      && r.Some? && r.value.Int?
      && var rest := a - r.value.i * b;
         (rest < 0 ==> a < 0) && (rest > 0 ==> a > 0) && Abs(rest) < Abs(b)
  {
    var i := Low32Cut(a);
    var j := Low32Cut(b);
    var q := Quotient(a, b);
    QuotientRest(a, b);
    assert IntArith(Div, a, b) == Some(q);
    hide Low32, Quotient;
  }

  function Abs(n: int): nat { if n < 0 then -n else n }

  lemma {:induction false} TimesGrows(q: nat, y: nat)
    requires y > 0
    ensures q * y >= q && (y >= 2 ==> q * y >= 2 * q)
  {
    assert q * (y - 1) >= 0;
    assert q * y == q * (y - 1) + q;
    if y >= 2 {
      assert q * (y - 2) >= 0;
      assert q * y == q * (y - 2) + 2 * q;
    }
  }

  lemma {:induction false} SignedTimes(q: int, b: int)
    ensures q * -b == -(q * b) && -q * b == -(q * b) && -q * -b == q * b
  {
  }

  /** Dividing the absolute values, and putting the sign back. */
  lemma {:induction false} QuotientParts(a: int, b: int) returns (q: int, p: int)
    requires b != 0
    ensures 0 <= q && 0 <= p <= Abs(a) < p + Abs(b) && p == q * Abs(b)
    ensures Quotient(a, b) == if (a < 0) == (b < 0) then q else -q
  {
    q, p := Abs(a) / Abs(b), Abs(a) / Abs(b) * Abs(b);
  }

  lemma {:induction false} QuotientRest(a: int, b: int)
    requires b != 0
    ensures var rest := a - Quotient(a, b) * b;
      (rest < 0 ==> a < 0) && (rest > 0 ==> a > 0) && Abs(rest) < Abs(b)
    ensures InInt(a) && !(a == -0x8000_0000 && b == -1) ==> InInt(Quotient(a, b))
  {
    hide Quotient;
    var q, p := QuotientParts(a, b);
    SignedTimes(q, b);
    TimesGrows(q, Abs(b));
    var s := Quotient(a, b);
    assert s * b == if a < 0 then -p else p;
  }

  /** The operands of a sum are cut to 32 bits. */
  lemma {:induction false} CutExample()
    ensures NumberOp(Add, Int(4_294_967_296), Int(1)) == Some(Int(1))
  {
  }

  /** `+` joins two strings, and the items of two arrays into a new one. */
  lemma {:induction false} Joins(h: Heap, a: string, b: string, l: Value, r: Value)
    requires IsArray(h, l) && IsArray(h, r)
    ensures ArithOf(h, Add, Str(a), Str(b)) == Some((h, Str(a + b)))
    ensures var x := ArithOf(h, Add, l, r);
      && x.Some? && h <= x.value.0 && !IsArray(h, x.value.1) && IsArray(x.value.0, x.value.1)
      && x.value.0[x.value.1.loc].items == h[l.loc].items + h[r.loc].items
  {
  }

  /** Compiled and run, an arithmetic operation on two constants gives its result, or the abort,
      with its left operand on the left. */
  method Compute(op: ArithOp, l: Value, r: Value, ops: Ops, world: World, fuel: nat) returns (ok: bool, res: Interpreter.Result)
    requires Computes(ops) && !l.Method? && !r.Method? && l != Null && r != Null
    ensures ok
    ensures match ArithOf(world.heap, op, l, r) case None => res == Interpreter.Aborted case Some((_, v)) => res == Interpreter.Got(v)
  {
    hide ArithOf;
    ok, res := RunOperator(Arith(op), l, r, ops, world, fuel);
  }

  /** The result of a comparison the other way round. */
  function Flip(o: Ordering): Ordering {
    match o
    case Less => Greater
    case Greater => Less
    case _ => o
  }

  function Flipped(ops: Ops): Ops {
    ops.(cmp := (h: Heap, l: Value, r: Value) => Flip(ops.cmp(h, l, r)))
  }

  predicate Answers(ops: Ops, op: CmpOp, l: Value, r: Value, w: World, b: bool) {
    Combine(ops, Compare(op), l, r, w) == Val(Bool(b), w)
  }

  /** Whatever the value operations: a comparison that one operator refuses every operator
      refuses. */
  lemma {:induction false} RefusedTogether(ops: Ops, op: CmpOp, l: Value, r: Value, w: World)
    ensures Combine(ops, Compare(op), l, r, w) == ExprStop(Abort) <==> Combine(ops, Compare(Eq), l, r, w) == ExprStop(Abort)
    ensures Combine(ops, Compare(op), l, r, w) != ExprStop(Abort) ==> exists b :: Answers(ops, op, l, r, w, b)
  {
    if Combine(ops, Compare(op), l, r, w) != ExprStop(Abort) {
      assert Answers(ops, op, l, r, w, Combine(ops, Compare(op), l, r, w).v.b);
    }
  }

  /** Otherwise at most one of `<`, `>` and `==` holds, `<` is `>` of the reversed order, `>=` and
      `<=` are these or equality, and `!=` denies `==`. */
  lemma {:induction false} OperatorLaws(ops: Ops, l: Value, r: Value, w: World, lt: bool, gt: bool, eq: bool)
    requires Answers(ops, Lt, l, r, w, lt) && Answers(ops, Gt, l, r, w, gt) && Answers(ops, Eq, l, r, w, eq)
    ensures (lt ==> !gt && !eq) && (gt ==> !eq)
    ensures Answers(ops, Lte, l, r, w, lt || eq) && Answers(ops, Gte, l, r, w, gt || eq) && Answers(ops, Neq, l, r, w, !eq)
    ensures Answers(Flipped(ops), Gt, l, r, w, lt) && Answers(Flipped(ops), Lt, l, r, w, gt) && Answers(Flipped(ops), Eq, l, r, w, eq)
  {
  }

  // ---------- branches ----------

  /** Exactly nil and false do not take a branch: in the code, */
  lemma {:induction false} BranchTaken(m: Ctx, fuel: nat, pc: nat, a: nat, stack: seq<Value>, v: Value, w: World)
    requires Ready(m, stack) && InstrAt(m.code, pc, JumpIfFalse(a)) && a > pc && v != Null
    ensures m.go(fuel, pc, stack + [v], w) == m.go(fuel, if v == Nil || v == Bool(false) then a else pc + 1, stack, w)
  {
    hide Run;
    BranchRuns(m, fuel, pc, JumpIfFalse(a), stack, v, w);
  }

  lemma {:induction false} OperatorDecides(fuel: nat, ops: Ops, c: Expr, e: Expr, under: Option<Value>, frames: seq<Frame>, w: World, v: Value, w1: World)
    requires frames != [] && EvalExpr(fuel, ops, c, under, frames, w) == Val(v, w1) && v != Null
    ensures var no := v == Nil || v == Bool(false);
      && EvalExpr(fuel, ops, NotExpr(c), under, frames, w) == Val(Bool(no), w1)
      && EvalExpr(fuel, ops, Binary(And, c, e), under, frames, w) == (if no then Val(v, w1) else EvalExpr(fuel, ops, e, under, frames, w1))
      && EvalExpr(fuel, ops, Binary(Or, c, e), under, frames, w) == (if no then EvalExpr(fuel, ops, e, under, frames, w1) else Val(v, w1))
  {
  }

  /** and in the tree. */
  lemma {:induction false} ConditionDecides(fuel: nat, ops: Ops, c: Expr, b: seq<Stmt>, o: seq<Stmt>, e: Expr, under: Option<Value>,
                                            frames: seq<Frame>, w: World, v: Value, w1: World)
    requires frames != [] && EvalExpr(fuel, ops, c, under, frames, w) == Val(v, w1) && v != Null
    ensures var no := v == Nil || v == Bool(false);
      && EvalStmt(fuel, ops, If(c, b), under, frames, w) == (if no then Next([], w1, fuel) else EvalStmts(fuel, ops, b, under, frames, w1))
      && EvalStmt(fuel, ops, IfElse(c, b, o), under, frames, w) == EvalStmts(fuel, ops, if no then o else b, under, frames, w1)
      && EvalStmt(fuel, ops, While(c, b), under, frames, w) ==
           (if no then Next([], w1, fuel) else Iterate(fuel, ops, While(c, b), under, frames, w1))
      && EvalExpr(fuel, ops, NotExpr(c), under, frames, w) == Val(Bool(no), w1)
      && EvalExpr(fuel, ops, Binary(And, c, e), under, frames, w) == (if no then Val(v, w1) else EvalExpr(fuel, ops, e, under, frames, w1))
      && EvalExpr(fuel, ops, Binary(Or, c, e), under, frames, w) == (if no then EvalExpr(fuel, ops, e, under, frames, w1) else Val(v, w1))
  {
    hide EvalStmts, Iterate, EvalExpr;
    OperatorDecides(fuel, ops, c, e, under, frames, w, v, w1);
  }

  // ---------- array and hash literals ----------

  /** An array literal holds its items in the order in which they are written. */
  lemma {:induction false} ArrayHolds(vs: seq<Value>, w: World)
    requires |vs| <= 255 && Null !in vs
    ensures var r := MakeArrayValue(vs, w);
      && r.Val? && r.v == Object(|w.heap|) && w.heap <= r.w.heap && r.w.cells == w.cells
      && SizeOf(r.w.heap, r.v) == |vs|
      && (forall i :: 0 <= i < |vs| ==> ItemOf(r.w.heap, r.v, Int(i)) == vs[i] && ItemOf(r.w.heap, r.v, Int(i - |vs|)) == vs[i])
  {
    assert (w.heap + [ArrayObj(vs)])[|w.heap|] == ArrayObj(vs);
  }

  /** The value that the pairs of a literal, as they are written, give a key: that of the first
      pair with the key; `none` if there is no such pair. */
  function FirstValue(vs: seq<Value>, key: Value, none: Value): Value {
    if |vs| < 2 then none else if vs[0] == key then vs[1] else FirstValue(vs[2..], key, none)
  }

  ghost predicate Pairs(vs: seq<Value>) {
    |vs| % 2 == 0 && forall i :: 0 <= 2 * i < |vs| ==> Residue.IsConst(vs[2 * i]) && vs[2 * i + 1] != Null
  }

  /** Keys under which no array is found. */
  predicate PlainKeys(pairs: seq<(Value, Value)>) {
    forall i :: 0 <= i < |pairs| ==> Residue.IsConst(pairs[i].0)
  }

  lemma {:induction false} BuiltinCmp(h: Heap, l: Value, r: Value)
    ensures Operations().cmp(h, l, r) == Cmp(h, l, r, |h|)
  {
    hide Cmp;
  }

  lemma {:induction false} ConstCmp(h: Heap, l: Value, r: Value)
    requires Residue.IsConst(l) && Residue.IsConst(r)
    ensures Cmp(h, l, r, |h|) != CmpError && (Cmp(h, l, r, |h|) == Equal <==> l == r)
    ensures Operations().cmp(h, l, r) == Cmp(h, l, r, |h|)
  {
    hide Cmp;
    BuiltinCmp(h, l, r);
    Patterns.CmpConst(h, l, r, |h|);
  }

  lemma {:induction false} LookupFirst(h: Heap, first: (Value, Value), rest: seq<(Value, Value)>, key: Value)
    requires Residue.IsConst(first.0) && Residue.IsConst(key)
    ensures Lookup(h, [first] + rest, key) == if first.0 == key then first.1 else Lookup(h, rest, key)
  {
    hide Cmp, Residue.IsConst;
    ConstCmp(h, first.0, key);
    assert ([first] + rest)[1..] == rest;
  }

  /** Putting a pair changes what is found under its key, and nothing else. */
  lemma {:induction false} PutFinds(h: Heap, pairs: seq<(Value, Value)>, k: Value, v: Value, key: Value)
    requires PlainKeys(pairs) && Residue.IsConst(k) && Residue.IsConst(key)
    ensures var r := HashPut(Operations(), h, pairs, k, v);
      r.Some? && PlainKeys(r.value) && Lookup(h, r.value, key) == if key == k then v else Lookup(h, pairs, key)
    decreases pairs
  {
    hide Operations, Cmp, Residue.IsConst, Lookup;
    if pairs == [] {
      LookupFirst(h, (k, v), [], key);
      assert [(k, v)] + [] == [(k, v)];
      assert Lookup(h, [], key) == Nil by { LookupNone(h, key); }
    } else {
      var first, tail := pairs[0], pairs[1..];
      assert pairs == [first] + tail;
      ConstCmp(h, first.0, k);
      LookupFirst(h, first, tail, key);
      LookupFirst(h, (first.0, v), tail, key);
      PutFinds(h, tail, k, v, key);
      LookupFirst(h, first, HashPut(Operations(), h, tail, k, v).value, key);
    }
  }

  lemma {:induction false} LookupNone(h: Heap, key: Value)
    ensures Lookup(h, [], key) == Nil
  {
  }

  lemma {:induction false} FirstValueEnd(vs: seq<Value>, k: Value, v: Value, key: Value, none: Value)
    requires |vs| % 2 == 0
    ensures FirstValue(vs + [k, v], key, none) == FirstValue(vs, key, if key == k then v else none)
    decreases |vs|
  {
    if vs == [] {
      assert [k, v][2..] == [] && vs + [k, v] == [k, v];
    } else {
      assert (vs + [k, v])[2..] == vs[2..] + [k, v];
      FirstValueEnd(vs[2..], k, v, key, none);
    }
  }

  lemma {:induction false} PairsFind(h: Heap, vs: seq<Value>, acc: seq<(Value, Value)>, key: Value)
    requires Pairs(vs) && PlainKeys(acc) && Residue.IsConst(key)
    ensures var r := HashPairs(Operations(), h, vs, acc);
      r.Some? && Lookup(h, r.value, key) == FirstValue(vs, key, Lookup(h, acc, key))
    decreases |vs|
  {
    hide Operations, HashPut, Lookup;
    if |vs| >= 2 {
      var rest, k, v := vs[..|vs| - 2], vs[|vs| - 2], vs[|vs| - 1];
      assert k == vs[2 * (|rest| / 2)] && v == vs[2 * (|rest| / 2) + 1];
      assert vs == rest + [k, v];
      PutFinds(h, acc, k, v, key);
      PairsFind(h, rest, HashPut(Operations(), h, acc, k, v).value, key);
      FirstValueEnd(rest, k, v, key, Lookup(h, acc, key));
    }
  }

  /** A hash literal holds its pairs: under each key the value of the first pair that has it, and
      nil under any other. */
  lemma {:induction false} LiteralHolds(ops: Ops, vs: seq<Value>, key: Value, w: World)
    requires ops.cmp == Operations().cmp && Pairs(vs) && |vs| <= 511 && Residue.IsConst(key)
    ensures var r := MakeHashValue(ops, vs, w);
      && r.Val? && r.v == Object(|w.heap|) && w.heap <= r.w.heap && r.w.cells == w.cells
      && ItemOf(r.w.heap, r.v, key) == FirstValue(vs, key, Nil)
  {
    SameHash(ops, w.heap, vs, []);
    PairsFind(w.heap, vs, [], key);
    var r := MakeHashValue(ops, vs, w);
    var pairs := HashPairs(Operations(), w.heap, vs, []).value;
    PairsPlain(w.heap, vs, []);
    LookupGrown(w.heap, r.w.heap, pairs, key);
  }

  function Lits(vs: seq<Value>): (es: seq<Expr>)
    ensures |es| == |vs|
  {
    if vs == [] then [] else [Lit(vs[0])] + Lits(vs[1..])
  }

  lemma {:induction false} LitsMean(fuel: nat, ops: Ops, vs: seq<Value>, under: Option<Value>, frames: seq<Frame>, w: World)
    requires frames != [] && Null !in vs
    ensures EvalExprs(fuel, ops, Lits(vs), under, frames, w) == Vals(vs, w)
    decreases vs
  {
    if vs != [] {
      assert Lits(vs)[1..] == Lits(vs[1..]);
      LitsMean(fuel, ops, vs[1..], Some(vs[0]), frames, w);
      assert [vs[0]] + vs[1..] == vs;
    }
  }

  lemma {:induction false} TakenBy(fuel: nat, ops: Ops, e: Expr, key: Value, v: Value, under: Option<Value>, frames: seq<Frame>,
                                   w: World, w1: World)
    requires ops.getitem == Operations().getitem && frames != [] && key != Null && v != Null
    requires EvalExpr(fuel, ops, e, under, frames, w) == Val(v, w1)
    ensures var r := EvalExpr(fuel, ops, GetItemExpr(e, Lit(key)), under, frames, w);
      if ItemOf(w1.heap, v, key) == Null then r == ExprStop(Abort) else r == Val(ItemOf(w1.heap, v, key), w1)
  {
    hide ItemOf;
    assert Operations().getitem(w1.heap, v, key) == (w1.heap, ItemOf(w1.heap, v, key));
  }

  /** Items of a literal are taken by the low 32 bits of an index, counted from the end if negative;
      outside of it there is nil. */
  lemma {:induction false} ItemTaken(fuel: nat, ops: Ops, vs: seq<Value>, i: int, under: Option<Value>, frames: seq<Frame>, w: World)
    requires ops.getitem == Operations().getitem && frames != [] && |vs| <= 255 && Null !in vs
    ensures var r := EvalExpr(fuel, ops, GetItemExpr(ArrayLit(Lits(vs)), Lit(Int(i))), under, frames, w);
      var at := Low32(i);
      r.Val? && r.v == if 0 <= at < |vs| then vs[at] else if -|vs| <= at < 0 then vs[|vs| + at] else Nil
  {
    hide EvalExprs;
    LitsMean(fuel, ops, vs, under, frames, w);
    ArrayHolds(vs, w);
    var made := MakeArrayValue(vs, w);
    assert EvalExpr(fuel, ops, ArrayLit(Lits(vs)), under, frames, w) == made;
    TakenBy(fuel, ops, ArrayLit(Lits(vs)), Int(i), made.v, under, frames, w, made.w);
    var at := Low32(i);
    assert ItemOf(made.w.heap, made.v, Int(i)) == if 0 <= at < |vs| then vs[at] else if -|vs| <= at < 0 then vs[|vs| + at] else Nil;
    assert forall k :: 0 <= k < |vs| ==> vs[k] != Null;
  }

  /** Values of a literal are taken by their keys. */
  lemma {:induction false} KeyTaken(fuel: nat, ops: Ops, vs: seq<Value>, key: Value, under: Option<Value>, frames: seq<Frame>, w: World)
    requires ops.getitem == Operations().getitem && ops.cmp == Operations().cmp && frames != []
    requires Pairs(vs) && Null !in vs && |vs| <= 511 && Residue.IsConst(key)
    ensures var r := EvalExpr(fuel, ops, GetItemExpr(HashLit(Lits(vs)), Lit(key)), under, frames, w);
      r.Val? && r.v == FirstValue(vs, key, Nil)
  {
    hide EvalExprs, MakeHashValue, ItemOf, FirstValue;
    LitsMean(fuel, ops, vs, under, frames, w);
    LiteralHolds(ops, vs, key, w);
    FirstNotNull(vs, key);
    var made := MakeHashValue(ops, vs, w);
    assert EvalExpr(fuel, ops, HashLit(Lits(vs)), under, frames, w) == made;
    TakenBy(fuel, ops, HashLit(Lits(vs)), key, made.v, under, frames, w, made.w);
  }

  lemma {:induction false} FirstNotNull(vs: seq<Value>, key: Value)
    requires Null !in vs
    ensures FirstValue(vs, key, Nil) != Null
    decreases |vs|
  {
    if |vs| >= 2 {
      assert Null !in vs[2..];
      FirstNotNull(vs[2..], key);
    }
  }

  lemma {:induction false} SameHash(ops: Ops, h: Heap, vs: seq<Value>, acc: seq<(Value, Value)>)
    requires ops.cmp == Operations().cmp
    ensures HashPairs(ops, h, vs, acc) == HashPairs(Operations(), h, vs, acc)
    decreases |vs|
  {
    hide HashPut, Operations;
    if |vs| >= 2 {
      SamePut(ops, h, acc, vs[|vs| - 2], vs[|vs| - 1]);
      var put := HashPut(ops, h, acc, vs[|vs| - 2], vs[|vs| - 1]);
      if put.Some? { SameHash(ops, h, vs[..|vs| - 2], put.value); }
    }
  }

  lemma {:induction false} SamePut(ops: Ops, h: Heap, pairs: seq<(Value, Value)>, k: Value, v: Value)
    requires ops.cmp == Operations().cmp
    ensures HashPut(ops, h, pairs, k, v) == HashPut(Operations(), h, pairs, k, v)
    decreases pairs
  {
    hide Operations;
    if pairs != [] { SamePut(ops, h, pairs[1..], k, v); }
  }

  lemma {:induction false} PairsPlain(h: Heap, vs: seq<Value>, acc: seq<(Value, Value)>)
    requires Pairs(vs) && PlainKeys(acc)
    ensures var r := HashPairs(Operations(), h, vs, acc); r.Some? && PlainKeys(r.value)
    decreases |vs|
  {
    hide Operations, HashPut, Lookup;
    if |vs| >= 2 {
      var rest, k, v := vs[..|vs| - 2], vs[|vs| - 2], vs[|vs| - 1];
      assert k == vs[2 * (|rest| / 2)] && v == vs[2 * (|rest| / 2) + 1];
      PutFinds(h, acc, k, v, k);
      PairsPlain(h, rest, HashPut(Operations(), h, acc, k, v).value);
    }
  }

  /** The object a literal makes does not change what is found in it. */
  lemma {:induction false} LookupGrown(h: Heap, h': Heap, pairs: seq<(Value, Value)>, key: Value)
    requires PlainKeys(pairs) && Residue.IsConst(key)
    ensures Lookup(h, pairs, key) == Lookup(h', pairs, key)
    decreases pairs
  {
    if pairs != [] {
      Patterns.CmpConst(h, pairs[0].0, key, |h|);
      Patterns.CmpConst(h', pairs[0].0, key, |h'|);
      hide Cmp;
      LookupGrown(h, h', pairs[1..], key);
    }
  }
}
