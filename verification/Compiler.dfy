/** The code generator: one pass over the syntax tree that appends to the code object of the
    current unit, patches labels, and keeps a stack of loop labels for `break`. */
module Compilation {
  import opened Options
  import opened Syntax
  import opened Acceptance
  import opened CodeObjects
  import opened Codegen
  import Ranges

  // ---------- what the parser and the program must provide ----------

  /** A `break` belongs to a loop of its own function (`own`), or to no loop at all: the
      compiler's loop stack is shared by all units, so a `break` in a function literal inside
      a loop of an enclosing function would be patched into the wrong code object. Hash
      patterns have a value for every key. */
  predicate ExprScoped(e: Expr, any: bool) {
    match e
    case ArrayLit(items) => ExprsScoped(items, any)
    case HashLit(items) => ExprsScoped(items, any)
    case CallExpr(t, args) => ExprScoped(t, any) && ExprsScoped(args, any)
    case GetAttrExpr(t, _) => ExprScoped(t, any)
    case GetItemExpr(t, k) => ExprScoped(t, any) && ExprScoped(k, any)
    case NotExpr(x) => ExprScoped(x, any)
    case Binary(_, l, r) => ExprScoped(l, any) && ExprScoped(r, any)
    case FnExpr(fn) => StmtsScoped(fn.body, false, any)
    case SpawnExpr(t, args) => ExprScoped(t, any) && ExprsScoped(args, any)
    case _ => true
  }

  predicate ExprsScoped(es: seq<Expr>, any: bool) {
    es == [] || (ExprScoped(es[0], any) && ExprsScoped(es[1..], any))
  }

  predicate StmtScoped(s: Stmt, own: bool, any: bool) {
    match s
    case ExprStmt(e) => ExprScoped(e, any)
    case Assign(_, e) => ExprScoped(e, any)
    case VarDecl(_) => true
    case VarInit(_, e) => ExprScoped(e, any)
    case FuncDecl(_, fn) => StmtsScoped(fn.body, false, any)
    case If(c, b) => ExprScoped(c, any) && StmtsScoped(b, own, any)
    case IfElse(c, b, o) => ExprScoped(c, any) && StmtsScoped(b, own, any) && StmtsScoped(o, own, any)
    case While(c, b) => ExprScoped(c, any) && StmtsScoped(b, true, true)
    case Match(e, arms) => ExprScoped(e, any) && ArmsScoped(arms, own, any)
    case RetNil => true
    case Ret(e) => ExprScoped(e, any)
    case Break => own || !any
  }

  predicate StmtsScoped(ss: seq<Stmt>, own: bool, any: bool) {
    ss == [] || (StmtScoped(ss[0], own, any) && StmtsScoped(ss[1..], own, any))
  }

  predicate ArmsScoped(arms: seq<Arm>, own: bool, any: bool) {
    arms == [] || (PatScoped(arms[0].test) && StmtsScoped(arms[0].body, own, any) && ArmsScoped(arms[1..], own, any))
  }

  predicate PatScoped(p: Expr) {
    match p
    case ArrayLit(items) => PatsScoped(items)
    case HashLit(items) => |items| % 2 == 0 && PatsScoped(items)
    case _ => true
  }

  predicate PatsScoped(ps: seq<Expr>) {
    ps == [] || (PatScoped(ps[0]) && PatsScoped(ps[1..]))
  }

  // ---------- how the set of holes grows ----------

  /** Between two points of the generation, the first with `n0` words: labels p and q only
      gained patches, at words emitted since, and no other hole was left behind. */
  ghost predicate Grew(h0: set<nat>, h1: set<nat>, n0: nat, p0: seq<nat>, p1: seq<nat>, q0: seq<nat>, q1: seq<nat>) {
    && p0 <= p1 && q0 <= q1
    && (forall k :: |p0| <= k < |p1| ==> p1[k] >= n0)
    && (forall k :: |q0| <= k < |q1| ==> q1[k] >= n0)
    && (forall h :: h < n0 ==> (h in h1 <==> h in h0))
    && (forall h :: h in h1 && h >= n0 ==> h in p1 || h in q1)
    && (forall h :: h in p1 && h in q1 ==> h < n0)
  }

  lemma {:induction false} GrewThen(h0: set<nat>, h1: set<nat>, h2: set<nat>, n0: nat, n1: nat, p0: seq<nat>, p1: seq<nat>, p2: seq<nat>,
                                    q0: seq<nat>, q1: seq<nat>, q2: seq<nat>)
    requires Grew(h0, h1, n0, p0, p1, q0, q1) && Grew(h1, h2, n1, p1, p2, q1, q2) && n0 <= n1
    ensures Grew(h0, h2, n0, p0, p2, q0, q2)
  {
    forall h | h in h2 && h >= n0
      ensures h in p2 || h in q2
    {
      assert h < n1 ==> h in h1;
    }
    forall h | h in p2 && h in q2
      ensures h < n0
    {
      if h < n1 {
        Earlier(h1, h2, n1, p1, p2, q1, q2, h);
      }
    }
  }

  /** A patch below the later starting point was already there. */
  lemma {:induction false} Earlier(h0: set<nat>, h1: set<nat>, n0: nat, p0: seq<nat>, p1: seq<nat>, q0: seq<nat>, q1: seq<nat>, h: nat)
    requires Grew(h0, h1, n0, p0, p1, q0, q1) && h < n0
    ensures h in p1 ==> h in p0
    ensures h in q1 ==> h in q0
  {
    if h in p1 {
      var k :| 0 <= k < |p1| && p1[k] == h;
      assert p0[k] == h;
    }
    if h in q1 {
      var k :| 0 <= k < |q1| && q1[k] == h;
      assert q0[k] == h;
    }
  }

  /** Placing the end label of a match leaves only the holes of the innermost loop. */
  lemma {:induction false} GrewEnd(h0: set<nat>, h1: set<nat>, n0: nat, n1: nat, p0: seq<nat>, p1: seq<nat>, q: seq<nat>)
    requires Grew(h0, h1, n1, p0, p1, [], q) && n0 <= n1
    requires (forall h :: h in h0 ==> h < n0) && (forall p :: p in p1 ==> p in h1)
    ensures Grew(h0, h1 - (set p | p in q), n0, p0, p1, [], [])
    ensures forall p :: p in p1 ==> p in h1 - (set p | p in q)
  {
    var h2 := h1 - (set p | p in q);
    forall h | h in h2 && h >= n0
      ensures h in p1
    {
      assert h < n1 ==> h in h0;
    }
  }

  /** Holes that were there before remain. */
  lemma {:induction false} GrewKeeps(h0: set<nat>, h1: set<nat>, n0: nat, p0: seq<nat>, p1: seq<nat>, kept: seq<nat>)
    requires Grew(h0, h1, n0, p0, p1, [], []) && (forall h :: h in kept ==> h in h0 && h < n0)
    ensures forall h :: h in kept ==> h in h1
  {
  }

  lemma {:induction false} GrewNew(h0: set<nat>, h1: set<nat>, n0: nat, p0: seq<nat>, p1: seq<nat>, kept: seq<nat>)
    requires Grew(h0, h1, n0, p0, p1, [], []) && p0 == [] && (forall h :: h in kept ==> h < n0)
    ensures forall h :: h in kept ==> h !in p1
  {
  }

  /** A label placed within a stretch of code leaves only the holes of the outer label. */
  lemma {:induction false} GrewClose(h0: set<nat>, h1: set<nat>, h2: set<nat>, n0: nat, n1: nat, p0: seq<nat>, p1: seq<nat>, q: seq<nat>, m: nat)
    requires Grew(h0, h1, n0, p0, p1, [], []) && Grew(h1, h2, n1, [], q, [], []) && n0 <= n1 <= m
    ensures Grew(h0, h2 - (set p | p in q) + {m}, n0, p0, p1 + [m], [], [])
  {
    forall h | h in h2 - (set p | p in q) + {m} && h >= n0
      ensures h in p1 + [m]
    {
      assert h != m ==> h in h2 && h !in q;
      assert h != m ==> h in h1;
      assert (p1 + [m])[|p1|] == m;
    }
  }

  /** A forward jump over a stretch of code, once its label is placed, leaves only the holes
      of that stretch. */
  lemma {:induction false} GrewInside(h0: set<nat>, h2: set<nat>, n0: nat, j: nat, p0: seq<nat>, p1: seq<nat>, q: seq<nat>)
    requires Grew(h0 + {j}, h2, j + 1, p0, p1, [], q) && n0 <= j
    requires (forall h :: h in h0 ==> h < n0 || h in p0) && (forall p :: p in p0 ==> p < j)
    ensures Grew(h0, h2 - {j}, n0, p0, p1, [], q) && j in h2
    ensures (forall p :: p in p1 ==> p in h2) ==> (forall p :: p in p1 ==> p in h2 - {j})
  {
    forall h | h in h2 - {j} && h >= n0
      ensures h in p1 || h in q
    {
      assert h <= j ==> h in h0 + {j};
    }
    assert j in h0 + {j};
    forall p | p in p1
      ensures p != j
    {
      if p <= j { Earlier(h0 + {j}, h2, j + 1, p0, p1, [], q, p); }
    }
  }

  lemma {:induction false} GrewWith(h0: set<nat>, h1: set<nat>, n0: nat, p0: seq<nat>, p1: seq<nat>, k: nat)
    requires Grew(h0, h1, n0, p0, p1, [], []) && k >= n0 && k !in p1
    ensures Grew(h0, h1 + {k}, n0, p0, p1, [], [k])
  {
    assert k in [k];
  }

  lemma {:induction false} GrewNot2(h: set<nat>, n: nat, p: seq<nat>, q: seq<nat>)
    requires (forall k :: k in h ==> k < n) && (forall k :: k in p ==> k < n)
    ensures Grew(h, h, n, p, p, q, q)
  {
  }

  /** An arm leaves its jump to the end and the holes of its body; those of its test are closed. */
  lemma {:induction false} GrewArm(h0: set<nat>, h1: set<nat>, h2: set<nat>, n0: nat, n1: nat, k: nat, nx: seq<nat>, p1: seq<nat>, p2: seq<nat>, q: seq<nat>)
    requires Grew(h0, h1, n0, [], nx, [], []) && Grew(h1, h2, n1, p1, p2, [], []) && n0 <= n1 <= k
    requires (forall p :: p in p2 ==> p < k) && (forall p :: p in q ==> p < n0)
    ensures Grew(h0, h2 + {k} - (set p | p in nx), n0, p1, p2, q, q + [k])
  {
    var h3 := h2 + {k} - (set p | p in nx);
    forall h | h in h3 && h >= n0
      ensures h in p2 || h in q + [k]
    {
      assert (q + [k])[|q|] == k;
      assert h != k && h < n1 ==> h in h1;
    }
    forall h | h < n0
      ensures h in h3 <==> h in h0
    {
      assert h !in nx;
    }
  }

  /** Placing a loop's end label leaves no hole of the loop behind. */
  lemma {:induction false} GrewLoop(h0: set<nat>, h2: set<nat>, n0: nat, j: nat, p: seq<nat>)
    requires Grew(h0 + {j}, h2, j + 1, [j], p, [], []) && n0 <= j && (forall h :: h in h0 ==> h < n0)
    ensures h2 - (set x | x in p) == h0
  {
    forall h | h in h2 - (set x | x in p)
      ensures h in h0
    {
      assert p[0] == j;
      assert h <= j ==> h in h0 + {j};
    }
    forall h | h in h0
      ensures h in h2 && h !in p
    {
      Earlier(h0 + {j}, h2, j + 1, [j], p, [], [], h);
    }
  }

  /** A label that is still waited for stays so while code is appended and its holes remain. */
  lemma {:induction false} StillOpen(l: Label, sym: seq<Instr>, holes: set<nat>, sym': seq<Instr>, holes': set<nat>)
    requires l.Open(sym, holes) && sym <= sym' && (forall h :: h in l.patchlist ==> h in holes')
    ensures l.Open(sym', holes')
  {
    forall k | 0 <= k < |l.patchlist|
      ensures Waiting(sym', holes', l.dest, l.patchlist[k])
    {
      assert Waiting(sym, holes, l.dest, l.patchlist[k]);
    }
  }

  /** A new label waits for nothing. */
  lemma {:induction false} FreshOpen(l: Label, sym: seq<Instr>, holes: set<nat>)
    requires !l.inUse && l.patchlist == []
    ensures l.Open(sym, holes)
  {
  }

  /** Filling a hole that was opened since leaves the holes there were. */
  lemma {:induction false} HoleFilled(h: set<nat>, k: nat)
    requires k !in h
    ensures h + {k} - {k} == h
  {
  }

  lemma {:induction false} GrewNot(h: set<nat>, n: nat, p: seq<nat>)
    requires forall k :: k in h ==> k < n
    ensures Grew(h, h, n, p, p, [], [])
  {
  }

  /** A finished method's code object is the code of its function, assembled; if its operands
      fit, every word decodes to its instruction. */
  ghost predicate Compiles(co: CodeObject, fn: FnDecl) {
    co == Assemble(FnCode(fn)) && (Fits(co) ==> Decodes(co, FnCode(fn)))
  }

  ghost predicate AllCompile(methods: seq<(FnDecl, CodeObject)>) {
    forall k :: 0 <= k < |methods| ==> Compiles(methods[k].1, methods[k].0)
  }

  /** The functions that have a code object. */
  ghost function Domain(methods: seq<(FnDecl, CodeObject)>): set<FnDecl> {
    set k | 0 <= k < |methods| :: methods[k].0
  }

  lemma {:induction false} FnsAssoc(a: set<FnDecl>, b: set<FnDecl>, c: set<FnDecl>)
    ensures a + b + c == a + (b + c)
  {
  }

  lemma {:induction false} FnsNone(a: set<FnDecl>)
    ensures a + {} == a
  {
  }

  lemma {:induction false} DomainPush(methods: seq<(FnDecl, CodeObject)>, fn: FnDecl, co: CodeObject)
    ensures Domain(methods + [(fn, co)]) == Domain(methods) + {fn}
  {
    var more := methods + [(fn, co)];
    forall f | f in Domain(methods) + {fn} ensures f in Domain(more) {
      if f in Domain(methods) {
        var k :| 0 <= k < |methods| && methods[k].0 == f;
        assert more[k].0 == f;
      } else {
        assert more[|methods|].0 == f;
      }
    }
  }

  /** Code objects are determined by their functions. */
  lemma {:induction false} EntriesStay(before: seq<(FnDecl, CodeObject)>, after: seq<(FnDecl, CodeObject)>)
    requires AllCompile(before) && AllCompile(after) && Domain(before) <= Domain(after)
    ensures forall x :: x in before ==> x in after
  {
    forall x | x in before ensures x in after {
      var j :| 0 <= j < |before| && before[j] == x;
      assert Compiles(before[j].1, before[j].0) && x.0 in Domain(before);
      var k :| 0 <= k < |after| && after[k].0 == x.0;
      assert Compiles(after[k].1, after[k].0);
    }
  }

  // ---------- the shape of the code, as it is emitted ----------

  lemma {:induction false} EmptyList(at: nat)
    ensures ExprsCode([], at) == []
  {
  }

  lemma {:induction false} ListShape(sym: seq<Instr>, es: seq<Expr>, at: nat)
    requires es != []
    ensures sym + ExprCode(es[0], at) + ExprsCode(es[1..], at + ExprSize(es[0])) == sym + ExprsCode(es, at)
  {
    hide ExprCode;
    Assoc(sym, ExprCode(es[0], at), ExprsCode(es[1..], at + ExprSize(es[0])));
  }

  lemma {:induction false} OperatorShape(sym: seq<Instr>, op: BinOp, l: Expr, r: Expr, at: nat)
    requires op.Compare? || op.Arith?
    ensures sym + ExprCode(l, at) + ExprCode(r, at + ExprSize(l)) + [BinOpCode(op)] == sym + ExprCode(Binary(op, l, r), at)
  {
    OperatorCode(op, l, r, at);
    hide ExprCode;
  }

  lemma {:induction false} OperatorCode(op: BinOp, l: Expr, r: Expr, at: nat)
    requires op.Compare? || op.Arith?
    ensures ExprCode(Binary(op, l, r), at) == ExprCode(l, at) + ExprCode(r, at + ExprSize(l)) + [BinOpCode(op)]
  {
  }

  lemma {:induction false} GetItemShape(sym: seq<Instr>, t: Expr, k: Expr, at: nat)
    ensures sym + ExprCode(t, at) + ExprCode(k, at + ExprSize(t)) + [GetItem] == sym + ExprCode(GetItemExpr(t, k), at)
  {
  }

  lemma {:induction false} CallShape(sym: seq<Instr>, t: Expr, args: seq<Expr>, at: nat)
    ensures sym + ExprCode(t, at) + ExprsCode(args, at + ExprSize(t)) + [Call(|args| % 256)] == sym + ExprCode(CallExpr(t, args), at)
  {
  }

  lemma {:induction false} LogicShape(sym: seq<Instr>, op: BinOp, l: Expr, r: Expr, at: nat)
    requires op.And? || op.Or?
    ensures var mid := at + ExprSize(l);
      sym + ExprCode(l, at) + Decision(op, mid, mid + 4 + ExprSize(r)) + ExprCode(r, mid + 4) == sym + ExprCode(Binary(op, l, r), at)
  {
    hide ExprCode, ExprSize, Decision;
    var mid := at + ExprSize(l);
    var middle := Decision(op, mid, mid + 4 + ExprSize(r));
    LogicCode(op, l, r, at);
    Assoc(sym, ExprCode(l, at), middle);
    Assoc(sym, ExprCode(l, at) + middle, ExprCode(r, mid + 4));
  }

  lemma {:induction false} LogicCode(op: BinOp, l: Expr, r: Expr, at: nat)
    requires op.And? || op.Or?
    ensures var mid := at + ExprSize(l);
      ExprCode(Binary(op, l, r), at) == ExprCode(l, at) + Decision(op, mid, mid + 4 + ExprSize(r)) + ExprCode(r, mid + 4)
  {
  }

  lemma {:induction false} Assoc(a: seq<Instr>, b: seq<Instr>, c: seq<Instr>)
    ensures a + b + c == a + (b + c)
  {
  }

  /** The part of a short-circuit operator between its operands. */
  function Decision(op: BinOp, mid: nat, end: nat): (code: seq<Instr>)
    ensures |code| == 4
  {
    [Dup, if op.Or? then JumpIfFalse(mid + 3) else JumpIfTrue(mid + 3), Jump(end), Pop]
  }

  /** One item or value of a pattern: fetch it, test it, drop it. */
  function ItemCode(p: Expr, key: Value, at: nat, next: nat): seq<Instr> {
    [Dup, PushConst(key), GetItem] + PatCode(p, at + 3, next) + [Pop]
  }

  lemma {:induction false} ItemsShape(sym: seq<Instr>, ps: seq<Expr>, i: nat, at: nat, next: nat)
    requires ps != []
    ensures sym + ItemCode(ps[0], Int(i), at, next) + ItemsCode(ps[1..], i + 1, at + 4 + PatSize(ps[0]), next)
         == sym + ItemsCode(ps, i, at, next)
    ensures |ItemCode(ps[0], Int(i), at, next)| == 4 + PatSize(ps[0])
  {
    hide PatCode;
    Assoc(sym, ItemCode(ps[0], Int(i), at, next), ItemsCode(ps[1..], i + 1, at + 4 + PatSize(ps[0]), next));
  }

  /** How the variables bound so far and those of the remaining items add up. */
  lemma {:induction false} ItemsVarsStep(vars: seq<(Name, seq<Value>)>, ps: seq<Expr>, i: nat, path: seq<Value>)
    requires ps != []
    ensures var vars' := vars + PatVars(ps[0], path + [Int(i)]);
      && vars' + ItemsVars(ps[1..], i + 1, path) == vars + ItemsVars(ps, i, path)
      && |vars'| == |vars| + PatCount(ps[0])
  {
    hide PatVars, PatCount;
    CountVars(ps[0], path + [Int(i)]);
  }

  lemma {:induction false} PairsVarsStep(vars: seq<(Name, seq<Value>)>, ps: seq<Expr>, path: seq<Value>)
    requires |ps| >= 2
    ensures var vars' := vars + PatVars(ps[1], path + [KeyConst(ps[0])]);
      && vars' + PairsVars(ps[2..], path) == vars + PairsVars(ps, path)
      && |vars'| == |vars| + PatCount(ps[1])
  {
    hide PatVars, PatCount;
    CountVars(ps[1], path + [KeyConst(ps[0])]);
  }

  lemma {:induction false} CountVars(p: Expr, path: seq<Value>)
    ensures |PatVars(p, path)| == PatCount(p)
    decreases p
  {
    match p
    case ArrayLit(items) => CountItems(items, 0, path);
    case HashLit(items) => CountPairs(items, path);
    case _ =>
  }

  lemma {:induction false} CountItems(ps: seq<Expr>, i: nat, path: seq<Value>)
    ensures |ItemsVars(ps, i, path)| == ItemsCount(ps)
    decreases ps
  {
    if ps != [] {
      CountVars(ps[0], path + [Int(i)]);
      CountItems(ps[1..], i + 1, path);
    }
  }

  lemma {:induction false} CountPairs(ps: seq<Expr>, path: seq<Value>)
    ensures |PairsVars(ps, path)| == PairsCount(ps)
    decreases ps
  {
    if |ps| >= 2 {
      CountVars(ps[1], path + [KeyConst(ps[0])]);
      CountPairs(ps[2..], path);
    }
  }

  /** An array pattern after its class and size tests. */
  function ArrayRest(items: seq<Expr>, at: nat, next: nat): seq<Instr> {
    var pop := at + ItemsSize(items) + 1;
    ItemsCode(items, 0, at, pop) + [Jump(pop + 2), Pop, Jump(next)]
  }

  lemma {:induction false} ArrayPatShape(sym: seq<Instr>, items: seq<Expr>, at: nat, next: nat)
    ensures sym + (ClassTest(PushName("array"), next) + SizeTest(|items|, next)) + ArrayRest(items, at + 11, next)
         == sym + PatCode(ArrayLit(items), at, next)
  {
    hide ItemsCode, ItemsSize;
    var pop := at + 12 + ItemsSize(items);
    var a, b, c, d := ClassTest(PushName("array"), next), SizeTest(|items|, next), ItemsCode(items, 0, at + 11, pop), [Jump(pop + 2), Pop, Jump(next)];
    assert PatCode(ArrayLit(items), at, next) == a + b + c + d;
    Assoc(a + b, c, d);
    Assoc(sym, a + b, c + d);
  }

  lemma {:induction false} PairsShape(sym: seq<Instr>, ps: seq<Expr>, at: nat, next: nat)
    requires |ps| >= 2
    ensures sym + ItemCode(ps[1], KeyConst(ps[0]), at, next) + PairsCode(ps[2..], at + 4 + PatSize(ps[1]), next)
         == sym + PairsCode(ps, at, next)
    ensures |ItemCode(ps[1], KeyConst(ps[0]), at, next)| == 4 + PatSize(ps[1])
  {
    hide PatCode;
    Assoc(sym, ItemCode(ps[1], KeyConst(ps[0]), at, next), PairsCode(ps[2..], at + 4 + PatSize(ps[1]), next));
  }

  lemma {:induction false} PairsStep(ps: seq<Expr>, i: nat, depth: nat)
    requires i + 2 <= |ps| && PatsScoped(ps[i..])
    ensures var rest := ps[i..]; rest[0] == ps[i] && rest[1] == ps[i + 1] && rest[2..] == ps[i + 2..]
    ensures PatScoped(ps[i + 1]) && PatsScoped(ps[i + 2..])
    ensures PairsOk(ps[i..], depth) == ((ps[i].Lit? || ps[i].NilLit?) && PatOk(ps[i + 1], depth) && PairsOk(ps[i + 2..], depth))
    ensures PairsCount(ps[i..]) == PatCount(ps[i + 1]) + PairsCount(ps[i + 2..])
  {
    assert ps[i..][1..][1..] == ps[i + 2..];
  }

  lemma {:induction false} PairsDone(ps: seq<Expr>, depth: nat, path: seq<Value>, at: nat, next: nat)
    requires ps == []
    ensures PairsOk(ps, depth) && PairsCount(ps) == 0 && PairsVars(ps, path) == [] && PairsCode(ps, at, next) == []
  {
  }

  lemma {:induction false} HashPatShape(sym: seq<Instr>, items: seq<Expr>, at: nat, next: nat)
    ensures sym + (ClassTest(PushName("hash"), next) + SizeTest(|items| / 2, next)) + PairsCode(items, at + 11, next)
         == sym + PatCode(HashLit(items), at, next)
  {
    hide PairsCode, PairsSize;
    var a, b, c := ClassTest(PushName("hash"), next), SizeTest(|items| / 2, next), PairsCode(items, at + 11, next);
    assert PatCode(HashLit(items), at, next) == a + b + c;
    Assoc(sym, a + b, c);
  }

  lemma {:induction false} StmtsShape(sym: seq<Instr>, ss: seq<Stmt>, at: nat, brk: nat)
    requires ss != []
    ensures sym + StmtCode(ss[0], at, brk) + StmtsCode(ss[1..], at + StmtSize(ss[0]), brk) == sym + StmtsCode(ss, at, brk)
  {
    hide StmtCode;
    Assoc(sym, StmtCode(ss[0], at, brk), StmtsCode(ss[1..], at + StmtSize(ss[0]), brk));
  }

  lemma {:induction false} NoStmts(at: nat, brk: nat)
    ensures StmtsCode([], at, brk) == []
  {
  }

  lemma {:induction false} IfShape(sym: seq<Instr>, s: Stmt, at: nat, brk: nat)
    requires s.If?
    ensures var body := at + ExprSize(s.cond) + 1;
      sym + ExprCode(s.cond, at) + [JumpIfFalse(body + StmtsSize(s.body))] + StmtsCode(s.body, body, brk) == sym + StmtCode(s, at, brk)
  {
    hide ExprCode, StmtsCode, ExprSize, StmtsSize;
    var body := at + ExprSize(s.cond) + 1;
    Assoc(sym, ExprCode(s.cond, at), [JumpIfFalse(body + StmtsSize(s.body))]);
    Assoc(sym, ExprCode(s.cond, at) + [JumpIfFalse(body + StmtsSize(s.body))], StmtsCode(s.body, body, brk));
  }

  lemma {:induction false} IfElseShape(sym: seq<Instr>, s: Stmt, at: nat, brk: nat)
    requires s.IfElse?
    ensures var body := at + ExprSize(s.cond) + 1;
      var orelse := body + StmtsSize(s.body) + 1;
      sym + ExprCode(s.cond, at) + [JumpIfFalse(orelse)] + StmtsCode(s.body, body, brk) + [Jump(orelse + StmtsSize(s.orelse))]
        + StmtsCode(s.orelse, orelse, brk) == sym + StmtCode(s, at, brk)
  {
    hide ExprCode, StmtsCode, ExprSize, StmtsSize;
    var body := at + ExprSize(s.cond) + 1;
    var orelse := body + StmtsSize(s.body) + 1;
    var a, b, c, d, e := ExprCode(s.cond, at), [JumpIfFalse(orelse)], StmtsCode(s.body, body, brk),
                         [Jump(orelse + StmtsSize(s.orelse))], StmtsCode(s.orelse, orelse, brk);
    assert StmtCode(s, at, brk) == a + b + c + d + e;
    Assoc(sym, a, b);
    Assoc(sym, a + b, c);
    Assoc(sym, a + b + c, d);
    Assoc(sym, a + b + c + d, e);
  }

  lemma {:induction false} BindsShape(sym: seq<Instr>, vars: seq<(Name, seq<Value>)>)
    requires vars != []
    ensures sym + [Dup] + WalkCode(vars[0].1) + [StoreName(vars[0].0)] + BindsCode(vars[1..]) == sym + BindsCode(vars)
  {
    hide WalkCode;
    var a, b, c, d := [Dup], WalkCode(vars[0].1), [StoreName(vars[0].0)], BindsCode(vars[1..]);
    assert BindsCode(vars) == a + b + c + d;
    Assoc(sym, a, b);
    Assoc(sym, a + b, c);
    Assoc(sym, a + b + c, d);
  }

  lemma {:induction false} WalkShape(sym: seq<Instr>, path: seq<Value>)
    requires path != []
    ensures sym + [PushConst(path[0])] + [GetItem] + WalkCode(path[1..]) == sym + WalkCode(path)
  {
    TwoWords(sym, PushConst(path[0]), GetItem);
    Assoc(sym, [PushConst(path[0]), GetItem], WalkCode(path[1..]));
  }

  lemma {:induction false} NoBinds()
    ensures BindsCode([]) == []
  {
  }

  lemma {:induction false} NoWalk()
    ensures WalkCode([]) == []
  {
  }

  lemma {:induction false} ArmShape(sym: seq<Instr>, arm: Arm, at: nat, end: nat, brk: nat)
    ensures var vars := PatVars(arm.test, []);
      var body := at + PatSize(arm.test) + BindsSize(vars) + 1;
      sym + PatCode(arm.test, at, at + ArmSize(arm)) + BindsCode(vars) + [Pop] + StmtsCode(arm.body, body, brk) + [Jump(end)]
        == sym + ArmCode(arm, at, end, brk)
  {
    hide PatVars, PatCode, BindsCode, StmtsCode, PatSize, BindsSize, StmtsSize;
    var vars := PatVars(arm.test, []);
    var body := at + PatSize(arm.test) + BindsSize(vars) + 1;
    var a, b, c, d, e := PatCode(arm.test, at, at + ArmSize(arm)), BindsCode(vars), [Pop], StmtsCode(arm.body, body, brk), [Jump(end)];
    assert ArmCode(arm, at, end, brk) == a + b + c + d + e;
    Assoc(sym, a, b);
    Assoc(sym, a + b, c);
    Assoc(sym, a + b + c, d);
    Assoc(sym, a + b + c + d, e);
  }

  lemma {:induction false} ArmsShape(sym: seq<Instr>, arms: seq<Arm>, at: nat, end: nat, brk: nat)
    requires arms != []
    ensures sym + ArmCode(arms[0], at, end, brk) + ArmsCode(arms[1..], at + ArmSize(arms[0]), end, brk) == sym + ArmsCode(arms, at, end, brk)
  {
    hide ArmCode, ArmSize;
    Assoc(sym, ArmCode(arms[0], at, end, brk), ArmsCode(arms[1..], at + ArmSize(arms[0]), end, brk));
  }

  lemma {:induction false} NoArms(at: nat, end: nat, brk: nat)
    ensures ArmsCode([], at, end, brk) == []
  {
  }

  lemma {:induction false} MatchShape(sym: seq<Instr>, s: Stmt, at: nat, brk: nat)
    requires s.Match?
    ensures sym + ExprCode(s.e, at) + ArmsCode(s.arms, at + ExprSize(s.e), at + StmtSize(s), brk) == sym + StmtCode(s, at, brk)
  {
    hide ExprCode, ExprSize, ArmsCode, ArmsSize;
    Assoc(sym, ExprCode(s.e, at), ArmsCode(s.arms, at + ExprSize(s.e), at + StmtSize(s), brk));
  }

  lemma {:induction false} LoopShape(sym: seq<Instr>, i: Instr, body: seq<Instr>, k: Instr)
    ensures sym + [i] + body + [k] == sym + ([i] + body + [k])
  {
  }

  lemma {:induction false} WhileShape(sym: seq<Instr>, s: Stmt, at: nat, brk: nat)
    requires s.While?
    ensures var body := at + ExprSize(s.cond) + 1;
      var end := body + StmtsSize(s.body) + 1;
      sym + ExprCode(s.cond, at) + ([JumpIfFalse(end)] + StmtsCode(s.body, body, end) + [Jump(at)]) == sym + StmtCode(s, at, brk)
  {
    hide ExprCode, StmtsCode, ExprSize, StmtsSize;
    var body := at + ExprSize(s.cond) + 1;
    var end := body + StmtsSize(s.body) + 1;
    var a, b, c, d := ExprCode(s.cond, at), [JumpIfFalse(end)], StmtsCode(s.body, body, end), [Jump(at)];
    assert StmtCode(s, at, brk) == a + b + c + d;
    Assoc(sym, a, b + c + d);
    Assoc(a, b, c);
    Assoc(a, b + c, d);
  }

  lemma {:induction false} SpawnShape(sym: seq<Instr>, t: Expr, args: seq<Expr>, at: nat)
    ensures sym + ExprCode(t, at) + [Spawn, Dup, GetAttr("send")] + (ExprsCode(args, at + ExprSize(t) + 3)
              + [MakeArray(|args| % 256), Call(1), Pop])
         == sym + ExprCode(SpawnExpr(t, args), at)
  {
    var a, b, c, d := ExprCode(t, at), [Spawn, Dup, GetAttr("send")], ExprsCode(args, at + ExprSize(t) + 3), [MakeArray(|args| % 256), Call(1), Pop];
    assert ExprCode(SpawnExpr(t, args), at) == a + b + c + d;
    Assoc(sym, a, b);
    Assoc(sym, a + b, c);
    Assoc(sym, a + b + c, d);
  }

  lemma {:induction false} FourWords(sym: seq<Instr>, i: Instr, j: Instr, k: Instr, l: Instr)
    ensures sym + [i] + [j] + [k] + [l] == sym + [i, j, k, l]
  {
  }

  lemma {:induction false} TwoWords(sym: seq<Instr>, i: Instr, j: Instr)
    ensures sym + [i] + [j] == sym + [i, j]
  {
  }

  lemma {:induction false} ThreeWords(sym: seq<Instr>, i: Instr, j: Instr, k: Instr)
    ensures sym + [i] + [j] + [k] == sym + [i, j, k]
  {
  }

  /** The path to the sub-value under test and the variables bound so far. */
  class Binder {
    var path: seq<Value>
    var vars: seq<(Name, seq<Value>)>

    constructor ()
      ensures path == [] && vars == []
    {
      path, vars := [], [];
    }
  }

  class Compiler {
    var units: seq<Code>
    var loopStack: seq<Label>
    var methods: seq<(FnDecl, CodeObject)>

    constructor ()
      ensures units == [] && loopStack == [] && methods == []
    {
      units, loopStack, methods := [], [], [];
    }

    ghost function Here(): set<object>
      reads this
    {
      if units == [] then {} else {Last(units)}
    }

    ghost function Buffer(): set<object>
      reads this, Here()
    {
      if units == [] then {} else {Last(units).bytecode}
    }

    ghost predicate Ready()
      reads this, Here(), Buffer()
    {
      units != [] && Last(units).Valid() && AllCompile(methods)
    }

    /** Since `old`, `part` was appended to the current unit and no hole was left behind. */
    twostate predicate Emitted(part: seq<Instr>)
      reads this, Here(), Buffer()
      requires old(units) != []
    {
      && Ready() && units == old(units) && loopStack == old(loopStack)
      && Last(units).sym == old(Last(units).sym) + part && Last(units).holes == old(Last(units).holes)
      && (Last(units).bytecode == old(Last(units).bytecode) || fresh(Last(units).bytecode))
    }

    // ---------- expressions ----------

    method CompileExpr(e: Expr) returns (ok: bool)
      requires Ready() && ExprScoped(e, loopStack != [])
      modifies this, Here(), Buffer()
      ensures ok == ExprOk(e, false)
      ensures ok ==> Emitted(ExprCode(e, old(Last(units).used)))
      ensures ok ==> Domain(methods) == old(Domain(methods)) + ExprFns(e)
      decreases e, 1
    {
      match e
      case CallExpr(_, _) => ok := CompileCall(e);
      case GetAttrExpr(_, _) => ok := CompileGetAttr(e);
      case GetItemExpr(_, _) => ok := CompileGetItem(e);
      case ArrayLit(_) => ok := CompileArray(e);
      case HashLit(_) => ok := CompileHash(e);
      case Ident(id) => ok := CompileLeaf(e);
      case Lit(v) => ok := CompileLeaf(e);
      case NilLit => ok := CompileLeaf(e);
      case Binary(op, _, _) =>
        if op.And? || op.Or? {
          ok := CompileLogic(e);
        } else {
          ok := CompileOperator(e);
        }
      case FnExpr(_) => ok := CompileFn(e);
      case SpawnExpr(_, _) => ok := CompileSpawn(e);
      case NotExpr(_) => ok := CompileNot(e);
      case Wildcard => ok := false;
    }

    method CompileExprs(es: seq<Expr>) returns (ok: bool)
      requires Ready() && ExprsScoped(es, loopStack != [])
      modifies this, Here(), Buffer()
      ensures ok == ExprsOk(es, false)
      ensures ok ==> Emitted(ExprsCode(es, old(Last(units).used)))
      ensures ok ==> Domain(methods) == old(Domain(methods)) + ExprsFns(es)
      decreases es, 0
    {
      hide Code.Valid, AllCompile, Domain, ExprCode, ExprOk, ExprScoped, ExprsCode, ExprFns;
      var code := Last(units);
      code.ValidUsed();
      ghost var sym := code.sym;
      ghost var whole := sym + ExprsCode(es, code.used);
      var i := 0;
      while i < |es|
        invariant i <= |es| && Ready() && Last(units) == code && units == old(units) && loopStack == old(loopStack)
        invariant code.holes == old(code.holes) && (code.bytecode == old(code.bytecode) || fresh(code.bytecode))
        invariant sym <= code.sym && code.sym + ExprsCode(es[i..], code.used) == whole
        invariant Domain(methods) + ExprsFns(es[i..]) == old(Domain(methods)) + ExprsFns(es)
        invariant ExprsScoped(es[i..], loopStack != []) && ExprsOk(es, false) == ExprsOk(es[i..], false)
      {
        assert es[i..][1..] == es[i + 1..];
        code.ValidUsed();
        ListShape(code.sym, es[i..], code.used);
        ghost var fns := Domain(methods);
        ok := CompileExpr(es[i]);
        if !ok { return; }
        code.ValidUsed();
        FnsAssoc(fns, ExprFns(es[i]), ExprsFns(es[i + 1..]));
        i := i + 1;
      }
      assert es[i..] == [];
      FnsNone(Domain(methods));
      EmptyList(code.used);
      ok := true;
    }

    method CompileLeaf(e: Expr) returns (ok: bool)
      requires Ready() && (e.Ident? || e.Lit? || e.NilLit?)
      modifies this, Here(), Buffer()
      ensures ok && Emitted(ExprCode(e, old(Last(units).used)))
      ensures ok ==> Domain(methods) == old(Domain(methods)) + ExprFns(e)
    {
      var code := Last(units);
      ok := true;
      match e {
        case Ident(id) => code.Named(PushName(id));
        case Lit(v) => code.PushConstant(v);
        case NilLit => code.Plain(PushNil);
      }
    }

    method CompileNot(e: Expr) returns (ok: bool)
      requires Ready() && ExprScoped(e, loopStack != []) && e.NotExpr?
      modifies this, Here(), Buffer()
      ensures ok == ExprOk(e, false)
      ensures ok ==> Emitted(ExprCode(e, old(Last(units).used)))
      ensures ok ==> Domain(methods) == old(Domain(methods)) + ExprFns(e)
      decreases e, 0
    {
      hide Encoded, Pooled, AllCompile, Domain;
      ok := CompileExpr(e.e);
      if ok {
        Last(units).Plain(Not);
      }
    }

    method CompileGetAttr(e: Expr) returns (ok: bool)
      requires Ready() && ExprScoped(e, loopStack != []) && e.GetAttrExpr?
      modifies this, Here(), Buffer()
      ensures ok == ExprOk(e, false)
      ensures ok ==> Emitted(ExprCode(e, old(Last(units).used)))
      ensures ok ==> Domain(methods) == old(Domain(methods)) + ExprFns(e)
      decreases e, 0
    {
      hide Encoded, Pooled, AllCompile, Domain;
      ok := CompileExpr(e.target);
      if ok {
        Last(units).Named(GetAttr(e.attr));
      }
    }

    method CompileGetItem(e: Expr) returns (ok: bool)
      requires Ready() && ExprScoped(e, loopStack != []) && e.GetItemExpr?
      modifies this, Here(), Buffer()
      ensures ok == ExprOk(e, false)
      ensures ok ==> Emitted(ExprCode(e, old(Last(units).used)))
      ensures ok ==> Domain(methods) == old(Domain(methods)) + ExprFns(e)
      decreases e, 0
    {
      hide Code.Valid, AllCompile, Domain, ExprCode;
      ghost var fns := Domain(methods);
      Last(units).ValidUsed();
      ok := CompileExpr(e.target);
      if !ok { return; }
      Last(units).ValidUsed();
      ok := CompileExpr(e.key);
      if ok {
        FnsAssoc(fns, ExprFns(e.target), ExprFns(e.key));
        GetItemShape(old(Last(units).sym), e.target, e.key, old(Last(units).used));
        Last(units).Plain(GetItem);
      }
    }

    method CompileArray(e: Expr) returns (ok: bool)
      requires Ready() && ExprScoped(e, loopStack != []) && e.ArrayLit?
      modifies this, Here(), Buffer()
      ensures ok == ExprOk(e, false)
      ensures ok ==> Emitted(ExprCode(e, old(Last(units).used)))
      ensures ok ==> Domain(methods) == old(Domain(methods)) + ExprFns(e)
      decreases e, 0
    {
      hide Encoded, Pooled, AllCompile, Domain;
      ok := CompileExprs(e.items);
      if ok {
        Last(units).Counted(MakeArray(|e.items| % 256));
      }
    }

    method CompileHash(e: Expr) returns (ok: bool)
      requires Ready() && ExprScoped(e, loopStack != []) && e.HashLit?
      modifies this, Here(), Buffer()
      ensures ok == ExprOk(e, false)
      ensures ok ==> Emitted(ExprCode(e, old(Last(units).used)))
      ensures ok ==> Domain(methods) == old(Domain(methods)) + ExprFns(e)
      decreases e, 0
    {
      hide Encoded, Pooled, AllCompile, Domain;
      ok := CompileExprs(e.items);
      if ok {
        Last(units).Counted(MakeHash(|e.items| / 2 % 256));
      }
    }

    method CompileCall(e: Expr) returns (ok: bool)
      requires Ready() && ExprScoped(e, loopStack != []) && e.CallExpr?
      modifies this, Here(), Buffer()
      ensures ok == ExprOk(e, false)
      ensures ok ==> Emitted(ExprCode(e, old(Last(units).used)))
      ensures ok ==> Domain(methods) == old(Domain(methods)) + ExprFns(e)
      decreases e, 0
    {
      hide Code.Valid, AllCompile, Domain, ExprCode, ExprsCode;
      ghost var fns := Domain(methods);
      Last(units).ValidUsed();
      ok := CompileExpr(e.target);
      if !ok { return; }
      Last(units).ValidUsed();
      ok := CompileExprs(e.args);
      if ok {
        FnsAssoc(fns, ExprFns(e.target), ExprsFns(e.args));
        CallShape(old(Last(units).sym), e.target, e.args, old(Last(units).used));
        Last(units).Counted(Call(|e.args| % 256));
      }
    }

    method CompileOperator(e: Expr) returns (ok: bool)
      requires Ready() && ExprScoped(e, loopStack != []) && e.Binary? && (e.op.Compare? || e.op.Arith?)
      modifies this, Here(), Buffer()
      ensures ok == ExprOk(e, false)
      ensures ok ==> Emitted(ExprCode(e, old(Last(units).used)))
      ensures ok ==> Domain(methods) == old(Domain(methods)) + ExprFns(e)
      decreases e, 0
    {
      hide Code.Valid, AllCompile, Domain, ExprCode;
      ok := CompileOperands(e);
      if ok {
        OperatorShape(old(Last(units).sym), e.op, e.left, e.right, old(Last(units).used));
        Last(units).Plain(BinOpCode(e.op));
      }
    }

    /** Both operands, one after the other. */
    method CompileOperands(e: Expr) returns (ok: bool)
      requires Ready() && e.Binary? && ExprScoped(e.left, loopStack != []) && ExprScoped(e.right, loopStack != [])
      modifies this, Here(), Buffer()
      ensures ok == (ExprOk(e.left, false) && ExprOk(e.right, false))
      ensures ok ==> Emitted(ExprCode(e.left, old(Last(units).used)) + ExprCode(e.right, old(Last(units).used) + ExprSize(e.left)))
      ensures ok ==> Domain(methods) == old(Domain(methods)) + (ExprFns(e.left) + ExprFns(e.right))
      decreases e, 0, 0
    {
      hide Code.Valid, AllCompile, Domain, ExprCode, ExprOk, ExprScoped, ExprFns, ExprSize;
      ghost var fns, sym, at := Domain(methods), Last(units).sym, Last(units).used;
      Last(units).ValidUsed();
      ok := CompileExpr(e.left);
      if !ok { return; }
      Last(units).ValidUsed();
      ok := CompileExpr(e.right);
      FnsAssoc(fns, ExprFns(e.left), ExprFns(e.right));
      Assoc(sym, ExprCode(e.left, at), ExprCode(e.right, at + ExprSize(e.left)));
    }

    /** Keep the left operand and jump to `endLabel`, or go on to `rightLabel`. */
    static method EmitChoice(code: Code, op: BinOp, rightLabel: Label, endLabel: Label)
      requires code.Valid() && (op.And? || op.Or?) && rightLabel != endLabel
      requires endLabel.Open(code.sym, code.holes) && endLabel.patchlist == []
      requires rightLabel.Open(code.sym, code.holes) && rightLabel.patchlist == [] && rightLabel.dest == code.used + 3
      modifies code, code.bytecode, endLabel`patchlist, rightLabel`patchlist
      ensures code.Valid() && endLabel.Open(code.sym, code.holes) && rightLabel.Open(code.sym, code.holes)
      ensures code.sym + [Pop] == old(code.sym) + Decision(op, old(code.used), endLabel.dest)
      ensures rightLabel.patchlist == [old(code.used) + 1] && endLabel.patchlist == [old(code.used) + 2]
      ensures code.holes == old(code.holes) + {old(code.used) + 1, old(code.used) + 2}
      ensures code.bytecode == old(code.bytecode) || fresh(code.bytecode)
    {
      hide Encoded, Pooled;
      code.Plain(Dup);
      code.JumpTo(if op.Or? then JumpIfFalse(0) else JumpIfTrue(0), rightLabel);
      code.JumpTo(Jump(0), endLabel);
      FourWords(old(code.sym), Dup, if op.Or? then JumpIfFalse(old(code.used) + 3) else JumpIfTrue(old(code.used) + 3),
                Jump(endLabel.dest), Pop);
    }

    /** Keep the left operand and jump to `endLabel`, or drop it and go on to the right one. */
    static method EmitDecision(code: Code, op: BinOp, endLabel: Label)
      requires code.Valid() && (op.And? || op.Or?) && endLabel.Open(code.sym, code.holes) && endLabel.patchlist == []
      modifies code, code.bytecode, endLabel`patchlist
      ensures code.Valid() && endLabel.Open(code.sym, code.holes)
      ensures code.sym == old(code.sym) + Decision(op, old(code.used), endLabel.dest)
      ensures endLabel.patchlist == [old(code.used) + 2] && code.holes == old(code.holes) + {old(code.used) + 2}
      ensures code.bytecode == old(code.bytecode) || fresh(code.bytecode)
    {
      hide Encoded, Pooled;
      var rightLabel := new Label(code.used + 3);
      EmitChoice(code, op, rightLabel, endLabel);
      code.UseLabel(rightLabel);
      code.Plain(Pop);
    }

    /** Short-circuit operators: the right operand replaces the left one, unless a jump
        over it keeps the left one. */
    method CompileLogic(e: Expr) returns (ok: bool)
      requires Ready() && ExprScoped(e, loopStack != []) && e.Binary? && (e.op.And? || e.op.Or?)
      modifies this, Here(), Buffer()
      ensures ok == ExprOk(e, false)
      ensures ok ==> Emitted(ExprCode(e, old(Last(units).used)))
      ensures ok ==> Domain(methods) == old(Domain(methods)) + ExprFns(e)
      decreases e, 0
    {
      hide Code.Valid, AllCompile, Domain, ExprCode, Decision, ExprsCode, StmtsCode;
      var code := Last(units);
      code.ValidUsed();
      ok := CompileExpr(e.left);
      if !ok { return; }
      code.ValidUsed();
      var endLabel := new Label(code.used + 4 + ExprSize(e.right));
      EmitDecision(code, e.op, endLabel);
      code.ValidUsed();
      HoleFilled(old(code.holes), code.used - 2);
      ok := CompileRight(e, endLabel, code.used - 2);
      FnsAssoc(old(Domain(methods)), ExprFns(e.left), ExprFns(e.right));
      LogicShape(old(code.sym), e.op, e.left, e.right, old(code.used));
    }

    /** The right operand, and the label behind it; `k` is the jump that waits for it. */
    method CompileRight(e: Expr, endLabel: Label, ghost k: nat) returns (ok: bool)
      requires Ready() && e.Binary? && ExprScoped(e.right, loopStack != [])
      requires endLabel.Open(Last(units).sym, Last(units).holes) && endLabel.patchlist == [k]
      requires endLabel.dest == Last(units).used + ExprSize(e.right)
      modifies this, Here(), Buffer(), endLabel
      ensures ok == ExprOk(e.right, false)
      ensures ok ==> Ready() && units == old(units) && loopStack == old(loopStack)
      ensures ok ==> Last(units).sym == old(Last(units).sym) + ExprCode(e.right, old(Last(units).used))
      ensures ok ==> Last(units).holes == old(Last(units).holes) - {k}
      ensures ok ==> Last(units).bytecode == old(Last(units).bytecode) || fresh(Last(units).bytecode)
      ensures ok ==> Domain(methods) == old(Domain(methods)) + ExprFns(e.right)
      decreases e.right, 2
    {
      hide Encoded, Pooled, AllCompile, Domain, ExprCode, ExprSize, ExprOk, ExprScoped, ExprFns;
      var code := Last(units);
      ok := CompileExpr(e.right);
      if !ok { return; }
      assert (set p | p in endLabel.patchlist) == {k};
      code.UseLabel(endLabel);
    }

    method CompileFn(e: Expr) returns (ok: bool)
      requires Ready() && ExprScoped(e, loopStack != []) && e.FnExpr?
      modifies this, Here(), Buffer()
      ensures ok == ExprOk(e, false)
      ensures ok ==> Emitted(ExprCode(e, old(Last(units).used)))
      ensures ok ==> Domain(methods) == old(Domain(methods)) + ExprFns(e)
      decreases e, 0
    {
      hide Encoded, Pooled, AllCompile, Domain, FnFns, FnOk;
      var code := Last(units);
      ok := CompileMethod(e.fn);
      if !ok { return; }
      code.PushConstant(Method(e.fn));
      if e.fn.freevars != [] {
        code.Plain(MakeClosure);
      }
    }

    method EmitSpawn(code: Code)
      requires code.Valid()
      modifies code, code.bytecode
      ensures code.Valid() && code.sym == old(code.sym) + [Spawn, Dup, GetAttr("send")] && code.holes == old(code.holes)
      ensures code.bytecode == old(code.bytecode) || fresh(code.bytecode)
    {
      hide Encoded, Pooled;
      code.Plain(Spawn);
      code.Plain(Dup);
      code.Named(GetAttr("send"));
      ThreeWords(old(code.sym), Spawn, Dup, GetAttr("send"));
    }

    method EmitSend(code: Code, nargs: nat)
      requires code.Valid()
      modifies code, code.bytecode
      ensures code.Valid() && code.sym == old(code.sym) + [MakeArray(nargs % 256), Call(1), Pop] && code.holes == old(code.holes)
      ensures code.bytecode == old(code.bytecode) || fresh(code.bytecode)
    {
      hide Encoded, Pooled;
      code.Counted(MakeArray(nargs % 256));
      code.Counted(Call(1));
      code.Plain(Pop);
      ThreeWords(old(code.sym), MakeArray(nargs % 256), Call(1), Pop);
    }

    method CompileSpawn(e: Expr) returns (ok: bool)
      requires Ready() && ExprScoped(e, loopStack != []) && e.SpawnExpr?
      modifies this, Here(), Buffer()
      ensures ok == ExprOk(e, false)
      ensures ok ==> Emitted(ExprCode(e, old(Last(units).used)))
      ensures ok ==> Domain(methods) == old(Domain(methods)) + ExprFns(e)
      decreases e, 0
    {
      hide Code.Valid, AllCompile, Domain, ExprCode, ExprsCode;
      var code := Last(units);
      code.ValidUsed();
      ok := CompileExpr(e.target);
      if !ok { return; }
      EmitSpawn(code);
      code.ValidUsed();
      ok := CompileMessage(e.args);
      if !ok { return; }
      FnsAssoc(old(Domain(methods)), ExprFns(e.target), ExprsFns(e.args));
      SpawnShape(old(code.sym), e.target, e.args, old(code.used));
    }

    /** The message that a new task is sent. */
    method CompileMessage(args: seq<Expr>) returns (ok: bool)
      requires Ready() && ExprsScoped(args, loopStack != [])
      modifies this, Here(), Buffer()
      ensures ok == ExprsOk(args, false)
      ensures ok ==> Emitted(ExprsCode(args, old(Last(units).used)) + [MakeArray(|args| % 256), Call(1), Pop])
      ensures ok ==> Domain(methods) == old(Domain(methods)) + ExprsFns(args)
      decreases args, 1
    {
      hide Encoded, Pooled, AllCompile, Domain, ExprsCode, ExprsOk, ExprsScoped, ExprsFns;
      ok := CompileExprs(args);
      if ok {
        EmitSend(Last(units), |args|);
        Assoc(old(Last(units).sym), ExprsCode(args, old(Last(units).used)), [MakeArray(|args| % 256), Call(1), Pop]);
      }
    }

    // ---------- functions ----------

    /** Compile a function in a unit of its own: store the arguments, then the body. */
    method CompileMethod(fn: FnDecl) returns (ok: bool)
      requires AllCompile(methods) && StmtsScoped(fn.body, false, loopStack != [])
      modifies this
      ensures ok == FnOk(fn, false)
      ensures ok ==> units == old(units) && loopStack == old(loopStack)
      ensures ok ==> AllCompile(methods) && Domain(methods) == old(Domain(methods)) + FnFns(fn)
      ensures ok ==> forall x :: x in old(methods) ==> x in methods
      decreases fn
    {
      hide Encoded, Pooled, StmtsCode, StmtsOk, StmtsScoped, Ranges.Within;
      var code := new Code();
      units := units + [code];
      EmitParams(code, fn.params);
      ok := CompileStmts(fn.body, false);
      if !ok { return; }
      var co := FinishMethod(code, fn);
      units := Init(units);
      assert units == old(units);
      ghost var before := methods;
      methods := methods + [(fn, co)];
      assert forall k :: 0 <= k < |methods| ==> methods[k] == if k < |before| then before[k] else (fn, co);
      DomainPush(before, fn, co);
      EntriesStay(old(methods), methods);
    }

    /** Pop the arguments into the parameters, last one first. */
    method EmitParams(code: Code, params: seq<Name>)
      requires code.Valid() && code.sym == [] && code.holes == {}
      modifies code, code.bytecode
      ensures code.Valid() && code.sym == ParamsCode(params) && code.holes == {}
      ensures code.bytecode == old(code.bytecode) || fresh(code.bytecode)
    {
      hide Encoded, Pooled;
      var n := |params|;
      var i := 0;
      assert params[..n] == params;
      while i < n
        invariant i <= n && code.Valid() && code.holes == {}
        invariant code.bytecode == old(code.bytecode) || fresh(code.bytecode)
        invariant code.sym + ParamsCode(params[..n - i]) == ParamsCode(params)
      {
        code.Named(StoreName(params[n - i - 1]));
        assert Init(params[..n - i]) == params[..n - (i + 1)];
        i := i + 1;
      }
    }

    method FinishMethod(code: Code, fn: FnDecl) returns (co: CodeObject)
      requires code.Valid() && code.sym == FnCode(fn) && code.holes == {}
      ensures Compiles(co, fn)
    {
      hide Encoded, Pooled;
      Ranges.FnWithin(fn);
      forall k | 0 <= k < |code.sym| && IsJump(code.sym[k])
        ensures code.sym[k].addr <= |code.sym|
      {
        assert Ranges.Target(code.sym[k], |code.sym|);
      }
      co := code.Finish();
    }

    // ---------- statements ----------

    ghost function Loops(own: bool): set<object>
      reads this
    {
      if own && loopStack != [] then {Last(loopStack)} else {}
    }

    ghost function Patches(own: bool): seq<nat>
      reads this, Loops(own)
    {
      if own && loopStack != [] then Last(loopStack).patchlist else []
    }

    /** Where a `break` of this function leads; a function without a loop has none. */
    ghost function BreakTarget(own: bool): nat
      reads this, Loops(own)
    {
      if own && loopStack != [] then Last(loopStack).dest else 0
    }

    ghost predicate InLoop(own: bool)
      reads this, Here(), Buffer(), Loops(own)
    {
      Ready() && (own ==> loopStack != [] && Last(loopStack).Open(Last(units).sym, Last(units).holes))
    }

    /** Since `old`, `part` was appended; the only new holes belong to the innermost loop's label. */
    twostate predicate Generated(part: seq<Instr>, own: bool)
      requires old(units) != []
      reads this, Here(), Buffer(), Loops(own)
    {
      && InLoop(own) && units == old(units) && loopStack == old(loopStack)
      && Last(units).sym == old(Last(units).sym) + part
      && Grew(old(Last(units).holes), Last(units).holes, old(Last(units).used), old(Patches(own)), Patches(own), [], [])
      && (Last(units).bytecode == old(Last(units).bytecode) || fresh(Last(units).bytecode))
    }

    // ---------- patterns ----------

    /** Since `old`, `part` was appended to `code`; the only new holes belong to `next`. */
    static twostate predicate Tested(code: Code, part: seq<Instr>, next: Label)
      reads code, code.bytecode, next
    {
      && code.Valid() && code.sym == old(code.sym) + part && next.Open(code.sym, code.holes)
      && Grew(old(code.holes), code.holes, old(code.used), old(next.patchlist), next.patchlist, [], [])
      && (code.bytecode == old(code.bytecode) || fresh(code.bytecode))
    }

    /** Emit the test that ends every comparison of a pattern: go to `next` unless equal. */
    static method EmitEqual(code: Code, next: Label)
      requires code.Valid() && next.Open(code.sym, code.holes)
      modifies code, code.bytecode, next`patchlist
      ensures Tested(code, [CompareTop(Eq), JumpIfFalse(next.dest)], next)
    {
      hide Encoded, Pooled;
      ghost var holes := code.holes;
      code.Plain(CompareTop(Eq));
      StillOpen(next, old(code.sym), holes, code.sym, holes);
      code.JumpTo(JumpIfFalse(0), next);
      TwoWords(old(code.sym), CompareTop(Eq), JumpIfFalse(next.dest));
    }

    static method EmitClassTest(code: Code, push: Instr, next: Label)
      requires code.Valid() && next.Open(code.sym, code.holes) && (push.PushConst? || push.PushName?)
      modifies code, code.bytecode, next`patchlist
      ensures Tested(code, ClassTest(push, next.dest), next)
    {
      hide Encoded, Pooled;
      ghost var sym := code.sym;
      code.Plain(Dup);
      code.Plain(GetClass);
      if push.PushConst? {
        code.PushConstant(push.v);
      } else {
        code.Named(push);
      }
      ThreeWords(sym, Dup, GetClass, push);
      StillOpen(next, sym, code.holes, code.sym, code.holes);
      EmitEqual(code, next);
      Assoc(sym, [Dup, GetClass, push], [CompareTop(Eq), JumpIfFalse(next.dest)]);
    }

    static method EmitSizeTest(code: Code, n: nat, next: Label)
      requires code.Valid() && next.Open(code.sym, code.holes)
      modifies code, code.bytecode, next`patchlist
      ensures Tested(code, SizeTest(n, next.dest), next)
    {
      hide Encoded, Pooled;
      ghost var sym := code.sym;
      code.Plain(Dup);
      code.Named(GetAttr("size"));
      code.Counted(Call(0));
      code.PushConstant(Int(n));
      FourWords(sym, Dup, GetAttr("size"), Call(0), PushConst(Int(n)));
      StillOpen(next, sym, code.holes, code.sym, code.holes);
      EmitEqual(code, next);
      Assoc(sym, [Dup, GetAttr("size"), Call(0), PushConst(Int(n))], [CompareTop(Eq), JumpIfFalse(next.dest)]);
    }

    static method EmitLitTest(code: Code, v: Value, next: Label)
      requires code.Valid() && next.Open(code.sym, code.holes)
      modifies code, code.bytecode, next`patchlist
      ensures Tested(code, [Dup, PushConst(v), CompareTop(Eq), JumpIfFalse(next.dest)], next)
    {
      hide Encoded, Pooled;
      ghost var sym := code.sym;
      code.Plain(Dup);
      code.PushConstant(v);
      TwoWords(sym, Dup, PushConst(v));
      StillOpen(next, sym, code.holes, code.sym, code.holes);
      EmitEqual(code, next);
      Assoc(sym, [Dup, PushConst(v)], [CompareTop(Eq), JumpIfFalse(next.dest)]);
    }

    static method EmitFetch(code: Code, key: Value)
      requires code.Valid()
      modifies code, code.bytecode
      ensures code.Valid() && code.sym == old(code.sym) + [Dup, PushConst(key), GetItem] && code.holes == old(code.holes)
      ensures code.bytecode == old(code.bytecode) || fresh(code.bytecode)
    {
      hide Encoded, Pooled;
      code.Plain(Dup);
      code.PushConstant(key);
      code.Plain(GetItem);
      ThreeWords(old(code.sym), Dup, PushConst(key), GetItem);
    }

    /** Whether the compiler can take the pattern, with `bound` variables bound so far. */
    static predicate Takes(p: Expr, depth: nat, bound: nat) {
      PatOk(p, depth) && bound + PatCount(p) <= MAX_BIND_VARS
    }

    static method CompilePattern(code: Code, p: Expr, binder: Binder, next: Label) returns (ok: bool)
      requires code.Valid() && PatScoped(p) && next.Open(code.sym, code.holes)
      requires |binder.path| <= MAX_BIND_PATH && |binder.vars| <= MAX_BIND_VARS
      modifies code, code.bytecode, binder, next`patchlist
      ensures ok == Takes(p, old(|binder.path|), old(|binder.vars|))
      ensures ok ==> Tested(code, PatCode(p, old(code.used), next.dest), next)
      ensures ok ==> binder.path == old(binder.path) && binder.vars == old(binder.vars) + PatVars(p, old(binder.path))
      decreases p, 2
    {
      hide Encoded, Pooled, Grew, Waiting, Label.Open, PairsCode, ItemsCode, PairsVars, ItemsVars, PairsOk, ItemsOk, PairsCount, ItemsCount, PatsScoped;
      GrewNot(code.holes, code.used, next.patchlist);
      match p
      case Lit(v) =>
        EmitLitTest(code, v, next);
        ok := true;
      case NilLit =>
        EmitClassTest(code, PushConst(Class("nil")), next);
        ok := true;
      case Ident(id) =>
        ok := |binder.vars| < MAX_BIND_VARS;
        if ok {
          binder.vars := binder.vars + [(id, binder.path)];
        }
      case ArrayLit(_) =>
        ok := |binder.path| < MAX_BIND_PATH;
        if !ok { return; }
        binder.path := binder.path + [Int(0)];
        ok := CompileArrayPattern(code, p, binder, next);
        if !ok { return; }
        binder.path := Init(binder.path);
      case HashLit(_) =>
        ok := |binder.path| < MAX_BIND_PATH;
        if !ok { return; }
        binder.path := binder.path + [Null];
        ok := CompileHashPattern(code, p, binder, next);
        if !ok { return; }
        binder.path := Init(binder.path);
      case Wildcard => ok := true;
      case _ => ok := false;
    }

    static method CompileArrayPattern(code: Code, p: Expr, binder: Binder, next: Label) returns (ok: bool)
      requires p.ArrayLit? && code.Valid() && PatScoped(p) && next.Open(code.sym, code.holes)
      requires 0 < |binder.path| <= MAX_BIND_PATH && |binder.vars| <= MAX_BIND_VARS
      modifies code, code.bytecode, binder, next`patchlist
      ensures ok == Takes(p, old(|binder.path|) - 1, old(|binder.vars|))
      ensures ok ==> Tested(code, PatCode(p, old(code.used), next.dest), next)
      ensures ok ==> |binder.path| == old(|binder.path|) && Init(binder.path) == Init(old(binder.path))
      ensures ok ==> binder.vars == old(binder.vars) + PatVars(p, Init(old(binder.path)))
      decreases p, 1
    {
      hide Encoded, Pooled, PatCode, ItemsCode, ItemsVars, ItemsOk, ItemsCount, PatsScoped, Grew, ItemsSize, ArrayRest;
      ghost var sym, at, h0, p0 := code.sym, code.used, code.holes, next.patchlist;
      EmitHead(code, "array", |p.items|, next);
      ghost var n1, h1, p1 := code.used, code.holes, next.patchlist;
      ok := CompileArrayRest(code, p, binder, next);
      if !ok { return; }
      GrewThen(h0, h1, code.holes, at, n1, p0, p1, next.patchlist, [], [], []);
      ArrayPatShape(sym, p.items, at, next.dest);
    }

    /** The class test and the size test that start an array or a hash pattern. */
    static method EmitHead(code: Code, className: Name, n: nat, next: Label)
      requires code.Valid() && next.Open(code.sym, code.holes)
      modifies code, code.bytecode, next`patchlist
      ensures Tested(code, ClassTest(PushName(className), next.dest) + SizeTest(n, next.dest), next)
    {
      hide Encoded, Pooled, Grew, ClassTest, SizeTest;
      ghost var sym, at, h0, p0 := code.sym, code.used, code.holes, next.patchlist;
      EmitClassTest(code, PushName(className), next);
      ghost var n1, h1, p1 := code.used, code.holes, next.patchlist;
      EmitSizeTest(code, n, next);
      GrewThen(h0, h1, code.holes, at, n1, p0, p1, next.patchlist, [], [], []);
      Assoc(sym, ClassTest(PushName(className), next.dest), SizeTest(n, next.dest));
    }

    static method CompileArrayRest(code: Code, p: Expr, binder: Binder, next: Label) returns (ok: bool)
      requires p.ArrayLit? && code.Valid() && PatScoped(p) && next.Open(code.sym, code.holes)
      requires 0 < |binder.path| <= MAX_BIND_PATH && |binder.vars| <= MAX_BIND_VARS
      modifies code, code.bytecode, binder, next`patchlist
      ensures ok == Takes(p, old(|binder.path|) - 1, old(|binder.vars|))
      ensures ok ==> Tested(code, ArrayRest(p.items, old(code.used), next.dest), next)
      ensures ok ==> |binder.path| == old(|binder.path|) && Init(binder.path) == Init(old(binder.path))
      ensures ok ==> binder.vars == old(binder.vars) + PatVars(p, Init(old(binder.path)))
      decreases p, 0
    {
      hide Encoded, Pooled, ItemsCode, ItemsVars, ItemsOk, ItemsCount, PatsScoped, Grew;
      ghost var sym2, n2, h2, p2 := code.sym, code.used, code.holes, next.patchlist;
      var popLabel := new Label(code.used + 1 + ItemsSize(p.items));
      var endLabel := new Label(popLabel.dest + 2);
      ok := CompileItems(code, p.items, binder, popLabel);
      if !ok { return; }
      ghost var sym3, n3, h3, q := code.sym, code.used, code.holes, popLabel.patchlist;
      GrewKeeps(h2, h3, n2, [], q, next.patchlist);
      StillOpen(next, sym2, h2, sym3, h3);
      GrewNew(h2, h3, n2, [], q, next.patchlist);
      EmitPopExit(code, popLabel, endLabel, next);
      GrewNot(h2, n2, p2);
      GrewClose(h2, h2, h3, n2, n2, p2, p2, q, n3 + 2);
      assert code.holes == h3 - (set p | p in q) + {n3 + 2};
      assert next.patchlist == p2 + [n3 + 2];
      Assoc(sym2, ItemsCode(p.items, 0, n2, popLabel.dest), [Jump(endLabel.dest), Pop, Jump(next.dest)]);
    }

    /** The end of an array pattern: skip the code at `pop`, which drops the item that failed. */
    static method EmitPopExit(code: Code, popLabel: Label, endLabel: Label, next: Label)
      requires code.Valid() && popLabel != endLabel && endLabel != next && popLabel != next
      requires popLabel.Open(code.sym, code.holes) && popLabel.dest == code.used + 1
      requires endLabel.Open(code.sym, code.holes) && endLabel.patchlist == [] && endLabel.dest == code.used + 3
      requires next.Open(code.sym, code.holes) && (forall p :: p in next.patchlist ==> p !in popLabel.patchlist)
      modifies code, code.bytecode, popLabel, endLabel, next`patchlist
      ensures code.Valid() && next.Open(code.sym, code.holes)
      ensures code.sym == old(code.sym) + [Jump(endLabel.dest), Pop, Jump(next.dest)]
      ensures next.patchlist == old(next.patchlist) + [old(code.used) + 2]
      ensures code.holes == old(code.holes) - (set p | p in old(popLabel.patchlist)) + {old(code.used) + 2}
      ensures code.bytecode == old(code.bytecode) || fresh(code.bytecode)
    {
      hide Encoded, Pooled;
      EmitSkip(code, popLabel, endLabel, next);
      code.JumpTo(Jump(0), next);
      ThreeWords(old(code.sym), Jump(endLabel.dest), Pop, Jump(next.dest));
      code.UseLabel(endLabel);
    }

    static method EmitSkip(code: Code, popLabel: Label, endLabel: Label, next: Label)
      requires code.Valid() && popLabel != endLabel && endLabel != next && popLabel != next
      requires popLabel.Open(code.sym, code.holes) && popLabel.dest == code.used + 1
      requires endLabel.Open(code.sym, code.holes) && endLabel.patchlist == []
      requires next.Open(code.sym, code.holes) && (forall p :: p in next.patchlist ==> p !in popLabel.patchlist)
      modifies code, code.bytecode, popLabel, endLabel`patchlist
      ensures code.Valid() && code.sym == old(code.sym) + [Jump(endLabel.dest)] + [Pop]
      ensures next.Open(code.sym, code.holes) && endLabel.Open(code.sym, code.holes) && endLabel.patchlist == [old(code.used)]
      ensures code.holes == old(code.holes) + {old(code.used)} - (set p | p in old(popLabel.patchlist))
      ensures code.bytecode == old(code.bytecode) || fresh(code.bytecode)
    {
      hide Encoded, Pooled;
      code.JumpTo(Jump(0), endLabel);
      StillOpen(popLabel, old(code.sym), old(code.holes), code.sym, code.holes);
      StillOpen(next, old(code.sym), old(code.holes), code.sym, code.holes);
      code.UseLabel(popLabel);
      code.Plain(Pop);
    }

    static method CompileHashPattern(code: Code, p: Expr, binder: Binder, next: Label) returns (ok: bool)
      requires p.HashLit? && code.Valid() && PatScoped(p) && next.Open(code.sym, code.holes)
      requires 0 < |binder.path| <= MAX_BIND_PATH && |binder.vars| <= MAX_BIND_VARS
      modifies code, code.bytecode, binder, next`patchlist
      ensures ok == Takes(p, old(|binder.path|) - 1, old(|binder.vars|))
      ensures ok ==> Tested(code, PatCode(p, old(code.used), next.dest), next)
      ensures ok ==> |binder.path| == old(|binder.path|) && Init(binder.path) == Init(old(binder.path))
      ensures ok ==> binder.vars == old(binder.vars) + PatVars(p, Init(old(binder.path)))
      decreases p, 1
    {
      hide Encoded, Pooled, PatCode, PairsCode, PairsVars, PairsOk, PairsCount, PatsScoped, Grew;
      ghost var sym, at, h0, p0 := code.sym, code.used, code.holes, next.patchlist;
      EmitHead(code, "hash", |p.items| / 2, next);
      ghost var n2, h2, p2 := code.used, code.holes, next.patchlist;
      ok := CompilePairs(code, p.items, binder, next);
      if !ok { return; }
      GrewThen(h0, h2, code.holes, at, n2, p0, p2, next.patchlist, [], [], []);
      HashPatShape(sym, p.items, at, next.dest);
    }

    /** The pairs of a hash pattern. A failing value leads to `next` and stays on the stack. */
    static method CompilePairs(code: Code, ps: seq<Expr>, binder: Binder, next: Label) returns (ok: bool)
      requires code.Valid() && |ps| % 2 == 0 && PatsScoped(ps) && next.Open(code.sym, code.holes)
      requires 0 < |binder.path| <= MAX_BIND_PATH && |binder.vars| <= MAX_BIND_VARS
      modifies code, code.bytecode, binder, next`patchlist
      ensures ok == (PairsOk(ps, old(|binder.path|)) && old(|binder.vars|) + PairsCount(ps) <= MAX_BIND_VARS)
      ensures ok ==> Tested(code, PairsCode(ps, old(code.used), next.dest), next)
      ensures ok ==> |binder.path| == old(|binder.path|) && Init(binder.path) == Init(old(binder.path))
      ensures ok ==> binder.vars == old(binder.vars) + PairsVars(ps, Init(old(binder.path)))
      decreases ps, 0
    {
      hide Code.Valid, PatCode, PatOk, PatScoped, PatVars, PatCount, PatSize, Grew, PairsCode, PairsVars, PairsCount, PairsOk, PatsScoped, ItemCode, Waiting, Label.Open;
      code.ValidUsed();
      ghost var sym, whole := code.sym, code.sym + PairsCode(ps, code.used, next.dest);
      ghost var base, bound := Init(binder.path), binder.vars + PairsVars(ps, Init(binder.path));
      ghost var depth, count := |binder.path|, |binder.vars| + PairsCount(ps);
      var i := 0;
      assert ps[0..] == ps;
      GrewNot(code.holes, code.used, next.patchlist);
      while i < |ps|
        invariant i <= |ps| && i % 2 == 0 && code.Valid() && next.Open(code.sym, code.holes) && PatsScoped(ps[i..])
        invariant code.bytecode == old(code.bytecode) || fresh(code.bytecode)
        invariant sym <= code.sym && code.sym + PairsCode(ps[i..], code.used, next.dest) == whole
        invariant Grew(old(code.holes), code.holes, old(code.used), old(next.patchlist), next.patchlist, [], [])
        invariant |binder.path| == depth && Init(binder.path) == base && |binder.vars| <= MAX_BIND_VARS
        invariant binder.vars + PairsVars(ps[i..], base) == bound && |binder.vars| + PairsCount(ps[i..]) == count
        invariant PairsOk(ps, depth) == PairsOk(ps[i..], depth)
      {
        code.ValidUsed();
        PairsStep(ps, i, depth);
        PairsShape(code.sym, ps[i..], code.used, next.dest);
        PairsVarsStep(binder.vars, ps[i..], base);
        ghost var h, n, q := code.holes, code.used, next.patchlist;
        ok := CompilePair(code, ps[i], ps[i + 1], binder, next);
        if !ok { return; }
        code.ValidUsed();
        GrewThen(old(code.holes), h, code.holes, old(code.used), n, old(next.patchlist), q, next.patchlist, [], [], []);
        i := i + 2;
      }
      PairsDone(ps[i..], depth, base, code.used, next.dest);
      ok := true;
    }

    static method CompilePair(code: Code, k: Expr, p: Expr, binder: Binder, next: Label) returns (ok: bool)
      requires code.Valid() && PatScoped(p) && next.Open(code.sym, code.holes)
      requires 0 < |binder.path| <= MAX_BIND_PATH && |binder.vars| <= MAX_BIND_VARS
      modifies code, code.bytecode, binder, next`patchlist
      ensures ok == ((k.Lit? || k.NilLit?) && Takes(p, old(|binder.path|), old(|binder.vars|)))
      ensures ok ==> Tested(code, ItemCode(p, KeyConst(k), old(code.used), next.dest), next)
      ensures ok ==> binder.path == Init(old(binder.path)) + [KeyConst(k)]
      ensures ok ==> binder.vars == old(binder.vars) + PatVars(p, binder.path)
      decreases p, 3
    {
      hide Code.Valid, PatCode, PatOk, PatScoped, PatVars, PatCount, PatSize;
      ok := k.Lit? || k.NilLit?;
      if !ok { return; }
      var key := if k.Lit? then k.v else Nil;
      ghost var holes := code.holes;
      code.ValidUsed();
      EmitFetch(code, key);
      binder.path := Init(binder.path) + [key];
      code.ValidUsed();
      StillOpen(next, old(code.sym), holes, code.sym, holes);
      ok := CompilePattern(code, p, binder, next);
      if !ok { return; }
      code.ValidUsed();
      code.Plain(Pop);
    }

    /** The items of an array pattern; a failing item leads to `pop`. */
    static method CompileItems(code: Code, ps: seq<Expr>, binder: Binder, pop: Label) returns (ok: bool)
      requires code.Valid() && PatsScoped(ps) && pop.Open(code.sym, code.holes)
      requires 0 < |binder.path| <= MAX_BIND_PATH && |binder.vars| <= MAX_BIND_VARS
      modifies code, code.bytecode, binder, pop`patchlist
      ensures ok == (ItemsOk(ps, old(|binder.path|)) && old(|binder.vars|) + ItemsCount(ps) <= MAX_BIND_VARS)
      ensures ok ==> Tested(code, ItemsCode(ps, 0, old(code.used), pop.dest), pop)
      ensures ok ==> |binder.path| == old(|binder.path|) && Init(binder.path) == Init(old(binder.path))
      ensures ok ==> binder.vars == old(binder.vars) + ItemsVars(ps, 0, Init(old(binder.path)))
      decreases ps, 0
    {
      hide Encoded, Pooled, PatCode, PatOk, PatScoped, PatVars, PatCount, PatSize, Grew, ItemsCode;
      ghost var sym, whole := code.sym, code.sym + ItemsCode(ps, 0, code.used, pop.dest);
      ghost var base, bound := Init(binder.path), binder.vars + ItemsVars(ps, 0, Init(binder.path));
      ghost var depth, count := |binder.path|, |binder.vars| + ItemsCount(ps);
      var i := 0;
      assert ps[0..] == ps;
      GrewNot(code.holes, code.used, pop.patchlist);
      while i < |ps|
        invariant i <= |ps| && code.Valid() && pop.Open(code.sym, code.holes) && PatsScoped(ps[i..])
        invariant code.bytecode == old(code.bytecode) || fresh(code.bytecode)
        invariant sym <= code.sym && code.sym + ItemsCode(ps[i..], i, code.used, pop.dest) == whole
        invariant Grew(old(code.holes), code.holes, old(code.used), old(pop.patchlist), pop.patchlist, [], [])
        invariant |binder.path| == depth && Init(binder.path) == base && |binder.vars| <= MAX_BIND_VARS
        invariant binder.vars + ItemsVars(ps[i..], i, base) == bound && |binder.vars| + ItemsCount(ps[i..]) == count
        invariant ItemsOk(ps, depth) == ItemsOk(ps[i..], depth)
      {
        assert ps[i..][1..] == ps[i + 1..];
        ItemsShape(code.sym, ps[i..], i, code.used, pop.dest);
        ItemsVarsStep(binder.vars, ps[i..], i, base);
        ghost var h, n, q := code.holes, code.used, pop.patchlist;
        ok := CompileItem(code, ps[i], i, binder, pop);
        if !ok { return; }
        GrewThen(old(code.holes), h, code.holes, old(code.used), n, old(pop.patchlist), q, pop.patchlist, [], [], []);
        i := i + 1;
      }
      assert ps[i..] == [];
      ok := true;
    }

    static method CompileItem(code: Code, p: Expr, i: nat, binder: Binder, pop: Label) returns (ok: bool)
      requires code.Valid() && PatScoped(p) && pop.Open(code.sym, code.holes)
      requires 0 < |binder.path| <= MAX_BIND_PATH && |binder.vars| <= MAX_BIND_VARS
      modifies code, code.bytecode, binder, pop`patchlist
      ensures ok == Takes(p, old(|binder.path|), old(|binder.vars|))
      ensures ok ==> Tested(code, ItemCode(p, Int(i), old(code.used), pop.dest), pop)
      ensures ok ==> binder.path == Init(old(binder.path)) + [Int(i)]
      ensures ok ==> binder.vars == old(binder.vars) + PatVars(p, binder.path)
      decreases p, 3
    {
      hide Code.Valid, PatCode, PatOk, PatScoped, PatVars, PatCount, PatSize;
      ghost var holes := code.holes;
      code.ValidUsed();
      EmitFetch(code, Int(i));
      binder.path := Init(binder.path) + [Int(i)];
      code.ValidUsed();
      StillOpen(pop, old(code.sym), holes, code.sym, holes);
      ok := CompilePattern(code, p, binder, pop);
      if !ok { return; }
      code.ValidUsed();
      code.Plain(Pop);
    }

    // ---------- statements ----------

    method CompileStmts(ss: seq<Stmt>, ghost own: bool) returns (ok: bool)
      requires InLoop(own) && StmtsScoped(ss, own, loopStack != [])
      modifies this, Here(), Buffer(), Loops(own)
      ensures ok == StmtsOk(ss, own, false)
      ensures ok ==> Generated(StmtsCode(ss, old(Last(units).used), old(BreakTarget(own))), own)
      ensures ok ==> Domain(methods) == old(Domain(methods)) + StmtsFns(ss)
      decreases ss, 0
    {
      hide Code.Valid, Label.Open, Waiting, AllCompile, Domain, StmtCode, StmtOk, StmtScoped, StmtsCode, StmtsSize, StmtSize, StmtFns, Grew;
      var code := Last(units);
      code.ValidUsed();
      LoopPatches(own);
      ghost var brk := BreakTarget(own);
      ghost var sym, whole := code.sym, code.sym + StmtsCode(ss, code.used, brk);
      var i := 0;
      assert ss[0..] == ss;
      GrewNot(code.holes, code.used, Patches(own));
      while i < |ss|
        invariant i <= |ss| && InLoop(own) && Last(units) == code && units == old(units) && loopStack == old(loopStack)
        invariant code.bytecode == old(code.bytecode) || fresh(code.bytecode)
        invariant sym <= code.sym && code.sym + StmtsCode(ss[i..], code.used, brk) == whole
        invariant Grew(old(code.holes), code.holes, old(code.used), old(Patches(own)), Patches(own), [], [])
        invariant Domain(methods) + StmtsFns(ss[i..]) == old(Domain(methods)) + StmtsFns(ss)
        invariant StmtsScoped(ss[i..], own, loopStack != []) && StmtsOk(ss, own, false) == StmtsOk(ss[i..], own, false)
      {
        assert ss[i..][1..] == ss[i + 1..];
        code.ValidUsed();
        StmtsShape(code.sym, ss[i..], code.used, brk);
        ghost var h, n, q, fns := code.holes, code.used, Patches(own), Domain(methods);
        ok := CompileStmt(ss[i], own);
        if !ok { return; }
        code.ValidUsed();
        FnsAssoc(fns, StmtFns(ss[i]), StmtsFns(ss[i + 1..]));
        GrewThen(old(code.holes), h, code.holes, old(code.used), n, old(Patches(own)), q, Patches(own), [], [], []);
        i := i + 1;
      }
      assert ss[i..] == [];
      FnsNone(Domain(methods));
      NoStmts(code.used, brk);
      ok := true;
    }

    method CompileStmt(s: Stmt, ghost own: bool) returns (ok: bool)
      requires InLoop(own) && StmtScoped(s, own, loopStack != [])
      modifies this, Here(), Buffer(), Loops(own)
      ensures ok == StmtOk(s, own, false)
      ensures ok ==> Generated(StmtCode(s, old(Last(units).used), old(BreakTarget(own))), own)
      ensures ok ==> Domain(methods) == old(Domain(methods)) + StmtFns(s)
      decreases s, 5
    {
      hide Encoded, Pooled, AllCompile, Domain, StmtCode;
      if s.If? {
        ok := CompileIf(s, own);
      } else if s.IfElse? {
        ok := CompileIfElse(s, own);
      } else if s.Match? {
        ok := CompileMatch(s, own);
      } else if s.Break? {
        ok := CompileBreak(own);
      } else {
        ok := CompileOther(s, own);
      }
    }

    /** Code that leaves no hole behind leaves none for the loop's label either. */
    method CompileOther(s: Stmt, ghost own: bool) returns (ok: bool)
      requires InLoop(own) && StmtScoped(s, own, loopStack != []) && !(s.If? || s.IfElse? || s.Match? || s.Break?)
      modifies this, Here(), Buffer()
      ensures ok == StmtOk(s, own, false)
      ensures ok ==> Generated(StmtCode(s, old(Last(units).used), old(BreakTarget(own))), own)
      ensures ok ==> Domain(methods) == old(Domain(methods)) + StmtFns(s)
      decreases s, 4
    {
      hide Encoded, Pooled, AllCompile, Domain, StmtCode;
      ok := CompileSimple(s, BreakTarget(own));
      if ok && own {
        StillOpen(Last(loopStack), old(Last(units).sym), old(Last(units).holes), Last(units).sym, Last(units).holes);
      }
    }

    /** The statements that contain no `break` of an enclosing loop. */
    method CompileSimple(s: Stmt, ghost brk: nat) returns (ok: bool)
      requires Ready() && (s.While? || s.ExprStmt? || s.Assign? || s.VarDecl? || s.VarInit? || s.FuncDecl? || s.RetNil? || s.Ret?)
      requires StmtScoped(s, false, loopStack != [])
      modifies this, Here(), Buffer()
      ensures ok == StmtOk(s, false, false)
      ensures ok ==> Emitted(StmtCode(s, old(Last(units).used), brk))
      ensures ok ==> Domain(methods) == old(Domain(methods)) + StmtFns(s)
      decreases s, 3
    {
      hide Code.Valid, AllCompile, Domain, StmtsOk, StmtsScoped, StmtsCode, ExprCode, ExprOk, ExprScoped;
      Last(units).ValidUsed();
      if s.While? {
        ok := CompileWhile(s, brk);
      } else if s.FuncDecl? {
        ok := CompileFunction(s, brk);
      } else if s.ExprStmt? || s.Ret? {
        ok := CompileExpr(s.e);
        if ok {
          Last(units).Plain(if s.Ret? then RetTop else Pop);
        }
      } else if s.Assign? || s.VarInit? {
        ok := CompileExpr(s.e);
        if ok {
          Last(units).Named(StoreName(s.id));
        }
      } else {
        if s.RetNil? {
          EmitRetNil(Last(units));
        }
        ok := true;
      }
    }

    static method EmitRetNil(code: Code)
      requires code.Valid()
      modifies code, code.bytecode
      ensures code.Valid() && code.sym == old(code.sym) + [PushNil, RetTop] && code.holes == old(code.holes)
      ensures code.bytecode == old(code.bytecode) || fresh(code.bytecode)
    {
      hide Encoded, Pooled;
      code.Plain(PushNil);
      code.Plain(RetTop);
      TwoWords(old(code.sym), PushNil, RetTop);
    }

    /** A function declared by a statement is stored without capturing anything. */
    method CompileFunction(s: Stmt, ghost brk: nat) returns (ok: bool)
      requires Ready() && s.FuncDecl? && StmtScoped(s, false, loopStack != [])
      modifies this, Here(), Buffer()
      ensures ok == StmtOk(s, false, false)
      ensures ok ==> Emitted(StmtCode(s, old(Last(units).used), brk))
      ensures ok ==> Domain(methods) == old(Domain(methods)) + StmtFns(s)
      decreases s, 2
    {
      hide Encoded, Pooled, AllCompile, Domain, StmtsScoped;
      var code := Last(units);
      ok := CompileMethod(s.fn);
      if !ok { return; }
      code.PushConstant(Method(s.fn));
      code.Named(StoreName(s.id));
      TwoWords(old(code.sym), PushConst(Method(s.fn)), StoreName(s.id));
    }

    method CompileWhile(s: Stmt, ghost brk: nat) returns (ok: bool)
      requires Ready() && s.While? && StmtScoped(s, false, loopStack != [])
      modifies this, Here(), Buffer()
      ensures ok == StmtOk(s, false, false)
      ensures ok ==> Emitted(StmtCode(s, old(Last(units).used), brk))
      ensures ok ==> Domain(methods) == old(Domain(methods)) + StmtFns(s)
      decreases s, 2
    {
      hide Code.Valid, AllCompile, Domain, StmtsOk, StmtsScoped, StmtsCode, StmtCode, ExprCode, ExprOk, ExprScoped, Grew, ExprSize, StmtsSize, ExprFns, StmtsFns;
      var code := Last(units);
      code.ValidUsed();
      ghost var sym, at, h0 := code.sym, code.used, code.holes;
      var startBody := new Label(at);
      code.UseLabel(startBody);
      ok := CompileExpr(s.cond);
      if !ok { return; }
      code.ValidUsed();
      ok := CompileLoop(s, startBody);
      if !ok { return; }
      FnsAssoc(old(Domain(methods)), ExprFns(s.cond), StmtsFns(s.body));
      WhileShape(sym, s, at, brk);
    }

    /** The loop after its condition: a label for its end goes on the loop stack while the
        body is compiled. */
    method CompileLoop(s: Stmt, startBody: Label) returns (ok: bool)
      requires Ready() && s.While? && StmtsScoped(s.body, true, true)
      requires startBody.inUse && startBody.addr == startBody.dest
      modifies this, Here(), Buffer(), startBody`patchlist
      ensures ok == StmtsOk(s.body, true, false)
      ensures ok ==> var body := old(Last(units).used) + 1;
        var end := body + StmtsSize(s.body) + 1;
        Emitted([JumpIfFalse(end)] + StmtsCode(s.body, body, end) + [Jump(startBody.dest)])
      ensures ok ==> Domain(methods) == old(Domain(methods)) + StmtsFns(s.body)
      decreases s, 0
    {
      hide Encoded, Pooled, AllCompile, Domain, StmtsOk, StmtsScoped, StmtsCode, Grew, StmtsSize, Waiting, Label.Open;
      var code := Last(units);
      ghost var sym, h0, j := code.sym, code.holes, code.used;
      var endBody := EnterLoop(code.used + 2 + StmtsSize(s.body));
      ok := CompileStmts(s.body, true);
      if !ok { return; }
      ghost var h2, p1 := code.holes, endBody.patchlist;
      assert Grew(h0 + {j}, h2, j + 1, [j], p1, [], []);
      EndLoop(startBody, endBody);
      LoopShape(sym, JumpIfFalse(endBody.dest), StmtsCode(s.body, j + 1, endBody.dest), Jump(startBody.dest));
      GrewLoop(h0, h2, j, j, p1);
    }

    method BeginLoop(ghost dest: nat) returns (endBody: Label)
      modifies this`loopStack
      ensures fresh(endBody) && endBody.dest == dest && !endBody.inUse && endBody.patchlist == []
      ensures loopStack == old(loopStack) + [endBody]
    {
      endBody := new Label(dest);
      loopStack := loopStack + [endBody];
    }

    /** Leave the loop when its condition is false. */
    method EnterLoop(ghost dest: nat) returns (endBody: Label)
      requires Ready()
      modifies this`loopStack, Here(), Buffer()
      ensures fresh(endBody) && endBody.dest == dest && loopStack == old(loopStack) + [endBody]
      ensures InLoop(true) && endBody.patchlist == [old(Last(units).used)]
      ensures Last(units).sym == old(Last(units).sym) + [JumpIfFalse(dest)]
      ensures Last(units).holes == old(Last(units).holes) + {old(Last(units).used)}
      ensures Last(units).bytecode == old(Last(units).bytecode) || fresh(Last(units).bytecode)
    {
      hide Encoded, Pooled, AllCompile, Domain;
      endBody := BeginLoop(dest);
      Last(units).JumpTo(JumpIfFalse(0), endBody);
    }

    /** Jump back to the start of the loop and place the label of its end. */
    method EndLoop(startBody: Label, endBody: Label)
      requires Ready() && loopStack != [] && endBody == Last(loopStack) && startBody != endBody
      requires startBody.inUse && startBody.addr == startBody.dest
      requires endBody.Open(Last(units).sym, Last(units).holes) && endBody.dest == Last(units).used + 1
      modifies this`loopStack, Here(), Buffer(), startBody`patchlist, endBody
      ensures Ready() && loopStack == Init(old(loopStack))
      ensures Last(units).sym == old(Last(units).sym) + [Jump(startBody.dest)]
      ensures Last(units).holes == old(Last(units).holes) - (set p | p in old(endBody.patchlist))
      ensures Last(units).bytecode == old(Last(units).bytecode) || fresh(Last(units).bytecode)
    {
      hide Encoded, Pooled, AllCompile, Domain;
      var code := Last(units);
      ghost var sym, h := code.sym, code.holes;
      code.JumpTo(Jump(0), startBody);
      StillOpen(endBody, sym, h, code.sym, h) by { LoopHoles(endBody, sym, h); }
      loopStack := Init(loopStack);
      code.UseLabel(endBody);
    }

    lemma {:induction false} LoopHoles(l: Label, sym: seq<Instr>, holes: set<nat>)
      requires l.Open(sym, holes)
      ensures forall p :: p in l.patchlist ==> p in holes
    {
      forall p | p in l.patchlist
        ensures p in holes
      {
        assert Waiting(sym, holes, l.dest, p);
      }
    }

    /** The innermost loop's label stays open while code is appended and its holes remain. */
    lemma {:induction false} KeepLoop(code: Code, sym: seq<Instr>, holes: set<nat>, own: bool)
      requires own ==> loopStack != [] && Last(loopStack).Open(sym, holes)
      requires sym <= code.sym && (forall h :: h in Patches(own) ==> h in code.holes)
      ensures own ==> Last(loopStack).Open(code.sym, code.holes)
    {
      if own {
        StillOpen(Last(loopStack), sym, holes, code.sym, code.holes);
      }
    }

    /** Jump to a label that will be placed after the statements that follow. */
    method JumpForward(kind: Instr, label_: Label, ghost own: bool)
      requires InLoop(own) && IsJump(kind) && kind.addr == 0 && label_ !in Loops(own)
      requires !label_.inUse && label_.patchlist == []
      modifies Here(), Buffer(), label_`patchlist
      ensures InLoop(own) && label_.Open(Last(units).sym, Last(units).holes) && label_.patchlist == [old(Last(units).used)]
      ensures Last(units).sym == old(Last(units).sym) + [kind.(addr := label_.dest)]
      ensures Last(units).holes == old(Last(units).holes) + {old(Last(units).used)}
      ensures Last(units).bytecode == old(Last(units).bytecode) || fresh(Last(units).bytecode)
    {
      hide Encoded, Pooled, AllCompile, Domain;
      var code := Last(units);
      code.JumpTo(kind, label_);
      KeepLoop(code, old(code.sym), old(code.holes), own);
    }

    /** Place a label that the jump at `j` is waiting for. */
    method PlaceForward(label_: Label, ghost own: bool, ghost h0: set<nat>, ghost n0: nat, ghost j: nat, ghost p0: seq<nat>, ghost q: seq<nat>)
      requires InLoop(own) && label_ !in Loops(own) && label_.patchlist == [j] && label_.dest == Last(units).used
      requires label_.Open(Last(units).sym, Last(units).holes)
      requires Grew(h0 + {j}, Last(units).holes, j + 1, p0, Patches(own), [], q) && n0 <= j
      requires (forall h :: h in h0 ==> h < n0 || h in p0) && (forall p :: p in p0 ==> p < j)
      modifies Here(), Buffer(), label_
      ensures InLoop(own) && Last(units).sym == old(Last(units).sym) && Last(units).bytecode == old(Last(units).bytecode)
      ensures Last(units).holes == old(Last(units).holes) - {j}
      ensures Grew(h0, Last(units).holes, n0, p0, Patches(own), [], q)
    {
      hide Encoded, Pooled, AllCompile, Domain, Grew;
      var code := Last(units);
      ghost var h := code.holes;
      GrewInside(h0, h, n0, j, p0, Patches(own), q);
      code.UseLabel(label_);
      assert code.holes == h - {j};
      if own {
        assert forall p :: p in Patches(own) ==> Waiting(code.sym, h, Last(loopStack).dest, p);
      }
      KeepLoop(code, code.sym, h, own);
    }

    /** A condition, and the jump that leaves if it is false. */
    method CompileGuard(cond: Expr, label_: Label, ghost own: bool) returns (ok: bool)
      requires InLoop(own) && ExprScoped(cond, loopStack != [])
      requires label_ !in Loops(own) && !label_.inUse && label_.patchlist == []
      modifies this, Here(), Buffer(), label_`patchlist
      ensures ok == ExprOk(cond, false)
      ensures ok ==> Domain(methods) == old(Domain(methods)) + ExprFns(cond)
      ensures ok ==> InLoop(own) && units == old(units) && loopStack == old(loopStack)
      ensures ok ==> var j := old(Last(units).used) + ExprSize(cond);
        && Last(units).sym == old(Last(units).sym) + ExprCode(cond, old(Last(units).used)) + [JumpIfFalse(label_.dest)]
        && label_.Open(Last(units).sym, Last(units).holes) && label_.patchlist == [j]
        && Last(units).holes == old(Last(units).holes) + {j}
        && (Last(units).bytecode == old(Last(units).bytecode) || fresh(Last(units).bytecode))
      decreases cond, 2
    {
      hide Encoded, Pooled, AllCompile, Domain, ExprCode, ExprOk, ExprScoped, ExprSize, ExprFns;
      var code := Last(units);
      ghost var sym, h0 := code.sym, code.holes;
      ok := CompileExpr(cond);
      if !ok { return; }
      KeepLoop(code, sym, h0, own);
      JumpForward(JumpIfFalse(0), label_, own);
    }

    /** A condition and the statements it guards; the label for its failure stays open. */
    method CompileGuarded(s: Stmt, label_: Label, ghost own: bool) returns (ok: bool)
      requires InLoop(own) && (s.If? || s.IfElse?) && ExprScoped(s.cond, loopStack != []) && StmtsScoped(s.body, own, loopStack != [])
      requires label_ !in Loops(own) && !label_.inUse && label_.patchlist == []
      modifies this, Here(), Buffer(), Loops(own), label_`patchlist
      ensures ok == (ExprOk(s.cond, false) && StmtsOk(s.body, own, false))
      ensures ok ==> Domain(methods) == old(Domain(methods)) + ExprFns(s.cond) + StmtsFns(s.body)
      ensures ok ==> InLoop(own) && units == old(units) && loopStack == old(loopStack)
      ensures ok ==> var j := old(Last(units).used) + ExprSize(s.cond);
        && Last(units).sym == old(Last(units).sym) + ExprCode(s.cond, old(Last(units).used)) + [JumpIfFalse(label_.dest)]
                                + StmtsCode(s.body, j + 1, old(BreakTarget(own)))
        && label_.Open(Last(units).sym, Last(units).holes) && label_.patchlist == [j]
        && Grew(old(Last(units).holes) + {j}, Last(units).holes, j + 1, old(Patches(own)), Patches(own), [], [])
        && (Last(units).bytecode == old(Last(units).bytecode) || fresh(Last(units).bytecode))
      decreases s, 0
    {
      hide Code.Valid, StmtsFns, ExprFns, AllCompile, Domain, StmtsOk, StmtsScoped, StmtsCode, ExprCode, ExprOk, ExprScoped, ExprSize, StmtsSize;
      var code := Last(units);
      code.ValidUsed();
      ok := CompileGuard(s.cond, label_, own);
      if !ok { return; }
      code.ValidUsed();
      ghost var sym1, h1 := code.sym, code.holes;
      ok := CompileStmts(s.body, own);
      if !ok { return; }
      code.ValidUsed();
      StillOpen(label_, sym1, h1, code.sym, code.holes);
    }

    method CompileIf(s: Stmt, ghost own: bool) returns (ok: bool)
      requires InLoop(own) && StmtScoped(s, own, loopStack != []) && s.If?
      modifies this, Here(), Buffer(), Loops(own)
      ensures ok == StmtOk(s, own, false)
      ensures ok ==> Generated(StmtCode(s, old(Last(units).used), old(BreakTarget(own))), own)
      ensures ok ==> Domain(methods) == old(Domain(methods)) + StmtFns(s)
      decreases s, 2
    {
      hide Code.Valid, AllCompile, Domain, StmtsOk, StmtsScoped, StmtsCode, StmtCode, ExprCode, ExprOk, ExprScoped, Grew, ExprSize, StmtsSize, ExprFns, StmtsFns, Label.Open, Waiting;
      var code := Last(units);
      code.ValidUsed();
      ghost var sym, at, h0, p0 := code.sym, code.used, code.holes, Patches(own);
      LoopPatches(own);
      var endBody := new Label(at + StmtSize(s));
      ok := CompileGuarded(s, endBody, own);
      if !ok { return; }
      code.ValidUsed();
      FnsAssoc(old(Domain(methods)), ExprFns(s.cond), StmtsFns(s.body));
      PlaceForward(endBody, own, h0, at, at + ExprSize(s.cond), p0, []);
      code.ValidUsed();
      IfShape(sym, s, at, BreakTarget(own));
    }

    /** Between the two branches: jump to `endOrelse`, and place `endBody`, which the jump at
        `j` is waiting for. */
    method SwitchBranch(endBody: Label, endOrelse: Label, ghost own: bool, ghost h0: set<nat>, ghost j: nat, ghost p0: seq<nat>)
      requires InLoop(own) && endBody !in Loops(own) && endOrelse !in Loops(own) && endBody != endOrelse
      requires endBody.Open(Last(units).sym, Last(units).holes) && endBody.patchlist == [j] && endBody.dest == Last(units).used + 1
      requires !endOrelse.inUse && endOrelse.patchlist == []
      requires Grew(h0 + {j}, Last(units).holes, j + 1, p0, Patches(own), [], []) && j < Last(units).used
      requires (forall h :: h in h0 ==> h < j) && (forall p :: p in p0 ==> p < j)
      modifies Here(), Buffer(), endBody, endOrelse`patchlist
      ensures InLoop(own) && Last(units).sym == old(Last(units).sym) + [Jump(endOrelse.dest)]
      ensures Last(units).holes == old(Last(units).holes) - {j} + {old(Last(units).used)}
      ensures endOrelse.Open(Last(units).sym, Last(units).holes) && endOrelse.patchlist == [old(Last(units).used)]
      ensures Last(units).bytecode == old(Last(units).bytecode) || fresh(Last(units).bytecode)
    {
      hide Encoded, Pooled, AllCompile, Domain, Grew;
      var code := Last(units);
      ghost var sym, h, k := code.sym, code.holes, code.used;
      JumpForward(Jump(0), endOrelse, own);
      GrewWith(h0 + {j}, h, j + 1, p0, Patches(own), k);
      StillOpen(endBody, sym, h, code.sym, code.holes);
      ghost var sym1, h1 := code.sym, code.holes;
      PlaceForward(endBody, own, h0, j, j, p0, [k]);
      StillOpen(endOrelse, sym1, h1, code.sym, code.holes);
    }

    /** The second branch, and the label the jump at `k` over it is waiting for. */
    method CompileOrelse(s: Stmt, endOrelse: Label, ghost own: bool, ghost h: set<nat>, ghost k: nat) returns (ok: bool)
      requires InLoop(own) && s.IfElse? && StmtsScoped(s.orelse, own, loopStack != []) && endOrelse !in Loops(own)
      requires endOrelse.Open(Last(units).sym, Last(units).holes) && endOrelse.patchlist == [k]
      requires k + 1 == Last(units).used && endOrelse.dest == Last(units).used + StmtsSize(s.orelse)
      requires Last(units).holes == h + {k} && (forall x :: x in h ==> x < k) && (forall p :: p in Patches(own) ==> p < k)
      modifies this, Here(), Buffer(), Loops(own), endOrelse
      ensures ok == StmtsOk(s.orelse, own, false)
      ensures ok ==> Domain(methods) == old(Domain(methods)) + StmtsFns(s.orelse)
      ensures ok ==> InLoop(own) && units == old(units) && loopStack == old(loopStack)
      ensures ok ==> Last(units).sym == old(Last(units).sym) + StmtsCode(s.orelse, old(Last(units).used), old(BreakTarget(own)))
      ensures ok ==> Grew(h, Last(units).holes, k, old(Patches(own)), Patches(own), [], [])
      ensures ok ==> Last(units).bytecode == old(Last(units).bytecode) || fresh(Last(units).bytecode)
      decreases s, 0
    {
      hide Encoded, Pooled, AllCompile, Domain, StmtsOk, StmtsScoped, StmtsCode, StmtsSize;
      var code := Last(units);
      ghost var sym, h1, p0 := code.sym, code.holes, Patches(own);
      ok := CompileStmts(s.orelse, own);
      if !ok { return; }
      StillOpen(endOrelse, sym, h1, code.sym, code.holes);
      PlaceForward(endOrelse, own, h, k, k, p0, []);
    }

    /** Since `old`, the condition and the first branch were appended, with the jump over the
        second branch; `h` are the holes other than that jump's. */
    twostate predicate ThenDone(s: Stmt, endOrelse: Label, own: bool, h: set<nat>)
      requires old(units) != [] && s.IfElse?
      reads this, Here(), Buffer(), Loops(own), endOrelse
    {
      && InLoop(own) && units == old(units) && loopStack == old(loopStack)
      && var at := old(Last(units).used);
         var body := at + ExprSize(s.cond) + 1;
         var k := body + StmtsSize(s.body);
         && Last(units).sym == old(Last(units).sym) + ExprCode(s.cond, at) + [JumpIfFalse(k + 1)] + StmtsCode(s.body, body, old(BreakTarget(own)))
                                 + [Jump(endOrelse.dest)]
         && Last(units).used == k + 1 && Last(units).holes == h + {k} && (forall x :: x in h ==> x < k) && (forall p :: p in Patches(own) ==> p < k)
         && Grew(old(Last(units).holes), h, at, old(Patches(own)), Patches(own), [], [])
         && endOrelse.Open(Last(units).sym, Last(units).holes) && endOrelse.patchlist == [k]
         && (Last(units).bytecode == old(Last(units).bytecode) || fresh(Last(units).bytecode))
    }

    /** The first branch, up to and including the jump over the second. */
    method CompileThen(s: Stmt, endOrelse: Label, ghost own: bool) returns (ok: bool, ghost h: set<nat>)
      requires InLoop(own) && s.IfElse? && ExprScoped(s.cond, loopStack != []) && StmtsScoped(s.body, own, loopStack != [])
      requires endOrelse !in Loops(own) && !endOrelse.inUse && endOrelse.patchlist == []
      modifies this, Here(), Buffer(), Loops(own), endOrelse`patchlist
      ensures ok == (ExprOk(s.cond, false) && StmtsOk(s.body, own, false))
      ensures ok ==> Domain(methods) == old(Domain(methods)) + ExprFns(s.cond) + StmtsFns(s.body)
      ensures ok ==> ThenDone(s, endOrelse, own, h)
      decreases s, 1
    {
      hide Code.Valid, AllCompile, Domain, StmtsOk, StmtsScoped, StmtsCode, StmtCode, ExprCode, ExprOk, ExprScoped, Grew, ExprSize, StmtsSize, ExprFns, StmtsFns, Label.Open, Waiting;
      var code := Last(units);
      code.ValidUsed();
      ghost var at, h0, p0 := code.used, code.holes, Patches(own);
      ghost var j := at + ExprSize(s.cond);
      h := {};
      LoopPatches(own);
      var endBody := new Label(j + 2 + StmtsSize(s.body));
      ok := CompileGuarded(s, endBody, own);
      if !ok { return; }
      code.ValidUsed();
      h := code.holes - {j};
      CloseThen(endBody, endOrelse, own, h0, at, j, p0);
      code.ValidUsed();
    }

    /** The end of the first branch, whose condition left the jump at `j`. */
    method CloseThen(endBody: Label, endOrelse: Label, ghost own: bool, ghost h0: set<nat>, ghost at: nat, ghost j: nat, ghost p0: seq<nat>)
      requires InLoop(own) && endBody !in Loops(own) && endOrelse !in Loops(own) && endBody != endOrelse
      requires endBody.Open(Last(units).sym, Last(units).holes) && endBody.patchlist == [j] && endBody.dest == Last(units).used + 1
      requires !endOrelse.inUse && endOrelse.patchlist == [] && at <= j < Last(units).used
      requires Grew(h0 + {j}, Last(units).holes, j + 1, p0, Patches(own), [], [])
      requires (forall h :: h in h0 ==> h < at) && (forall p :: p in p0 ==> p < at)
      modifies Here(), Buffer(), endBody, endOrelse`patchlist
      ensures InLoop(own) && Last(units).sym == old(Last(units).sym) + [Jump(endOrelse.dest)]
      ensures var h, k := old(Last(units).holes) - {j}, old(Last(units).used);
        && Last(units).holes == h + {k} && (forall x :: x in h ==> x < k) && (forall p :: p in Patches(own) ==> p < k)
        && Grew(h0, h, at, p0, Patches(own), [], []) && endOrelse.patchlist == [k]
      ensures endOrelse.Open(Last(units).sym, Last(units).holes)
      ensures Last(units).bytecode == old(Last(units).bytecode) || fresh(Last(units).bytecode)
    {
      hide Code.Valid, AllCompile, Domain, Grew, Label.Open, Waiting;
      var code := Last(units);
      code.ValidUsed();
      LoopPatches(own);
      GrewInside(h0, code.holes, at, j, p0, Patches(own), []);
      SwitchBranch(endBody, endOrelse, own, h0, j, p0);
    }

    method CompileIfElse(s: Stmt, ghost own: bool) returns (ok: bool)
      requires InLoop(own) && StmtScoped(s, own, loopStack != []) && s.IfElse?
      modifies this, Here(), Buffer(), Loops(own)
      ensures ok == StmtOk(s, own, false)
      ensures ok ==> Generated(StmtCode(s, old(Last(units).used), old(BreakTarget(own))), own)
      ensures ok ==> Domain(methods) == old(Domain(methods)) + StmtFns(s)
      decreases s, 2
    {
      hide Label.Open, Waiting, Code.Valid, AllCompile, Domain, StmtsOk, StmtsScoped, StmtsCode, StmtCode, ExprCode, ExprOk, ExprScoped, Grew, ExprSize, StmtsSize, ExprFns, StmtsFns;
      var code := Last(units);
      code.ValidUsed();
      ghost var sym, at, h0, p0 := code.sym, code.used, code.holes, Patches(own);
      var endOrelse := new Label(at + StmtSize(s));
      ghost var h;
      ok, h := CompileThen(s, endOrelse, own);
      if !ok { return; }
      code.ValidUsed();
      ghost var k, p1 := code.used - 1, Patches(own);
      ok := CompileOrelse(s, endOrelse, own, h, k);
      if !ok { return; }
      FnsAssoc(old(Domain(methods)), ExprFns(s.cond), StmtsFns(s.body));
      FnsAssoc(old(Domain(methods)), ExprFns(s.cond) + StmtsFns(s.body), StmtsFns(s.orelse));
      code.ValidUsed();
      GrewThen(h0, h, code.holes, at, k, p0, p1, Patches(own), [], [], []);
      IfElseShape(sym, s, at, BreakTarget(own));
    }

    /** Store every variable a pattern binds: fetch its value along its path from the value
        that matched. */
    static method EmitBinds(code: Code, vars: seq<(Name, seq<Value>)>)
      requires code.Valid()
      modifies code, code.bytecode
      ensures code.Valid() && code.sym == old(code.sym) + BindsCode(vars) && code.holes == old(code.holes)
      ensures code.bytecode == old(code.bytecode) || fresh(code.bytecode)
    {
      hide Encoded, Pooled, BindsCode, WalkCode;
      ghost var sym, whole := code.sym, code.sym + BindsCode(vars);
      var i := 0;
      assert vars[0..] == vars;
      while i < |vars|
        invariant i <= |vars| && code.Valid() && code.holes == old(code.holes)
        invariant code.bytecode == old(code.bytecode) || fresh(code.bytecode)
        invariant sym <= code.sym && code.sym + BindsCode(vars[i..]) == whole
      {
        assert vars[i..][1..] == vars[i + 1..];
        BindsShape(code.sym, vars[i..]);
        code.Plain(Dup);
        EmitWalk(code, vars[i].1);
        code.Named(StoreName(vars[i].0));
        i := i + 1;
      }
      assert vars[i..] == [];
      NoBinds();
    }

    static method EmitWalk(code: Code, path: seq<Value>)
      requires code.Valid()
      modifies code, code.bytecode
      ensures code.Valid() && code.sym == old(code.sym) + WalkCode(path) && code.holes == old(code.holes)
      ensures code.bytecode == old(code.bytecode) || fresh(code.bytecode)
    {
      hide Encoded, Pooled, WalkCode;
      ghost var sym, whole := code.sym, code.sym + WalkCode(path);
      var k := 0;
      assert path[0..] == path;
      while k < |path|
        invariant k <= |path| && code.Valid() && code.holes == old(code.holes)
        invariant code.bytecode == old(code.bytecode) || fresh(code.bytecode)
        invariant sym <= code.sym && code.sym + WalkCode(path[k..]) == whole
      {
        assert path[k..][1..] == path[k + 1..];
        WalkShape(code.sym, path[k..]);
        code.PushConstant(path[k]);
        code.Plain(GetItem);
        k := k + 1;
      }
      assert path[k..] == [];
      NoWalk();
    }

    /** The test of an arm and the stores of its variables; a failing test leads to `next`. */
    method CompileTest(arm: Arm, next: Label, ghost own: bool) returns (ok: bool)
      requires InLoop(own) && PatScoped(arm.test) && next !in Loops(own) && !next.inUse && next.patchlist == []
      modifies Here(), Buffer(), next`patchlist
      ensures ok == Takes(arm.test, 0, 0)
      ensures ok ==> InLoop(own) && next.Open(Last(units).sym, Last(units).holes)
      ensures ok ==> Last(units).sym == old(Last(units).sym) + PatCode(arm.test, old(Last(units).used), next.dest)
                                         + BindsCode(PatVars(arm.test, [])) + [Pop]
      ensures ok ==> Grew(old(Last(units).holes), Last(units).holes, old(Last(units).used), [], next.patchlist, [], [])
      ensures ok ==> Last(units).bytecode == old(Last(units).bytecode) || fresh(Last(units).bytecode)
    {
      hide Encoded, Pooled, AllCompile, Domain, PatCode, BindsCode, PatVars, PatOk, PatCount, PatScoped, Grew;
      var code := Last(units);
      ghost var sym, n, h := code.sym, code.used, code.holes;
      var bound := new Binder();
      ok := CompilePattern(code, arm.test, bound, next);
      if !ok { return; }
      ghost var sym1 := code.sym;
      assert bound.vars == PatVars(arm.test, []);
      EmitBinds(code, bound.vars);
      code.Plain(Pop);
      StillOpen(next, sym1, code.holes, code.sym, code.holes);
      GrewKeeps(h, code.holes, n, [], next.patchlist, Patches(own));
      KeepLoop(code, sym, h, own);
    }

    /** Since `old`, `part` was appended; new holes belong to the innermost loop's label or
        to `endLabel`. */
    twostate predicate GeneratedTo(part: seq<Instr>, own: bool, endLabel: Label)
      requires old(units) != []
      reads this, Here(), Buffer(), Loops(own), endLabel
    {
      && InLoop(own) && units == old(units) && loopStack == old(loopStack)
      && Last(units).sym == old(Last(units).sym) + part && endLabel.Open(Last(units).sym, Last(units).holes)
      && Grew(old(Last(units).holes), Last(units).holes, old(Last(units).used), old(Patches(own)), Patches(own),
              old(endLabel.patchlist), endLabel.patchlist)
      && (Last(units).bytecode == old(Last(units).bytecode) || fresh(Last(units).bytecode))
    }

    /** One arm: test, stores, body, and a jump past the other arms. */
    method CompileArm(arm: Arm, endLabel: Label, ghost own: bool) returns (ok: bool)
      requires InLoop(own) && PatScoped(arm.test) && StmtsScoped(arm.body, own, loopStack != [])
      requires endLabel !in Loops(own) && endLabel.Open(Last(units).sym, Last(units).holes)
      modifies this, Here(), Buffer(), Loops(own), endLabel`patchlist
      ensures ok == ArmOk(arm, own, false)
      ensures ok ==> GeneratedTo(ArmCode(arm, old(Last(units).used), endLabel.dest, old(BreakTarget(own))), own, endLabel)
      ensures ok ==> Domain(methods) == old(Domain(methods)) + StmtsFns(arm.body)
      decreases arm, 1
    {
      hide Label.Open, Waiting, Encoded, Pooled, AllCompile, Domain, PatCode, BindsCode, PatVars, PatOk, PatCount, PatScoped, Grew, StmtsOk, StmtsScoped, StmtsCode, PatSize, StmtsSize, BindsSize, ArmCode;
      var code := Last(units);
      ghost var sym, at, h0 := code.sym, code.used, code.holes;
      LoopPatches(own);
      var next := new Label(at + ArmSize(arm));
      ok := CompileTest(arm, next, own);
      if !ok { return; }
      ok := CompileArmBody(arm, next, endLabel, own, sym, h0);
      ArmShape(sym, arm, at, endLabel.dest, BreakTarget(own));
    }

    /** The body of an arm and the jump past the other arms, after the test from `sym`, `h0`. */
    method CompileArmBody(arm: Arm, next: Label, endLabel: Label, ghost own: bool, ghost sym: seq<Instr>, ghost h0: set<nat>) returns (ok: bool)
      requires InLoop(own) && StmtsScoped(arm.body, own, loopStack != [])
      requires next !in Loops(own) && endLabel !in Loops(own) && next != endLabel && next.dest == Last(units).used + StmtsSize(arm.body) + 1
      requires next.Open(Last(units).sym, Last(units).holes) && endLabel.Open(sym, h0) && sym <= Last(units).sym
      requires Grew(h0, Last(units).holes, |sym|, [], next.patchlist, [], []) && (forall p :: p in Patches(own) ==> p < |sym|)
      modifies this, Here(), Buffer(), Loops(own), next, endLabel`patchlist
      ensures ok == StmtsOk(arm.body, own, false)
      ensures ok ==> Domain(methods) == old(Domain(methods)) + StmtsFns(arm.body)
      ensures ok ==> InLoop(own) && units == old(units) && loopStack == old(loopStack) && endLabel.Open(Last(units).sym, Last(units).holes)
      ensures ok ==> Last(units).sym == old(Last(units).sym) + StmtsCode(arm.body, old(Last(units).used), old(BreakTarget(own))) + [Jump(endLabel.dest)]
      ensures ok ==> Grew(h0, Last(units).holes, |sym|, old(Patches(own)), Patches(own), old(endLabel.patchlist), endLabel.patchlist)
      ensures ok ==> Last(units).bytecode == old(Last(units).bytecode) || fresh(Last(units).bytecode)
      decreases arm, 0
    {
      hide Label.Open, Waiting, Encoded, Pooled, AllCompile, Domain, StmtsOk, StmtsScoped, StmtsCode, StmtsSize, StmtsFns;
      ghost var sym1, h1, p1 := Last(units).sym, Last(units).holes, Patches(own);
      ok := CompileStmts(arm.body, own);
      if !ok { return; }
      hide Grew;
      CloseArm(next, endLabel, own, sym, h0, sym1, h1, p1);
    }

    lemma {:induction false} LoopPatches(own: bool)
      requires InLoop(own)
      ensures forall p :: p in Patches(own) ==> p < Last(units).used && p in Last(units).holes
    {
      if own {
        forall p | p in Patches(own)
          ensures p < Last(units).used && p in Last(units).holes
        {
          assert Waiting(Last(units).sym, Last(units).holes, Last(loopStack).dest, p);
        }
      }
    }

    lemma {:induction false} LoopPatchesIn(sym: seq<Instr>, holes: set<nat>, own: bool)
      requires own ==> loopStack != [] && Last(loopStack).Open(sym, holes)
      ensures forall p :: p in Patches(own) ==> p in holes
    {
      if own {
        forall p | p in Patches(own)
          ensures p in holes
        {
          assert Waiting(sym, holes, Last(loopStack).dest, p);
        }
      }
    }

    /** The labels of an arm are still waited for after its body. */
    lemma {:induction false} ArmLabels(code: Code, next: Label, endLabel: Label, sym: seq<Instr>, at: nat, h0: set<nat>,
                                       sym1: seq<Instr>, n1: nat, h1: set<nat>, p1: seq<nat>, p2: seq<nat>)
      requires endLabel.Open(sym, h0) && |sym| == at && next.Open(sym1, h1) && |sym1| == n1 && sym <= sym1 <= code.sym
      requires Grew(h0, h1, at, [], next.patchlist, [], []) && Grew(h1, code.holes, n1, p1, p2, [], [])
      requires forall p :: p in p1 ==> p < at
      ensures endLabel.Open(code.sym, code.holes) && next.Open(code.sym, code.holes)
      ensures forall p :: p in next.patchlist ==> at <= p < n1
      ensures forall p :: p in p2 + endLabel.patchlist ==> p < at || p >= n1
    {
      forall p | p in p2 + endLabel.patchlist
        ensures p < at || p >= n1
      {
        if p in endLabel.patchlist {
          assert Waiting(sym, h0, endLabel.dest, p);
        } else if p < n1 {
          Earlier(h1, code.holes, n1, p1, p2, [], [], p);
        }
      }
      forall p | p in next.patchlist
        ensures at <= p < n1
      {
        assert Waiting(sym1, h1, next.dest, p);
      }
      StillOpen(next, sym1, h1, code.sym, code.holes) by {
        forall p | p in next.patchlist ensures p in code.holes {
          assert Waiting(sym1, h1, next.dest, p);
        }
      }
      StillOpen(endLabel, sym, h0, code.sym, code.holes) by {
        forall p | p in endLabel.patchlist ensures p in code.holes {
          assert Waiting(sym, h0, endLabel.dest, p);
        }
      }
    }

    /** Leave an arm and place the label of the next one. */
    method EndArm(next: Label, endLabel: Label, ghost own: bool, ghost at: nat, ghost n1: nat, ghost p1: seq<nat>)
      requires InLoop(own) && next !in Loops(own) && endLabel !in Loops(own) && next != endLabel
      requires next.Open(Last(units).sym, Last(units).holes) && endLabel.Open(Last(units).sym, Last(units).holes)
      requires next.dest == Last(units).used + 1 && at <= n1
      requires forall p :: p in next.patchlist ==> at <= p < n1
      requires forall p :: p in Patches(own) + endLabel.patchlist ==> p < at || p >= n1
      modifies Here(), Buffer(), next, endLabel`patchlist
      ensures InLoop(own) && endLabel.Open(Last(units).sym, Last(units).holes)
      ensures Last(units).sym == old(Last(units).sym) + [Jump(endLabel.dest)]
      ensures endLabel.patchlist == old(endLabel.patchlist) + [old(Last(units).used)]
      ensures Last(units).holes == old(Last(units).holes) + {old(Last(units).used)} - (set p | p in old(next.patchlist))
      ensures Last(units).bytecode == old(Last(units).bytecode) || fresh(Last(units).bytecode)
    {
      hide Encoded, Pooled, AllCompile, Domain;
      var code := Last(units);
      ghost var sym, h := code.sym, code.holes;
      code.JumpTo(Jump(0), endLabel);
      StillOpen(next, sym, h, code.sym, code.holes);
      KeepLoop(code, sym, h, own);
      ghost var h1, k, nx := code.holes, |sym|, next.patchlist;
      assert forall p :: p in nx ==> Waiting(sym, h, next.dest, p);
      code.UseLabel(next);
      StillOpen(endLabel, code.sym, h1, code.sym, code.holes) by {
        forall p | p in endLabel.patchlist
          ensures p in code.holes
        {
          assert Waiting(code.sym, h1, endLabel.dest, p);
          assert p == k || p in old(Patches(own) + endLabel.patchlist);
        }
      }
      KeepLoop(code, code.sym, h1, own) by {
        LoopPatchesIn(code.sym, h1, own);
        assert forall p :: p in Patches(own) ==> p in old(Patches(own) + endLabel.patchlist);
      }
    }

    /** The end of an arm, given what its test (from `sym`, `h0`) and its body (from `sym1`,
        `h1`) left behind. */
    method CloseArm(next: Label, endLabel: Label, ghost own: bool, ghost sym: seq<Instr>, ghost h0: set<nat>,
                    ghost sym1: seq<Instr>, ghost h1: set<nat>, ghost p1: seq<nat>)
      requires InLoop(own) && next !in Loops(own) && endLabel !in Loops(own) && next != endLabel
      requires next.Open(sym1, h1) && endLabel.Open(sym, h0) && sym <= sym1 <= Last(units).sym
      requires next.dest == Last(units).used + 1 && (forall p :: p in p1 ==> p < |sym|)
      requires Grew(h0, h1, |sym|, [], next.patchlist, [], []) && Grew(h1, Last(units).holes, |sym1|, p1, Patches(own), [], [])
      modifies Here(), Buffer(), next, endLabel`patchlist
      ensures InLoop(own) && endLabel.Open(Last(units).sym, Last(units).holes)
      ensures Last(units).sym == old(Last(units).sym) + [Jump(endLabel.dest)]
      ensures Grew(h0, Last(units).holes, |sym|, p1, Patches(own), old(endLabel.patchlist), endLabel.patchlist)
      ensures Last(units).bytecode == old(Last(units).bytecode) || fresh(Last(units).bytecode)
    {
      hide Encoded, Pooled, AllCompile, Domain, Grew;
      var code := Last(units);
      ghost var h2, k, nx, q := code.holes, code.used, next.patchlist, endLabel.patchlist;
      LoopPatches(own);
      ArmLabels(code, next, endLabel, sym, |sym|, h0, sym1, |sym1|, h1, p1, Patches(own));
      assert forall p :: p in q ==> Waiting(sym, h0, endLabel.dest, p);
      EndArm(next, endLabel, own, |sym|, |sym1|, p1);
      GrewArm(h0, h1, h2, |sym|, |sym1|, k, nx, p1, Patches(own), q);
      assert code.holes == h2 + {k} - (set p | p in nx);
    }

    method CompileArms(arms: seq<Arm>, endLabel: Label, ghost own: bool) returns (ok: bool)
      requires InLoop(own) && ArmsScoped(arms, own, loopStack != [])
      requires endLabel !in Loops(own) && endLabel.Open(Last(units).sym, Last(units).holes)
      modifies this, Here(), Buffer(), Loops(own), endLabel`patchlist
      ensures ok == ArmsOk(arms, own, false)
      ensures ok ==> GeneratedTo(ArmsCode(arms, old(Last(units).used), endLabel.dest, old(BreakTarget(own))), own, endLabel)
      ensures ok ==> Domain(methods) == old(Domain(methods)) + ArmsFns(arms)
      decreases arms, 0
    {
      hide Code.Valid, AllCompile, Domain, ArmOk, ArmCode, ArmsCode, StmtsScoped, PatScoped, Grew, ArmSize, StmtsFns, Label.Open, Waiting;
      var code := Last(units);
      code.ValidUsed();
      LoopPatches(own);
      ghost var brk := BreakTarget(own);
      ghost var sym, whole := code.sym, code.sym + ArmsCode(arms, code.used, endLabel.dest, brk);
      var i := 0;
      assert arms[0..] == arms;
      GrewNot2(code.holes, code.used, Patches(own), endLabel.patchlist);
      while i < |arms|
        invariant i <= |arms| && InLoop(own) && Last(units) == code && units == old(units) && loopStack == old(loopStack)
        invariant code.bytecode == old(code.bytecode) || fresh(code.bytecode)
        invariant sym <= code.sym && code.sym + ArmsCode(arms[i..], code.used, endLabel.dest, brk) == whole
        invariant endLabel.Open(code.sym, code.holes)
        invariant Grew(old(code.holes), code.holes, old(code.used), old(Patches(own)), Patches(own), old(endLabel.patchlist), endLabel.patchlist)
        invariant Domain(methods) + ArmsFns(arms[i..]) == old(Domain(methods)) + ArmsFns(arms)
        invariant ArmsScoped(arms[i..], own, loopStack != []) && ArmsOk(arms, own, false) == ArmsOk(arms[i..], own, false)
      {
        assert arms[i..][1..] == arms[i + 1..];
        ArmsShape(code.sym, arms[i..], code.used, endLabel.dest, brk);
        code.ValidUsed();
        ghost var h, n, p, q, fns := code.holes, code.used, Patches(own), endLabel.patchlist, Domain(methods);
        ok := CompileArm(arms[i], endLabel, own);
        if !ok { return; }
        code.ValidUsed();
        FnsAssoc(fns, StmtsFns(arms[i].body), ArmsFns(arms[i + 1..]));
        GrewThen(old(code.holes), h, code.holes, old(code.used), n, old(Patches(own)), p, Patches(own), old(endLabel.patchlist), q, endLabel.patchlist);
        i := i + 1;
      }
      assert arms[i..] == [];
      FnsNone(Domain(methods));
      NoArms(code.used, endLabel.dest, brk);
      ok := true;
    }

    /** Place the label behind a match, which leaves only the holes of the innermost loop. */
    method EndMatch(endLabel: Label, ghost own: bool, ghost h0: set<nat>, ghost at: nat, ghost n: nat, ghost p0: seq<nat>)
      requires InLoop(own) && endLabel !in Loops(own) && endLabel.Open(Last(units).sym, Last(units).holes)
      requires endLabel.dest == Last(units).used && at <= n && (forall h :: h in h0 ==> h < at)
      requires Grew(h0, Last(units).holes, n, p0, Patches(own), [], endLabel.patchlist)
      modifies Here(), Buffer(), endLabel
      ensures InLoop(own) && Last(units).sym == old(Last(units).sym) && Last(units).bytecode == old(Last(units).bytecode)
      ensures Grew(h0, Last(units).holes, at, p0, Patches(own), [], [])
    {
      hide Encoded, Pooled, AllCompile, Domain, Grew;
      var code := Last(units);
      ghost var h1, q := code.holes, endLabel.patchlist;
      LoopPatches(own);
      GrewEnd(h0, h1, at, n, p0, Patches(own), q);
      code.UseLabel(endLabel);
      KeepLoop(code, code.sym, h1, own);
    }

    /** The value that a match looks at. */
    method CompileSubject(e: Expr, ghost own: bool) returns (ok: bool)
      requires InLoop(own) && ExprScoped(e, loopStack != [])
      modifies this, Here(), Buffer()
      ensures ok == ExprOk(e, false)
      ensures ok ==> Domain(methods) == old(Domain(methods)) + ExprFns(e)
      ensures ok ==> InLoop(own) && units == old(units) && loopStack == old(loopStack) && Last(units).holes == old(Last(units).holes)
      ensures ok ==> Last(units).sym == old(Last(units).sym) + ExprCode(e, old(Last(units).used))
      ensures ok ==> Last(units).bytecode == old(Last(units).bytecode) || fresh(Last(units).bytecode)
      decreases e, 2
    {
      hide Label.Open, Waiting, Encoded, Pooled, AllCompile, Domain, ExprCode, ExprOk, ExprScoped, ExprFns;
      var code := Last(units);
      ghost var sym, h0 := code.sym, code.holes;
      LoopPatches(own);
      ok := CompileExpr(e);
      if !ok { return; }
      KeepLoop(code, sym, h0, own);
    }

    method CompileMatch(s: Stmt, ghost own: bool) returns (ok: bool)
      requires InLoop(own) && StmtScoped(s, own, loopStack != []) && s.Match?
      modifies this, Here(), Buffer(), Loops(own)
      ensures ok == StmtOk(s, own, false)
      ensures ok ==> Generated(StmtCode(s, old(Last(units).used), old(BreakTarget(own))), own)
      ensures ok ==> Domain(methods) == old(Domain(methods)) + StmtFns(s)
      decreases s, 2
    {
      hide Code.Valid, AllCompile, Domain, ArmsOk, ArmsScoped, ArmsCode, ExprCode, ExprOk, ExprScoped, Grew, ExprSize, ArmsSize, ExprFns, ArmsFns, Label.Open, Waiting;
      var code := Last(units);
      code.ValidUsed();
      ghost var sym, at, h0, p0 := code.sym, code.used, code.holes, Patches(own);
      ok := CompileSubject(s.e, own);
      if !ok { return; }
      code.ValidUsed();
      ghost var n := code.used;
      var endLabel := new Label(at + StmtSize(s));
      FreshOpen(endLabel, code.sym, code.holes);
      ok := CompileArms(s.arms, endLabel, own);
      if !ok { return; }
      code.ValidUsed();
      FnsAssoc(old(Domain(methods)), ExprFns(s.e), ArmsFns(s.arms));
      EndMatch(endLabel, own, h0, at, n, p0);
      MatchShape(sym, s, at, BreakTarget(own));
    }

    method CompileBreak(ghost own: bool) returns (ok: bool)
      requires InLoop(own) && (own || loopStack == [])
      modifies this, Here(), Buffer(), Loops(own)
      ensures ok == own
      ensures ok ==> Generated(StmtCode(Break, old(Last(units).used), old(BreakTarget(own))), own)
      ensures methods == old(methods)
    {
      hide Encoded, Pooled, AllCompile, Domain;
      ok := loopStack != [];
      if !ok { return; }
      var label_ := Last(loopStack);
      Last(units).JumpTo(Jump(0), label_);
    }
  }
}
