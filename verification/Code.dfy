/** Code objects: 32-bit instruction words in a growable buffer, interned constants and
    names, and labels whose address may be patched in after the jumps that use them. */
module CodeObjects {
  import opened Options
  import opened Syntax

  // ---------- words ----------

  const OP_UNIT: nat := 0x1000000
  const ARG_UNIT: nat := 0x10000

  /** Bitwise or of two words. */
  function BitOr(a: nat, b: nat): nat {
    if a == 0 then b
    else if b == 0 then a
    else 2 * BitOr(a / 2, b / 2) + (if a % 2 == 1 || b % 2 == 1 then 1 else 0)
  }

  function Pow2(k: nat): nat {
    if k == 0 then 1 else 2 * Pow2(k - 1)
  }

  lemma {:induction false} OrAdds(hi: nat, k: nat, b: nat)
    requires b < Pow2(k)
    ensures BitOr(hi * Pow2(k), b) == hi * Pow2(k) + b
    decreases k
  {
    if k == 0 || hi == 0 || b == 0 {
      assert hi == 0 ==> hi * Pow2(k) == 0;
      assert k == 0 ==> b == 0;
    } else {
      var p := hi * Pow2(k - 1);
      assert hi * Pow2(k) == 2 * p by { assert Pow2(k) == 2 * Pow2(k - 1); }
      assert 2 * p / 2 == p && 2 * p % 2 == 0;
      OrAdds(hi, k - 1, b / 2);
    }
  }

  lemma {:induction false} Pow2Values()
    ensures Pow2(16) == ARG_UNIT && Pow2(24) == OP_UNIT
  {
    assert Pow2(8) == 256;
    assert Pow2(16) == ARG_UNIT;
  }

  lemma {:induction false} OrFields(op: nat, arg: nat, addr: nat)
    requires arg < 256 && addr < OP_UNIT
    ensures BitOr(op * OP_UNIT, arg * ARG_UNIT) == op * OP_UNIT + arg * ARG_UNIT
    ensures BitOr(op * OP_UNIT, addr) == op * OP_UNIT + addr
  {
    Pow2Values();
    OrAdds(op, 24, arg * ARG_UNIT);
    OrAdds(op, 24, addr);
  }

  /** The order of the opcode enumeration. */
  function Opcode(i: Instr): (op: nat)
    ensures op < 256
  {
    match i
    case JumpIfFalse(_) => 0
    case JumpIfTrue(_) => 1
    case Jump(_) => 2
    case PushConst(_) => 3
    case StoreName(_) => 4
    case PushName(_) => 5
    case PushNil => 6
    case GetAttr(_) => 7
    case GetItem => 8
    case Call(_) => 9
    case MakeArray(_) => 10
    case MakeHash(_) => 11
    case CompareTop(Eq) => 12
    case CompareTop(Neq) => 13
    case CompareTop(Gt) => 14
    case CompareTop(Gte) => 15
    case CompareTop(Lt) => 16
    case CompareTop(Lte) => 17
    case Not => 18
    case Dup => 19
    case Pop => 20
    case RetTop => 21
    case Spawn => 22
    case ArithTop(Add) => 23
    case ArithTop(Sub) => 24
    case ArithTop(Mul) => 25
    case ArithTop(Div) => 26
    case MakeClosure => 27
    case GetClass => 28
  }

  predicate IsJump(i: Instr) {
    i.Jump? || i.JumpIfFalse? || i.JumpIfTrue?
  }

  predicate IsNamed(i: Instr) {
    i.PushName? || i.StoreName? || i.GetAttr?
  }

  predicate IsCounted(i: Instr) {
    i.Call? || i.MakeArray? || i.MakeHash?
  }

  /** Instructions without an operand. */
  predicate IsPlain(i: Instr) {
    !IsJump(i) && !IsNamed(i) && !IsCounted(i) && !i.PushConst?
  }

  function NameOf(i: Instr): Name
    requires IsNamed(i)
  {
    match i
    case PushName(id) => id
    case StoreName(id) => id
    case GetAttr(attr) => attr
  }

  function CountOf(i: Instr): nat
    requires IsCounted(i)
  {
    match i
    case Call(n) => n
    case MakeArray(n) => n
    case MakeHash(n) => n
  }

  /** The 24 address bits and the first operand byte of a word. */
  function AddrField(w: nat): nat { w % OP_UNIT }

  function Arg1Field(w: nat): nat { w / ARG_UNIT % 256 }

  /** A finished code object. */
  datatype CodeObject = CodeObject(words: seq<nat>, constants: seq<Value>, names: seq<Name>)

  /** What the virtual machine makes of the word at `pc`. */
  function Decode(co: CodeObject, pc: nat): Option<Instr>
    requires pc < |co.words|
  {
    var w := co.words[pc];
    var arg, addr := Arg1Field(w), AddrField(w);
    match w / OP_UNIT
    case 0 => Some(JumpIfFalse(addr))
    case 1 => Some(JumpIfTrue(addr))
    case 2 => Some(Jump(addr))
    case 3 => if arg < |co.constants| then Some(PushConst(co.constants[arg])) else None
    case 4 => if arg < |co.names| then Some(StoreName(co.names[arg])) else None
    case 5 => if arg < |co.names| then Some(PushName(co.names[arg])) else None
    case 6 => Some(PushNil)
    case 7 => if arg < |co.names| then Some(GetAttr(co.names[arg])) else None
    case 8 => Some(GetItem)
    case 9 => Some(Call(arg))
    case 10 => Some(MakeArray(arg))
    case 11 => Some(MakeHash(arg))
    case 12 => Some(CompareTop(Eq))
    case 13 => Some(CompareTop(Neq))
    case 14 => Some(CompareTop(Gt))
    case 15 => Some(CompareTop(Gte))
    case 16 => Some(CompareTop(Lt))
    case 17 => Some(CompareTop(Lte))
    case 18 => Some(Not)
    case 19 => Some(Dup)
    case 20 => Some(Pop)
    case 21 => Some(RetTop)
    case 22 => Some(Spawn)
    case 23 => Some(ArithTop(Add))
    case 24 => Some(ArithTop(Sub))
    case 25 => Some(ArithTop(Mul))
    case 26 => Some(ArithTop(Div))
    case 27 => Some(MakeClosure)
    case 28 => Some(GetClass)
    case _ => None
  }

  /** Within these limits every operand fits its field. */
  predicate Fits(co: CodeObject) {
    |co.constants| <= 256 && |co.names| <= 256 && |co.words| < OP_UNIT
  }

  ghost predicate Decodes(co: CodeObject, code: seq<Instr>) {
    |co.words| == |code| && forall pc :: 0 <= pc < |code| ==> Decode(co, pc) == Some(code[pc])
  }

  // ---------- what a word stands for while code is being emitted ----------

  /** `arg` is the unreduced operand: an index into a table, or a count. A word in a hole
      still lacks its address. */
  ghost predicate Stands(w: nat, i: Instr, arg: nat, hole: bool, constants: seq<Value>, names: seq<Name>) {
    var op := Opcode(i) * OP_UNIT;
    if IsJump(i) then w == if hole then op else op + i.addr % OP_UNIT
    else
      && !hole && w == op + arg % 256 * ARG_UNIT
      && (i.PushConst? ==> arg < |constants| && constants[arg] == i.v)
      && (IsNamed(i) ==> arg < |names| && names[arg] == NameOf(i))
      && (IsCounted(i) ==> arg == CountOf(i) < 256)
  }

  ghost predicate Encoded(words: seq<nat>, sym: seq<Instr>, args: seq<nat>, holes: set<nat>, constants: seq<Value>, names: seq<Name>) {
    && |words| == |sym| == |args|
    && forall k {:trigger sym[k]} :: 0 <= k < |sym| ==> Stands(words[k], sym[k], args[k], k in holes, constants, names)
  }

  lemma {:induction false} AppendEncoded(words: seq<nat>, sym: seq<Instr>, args: seq<nat>, holes: set<nat>,
                                         constants: seq<Value>, names: seq<Name>,
                                         w: nat, i: Instr, arg: nat, hole: bool, constants': seq<Value>, names': seq<Name>)
    requires Encoded(words, sym, args, holes, constants, names)
    requires constants <= constants' && names <= names' && (forall h :: h in holes ==> h < |sym|)
    requires Stands(w, i, arg, hole, constants', names')
    ensures Encoded(words + [w], sym + [i], args + [arg], if hole then holes + {|sym|} else holes, constants', names')
  {
    forall k | 0 <= k < |sym| + 1
      ensures Stands((words + [w])[k], (sym + [i])[k], (args + [arg])[k],
                     k in if hole then holes + {|sym|} else holes, constants', names')
    {
      if k < |sym| {
        assert Stands(words[k], sym[k], args[k], k in holes, constants, names);
      }
    }
  }

  lemma {:induction false} PatchEncoded(words: seq<nat>, sym: seq<Instr>, args: seq<nat>, holes: set<nat>,
                                        constants: seq<Value>, names: seq<Name>, p: nat)
    requires Encoded(words, sym, args, holes, constants, names)
    requires p < |sym| && p in holes && IsJump(sym[p])
    ensures Encoded(words[p := BitOr(words[p], sym[p].addr % OP_UNIT)], sym, args, holes - {p}, constants, names)
  {
    OrFields(Opcode(sym[p]), 0, sym[p].addr % OP_UNIT);
    forall k | 0 <= k < |sym|
      ensures Stands(words[p := BitOr(words[p], sym[p].addr % OP_UNIT)][k], sym[k], args[k], k in holes - {p}, constants, names)
    {
      assert Stands(words[k], sym[k], args[k], k in holes, constants, names);
    }
  }

  lemma {:induction false} FieldsOf(op: nat, arg: nat, addr: nat)
    requires arg < 256 && addr < OP_UNIT
    ensures (op * OP_UNIT + addr) / OP_UNIT == op && AddrField(op * OP_UNIT + addr) == addr
    ensures (op * OP_UNIT + arg * ARG_UNIT) / OP_UNIT == op && Arg1Field(op * OP_UNIT + arg * ARG_UNIT) == arg
  {
    var w := op * OP_UNIT + arg * ARG_UNIT;
    assert w / ARG_UNIT == op * 256 + arg;
  }

  lemma {:induction false} StandsDecodes(co: CodeObject, pc: nat, i: Instr, arg: nat)
    requires pc < |co.words| && Fits(co) && (IsJump(i) ==> i.addr < OP_UNIT)
    requires Stands(co.words[pc], i, arg, false, co.constants, co.names)
    ensures Decode(co, pc) == Some(i)
  {
    var op := Opcode(i);
    if IsJump(i) {
      FieldsOf(op, 0, i.addr);
    } else {
      FieldsOf(op, arg % 256, 0);
      assert arg < 256 || IsPlain(i);
    }
  }

  /** Once no hole is left, and if the operands fit, every word decodes to its instruction. */
  lemma {:induction false} EncodedDecodes(co: CodeObject, sym: seq<Instr>, args: seq<nat>)
    requires Encoded(co.words, sym, args, {}, co.constants, co.names) && Fits(co)
    requires forall k :: 0 <= k < |sym| && IsJump(sym[k]) ==> sym[k].addr < OP_UNIT
    ensures Decodes(co, sym)
  {
    forall pc | 0 <= pc < |sym|
      ensures Decode(co, pc) == Some(sym[pc])
    {
      assert Stands(co.words[pc], sym[pc], args[pc], false, co.constants, co.names);
      StandsDecodes(co, pc, sym[pc], args[pc]);
    }
  }

  // ---------- assembly ----------

  /** The constants and names a code object has interned. */
  datatype Pool = Pool(constants: seq<Value>, names: seq<Name>)

  function IndexOf<T(==)>(s: seq<T>, x: T): (n: nat)
    ensures n <= |s| && (n < |s| ==> s[n] == x) && (forall k :: 0 <= k < n ==> s[k] != x)
    ensures n < |s| <==> x in s
  {
    if s == [] || s[0] == x then 0 else 1 + IndexOf(s[1..], x)
  }

  /** Intern an instruction's operand: the pool afterwards, and the operand's index or count.
      Equal constants share an entry, but methods compare by identity and each is new. */
  function Intern(pool: Pool, i: Instr): (Pool, nat) {
    if i.PushConst? then
      if i.v.Method? || i.v !in pool.constants then (pool.(constants := pool.constants + [i.v]), |pool.constants|)
      else (pool, IndexOf(pool.constants, i.v))
    else if IsNamed(i) then
      if NameOf(i) !in pool.names then (pool.(names := pool.names + [NameOf(i)]), |pool.names|)
      else (pool, IndexOf(pool.names, NameOf(i)))
    else (pool, if IsCounted(i) then CountOf(i) else 0)
  }

  function PoolOf(code: seq<Instr>): Pool {
    if code == [] then Pool([], []) else Intern(PoolOf(Init(code)), Last(code)).0
  }

  function ArgOf(code: seq<Instr>, k: nat): nat
    requires k < |code|
  {
    Intern(PoolOf(code[..k]), code[k]).1
  }

  /** The word an instruction is written as; operands are cut to their fields. */
  function WordOf(i: Instr, arg: nat): nat {
    Opcode(i) * OP_UNIT + if IsJump(i) then i.addr % OP_UNIT else arg % 256 * ARG_UNIT
  }

  /** The code object that a sequence of instructions is assembled into. */
  function Assemble(code: seq<Instr>): CodeObject {
    CodeObject(seq(|code|, k requires 0 <= k < |code| => WordOf(code[k], ArgOf(code, k))), PoolOf(code).constants, PoolOf(code).names)
  }

  ghost predicate Pooled(sym: seq<Instr>, args: seq<nat>, constants: seq<Value>, names: seq<Name>) {
    && Pool(constants, names) == PoolOf(sym) && |args| == |sym|
    && forall k :: 0 <= k < |sym| ==> args[k] == ArgOf(sym, k)
  }

  lemma {:induction false} PooledAppend(sym: seq<Instr>, args: seq<nat>, constants: seq<Value>, names: seq<Name>, i: Instr)
    requires Pooled(sym, args, constants, names)
    ensures var (pool, arg) := Intern(Pool(constants, names), i);
      Pooled(sym + [i], args + [arg], pool.constants, pool.names)
  {
    assert Init(sym + [i]) == sym && Last(sym + [i]) == i;
    forall k | 0 <= k < |sym| + 1
      ensures (args + [Intern(Pool(constants, names), i).1])[k] == ArgOf(sym + [i], k)
    {
      assert (sym + [i])[..k] == sym[..k];
      assert k == |sym| ==> sym[..k] == sym;
    }
  }

  lemma {:induction false} EncodedAssembled(words: seq<nat>, sym: seq<Instr>, args: seq<nat>, constants: seq<Value>, names: seq<Name>)
    requires Encoded(words, sym, args, {}, constants, names) && Pooled(sym, args, constants, names)
    ensures CodeObject(words, constants, names) == Assemble(sym)
  {
    forall k | 0 <= k < |sym|
      ensures words[k] == WordOf(sym[k], ArgOf(sym, k))
    {
      assert Stands(words[k], sym[k], args[k], false, constants, names);
    }
    assert words == Assemble(sym).words;
  }

  /** The distinct names of some code. */
  function NamesIn(code: seq<Instr>): set<Name> {
    if code == [] then {} else NamesIn(Init(code)) + if IsNamed(Last(code)) then {NameOf(Last(code))} else {}
  }

  /** Its distinct constants other than methods. */
  function ConstsIn(code: seq<Instr>): set<Value> {
    if code == [] then {}
    else ConstsIn(Init(code)) + if Last(code).PushConst? && !Last(code).v.Method? then {Last(code).v} else {}
  }

  /** How many methods it pushes. */
  function MethodsIn(code: seq<Instr>): nat {
    if code == [] then 0 else MethodsIn(Init(code)) + if Last(code).PushConst? && Last(code).v.Method? then 1 else 0
  }

  /** Code whose operands fit their fields. */
  predicate Encodable(code: seq<Instr>) {
    |NamesIn(code)| <= 256 && |ConstsIn(code)| + MethodsIn(code) <= 256 && |code| < OP_UNIT
  }

  /** A sequence without repetition and the set of its elements, with one more. */
  lemma {:induction false} AddOnce<T>(s: seq<T>, t: set<T>, x: T)
    requires |s| == |t| && forall y :: y in s <==> y in t
    ensures x in s ==> t + {x} == t
    ensures x !in s ==> |s + [x]| == |t + {x}| && forall y :: y in s + [x] <==> y in t + {x}
  {
    if x !in s {
      assert forall y :: y in s + [x] <==> y in s || y == x;
    } else {
      assert t + {x} == t;
    }
  }

  lemma {:induction false} PoolNames(code: seq<Instr>)
    ensures |PoolOf(code).names| == |NamesIn(code)| && (forall id :: id in PoolOf(code).names <==> id in NamesIn(code))
    decreases |code|
  {
    if code != [] {
      PoolNames(Init(code));
      if IsNamed(Last(code)) {
        AddOnce(PoolOf(Init(code)).names, NamesIn(Init(code)), NameOf(Last(code)));
      } else {
        assert NamesIn(Init(code)) + {} == NamesIn(Init(code));
      }
    }
  }

  lemma {:induction false} PoolConsts(code: seq<Instr>)
    ensures |PoolOf(code).constants| == |ConstsIn(code)| + MethodsIn(code)
    ensures forall v :: v in PoolOf(code).constants && !v.Method? <==> v in ConstsIn(code)
    decreases |code|
  {
    if code != [] {
      PoolConsts(Init(code));
      var constants := PoolOf(Init(code)).constants;
      if Last(code).PushConst? && (Last(code).v.Method? || Last(code).v !in constants) {
        assert forall x :: x in constants + [Last(code).v] <==> x in constants || x == Last(code).v;
      } else if Last(code).PushConst? {
        assert ConstsIn(Init(code)) + {Last(code).v} == ConstsIn(Init(code));
      } else {
        assert ConstsIn(code) == ConstsIn(Init(code));
      }
    }
  }

  /** A code object's operands fit exactly if the code has at most 256 distinct names, at most
      256 constants, where every method counts, and fewer than 2^24 words. */
  lemma {:induction false} FitsExact(code: seq<Instr>)
    ensures Fits(Assemble(code)) <==> Encodable(code)
  {
    PoolNames(code);
    PoolConsts(code);
  }

  lemma {:induction false} PoolGrows(code: seq<Instr>, k: nat)
    requires k <= |code|
    ensures PoolOf(code[..k]).constants <= PoolOf(code).constants && PoolOf(code[..k]).names <= PoolOf(code).names
    decreases |code|
  {
    if k == |code| {
      assert code[..k] == code;
    } else {
      assert Init(code)[..k] == code[..k];
      PoolGrows(Init(code), k);
    }
  }

  /** An operand's index is that of the constant or name it stands for. */
  lemma {:induction false} ArgInPool(code: seq<Instr>, k: nat)
    requires k < |code|
    ensures var pool, n := PoolOf(code), ArgOf(code, k);
      && (code[k].PushConst? ==> n < |pool.constants| && pool.constants[n] == code[k].v)
      && (IsNamed(code[k]) ==> n < |pool.names| && pool.names[n] == NameOf(code[k]))
      && (IsCounted(code[k]) ==> n == CountOf(code[k]))
  {
    assert Init(code[..k + 1]) == code[..k] && Last(code[..k + 1]) == code[k];
    PoolGrows(code, k + 1);
  }

  /** A word of assembled code is always some instruction, with an operand that exists, even if
      its operand was cut. */
  lemma {:induction false} AssembledDecodes(code: seq<Instr>, pc: nat)
    requires pc < |code|
    ensures Decode(Assemble(code), pc).Some?
  {
    hide ArgOf, PoolOf, Decode;
    ArgInPool(code, pc);
    WordDecodes(Assemble(code), pc, code[pc], ArgOf(code, pc));
  }

  lemma {:induction false} WordDecodes(co: CodeObject, pc: nat, i: Instr, arg: nat)
    requires pc < |co.words| && co.words[pc] == WordOf(i, arg)
    requires (i.PushConst? ==> arg < |co.constants|) && (IsNamed(i) ==> arg < |co.names|)
    ensures Decode(co, pc).Some?
  {
    FieldsOf(Opcode(i), arg % 256, if IsJump(i) then i.addr % OP_UNIT else 0);
    assert arg % 256 <= arg;
  }

  /** Code that fits its words is what they decode to. */
  lemma {:induction false} AssembledExact(code: seq<Instr>)
    requires Encodable(code)
    requires forall k :: 0 <= k < |code| ==> (IsJump(code[k]) ==> code[k].addr < OP_UNIT) && (IsCounted(code[k]) ==> CountOf(code[k]) < 256)
    ensures Decodes(Assemble(code), code)
  {
    var co := Assemble(code);
    FitsExact(code);
    forall pc | 0 <= pc < |code|
      ensures Decode(co, pc) == Some(code[pc])
    {
      hide ArgOf, PoolOf, Decode;
      ArgInPool(code, pc);
      assert Stands(co.words[pc], code[pc], ArgOf(code, pc), false, co.constants, co.names);
      StandsDecodes(co, pc, code[pc], ArgOf(code, pc));
    }
  }

  // ---------- labels and code under construction ----------

  /** `dest` is the address the label will be placed at. */
  class Label {
    var patchlist: seq<nat>
    var addr: nat
    var inUse: bool
    ghost const dest: nat

    constructor (ghost dest: nat)
      ensures patchlist == [] && !inUse && this.dest == dest
    {
      patchlist, addr, inUse := [], 0, false;
      this.dest := dest;
    }

    /** The jumps waiting for this label. */
    ghost predicate Open(sym: seq<Instr>, holes: set<nat>)
      reads this
    {
      && !inUse
      && (forall k :: 0 <= k < |patchlist| ==> Waiting(sym, holes, dest, patchlist[k]))
      && (forall j, k :: 0 <= j < k < |patchlist| ==> patchlist[j] != patchlist[k])
    }
  }

  ghost predicate Waiting(sym: seq<Instr>, holes: set<nat>, dest: nat, p: nat) {
    p < |sym| && p in holes && IsJump(sym[p]) && sym[p].addr == dest
  }

  /** The constants of two code objects compare equal by value, except methods, which
      compare by identity and are created afresh. */
  predicate SameConst(a: Value, b: Value) {
    a == b && !a.Method?
  }

  class Code {
    var bytecode: array<nat>
    var used: nat
    var constants: seq<Value>
    var names: seq<Name>
    ghost var sym: seq<Instr>
    ghost var args: seq<nat>
    ghost var holes: set<nat>

    ghost predicate Valid()
      reads this, bytecode
    {
      && used <= bytecode.Length && used == |sym|
      && Encoded(bytecode[..used], sym, args, holes, constants, names)
      && Pooled(sym, args, constants, names)
      && forall h :: h in holes ==> h < used
    }

    lemma {:induction false} ValidUsed()
      requires Valid()
      ensures used == |sym| && forall h :: h in holes ==> h < used
    {
    }

    constructor ()
      ensures Valid() && fresh(bytecode) && sym == [] && holes == {}
    {
      bytecode, used, constants, names := new nat[256], 0, [], [];
      sym, args, holes := [], [], {};
    }

    /** Make room for one more word. */
    method Grow()
      requires Valid()
      modifies this`bytecode
      ensures Valid() && used < bytecode.Length
      ensures bytecode == old(bytecode) || fresh(bytecode)
      ensures bytecode[..used] == old(bytecode[..used])
    {
      hide Pooled;
      if used >= bytecode.Length {
        var buffer := bytecode;
        var bigger := new nat[buffer.Length + 32];
        var i := 0;
        while i < used
          invariant i <= used && bytecode == buffer
          invariant bigger[..i] == buffer[..i]
        {
          bigger[i] := buffer[i];
          i := i + 1;
        }
        bytecode := bigger;
      }
    }

    /** The first equal constant, or -1. */
    method FindConst(v: Value) returns (n: int)
      ensures -1 <= n < |constants|
      ensures n >= 0 ==> SameConst(constants[n], v) && forall k :: 0 <= k < n ==> !SameConst(constants[k], v)
      ensures n < 0 ==> forall k :: 0 <= k < |constants| ==> !SameConst(constants[k], v)
    {
      n := 0;
      while n < |constants|
        invariant 0 <= n <= |constants|
        invariant forall k :: 0 <= k < n ==> !SameConst(constants[k], v)
      {
        if SameConst(constants[n], v) { return; }
        n := n + 1;
      }
      n := -1;
    }

    method FindName(id: Name) returns (n: int)
      ensures -1 <= n < |names|
      ensures n >= 0 ==> names[n] == id && id !in names[..n]
      ensures n < 0 ==> id !in names
    {
      n := 0;
      while n < |names|
        invariant 0 <= n <= |names|
        invariant id !in names[..n]
      {
        if names[n] == id { return; }
        n := n + 1;
      }
      n := -1;
    }

    /** Constants that compare equal share one entry. */
    method AddConst(v: Value) returns (n: nat)
      modifies this`constants
      ensures n < |constants| && constants[n] == v
      ensures constants == if v in old(constants) && !v.Method? then old(constants) else old(constants) + [v]
      ensures (Pool(constants, names), n) == Intern(old(Pool(constants, names)), PushConst(v))
    {
      var found := FindConst(v);
      if found >= 0 {
        n := found;
      } else {
        constants := constants + [v];
        n := |constants| - 1;
      }
    }

    method AddName(id: Name) returns (n: nat)
      modifies this`names
      ensures n < |names| && names[n] == id
      ensures names == if id in old(names) then old(names) else old(names) + [id]
      ensures forall i :: IsNamed(i) && NameOf(i) == id ==> (Pool(constants, names), n) == Intern(old(Pool(constants, names)), i)
    {
      var found := FindName(id);
      if found >= 0 {
        n := found;
      } else {
        names := names + [id];
        n := |names| - 1;
      }
    }

    /** Store the next word. `i` is what it stands for. */
    method Append(w: nat, ghost i: Instr, ghost arg: nat, ghost hole: bool, ghost constants0: seq<Value>, ghost names0: seq<Name>)
      requires used < bytecode.Length && used == |sym|
      requires Encoded(bytecode[..used], sym, args, holes, constants0, names0) && (forall h :: h in holes ==> h < used)
      requires constants0 <= constants && names0 <= names
      requires Pooled(sym, args, constants0, names0) && (Pool(constants, names), arg) == Intern(Pool(constants0, names0), i)
      requires Stands(w, i, arg, hole, constants, names)
      modifies this`used, this`sym, this`args, this`holes, bytecode
      ensures Valid() && sym == old(sym) + [i]
      ensures holes == if hole then old(holes) + {old(|sym|)} else old(holes)
    {
      hide Pooled;
      ghost var words := bytecode[..used];
      PooledAppend(sym, args, constants0, names0, i);
      AppendEncoded(words, sym, args, holes, constants0, names0, w, i, arg, hole, constants, names);
      bytecode[used] := w;
      assert bytecode[..used + 1] == words + [w];
      if hole { holes := holes + {used}; }
      used := used + 1;
      sym, args := sym + [i], args + [arg];
    }

    /** An instruction without an operand. */
    method Plain(i: Instr)
      requires Valid() && IsPlain(i)
      modifies this, bytecode
      ensures Valid() && sym == old(sym) + [i] && holes == old(holes)
      ensures bytecode == old(bytecode) || fresh(bytecode)
    {
      hide Pooled;
      Grow();
      OrFields(Opcode(i), 0, 0);
      Append(Opcode(i) * OP_UNIT, i, 0, false, constants, names);
    }

    /** An instruction with a count; the count is passed as a single byte. */
    method Counted(i: Instr)
      requires Valid() && IsCounted(i) && CountOf(i) < 256
      modifies this, bytecode
      ensures Valid() && sym == old(sym) + [i] && holes == old(holes)
      ensures bytecode == old(bytecode) || fresh(bytecode)
    {
      hide Pooled;
      Grow();
      OrFields(Opcode(i), CountOf(i), 0);
      Append(BitOr(Opcode(i) * OP_UNIT, CountOf(i) * ARG_UNIT), i, CountOf(i), false, constants, names);
    }

    method PushConstant(v: Value)
      requires Valid()
      modifies this, bytecode
      ensures Valid() && sym == old(sym) + [PushConst(v)] && holes == old(holes)
      ensures bytecode == old(bytecode) || fresh(bytecode)
    {
      hide Pooled;
      Grow();
      ghost var constants0 := constants;
      var n := AddConst(v);
      OrFields(Opcode(PushConst(v)), n % 256, 0);
      Append(BitOr(Opcode(PushConst(v)) * OP_UNIT, n % 256 * ARG_UNIT), PushConst(v), n, false, constants0, names);
    }

    /** An instruction whose operand is a name. */
    method Named(i: Instr)
      requires Valid() && IsNamed(i)
      modifies this, bytecode
      ensures Valid() && sym == old(sym) + [i] && holes == old(holes)
      ensures bytecode == old(bytecode) || fresh(bytecode)
    {
      hide Pooled;
      Grow();
      ghost var names0 := names;
      var n := AddName(NameOf(i));
      OrFields(Opcode(i), n % 256, 0);
      Append(BitOr(Opcode(i) * OP_UNIT, n % 256 * ARG_UNIT), i, n, false, constants, names0);
    }

    /** A jump to a label: its address if the label is placed, or else a hole that is
        recorded in the label's patch list. `kind` says which jump. */
    method JumpTo(kind: Instr, label_: Label)
      requires Valid() && IsJump(kind) && kind.addr == 0
      requires if label_.inUse then label_.addr == label_.dest else label_.Open(sym, holes)
      modifies this, bytecode, label_`patchlist
      ensures Valid() && sym == old(sym) + [kind.(addr := label_.dest)]
      ensures bytecode == old(bytecode) || fresh(bytecode)
      ensures if label_.inUse then holes == old(holes) && label_.patchlist == old(label_.patchlist)
              else && holes == old(holes) + {old(|sym|)} && label_.patchlist == old(label_.patchlist) + [old(|sym|)]
                   && label_.Open(sym, holes)
    {
      hide Pooled;
      Grow();
      var addr := 0;
      if label_.inUse {
        addr := label_.addr;
      } else {
        label_.patchlist := label_.patchlist + [used];
      }
      OrFields(Opcode(kind), 0, addr % OP_UNIT);
      ghost var hole := !label_.inUse;
      Append(BitOr(Opcode(kind) * OP_UNIT, addr % OP_UNIT), kind.(addr := label_.dest), 0, hole, constants, names);
    }

    /** Place a label here and complete the jumps that wait for it. */
    method UseLabel(label_: Label)
      requires Valid() && label_.Open(sym, holes) && used == label_.dest
      modifies bytecode, this`holes, label_
      ensures Valid() && sym == old(sym) && bytecode == old(bytecode)
      ensures label_.inUse && label_.addr == label_.dest && label_.patchlist == []
      ensures holes == old(holes) - (set p | p in old(label_.patchlist))
    {
      hide Pooled;
      label_.addr := used;
      label_.inUse := true;
      var patches := label_.patchlist;
      var i := 0;
      while i < |patches|
        invariant i <= |patches| && Valid()
        invariant holes == old(holes) - (set p | p in patches[..i])
        invariant forall k :: i <= k < |patches| ==> Waiting(sym, holes, used, patches[k])
        invariant label_.addr == used && label_.inUse
      {
        var p := patches[i];
        PatchEncoded(bytecode[..used], sym, args, holes, constants, names, p);
        ghost var words := bytecode[..used];
        bytecode[p] := BitOr(bytecode[p], label_.addr % OP_UNIT);
        assert bytecode[..used] == words[p := BitOr(words[p], sym[p].addr % OP_UNIT)];
        assert patches[..i + 1] == patches[..i] + [p];
        holes := holes - {p};
        i := i + 1;
      }
      assert patches[..|patches|] == patches;
      label_.patchlist := [];
    }

    /** The finished code object. */
    method Finish() returns (co: CodeObject)
      requires Valid() && holes == {} && (forall k :: 0 <= k < |sym| && IsJump(sym[k]) ==> sym[k].addr <= |sym|)
      ensures co == Assemble(sym) && |co.words| == |sym|
      ensures Fits(co) ==> Decodes(co, sym)
    {
      co := CodeObject(bytecode[..used], constants, names);
      EncodedAssembled(co.words, sym, args, constants, names);
      if Fits(co) {
        EncodedDecodes(co, sym, args);
      }
    }
  }
}
