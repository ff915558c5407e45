/** The value operations of the built-in classes, as far as patterns, operators and literals need
    them: classes, comparison, array and hash lookup, sizes, and arithmetic. */
module Builtins {
  import opened Options
  import opened Syntax
  import opened Semantics

  predicate IsArray(h: Heap, v: Value) {
    v.Object? && v.loc < |h| && h[v.loc].ArrayObj?
  }

  predicate IsHash(h: Heap, v: Value) {
    v.Object? && v.loc < |h| && h[v.loc].HashObj?
  }

  function ClassOf(h: Heap, v: Value): Value {
    if IsArray(h, v) then Class("array")
    else if IsHash(h, v) then Class("hash")
    else
      match v
      case Nil => Class("nil")
      case Bool(_) => Class("bool")
      case Int(_) => Class("int")
      case Float(_) => Class("float")
      case Str(_) => Class("str")
      case Class(_) => Class("class")
      case Object(_) => Class("object")
      case _ => Class("method")
  }

  /** Byte order; a string comes after its prefixes. */
  predicate Before(a: string, b: string) {
    b != [] && (a == [] || a[0] < b[0] || (a[0] == b[0] && Before(a[1..], b[1..])))
  }

  /** The classes that compare by value. */
  predicate Comparable(h: Heap, v: Value) {
    v.Int? || v.Float? || v.Str? || IsArray(h, v)
  }

  /** A value equals itself. Otherwise the left operand's class compares, or else the right one's.
      Numbers and strings take a left operand of another class to be less. Arrays compare item
      by item, without asking for the class of either operand: one that is no array aborts, and
      so does a comparison that goes deeper than `depth`, which only arrays that contain
      themselves do if it is the size of the heap. */
  function Cmp(h: Heap, l: Value, r: Value, depth: nat): Ordering
    decreases depth, 1
  {
    if l == r then Equal
    else if l.Int? && r.Int? then if l.i < r.i then Less else Greater
    else if l.Float? && r.Float? then if l.f < r.f then Less else Greater
    else if l.Str? && r.Str? then if Before(l.s, r.s) then Less else Greater
    else if IsArray(h, l) || (!Comparable(h, l) && IsArray(h, r)) then
      if IsArray(h, l) && IsArray(h, r) && depth > 0 then CmpItems(h, h[l.loc].items, h[r.loc].items, depth - 1)
      else CmpError
    else if !Comparable(h, l) && Comparable(h, r) then Less
    else NotComparable
  }

  function CmpItems(h: Heap, ls: seq<Value>, rs: seq<Value>, depth: nat): Ordering
    decreases depth, 2, |ls|
  {
    if |ls| != |rs| then NotComparable
    else if ls == [] then Equal
    else if Cmp(h, ls[0], rs[0], depth) != Equal then Cmp(h, ls[0], rs[0], depth)
    else CmpItems(h, ls[1..], rs[1..], depth)
  }

  /** The value of the first key that is equal; nil if there is none; the null pointer if a
      comparison aborts before. */
  function Lookup(h: Heap, pairs: seq<(Value, Value)>, key: Value): Value {
    if pairs == [] then Nil
    else
      match Cmp(h, pairs[0].0, key, |h|)
      case CmpError => Null
      case Equal => pairs[0].1
      case _ => Lookup(h, pairs[1..], key)
  }

  /** The place in an array of `n` items that an index means, counted from the end if it is
      negative. The index is cut to a C `int`, unless the array is too long for that. */
  function PlaceOf(n: nat, i: int): (k: int)
    ensures 0 <= i < n ==> k == i
    ensures n < 0x8000_0000 && i < 0 <= i + n ==> k == n + i
  {
    var at := if n < 0x8000_0000 then Low32(i) else i;
    if at < 0 then n + at else at
  }

  /** An array takes an index and gives nil outside its bounds. The null pointer stands for an
      abort. */
  function ItemOf(h: Heap, v: Value, key: Value): Value {
    if IsArray(h, v) then
      var items := h[v.loc].items;
      if !key.Int? then Null
      else if 0 <= PlaceOf(|items|, key.i) < |items| then items[PlaceOf(|items|, key.i)]
      else Nil
    else if IsHash(h, v) then Lookup(h, h[v.loc].pairs, key)
    else Null
  }

  predicate Sized(h: Heap, v: Value) {
    IsArray(h, v) || IsHash(h, v)
  }

  function SizeOf(h: Heap, v: Value): nat
    requires Sized(h, v)
  {
    if IsArray(h, v) then |h[v.loc].items| else |h[v.loc].pairs|
  }

  const SIZE: nat := 0

  function AttrOf(h: Heap, v: Value, attr: Name): Value {
    if Sized(h, v) && attr == "size" then Native(SIZE, [v]) else Null
  }

  function CallNative(h: Heap, target: Value, args: seq<Value>): NativeAct {
    if target.Native? && target.id == SIZE && |target.bound| == 1 && Sized(h, target.bound[0]) && args == []
    then Finish(h, Int(SizeOf(h, target.bound[0])))
    else GiveUp
  }

  // ---------- numbers ----------

  const INT_RANGE: nat := 0x1_0000_0000

  predicate InInt(n: int) {
    -0x8000_0000 <= n < 0x8000_0000
  }

  /** The low 32 bits as a signed number: operands of integer arithmetic pass through a C `int`. */
  function Low32(n: int): (m: int)
    ensures InInt(m) && (InInt(n) ==> m == n)
  {
    var m := n % INT_RANGE;
    if m < 0x8000_0000 then m else m - INT_RANGE
  }

  /** C's division, which drops the fraction. */
  function Quotient(a: int, b: int): int
    requires b != 0
  {
    var q := (if a < 0 then -a else a) / (if b < 0 then -b else b);
    if (a < 0) == (b < 0) then q else -q
  }

  /** None where C defines no result. */
  function IntArith(op: ArithOp, a: int, b: int): Option<int> {
    if op.Div? && b == 0 then None
    else
      var r := match op case Add => a + b case Sub => a - b case Mul => a * b case Div => Quotient(a, b);
      if InInt(r) then Some(r) else None
  }

  /** None for a division by zero, whose result is no real number. */
  function RealArith(op: ArithOp, a: real, b: real): Option<real> {
    match op
    case Add => Some(a + b)
    case Sub => Some(a - b)
    case Mul => Some(a * b)
    case Div => if b == 0.0 then None else Some(a / b)
  }

  predicate IsNumber(v: Value) { v.Int? || v.Float? }

  function AsReal(v: Value): real
    requires IsNumber(v)
  {
    if v.Int? then v.i as real else v.f
  }

  /** Numbers: with a right operand that is none, the null pointer. A float on either side makes
      the result one. */
  function NumberOp(op: ArithOp, l: Value, r: Value): Option<Value>
    requires IsNumber(l)
  {
    if !IsNumber(r) then Some(Null)
    else if l.Float? || r.Float? then
      match RealArith(op, AsReal(l), AsReal(r)) case None => None case Some(f) => Some(Float(f))
    else
      match IntArith(op, Low32(l.i), Low32(r.i)) case None => None case Some(n) => Some(Int(n))
  }

  /** The class of the left operand computes: numbers all four operations, strings and arrays only
      `+`, which joins two of them. */
  function ArithOf(h: Heap, op: ArithOp, l: Value, r: Value): Option<(Heap, Value)> {
    if IsNumber(l) then
      match NumberOp(op, l, r) case None => None case Some(v) => Some((h, v))
    else if op.Add? && l.Str? && r.Str? then Some((h, Str(l.s + r.s)))
    else if op.Add? && IsArray(h, l) && IsArray(h, r) then Some((h + [ArrayObj(h[l.loc].items + h[r.loc].items)], Object(|h|)))
    else None
  }

  /** The operations of a process in which nothing else computes. */
  ghost predicate Computes(ops: Ops) {
    forall h, op, l, r :: ops.arith(h, op, l, r) == ArithOf(h, op, l, r)
  }

  const CLASSES: set<Name> := {"array", "bool", "float", "hash", "int", "str"}

  /** Operations of a process in which nothing else is defined. */
  function Operations(): Ops {
    Ops(
      fn => false,
      (h: Heap, l: Value, r: Value) => Cmp(h, l, r, |h|),
      (h: Heap, op: ArithOp, l: Value, r: Value) => None,
      (h: Heap, v: Value, attr: Name) => (h, AttrOf(h, v, attr)),
      (h: Heap, v: Value, key: Value) => (h, ItemOf(h, v, key)),
      (h: Heap, v: Value) => ClassOf(h, v),
      (h: Heap, fn: FnDecl, id: Name) => if id in CLASSES then Some(Class(id)) else None,
      (h: Heap, v: Value) => (h, Null),
      (h: Heap, target: Value, args: seq<Value>) => CallNative(h, target, args),
      (h: Heap, saved: seq<Value>, v: Value) => GiveUp
    )
  }
}
