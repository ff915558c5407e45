/** Messages between tasks: a value is flattened into one buffer whose size is computed ahead,
    and rebuilt from that buffer by the receiver. */
module Messages {
  import opened Options

  /** A value by the class the encoder looks at. Modules and methods are sent by reference;
      `Other` is any class that cannot be sent. */
  datatype Value =
    | Nil
    | Int(i: int)
    | Str(chars: string)
    | Array(items: seq<Value>)
    | Module(ref: nat)
    | Method(ref: nat, closure: bool)
    | Task(record: nat, local: bool)
    | Other

  datatype Cell =
    | NilCell
    | IntCell(i: int)
    | StrCell(data: nat, size: nat)
    | ArrayCell(items: nat, size: nat)
    | ModuleCell(ref: nat)
    | MethodCell(ref: nat)
    | TaskCell(record: nat)

  /** One byte of a buffer: where a cell starts, the rest of a cell, a character, or whatever
      the allocator left there. */
  datatype Slot = Junk | Head(cell: Cell) | Rest | Char(c: char)

  /** The size of a cell, and of the pointer counted once more for a task. */
  const CELL: nat := 24
  const TASK_WORD: nat := 8

  // ---------- sizes ----------

  /** The number of bytes reserved for a value. */
  function Size(v: Value): (n: nat) {
    match v
    case Str(s) => CELL + |s| + 1
    case Array(items) => CELL + SizeAll(items)
    case Task(_, _) => CELL + TASK_WORD
    case Other => 0
    case _ => CELL
  }

  function SizeAll(vs: seq<Value>): nat {
    if vs == [] then 0 else Size(vs[0]) + SizeAll(vs[1..])
  }

  /** Values the encoder accepts; for any other the process is aborted. */
  predicate Sendable(v: Value) {
    match v
    case Array(items) => SendableAll(items)
    case Method(_, closure) => !closure
    case Other => false
    case _ => true
  }

  predicate SendableAll(vs: seq<Value>) {
    vs == [] || (Sendable(vs[0]) && SendableAll(vs[1..]))
  }

  /** A value and everything inside of it. */
  function Inside(v: Value): set<Value> {
    {v} + if v.Array? then AllInside(v.items) else {}
  }

  function AllInside(vs: seq<Value>): set<Value> {
    if vs == [] then {} else Inside(vs[0]) + AllInside(vs[1..])
  }

  /** A closure, or a value of a class that cannot be sent. */
  predicate Refused(v: Value) {
    v == Other || (v.Method? && v.closure)
  }

  ghost predicate Allowed(vs: set<Value>) {
    forall x :: x in vs ==> !Refused(x)
  }

  /** A value can be sent exactly if nothing inside of it is refused. */
  lemma {:induction false} SendableExact(v: Value)
    ensures Sendable(v) <==> Allowed(Inside(v))
    decreases v
  {
    assert v in Inside(v);
    if v.Array? {
      SendableAllExact(v.items);
      AllowedBoth({v}, AllInside(v.items));
    }
  }

  lemma {:induction false} AllowedBoth(a: set<Value>, b: set<Value>)
    ensures Allowed(a + b) <==> Allowed(a) && Allowed(b)
  {
    hide Refused;
  }

  lemma {:induction false} SendableAllExact(vs: seq<Value>)
    ensures SendableAll(vs) <==> Allowed(AllInside(vs))
    decreases vs
  {
    if vs != [] {
      SendableExact(vs[0]);
      SendableAllExact(vs[1..]);
      AllowedBoth(Inside(vs[0]), AllInside(vs[1..]));
    }
  }

  /** How far the encoder moves its cursor for a value: not at all for nil. */
  function Written(v: Value): nat {
    match v
    case Nil => 0
    case Str(s) => CELL + |s| + 1
    case Array(items) => CELL + WrittenAll(items)
    case _ => CELL
  }

  function WrittenAll(vs: seq<Value>): nat {
    if vs == [] then 0 else Written(vs[0]) + WrittenAll(vs[1..])
  }

  /** How far the decoder moves its cursor for a value. */
  function Read(v: Value): nat {
    match v
    case Str(s) => CELL + |s| + 1
    case Array(items) => CELL + ReadAll(items)
    case _ => CELL
  }

  function ReadAll(vs: seq<Value>): nat {
    if vs == [] then 0 else Read(vs[0]) + ReadAll(vs[1..])
  }

  function Nils(v: Value): nat {
    match v
    case Nil => 1
    case Array(items) => NilsAll(items)
    case _ => 0
  }

  function NilsAll(vs: seq<Value>): nat {
    if vs == [] then 0 else Nils(vs[0]) + NilsAll(vs[1..])
  }

  /** The tasks a value refers to, each as often as it occurs. */
  function Tasks(v: Value): multiset<nat> {
    match v
    case Task(record, _) => multiset{record}
    case Array(items) => TasksAll(items)
    case _ => multiset{}
  }

  function TasksAll(vs: seq<Value>): multiset<nat> {
    if vs == [] then multiset{} else Tasks(vs[0]) + TasksAll(vs[1..])
  }

  lemma {:induction false} TasksAssoc(a: multiset<nat>, b: multiset<nat>, c: multiset<nat>)
    ensures a + b + c == a + (b + c)
  {
  }

  lemma {:induction false} TasksNone(a: multiset<nat>)
    ensures a + multiset{} == a
  {
  }

  /** The bytes reserved for a value are those the encoder passes over, a cell for each nil
      and a pointer for each task. */
  lemma {:induction false} SizeExact(v: Value)
    requires Sendable(v)
    ensures Size(v) == Written(v) + CELL * Nils(v) + TASK_WORD * |Tasks(v)|
    ensures Read(v) == Written(v) + CELL * Nils(v)
    decreases v
  {
    if v.Array? { SizeAllExact(v.items); }
  }

  lemma {:induction false} SizeAllExact(vs: seq<Value>)
    requires SendableAll(vs)
    ensures SizeAll(vs) == WrittenAll(vs) + CELL * NilsAll(vs) + TASK_WORD * |TasksAll(vs)|
    ensures ReadAll(vs) == WrittenAll(vs) + CELL * NilsAll(vs)
    decreases vs
  {
    if vs != [] {
      SizeExact(vs[0]);
      SizeAllExact(vs[1..]);
    }
  }

  // ---------- what encoding and decoding compute ----------

  function WriteAt(m: seq<Slot>, at: nat, s: seq<Slot>): (r: seq<Slot>)
    requires at + |s| <= |m|
    ensures |r| == |m| && r[..at] == m[..at] && r[at + |s|..] == m[at + |s|..]
    ensures forall j :: 0 <= j < |m| ==> r[j] == if at <= j < at + |s| then s[j - at] else m[j]
  {
    m[..at] + s + m[at + |s|..]
  }

  function CellSlots(c: Cell): (s: seq<Slot>)
    ensures |s| == CELL && s[0] == Head(c) && forall j :: 1 <= j < CELL ==> s[j] == Rest
  {
    [Head(c)] + seq(CELL - 1, i => Rest)
  }

  function Chars(s: string): (r: seq<Slot>)
    ensures |r| == |s| && forall j :: 0 <= j < |s| ==> r[j] == Char(s[j])
  {
    seq(|s|, i requires 0 <= i < |s| => Char(s[i]))
  }

  /** The characters in a stretch of the buffer. */
  function Text(m: seq<Slot>): (r: Option<string>)
    ensures r.Some? ==> |r.value| == |m|
  {
    if m == [] then Some([])
    else if !m[0].Char? then None
    else match Text(m[1..])
         case None => None
         case Some(s) => Some([m[0].c] + s)
  }

  lemma {:induction false} TextOfChars(s: string)
    ensures Text(Chars(s)) == Some(s)
  {
    if s != [] {
      TextOfChars(s[1..]);
      assert Chars(s)[1..] == Chars(s[1..]);
      assert [s[0]] + s[1..] == s;
    }
  }

  function ScalarCell(v: Value): Cell
    requires v.Int? || v.Module? || v.Method? || v.Task?
  {
    match v
    case Int(i) => IntCell(i)
    case Module(ref) => ModuleCell(ref)
    case Method(ref, _) => MethodCell(ref)
    case Task(record, _) => TaskCell(record)
  }

  /** The buffer and the cursor after a value has been encoded at the cursor. A nil writes the
      type of its cell and nothing else; the byte after a string's characters is not written. */
  function Put(m: seq<Slot>, at: nat, v: Value): (r: (seq<Slot>, nat))
    requires Sendable(v) && at + Size(v) <= |m|
    ensures |r.0| == |m| && r.1 == at + Written(v) <= at + Size(v)
    ensures forall j :: 0 <= j < |m| && !(at <= j < at + Size(v)) ==> r.0[j] == m[j]
    decreases v
  {
    SizeExact(v);
    match v
    case Nil => (WriteAt(m, at, [Head(NilCell)]), at)
    case Str(s) =>
      (WriteAt(WriteAt(m, at, CellSlots(StrCell(at + CELL, |s|))), at + CELL, Chars(s)), at + Size(v))
    case Array(items) =>
      PutAll(WriteAt(m, at, CellSlots(ArrayCell(at + CELL, |items|))), at + CELL, items)
    case _ => (WriteAt(m, at, CellSlots(ScalarCell(v))), at + CELL)
  }

  function PutAll(m: seq<Slot>, at: nat, vs: seq<Value>): (r: (seq<Slot>, nat))
    requires SendableAll(vs) && at + SizeAll(vs) <= |m|
    ensures |r.0| == |m| && r.1 == at + WrittenAll(vs) <= at + SizeAll(vs)
    ensures forall j :: 0 <= j < |m| && !(at <= j < at + SizeAll(vs)) ==> r.0[j] == m[j]
    decreases vs
  {
    SizeAllExact(vs);
    if vs == [] then (m, at) else
    var (m1, next) := Put(m, at, vs[0]);
    PutAll(m1, next, vs[1..])
  }

  /** The value that starts at the cursor and the cursor after it; nothing if there is no cell
      at the cursor or the cell reaches beyond the buffer. A task arrives as a handle that is
      not local to the receiver. */
  function Get(m: seq<Slot>, at: nat): (r: Option<(Value, nat)>)
    ensures r.Some? ==> at < r.value.1 <= |m|
    decreases if at <= |m| then |m| - at else 0, 0
  {
    if at + CELL > |m| || !m[at].Head? then None else
    match m[at].cell
    case NilCell => Some((Nil, at + CELL))
    case IntCell(i) => Some((Int(i), at + CELL))
    case StrCell(data, size) =>
      if data + size > |m| || at + CELL + size + 1 > |m| then None
      else
        (match Text(m[data..data + size])
         case None => None
         case Some(s) => Some((Str(s), at + CELL + size + 1)))
    case ArrayCell(_, size) =>
      (match GetAll(m, at + CELL, size)
       case None => None
       case Some((vs, next)) => Some((Array(vs), next)))
    case ModuleCell(ref) => Some((Module(ref), at + CELL))
    case MethodCell(ref) => Some((Method(ref, false), at + CELL))
    case TaskCell(record) => Some((Task(record, false), at + CELL))
  }

  function GetAll(m: seq<Slot>, at: nat, n: nat): (r: Option<(seq<Value>, nat)>)
    requires at <= |m|
    ensures r.Some? ==> at <= r.value.1 <= |m| && |r.value.0| == n
    decreases |m| - at, 1
  {
    if n == 0 then Some(([], at)) else
    match Get(m, at)
    case None => None
    case Some((v, next)) =>
      match GetAll(m, next, n - 1)
      case None => None
      case Some((vs, end)) => Some(([v] + vs, end))
  }

  /** What is left of a value after a round trip: task handles are no longer local. */
  function Plain(v: Value): Value {
    match v
    case Array(items) => Array(PlainAll(items))
    case Task(record, _) => Task(record, false)
    case _ => v
  }

  function PlainAll(vs: seq<Value>): (r: seq<Value>)
    ensures |r| == |vs|
  {
    if vs == [] then [] else [Plain(vs[0])] + PlainAll(vs[1..])
  }

  // ---------- the round trip ----------

  /** Nil is at most the last cell that is written. */
  predicate NilLast(v: Value) {
    v.Array? ==> NilLastAll(v.items)
  }

  predicate NilLastAll(vs: seq<Value>) {
    vs == [] || (if |vs| == 1 then NilLast(vs[0]) else Nils(vs[0]) == 0 && NilLastAll(vs[1..]))
  }

  lemma {:induction false} NoNilLast(v: Value)
    requires Nils(v) == 0
    ensures NilLast(v)
    decreases v
  {
    if v.Array? { NoNilLastAll(v.items); }
  }

  lemma {:induction false} NoNilLastAll(vs: seq<Value>)
    requires NilsAll(vs) == 0
    ensures NilLastAll(vs)
    decreases vs
  {
    if vs != [] {
      NoNilLast(vs[0]);
      NoNilLastAll(vs[1..]);
    }
  }

  /** The cells of `v` are in the buffer from `at` on, where the decoder looks for them. */
  ghost predicate Laid(m: seq<Slot>, at: nat, v: Value)
    decreases v
  {
    && at + Read(v) <= |m|
    && match v
       case Nil => m[at] == Head(NilCell)
       case Str(s) =>
         m[at] == Head(StrCell(at + CELL, |s|)) && forall j :: 0 <= j < |s| ==> m[at + CELL + j] == Char(s[j])
       case Array(items) =>
         m[at] == Head(ArrayCell(at + CELL, |items|)) && LaidAll(m, at + CELL, items)
       case Other => false
       case _ => m[at] == Head(ScalarCell(v))
  }

  ghost predicate LaidAll(m: seq<Slot>, at: nat, vs: seq<Value>)
    decreases vs
  {
    vs == [] || (Laid(m, at, vs[0]) && LaidAll(m, at + Read(vs[0]), vs[1..]))
  }

  lemma {:induction false} LaidFrame(m: seq<Slot>, m': seq<Slot>, at: nat, v: Value)
    requires Laid(m, at, v) && |m| == |m'|
    requires forall j :: at <= j < at + Read(v) ==> m'[j] == m[j]
    ensures Laid(m', at, v)
    decreases v
  {
    if v.Array? { LaidAllFrame(m, m', at + CELL, v.items); }
  }

  lemma {:induction false} LaidAllFrame(m: seq<Slot>, m': seq<Slot>, at: nat, vs: seq<Value>)
    requires LaidAll(m, at, vs) && |m| == |m'| && at + ReadAll(vs) <= |m|
    requires forall j :: at <= j < at + ReadAll(vs) ==> m'[j] == m[j]
    ensures LaidAll(m', at, vs)
    decreases vs
  {
    if vs != [] {
      LaidFrame(m, m', at, vs[0]);
      LaidAllFrame(m, m', at + Read(vs[0]), vs[1..]);
    }
  }

  lemma {:induction false} PutLays(m: seq<Slot>, at: nat, v: Value)
    requires Sendable(v) && NilLast(v) && at + Size(v) <= |m|
    ensures Laid(Put(m, at, v).0, at, v)
    decreases v
  {
    SizeExact(v);
    if v.Array? {
      var m1 := WriteAt(m, at, CellSlots(ArrayCell(at + CELL, |v.items|)));
      PutAllLays(m1, at + CELL, v.items);
      assert Put(m, at, v).0[at] == m1[at];
    }
  }

  lemma {:induction false} PutAllFirst(m: seq<Slot>, at: nat, vs: seq<Value>)
    requires SendableAll(vs) && at + SizeAll(vs) <= |m| && vs != []
    ensures Sendable(vs[0]) && SendableAll(vs[1..]) && SizeAll(vs) == Size(vs[0]) + SizeAll(vs[1..])
    ensures Written(vs[0]) <= Size(vs[0])
    ensures var (m1, next) := Put(m, at, vs[0]);
      next == at + Written(vs[0]) && PutAll(m, at, vs) == PutAll(m1, next, vs[1..])
  {
    SizeExact(vs[0]);
  }

  lemma {:induction false} PutAllLays(m: seq<Slot>, at: nat, vs: seq<Value>)
    requires SendableAll(vs) && NilLastAll(vs) && at + SizeAll(vs) <= |m|
    ensures LaidAll(PutAll(m, at, vs).0, at, vs)
    decreases vs
  {
    if vs != [] {
      hide Put, PutAll, Laid, Size, Written, Read, Nils;
      PutAllFirst(m, at, vs);
      SizeExact(vs[0]);
      if |vs| > 1 { NoNilLast(vs[0]); }
      PutLays(m, at, vs[0]);
      var (m1, next) := Put(m, at, vs[0]);
      if |vs| > 1 {
        assert next == at + Read(vs[0]);
        PutAllLays(m1, next, vs[1..]);
        LaidFrame(m1, PutAll(m1, next, vs[1..]).0, at, vs[0]);
      } else {
        PutNone(m1, next);
      }
    }
  }

  lemma {:induction false} PutNone(m: seq<Slot>, at: nat)
    requires at <= |m|
    ensures PutAll(m, at, []) == (m, at)
  {
  }

  lemma {:induction false} LaidReads(m: seq<Slot>, at: nat, v: Value)
    requires Laid(m, at, v) && Sendable(v)
    ensures Get(m, at) == Some((Plain(v), at + Read(v)))
    decreases v
  {
    match v
    case Array(items) => LaidAllReads(m, at + CELL, items);
    case Str(s) =>
      TextOfChars(s);
      assert m[at + CELL..at + CELL + |s|] == Chars(s);
    case _ =>
  }

  lemma {:induction false} LaidAllReads(m: seq<Slot>, at: nat, vs: seq<Value>)
    requires LaidAll(m, at, vs) && SendableAll(vs) && at + ReadAll(vs) <= |m|
    ensures GetAll(m, at, |vs|) == Some((PlainAll(vs), at + ReadAll(vs)))
    decreases vs
  {
    if vs != [] {
      LaidReads(m, at, vs[0]);
      LaidAllReads(m, at + Read(vs[0]), vs[1..]);
    }
  }

  // ---------- nil anywhere else ----------

  /** Where the encoder writes the last cell of a value, counted from the value's first byte. */
  function LastWritten(v: Value): nat {
    if v.Array? && v.items != [] then CELL + LastWrittenAll(v.items) else 0
  }

  function LastWrittenAll(vs: seq<Value>): nat
    requires vs != []
  {
    if |vs| == 1 then LastWritten(vs[0]) else Written(vs[0]) + LastWrittenAll(vs[1..])
  }

  /** Where the decoder looks for it. */
  function LastRead(v: Value): nat {
    if v.Array? && v.items != [] then CELL + LastReadAll(v.items) else 0
  }

  function LastReadAll(vs: seq<Value>): nat
    requires vs != []
  {
    if |vs| == 1 then LastRead(vs[0]) else Read(vs[0]) + LastReadAll(vs[1..])
  }

  lemma {:induction false} LastApart(v: Value)
    requires Sendable(v)
    ensures LastWritten(v) <= LastRead(v) && (!NilLast(v) ==> LastWritten(v) < LastRead(v))
    ensures LastWritten(v) <= Written(v)
    decreases v
  {
    if v.Array? {
      assert NilLast(v) == NilLastAll(v.items);
      if v.items != [] { LastApartAll(v.items); }
    }
  }

  lemma {:induction false} LastApartAll(vs: seq<Value>)
    requires vs != [] && SendableAll(vs)
    ensures LastWrittenAll(vs) <= LastReadAll(vs) && (!NilLastAll(vs) ==> LastWrittenAll(vs) < LastReadAll(vs))
    ensures LastWrittenAll(vs) <= WrittenAll(vs)
    decreases vs
  {
    LastApart(vs[0]);
    SizeExact(vs[0]);
    if |vs| > 1 {
      LastApartAll(vs[1..]);
    } else {
      assert WrittenAll(vs[1..]) == 0;
    }
  }

  /** No cell starts beyond the last one written. */
  lemma {:induction false} HeadsBefore(m: seq<Slot>, at: nat, v: Value, j: nat)
    requires Sendable(v) && at + Size(v) <= |m|
    requires at + LastWritten(v) < j < |m| && !m[j].Head?
    ensures !Put(m, at, v).0[j].Head?
    decreases v
  {
    if v.Array? {
      HeadsBeforeAll(WriteAt(m, at, CellSlots(ArrayCell(at + CELL, |v.items|))), at + CELL, v.items, j);
    }
  }

  lemma {:induction false} HeadsBeforeAll(m: seq<Slot>, at: nat, vs: seq<Value>, j: nat)
    requires SendableAll(vs) && at + SizeAll(vs) <= |m|
    requires j < |m| && !m[j].Head?
    requires vs != [] ==> at + LastWrittenAll(vs) < j
    ensures !PutAll(m, at, vs).0[j].Head?
    decreases vs
  {
    if vs != [] {
      LastApart(vs[0]);
      HeadsBefore(m, at, vs[0], j);
      var (m1, next) := Put(m, at, vs[0]);
      HeadsBeforeAll(m1, next, vs[1..], j);
    }
  }

  lemma {:induction false} LastIsRead(m: seq<Slot>, at: nat, v: Value)
    requires Get(m, at).Some? && Get(m, at).value.0 == Plain(v)
    ensures Get(m, at).value.1 == at + Read(v)
    ensures at + LastRead(v) < |m| && m[at + LastRead(v)].Head?
    decreases v
  {
    if v.Array? {
      assert m[at].cell.ArrayCell? && m[at].cell.size == |v.items|;
      if v.items != [] { LastIsReadAll(m, at + CELL, v.items); }
    }
  }

  lemma {:induction false} LastIsReadAll(m: seq<Slot>, at: nat, vs: seq<Value>)
    requires vs != [] && at <= |m|
    requires GetAll(m, at, |vs|).Some? && GetAll(m, at, |vs|).value.0 == PlainAll(vs)
    ensures GetAll(m, at, |vs|).value.1 == at + ReadAll(vs)
    ensures at + LastReadAll(vs) < |m| && m[at + LastReadAll(vs)].Head?
    decreases vs
  {
    var first := Get(m, at);
    var rest := GetAll(m, first.value.1, |vs| - 1);
    assert GetAll(m, at, |vs|).value.0[0] == first.value.0 && GetAll(m, at, |vs|).value.0[1..] == rest.value.0;
    assert PlainAll(vs)[0] == Plain(vs[0]) && PlainAll(vs)[1..] == PlainAll(vs[1..]);
    LastIsRead(m, at, vs[0]);
    if |vs| > 1 { LastIsReadAll(m, at + Read(vs[0]), vs[1..]); }
  }

  // ---------- packing and unpacking ----------

  /** What a receiver gets from a buffer that held `junk` before the value was packed. */
  function RoundTrip(junk: seq<Slot>, v: Value): Option<Value>
    requires Sendable(v) && |junk| == Size(v)
  {
    match Get(Put(junk, 0, v).0, 0)
    case None => None
    case Some((back, _)) => Some(back)
  }

  /** A value comes back unchanged, whatever the allocated memory held before, exactly when
      nil is at most the last cell that is written. */
  lemma {:induction false} RoundTripExact(v: Value)
    requires Sendable(v)
    ensures NilLast(v) <==> forall junk :: |junk| == Size(v) ==> RoundTrip(junk, v) == Some(Plain(v))
  {
    if NilLast(v) {
      forall junk: seq<Slot> | |junk| == Size(v) ensures RoundTrip(junk, v) == Some(Plain(v)) {
        PutLays(junk, 0, v);
        LaidReads(Put(junk, 0, v).0, 0, v);
      }
    } else {
      var junk := seq(Size(v), i => Junk);
      if RoundTrip(junk, v) == Some(Plain(v)) {
        var m := Put(junk, 0, v).0;
        LastIsRead(m, 0, v);
        LastApart(v);
        HeadsBefore(junk, 0, v, LastRead(v));
        assert false;
      }
    }
  }

  /** A nil in front of another item: the decoder reads the 1 in its place and then, behind it,
      whatever the memory held. Fresh memory makes it fail; with a cell that is left there from
      before, the array comes back as [1, 2]. */
  lemma {:induction false} NilFirstExample()
    ensures var v := Array([Nil, Int(1)]);
      && Sendable(v) && !NilLast(v) && Size(v) == 72
      && RoundTrip(seq(72, _ => Junk), v) == None
      && RoundTrip(seq(72, i => if i == 48 then Head(IntCell(2)) else Junk), v) == Some(Array([Int(1), Int(2)]))
  {
    NilFirst(seq(72, _ => Junk));
    NilFirst(seq(72, i => if i == 48 then Head(IntCell(2)) else Junk));
  }

  lemma {:induction false} NilFirst(junk: seq<Slot>)
    requires |junk| == 72
    ensures var v := Array([Nil, Int(1)]);
      && Sendable(v) && !NilLast(v) && Size(v) == 72
      && (junk[48] == Junk ==> RoundTrip(junk, v) == None)
      && (junk[48] == Head(IntCell(2)) ==> RoundTrip(junk, v) == Some(Array([Int(1), Int(2)])))
  {
    NilFirstSize();
    var m := Put(junk, 0, Array([Nil, Int(1)])).0;
    NilFirstPut(junk);
    hide Put, Size, Sendable, NilLast, GetAll;
    PairReads(m, 24);
    GetAtHead(m);
  }

  lemma {:induction false} NilFirstSize()
    ensures var v := Array([Nil, Int(1)]); Sendable(v) && !NilLast(v) && Size(v) == 72
  {
    var items := [Nil, Int(1)];
    assert items[1..] == [Int(1)] && items[1..][1..] == [];
  }

  /** The cell of the number overwrites that of nil. */
  lemma {:induction false} NilFirstPut(junk: seq<Slot>)
    requires |junk| == 72
    ensures Sendable(Array([Nil, Int(1)])) && Size(Array([Nil, Int(1)])) == 72
    ensures var m := Put(junk, 0, Array([Nil, Int(1)])).0;
      |m| == 72 && m[0] == Head(ArrayCell(CELL, 2)) && m[24] == Head(IntCell(1)) && m[48] == junk[48]
  {
    NilFirstSize();
    var items := [Nil, Int(1)];
    assert items[1..] == [Int(1)] && items[1..][1..] == [];
    hide Size, Sendable, NilLast;
    var m0 := WriteAt(junk, 0, CellSlots(ArrayCell(CELL, 2)));
    var m1 := WriteAt(m0, 24, [Head(NilCell)]);
    var m := WriteAt(m1, 24, CellSlots(IntCell(1)));
    assert PutAll(m, 48, []) == (m, 48) && PutAll(m1, 24, [Int(1)]) == (m, 48) && PutAll(m0, 24, items) == (m, 48);
  }

  lemma {:induction false} GetAtHead(m: seq<Slot>)
    requires |m| >= CELL && m[0] == Head(ArrayCell(CELL, 2))
    ensures Get(m, 0) == match GetAll(m, CELL, 2) case None => None case Some((vs, next)) => Some((Array(vs), next))
  {
  }

  lemma {:induction false} PairReads(m: seq<Slot>, at: nat)
    requires at + 2 * CELL == |m| && m[at] == Head(IntCell(1))
    ensures m[at + CELL] == Junk ==> GetAll(m, at, 2) == None
    ensures m[at + CELL] == Head(IntCell(2)) ==> GetAll(m, at, 2) == Some(([Int(1), Int(2)], |m|))
  {
    var n := 0;
    assert GetAll(m, |m|, n) == Some(([], |m|));
    assert Get(m, at) == Some((Int(1), at + CELL));
    if m[at + CELL] == Head(IntCell(2)) {
      assert Get(m, at + CELL) == Some((Int(2), |m|));
      assert [Int(2)] + [] == [Int(2)] && [Int(1)] + [Int(2)] == [Int(1), Int(2)];
      assert GetAll(m, at + CELL, n + 1) == Some(([Int(2)], |m|));
      assert GetAll(m, at, n + 2) == Some(([Int(1), Int(2)], |m|));
    } else if m[at + CELL] == Junk {
      assert GetAll(m, at + CELL, n + 1) == None;
    }
  }

  /** The decoder looks for every cell where the encoder wrote it, and stops where the encoder
      stopped, unless the last cell is nil. */
  lemma {:induction false} InStep(junk: seq<Slot>, v: Value)
    requires Sendable(v) && NilLast(v) && |junk| == Size(v)
    ensures var (m, end) := Put(junk, 0, v);
      && Laid(m, 0, v)
      && Get(m, 0).Some? && Get(m, 0).value.1 == end + CELL * Nils(v) == Size(v) - TASK_WORD * |Tasks(v)|
      && Nils(v) <= 1
  {
    PutLays(junk, 0, v);
    LaidReads(Put(junk, 0, v).0, 0, v);
    SizeExact(v);
    NilOnce(v);
  }

  lemma {:induction false} NilOnce(v: Value)
    requires NilLast(v)
    ensures Nils(v) <= 1
    decreases v
  {
    if v.Array? { NilOnceAll(v.items); }
  }

  lemma {:induction false} NilOnceAll(vs: seq<Value>)
    requires NilLastAll(vs)
    ensures NilsAll(vs) <= 1
    decreases vs
  {
    if vs != [] {
      if |vs| > 1 {
        NilOnceAll(vs[1..]);
      } else {
        NilOnce(vs[0]);
        assert NilsAll(vs[1..]) == 0;
      }
    }
  }

  lemma {:induction false} PlainTasks(v: Value)
    ensures Tasks(Plain(v)) == Tasks(v)
    decreases v
  {
    if v.Array? { PlainTasksAll(v.items); }
  }

  lemma {:induction false} PlainTasksAll(vs: seq<Value>)
    ensures TasksAll(PlainAll(vs)) == TasksAll(vs)
    decreases vs
  {
    if vs != [] {
      PlainTasks(vs[0]);
      PlainTasksAll(vs[1..]);
      assert PlainAll(vs)[1..] == PlainAll(vs[1..]);
    }
  }

  // ---------- the encoder and the decoder ----------

  /** The reference counts of all task records, and the handles that have been made. */
  class Records {
    var refs: multiset<nat>
    var handles: multiset<nat>

    constructor ()
      ensures refs == multiset{} && handles == multiset{}
    {
      refs, handles := multiset{}, multiset{};
    }

    method Ref(record: nat)
      modifies this`refs
      ensures refs == old(refs) + multiset{record}
    {
      refs := refs + multiset{record};
    }

    /** A count that is already zero stays so. */
    method Unref(record: nat)
      modifies this`refs
      ensures refs == old(refs) - multiset{record}
    {
      refs := refs - multiset{record};
    }

    method NewHandle(record: nat)
      modifies this
      ensures refs == old(refs) + multiset{record} && handles == old(handles) + multiset{record}
    {
      handles := handles + multiset{record};
      Ref(record);
    }
  }

  /** One message's buffer. */
  class Message {
    const size: nat
    const bytes: array<Slot>

    /** Allocate the buffer; its contents are arbitrary. */
    constructor (junk: seq<Slot>)
      ensures size == |junk| == bytes.Length && bytes[..] == junk && fresh(bytes)
    {
      size := |junk|;
      bytes := new Slot[|junk|](i requires 0 <= i < |junk| => junk[i]);
    }

    method WriteCell(at: nat, c: Cell)
      requires at + CELL <= bytes.Length
      modifies bytes
      ensures bytes[..] == WriteAt(old(bytes[..]), at, CellSlots(c))
    {
      forall j | at < j < at + CELL { bytes[j] := Rest; }
      bytes[at] := Head(c);
    }

    method CopyChars(at: nat, s: string)
      requires at + |s| <= bytes.Length
      modifies bytes
      ensures bytes[..] == WriteAt(old(bytes[..]), at, Chars(s))
    {
      forall j | at <= j < at + |s| { bytes[j] := Char(s[j - at]); }
    }

    /** Encode one value at the cursor; false if the process was aborted. */
    method EncodeStr(at: nat, s: string)
      requires at + CELL + |s| <= bytes.Length
      modifies bytes
      ensures bytes[..] == WriteAt(WriteAt(old(bytes[..]), at, CellSlots(StrCell(at + CELL, |s|))), at + CELL, Chars(s))
    {
      WriteCell(at, StrCell(at + CELL, |s|));
      CopyChars(at + CELL, s);
    }

    method EncodeValue(at: nat, v: Value, records: Records) returns (ok: bool, next: nat)
      requires at + Size(v) <= bytes.Length
      modifies bytes, records`refs
      ensures ok == Sendable(v)
      ensures ok ==> (bytes[..], next) == Put(old(bytes[..]), at, v) && records.refs == old(records.refs) + Tasks(v)
      decreases v, 0
    {
      ok, next := true, at + CELL;
      match v
      case Nil =>
        bytes[at] := Head(NilCell);
        assert bytes[..] == WriteAt(old(bytes[..]), at, [Head(NilCell)]);
        next := at;
      case Str(s) =>
        EncodeStr(at, s);
        next := at + CELL + |s| + 1;
      case Array(items) =>
        WriteCell(at, ArrayCell(at + CELL, |items|));
        ok, next := EncodeItems(at + CELL, items, records);
      case Method(ref, closure) =>
        if closure { return false, at; }
        WriteCell(at, MethodCell(ref));
      case Task(record, _) =>
        WriteCell(at, TaskCell(record));
        records.Ref(record);
      case Other =>
        ok := false;
      case Int(i) =>
        WriteCell(at, IntCell(i));
      case Module(ref) =>
        WriteCell(at, ModuleCell(ref));
    }

    method EncodeItems(at: nat, items: seq<Value>, records: Records) returns (ok: bool, next: nat)
      requires at + SizeAll(items) <= bytes.Length
      modifies bytes, records`refs
      ensures ok == SendableAll(items)
      ensures ok ==> (bytes[..], next) == PutAll(old(bytes[..]), at, items) && records.refs == old(records.refs) + TasksAll(items)
      decreases items, 1
    {
      hide Put, Sendable, Tasks, Size;
      next := at;
      var i := 0;
      while i < |items|
        invariant 0 <= i <= |items|
        invariant SendableAll(items) == SendableAll(items[i..])
        invariant next + SizeAll(items[i..]) <= bytes.Length
        invariant SendableAll(items) ==> PutAll(bytes[..], next, items[i..]) == PutAll(old(bytes[..]), at, items)
        invariant records.refs + TasksAll(items[i..]) == old(records.refs) + TasksAll(items)
      {
        assert items[i..][0] == items[i] && items[i..][1..] == items[i + 1..];
        TasksAssoc(records.refs, Tasks(items[i]), TasksAll(items[i + 1..]));
        var done;
        done, next := EncodeValue(next, items[i], records);
        if !done { return false, next; }
        SizeExact(items[i]);
        i := i + 1;
      }
      assert items[i..] == [];
      TasksNone(records.refs);
      ok := true;
    }

    /** Decode the value at the cursor; nothing if there is no cell the decoder knows. */
    method DecodeValue(at: nat, records: Records) returns (r: Option<(Value, nat)>)
      modifies records
      ensures r == Get(bytes[..], at)
      ensures r.Some? ==> records.refs == old(records.refs) && records.handles == old(records.handles) + Tasks(r.value.0)
      decreases if at <= bytes.Length then bytes.Length - at else 0, 0
    {
      if at + CELL > bytes.Length || !bytes[at].Head? { return None; }
      var cell := bytes[at].cell;
      match cell
      case NilCell => r := Some((Nil, at + CELL));
      case IntCell(i) => r := Some((Int(i), at + CELL));
      case StrCell(data, n) =>
        if data + n > bytes.Length || at + CELL + n + 1 > bytes.Length { return None; }
        var s := Text(bytes[..][data..data + n]);
        r := if s.None? then None else Some((Str(s.value), at + CELL + n + 1));
      case ArrayCell(_, n) =>
        var items := DecodeItems(at + CELL, n, records);
        r := if items.None? then None else Some((Array(items.value.0), items.value.1));
      case ModuleCell(ref) => r := Some((Module(ref), at + CELL));
      case MethodCell(ref) => r := Some((Method(ref, false), at + CELL));
      case TaskCell(record) =>
        records.NewHandle(record);
        records.Unref(record);
        r := Some((Task(record, false), at + CELL));
    }

    method DecodeItems(at: nat, n: nat, records: Records) returns (r: Option<(seq<Value>, nat)>)
      requires at <= bytes.Length
      modifies records
      ensures r == GetAll(bytes[..], at, n)
      ensures r.Some? ==> records.refs == old(records.refs) && records.handles == old(records.handles) + TasksAll(r.value.0)
      decreases bytes.Length - at, 1
    {
      hide Tasks, TasksAll, Get, GetAll, After;
      var items: seq<Value>, next, i := [], at, 0;
      AfterNothing(GetAll(bytes[..], at, n));
      HandlesNone(records.handles);
      while i < n
        invariant 0 <= i <= n && |items| == i && at <= next <= bytes.Length
        invariant GetAll(bytes[..], at, n) == After(items, GetAll(bytes[..], next, n - i))
        invariant records.refs == old(records.refs) && records.handles == old(records.handles) + TasksAll(items)
      {
        GetAllNext(bytes[..], next, n - i);
        AfterNone(items);
        var item := DecodeValue(next, records);
        if item.None? { return None; }
        AfterPush(items, item.value.0, GetAll(bytes[..], item.value.1, n - i - 1));
        HandlesPush(old(records.handles), items, item.value.0);
        items, next, i := items + [item.value.0], item.value.1, i + 1;
      }
      GetAllNone(bytes[..], next, items);
      r := Some((items, next));
    }
  }

  /** A decoded prefix followed by the rest. */
  function After(items: seq<Value>, rest: Option<(seq<Value>, nat)>): Option<(seq<Value>, nat)> {
    match rest case None => None case Some((vs, end)) => Some((items + vs, end))
  }

  lemma {:induction false} GetAllNext(b: seq<Slot>, at: nat, n: nat)
    requires at <= |b| && n > 0
    ensures GetAll(b, at, n) == match Get(b, at) case None => None case Some((v, next)) => After([v], GetAll(b, next, n - 1))
  {
    hide Get;
  }

  lemma {:induction false} GetAllNone(b: seq<Slot>, at: nat, items: seq<Value>)
    requires at <= |b|
    ensures After(items, GetAll(b, at, 0)) == Some((items, at))
  {
    assert items + [] == items;
  }

  lemma {:induction false} AfterNone(items: seq<Value>)
    ensures After(items, None) == None
  {
  }

  lemma {:induction false} HandlesNone(handles: multiset<nat>)
    ensures handles + TasksAll([]) == handles
  {
  }

  lemma {:induction false} HandlesPush(handles: multiset<nat>, items: seq<Value>, v: Value)
    ensures handles + TasksAll(items) + Tasks(v) == handles + TasksAll(items + [v])
  {
    hide Tasks, TasksAll;
    TasksPush(items, v);
    TasksAssoc(handles, TasksAll(items), Tasks(v));
  }

  lemma {:induction false} AfterNothing(rest: Option<(seq<Value>, nat)>)
    ensures After([], rest) == rest
  {
    if rest.Some? { assert [] + rest.value.0 == rest.value.0; }
  }

  lemma {:induction false} AfterPush(items: seq<Value>, v: Value, rest: Option<(seq<Value>, nat)>)
    ensures After(items + [v], rest) == After(items, After([v], rest))
  {
    if rest.Some? { assert items + [v] + rest.value.0 == items + ([v] + rest.value.0); }
  }

  lemma {:induction false} TasksPush(items: seq<Value>, v: Value)
    ensures TasksAll(items + [v]) == TasksAll(items) + Tasks(v)
  {
    if items == [] {
      assert items + [v] == [v] && [v][1..] == [];
    } else {
      TasksPush(items[1..], v);
      assert (items + [v])[1..] == items[1..] + [v];
    }
  }

  /** Pack a value into a new buffer that holds `junk` at first. Nothing is returned when the
      process was aborted: while sizing for a class that cannot be sent, or while encoding a
      closure. */
  method Pack(v: Value, junk: seq<Slot>, records: Records) returns (r: Option<Message>)
    requires |junk| == Size(v)
    modifies records`refs
    ensures r.Some? <==> Sendable(v)
    ensures r.Some? ==> fresh(r.value.bytes) && r.value.bytes[..] == Put(junk, 0, v).0
    ensures r.Some? ==> records.refs == old(records.refs) + Tasks(v)
  {
    var message := new Message(junk);
    var ok, end := message.EncodeValue(0, v, records);
    r := if ok then Some(message) else None;
  }

  /** Unpack a message. Packed from `v`, it gives back `v`; every task in it has one more
      handle and, with the reference taken when it was packed, one more reference. */
  method Unpack(message: Message, records: Records, ghost v: Value, ghost junk: seq<Slot>) returns (r: Option<Value>)
    requires Sendable(v) && |junk| == Size(v) && message.bytes[..] == Put(junk, 0, v).0
    modifies records
    ensures r == RoundTrip(junk, v)
    ensures NilLast(v) ==> r == Some(Plain(v)) && records.refs == old(records.refs) && records.handles == old(records.handles) + Tasks(v)
  {
    hide Get, Put, Tasks, Plain, NilLast, Sendable, Size;
    var decoded := message.DecodeValue(0, records);
    r := if decoded.None? then None else Some(decoded.value.0);
    RoundTripExact(v);
    PlainTasks(v);
  }
}
