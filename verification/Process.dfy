/** The compiler and the interpreter together: what running the words of a compiled program
    does is what its syntax tree means. */
module Process {
  import opened Options
  import opened Syntax
  import opened Semantics
  import opened CodeObjects
  import opened Codegen
  import opened Acceptance
  import opened Evaluator
  import opened Compilation
  import opened Interpreter
  import Ranges
  import Slots
  import Preservation
  import Tree

  type Table = seq<(FnDecl, CodeObject)>

  /** The code object of a function in a table. */
  function Find(table: Table, fn: FnDecl): (r: Option<CodeObject>)
    ensures r.Some? ==> (fn, r.value) in table
    ensures r.None? ==> forall co :: (fn, co) !in table
  {
    if table == [] then None
    else if table[0].0 == fn then Some(table[0].1)
    else Find(table[1..], fn)
  }

  /** The code objects of a process: those of the table, and for any other function it meets the
      one that compiling it elsewhere has made. */
  function CodeOf(table: Table): FnDecl -> CodeObject {
    fn => match Find(table, fn) case None => Assemble(FnCode(fn)) case Some(co) => co
  }

  /** What their words stand for. */
  function Words(table: Table): FnDecl -> seq<Instr> {
    fn => Decoded(CodeOf(table)(fn))
  }

  /** The value operations of a process: the functions whose names, constants and addresses fit
      the fields of a word have their code. */
  function Loaded(ops: Ops): Ops {
    ops.(loaded := fn => Encodable(FnCode(fn)))
  }

  lemma {:induction false} DecodedIs(co: CodeObject, code: seq<Instr>)
    requires Decodes(co, code)
    ensures Decoded(co) == code
  {
    assert Decodable(co);
  }

  lemma {:induction false} AssembledDecodable(code: seq<Instr>)
    ensures Decodable(Assemble(code))
  {
    hide Decode;
    forall pc | 0 <= pc < |code|
      ensures Decode(Assemble(code), pc).Some?
    {
      AssembledDecodes(code, pc);
    }
  }

  lemma {:induction false} FnDecodes(fn: FnDecl)
    requires Encodable(FnCode(fn))
    ensures Decodes(Assemble(FnCode(fn)), FnCode(fn))
  {
    Ranges.FnWithin(fn);
    forall k | 0 <= k < |FnCode(fn)|
      ensures IsJump(FnCode(fn)[k]) ==> FnCode(fn)[k].addr < OP_UNIT
      ensures IsCounted(FnCode(fn)[k]) ==> CountOf(FnCode(fn)[k]) < 256
    {
      assert Ranges.Target(FnCode(fn)[k], |FnCode(fn)|);
    }
    hide FnCode;
    AssembledExact(FnCode(fn));
  }

  /** The words of every function decode; they stand for its code exactly as it was emitted if
      the code fits. */
  lemma {:induction false} TableDecodes(table: Table, fn: FnDecl)
    requires AllCompile(table)
    ensures CodeOf(table)(fn) == Assemble(FnCode(fn)) && Decodes(CodeOf(table)(fn), Words(table)(fn))
    ensures Encodable(FnCode(fn)) ==> Words(table)(fn) == FnCode(fn)
  {
    hide Decodes, Decodable, FnCode, Assemble, Encodable;
    AssembledDecodable(FnCode(fn));
    var r := Find(table, fn);
    if r.Some? {
      var k :| 0 <= k < |table| && table[k] == (fn, r.value);
      assert Compiles(table[k].1, table[k].0);
    }
    if Encodable(FnCode(fn)) {
      FnDecodes(fn);
      DecodedIs(Assemble(FnCode(fn)), FnCode(fn));
    }
  }

  /** The words of compiled functions, decoded and run on the slots of the interpreter, do what
      the evaluator says. */
  lemma {:induction false} WordsPreserve(fuel: nat, ops: Ops, table: Table, slots: seq<Value>, size: nat, frames: seq<Frame>,
                                         target: Value, args: seq<Value>, w: World)
    requires AllCompile(table) && size <= |slots|
    ensures var r := Slots.CallSlots(fuel, Loaded(ops), Words(table), slots, size, frames, target, args, w);
            match CallFunction(fuel, Loaded(ops), Under(slots[..size]), frames, target, args, w)
            case Done(v, w') => r.Back? && r.v == v && r.w == w' && r.slots[..size] == slots[..size]
            case Stop(Missing(fn, given, under)) => given < |fn.params| && under.Some?
            case Stop(NotCompiled(fn)) => !Encodable(FnCode(fn)) || !FnOk(fn, true)
            case Stop(why) => r == Slots.Halt(why)
  {
    hide Words, Encodable, FnCode;
    forall fn | Encodable(FnCode(fn))
      ensures Words(table)(fn) == FnCode(fn)
    {
      TableDecodes(table, fn);
    }
    Slots.SlotsCorrect(fuel, Loaded(ops), Words(table), slots, size, frames, target, args, w);
  }

  lemma {:induction false} NoEntries()
    ensures Domain([]) == {} && AllCompile([])
  {
  }

  /** Compile a function and all functions in it. It is refused exactly if a node of its tree is
      one that the compiler cannot do; what is asked of the caller is asked of every node. */
  method CompileAll(fn: FnDecl) returns (ok: bool, table: Table)
    requires Tree.AllPlaced(Tree.FnNodes(fn, false))
    ensures ok <==> Tree.AllFine(Tree.FnNodes(fn, false), false)
    ensures ok ==> AllCompile(table) && forall f :: f in Domain(table) <==> f == fn || Tree.FnNode(f) in Tree.FnNodes(fn, false)
  {
    hide FnFns, FnOk, StmtsScoped, Domain, AllCompile, Tree.AllPlaced, Tree.AllFine, Tree.FnNodes;
    Tree.ScopedExact(fn);
    Tree.AcceptedExact(fn, false);
    NoEntries();
    var compiler := new Compiler();
    ok := compiler.CompileMethod(fn);
    table := compiler.methods;
    if ok {
      assert Domain(table) == {} + FnFns(fn);
      forall f
        ensures f in Domain(table) <==> f == fn || Tree.FnNode(f) in Tree.FnNodes(fn, false)
      {
        Tree.FnsExact(fn, f);
      }
    }
  }

  /** Compile a function and call it on a fresh interpreter. */
  method RunFunction(fn: FnDecl, args: seq<Value>, ops: Ops, world: World, fuel: nat)
    returns (ok: bool, res: Result, table: Table, vm: Vm)
    requires Tree.AllPlaced(Tree.FnNodes(fn, false))
    ensures ok <==> Tree.AllFine(Tree.FnNodes(fn, false), false)
    ensures ok ==> AllCompile(table) && forall f :: f in Domain(table) <==> f == fn || Tree.FnNode(f) in Tree.FnNodes(fn, false)
    ensures ok ==> Ends(Slots.CallSlots(fuel, Loaded(ops), Words(table), [], 0, [], Method(fn), args, world), res, vm.slots, vm.world)
    ensures ok ==>
      match CallFunction(fuel, Loaded(ops), None, [], Method(fn), args, world)
      case Done(v, w) => res == Got(v) && vm.world == w && vm.size == 0 && vm.frames == []
      case Stop(Missing(f, given, under)) => given < |f.params| && under.Some?
      case Stop(NotCompiled(f)) => !Encodable(FnCode(f)) || !Tree.AllFine(Tree.FnNodes(f, false), true)
      case Stop(why) => res == if why == OutOfFuel then Exhausted else Aborted
  {
    hide Slots.CallSlots, Words, CodeOf, FnOk, Domain, Tree.AllPlaced, Tree.AllFine, Tree.FnNodes;
    ok, table := CompileAll(fn);
    res := Aborted;
    if !ok {
      vm := new Vm(ops, _ => CodeObject([], [], []), world, _ => []);
      return;
    }
    vm, res := RunTable(table, fn, args, ops, world, fuel);
    ghost var out := CallFunction(fuel, Loaded(ops), None, [], Method(fn), args, world);
    if out.Stop? && out.why.NotCompiled? { Tree.AcceptedExact(out.why.fn, true); }
  }

  /** Call a function of a compiled table on a fresh interpreter. */
  method RunTable(table: Table, fn: FnDecl, args: seq<Value>, ops: Ops, world: World, fuel: nat) returns (vm: Vm, res: Result)
    requires AllCompile(table)
    ensures Ends(Slots.CallSlots(fuel, Loaded(ops), Words(table), [], 0, [], Method(fn), args, world), res, vm.slots, vm.world)
    ensures match CallFunction(fuel, Loaded(ops), None, [], Method(fn), args, world)
            case Done(v, w) => res == Got(v) && vm.world == w && vm.size == 0 && vm.frames == []
            case Stop(Missing(f, given, under)) => given < |f.params| && under.Some?
            case Stop(NotCompiled(f)) => !Encodable(FnCode(f)) || !FnOk(f, true)
            case Stop(why) => res == if why == OutOfFuel then Exhausted else Aborted
  {
    hide Slots.CallSlots, FnOk, Words, CodeOf;
    forall f
      ensures Decodes(CodeOf(table)(f), Words(table)(f))
    {
      TableDecodes(table, f);
    }
    vm := new Vm(Loaded(ops), CodeOf(table), world, Words(table));
    WordsPreserve(fuel, ops, table, vm.slots, 0, [], Method(fn), args, world);
    res := vm.CallObject(Method(fn), args, fuel);
  }
}
