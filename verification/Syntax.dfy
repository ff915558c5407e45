/** Values, the abstract syntax tree and the decoded instruction set shared by
    the compiler, the virtual machine and the reference evaluator. */
module Syntax {
  import opened Options

  type Name = string

  datatype CmpOp = Eq | Neq | Gt | Gte | Lt | Lte

  datatype ArithOp = Add | Sub | Mul | Div

  datatype BinOp = Compare(cmp: CmpOp) | Arith(arith: ArithOp) | And | Or

  /** A reference as the machine sees it. `Null` is the C null pointer: a variable that
      was declared but never stored holds it, and so does a failed arithmetic operation. */
  datatype Value =
    | Null
    | Nil
    | Bool(b: bool)
    | Int(i: int)
    | Float(f: real)
    | Str(s: string)
    | Class(name: Name)
    | Object(loc: nat)
    | Native(id: nat, bound: seq<Value>)
    | Method(fn: FnDecl)
    | Closure(fn: FnDecl, bindings: map<Name, Binding>)

  /** An entry of a frame's locals: a shared variable cell, or a value captured from
      the module or the builtins. */
  datatype Binding = Cell(loc: nat) | Direct(v: Value)

  datatype Expr =
    | Lit(v: Value)
    | NilLit
    | Ident(id: Name)
    | ArrayLit(items: seq<Expr>)
    | HashLit(items: seq<Expr>)        // key, value, key, value, ...
    | CallExpr(target: Expr, args: seq<Expr>)
    | GetAttrExpr(target: Expr, attr: Name)
    | GetItemExpr(target: Expr, key: Expr)
    | NotExpr(e: Expr)
    | Binary(op: BinOp, left: Expr, right: Expr)
    | FnExpr(fn: FnDecl)
    | SpawnExpr(target: Expr, args: seq<Expr>)
    | Wildcard

  datatype Stmt =
    | ExprStmt(e: Expr)
    | Assign(id: Name, e: Expr)
    | VarDecl(id: Name)
    | VarInit(id: Name, e: Expr)
    | FuncDecl(id: Name, fn: FnDecl)
    | If(cond: Expr, body: seq<Stmt>)
    | IfElse(cond: Expr, body: seq<Stmt>, orelse: seq<Stmt>)
    | While(cond: Expr, body: seq<Stmt>)
    | Match(e: Expr, arms: seq<Arm>)
    | RetNil
    | Ret(e: Expr)
    | Break

  /** One arm of a `match`; the test is an expression used as a pattern. */
  datatype Arm = Arm(test: Expr, body: seq<Stmt>)

  /** A function node of the syntax tree. `vars` and `freevars` are the names its
      symbol table entry flags as declared and as free; `id` is the node's identity. */
  datatype FnDecl = FnDecl(id: nat, params: seq<Name>, body: seq<Stmt>, vars: seq<Name>, freevars: seq<Name>)

  /** Instructions with their operands looked up; jump operands are absolute addresses. */
  datatype Instr =
    | JumpIfFalse(addr: nat)
    | JumpIfTrue(addr: nat)
    | Jump(addr: nat)
    | PushConst(v: Value)
    | StoreName(id: Name)
    | PushName(id: Name)
    | PushNil
    | GetAttr(attr: Name)
    | GetItem
    | Call(nargs: nat)
    | MakeArray(n: nat)
    | MakeHash(n: nat)
    | CompareTop(cmp: CmpOp)
    | Not
    | Dup
    | Pop
    | RetTop
    | Spawn
    | ArithTop(arith: ArithOp)
    | MakeClosure
    | GetClass

  function Last<T>(s: seq<T>): T
    requires s != []
  {
    s[|s| - 1]
  }

  function Init<T>(s: seq<T>): seq<T>
    requires s != []
  {
    s[..|s| - 1]
  }
}
