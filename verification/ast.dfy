/** The abstract syntax tree of a J-- program, shared by the three passes:
    the symbol-table builder, the semantic analyser and the code generator.
    Only the node kinds those passes inspect are represented; positions are
    kept where a pass reports a diagnostic. */
module Ast {
  import opened Wrappers
  import opened Text

  /** A source position (`line`, `column` of a node). */
  datatype Pos = Pos(line: nat, column: nat)

  datatype ArithOp = Add | Sub | Mul | Div

  /** The receiver of a method call `recv.m(args)`: `this`, a fresh object
      (`new C()`), or a name, which is a variable or an imported class.
      `varType` is the type the analyser gives the name when it is a
      variable. */
  datatype Receiver =
    | ThisRecv
    | NewRecv(cls: string)
    | NamedRecv(name: string, varType: string)

  datatype Expr =
    | IntLit(value: nat)
    | BoolLit(b: bool)
      /** A variable, optionally indexed: `a` or `a[i]`. */
    | Id(name: string, index: Option<Expr>, pos: Pos)
    | Arith(op: ArithOp, left: Expr, right: Expr, pos: Pos)
    | And(left: Expr, right: Expr, pos: Pos)
    | Lt(left: Expr, right: Expr, pos: Pos)
    | Not(operand: Expr, pos: Pos)
    | NewArray(size: Expr)
    | NewObject(cls: string)
      /** `e.length`, where `e` is a variable or a `new int[n]`. */
    | Length(target: Expr)
      /** `recv.member(args)`. `argTypes` is the argument-type list the
          generator is given for the call. */
    | Call(recv: Receiver, member: string, args: seq<Expr>, argTypes: seq<string>)

  datatype Stmt =
    | ExprStmt(e: Expr)
      /** `target = value` or `target[index] = value`. */
    | Assign(target: string, index: Option<Expr>, value: Expr)
    | IfElse(cond: Expr, thenBody: seq<Stmt>, elseBody: seq<Stmt>)
    | While(cond: Expr, body: seq<Stmt>)
    | Return(value: Expr)

  /** A field, parameter or local declaration. */
  datatype VarDecl = VarDecl(name: string, varType: string, pos: Pos)

  /** The children of an import node: parameter types and a return type. */
  datatype ImportChild = ParamType(t: string) | ReturnType(t: string)

  datatype ImportDecl = ImportDecl(id: string, isStatic: bool, isMethod: bool, children: seq<ImportChild>)

  datatype MethodDecl =
    | RegularMethod(name: string, returnType: string, params: seq<VarDecl>,
                    locals: seq<VarDecl>, body: seq<Stmt>, pos: Pos)
    | MainMethod(argName: string, argPos: Pos, locals: seq<VarDecl>, body: seq<Stmt>)

  datatype ClassDecl = ClassDecl(name: string, fields: seq<VarDecl>, methods: seq<MethodDecl>)

  datatype Program = Program(imports: seq<ImportDecl>, cls: ClassDecl)

  /** A reported semantic error: its message and the node's position. */
  datatype Diagnostic = Diagnostic(message: string, pos: Pos)

  /** The console line a diagnostic is printed as. */
  function ErrorLine(d: Diagnostic): string
  {
    "SEMANTIC ERROR: " + d.message + " at line: " + NatToString(d.pos.line)
    + ", column: " + NatToString(d.pos.column) + "."
  }

  /** The value a node carries, as printed in a diagnostic (string
      concatenation of a node without a value prints "null"). */
  function NodeValue(e: Expr): string
  {
    match e
    case IntLit(v) => NatToString(v)
    case BoolLit(b) => if b then "true" else "false"
    case Id(name, _, _) => name
    case NewArray(_) => "int[]"
    case NewObject(cls) => cls
    case _ => "null"
  }

  /** The names of a list of declarations, in order. */
  function DeclNames(ds: seq<VarDecl>): (ns: seq<string>)
    ensures |ns| == |ds|
    ensures forall i :: 0 <= i < |ds| ==> ns[i] == ds[i].name
  {
    if ds == [] then [] else [ds[0].name] + DeclNames(ds[1..])
  }

  /** The types of a list of declarations, in order. */
  function DeclTypes(ds: seq<VarDecl>): (ts: seq<string>)
    ensures |ts| == |ds|
    ensures forall i :: 0 <= i < |ds| ==> ts[i] == ds[i].varType
  {
    if ds == [] then [] else [ds[0].varType] + DeclTypes(ds[1..])
  }

  /** Appending a declaration appends its name and its type. */
  lemma DeclsSnoc(ds: seq<VarDecl>, d: VarDecl)
    ensures DeclNames(ds + [d]) == DeclNames(ds) + [d.name]
    ensures DeclTypes(ds + [d]) == DeclTypes(ds) + [d.varType]
  {
  }

  /** The names of a list of declarations. */
  function NameSet(ds: seq<VarDecl>): set<string>
  {
    set i | 0 <= i < |ds| :: ds[i].name
  }

  /** The split of a set of names between two lists. */
  lemma NameSetAppend(a: seq<VarDecl>, b: seq<VarDecl>)
    ensures NameSet(a + b) == NameSet(a) + NameSet(b)
  {
    forall y | y in NameSet(a + b) ensures y in NameSet(a) + NameSet(b) {
      var i :| 0 <= i < |a + b| && (a + b)[i].name == y;
      if i >= |a| { assert b[i - |a|].name == y; }
    }
    forall y | y in NameSet(a) ensures y in NameSet(a + b) {
      var i :| 0 <= i < |a| && a[i].name == y;
      assert (a + b)[i].name == y;
    }
    forall y | y in NameSet(b) ensures y in NameSet(a + b) {
      var i :| 0 <= i < |b| && b[i].name == y;
      assert (a + b)[|a| + i].name == y;
    }
  }
}
