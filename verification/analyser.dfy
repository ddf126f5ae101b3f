/** The second pass: bottom-up synthesis of a value for each expression
    of a regular method, reporting operand errors as it goes. A visit
    yields a type name, a variable descriptor (for a resolved name) or
    null (`this`, `new`, a call, an unresolved name). An operator casts
    each child's value to a string: a descriptor makes that cast throw,
    and a null makes the comparison that follows dereference null; both
    crashes are the `Err` of a `Result`. The two readings of the rules
    (`Dialect`) are the visit as written and the visit the language's
    types call for. */
module Analyser {
  import opened Wrappers
  import opened Text
  import opened Ast
  import opened Descriptors
  import opened Symbols

  /** `AsWritten`: a name yields its variable descriptor, `<` wants
      "boolean" operands and arithmetic wants and yields "integer".
      `Corrected`: a name yields its declared type, `<` wants "int"
      operands and arithmetic wants and yields "int", the type literals
      carry. */
  datatype Dialect = AsWritten | Corrected

  /** What a visit returns. */
  datatype Value = TypeName(name: string) | Variable(dataType: string) | Null

  /** A visit's result: its value and the diagnostics printed while
      visiting the node and its children, in order. */
  datatype Typed = Typed(v: Value, diags: seq<Diagnostic>)

  /** The crash of an operator comparing a child's null type. */
  const NullDereference := "NullPointerException"

  /** The crash of an operator casting a child's descriptor to a string. */
  const BadCast := "ClassCastException"

  function ArithSymbol(op: ArithOp): string
  {
    match op
    case Add => "+"
    case Sub => "-"
    case Mul => "*"
    case Div => "/"
  }

  /** The operand and result type of arithmetic. */
  function IntegerName(d: Dialect): string
  {
    if d.AsWritten? then "integer" else "int"
  }

  /** The operand type `<` checks. */
  function LtOperand(d: Dialect): string
  {
    if d.AsWritten? then "boolean" else "int"
  }

  function OperandMessage(value: string, op: string, want: string): string
  {
    "Operand " + value + " of '" + op + "' is not of '" + want + "' type"
  }

  /** The cast of a child's value to a string: a type name or null passes
      (null as `None`), a descriptor throws. */
  function AsString(v: Value): (r: Result<Option<string>>)
    ensures r.Err? <==> v.Variable?
    ensures r.Ok? ==> (r.value.None? <==> v.Null?)
  {
    match v
    case TypeName(s) => Ok(Some(s))
    case Variable(_) => Err(BadCast)
    case Null => Ok(None)
  }

  /** The declared type of a name inside a method: a local, else a
      parameter, else a field; `None` when none of them declares it. */
  function VarType(t: SymbolTable, md: MethodDescriptor, name: string): (r: Option<string>)
    reads t, md
    ensures r.None? <==> md.LookupVariable(name).Err? && name !in t.fields
    ensures r.Some? && name in md.locals ==> r.value == md.locals[name].dataType
  {
    match md.LookupVariable(name)
    case Ok(v) => Some(v.dataType)
    case Err(_) =>
      match t.LookupAttribute(name)
      case Ok(v) => Some(v.dataType)
      case Err(_) => None
  }

  /** The check of a binary operator once both children are visited and
      cast: the left operand is compared first, and only when it passes is
      the right one; `blame` is the child the right-operand message names. */
  function OperandCheck(op: string, want: string, l: Expr, lt: Option<string>,
                        rt: Option<string>, blame: Expr, pos: Pos): (r: Result<seq<Diagnostic>>)
    ensures r.Err? <==> lt.None? || (lt == Some(want) && rt.None?)
    ensures r.Ok? ==> |r.value| <= 1
    ensures r.Ok? ==> (r.value == [] <==> lt == Some(want) && rt == Some(want))
    ensures r.Ok? && lt != Some(want) ==> r.value == [Diagnostic(OperandMessage(NodeValue(l), op, want), pos)]
    ensures r.Ok? && lt == Some(want) && rt != Some(want) ==>
              r.value == [Diagnostic(OperandMessage(NodeValue(blame), op, want), pos)]
  {
    if lt.None? then Err(NullDereference)
    else if lt.value != want then Ok([Diagnostic(OperandMessage(NodeValue(l), op, want), pos)])
    else if rt.None? then Err(NullDereference)
    else if rt.value != want then Ok([Diagnostic(OperandMessage(NodeValue(blame), op, want), pos)])
    else Ok([])
  }

  /** A binary node: visit and cast the left child, visit and cast the
      right child, then the node's own check; the node's type is `ty`
      whatever its operands. */
  function Binary(lr: Result<Typed>, rr: Result<Typed>, op: string, want: string,
                  l: Expr, blame: Expr, pos: Pos, ty: string): (r: Result<Typed>)
    ensures r.Ok? ==> lr.Ok? && rr.Ok? && r.value.v == TypeName(ty)
    ensures r.Ok? ==> |lr.value.diags| + |rr.value.diags| <= |r.value.diags| <= |lr.value.diags| + |rr.value.diags| + 1
    ensures r.Ok? && r.value.diags == [] <==>
              lr.Ok? && rr.Ok? && lr.value == Typed(TypeName(want), []) && rr.value == Typed(TypeName(want), [])
    ensures lr.Ok? && lr.value.v.Variable? ==> r == Err(BadCast)
    ensures lr.Ok? && !lr.value.v.Variable? && rr.Ok? && rr.value.v.Variable? ==> r == Err(BadCast)
  {
    if lr.Err? then Err(lr.error)
    else
      match AsString(lr.value.v)
      case Err(m) => Err(m)
      case Ok(lt) =>
        if rr.Err? then Err(rr.error)
        else
          match AsString(rr.value.v)
          case Err(m) => Err(m)
          case Ok(rt) =>
            match OperandCheck(op, want, l, lt, rt, blame, pos)
            case Err(m) => Err(m)
            case Ok(ds) => Ok(Typed(TypeName(ty), lr.value.diags + rr.value.diags + ds))
  }

  /** The value a visit of `e` yields inside method `md`. */
  function Synth(d: Dialect, t: SymbolTable, md: MethodDescriptor, e: Expr): (r: Result<Typed>)
    reads t, md
    decreases e
  {
    match e
    case IntLit(_) => Ok(Typed(TypeName("int"), []))
    case BoolLit(_) => Ok(Typed(TypeName("boolean"), []))
    case Id(name, index, pos) =>
      var vt := VarType(t, md, name);
      if vt.None? then Ok(Typed(Null, [Diagnostic(t.LookupAttribute(name).error, pos)]))
      else if d.AsWritten? then Ok(Typed(Variable(vt.value), []))
      else if index.None? then Ok(Typed(TypeName(vt.value), []))
      else if vt.value == "int[]" then Ok(Typed(TypeName("int"), []))
      else Ok(Typed(Null, []))
    case Arith(op, l, r, pos) =>
      Binary(Synth(d, t, md, l), Synth(d, t, md, r), ArithSymbol(op), IntegerName(d), l, r, pos, IntegerName(d))
    case And(l, r, pos) =>
      Binary(Synth(d, t, md, l), Synth(d, t, md, r), "&&", "boolean", l, r, pos, "boolean")
    case Lt(l, r, pos) =>
      Binary(Synth(d, t, md, l), Synth(d, t, md, r), "<", LtOperand(d), l,
             if d.AsWritten? then l else r, pos, "boolean")
    case Not(x, pos) =>
      var xr := Synth(d, t, md, x);
      if xr.Err? then xr
      else
        (match AsString(xr.value.v)
         case Err(m) => Err(m)
         case Ok(xt) =>
           if xt.None? then Err(NullDereference)
           else if xt.value != "boolean"
           then Ok(Typed(TypeName("boolean"), xr.value.diags + [Diagnostic(OperandMessage(NodeValue(x), "!", "boolean"), pos)]))
           else Ok(Typed(TypeName("boolean"), xr.value.diags)))
    case Length(_) => Ok(Typed(TypeName("int"), []))
    case NewArray(_) => Ok(Typed(Null, []))
    case NewObject(_) => Ok(Typed(Null, []))
    case Call(_, _, _, _) => Ok(Typed(Null, []))
  }

  /** The typing rules of the language, independent of any visit: literals,
      declared names, `int` arithmetic and comparison, `boolean` logic. An
      indexed name is an element of an `int[]` and has type `int` (the index
      itself is not typed, as the visit does not descend into it). */
  predicate WellTyped(t: SymbolTable, md: MethodDescriptor, e: Expr, ty: string)
    reads t, md
    decreases e
  {
    match e
    case IntLit(_) => ty == "int"
    case BoolLit(_) => ty == "boolean"
    case Id(name, index, _) =>
      if index.None? then VarType(t, md, name) == Some(ty)
      else VarType(t, md, name) == Some("int[]") && ty == "int"
    case Arith(_, l, r, _) => ty == "int" && WellTyped(t, md, l, "int") && WellTyped(t, md, r, "int")
    case And(l, r, _) => ty == "boolean" && WellTyped(t, md, l, "boolean") && WellTyped(t, md, r, "boolean")
    case Lt(l, r, _) => ty == "boolean" && WellTyped(t, md, l, "int") && WellTyped(t, md, r, "int")
    case Not(x, _) => ty == "boolean" && WellTyped(t, md, x, "boolean")
    case Length(_) => ty == "int"
    case NewArray(_) => false
    case NewObject(_) => false
    case Call(_, _, _, _) => false
  }

  /** No operator of `e` has a name as an operand. */
  predicate NoNameOperand(e: Expr)
  {
    match e
    case Arith(_, l, r, _) => !l.Id? && !r.Id? && NoNameOperand(l) && NoNameOperand(r)
    case And(l, r, _) => !l.Id? && !r.Id? && NoNameOperand(l) && NoNameOperand(r)
    case Lt(l, r, _) => !l.Id? && !r.Id? && NoNameOperand(l) && NoNameOperand(r)
    case Not(x, _) => !x.Id? && NoNameOperand(x)
    case _ => true
  }

  /** Number of nodes that can report: operators and names. */
  function Reporters(e: Expr): nat
  {
    match e
    case Id(_, _, _) => 1
    case Arith(_, l, r, _) => 1 + Reporters(l) + Reporters(r)
    case And(l, r, _) => 1 + Reporters(l) + Reporters(r)
    case Lt(l, r, _) => 1 + Reporters(l) + Reporters(r)
    case Not(x, _) => 1 + Reporters(x)
    case _ => 0
  }

  /** With the corrected rules, a visit finishes with a type and no
      diagnostic exactly when the expression is well typed. */
  lemma {:induction false} CorrectedSynthIffWellTyped(t: SymbolTable, md: MethodDescriptor, e: Expr, ty: string)
    ensures Synth(Corrected, t, md, e) == Ok(Typed(TypeName(ty), [])) <==> WellTyped(t, md, e, ty)
    decreases e
  {
    match e
    case Arith(_, l, r, _) =>
      CorrectedSynthIffWellTyped(t, md, l, "int");
      CorrectedSynthIffWellTyped(t, md, r, "int");
    case And(l, r, _) =>
      CorrectedSynthIffWellTyped(t, md, l, "boolean");
      CorrectedSynthIffWellTyped(t, md, r, "boolean");
    case Lt(l, r, _) =>
      CorrectedSynthIffWellTyped(t, md, l, "int");
      CorrectedSynthIffWellTyped(t, md, r, "int");
    case Not(x, _) =>
      CorrectedSynthIffWellTyped(t, md, x, "boolean");
    case _ =>
  }

  /** Each node reports at most once, so a visit prints at most one
      diagnostic per operator or name. */
  lemma {:induction false} AtMostOneReportPerNode(d: Dialect, t: SymbolTable, md: MethodDescriptor, e: Expr)
    ensures Synth(d, t, md, e).Ok? ==> |Synth(d, t, md, e).value.diags| <= Reporters(e)
    decreases e
  {
    match e
    case Arith(_, l, r, _) =>
      AtMostOneReportPerNode(d, t, md, l);
      AtMostOneReportPerNode(d, t, md, r);
    case And(l, r, _) =>
      AtMostOneReportPerNode(d, t, md, l);
      AtMostOneReportPerNode(d, t, md, r);
    case Lt(l, r, _) =>
      AtMostOneReportPerNode(d, t, md, l);
      AtMostOneReportPerNode(d, t, md, r);
    case Not(x, _) =>
      AtMostOneReportPerNode(d, t, md, x);
    case _ =>
  }

  /** The value the visit as written yields for a well-typed expression of
      type `ty` that does not crash; for an indexed name, the descriptor of
      the whole array. */
  function AsWrittenValue(e: Expr, ty: string): Value
  {
    if e.Id? then Variable(if e.index.Some? then "int[]" else ty)
    else if e.Arith? then TypeName("integer") else TypeName(ty)
  }

  /** As written, a well-typed expression crashes exactly when one of its
      operators has a name as an operand, and then with a failed cast;
      otherwise a name yields its descriptor, arithmetic "integer" and
      everything else its type. */
  lemma {:induction false} AsWrittenCrashesOnNameOperands(t: SymbolTable, md: MethodDescriptor, e: Expr, ty: string)
    requires WellTyped(t, md, e, ty)
    ensures Synth(AsWritten, t, md, e).Ok? <==> NoNameOperand(e)
    ensures Synth(AsWritten, t, md, e).Err? ==> Synth(AsWritten, t, md, e).error == BadCast
    ensures Synth(AsWritten, t, md, e).Ok? ==> Synth(AsWritten, t, md, e).value.v == AsWrittenValue(e, ty)
    decreases e
  {
    match e
    case Arith(_, l, r, _) =>
      AsWrittenCrashesOnNameOperands(t, md, l, "int");
      AsWrittenCrashesOnNameOperands(t, md, r, "int");
    case And(l, r, _) =>
      AsWrittenCrashesOnNameOperands(t, md, l, "boolean");
      AsWrittenCrashesOnNameOperands(t, md, r, "boolean");
    case Lt(l, r, _) =>
      AsWrittenCrashesOnNameOperands(t, md, l, "int");
      AsWrittenCrashesOnNameOperands(t, md, r, "int");
    case Not(x, _) =>
      AsWrittenCrashesOnNameOperands(t, md, x, "boolean");
    case _ =>
  }

  /** As written, every well-typed comparison that does not crash is
      reported: its left operand is an integer, which `<` compares with
      "boolean". */
  lemma AsWrittenRejectsEveryComparison(t: SymbolTable, md: MethodDescriptor, l: Expr, r: Expr, pos: Pos)
    requires WellTyped(t, md, Lt(l, r, pos), "boolean") && NoNameOperand(Lt(l, r, pos))
    ensures Synth(AsWritten, t, md, Lt(l, r, pos)).Ok?
    ensures var ds := Synth(AsWritten, t, md, Lt(l, r, pos)).value.diags;
            ds != [] && ds[|ds| - 1] == Diagnostic(OperandMessage(NodeValue(l), "<", "boolean"), pos)
  {
    AsWrittenCrashesOnNameOperands(t, md, l, "int");
    AsWrittenCrashesOnNameOperands(t, md, r, "int");
  }

  /** As written, every well-typed arithmetic expression that does not
      crash is reported somewhere: its innermost leftmost arithmetic node
      has an "int" operand, which arithmetic compares with "integer". */
  lemma {:induction false} AsWrittenRejectsEveryArithmetic(t: SymbolTable, md: MethodDescriptor, e: Expr)
    requires e.Arith? && WellTyped(t, md, e, "int") && NoNameOperand(e)
    ensures Synth(AsWritten, t, md, e).Ok? && Synth(AsWritten, t, md, e).value.diags != []
    decreases e
  {
    AsWrittenCrashesOnNameOperands(t, md, e.left, "int");
    AsWrittenCrashesOnNameOperands(t, md, e.right, "int");
    if e.left.Arith? {
      AsWrittenRejectsEveryArithmetic(t, md, e.left);
    }
  }

  /** The statements of a method body that the pass visits: only bare
      expression statements; assignments, conditionals, loops and the
      return are not descended into. The pass throws exactly when one of
      them does. */
  function AnalyseBody(d: Dialect, t: SymbolTable, md: MethodDescriptor, body: seq<Stmt>): (r: Result<seq<Diagnostic>>)
    reads t, md
    ensures r.Ok? <==> forall i :: 0 <= i < |body| && body[i].ExprStmt? ==> Synth(d, t, md, body[i].e).Ok?
  {
    if body == [] then Ok([])
    else
      var head := match body[0]
        case ExprStmt(e) => (var s := Synth(d, t, md, e); if s.Err? then Err(s.error) else Ok(s.value.diags))
        case _ => Ok([]);
      if head.Err? then head
      else
        var rest := AnalyseBody(d, t, md, body[1..]);
        if rest.Err? then rest else Ok(head.value + rest.value)
  }

  /** Statements are visited in order: one more statement either throws
      (unless an earlier one already has) or appends its expression's
      diagnostics to those of the statements before it. */
  lemma {:induction false} AnalyseBodySnoc(d: Dialect, t: SymbolTable, md: MethodDescriptor, body: seq<Stmt>, s: Stmt)
    ensures var r := AnalyseBody(d, t, md, body);
            AnalyseBody(d, t, md, body + [s]) ==
              if r.Err? then r
              else if s.ExprStmt? && Synth(d, t, md, s.e).Err? then Err(Synth(d, t, md, s.e).error)
              else Ok(r.value + (if s.ExprStmt? then Synth(d, t, md, s.e).value.diags else []))
  {
    var b := body + [s];
    if body == [] {
      assert b[1..] == [];
      if !(s.ExprStmt? && Synth(d, t, md, s.e).Err?) {
        var x := if s.ExprStmt? then Synth(d, t, md, s.e).value.diags else [];
        assert x + [] == [] + x;
      }
    } else {
      assert b[0] == body[0];
      assert b[1..] == body[1..] + [s];
      AnalyseBodySnoc(d, t, md, body[1..], s);
      var rest := AnalyseBody(d, t, md, body[1..]);
      if rest.Ok? && !(s.ExprStmt? && Synth(d, t, md, s.e).Err?) {
        var x := if s.ExprStmt? then Synth(d, t, md, s.e).value.diags else [];
        forall h: seq<Diagnostic> ensures h + (rest.value + x) == (h + rest.value) + x { }
      }
    }
  }

  /** What analysing one regular method amounts to: no overload has its
      declared parameter types (the lookup failure is only traced), or its
      body's diagnostics. */
  datatype MethodReport = NotFound(message: string) | Analysed(diags: seq<Diagnostic>)

  /** A regular method: its declared parameter types, in order, select the
      overload its body is analysed against. */
  function AnalyseMethod(d: Dialect, t: SymbolTable, m: MethodDecl): (r: Result<MethodReport>)
    requires m.RegularMethod?
    reads t, t.MethodGroup(m.name)
    ensures var g := t.MethodGroup(m.name);
            r == Ok(NotFound(MethodNotDefined(m.name, DeclTypes(m.params)))) <==>
              forall i :: 0 <= i < |g| ==> ParamTypes(g[i].parameters) != DeclTypes(m.params)
    ensures var g := t.MethodGroup(m.name);
            var k := FirstMethod(g, DeclTypes(m.params));
            k < |g| ==> (r.Ok? <==> AnalyseBody(d, t, g[k], m.body).Ok?)
    ensures var g := t.MethodGroup(m.name);
            var k := FirstMethod(g, DeclTypes(m.params));
            k < |g| && AnalyseBody(d, t, g[k], m.body).Ok? ==> r == Ok(Analysed(AnalyseBody(d, t, g[k], m.body).value))
    ensures var g := t.MethodGroup(m.name);
            var k := FirstMethod(g, DeclTypes(m.params));
            k < |g| && AnalyseBody(d, t, g[k], m.body).Err? ==> r == Err(AnalyseBody(d, t, g[k], m.body).error)
  {
    var g := t.MethodGroup(m.name);
    var k := FirstMethod(g, DeclTypes(m.params));
    if k == |g| then Ok(NotFound(MethodNotDefined(m.name, DeclTypes(m.params))))
    else
      match AnalyseBody(d, t, g[k], m.body)
      case Err(e) => Err(e)
      case Ok(ds) => Ok(Analysed(ds))
  }

  /** Every overload of a method group is part of the table's footprint. */
  lemma GroupInRepr(t: SymbolTable, name: string)
    ensures forall k :: 0 <= k < |t.MethodGroup(name)| ==> t.MethodGroup(name)[k] in t.Repr()
  {
    forall k | 0 <= k < |t.MethodGroup(name)| ensures t.MethodGroup(name)[k] in t.Repr() {
      var m := t.MethodGroup(name)[k];
      assert name in t.methods && m in t.methods[name];
    }
  }

  /** A method the pass gets past: `main`, which is not analysed, or a
      regular method whose analysis does not throw. */
  predicate Analysable(d: Dialect, t: SymbolTable, m: MethodDecl)
    reads t, t.Repr()
  {
    m.MainMethod? || (GroupInRepr(t, m.name); AnalyseMethod(d, t, m).Ok?)
  }

  /** What one method adds to the pass. */
  function MethodDiags(d: Dialect, t: SymbolTable, m: MethodDecl): Result<seq<Diagnostic>>
    reads t, t.Repr()
  {
    if m.MainMethod? then Ok([])
    else
      GroupInRepr(t, m.name);
      match AnalyseMethod(d, t, m)
      case Err(e) => Err(e)
      case Ok(NotFound(_)) => Ok([])
      case Ok(Analysed(ds)) => Ok(ds)
  }

  /** One method adds nothing when it is `main` or has no matching
      overload, its body's diagnostics otherwise, and throws exactly when
      its analysis does. */
  lemma MethodDiagsFacts(d: Dialect, t: SymbolTable, m: MethodDecl)
    ensures MethodDiags(d, t, m).Ok? <==> Analysable(d, t, m)
    ensures m.MainMethod? ==> MethodDiags(d, t, m) == Ok([])
    ensures m.RegularMethod? ==>
              (GroupInRepr(t, m.name);
               var a := AnalyseMethod(d, t, m);
               && (a.Ok? && a.value.NotFound? ==> MethodDiags(d, t, m) == Ok([]))
               && (a.Ok? && a.value.Analysed? ==> MethodDiags(d, t, m) == Ok(a.value.diags)))
  {
  }

  /** The whole pass over the class's methods in order; `main` is not
      analysed. */
  function AnalyseMethods(d: Dialect, t: SymbolTable, ms: seq<MethodDecl>): Result<seq<Diagnostic>>
    reads t, t.Repr()
  {
    if ms == [] then Ok([])
    else
      var head := MethodDiags(d, t, ms[0]);
      if head.Err? then head
      else
        var rest := AnalyseMethods(d, t, ms[1..]);
        if rest.Err? then rest else Ok(head.value + rest.value)
  }

  /** The pass throws exactly when the analysis of some method does. */
  lemma {:induction false} AnalyseMethodsOkIff(d: Dialect, t: SymbolTable, ms: seq<MethodDecl>)
    ensures AnalyseMethods(d, t, ms).Ok? <==> forall i :: 0 <= i < |ms| ==> Analysable(d, t, ms[i])
  {
    if ms != [] {
      MethodDiagsFacts(d, t, ms[0]);
      AnalyseMethodsOkIff(d, t, ms[1..]);
      assert forall i :: 1 <= i < |ms| ==> ms[i] == ms[1..][i - 1];
    }
  }

  /** Methods are analysed in order: one more method either throws (unless
      an earlier one already has) or appends what it adds. */
  lemma {:induction false} AnalyseMethodsSnoc(d: Dialect, t: SymbolTable, ms: seq<MethodDecl>, m: MethodDecl)
    ensures var r := AnalyseMethods(d, t, ms);
            var h := MethodDiags(d, t, m);
            AnalyseMethods(d, t, ms + [m]) ==
              if r.Err? then r else if h.Err? then h else Ok(r.value + h.value)
  {
    var b := ms + [m];
    var h := MethodDiags(d, t, m);
    if ms == [] {
      assert b[1..] == [];
      if h.Ok? {
        assert h.value + [] == [] + h.value;
      }
    } else {
      assert b[0] == ms[0];
      assert b[1..] == ms[1..] + [m];
      AnalyseMethodsSnoc(d, t, ms[1..], m);
      var head := MethodDiags(d, t, ms[0]);
      var rest := AnalyseMethods(d, t, ms[1..]);
      if head.Ok? && rest.Ok? && h.Ok? {
        assert head.value + (rest.value + h.value) == (head.value + rest.value) + h.value;
      }
    }
  }

  /** Statements other than bare expressions report nothing. */
  lemma {:induction false} OnlyExpressionStatementsReport(d: Dialect, t: SymbolTable, md: MethodDescriptor, body: seq<Stmt>)
    requires forall i :: 0 <= i < |body| ==> !body[i].ExprStmt?
    ensures AnalyseBody(d, t, md, body).Ok? && AnalyseBody(d, t, md, body).value == []
  {
    if body != [] {
      OnlyExpressionStatementsReport(d, t, md, body[1..]);
    }
  }

  /** `main` is never analysed. */
  lemma {:induction false} MainIsNotAnalysed(d: Dialect, t: SymbolTable, ms: seq<MethodDecl>)
    requires forall i :: 0 <= i < |ms| ==> ms[i].MainMethod?
    ensures AnalyseMethods(d, t, ms).Ok? && AnalyseMethods(d, t, ms).value == []
  {
    if ms != [] {
      MainIsNotAnalysed(d, t, ms[1..]);
    }
  }
}
