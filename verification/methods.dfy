/** What the generator writes to the `.j` file for a class: the class and
    super lines, one `.field` line per field, each method (header, `.limit
    locals`, `.limit stack`, its buffered instructions, `.end method`), and
    the default constructor. The generator's counters and `maxStack` are
    never reset between methods, so each method starts from the state the
    previous one left. */
module Methods {
  import opened Wrappers
  import opened Text
  import opened Ast
  import opened Jasmin
  import opened Labels
  import opened Emit
  import opened Statements
  import opened BlockLabels
  import opened Slots

  /** The superclass named in `.super` and called by the constructor. */
  function SuperName(env: Env): string
  {
    if env.superName == "" then "java/lang/Object" else env.superName
  }

  function FieldLine(d: VarDecl): string
  {
    ".field private '" + d.name + "' " + ConvertType(d.varType)
  }

  function FieldLines(ds: seq<VarDecl>): (ls: seq<string>)
    ensures |ls| == |ds| && forall i :: 0 <= i < |ds| ==> ls[i] == FieldLine(ds[i])
  {
    if ds == [] then [] else [FieldLine(ds[0])] + FieldLines(ds[1..])
  }

  /** The `.method` line: a regular method's name and descriptor, built
      from its declared parameter types and its descriptor's return type;
      `main`'s fixed signature. */
  function MethodHeader(m: MethodDecl, s: Sig): string
  {
    match m
    case RegularMethod(name, _, params, _, _, _) =>
      ".method public " + name + "(" + ConvertParams(DeclTypes(params)) + ")" + ConvertType(s.returnType)
    case MainMethod(_, _, _, _) => ".method static public main([Ljava/lang/String;)V"
  }

  /** The code of a method as dumped: its body's, and for `main` a final
      `return`. */
  function MethodCode(m: MethodDecl, body: seq<Instr>): seq<Instr>
  {
    if m.MainMethod? then body + [Instr.Return("")] else body
  }

  /** The lines of a method whose body left the state `b`. */
  function MethodLines(env: Env, m: MethodDecl, s: Sig, b: Gen): (ls: seq<string>)
    requires b.max >= 0
  {
    [MethodHeader(m, s), ".limit locals " + NatToString(LimitLocals(env, m)), ".limit stack " + NatToString(b.max)]
    + Lines(MethodCode(m, b.code)) + [".end method"]
  }

  /** Proof step: a sequence identity used by the generator's `WriteMethod`
      and `VisitClass` to regroup lines written in four runs. */
  lemma Appended(out: seq<string>, a: seq<string>, b: seq<string>, c: seq<string>)
    ensures out + a + b + c == out + (a + b + c)
  {
  }

  /** Proof step: a sequence identity used by the generator's `VisitMethods`
      and `VisitClass` to regroup lines written in three runs. */
  lemma Regrouped(a: seq<string>, b: seq<string>, c: seq<string>)
    ensures a + (b + c) == a + b + c
  {
  }

  /** Proof step: a sequence identity used by the generator's `WriteFields`
      loop; the first `i + 1` lines are the first `i` and line `i`. */
  lemma LinesUpTo(ls: seq<string>, i: nat)
    requires i < |ls|
    ensures ls[..i + 1] == ls[..i] + [ls[i]]
  {
  }

  /** Proof step: a sequence identity used by the generator's `WriteFields`
      loop when it exits. */
  lemma AllLines(ls: seq<string>)
    ensures ls[..|ls|] == ls
  {
  }

  /** What visiting the methods wrote, the state it left, and whether a
      failed descriptor lookup ended the program (`System.exit`). */
  datatype Written = Written(lines: seq<string>, g: Gen, exited: bool)

  /** One method, from state `g` with an empty buffer: `None` when a
      `clearStack()` in its body starts from a negative counter and the
      generator aborts. */
  function MethodRun(env: Env, m: MethodDecl, g: Gen): (r: Option<Written>)
    requires Valid(g)
    ensures r.Some? && !r.value.exited ==> r.value.g.code == [] && Valid(r.value.g) && Le(g.ctr, r.value.g.ctr)
  {
    var s := LookupOwn(env, m);
    if s.None? then Some(Written([], g, true))
    else
      match EmitBlock(env, MethodVars(m).vars, s.value.returnType, MethodBody(m), g)
      case None => None
      case Some(b) => Some(Written(MethodLines(env, m, s.value, b), b.(code := []), false))
  }

  /** A method whose descriptor is `s` and whose body leaves `b`. */
  lemma MethodRunIs(env: Env, m: MethodDecl, g: Gen, s: Sig, b: Gen)
    requires Valid(g) && LookupOwn(env, m) == Some(s)
    requires EmitBlock(env, MethodVars(m).vars, s.returnType, MethodBody(m), g) == Some(b)
    ensures b.max >= 0
    ensures MethodRun(env, m, g) == Some(Written(MethodLines(env, m, s, b), b.(code := []), false))
  {
  }

  function MethodBody(m: MethodDecl): seq<Stmt>
  {
    match m
    case RegularMethod(_, _, _, _, body, _) => body
    case MainMethod(_, _, _, body) => body
  }

  /** The methods of a class in order, each from the state the previous
      one left; the first failed lookup ends the run. */
  function ClassRun(env: Env, ms: seq<MethodDecl>, g: Gen): (r: Option<Written>)
    requires Valid(g)
    ensures r.Some? && !r.value.exited ==> Valid(r.value.g) && (g.code == [] ==> r.value.g.code == [])
    decreases |ms|
  {
    if ms == [] then Some(Written([], g, false))
    else
      match MethodRun(env, ms[0], g)
      case None => None
      case Some(w) =>
        if w.exited then Some(w)
        else
          match ClassRun(env, ms[1..], w.g)
          case None => None
          case Some(r) => Some(Written(w.lines + r.lines, r.g, r.exited))
  }

  /** One step of a class's run: its first method, then the rest unless
      that method ended the program. */
  lemma ClassRunStep(env: Env, ms: seq<MethodDecl>, g: Gen) returns (w: Written)
    requires Valid(g) && ms != [] && ClassRun(env, ms, g).Some?
    ensures MethodRun(env, ms[0], g) == Some(w)
    ensures w.exited ==> ClassRun(env, ms, g) == Some(w)
    ensures !w.exited ==> Valid(w.g) && ClassRun(env, ms[1..], w.g).Some?
    ensures !w.exited ==> var r := ClassRun(env, ms[1..], w.g).value;
              ClassRun(env, ms, g) == Some(Written(w.lines + r.lines, r.g, r.exited))
  {
    w := MethodRun(env, ms[0], g).value;
  }

  /** Proof step: a sequence identity used by the generator's `VisitMethods`
      loop; the methods still to visit after the `i`-th. */
  lemma Rest(ms: seq<MethodDecl>, i: nat)
    requires i < |ms|
    ensures ms[i..][0] == ms[i] && ms[i..][1..] == ms[i + 1..]
  {
  }

  /** Proof step: a sequence identity used by the generator's `VisitMethods`
      loop when it exits. */
  lemma NoMoreLines(acc: seq<string>)
    ensures acc + [] == acc
  {
  }

  /** The default constructor: `aload_0`, the superclass's `<init>`,
      `return`. */
  function ConstructorCode(env: Env): seq<Instr>
  {
    [Load("a", 0), Invoke(Special, SuperName(env), "<init>", "()V"), Instr.Return("")]
  }

  function ConstructorLines(env: Env): seq<string>
  {
    [".method public <init>()V"] + Lines(ConstructorCode(env)) + [".end method"]
  }

  /** The whole class file. */
  function ClassText(env: Env, c: ClassDecl, g: Gen): (r: Option<Written>)
    requires Valid(g)
  {
    var head := [".class public " + c.name, ".super " + SuperName(env)] + FieldLines(c.fields);
    match ClassRun(env, c.methods, g)
    case None => None
    case Some(w) => Some(Written(head + w.lines + (if w.exited then [] else ConstructorLines(env)), w.g, w.exited))
  }

  /** The class file is its head, its methods' lines, and the constructor
      unless a method ended the program. */
  lemma ClassTextIs(env: Env, c: ClassDecl, g: Gen) returns (head: seq<string>, w: Written)
    requires Valid(g) && ClassText(env, c, g).Some?
    ensures head == [".class public " + c.name, ".super " + SuperName(env)] + FieldLines(c.fields)
    ensures ClassRun(env, c.methods, g) == Some(w)
    ensures ClassText(env, c, g) == Some(Written(head + w.lines + (if w.exited then [] else ConstructorLines(env)), w.g, w.exited))
  {
    head := [".class public " + c.name, ".super " + SuperName(env)] + FieldLines(c.fields);
    w := ClassRun(env, c.methods, g).value;
  }

  /** The generator finishes a class whose method descriptors are found
      and whose bodies it resolves: every `clearStack()` starts from a
      counter of at least 0. */
  lemma {:induction false} ClassRunTerminates(env: Env, ms: seq<MethodDecl>, g: Gen)
    requires Valid(g) && g.depth == 0
    requires forall i :: 0 <= i < |ms| ==> LookupOwn(env, ms[i]).Some?
    requires forall i :: 0 <= i < |ms| ==> BlockResolved(env, MethodVars(ms[i]).vars, MethodBody(ms[i]))
    ensures ClassRun(env, ms, g).Some? && !ClassRun(env, ms, g).value.exited
    ensures ClassRun(env, ms, g).value.g.depth == 0
    decreases |ms|
  {
    if ms != [] {
      var m := ms[0];
      var s := LookupOwn(env, m).value;
      var b := EmitBlock(env, MethodVars(m).vars, s.returnType, MethodBody(m), g);
      assert b.Some? && b.value.depth == 0;
      ClassRunTerminates(env, ms[1..], b.value.(code := []));
    }
  }

  /** The sum of two names that are neither variables nor fields loads
      nothing but still pops one value. */
  lemma UnknownSumPops(env: Env, vars: Vars, x: string, y: string, p: Pos, lc: nat)
    requires x !in vars && x !in env.fields && y !in vars && y !in env.fields
    ensures EmitExpr(env, vars, Arith(Add, Id(x, None, p), Id(y, None, p), p), lc).effect == -1
  {
    var a := EmitExpr(env, vars, Id(x, None, p), lc);
    assert a == IdExpr(env, vars, Id(x, None, p), lc) == LoadName(env, vars, x);
    var b := EmitExpr(env, vars, Id(y, None, p), lc + a.labels);
    assert b == IdExpr(env, vars, Id(y, None, p), lc + a.labels) == LoadName(env, vars, y);
  }

  /** A block whose first statement is an expression that leaves the
      counter negative aborts at the `clearStack()` after it. */
  lemma NegativeStatementAborts(env: Env, vars: Vars, ret: string, ss: seq<Stmt>, g: Gen)
    requires ss != [] && ss[0].ExprStmt?
    requires g.depth + EmitExpr(env, vars, ss[0].e, g.ctr.logic).effect < 0
    ensures EmitBlock(env, vars, ret, ss, g) == None
  {
    var h := ApplyExpr(env, vars, g, ss[0].e);
    assert EmitStmt(env, vars, ret, ss[0], g) == Some(h);
    assert Clear(h) == None;
  }

  /** Without resolved bodies the generator can abort: in `int f() { x + y; }`
      with `x` and `y` undeclared, neither operand pushes anything while
      the addition still pops one, so the `clearStack()` after the
      statement starts from -1. */
  lemma UndeclaredOperandsAbort()
    ensures var p := Pos(1, 1);
            var m := RegularMethod("f", "int", [], [], [ExprStmt(Arith(Add, Id("x", None, p), Id("y", None, p), p))], p);
            var env := Env("A", "", map[], map["f" := [Sig([], "int", 0)]], map[]);
            && LookupOwn(env, m).Some?
            && MethodRun(env, m, Gen([], 0, 0, Counters(0, 0, 0))) == None
  {
    var p := Pos(1, 1);
    var m := RegularMethod("f", "int", [], [], [ExprStmt(Arith(Add, Id("x", None, p), Id("y", None, p), p))], p);
    var env := Env("A", "", map[], map["f" := [Sig([], "int", 0)]], map[]);
    var g := Gen([], 0, 0, Counters(0, 0, 0));
    assert env.methods["f"][0].paramTypes == [];
    assert LookupOwn(env, m) == Some(Sig([], "int", 0));
    var vars := MethodVars(m).vars;
    assert vars == map[];
    UnknownSumPops(env, vars, "x", "y", p, 0);
    NegativeStatementAborts(env, vars, "int", MethodBody(m), g);
  }

  /** A method's body code numbers its labels from the counters' values
      at the method's start, defines each label once and defines every
      label it jumps to; `main`'s final `return` keeps that. */
  lemma MethodLabels(env: Env, m: MethodDecl, g: Gen)
    requires Valid(g) && g.code == [] && LookupOwn(env, m).Some?
    requires EmitBlock(env, MethodVars(m).vars, LookupOwn(env, m).value.returnType, MethodBody(m), g).Some?
    ensures var b := EmitBlock(env, MethodVars(m).vars, LookupOwn(env, m).value.returnType, MethodBody(m), g).value;
            WellLabelled(MethodCode(m, b.code), g.ctr, b.ctr)
  {
    var ret := LookupOwn(env, m).value.returnType;
    var b := EmitBlock(env, MethodVars(m).vars, ret, MethodBody(m), g).value;
    Start(g);
    BlockLabelled(env, MethodVars(m).vars, ret, MethodBody(m), g, g.ctr, {});
    Finish(b, g.ctr);
    if m.MainMethod? {
      UnlabelledIsWellLabelled([Instr.Return("")], b.ctr, b.ctr);
      Labels.Join(b.code, [Instr.Return("")], g.ctr, b.ctr, b.ctr);
    }
  }
}
