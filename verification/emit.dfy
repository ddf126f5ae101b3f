/** What the code generator emits for each construct, as pure functions:
    the instructions, the net change of the operand-stack counter
    (`currentStack`), the highest value the counter reaches relative to
    its start (which `maxStack` records), and how many label numbers of
    `logic_operation_counter` the construct consumes. The generator class
    is proved to append exactly these. */
module Emit {
  import opened Wrappers
  import opened Ast
  import opened Jasmin
  import opened Labels

  /** An overload as the generator sees it: ordered parameter types, return
      type, and the number of parameters plus locals of its descriptor. */
  datatype Sig = Sig(paramTypes: seq<string>, returnType: string, slots: nat)

  /** The symbol table as the generator reads it; it does not change while
      code is generated. */
  datatype Env = Env(className: string, superName: string,
                     fields: map<string, string>,
                     methods: map<string, seq<Sig>>,
                     imports: map<string, seq<Sig>>)

  /** Index of the first overload whose parameter types are exactly `ts`,
      `|g|` if none. */
  function FirstSig(g: seq<Sig>, ts: seq<string>): (k: nat)
    ensures k <= |g|
    ensures k < |g| ==> g[k].paramTypes == ts
    ensures forall j :: 0 <= j < k ==> g[j].paramTypes != ts
  {
    if g == [] then 0
    else if g[0].paramTypes == ts then 0
    else 1 + FirstSig(g[1..], ts)
  }

  function Resolve(groups: map<string, seq<Sig>>, id: string, ts: seq<string>): (r: Option<Sig>)
    ensures r.Some? <==> id in groups && exists i :: 0 <= i < |groups[id]| && groups[id][i].paramTypes == ts
    ensures r.Some? ==> r.value.paramTypes == ts && r.value in groups[id]
  {
    if id !in groups then None
    else
      var k := FirstSig(groups[id], ts);
      if k < |groups[id]| then Some(groups[id][k]) else None
  }

  /** `lookupMethod`: the first declared overload with these parameter types. */
  function LookupMethod(env: Env, id: string, ts: seq<string>): Option<Sig>
  {
    Resolve(env.methods, id, ts)
  }

  /** `lookupImport`, on the full import name `Class.member`. */
  function LookupImport(env: Env, id: string, ts: seq<string>): Option<Sig>
  {
    Resolve(env.imports, id, ts)
  }

  /** As written, the argument types of a call come from the analyser's
      call visit, which yields null (`None`) for every call. */
  function FetchArgsAsWritten(e: Expr): Option<seq<string>>
    requires e.Call?
  {
    None
  }

  /** A lookup as written: it first joins the parameter types into its
      error message, which throws a NullPointerException on a null list
      (`None` here), and only then searches the group. */
  function ResolveAsWritten(groups: map<string, seq<Sig>>, id: string, ts: Option<seq<string>>): Option<Option<Sig>>
  {
    if ts.None? then None else Some(Resolve(groups, id, ts.value))
  }

  /** As written, every method call crashes the generator at its first
      lookup, whatever the table holds, even where the lookup on the
      call's argument types finds the overload (`this.f()` for the
      class's own `int f()`). */
  lemma CallLookupCrashesAsWritten(e: Expr)
    requires e.Call?
    ensures forall groups, id :: ResolveAsWritten(groups, id, FetchArgsAsWritten(e)).None?
    ensures Resolve(map["f" := [Sig([], "int", 0)]], "f", []) == Some(Sig([], "int", 0))
  {
    assert map["f" := [Sig([], "int", 0)]]["f"][0].paramTypes == [];
  }

  function ReturnOf(s: Option<Sig>): Option<string>
  {
    if s.Some? then Some(s.value.returnType) else None
  }

  /** The slot of a method variable and its declared type. */
  datatype Slot = Slot(index: nat, varType: string)
  type Vars = map<string, Slot>

  /** The emission of one construct. `effect` is the net change of the
      stack counter, `peak` the highest counter value reached relative to
      the start (0 if it never rises), `labels` the number of
      `logic_operation_counter` values consumed. */
  datatype Emission = Emission(code: seq<Instr>, effect: int, peak: int, labels: nat)

  function Max(a: int, b: int): int { if a >= b then a else b }

  /** The counter's peak is never below its start or its end. */
  predicate Sane(em: Emission) { em.peak >= 0 && em.peak >= em.effect }

  /** One emission after another. */
  function Then(a: Emission, b: Emission): (r: Emission)
    ensures Sane(a) && Sane(b) ==> Sane(r)
  {
    Emission(a.code + b.code, a.effect + b.effect, Max(a.peak, a.effect + b.peak), a.labels + b.labels)
  }

  const Empty := Emission([], 0, 0, 0)
  /** `incrementStack()` with no instruction. */
  const Grow := Emission([], 1, 1, 0)
  /** `logic_operation_counter++`. */
  const Tick := Emission([], 0, 0, 1)

  /** An instruction that leaves the counter alone. */
  function Plain(i: Instr): Emission { Emission([i], 0, 0, 0) }
  /** An instruction followed by `incrementStack()`. */
  function Push(i: Instr): Emission { Emission([i], 1, 1, 0) }
  /** An instruction followed by `decrementStack(k)`. */
  function Pops(i: Instr, k: nat): Emission { Emission([i], -(k as int), 0, 0) }
  /** Instructions emitted with no counter update. */
  function Code(instrs: seq<Instr>): Emission { Emission(instrs, 0, 0, 0) }

  /** Loading a name: a method variable from its slot, otherwise a field
      through `this`; an unknown name emits nothing. */
  function LoadName(env: Env, vars: Vars, x: string): (em: Emission)
    ensures em.labels == 0 && em.peak == em.effect && Unlabelled(em.code)
    ensures x in vars || x in env.fields <==> em.effect == 1
    ensures em.effect == 0 || em.effect == 1
  {
    if x in vars then Push(Load(KindOf(vars[x].varType), vars[x].index))
    else if x in env.fields then
      Then(Push(Load("a", 0)), Plain(GetField(env.className, x, ConvertType(env.fields[x]))))
    else Empty
  }

  /** `new C()`: `new`, `dup`, and the constructor call, which consumes
      the duplicate. */
  function NewObj(c: string): (r: Emission)
    ensures Sane(r) && r.effect == 1 && r.labels == 0 && Unlabelled(r.code)
  {
    Then(Then(Push(New(c)), Push(Dup)), Pops(Invoke(Special, c, "<init>", "()V"), 1))
  }

  /** The method descriptor `(params)ret`. */
  function MethodDesc(ts: seq<string>, ret: string): string
  {
    "(" + ConvertParams(ts) + ")" + ConvertType(ret)
  }

  /** The invoke instruction: pops `k` values, then pushes the result
      unless the member is void. */
  function InvokeCode(how: InvokeKind, owner: string, m: string, ts: seq<string>, ret: string, k: nat): (r: Emission)
    ensures Sane(r) && r.labels == 0 && Unlabelled(r.code)
    ensures r.effect == (if ret == "void" then 0 else 1) - k
  {
    Then(Pops(Invoke(how, owner, m, MethodDesc(ts, ret)), k), if ret == "void" then Empty else Grow)
  }

  /** The return type `this.m(ts)` resolves to, as written: in a class
      with a superclass only the superclass's imported members are tried. */
  function ThisTargetAsWritten(env: Env, m: string, ts: seq<string>): Option<string>
  {
    if env.superName != "" then ReturnOf(LookupImport(env, env.superName + "." + m, ts))
    else ReturnOf(LookupMethod(env, m, ts))
  }

  /** The return type `this.m(ts)` resolves to: an imported member of the
      superclass first, then the class's own method, as the source does for
      a variable of the class's own type. */
  function ThisTarget(env: Env, m: string, ts: seq<string>): (r: Option<string>)
    ensures r.Some? <==> (env.superName != "" && LookupImport(env, env.superName + "." + m, ts).Some?)
                         || LookupMethod(env, m, ts).Some?
    ensures LookupMethod(env, m, ts).Some? && (env.superName == "" || LookupImport(env, env.superName + "." + m, ts).None?)
            ==> r == Some(LookupMethod(env, m, ts).value.returnType)
  {
    if env.superName != "" && LookupImport(env, env.superName + "." + m, ts).Some? then
      ReturnOf(LookupImport(env, env.superName + "." + m, ts))
    else ReturnOf(LookupMethod(env, m, ts))
  }

  /** As written, a class with a superclass drops `this.f()` for its own
      method `f`: nothing is emitted, not even the arguments. */
  lemma ThisCallDroppedAsWritten()
    ensures var env := Env("A", "B", map[], map["f" := [Sig([], "int", 0)]], map[]);
            && LookupMethod(env, "f", []).Some?
            && ThisTargetAsWritten(env, "f", []).None?
            && ThisTarget(env, "f", []) == Some("int")
  {
    var env := Env("A", "B", map[], map["f" := [Sig([], "int", 0)]], map[]);
    assert env.methods["f"][0].paramTypes == [];
  }

  /** How a call is dispatched, per receiver (the four cases of the
      generator's object-call visit). */
  datatype Dispatch = Unresolved | StaticCall(owner: string, ret: string) | VirtualCall(owner: string, ret: string)

  function DispatchOf(env: Env, recv: Receiver, m: string, ts: seq<string>): Dispatch
  {
    match recv
    case ThisRecv =>
      var r := ThisTarget(env, m, ts);
      if r.Some? then VirtualCall(env.className, r.value) else Unresolved
    case NewRecv(c) =>
      var r := if c == env.className then ReturnOf(LookupMethod(env, m, ts))
               else ReturnOf(LookupImport(env, c + "." + m, ts));
      if r.Some? then VirtualCall(c, r.value) else Unresolved
    case NamedRecv(x, vt) =>
      var s := LookupImport(env, x + "." + m, ts);
      if s.Some? then StaticCall(x, s.value.returnType)
      else
        var r := if vt == env.className then ThisTarget(env, m, ts)
                 else ReturnOf(LookupImport(env, vt + "." + m, ts));
        if r.Some? then VirtualCall(vt, r.value) else Unresolved
  }

  /** What puts the receiver of a virtual call on the stack. */
  function ReceiverCode(env: Env, vars: Vars, recv: Receiver): (r: Emission)
    ensures r.labels == 0 && Unlabelled(r.code)
  {
    match recv
    case ThisRecv => Push(Load("a", 0))
    case NewRecv(c) => NewObj(c)
    case NamedRecv(x, _) => LoadName(env, vars, x)
  }

  function CallCode(env: Env, vars: Vars, recv: Receiver, m: string, ts: seq<string>, args: Emission): (r: Emission)
    ensures Sane(args) ==> Sane(r)
    ensures r.labels == (if DispatchOf(env, recv, m, ts).Unresolved? then 0 else args.labels)
  {
    match DispatchOf(env, recv, m, ts)
    case Unresolved => Empty
    case StaticCall(o, r) => Then(args, InvokeCode(Static, o, m, ts, r, |ts|))
    case VirtualCall(o, r) => Then(Then(ReceiverCode(env, vars, recv), args), InvokeCode(Virtual, o, m, ts, r, 1 + |ts|))
  }

  /** Both operands, then the instruction. */
  function ArithCode(a: Emission, b: Emission, op: ArithOp): (r: Emission)
    ensures Sane(a) && Sane(b) ==> Sane(r)
    ensures r.effect == a.effect + b.effect - 1 && r.labels == a.labels + b.labels
  {
    Then(Then(a, b), Pops(IArith(op), 1))
  }

  /** The tail every logic operator ends with: `first` on fall-through,
      a jump over the jump target `t`, the opposite value, the end label
      `f`. */
  function OperatorTail(first: bool, t: Label, f: Label): seq<Instr>
  {
    [IConst(first), Goto(f), Mark(t), IConst(!first), Mark(f)]
  }

  /** `a && b` with label number `n`: both operands are tested against 0. */
  function AndCode(n: nat, a: Emission, b: Emission): (r: Emission)
    ensures Sane(a) && Sane(b) ==> Sane(r)
    ensures r.effect == a.effect + b.effect - 1 && r.labels == 1 + a.labels + b.labels
  {
    var f, t := Label(FalseAnd, n), Label(TrueAnd, n);
    Then(Tick, Then(Then(Then(Then(a, Pops(IfEq(f), 1)), b), Pops(IfEq(f), 1)), TailCode(true, f, t)))
  }

  /** The tail of a logic operator as emitted: its instructions, then the
      result's `incrementStack()`. */
  function TailCode(first: bool, t: Label, f: Label): (r: Emission)
    ensures Sane(r) && r.effect == 1 && r.labels == 0
  {
    Then(Code(OperatorTail(first, t, f)), Grow)
  }

  /** The common tail of `<`: 0 if the comparison fell through, 1 if it
      jumped. */
  function LtTail(n: nat): (r: Emission)
    ensures Sane(r) && r.effect == 1
  {
    TailCode(false, Label(TrueLt, n), Label(FalseLt, n))
  }

  /** `a < 0`, compared with `iflt`. */
  function LtZeroCode(n: nat, a: Emission): (r: Emission)
    ensures Sane(a) ==> Sane(r)
    ensures r.effect == a.effect && r.labels == 1 + a.labels
  {
    Then(Tick, Then(Then(a, Pops(IfLt(Label(TrueLt, n)), 1)), LtTail(n)))
  }

  /** `a < b`, compared with `if_icmplt`. */
  function LtCode(n: nat, a: Emission, b: Emission): (r: Emission)
    ensures Sane(a) && Sane(b) ==> Sane(r)
    ensures r.effect == a.effect + b.effect - 1 && r.labels == 1 + a.labels + b.labels
  {
    Then(Tick, Then(Then(Then(a, b), Pops(IfICmpLt(Label(TrueLt, n)), 2)), LtTail(n)))
  }

  /** `!a`: 1 when the operand is 0, 0 otherwise. */
  function NotCode(n: nat, a: Emission): (r: Emission)
    ensures Sane(a) ==> Sane(r)
    ensures r.effect == a.effect && r.labels == 1 + a.labels
  {
    var t, f := Label(NotEq, n), Label(Eq, n);
    Then(Tick, Then(Then(a, Pops(IfNe(t), 1)), TailCode(true, t, f)))
  }

  /** The labels of an emission made at logic counter value `lc`: all of
      the logic family, numbered from `lc` on, as many numbers as it
      consumes, each defined once, every jump target defined. */
  ghost predicate Labelled(em: Emission, lc: nat)
  {
    WellLabelled(em.code, Counters(0, 0, lc), Counters(0, 0, lc + em.labels))
  }

  lemma LeafLabelled(em: Emission, lc: nat)
    requires Unlabelled(em.code)
    ensures Labelled(em, lc)
  {
    UnlabelledIsWellLabelled(em.code, Counters(0, 0, lc), Counters(0, 0, lc + em.labels));
  }

  lemma ThenLabelled(a: Emission, b: Emission, lc: nat)
    requires Labelled(a, lc) && Labelled(b, lc + a.labels)
    ensures Labelled(Then(a, b), lc)
  {
    Join(a.code, b.code, Counters(0, 0, lc), Counters(0, 0, lc + a.labels), Counters(0, 0, lc + a.labels + b.labels));
  }

  lemma ThenAt(a: Emission, b: Emission, lc: nat, lc2: nat)
    requires lc2 == lc + a.labels && Labelled(a, lc) && Labelled(b, lc2)
    ensures Labelled(Then(a, b), lc)
  {
    ThenLabelled(a, b, lc);
  }

  /** Two labelled emissions, then code without labels. */
  lemma PairLabelled(a: Emission, b: Emission, c: Emission, lc: nat, lc2: nat)
    requires lc2 == lc + a.labels && Labelled(a, lc) && Labelled(b, lc2)
    requires Unlabelled(c.code) && c.labels == 0
    ensures Labelled(Then(Then(a, b), c), lc)
  {
    ThenLabelled(a, b, lc);
    ThenLeaf(Then(a, b), c, lc);
  }

  lemma TailLabelled(n: nat, first: bool, t: Label, f: Label)
    requires t != f && t.n == n && f.n == n
    requires FamilyOf(t.kind) == LogicFamily && FamilyOf(f.kind) == LogicFamily
    ensures WellLabelled(OperatorTail(first, t, f), Counters(0, 0, n), Counters(0, 0, n + 1))
    ensures t in Defs(OperatorTail(first, t, f))
  {
    TailDefs(first, t, f);
  }

  /** The tail defines `t` and `f`, once each, and jumps to `f`. */
  lemma TailDefs(first: bool, t: Label, f: Label)
    requires t != f
    ensures var tail := OperatorTail(first, t, f);
            Defs(tail) == {t, f} && Targets(tail) == {f} && Unique(tail)
  {
    var s0: seq<Instr> := [];
    var s1 := s0 + [IConst(first)];
    var s2 := s1 + [Goto(f)];
    var s3 := s2 + [Mark(t)];
    var s4 := s3 + [IConst(!first)];
    var s5 := s4 + [Mark(f)];
    assert Unique(s0) && Defs(s0) == {} && Targets(s0) == {};
    DefsSnoc(s0, IConst(first));
    UniqueSnoc(s0, IConst(first));
    DefsSnoc(s1, Goto(f));
    UniqueSnoc(s1, Goto(f));
    DefsSnoc(s2, Mark(t));
    UniqueSnoc(s2, Mark(t));
    DefsSnoc(s3, IConst(!first));
    UniqueSnoc(s3, IConst(!first));
    DefsSnoc(s4, Mark(f));
    UniqueSnoc(s4, Mark(f));
    assert s5 == OperatorTail(first, t, f);
  }

    /** The flattened layout of each logic operator's code. */
  lemma AndLayout(n: nat, a: Emission, b: Emission)
    ensures AndCode(n, a, b).code == a.code + [IfEq(Label(FalseAnd, n))] + b.code + [IfEq(Label(FalseAnd, n))]
                                     + OperatorTail(true, Label(FalseAnd, n), Label(TrueAnd, n))
  {
  }

  lemma LtLayout(n: nat, a: Emission, b: Emission)
    ensures LtCode(n, a, b).code == a.code + b.code + [IfICmpLt(Label(TrueLt, n))] + OperatorTail(false, Label(TrueLt, n), Label(FalseLt, n))
  {
  }

  lemma LtZeroLayout(n: nat, a: Emission)
    ensures LtZeroCode(n, a).code == a.code + [IfLt(Label(TrueLt, n))] + OperatorTail(false, Label(TrueLt, n), Label(FalseLt, n))
  {
  }

  lemma NotLayout(n: nat, a: Emission)
    ensures NotCode(n, a).code == a.code + [IfNe(Label(NotEq, n))] + OperatorTail(true, Label(NotEq, n), Label(Eq, n))
  {
  }

  /** Moves a labelling fact from a code sequence to the emission holding
      it. */
  lemma Relabel(r: Emission, code: seq<Instr>, n: nat, hi: nat)
    requires WellLabelled(code, Counters(0, 0, n), Counters(0, 0, hi))
    requires r.code == code && hi == n + r.labels
    ensures Labelled(r, n)
  {
  }

  /** Code without labels before or after labelled code. */
  lemma LeafThen(a: Emission, b: Emission, lc: nat)
    requires Unlabelled(a.code) && a.labels == 0 && Labelled(b, lc)
    ensures Labelled(Then(a, b), lc)
  {
    LeafLabelled(a, lc);
    ThenLabelled(a, b, lc);
  }

  lemma ThenLeaf(a: Emission, b: Emission, lc: nat)
    requires Labelled(a, lc) && Unlabelled(b.code) && b.labels == 0
    ensures Labelled(Then(a, b), lc)
  {
    LeafLabelled(b, lc + a.labels);
    ThenLabelled(a, b, lc);
  }

  lemma CallLabelled(env: Env, vars: Vars, recv: Receiver, m: string, ts: seq<string>, args: Emission, lc: nat)
    requires Labelled(args, lc)
    ensures Labelled(CallCode(env, vars, recv, m, ts, args), lc)
  {
    match DispatchOf(env, recv, m, ts)
    case Unresolved =>
      LeafLabelled(Empty, lc);
    case StaticCall(o, r) =>
      var ic := InvokeCode(Static, o, m, ts, r, |ts|);
      ThenLeaf(args, ic, lc);
      assert CallCode(env, vars, recv, m, ts, args) == Then(args, ic);
    case VirtualCall(o, r) =>
      var rc := ReceiverCode(env, vars, recv);
      var ic := InvokeCode(Virtual, o, m, ts, r, 1 + |ts|);
      LeafThen(rc, args, lc);
      ThenLeaf(Then(rc, args), ic, lc);
      assert CallCode(env, vars, recv, m, ts, args) == Then(Then(rc, args), ic);
  }

  lemma ArithLabelled(a: Emission, b: Emission, op: ArithOp, lc: nat, lc2: nat)
    requires lc2 == lc + a.labels && Labelled(a, lc) && Labelled(b, lc2)
    ensures Labelled(ArithCode(a, b, op), lc)
  {
    ThenLabelled(a, b, lc);
    ThenLeaf(Then(a, b), Pops(IArith(op), 1), lc);
  }

  lemma AndLabelled(n: nat, a: Emission, b: Emission, n1: nat, n2: nat)
    requires n1 == n + 1 && n2 == n1 + a.labels && Labelled(a, n1) && Labelled(b, n2)
    ensures Labelled(AndCode(n, a, b), n)
  {
    var f, t := Label(FalseAnd, n), Label(TrueAnd, n);
    var lo, mid, hi := Counters(0, 0, n + 1), Counters(0, 0, n + 1 + a.labels), Counters(0, 0, n + 1 + a.labels + b.labels);
    var body := a.code + [IfEq(f)] + b.code + [IfEq(f)];
    Guard(a.code, IfEq(f), f, lo, mid);
    GuardAgain(a.code + [IfEq(f)], b.code, IfEq(f), f, lo, mid, hi);
    TailLabelled(n, true, f, t);
    Enclose(body, OperatorTail(true, f, t), f, Counters(0, 0, n), lo, hi);
    AndLayout(n, a, b);
    Relabel(AndCode(n, a, b), body + OperatorTail(true, f, t), n, n + 1 + a.labels + b.labels);
  }

  lemma LtLabelled(n: nat, a: Emission, b: Emission, n1: nat, n2: nat)
    requires n1 == n + 1 && n2 == n1 + a.labels && Labelled(a, n1) && Labelled(b, n2)
    ensures Labelled(LtCode(n, a, b), n)
  {
    var t, f := Label(TrueLt, n), Label(FalseLt, n);
    var lo, mid, hi := Counters(0, 0, n + 1), Counters(0, 0, n + 1 + a.labels), Counters(0, 0, n + 1 + a.labels + b.labels);
    Join(a.code, b.code, lo, mid, hi);
    Guard(a.code + b.code, IfICmpLt(t), t, lo, hi);
    TailLabelled(n, false, t, f);
    Enclose(a.code + b.code + [IfICmpLt(t)], OperatorTail(false, t, f), t, Counters(0, 0, n), lo, hi);
    LtLayout(n, a, b);
    Relabel(LtCode(n, a, b), a.code + b.code + [IfICmpLt(t)] + OperatorTail(false, t, f), n, n + 1 + a.labels + b.labels);
  }

  lemma LtZeroLabelled(n: nat, a: Emission, n1: nat)
    requires n1 == n + 1 && Labelled(a, n1)
    ensures Labelled(LtZeroCode(n, a), n)
  {
    var t, f := Label(TrueLt, n), Label(FalseLt, n);
    var lo, hi := Counters(0, 0, n + 1), Counters(0, 0, n + 1 + a.labels);
    Guard(a.code, IfLt(t), t, lo, hi);
    TailLabelled(n, false, t, f);
    Enclose(a.code + [IfLt(t)], OperatorTail(false, t, f), t, Counters(0, 0, n), lo, hi);
    LtZeroLayout(n, a);
    Relabel(LtZeroCode(n, a), a.code + [IfLt(t)] + OperatorTail(false, t, f), n, n + 1 + a.labels);
  }

  lemma NotLabelled(n: nat, a: Emission, n1: nat)
    requires n1 == n + 1 && Labelled(a, n1)
    ensures Labelled(NotCode(n, a), n)
  {
    var t, f := Label(NotEq, n), Label(Eq, n);
    var lo, hi := Counters(0, 0, n + 1), Counters(0, 0, n + 1 + a.labels);
    Guard(a.code, IfNe(t), t, lo, hi);
    TailLabelled(n, true, t, f);
    Enclose(a.code + [IfNe(t)], OperatorTail(true, t, f), t, Counters(0, 0, n), lo, hi);
    NotLayout(n, a);
    Relabel(NotCode(n, a), a.code + [IfNe(t)] + OperatorTail(true, t, f), n, n + 1 + a.labels);
  }

  /** The number of `logic_operation_counter` values the emission of an
      expression takes: one for each `&&`, `<` and `!` it visits. A call
      that does not resolve visits nothing, not even its arguments. */
  function LogicOps(env: Env, e: Expr): nat
    decreases e, 1
  {
    match e
    case IntLit(_) => 0
    case BoolLit(_) => 0
    case NewObject(_) => 0
    case Id(_, i, _) => if i.Some? then LogicOps(env, i.value) else 0
    case Arith(_, l, r, _) => LogicOps(env, l) + LogicOps(env, r)
    case And(l, r, _) => 1 + LogicOps(env, l) + LogicOps(env, r)
    case Lt(l, r, _) => 1 + LogicOps(env, l) + LogicOps(env, r)
    case Not(x, _) => 1 + LogicOps(env, x)
    case NewArray(n) => LogicOps(env, n)
    case Length(x) => LogicOps(env, x)
    case Call(recv, m, _, ts) => if DispatchOf(env, recv, m, ts).Unresolved? then 0 else ArgsOps(env, e, 0)
  }

  /** The same count for the arguments of call `e` from the `i`-th on. */
  function ArgsOps(env: Env, e: Expr, i: nat): nat
    requires e.Call? && i <= |e.args|
    decreases e, 0, |e.args| - i
  {
    if i == |e.args| then 0 else LogicOps(env, e.args[i]) + ArgsOps(env, e, i + 1)
  }

  /** The emission of an expression; `lc` is the value of
      `logic_operation_counter` when it is visited. */
  function EmitExpr(env: Env, vars: Vars, e: Expr, lc: nat): (em: Emission)
    ensures Sane(em)
    decreases e, 1
  {
    match e
    case IntLit(v) => Push(PushInt(v))
    case BoolLit(b) => Push(IConst(b))
    case Id(_, _, _) => IdExpr(env, vars, e, lc)
    case Arith(_, _, _, _) => ArithExpr(env, vars, e, lc)
    case And(_, _, _) => AndExpr(env, vars, e, lc)
    case Lt(_, _, _) => LtExpr(env, vars, e, lc)
    case Not(_, _) => NotExpr(env, vars, e, lc)
    case NewArray(n) => Then(EmitExpr(env, vars, n, lc), Plain(NewArrayInt))
    case NewObject(c) => NewObj(c)
    case Length(a) => Then(EmitExpr(env, vars, a, lc), Plain(ArrayLength))
    case Call(_, _, _, _) => CallExpr(env, vars, e, lc)
  }

  /** A name, or `a[i]` as a value: the array, the index, `iaload`. */
  function IdExpr(env: Env, vars: Vars, e: Expr, lc: nat): (em: Emission)
    requires e.Id?
    ensures Sane(em)
    decreases e, 0
  {
    var x := LoadName(env, vars, e.name);
    match e.index
    case None => x
    case Some(i) => Then(Then(x, EmitExpr(env, vars, i, lc)), Pops(IALoad, 1))
  }

  /** Both operands, then the arithmetic instruction. */
  function ArithExpr(env: Env, vars: Vars, e: Expr, lc: nat): (em: Emission)
    requires e.Arith?
    ensures Sane(em)
    decreases e, 0
  {
    var a := EmitExpr(env, vars, e.left, lc);
    var b := EmitExpr(env, vars, e.right, lc + a.labels);
    ArithCode(a, b, e.op)
  }

  /** `&&` takes the current counter value and visits its operands after
      incrementing it. */
  function AndExpr(env: Env, vars: Vars, e: Expr, lc: nat): (em: Emission)
    requires e.And?
    ensures Sane(em)
    decreases e, 0
  {
    var a := EmitExpr(env, vars, e.left, lc + 1);
    var b := EmitExpr(env, vars, e.right, lc + 1 + a.labels);
    AndCode(lc, a, b)
  }

  /** `<`, with the `iflt` shortcut when the right operand is the literal
      0. */
  function LtExpr(env: Env, vars: Vars, e: Expr, lc: nat): (em: Emission)
    requires e.Lt?
    ensures Sane(em)
    decreases e, 0
  {
    var a := EmitExpr(env, vars, e.left, lc + 1);
    if e.right.IntLit? && e.right.value == 0 then LtZeroCode(lc, a)
    else
      var b := EmitExpr(env, vars, e.right, lc + 1 + a.labels);
      LtCode(lc, a, b)
  }

  /** `!` takes the current counter value and visits its operand after
      incrementing it. */
  function NotExpr(env: Env, vars: Vars, e: Expr, lc: nat): (em: Emission)
    requires e.Not?
    ensures Sane(em)
    decreases e, 0
  {
    var a := EmitExpr(env, vars, e.operand, lc + 1);
    NotCode(lc, a)
  }

  /** A call: its arguments, in order, inside the dispatch. */
  function CallExpr(env: Env, vars: Vars, e: Expr, lc: nat): (em: Emission)
    requires e.Call?
    ensures Sane(em)
    decreases e, 0
  {
    CallCode(env, vars, e.recv, e.member, e.argTypes, EmitArgs(env, vars, e, 0, lc))
  }

  /** The arguments of call `e` from the `i`-th on, in order. */
  function EmitArgs(env: Env, vars: Vars, e: Expr, i: nat, lc: nat): (em: Emission)
    requires e.Call? && i <= |e.args|
    ensures Sane(em)
    decreases e, 0, |e.args| - i
  {
    if i == |e.args| then Empty
    else
      var a := EmitExpr(env, vars, e.args[i], lc);
      Then(a, EmitArgs(env, vars, e, i + 1, lc + a.labels))
  }

  /** A call's emission in terms of its arguments'. */
  lemma CallParts(env: Env, vars: Vars, e: Expr, lc: nat, em: Emission) returns (args: Emission)
    requires e.Call? && em == CallExpr(env, vars, e, lc)
    ensures args == EmitArgs(env, vars, e, 0, lc)
    ensures em == CallCode(env, vars, e.recv, e.member, e.argTypes, args)
  {
    args := EmitArgs(env, vars, e, 0, lc);
  }

  /** The arguments from the `i`-th on: that argument, then the rest. */
  lemma ArgsParts(env: Env, vars: Vars, e: Expr, i: nat, lc: nat, rest: Emission) returns (x: Emission, lc2: nat, more: Emission)
    requires e.Call? && i < |e.args| && rest == EmitArgs(env, vars, e, i, lc)
    ensures x == EmitExpr(env, vars, e.args[i], lc)
    ensures lc2 == lc + x.labels && more == EmitArgs(env, vars, e, i + 1, lc2)
    ensures rest == Then(x, more)
  {
    x := EmitExpr(env, vars, e.args[i], lc);
    lc2 := lc + x.labels;
    more := EmitArgs(env, vars, e, i + 1, lc2);
  }

  /** An arithmetic operation's emission in terms of its operands'. */
  lemma ArithParts(env: Env, vars: Vars, e: Expr, n: nat, em: Emission) returns (a: Emission, n2: nat, b: Emission)
    requires e.Arith? && em == ArithExpr(env, vars, e, n)
    ensures a == EmitExpr(env, vars, e.left, n)
    ensures n2 == n + a.labels && b == EmitExpr(env, vars, e.right, n2)
    ensures em == ArithCode(a, b, e.op)
  {
    a := EmitExpr(env, vars, e.left, n);
    n2 := n + a.labels;
    b := EmitExpr(env, vars, e.right, n2);
  }

  /** `&&`'s emission in terms of its operands'. */
  lemma AndParts(env: Env, vars: Vars, e: Expr, n: nat, em: Emission) returns (n1: nat, a: Emission, n2: nat, b: Emission)
    requires e.And? && em == AndExpr(env, vars, e, n)
    ensures n1 == n + 1 && a == EmitExpr(env, vars, e.left, n1)
    ensures n2 == n1 + a.labels && b == EmitExpr(env, vars, e.right, n2)
    ensures em == AndCode(n, a, b)
  {
    n1 := n + 1;
    a := EmitExpr(env, vars, e.left, n1);
    n2 := n1 + a.labels;
    b := EmitExpr(env, vars, e.right, n2);
  }

  /** `<`'s emission in terms of its operands'; the right one is emitted
      only when it is not the literal 0. */
  lemma LtParts(env: Env, vars: Vars, e: Expr, n: nat, em: Emission) returns (n1: nat, a: Emission, n2: nat, b: Emission)
    requires e.Lt? && em == LtExpr(env, vars, e, n)
    ensures n1 == n + 1 && a == EmitExpr(env, vars, e.left, n1)
    ensures n2 == n1 + a.labels && b == EmitExpr(env, vars, e.right, n2)
    ensures em == if e.right.IntLit? && e.right.value == 0 then LtZeroCode(n, a) else LtCode(n, a, b)
  {
    n1 := n + 1;
    a := EmitExpr(env, vars, e.left, n1);
    n2 := n1 + a.labels;
    b := EmitExpr(env, vars, e.right, n2);
    if !(e.right.IntLit? && e.right.value == 0) {
      assert em == LtCode(n, a, b);
    }
  }

  /** `!`'s emission in terms of its operand's. */
  lemma NotParts(env: Env, vars: Vars, e: Expr, n: nat, em: Emission) returns (n1: nat, a: Emission)
    requires e.Not? && em == NotExpr(env, vars, e, n)
    ensures n1 == n + 1 && a == EmitExpr(env, vars, e.operand, n1) && em == NotCode(n, a)
  {
    n1 := n + 1;
    a := EmitExpr(env, vars, e.operand, n1);
  }

  /** An expression's emission takes one counter value for each logic
      operator it visits, and a resolved expression leaves one value on
      the stack (a resolved call: none when it returns `void`). */
  lemma {:induction false} ExprCounts(env: Env, vars: Vars, e: Expr, lc: nat)
    ensures EmitExpr(env, vars, e, lc).labels == LogicOps(env, e)
    ensures Resolved(env, vars, e) ==> EmitExpr(env, vars, e, lc).effect == 1
    ensures e.Call? && CallResolved(env, vars, e) ==>
            EmitExpr(env, vars, e, lc).effect == if DispatchOf(env, e.recv, e.member, e.argTypes).ret == "void" then 0 else 1
    decreases e, 1
  {
    match e
    case IntLit(_) =>
    case BoolLit(_) =>
    case Id(_, i, _) =>
      if i.Some? {
        ExprCounts(env, vars, i.value, lc);
      }
    case Arith(_, _, _, _) => ArithCounts(env, vars, e, lc);
    case And(_, _, _) => AndCounts(env, vars, e, lc);
    case Lt(_, _, _) => LtCounts(env, vars, e, lc);
    case Not(_, _) => NotCounts(env, vars, e, lc);
    case NewArray(n) => ExprCounts(env, vars, n, lc);
    case NewObject(_) =>
    case Length(x) => ExprCounts(env, vars, x, lc);
    case Call(_, _, _, _) => CallCounts(env, vars, e, lc);
  }

  lemma {:induction false} ArithCounts(env: Env, vars: Vars, e: Expr, lc: nat)
    requires e.Arith?
    ensures ArithExpr(env, vars, e, lc).labels == LogicOps(env, e)
    ensures Resolved(env, vars, e) ==> ArithExpr(env, vars, e, lc).effect == 1
    decreases e, 0
  {
    var a, n2, b := ArithParts(env, vars, e, lc, ArithExpr(env, vars, e, lc));
    ExprCounts(env, vars, e.left, lc);
    ExprCounts(env, vars, e.right, n2);
  }

  lemma {:induction false} AndCounts(env: Env, vars: Vars, e: Expr, lc: nat)
    requires e.And?
    ensures AndExpr(env, vars, e, lc).labels == LogicOps(env, e)
    ensures Resolved(env, vars, e) ==> AndExpr(env, vars, e, lc).effect == 1
    decreases e, 0
  {
    var n1, a, n2, b := AndParts(env, vars, e, lc, AndExpr(env, vars, e, lc));
    ExprCounts(env, vars, e.left, n1);
    ExprCounts(env, vars, e.right, n2);
  }

  lemma {:induction false} LtCounts(env: Env, vars: Vars, e: Expr, lc: nat)
    requires e.Lt?
    ensures LtExpr(env, vars, e, lc).labels == LogicOps(env, e)
    ensures Resolved(env, vars, e) ==> LtExpr(env, vars, e, lc).effect == 1
    decreases e, 0
  {
    var n1, a, n2, b := LtParts(env, vars, e, lc, LtExpr(env, vars, e, lc));
    ExprCounts(env, vars, e.left, n1);
    ExprCounts(env, vars, e.right, n2);
  }

  lemma {:induction false} NotCounts(env: Env, vars: Vars, e: Expr, lc: nat)
    requires e.Not?
    ensures NotExpr(env, vars, e, lc).labels == LogicOps(env, e)
    ensures Resolved(env, vars, e) ==> NotExpr(env, vars, e, lc).effect == 1
    decreases e, 0
  {
    var n1, a := NotParts(env, vars, e, lc, NotExpr(env, vars, e, lc));
    ExprCounts(env, vars, e.operand, n1);
  }

  /** The counts of a call: its arguments', when it resolves. */
  lemma {:induction false} CallCounts(env: Env, vars: Vars, e: Expr, lc: nat)
    requires e.Call?
    ensures CallExpr(env, vars, e, lc).labels == LogicOps(env, e)
    ensures CallResolved(env, vars, e) ==>
            CallExpr(env, vars, e, lc).effect == if DispatchOf(env, e.recv, e.member, e.argTypes).ret == "void" then 0 else 1
    decreases e, 0
  {
    ArgsCounts(env, vars, e, 0, lc);
  }

  /** The same counts for the arguments of call `e` from the `i`-th on:
      resolved, they leave one value each. */
  lemma {:induction false} ArgsCounts(env: Env, vars: Vars, e: Expr, i: nat, lc: nat)
    requires e.Call? && i <= |e.args|
    ensures EmitArgs(env, vars, e, i, lc).labels == ArgsOps(env, e, i)
    ensures ArgsResolved(env, vars, e, i) ==> EmitArgs(env, vars, e, i, lc).effect == |e.args| - i
    decreases e, 0, |e.args| - i
  {
    if i < |e.args| {
      var x, lc2, more := ArgsParts(env, vars, e, i, lc, EmitArgs(env, vars, e, i, lc));
      ExprCounts(env, vars, e.args[i], lc);
      ArgsCounts(env, vars, e, i + 1, lc2);
    }
  }

  /** An expression's code numbers its labels from the counter value it
      is emitted at, consumes exactly the numbers it reports, defines
      each label once and every label it jumps to. */
  lemma {:induction false} ExprLabelled(env: Env, vars: Vars, e: Expr, lc: nat)
    ensures Labelled(EmitExpr(env, vars, e, lc), lc)
    decreases e, 2
  {
    match e
    case IntLit(v) => LeafLabelled(Push(PushInt(v)), lc);
    case BoolLit(b) => LeafLabelled(Push(IConst(b)), lc);
    case Id(_, _, _) => IdExprLabelled(env, vars, e, lc);
    case Arith(_, _, _, _) => ArithExprLabelled(env, vars, e, lc);
    case And(_, _, _) => AndExprLabelled(env, vars, e, lc);
    case Lt(_, _, _) => LtExprLabelled(env, vars, e, lc);
    case Not(_, _) => NotExprLabelled(env, vars, e, lc);
    case NewArray(n) =>
      ExprLabelled(env, vars, n, lc);
      ThenLeaf(EmitExpr(env, vars, n, lc), Plain(NewArrayInt), lc);
    case NewObject(c) => LeafLabelled(NewObj(c), lc);
    case Length(x) =>
      ExprLabelled(env, vars, x, lc);
      ThenLeaf(EmitExpr(env, vars, x, lc), Plain(ArrayLength), lc);
    case Call(_, _, _, _) => CallExprLabelled(env, vars, e, lc);
  }

  lemma {:induction false} IdExprLabelled(env: Env, vars: Vars, e: Expr, lc: nat)
    requires e.Id?
    ensures Labelled(IdExpr(env, vars, e, lc), lc)
    decreases e, 0
  {
    var x := LoadName(env, vars, e.name);
    match e.index
    case None => LeafLabelled(x, lc);
    case Some(i) =>
      ExprLabelled(env, vars, i, lc);
      var a := EmitExpr(env, vars, i, lc);
      LeafThen(x, a, lc);
      ThenLeaf(Then(x, a), Pops(IALoad, 1), lc);
  }

  lemma {:induction false} ArithExprLabelled(env: Env, vars: Vars, e: Expr, lc: nat)
    requires e.Arith?
    ensures Labelled(ArithExpr(env, vars, e, lc), lc)
    decreases e, 0
  {
    var a, n2, b := ArithParts(env, vars, e, lc, ArithExpr(env, vars, e, lc));
    ExprLabelled(env, vars, e.left, lc);
    ExprLabelled(env, vars, e.right, n2);
    ArithLabelled(a, b, e.op, lc, n2);
  }

  lemma {:induction false} AndExprLabelled(env: Env, vars: Vars, e: Expr, lc: nat)
    requires e.And?
    ensures Labelled(AndExpr(env, vars, e, lc), lc)
    decreases e, 0
  {
    var n1, a, n2, b := AndParts(env, vars, e, lc, AndExpr(env, vars, e, lc));
    ExprLabelled(env, vars, e.left, n1);
    ExprLabelled(env, vars, e.right, n2);
    AndLabelled(lc, a, b, n1, n2);
  }

  lemma {:induction false} LtExprLabelled(env: Env, vars: Vars, e: Expr, lc: nat)
    requires e.Lt?
    ensures Labelled(LtExpr(env, vars, e, lc), lc)
    decreases e, 1
  {
    if e.right.IntLit? && e.right.value == 0 {
      LtZeroExprLabelled(env, vars, e, lc);
    } else {
      LtPairExprLabelled(env, vars, e, lc);
    }
  }

  lemma {:induction false} LtZeroExprLabelled(env: Env, vars: Vars, e: Expr, lc: nat)
    requires e.Lt? && e.right.IntLit? && e.right.value == 0
    ensures Labelled(LtExpr(env, vars, e, lc), lc)
    decreases e, 0
  {
    var n1, a, n2, b := LtParts(env, vars, e, lc, LtExpr(env, vars, e, lc));
    ExprLabelled(env, vars, e.left, n1);
    LtZeroLabelled(lc, a, n1);
  }

  lemma {:induction false} LtPairExprLabelled(env: Env, vars: Vars, e: Expr, lc: nat)
    requires e.Lt? && !(e.right.IntLit? && e.right.value == 0)
    ensures Labelled(LtExpr(env, vars, e, lc), lc)
    decreases e, 0
  {
    var n1, a, n2, b := LtParts(env, vars, e, lc, LtExpr(env, vars, e, lc));
    ExprLabelled(env, vars, e.left, n1);
    ExprLabelled(env, vars, e.right, n2);
    LtLabelled(lc, a, b, n1, n2);
  }

  lemma {:induction false} NotExprLabelled(env: Env, vars: Vars, e: Expr, lc: nat)
    requires e.Not?
    ensures Labelled(NotExpr(env, vars, e, lc), lc)
    decreases e, 0
  {
    var n1, a := NotParts(env, vars, e, lc, NotExpr(env, vars, e, lc));
    ExprLabelled(env, vars, e.operand, n1);
    NotLabelled(lc, a, n1);
  }

  lemma {:induction false} CallExprLabelled(env: Env, vars: Vars, e: Expr, lc: nat)
    requires e.Call?
    ensures Labelled(CallExpr(env, vars, e, lc), lc)
    decreases e, 0
  {
    ArgsLabelled(env, vars, e, 0, lc);
    CallLabelled(env, vars, e.recv, e.member, e.argTypes, EmitArgs(env, vars, e, 0, lc), lc);
  }

  lemma {:induction false} ArgsLabelled(env: Env, vars: Vars, e: Expr, i: nat, lc: nat)
    requires e.Call? && i <= |e.args|
    ensures Labelled(EmitArgs(env, vars, e, i, lc), lc)
    decreases e, 0, |e.args| - i
  {
    if i == |e.args| {
      LeafLabelled(Empty, lc);
    } else {
      var x, lc2, more := ArgsParts(env, vars, e, i, lc, EmitArgs(env, vars, e, i, lc));
      ExprLabelled(env, vars, e.args[i], lc);
      ArgsLabelled(env, vars, e, i + 1, lc2);
      ThenAt(x, more, lc, lc2);
    }
  }

  /** A name the generator can load. */
  predicate Loadable(env: Env, vars: Vars, x: string)
  {
    x in vars || x in env.fields
  }

  /** A call whose member resolves, whose argument-type list matches its
      arguments, whose arguments each leave one value, and whose receiver,
      when it is a name, can be loaded. */
  predicate CallResolved(env: Env, vars: Vars, e: Expr)
    requires e.Call?
    decreases e, 1
  {
    var d := DispatchOf(env, e.recv, e.member, e.argTypes);
    && !d.Unresolved?
    && |e.args| == |e.argTypes|
    && ArgsResolved(env, vars, e, 0)
    && (d.VirtualCall? && e.recv.NamedRecv? ==> Loadable(env, vars, e.recv.name))
  }

  /** The arguments of call `e` from the `i`-th on are resolved. */
  predicate ArgsResolved(env: Env, vars: Vars, e: Expr, i: nat)
    requires e.Call? && i <= |e.args|
    decreases e, 0, |e.args| - i
  {
    i == |e.args| || (Resolved(env, vars, e.args[i]) && ArgsResolved(env, vars, e, i + 1))
  }

  /** An expression every name and call of which the generator resolves,
      and which yields a value. */
  predicate Resolved(env: Env, vars: Vars, e: Expr)
    decreases e, 2
  {
    match e
    case IntLit(_) => true
    case BoolLit(_) => true
    case Id(x, None, _) => Loadable(env, vars, x)
    case Id(x, Some(i), _) => Loadable(env, vars, x) && Resolved(env, vars, i)
    case Arith(_, l, r, _) => Resolved(env, vars, l) && Resolved(env, vars, r)
    case And(l, r, _) => Resolved(env, vars, l) && Resolved(env, vars, r)
    case Lt(l, r, _) => Resolved(env, vars, l) && Resolved(env, vars, r)
    case Not(x, _) => Resolved(env, vars, x)
    case NewArray(n) => Resolved(env, vars, n)
    case NewObject(_) => true
    case Length(a) => Resolved(env, vars, a)
    case Call(_, _, _, _) =>
      CallResolved(env, vars, e) && DispatchOf(env, e.recv, e.member, e.argTypes).ret != "void"
  }
}
