/** The code generator as a class: the state it updates while it walks a
    class (the instruction buffer of the current method, `currentStack`,
    `maxStack`, the three label counters, the variable map and its slot
    counter) and the lines it writes to the `.j` file. Every visit is
    proved to do exactly what the pure emission functions of `Emit` and
    `Statements` describe, so the properties proved about those functions
    (stack effect, label discipline, slots) hold of what the class writes.
    Those functions use the completed literal push (`PushInt`), type
    descriptors (`ConvertType`) and `this` dispatch (`ThisTarget`); the
    source's own versions of the three are `PushIntAsWritten`,
    `ConvertTypeAsWritten` and `ThisTargetAsWritten`, which the generator
    does not use. */
module Generator {
  import opened Wrappers
  import opened Text
  import opened Ast
  import opened Jasmin
  import opened Labels
  import opened Emit
  import opened Statements
  import opened BlockLabels
  import opened Slots
  import opened Methods
  import opened Steps

  class CodeGenerator {
    /** The symbol table, as the generator reads it. */
    const env: Env
    /** The lines written to the output file so far. */
    var out: seq<string>
    /** `instructionBuffer`: the current method's instructions. */
    var buffer: seq<Instr>
    var currentStack: int
    var maxStack: int
    var ifCounter: nat
    var whileCounter: nat
    var logicCounter: nat
    var variableMap: Vars
    var currentVariableIndex: nat

    /** The part of the state that emission changes. */
    ghost function State(): Gen
      reads this
    {
      Gen(buffer, currentStack, maxStack, Counters(ifCounter, whileCounter, logicCounter))
    }

    /** A fresh generator: empty output and buffer, counters at 0, no
        variable map yet. */
    constructor (env: Env)
      ensures this.env == env && out == [] && variableMap == map[] && currentVariableIndex == 0
      ensures State() == Gen([], 0, 0, Counters(0, 0, 0))
    {
      this.env := env;
      out := [];
      buffer := [];
      currentStack := 0;
      maxStack := 0;
      ifCounter := 0;
      whileCounter := 0;
      logicCounter := 0;
      variableMap := map[];
      currentVariableIndex := 0;
    }

    /** `addVariable`: a new name gets the next slot; an existing name is
        left alone. */
    method AddVariable(x: string, t: string) returns (added: bool)
      modifies this`variableMap, this`currentVariableIndex
      ensures var r := AddSlot(old(variableMap), old(currentVariableIndex), x, t);
              variableMap == r.vars && currentVariableIndex == r.next && added == r.isNew
    {
      if x !in variableMap {
        variableMap := variableMap[x := Slot(currentVariableIndex, t)];
        currentVariableIndex := currentVariableIndex + 1;
        added := true;
      } else {
        added := false;
      }
    }

    /** Each declaration of a list, in order. */
    method AddVariables(ds: seq<VarDecl>)
      modifies this`variableMap, this`currentVariableIndex
      ensures variableMap == Allocate(old(variableMap), old(currentVariableIndex), ds).vars
      ensures currentVariableIndex == Allocate(old(variableMap), old(currentVariableIndex), ds).next
    {
      var i := 0;
      while i < |ds|
        invariant 0 <= i <= |ds|
        invariant Allocate(variableMap, currentVariableIndex, ds[i..]) == Allocate(old(variableMap), old(currentVariableIndex), ds)
      {
        assert ds[i..][0] == ds[i] && ds[i..][1..] == ds[i + 1..];
        var added := AddVariable(ds[i].name, ds[i].varType);
        i := i + 1;
      }
    }

    /** `incrementStack()`: the counter rises and the maximum follows it. */
    method IncrementStack()
      modifies this`currentStack, this`maxStack
      ensures State() == Apply(old(State()), Grow)
    {
      currentStack := currentStack + 1;
      if currentStack > maxStack {
        maxStack := currentStack;
      }
    }

    /** `decrementStack(k)`. */
    method DecrementStack(k: nat)
      modifies this`currentStack
      ensures State() == old(State()).(depth := old(currentStack) - k)
    {
      currentStack := currentStack - k;
    }

    /** `bufferInstruction`. */
    method Buffer(i: Instr)
      modifies this`buffer
      ensures State() == Append(old(State()), [i])
    {
      buffer := buffer + [i];
    }

    /** An instruction followed by `incrementStack()`. */
    method BufferPush(i: Instr)
      modifies this`buffer, this`currentStack, this`maxStack, this`logicCounter
      ensures State() == Apply(old(State()), Push(i))
      ensures logicCounter == old(logicCounter)
    {
      Buffer(i);
      IncrementStack();
    }

    /** An instruction followed by `decrementStack(k)`. */
    method BufferPop(i: Instr, k: nat)
      requires Valid(State())
      modifies this`buffer, this`currentStack, this`maxStack, this`logicCounter
      ensures State() == Apply(old(State()), Pops(i, k))
      ensures logicCounter == old(logicCounter)
    {
      Buffer(i);
      DecrementStack(k);
    }

    /** An instruction that leaves the counter where it is. */
    method BufferPlain(i: Instr)
      requires Valid(State())
      modifies this`buffer, this`currentStack, this`maxStack, this`logicCounter
      ensures State() == Apply(old(State()), Plain(i))
      ensures logicCounter == old(logicCounter)
    {
      Buffer(i);
    }

    /** `clearStack()`: one `pop` per value the counter says is on the
        stack, down to 0. */
    method ClearStack()
      requires currentStack >= 0
      modifies this`buffer, this`currentStack, this`maxStack, this`logicCounter
      ensures State() == Clear(old(State())).value
    {
      ghost var k0 := currentStack;
      while currentStack != 0
        invariant 0 <= currentStack <= k0
        invariant State() == old(State()).(code := old(buffer) + seq(k0 - currentStack, _ => Pop), depth := currentStack)
        decreases currentStack
      {
        ghost var popped := seq(k0 - currentStack, _ => Pop);
        Buffer(Pop);
        DecrementStack(1);
        assert popped + [Pop] == seq(k0 - currentStack, _ => Pop);
      }
    }

    /** The shared tail of the logic operators, then the result's
        `incrementStack()`. */
    method BufferTail(first: bool, t: Label, f: Label)
      requires Valid(State())
      modifies this`buffer, this`currentStack, this`maxStack, this`logicCounter
      ensures State() == Apply(old(State()), TailCode(first, t, f))
      ensures logicCounter == old(logicCounter)
    {
      Buffer(IConst(first));
      Buffer(Goto(f));
      Buffer(Mark(t));
      Buffer(IConst(!first));
      Buffer(Mark(f));
      IncrementStack();
    }

    /** The visit of an expression: exactly its emission `em`, made with
        the variable map `vars` at the current value `lc` of
        `logic_operation_counter`. */
    method VisitExpr(e: Expr, ghost vars: Vars, ghost lc: nat, ghost em: Emission)
      requires Valid(State()) && variableMap == vars && logicCounter == lc && em == EmitExpr(env, vars, e, lc)
      modifies this`buffer, this`currentStack, this`maxStack, this`logicCounter
      ensures State() == Apply(old(State()), em)
      ensures logicCounter == lc + em.labels
      decreases e, 1
    {
      match e
      case IntLit(v) => BufferPush(PushInt(v));
      case BoolLit(b) => BufferPush(IConst(b));
      case Id(_, _, _) => VisitId(e, vars, lc, em);
      case Arith(_, _, _, _) => VisitArith(e, vars, lc, em);
      case And(_, _, _) => VisitAnd(e, vars, lc, em);
      case Lt(_, _, _) => VisitLt(e, vars, lc, em);
      case Not(_, _) => VisitNot(e, vars, lc, em);
      case NewArray(n) =>
        ghost var g := State();
        ghost var a := EmitExpr(env, vars, n, lc);
        VisitExpr(n, vars, lc, a);
        BufferPlain(NewArrayInt);
        ApplyThen(g, a, Plain(NewArrayInt));
      case NewObject(c) => VisitNew(c);
      case Length(x) =>
        ghost var g := State();
        ghost var a := EmitExpr(env, vars, x, lc);
        VisitExpr(x, vars, lc, a);
        BufferPlain(ArrayLength);
        ApplyThen(g, a, Plain(ArrayLength));
      case Call(_, _, _, _) => VisitCall(e, vars, lc, em);
    }

    /** Loading a name: its slot, or `this` and the field; nothing for an
        unknown name (the source reports it on the error stream). */
    method VisitName(x: string)
      requires Valid(State())
      modifies this`buffer, this`currentStack, this`maxStack, this`logicCounter
      ensures State() == Apply(old(State()), LoadName(env, variableMap, x))
    {
      if x in variableMap {
        BufferPush(Load(KindOf(variableMap[x].varType), variableMap[x].index));
      } else if x in env.fields {
        ghost var g := State();
        BufferPush(Load("a", 0));
        BufferPlain(GetField(env.className, x, ConvertType(env.fields[x])));
        ApplyThen(g, Push(Load("a", 0)), Plain(GetField(env.className, x, ConvertType(env.fields[x]))));
      }
    }

    /** A name, or an indexed read `a[i]`. */
    method VisitId(e: Expr, ghost vars: Vars, ghost lc: nat, ghost em: Emission)
      requires e.Id? && Valid(State()) && variableMap == vars && logicCounter == lc && em == IdExpr(env, vars, e, lc)
      modifies this`buffer, this`currentStack, this`maxStack, this`logicCounter
      ensures State() == Apply(old(State()), em)
      decreases e, 0
    {
      ghost var g := State();
      VisitName(e.name);
      if e.index.Some? {
        ghost var x := LoadName(env, vars, e.name);
        ghost var i := EmitExpr(env, vars, e.index.value, lc);
        VisitExpr(e.index.value, vars, lc, i);
        BufferPop(IALoad, 1);
        ApplyThen(g, x, i);
        ApplyThen(g, Then(x, i), Pops(IALoad, 1));
      }
    }

    /** Both operands, then the instruction. */
    method VisitArith(e: Expr, ghost vars: Vars, ghost lc: nat, ghost em: Emission)
      requires e.Arith? && Valid(State()) && variableMap == vars && logicCounter == lc && em == ArithExpr(env, vars, e, lc)
      modifies this`buffer, this`currentStack, this`maxStack, this`logicCounter
      ensures State() == Apply(old(State()), em)
      decreases e, 0
    {
      ghost var g := State();
      ghost var a, lc2, b := ArithParts(env, vars, e, lc, em);
      VisitExpr(e.left, vars, lc, a);
      VisitExpr(e.right, vars, lc2, b);
      BufferPop(IArith(e.op), 1);
      ArithSteps(g, a, b, e.op);
    }

    /** `new C()`. */
    method VisitNew(c: string)
      requires Valid(State())
      modifies this`buffer, this`currentStack, this`maxStack, this`logicCounter
      ensures State() == Apply(old(State()), NewObj(c))
    {
      ghost var g := State();
      BufferPush(New(c));
      BufferPush(Dup);
      BufferPop(Invoke(Special, c, "<init>", "()V"), 1);
      ApplyThen(g, Push(New(c)), Push(Dup));
      ApplyThen(g, Then(Push(New(c)), Push(Dup)), Pops(Invoke(Special, c, "<init>", "()V"), 1));
    }

    /** `&&`: takes the counter's value `n`, increments it, tests each
        operand against 0 with a jump to `false_and_n`. */
    method VisitAnd(e: Expr, ghost vars: Vars, ghost lc: nat, ghost em: Emission)
      requires e.And? && Valid(State()) && variableMap == vars && logicCounter == lc && em == AndExpr(env, vars, e, lc)
      modifies this`buffer, this`currentStack, this`maxStack, this`logicCounter
      ensures State() == Apply(old(State()), em)
      decreases e, 0
    {
      ghost var g := State();
      ghost var lc1, a, lc2, b := AndParts(env, vars, e, lc, em);
      var n := logicCounter;
      var f, t := Label(FalseAnd, n), Label(TrueAnd, n);
      logicCounter := logicCounter + 1;
      ghost var g1 := State();
      assert g1 == Apply(g, Tick);
      VisitExpr(e.left, vars, lc1, a);
      BufferPop(IfEq(f), 1);
      VisitExpr(e.right, vars, lc2, b);
      BufferPop(IfEq(f), 1);
      BufferTail(true, f, t);
      AndSteps(g, g1, n, a, b);
    }

    /** `<`: `iflt` against a literal 0, `if_icmplt` otherwise. */
    method VisitLt(e: Expr, ghost vars: Vars, ghost lc: nat, ghost em: Emission)
      requires e.Lt? && Valid(State()) && variableMap == vars && logicCounter == lc && em == LtExpr(env, vars, e, lc)
      modifies this`buffer, this`currentStack, this`maxStack, this`logicCounter
      ensures State() == Apply(old(State()), em)
      decreases e, 0
    {
      ghost var g := State();
      ghost var lc1, a, lc2, b := LtParts(env, vars, e, lc, em);
      var n := logicCounter;
      var t, f := Label(TrueLt, n), Label(FalseLt, n);
      logicCounter := logicCounter + 1;
      ghost var g1 := State();
      assert g1 == Apply(g, Tick);
      VisitExpr(e.left, vars, lc1, a);
      if e.right.IntLit? && e.right.value == 0 {
        BufferPop(IfLt(t), 1);
        BufferTail(false, t, f);
        LtZeroSteps(g, g1, n, a);
      } else {
        VisitExpr(e.right, vars, lc2, b);
        BufferPop(IfICmpLt(t), 2);
        BufferTail(false, t, f);
        LtSteps(g, g1, n, a, b);
      }
    }

    /** `!`: `ifne not_eq_n` and the tail. */
    method VisitNot(e: Expr, ghost vars: Vars, ghost lc: nat, ghost em: Emission)
      requires e.Not? && Valid(State()) && variableMap == vars && logicCounter == lc && em == NotExpr(env, vars, e, lc)
      modifies this`buffer, this`currentStack, this`maxStack, this`logicCounter
      ensures State() == Apply(old(State()), em)
      decreases e, 0
    {
      ghost var g := State();
      ghost var lc1, a := NotParts(env, vars, e, lc, em);
      var n := logicCounter;
      var t, f := Label(NotEq, n), Label(Eq, n);
      logicCounter := logicCounter + 1;
      ghost var g1 := State();
      assert g1 == Apply(g, Tick);
      VisitExpr(e.operand, vars, lc1, a);
      BufferPop(IfNe(t), 1);
      BufferTail(true, t, f);
      NotSteps(g, g1, n, a);
    }

    /** A call: dispatch decides the receiver and the invoke instruction;
        an unresolved call emits nothing, not even its arguments. */
    method VisitCall(e: Expr, ghost vars: Vars, ghost lc: nat, ghost em: Emission)
      requires e.Call? && Valid(State()) && variableMap == vars && logicCounter == lc && em == CallExpr(env, vars, e, lc)
      modifies this`buffer, this`currentStack, this`maxStack, this`logicCounter
      ensures State() == Apply(old(State()), em)
      decreases e, 0
    {
      ghost var args := CallParts(env, vars, e, lc, em);
      var d := DispatchOf(env, e.recv, e.member, e.argTypes);
      match d
      case Unresolved =>
      case StaticCall(o, r) => VisitStatic(e, vars, lc, args, o, r);
      case VirtualCall(o, r) => VisitVirtual(e, vars, lc, args, o, r);
    }

    /** A static call: the arguments, then `invokestatic`. */
    method VisitStatic(e: Expr, ghost vars: Vars, ghost lc: nat, ghost args: Emission, o: string, r: string)
      requires e.Call? && Valid(State()) && variableMap == vars && logicCounter == lc && args == EmitArgs(env, vars, e, 0, lc)
      modifies this`buffer, this`currentStack, this`maxStack, this`logicCounter
      ensures State() == Apply(old(State()), Then(args, InvokeCode(Static, o, e.member, e.argTypes, r, |e.argTypes|)))
      decreases e, 0, |e.args| + 2
    {
      ghost var g := State();
      VisitArgs(e, vars, lc, args);
      VisitInvoke(Static, o, e.member, e.argTypes, r, |e.argTypes|);
      ApplyThen(g, args, InvokeCode(Static, o, e.member, e.argTypes, r, |e.argTypes|));
    }

    /** A virtual call: the receiver, the arguments, then
        `invokevirtual`. */
    method VisitVirtual(e: Expr, ghost vars: Vars, ghost lc: nat, ghost args: Emission, o: string, r: string)
      requires e.Call? && Valid(State()) && variableMap == vars && logicCounter == lc && args == EmitArgs(env, vars, e, 0, lc)
      modifies this`buffer, this`currentStack, this`maxStack, this`logicCounter
      ensures State() == Apply(old(State()), Then(Then(ReceiverCode(env, vars, e.recv), args),
                                                  InvokeCode(Virtual, o, e.member, e.argTypes, r, 1 + |e.argTypes|)))
      decreases e, 0, |e.args| + 2
    {
      ghost var g := State();
      ghost var recv := ReceiverCode(env, vars, e.recv);
      VisitReceiver(e.recv);
      VisitArgs(e, vars, lc, args);
      VisitInvoke(Virtual, o, e.member, e.argTypes, r, 1 + |e.argTypes|);
      ApplyThen(g, recv, args);
      ApplyThen(g, Then(recv, args), InvokeCode(Virtual, o, e.member, e.argTypes, r, 1 + |e.argTypes|));
    }

    /** What puts a virtual call's receiver on the stack. */
    method VisitReceiver(recv: Receiver)
      requires Valid(State())
      modifies this`buffer, this`currentStack, this`maxStack, this`logicCounter
      ensures State() == Apply(old(State()), ReceiverCode(env, variableMap, recv))
    {
      match recv
      case ThisRecv => BufferPush(Load("a", 0));
      case NewRecv(c) => VisitNew(c);
      case NamedRecv(x, _) => VisitName(x);
    }

    /** The invoke instruction pops the receiver and the arguments; a
        non-void result is pushed. */
    method VisitInvoke(how: InvokeKind, owner: string, m: string, ts: seq<string>, ret: string, k: nat)
      requires Valid(State())
      modifies this`buffer, this`currentStack, this`maxStack, this`logicCounter
      ensures State() == Apply(old(State()), InvokeCode(how, owner, m, ts, ret, k))
    {
      ghost var g := State();
      var i := Invoke(how, owner, m, MethodDesc(ts, ret));
      BufferPop(i, k);
      if ret != "void" {
        IncrementStack();
        ApplyThen(g, Pops(i, k), Grow);
      } else {
        ApplyThen(g, Pops(i, k), Empty);
      }
    }

    /** The arguments of a call, in order. */
    method VisitArgs(e: Expr, ghost vars: Vars, ghost lc: nat, ghost em: Emission)
      requires e.Call? && Valid(State()) && variableMap == vars && logicCounter == lc && em == EmitArgs(env, vars, e, 0, lc)
      modifies this`buffer, this`currentStack, this`maxStack, this`logicCounter
      ensures State() == Apply(old(State()), em)
      decreases e, 0, |e.args| + 1
    {
      ghost var target := Apply(State(), em);
      ghost var rest, c := em, lc;
      var i := 0;
      while i < |e.args|
        invariant 0 <= i <= |e.args| && Valid(State()) && logicCounter == c && variableMap == vars
        invariant rest == EmitArgs(env, vars, e, i, c) && Apply(State(), rest) == target
      {
        ghost var h := State();
        ghost var x, c2, more := ArgsParts(env, vars, e, i, c, rest);
        VisitExpr(e.args[i], vars, c, x);
        ApplyThen(h, x, more);
        rest, c := more, c2;
        i := i + 1;
      }
    }

    /** An expression visited where a statement needs its value (an
        expression statement, a return value). */
    method VisitValue(e: Expr, ghost vars: Vars)
      requires Valid(State()) && variableMap == vars
      modifies this`buffer, this`currentStack, this`maxStack, this`logicCounter
      ensures State() == ApplyExpr(env, vars, old(State()), e)
    {
      ghost var lc := logicCounter;
      ghost var em := EmitExpr(env, vars, e, lc);
      VisitExpr(e, vars, lc, em);
    }

    /** A statement, without the `clearStack()` that follows it. A return
        writes `<k>return` and sets the counter to 0. */
    method VisitStmt(s: Stmt, ghost vars: Vars, ret: string)
      requires Valid(State()) && variableMap == vars && EmitStmt(env, vars, ret, s, State()).Some?
      modifies this`buffer, this`currentStack, this`maxStack, this`ifCounter, this`whileCounter, this`logicCounter
      ensures State() == EmitStmt(env, vars, ret, s, old(State())).value
      decreases s, 1
    {
      match s
      case ExprStmt(e) => VisitValue(e, vars);
      case Assign(_, _, _) => VisitAssign(s, vars);
      case Return(v) =>
        VisitValue(v, vars);
        Buffer(Instr.Return(KindOf(ret)));
        currentStack := 0;
      case IfElse(_, _, _) => VisitIf(s, vars, ret);
      case While(_, _) => VisitWhile(s, vars, ret);
    }

    /** An assignment: nothing for a name that is neither a variable nor
        a field. */
    method VisitAssign(s: Stmt, ghost vars: Vars)
      requires s.Assign? && Valid(State()) && variableMap == vars
      modifies this`buffer, this`currentStack, this`maxStack, this`logicCounter
      ensures State() == Apply(old(State()), AssignCode(env, vars, s.target, s.index, s.value, old(logicCounter)))
    {
      ghost var g := State();
      ghost var lc := logicCounter;
      var x := s.target;
      if !(x in variableMap || x in env.fields) {
        assert Apply(g, Empty) == g;
      } else if s.index.Some? {
        VisitStoreElement(x, s.index.value, s.value, vars, lc, StoreElement(env, vars, x, s.index.value, s.value, lc));
      } else {
        VisitStoreName(x, s.value, vars, lc, StoreName(env, vars, x, s.value, lc));
      }
    }

    /** `x[i] = v`: the array and the index, the value, `iastore`. */
    method VisitStoreElement(x: string, i: Expr, v: Expr, ghost vars: Vars, ghost lc: nat, ghost em: Emission)
      requires Loadable(env, vars, x) && Valid(State()) && variableMap == vars && logicCounter == lc
      requires em == StoreElement(env, vars, x, i, v, lc)
      modifies this`buffer, this`currentStack, this`maxStack, this`logicCounter
      ensures State() == Apply(old(State()), em)
    {
      ghost var g := State();
      ghost var target, lc2, ve := StoreElementParts(env, vars, x, i, v, lc, em);
      VisitElementTarget(x, i, vars, lc, target);
      VisitExpr(v, vars, lc2, ve);
      BufferPop(IAStore, 3);
      ApplyThen(g, target, ve);
      ApplyThen(g, Then(target, ve), Pops(IAStore, 3));
    }

    /** The array of `x[i] = v` and its index. */
    method VisitElementTarget(x: string, i: Expr, ghost vars: Vars, ghost lc: nat, ghost em: Emission)
      requires Loadable(env, vars, x) && Valid(State()) && variableMap == vars && logicCounter == lc
      requires em == ElementTarget(env, vars, x, i, lc)
      modifies this`buffer, this`currentStack, this`maxStack, this`logicCounter
      ensures State() == Apply(old(State()), em)
    {
      ghost var g := State();
      ghost var recv := if x in vars then Empty else Push(Load("a", 0));
      if x !in variableMap {
        BufferPush(Load("a", 0));
      } else {
        assert Apply(g, Empty) == g;
      }
      VisitName(x);
      ApplyThen(g, recv, LoadName(env, vars, x));
      ghost var ie := EmitExpr(env, vars, i, lc);
      VisitExpr(i, vars, lc, ie);
      ApplyThen(g, ArrayRef(env, vars, x), ie);
    }

    /** `x = v`: a local's value then `<k>store`; a field's `this`, the
        value, then `putfield`. */
    method VisitStoreName(x: string, v: Expr, ghost vars: Vars, ghost lc: nat, ghost em: Emission)
      requires Loadable(env, vars, x) && Valid(State()) && variableMap == vars && logicCounter == lc
      requires em == StoreName(env, vars, x, v, lc)
      modifies this`buffer, this`currentStack, this`maxStack, this`logicCounter
      ensures State() == Apply(old(State()), em)
    {
      ghost var g := State();
      if x !in variableMap {
        BufferPush(Load("a", 0));
      } else {
        assert Apply(g, Empty) == g;
      }
      ghost var ve := EmitExpr(env, vars, v, lc);
      VisitExpr(v, vars, lc, ve);
      if x in variableMap {
        BufferPop(Store(KindOf(variableMap[x].varType), variableMap[x].index), 1);
      } else {
        BufferPop(PutField(env.className, x, ConvertType(env.fields[x])), 2);
      }
      ApplyThen(g, NameRecv(vars, x), ve);
      ApplyThen(g, Then(NameRecv(vars, x), ve), NameStore(env, vars, x));
    }

    /** `if (c) t else e`, numbered from `if_counter`. */
    method VisitIf(s: Stmt, ghost vars: Vars, ret: string)
      requires s.IfElse? && Valid(State()) && variableMap == vars && IfStmt(env, vars, ret, s, State()).Some?
      modifies this`buffer, this`currentStack, this`maxStack, this`ifCounter, this`whileCounter, this`logicCounter
      ensures State() == IfStmt(env, vars, ret, s, old(State())).value
      decreases s, 0
    {
      ghost var g := State();
      ghost var em, t, e := IfSteps(env, vars, ret, s, g);
      var n := ifCounter;
      ifCounter := ifCounter + 1;
      ghost var lc := logicCounter;
      VisitExpr(s.cond, vars, lc, em);
      BufferPop(IfEq(Label(Else, n)), 1);
      assert State() == IfEntry(g, em);
      VisitBlock(s.thenBody, vars, ret);
      Buffer(Goto(Label(EndIf, n)));
      Buffer(Mark(Label(Else, n)));
      assert t.code + [Goto(Label(EndIf, n))] + [Mark(Label(Else, n))] == t.code + [Goto(Label(EndIf, n)), Mark(Label(Else, n))];
      VisitBlock(s.elseBody, vars, ret);
      Buffer(Mark(Label(EndIf, n)));
    }

    /** `while (c) b`, numbered from `while_counter`; the stack is cleared
        after the test. */
    method VisitWhile(s: Stmt, ghost vars: Vars, ret: string)
      requires s.While? && Valid(State()) && variableMap == vars && WhileStmt(env, vars, ret, s, State()).Some?
      modifies this`buffer, this`currentStack, this`maxStack, this`ifCounter, this`whileCounter, this`logicCounter
      ensures State() == WhileStmt(env, vars, ret, s, old(State())).value
      decreases s, 0
    {
      ghost var g := State();
      ghost var em, k, b := WhileSteps(env, vars, ret, s, g);
      var n := whileCounter;
      whileCounter := whileCounter + 1;
      Buffer(Mark(Label(WhileTop, n)));
      ghost var lc := logicCounter;
      VisitExpr(s.cond, vars, lc, em);
      BufferPop(IfEq(Label(EndWhile, n)), 1);
      assert State() == WhileTest(g, em);
      ClearStack();
      VisitBlock(s.body, vars, ret);
      Buffer(Goto(Label(WhileTop, n)));
      Buffer(Mark(Label(EndWhile, n)));
      assert b.code + [Goto(Label(WhileTop, n))] + [Mark(Label(EndWhile, n))] == b.code + [Goto(Label(WhileTop, n)), Mark(Label(EndWhile, n))];
    }

    /** A block: each statement, then `clearStack()`. */
    method VisitBlock(ss: seq<Stmt>, ghost vars: Vars, ret: string)
      requires Valid(State()) && variableMap == vars && EmitBlock(env, vars, ret, ss, State()).Some?
      modifies this`buffer, this`currentStack, this`maxStack, this`ifCounter, this`whileCounter, this`logicCounter
      ensures State() == EmitBlock(env, vars, ret, ss, old(State())).value
      decreases ss
    {
      ghost var target := EmitBlock(env, vars, ret, ss, State());
      var i := 0;
      while i < |ss|
        invariant 0 <= i <= |ss| && Valid(State()) && variableMap == vars
        invariant EmitBlock(env, vars, ret, ss[i..], State()) == target
      {
        assert ss[i..][0] == ss[i] && ss[i..][1..] == ss[i + 1..];
        VisitStmt(ss[i], vars, ret);
        ClearStack();
        i := i + 1;
      }
    }

    /** `writeInstruction`: one line of the output file. */
    method Write(line: string)
      modifies this`out
      ensures out == old(out) + [line]
    {
      out := out + [line];
    }

    /** Lines written one after the other. */
    method WriteLines(ls: seq<string>)
      modifies this`out
      ensures out == old(out) + ls
    {
      var i := 0;
      while i < |ls|
        invariant 0 <= i <= |ls| && out == old(out) + ls[..i]
      {
        Write(ls[i]);
        assert ls[..i + 1] == ls[..i] + [ls[i]];
        i := i + 1;
      }
      assert ls[..|ls|] == ls;
    }

    /** `dumpInstructions`: the buffered lines, then an empty buffer. */
    method DumpInstructions()
      modifies this`out, this`buffer
      ensures out == old(out) + Lines(old(buffer)) && buffer == []
    {
      out := out + Lines(buffer);
      buffer := [];
    }

    /** The lines of a method whose body is buffered: the header, the two
        limits, the code (`main` gets a final `return`) and `.end method`. */
    method WriteMethod(m: MethodDecl, s: Sig, ghost b: Gen)
      requires buffer == b.code && maxStack == b.max && b.max >= 0
      modifies this`out, this`buffer
      ensures out == old(out) + MethodLines(env, m, s, b) && buffer == []
    {
      ghost var head := [MethodHeader(m, s), ".limit locals " + NatToString(LimitLocals(env, m)), ".limit stack " + NatToString(b.max)];
      WriteLines([MethodHeader(m, s), ".limit locals " + NatToString(LimitLocals(env, m)), ".limit stack " + NatToString(maxStack)]);
      if m.MainMethod? {
        Buffer(Instr.Return(""));
      }
      assert buffer == MethodCode(m, b.code);
      DumpInstructions();
      Write(".end method");
      Appended(old(out), head, Lines(MethodCode(m, b.code)), [".end method"]);
    }

    /** The body of a method whose descriptor was found and whose
        variables are allocated, then its lines. */
    method VisitFound(m: MethodDecl, s: Sig, ghost b: Gen)
      requires Valid(State()) && buffer == [] && variableMap == MethodVars(m).vars
      requires EmitBlock(env, MethodVars(m).vars, s.returnType, MethodBody(m), State()) == Some(b)
      modifies this
      ensures b.max >= 0
      ensures out == old(out) + MethodLines(env, m, s, b) && State() == b.(code := [])
    {
      VisitBlock(MethodBody(m), variableMap, s.returnType);
      WriteMethod(m, s, b);
    }

    /** A method: a fresh variable map from slot 1, the parameters, the
        descriptor lookup (a failed one ends the program), the locals, the
        body, then the header, the limits and the buffered code. */
    method VisitMethod(m: MethodDecl) returns (exited: bool)
      requires Valid(State()) && buffer == [] && MethodRun(env, m, State()).Some?
      modifies this
      ensures var w := MethodRun(env, m, old(State())).value;
              exited == w.exited && out == old(out) + w.lines && State() == w.g
    {
      ghost var g := State();
      variableMap := map[];
      currentVariableIndex := 1;
      var s: Option<Sig>;
      if m.RegularMethod? {
        AddVariables(m.params);
        s := LookupMethod(env, m.name, DeclTypes(m.params));
      } else {
        s := LookupMethod(env, "main", ["String[]"]);
      }
      assert s == LookupOwn(env, m);
      if s.None? {
        return true;
      }
      AddVariables(m.locals);
      if m.RegularMethod? {
        AllocateAppend(map[], 1, m.params, m.locals);
      }
      assert variableMap == MethodVars(m).vars;
      ghost var b := EmitBlock(env, MethodVars(m).vars, s.value.returnType, MethodBody(m), g).value;
      MethodRunIs(env, m, g, s.value, b);
      VisitFound(m, s.value, b);
      exited := false;
    }

    /** The methods of a class in order; stops at the first one whose
        descriptor is missing. */
    method VisitMethods(ms: seq<MethodDecl>) returns (exited: bool)
      requires Valid(State()) && buffer == [] && ClassRun(env, ms, State()).Some?
      modifies this
      ensures var w := ClassRun(env, ms, old(State())).value;
              exited == w.exited && out == old(out) + w.lines && State() == w.g
    {
      ghost var w0 := ClassRun(env, ms, State()).value;
      ghost var acc: seq<string> := [];
      ghost var rest := ms;
      exited := false;
      var i := 0;
      while i < |ms|
        invariant 0 <= i <= |ms| && rest == ms[i..]
        invariant Valid(State()) && buffer == [] && out == old(out) + acc
        invariant ClassRun(env, rest, State()).Some?
        invariant var r := ClassRun(env, rest, State()).value;
                  w0 == Written(acc + r.lines, r.g, r.exited)
      {
        Rest(ms, i);
        ghost var wm := ClassRunStep(env, rest, State());
        exited := VisitMethod(ms[i]);
        Regrouped(old(out), acc, wm.lines);
        if exited {
          return;
        }
        ghost var r := ClassRun(env, rest[1..], State()).value;
        Regrouped(acc, wm.lines, r.lines);
        acc := acc + wm.lines;
        rest := rest[1..];
        i := i + 1;
      }
      NoMoreLines(acc);
    }

    /** One `.field` line per field, in order. */
    method WriteFields(fs: seq<VarDecl>)
      modifies this`out
      ensures out == old(out) + FieldLines(fs)
    {
      ghost var ls := FieldLines(fs);
      var i := 0;
      while i < |fs|
        invariant 0 <= i <= |fs| == |ls| && out == old(out) + ls[..i]
      {
        Write(FieldLine(fs[i]));
        LinesUpTo(ls, i);
        i := i + 1;
      }
      AllLines(ls);
    }

    /** The default constructor, buffered without stack counting and
        dumped. */
    method WriteConstructor()
      requires buffer == []
      modifies this`out, this`buffer
      ensures out == old(out) + ConstructorLines(env) && buffer == []
    {
      Write(".method public <init>()V");
      Buffer(Load("a", 0));
      Buffer(Invoke(Special, SuperName(env), "<init>", "()V"));
      Buffer(Instr.Return(""));
      assert buffer == ConstructorCode(env);
      DumpInstructions();
      Write(".end method");
    }

    /** A class: its name and superclass lines, its fields, its methods,
        then the default constructor unless a method ended the program. */
    method VisitClass(c: ClassDecl) returns (exited: bool)
      requires Valid(State()) && buffer == [] && ClassText(env, c, State()).Some?
      modifies this
      ensures var w := ClassText(env, c, old(State())).value;
              exited == w.exited && out == old(out) + w.lines && State() == w.g
    {
      ghost var head, w := ClassTextIs(env, c, State());
      WriteLines([".class public " + c.name, ".super " + SuperName(env)]);
      WriteFields(c.fields);
      Regrouped(old(out), [".class public " + c.name, ".super " + SuperName(env)], FieldLines(c.fields));
      exited := VisitMethods(c.methods);
      if exited {
        Appended(old(out), head, w.lines, []);
        return;
      }
      WriteConstructor();
      Appended(old(out), head, w.lines, ConstructorLines(env));
    }
  }
}
