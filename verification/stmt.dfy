/** What the code generator emits for statements. A statement is emitted
    into the generator's running state: the method's instruction buffer,
    `currentStack`, `maxStack` and the three label counters. A block runs
    `clearStack()` after each statement, which pads the code with `pop`
    until the counter is back at 0. From a negative counter that loop only
    stops once the 32-bit counter has wrapped around, some 2^32 `pop`s
    later, long after the buffer has exhausted memory: the generator
    aborts, and the block's emission is then `None`. */
module Statements {
  import opened Wrappers
  import opened Ast
  import opened Jasmin
  import opened Labels
  import opened Emit

  /** An assignment `x = v` or `x[i] = v`. A local is stored into its
      slot; a field is stored through `this`; an array element is stored
      with `iastore` after the array and the index. For an indexed field
      the generator loads `this` twice (once as the assignment's own
      receiver, once to read the field), so one reference stays on the
      stack for `clearStack()` to pop. An unknown name emits nothing,
      not even the value. */
  function AssignCode(env: Env, vars: Vars, x: string, index: Option<Expr>, v: Expr, lc: nat): (em: Emission)
    ensures Sane(em)
    ensures Loadable(env, vars, x) && (index.Some? ==> Resolved(env, vars, index.value)) && Resolved(env, vars, v)
            ==> em.effect == (if x !in vars && x in env.fields && index.Some? then 1 else 0)
  {
    if !Loadable(env, vars, x) then Empty
    else if index.Some? then StoreElement(env, vars, x, index.value, v, lc)
    else StoreName(env, vars, x, v, lc)
  }

  /** `x[i] = v`: the array and the index, the value, `iastore`. */
  function StoreElement(env: Env, vars: Vars, x: string, i: Expr, v: Expr, lc: nat): (em: Emission)
    requires Loadable(env, vars, x)
    ensures Sane(em)
    ensures Resolved(env, vars, i) && Resolved(env, vars, v) ==> em.effect == (if x in vars then 0 else 1)
  {
    var target := ElementTarget(env, vars, x, i, lc);
    var ve := EmitExpr(env, vars, v, lc + target.labels);
    ExprCounts(env, vars, v, lc + target.labels);
    Then(Then(target, ve), Pops(IAStore, 3))
  }

  /** `x[i] = v`'s emission in terms of its parts', with the counter value
      the value is emitted at. */
  lemma StoreElementParts(env: Env, vars: Vars, x: string, i: Expr, v: Expr, lc: nat, em: Emission)
    returns (target: Emission, lc2: nat, ve: Emission)
    requires Loadable(env, vars, x) && em == StoreElement(env, vars, x, i, v, lc)
    ensures target == ElementTarget(env, vars, x, i, lc)
    ensures lc2 == lc + target.labels && ve == EmitExpr(env, vars, v, lc2)
    ensures em == Then(Then(target, ve), Pops(IAStore, 3))
  {
    target := ElementTarget(env, vars, x, i, lc);
    lc2 := lc + target.labels;
    ve := EmitExpr(env, vars, v, lc2);
  }

  /** The array of `x[i] = v` and its index: the array's local, or `this`
      followed by `this.x` for a field. */
  function ElementTarget(env: Env, vars: Vars, x: string, i: Expr, lc: nat): (em: Emission)
    requires Loadable(env, vars, x)
    ensures Sane(em)
    ensures Resolved(env, vars, i) ==> em.effect == (if x in vars then 2 else 3)
  {
    var ie := EmitExpr(env, vars, i, lc);
    ExprCounts(env, vars, i, lc);
    Then(ArrayRef(env, vars, x), ie)
  }

  /** The reference of the array named `x`: its local, or `this` and
      `getfield` for a field, after one more `this` for the assignment's
      own receiver. */
  function ArrayRef(env: Env, vars: Vars, x: string): (em: Emission)
    requires Loadable(env, vars, x)
    ensures Sane(em) && em.labels == 0 && Unlabelled(em.code)
    ensures em.effect == (if x in vars then 1 else 2)
  {
    Then(if x in vars then Empty else Push(Load("a", 0)), LoadName(env, vars, x))
  }

  /** `x = v`: a local's value then `<k>store`; a field's `this`, the
      value, then `putfield`. */
  function StoreName(env: Env, vars: Vars, x: string, v: Expr, lc: nat): (em: Emission)
    requires Loadable(env, vars, x)
    ensures Sane(em)
    ensures Resolved(env, vars, v) ==> em.effect == 0
  {
    var ve := EmitExpr(env, vars, v, lc);
    ExprCounts(env, vars, v, lc);
    Then(Then(NameRecv(vars, x), ve), NameStore(env, vars, x))
  }

  /** What precedes the value of `x = v`: nothing for a local, `this` for
      a field. */
  function NameRecv(vars: Vars, x: string): (em: Emission)
    ensures Sane(em) && em.labels == 0 && Unlabelled(em.code)
    ensures em.effect == (if x in vars then 0 else 1)
  {
    if x in vars then Empty else Push(Load("a", 0))
  }

  /** The store of `x = v`: `<k>store` into a local's slot, `putfield` for
      a field. */
  function NameStore(env: Env, vars: Vars, x: string): (em: Emission)
    requires Loadable(env, vars, x)
    ensures Sane(em) && em.labels == 0 && Unlabelled(em.code)
    ensures em.effect == (if x in vars then -1 else -2)
  {
    if x in vars then Pops(Store(KindOf(vars[x].varType), vars[x].index), 1)
    else Pops(PutField(env.className, x, ConvertType(env.fields[x])), 2)
  }

  /** An assignment's labels are its expressions', numbered from `lc`. */
  lemma AssignLabelled(env: Env, vars: Vars, x: string, index: Option<Expr>, v: Expr, lc: nat)
    ensures Labelled(AssignCode(env, vars, x, index, v, lc), lc)
  {
    if !Loadable(env, vars, x) {
      LeafLabelled(Empty, lc);
    } else if index.Some? {
      StoreElementLabelled(env, vars, x, index.value, v, lc);
    } else {
      StoreNameLabelled(env, vars, x, v, lc);
    }
  }

  lemma StoreElementLabelled(env: Env, vars: Vars, x: string, i: Expr, v: Expr, lc: nat)
    requires Loadable(env, vars, x)
    ensures Labelled(StoreElement(env, vars, x, i, v, lc), lc)
  {
    var target, lc2, ve := StoreElementParts(env, vars, x, i, v, lc, StoreElement(env, vars, x, i, v, lc));
    ElementTargetLabelled(env, vars, x, i, lc);
    ExprLabelled(env, vars, v, lc2);
    PairLabelled(target, ve, Pops(IAStore, 3), lc, lc2);
  }

  lemma ElementTargetLabelled(env: Env, vars: Vars, x: string, i: Expr, lc: nat)
    requires Loadable(env, vars, x)
    ensures Labelled(ElementTarget(env, vars, x, i, lc), lc)
  {
    ExprLabelled(env, vars, i, lc);
    LeafThen(ArrayRef(env, vars, x), EmitExpr(env, vars, i, lc), lc);
  }

  lemma StoreNameLabelled(env: Env, vars: Vars, x: string, v: Expr, lc: nat)
    requires Loadable(env, vars, x)
    ensures Labelled(StoreName(env, vars, x, v, lc), lc)
  {
    ExprLabelled(env, vars, v, lc);
    var ve := EmitExpr(env, vars, v, lc);
    LeafThen(NameRecv(vars, x), ve, lc);
    ThenLeaf(Then(NameRecv(vars, x), ve), NameStore(env, vars, x), lc);
  }

  /** The generator's state while it emits one method: the instruction
      buffer, `currentStack`, `maxStack` and the label counters. */
  datatype Gen = Gen(code: seq<Instr>, depth: int, max: int, ctr: Counters)

  /** `maxStack` is never below `currentStack` or below 0. */
  predicate Valid(g: Gen)
  {
    g.max >= g.depth && g.max >= 0
  }

  /** Appending an emission: its instructions, its net counter change, the
      counter's new running maximum, and the logic labels it consumed. */
  function Apply(g: Gen, em: Emission): (r: Gen)
    ensures g.code <= r.code && Le(g.ctr, r.ctr) && r.max >= g.max
    ensures Valid(g) && Sane(em) ==> Valid(r)
  {
    Gen(g.code + em.code, g.depth + em.effect, Max(g.max, g.depth + em.peak), g.ctr.(logic := g.ctr.logic + em.labels))
  }

  /** Emitting an expression at the current value of
      `logic_operation_counter`. */
  function ApplyExpr(env: Env, vars: Vars, g: Gen, e: Expr): (r: Gen)
    ensures g.code <= r.code && Le(g.ctr, r.ctr) && r.max >= g.max
    ensures Valid(g) ==> Valid(r)
    ensures Resolved(env, vars, e) ==> r.depth == g.depth + 1
    ensures e.Call? && CallResolved(env, vars, e) ==>
            r.depth == g.depth + if DispatchOf(env, e.recv, e.member, e.argTypes).ret == "void" then 0 else 1
  {
    ExprCounts(env, vars, e, g.ctr.logic);
    Apply(g, EmitExpr(env, vars, e, g.ctr.logic))
  }

  /** Instructions that leave the counters alone (labels, `goto`). */
  function Append(g: Gen, instrs: seq<Instr>): (r: Gen)
    ensures g.code <= r.code && r.ctr == g.ctr && r.depth == g.depth && r.max == g.max
  {
    g.(code := g.code + instrs)
  }

  /** `clearStack()`: from a counter of k >= 0, exactly k `pop`s and a
      counter of 0; from a negative counter the generator aborts (`None`). */
  function Clear(g: Gen): (r: Option<Gen>)
    ensures r.Some? <==> g.depth >= 0
    ensures r.Some? ==> r.value.code == g.code + seq(g.depth, _ => Pop) && r.value.depth == 0
                        && r.value.max == g.max && r.value.ctr == g.ctr
  {
    if g.depth < 0 then None
    else Some(Gen(g.code + seq(g.depth, _ => Pop), 0, g.max, g.ctr))
  }

  /** The statements of a method, as the three passes' shared tree
      represents them, that the generator resolves: every name and call
      in them resolves, and an expression statement is a value or a
      call. */
  predicate StmtResolved(env: Env, vars: Vars, s: Stmt)
    decreases s
  {
    match s
    case ExprStmt(e) => Resolved(env, vars, e) || (e.Call? && CallResolved(env, vars, e))
    case Assign(x, i, v) =>
      Loadable(env, vars, x) && (i.Some? ==> Resolved(env, vars, i.value)) && Resolved(env, vars, v)
    case IfElse(c, t, e) => Resolved(env, vars, c) && BlockResolved(env, vars, t) && BlockResolved(env, vars, e)
    case While(c, b) => Resolved(env, vars, c) && BlockResolved(env, vars, b)
    case Return(v) => Resolved(env, vars, v)
  }

  predicate BlockResolved(env: Env, vars: Vars, ss: seq<Stmt>)
    decreases ss
  {
    ss == [] || (StmtResolved(env, vars, ss[0]) && BlockResolved(env, vars, ss[1..]))
  }

  /** One statement, without the `clearStack()` that follows it. */
  function EmitStmt(env: Env, vars: Vars, ret: string, s: Stmt, g: Gen): (r: Option<Gen>)
    ensures r.Some? ==> g.code <= r.value.code && Le(g.ctr, r.value.ctr) && r.value.max >= g.max
    ensures r.Some? && Valid(g) ==> Valid(r.value)
    ensures StmtResolved(env, vars, s) && g.depth == 0 ==> r.Some? && 0 <= r.value.depth <= 1
    decreases s, 1
  {
    match s
    case ExprStmt(e) => Some(ApplyExpr(env, vars, g, e))
    case Assign(x, i, v) => Some(Apply(g, AssignCode(env, vars, x, i, v, g.ctr.logic)))
    case Return(v) =>
      var h := ApplyExpr(env, vars, g, v);
      Some(Gen(h.code + [Instr.Return(KindOf(ret))], 0, h.max, h.ctr))
    case IfElse(_, _, _) => IfStmt(env, vars, ret, s, g)
    case While(_, _) => WhileStmt(env, vars, ret, s, g)
  }

  /** `if (c) t else e`: number n from `if_counter`, the condition, `ifeq
      else_n`, the then-block, `goto endif_n`, `else_n:`, the else-block,
      `endif_n:`. The stack is not cleared after the condition. */
  function IfStmt(env: Env, vars: Vars, ret: string, s: Stmt, g: Gen): (r: Option<Gen>)
    requires s.IfElse?
    ensures r.Some? ==> g.code <= r.value.code && Le(g.ctr, r.value.ctr) && r.value.max >= g.max
    ensures r.Some? && Valid(g) ==> Valid(r.value)
    ensures StmtResolved(env, vars, s) && g.depth == 0 ==> r.Some? && r.value.depth == 0
    decreases s, 0
  {
    var n := g.ctr.ifs;
    var c := ApplyExpr(env, vars, g.(ctr := g.ctr.(ifs := n + 1)), s.cond);
    var h := Apply(c, Pops(IfEq(Label(Else, n)), 1));
    match EmitBlock(env, vars, ret, s.thenBody, h)
    case None => None
    case Some(t) =>
      match EmitBlock(env, vars, ret, s.elseBody, Append(t, [Goto(Label(EndIf, n)), Mark(Label(Else, n))]))
      case None => None
      case Some(e) => Some(Append(e, [Mark(Label(EndIf, n))]))
  }

  /** `while (c) b`: number n from `while_counter`, `while_n:`, the
      condition, `ifeq end_while_n`, a `clearStack()`, the body, `goto
      while_n`, `end_while_n:`. */
  function WhileStmt(env: Env, vars: Vars, ret: string, s: Stmt, g: Gen): (r: Option<Gen>)
    requires s.While?
    ensures r.Some? ==> g.code <= r.value.code && Le(g.ctr, r.value.ctr) && r.value.max >= g.max
    ensures r.Some? && Valid(g) ==> Valid(r.value)
    ensures StmtResolved(env, vars, s) && g.depth == 0 ==> r.Some? && r.value.depth == 0
    decreases s, 0
  {
    var n := g.ctr.whiles;
    var top := Append(g.(ctr := g.ctr.(whiles := n + 1)), [Mark(Label(WhileTop, n))]);
    var c := ApplyExpr(env, vars, top, s.cond);
    match Clear(Apply(c, Pops(IfEq(Label(EndWhile, n)), 1)))
    case None => None
    case Some(h) =>
      match EmitBlock(env, vars, ret, s.body, h)
      case None => None
      case Some(b) => Some(Append(b, [Goto(Label(WhileTop, n)), Mark(Label(EndWhile, n))]))
  }

  /** A block: each statement followed by `clearStack()`. */
  function EmitBlock(env: Env, vars: Vars, ret: string, ss: seq<Stmt>, g: Gen): (r: Option<Gen>)
    ensures r.Some? ==> g.code <= r.value.code && Le(g.ctr, r.value.ctr) && r.value.max >= g.max
    ensures r.Some? && Valid(g) ==> Valid(r.value)
    ensures r.Some? && ss != [] ==> r.value.depth == 0
    ensures BlockResolved(env, vars, ss) && g.depth == 0 ==> r.Some? && r.value.depth == 0
    decreases ss
  {
    if ss == [] then Some(g)
    else
      match EmitStmt(env, vars, ret, ss[0], g)
      case None => None
      case Some(h) =>
        match Clear(h)
        case None => None
        case Some(k) => EmitBlock(env, vars, ret, ss[1..], k)
  }
}
