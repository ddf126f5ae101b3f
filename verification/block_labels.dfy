/** The labels of statement code. An if/else or while reserves its two
    labels when it takes its counter's value, jumps to them before they are
    defined, and defines each once. While a method body is being emitted,
    the buffer keeps an invariant relative to the set of labels reserved
    but not yet defined; once that set is empty, the method's code defines
    every label at most once, defines every label it jumps to, and numbers
    its labels from the counters' values at the start of the method. */
module BlockLabels {
  import opened Wrappers
  import opened Ast
  import opened Jasmin
  import opened Labels
  import opened Emit
  import opened Statements

  /** The buffer's labels lie in `[base, ctr)`, none is defined twice,
      every jump goes to a defined or a pending label, and the pending
      labels are reserved in the box and not yet defined. */
  ghost predicate Inv(g: Gen, base: Counters, pending: set<Label>)
  {
    && Le(base, g.ctr)
    && Within(g.code, base, g.ctr) && Unique(g.code)
    && Targets(g.code) <= Defs(g.code) + pending
    && pending !! Defs(g.code)
    && (forall l | l in pending :: InBox(l, base, g.ctr))
  }

  /** An empty buffer keeps the invariant from any counters. */
  lemma Start(g: Gen)
    requires g.code == []
    ensures Inv(g, g.ctr, {})
  {
    UnlabelledNone(g.code);
  }

  /** With nothing pending, the buffer is well-labelled in its box. */
  lemma Finish(g: Gen, base: Counters)
    requires Inv(g, base, {})
    ensures WellLabelled(g.code, base, g.ctr)
  {
    assert Defs(g.code) + {} == Defs(g.code);
  }

  /** An expression's emission, made at the current logic counter. */
  lemma ApplyLabels(g: Gen, em: Emission, base: Counters, pending: set<Label>)
    requires Inv(g, base, pending) && Labelled(em, g.ctr.logic)
    ensures Inv(Apply(g, em), base, pending)
  {
    var h := Apply(g, em);
    Reframe(em.code, g.ctr.logic, g.ctr.logic + em.labels, g.ctr, h.ctr);
    Widen(g.code, base, g.ctr, base, h.ctr);
    Widen(em.code, g.ctr, h.ctr, base, h.ctr);
    WithinJoin(g.code, em.code, base, h.ctr);
    UniqueJoin(g.code, em.code, base, g.ctr, g.ctr, h.ctr);
    DefsAppend(g.code, em.code);
    forall l | l in pending ensures l !in Defs(em.code) && InBox(l, base, h.ctr) {
      assert InBox(l, base, g.ctr);
    }
  }

  /** Code that defines and jumps to no label, under the same counters. */
  lemma Extend(g: Gen, g': Gen, p: seq<Instr>, base: Counters, pending: set<Label>)
    requires Inv(g, base, pending) && Unlabelled(p)
    requires g'.code == g.code + p && g'.ctr == g.ctr
    ensures Inv(g', base, pending)
  {
    UnlabelledNone(p);
    DefsAppend(g.code, p);
    UniqueAppend(g.code, p);
    assert Defs(g'.code) == Defs(g.code) && Targets(g'.code) == Targets(g.code);
  }

  /** The `pop`s of `clearStack()`. */
  lemma ClearLabels(g: Gen, base: Counters, pending: set<Label>)
    requires Inv(g, base, pending) && Clear(g).Some?
    ensures Inv(Clear(g).value, base, pending)
  {
    Extend(g, Clear(g).value, seq(g.depth, _ => Pop), base, pending);
  }

  /** A jump to a label that is pending or already defined. */
  lemma Jump(g: Gen, g': Gen, i: Instr, t: Label, base: Counters, pending: set<Label>)
    requires Inv(g, base, pending) && (Test(i, t) || i == Goto(t))
    requires t in pending || t in Defs(g.code)
    requires g'.code == g.code + [i] && g'.ctr == g.ctr
    ensures Inv(g', base, pending)
  {
    assert DefOf(i) == {} && TargetOf(i) == {t};
    DefsSnoc(g.code, i);
    UniqueSnoc(g.code, i);
  }

  /** Defining a pending label removes it from the pending set. */
  lemma Define(g: Gen, g': Gen, t: Label, base: Counters, pending: set<Label>)
    requires Inv(g, base, pending) && t in pending
    requires g'.code == g.code + [Mark(t)] && g'.ctr == g.ctr
    ensures Inv(g', base, pending - {t})
    ensures t in Defs(g'.code)
  {
    assert DefOf(Mark(t)) == {t} && TargetOf(Mark(t)) == {};
    DefsSnoc(g.code, Mark(t));
    UniqueSnoc(g.code, Mark(t));
  }

  /** An if/else reserves `else_n` and `endif_n`, n being `if_counter`. */
  lemma ReserveIf(g: Gen, base: Counters, pending: set<Label>)
    requires Inv(g, base, pending)
    ensures var n := g.ctr.ifs;
            && Label(Else, n) !in pending && Label(EndIf, n) !in pending
            && Inv(g.(ctr := g.ctr.(ifs := n + 1)), base, pending + {Label(Else, n), Label(EndIf, n)})
  {
    var n := g.ctr.ifs;
    var g' := g.(ctr := g.ctr.(ifs := n + 1));
    Widen(g.code, base, g.ctr, base, g'.ctr);
    forall l | l in Defs(g.code) ensures FamilyOf(l.kind) == IfFamily ==> l.n < n {
      assert InBox(l, base, g.ctr);
    }
  }

  /** A while reserves `while_n` and `end_while_n`, n being
      `while_counter`. */
  lemma ReserveWhile(g: Gen, base: Counters, pending: set<Label>)
    requires Inv(g, base, pending)
    ensures var n := g.ctr.whiles;
            && Label(WhileTop, n) !in pending && Label(EndWhile, n) !in pending
            && Inv(g.(ctr := g.ctr.(whiles := n + 1)), base, pending + {Label(WhileTop, n), Label(EndWhile, n)})
  {
    var n := g.ctr.whiles;
    var g' := g.(ctr := g.ctr.(whiles := n + 1));
    Widen(g.code, base, g.ctr, base, g'.ctr);
    forall l | l in Defs(g.code) ensures FamilyOf(l.kind) == WhileFamily ==> l.n < n {
      assert InBox(l, base, g.ctr);
    }
  }

  /** A statement keeps the invariant with the same pending labels. */
  lemma {:induction false} StmtLabels(env: Env, vars: Vars, ret: string, s: Stmt, g: Gen, base: Counters, pending: set<Label>)
    requires Inv(g, base, pending) && EmitStmt(env, vars, ret, s, g).Some?
    ensures Inv(EmitStmt(env, vars, ret, s, g).value, base, pending)
    decreases s, 1
  {
    match s
    case ExprStmt(e) =>
      ExprLabelled(env, vars, e, g.ctr.logic);
      ApplyLabels(g, EmitExpr(env, vars, e, g.ctr.logic), base, pending);
    case Assign(x, i, v) =>
      AssignLabelled(env, vars, x, i, v, g.ctr.logic);
      ApplyLabels(g, AssignCode(env, vars, x, i, v, g.ctr.logic), base, pending);
    case Return(v) =>
      var h := ApplyExpr(env, vars, g, v);
      ExprLabelled(env, vars, v, g.ctr.logic);
      ApplyLabels(g, EmitExpr(env, vars, v, g.ctr.logic), base, pending);
      Extend(h, EmitStmt(env, vars, ret, s, g).value, [Instr.Return(KindOf(ret))], base, pending);
    case IfElse(_, _, _) => IfLabels(env, vars, ret, s, g, base, pending);
    case While(_, _) => WhileLabels(env, vars, ret, s, g, base, pending);
  }

  /** The state at the start of an if/else's then-block: the counter
      taken, the condition's emission `em`, `ifeq else_n`. */
  function IfEntry(g: Gen, em: Emission): Gen
  {
    Apply(Apply(g.(ctr := g.ctr.(ifs := g.ctr.ifs + 1)), em), Pops(IfEq(Label(Else, g.ctr.ifs)), 1))
  }

  /** The states an if/else passes through, when its emission does not abort,
      with the condition's emission named. */
  lemma IfSteps(env: Env, vars: Vars, ret: string, s: Stmt, g: Gen) returns (em: Emission, t: Gen, e: Gen)
    requires s.IfElse? && IfStmt(env, vars, ret, s, g).Some?
    ensures em == EmitExpr(env, vars, s.cond, g.ctr.logic) && Labelled(em, g.ctr.logic)
    ensures EmitBlock(env, vars, ret, s.thenBody, IfEntry(g, em)) == Some(t)
    ensures EmitBlock(env, vars, ret, s.elseBody, Append(t, [Goto(Label(EndIf, g.ctr.ifs)), Mark(Label(Else, g.ctr.ifs))])) == Some(e)
    ensures IfStmt(env, vars, ret, s, g) == Some(Append(e, [Mark(Label(EndIf, g.ctr.ifs))]))
  {
    var n := g.ctr.ifs;
    em := EmitExpr(env, vars, s.cond, g.ctr.logic);
    ExprLabelled(env, vars, s.cond, g.ctr.logic);
    t := EmitBlock(env, vars, ret, s.thenBody, IfEntry(g, em)).value;
    e := EmitBlock(env, vars, ret, s.elseBody, Append(t, [Goto(Label(EndIf, n)), Mark(Label(Else, n))])).value;
  }

  /** An if/else up to its then-block: the reservation, the condition and
      `ifeq else_n`. */
  lemma IfHead(em: Emission, g: Gen, base: Counters, pending: set<Label>)
    requires Inv(g, base, pending) && Labelled(em, g.ctr.logic)
    ensures Label(Else, g.ctr.ifs) !in pending && Label(EndIf, g.ctr.ifs) !in pending
    ensures Inv(IfEntry(g, em), base, pending + {Label(Else, g.ctr.ifs), Label(EndIf, g.ctr.ifs)})
  {
    var n := g.ctr.ifs;
    var els, end := Label(Else, n), Label(EndIf, n);
    var g1 := g.(ctr := g.ctr.(ifs := n + 1));
    var c := Apply(g1, em);
    assert Apply(c, Pops(IfEq(els), 1)) == IfEntry(g, em);
    ReserveIf(g, base, pending);
    var p1 := pending + {els, end};
    ApplyLabels(g1, em, base, p1);
    Jump(c, Apply(c, Pops(IfEq(els), 1)), IfEq(els), els, base, p1);
  }

  /** Between the blocks: `goto endif_n` and `else_n:`. */
  lemma IfMiddle(t: Gen, els: Label, end: Label, base: Counters, pending: set<Label>)
    requires Inv(t, base, pending + {els, end}) && els != end && els !in pending && end !in pending
    ensures Inv(Append(t, [Goto(end), Mark(els)]), base, pending + {end})
  {
    var p1 := pending + {els, end};
    var t1 := t.(code := t.code + [Goto(end)]);
    Jump(t, t1, Goto(end), end, base, p1);
    Define(t1, Append(t, [Goto(end), Mark(els)]), els, base, p1);
    assert p1 - {els} == pending + {end};
  }

  /** The last label of a construct. */
  lemma Close(e: Gen, end: Label, base: Counters, pending: set<Label>)
    requires Inv(e, base, pending + {end}) && end !in pending
    ensures Inv(Append(e, [Mark(end)]), base, pending)
  {
    Define(e, Append(e, [Mark(end)]), end, base, pending + {end});
    assert pending + {end} - {end} == pending;
  }

  lemma {:induction false} IfLabels(env: Env, vars: Vars, ret: string, s: Stmt, g: Gen, base: Counters, pending: set<Label>)
    requires s.IfElse?
    requires Inv(g, base, pending) && IfStmt(env, vars, ret, s, g).Some?
    ensures Inv(IfStmt(env, vars, ret, s, g).value, base, pending)
    decreases s, 0
  {
    var em, t, e := IfSteps(env, vars, ret, s, g);
    var els, end := Label(Else, g.ctr.ifs), Label(EndIf, g.ctr.ifs);
    IfHead(em, g, base, pending);
    BlockLabelled(env, vars, ret, s.thenBody, IfEntry(g, em), base, pending + {els, end});
    IfMiddle(t, els, end, base, pending);
    BlockLabelled(env, vars, ret, s.elseBody, Append(t, [Goto(end), Mark(els)]), base, pending + {end});
    Close(e, end, base, pending);
  }

  /** The state after a while's test: the counter taken, `while_n:`, the
      condition's emission `em`, `ifeq end_while_n`. */
  function WhileTest(g: Gen, em: Emission): Gen
  {
    Apply(Apply(Append(g.(ctr := g.ctr.(whiles := g.ctr.whiles + 1)), [Mark(Label(WhileTop, g.ctr.whiles))]), em),
          Pops(IfEq(Label(EndWhile, g.ctr.whiles)), 1))
  }

  /** The states a while passes through, when its emission does not abort,
      with the condition's emission named. */
  lemma WhileSteps(env: Env, vars: Vars, ret: string, s: Stmt, g: Gen) returns (em: Emission, k: Gen, b: Gen)
    requires s.While? && WhileStmt(env, vars, ret, s, g).Some?
    ensures em == EmitExpr(env, vars, s.cond, g.ctr.logic) && Labelled(em, g.ctr.logic)
    ensures Clear(WhileTest(g, em)) == Some(k)
    ensures EmitBlock(env, vars, ret, s.body, k) == Some(b)
    ensures WhileStmt(env, vars, ret, s, g) == Some(Append(b, [Goto(Label(WhileTop, g.ctr.whiles)), Mark(Label(EndWhile, g.ctr.whiles))]))
  {
    em := EmitExpr(env, vars, s.cond, g.ctr.logic);
    ExprLabelled(env, vars, s.cond, g.ctr.logic);
    k := Clear(WhileTest(g, em)).value;
    b := EmitBlock(env, vars, ret, s.body, k).value;
  }

  /** A while up to its `clearStack()`: the reservation, `while_n:`, the
      condition and `ifeq end_while_n`. */
  lemma WhileHead(em: Emission, g: Gen, base: Counters, pending: set<Label>)
    requires Inv(g, base, pending) && Labelled(em, g.ctr.logic)
    ensures Label(EndWhile, g.ctr.whiles) !in pending
    ensures Label(WhileTop, g.ctr.whiles) in Defs(WhileTest(g, em).code)
    ensures Inv(WhileTest(g, em), base, pending + {Label(EndWhile, g.ctr.whiles)})
  {
    var n := g.ctr.whiles;
    var top, end := Label(WhileTop, n), Label(EndWhile, n);
    var g1 := g.(ctr := g.ctr.(whiles := n + 1));
    var g2 := Append(g1, [Mark(top)]);
    var c := Apply(g2, em);
    assert Apply(c, Pops(IfEq(end), 1)) == WhileTest(g, em);
    assert WhileTest(g, em).code == g.code + [Mark(top)] + em.code + [IfEq(end)];
    ReserveWhile(g, base, pending);
    var p1 := pending + {top, end};
    Define(g1, g2, top, base, p1);
    var p2 := p1 - {top};
    assert p2 == pending + {end};
    ApplyLabels(g2, em, base, p2);
    Jump(c, Apply(c, Pops(IfEq(end), 1)), IfEq(end), end, base, p2);
    DefsPrefix(g2.code, WhileTest(g, em).code);
  }

  /** The end of a while: `goto while_n`, back to the defined label,
      and `end_while_n:`. */
  lemma WhileTail(b: Gen, top: Label, end: Label, base: Counters, pending: set<Label>)
    requires Inv(b, base, pending + {end}) && end !in pending && top in Defs(b.code)
    ensures Inv(Append(b, [Goto(top), Mark(end)]), base, pending)
  {
    var b1 := b.(code := b.code + [Goto(top)]);
    assert Append(b1, [Mark(end)]) == Append(b, [Goto(top), Mark(end)]);
    Jump(b, b1, Goto(top), top, base, pending + {end});
    Close(b1, end, base, pending);
  }

  lemma {:induction false} WhileLabels(env: Env, vars: Vars, ret: string, s: Stmt, g: Gen, base: Counters, pending: set<Label>)
    requires s.While?
    requires Inv(g, base, pending) && WhileStmt(env, vars, ret, s, g).Some?
    ensures Inv(WhileStmt(env, vars, ret, s, g).value, base, pending)
    decreases s, 0
  {
    var em, k, b := WhileSteps(env, vars, ret, s, g);
    var top, end := Label(WhileTop, g.ctr.whiles), Label(EndWhile, g.ctr.whiles);
    var h := WhileTest(g, em);
    WhileHead(em, g, base, pending);
    ClearLabels(h, base, pending + {end});
    BlockLabelled(env, vars, ret, s.body, k, base, pending + {end});
    DefsPrefix(h.code, k.code);
    DefsPrefix(k.code, b.code);
    WhileTail(b, top, end, base, pending);
  }

  lemma {:induction false} BlockLabelled(env: Env, vars: Vars, ret: string, ss: seq<Stmt>, g: Gen, base: Counters, pending: set<Label>)
    requires Inv(g, base, pending) && EmitBlock(env, vars, ret, ss, g).Some?
    ensures Inv(EmitBlock(env, vars, ret, ss, g).value, base, pending)
    decreases ss
  {
    if ss != [] {
      var h := EmitStmt(env, vars, ret, ss[0], g).value;
      StmtLabels(env, vars, ret, ss[0], g, base, pending);
      ClearLabels(h, base, pending);
      BlockLabelled(env, vars, ret, ss[1..], Clear(h).value, base, pending);
    }
  }
}
