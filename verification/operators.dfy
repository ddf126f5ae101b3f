/** What the generator's code for `!`, `&&` and `<` computes: the
    instructions each operator adds around its operands, run on the stack
    machine with the operator's two labels resolved to their definitions,
    replace the operands by the operator's value (1 for true, 0 for
    false). */
module OperatorSemantics {
  import opened Wrappers
  import opened Jasmin
  import opened Emit
  import opened Machine

  /** `!e`: `ifne`, then 1 when `e` was 0 and 0 otherwise. */
  lemma NotSemantics(n: nat, v: int, at: map<Label, nat>, below: Stack, fuel: nat)
    requires Label(NotEq, n) in at && at[Label(NotEq, n)] == 3
    requires Label(Eq, n) in at && at[Label(Eq, n)] == 5
    requires fuel >= 4
    ensures Run(NotCode(n, Empty).code, at, State(0, On(below, v)), fuel) == Some(On(below, Bit(v == 0)))
  {
    NotShape(n);
    NotRuns(NotCode(n, Empty).code, v, Label(NotEq, n), Label(Eq, n), at, below, fuel);
  }

  /** `a && b` with `a`'s value on the stack and `b` a constant: 1 when
      both are nonzero; `b` is not evaluated when `a` is 0. */
  lemma AndSemantics(n: nat, q: Instr, v: int, w: int, at: map<Label, nat>, below: Stack, fuel: nat)
    requires Pushes(q, w)
    requires Label(FalseAnd, n) in at && at[Label(FalseAnd, n)] == 5
    requires Label(TrueAnd, n) in at && at[Label(TrueAnd, n)] == 7
    requires fuel >= 6
    ensures Run(AndCode(n, Empty, Push(q)).code, at, State(0, On(below, v)), fuel) == Some(On(below, Bit(v != 0 && w != 0)))
  {
    AndShape(n, q);
    AndRuns(AndCode(n, Empty, Push(q)).code, q, v, w, Label(FalseAnd, n), Label(TrueAnd, n), at, below, fuel);
  }

  /** `a < b` with both values on the stack: `if_icmplt`, then 1 when `a`
      is smaller. */
  lemma LtSemantics(n: nat, v: int, w: int, at: map<Label, nat>, below: Stack, fuel: nat)
    requires Label(TrueLt, n) in at && at[Label(TrueLt, n)] == 3
    requires Label(FalseLt, n) in at && at[Label(FalseLt, n)] == 5
    requires fuel >= 4
    ensures Run(LtCode(n, Empty, Empty).code, at, State(0, On(On(below, v), w)), fuel) == Some(On(below, Bit(v < w)))
  {
    LtShape(n);
    LtRuns(LtCode(n, Empty, Empty).code, v, w, Label(TrueLt, n), Label(FalseLt, n), at, below, fuel);
  }

  /** `a < 0` with `a`'s value on the stack: `iflt`, then 1 when `a` is
      negative. */
  lemma LtZeroSemantics(n: nat, v: int, at: map<Label, nat>, below: Stack, fuel: nat)
    requires Label(TrueLt, n) in at && at[Label(TrueLt, n)] == 3
    requires Label(FalseLt, n) in at && at[Label(FalseLt, n)] == 5
    requires fuel >= 4
    ensures Run(LtZeroCode(n, Empty).code, at, State(0, On(below, v)), fuel) == Some(On(below, Bit(v < 0)))
  {
    LtZeroShape(n);
    LtZeroRuns(LtZeroCode(n, Empty).code, v, Label(TrueLt, n), Label(FalseLt, n), at, below, fuel);
  }
  /** The instructions `NotCode` adds around its operands. */
  lemma NotShape(n: nat)
    ensures var t, f := Label(NotEq, n), Label(Eq, n);
            NotCode(n, Empty).code == [IfNe(t)] + [IConst(true), Goto(f), Mark(t), IConst(false), Mark(f)]
  {
    NotLayout(n, Empty);
    Operand([], IfNe(Label(NotEq, n)), OperatorTail(true, Label(NotEq, n), Label(Eq, n)));
  }

  /** The instructions `AndCode` adds around its operands. */
  lemma AndShape(n: nat, q: Instr)
    ensures var f, t := Label(FalseAnd, n), Label(TrueAnd, n);
            AndCode(n, Empty, Push(q)).code
            == [IfEq(f), q, IfEq(f)] + [IConst(true), Goto(t), Mark(f), IConst(false), Mark(t)]
  {
    var f := Label(FalseAnd, n);
    AndLayout(n, Empty, Push(q));
    Operands(IfEq(f), q, OperatorTail(true, f, Label(TrueAnd, n)));
  }

  /** A test after no operand code, before a tail. */
  lemma Operand(none: seq<Instr>, test: Instr, tail: seq<Instr>)
    requires none == []
    ensures none + [test] + tail == [test] + tail
  {
  }

  /** Two tests around one operand instruction, before a tail. */
  lemma Operands(test: Instr, q: Instr, tail: seq<Instr>)
    ensures [] + [test] + [q] + [test] + tail == [test, q, test] + tail
  {
  }

  /** The instructions `LtCode` adds around its operands. */
  lemma LtShape(n: nat)
    ensures var t, f := Label(TrueLt, n), Label(FalseLt, n);
            LtCode(n, Empty, Empty).code == [IfICmpLt(t)] + [IConst(false), Goto(f), Mark(t), IConst(true), Mark(f)]
  {
    LtLayout(n, Empty, Empty);
    Operand([] + [], IfICmpLt(Label(TrueLt, n)), OperatorTail(false, Label(TrueLt, n), Label(FalseLt, n)));
  }

  /** The instructions `LtZeroCode` adds around its operands. */
  lemma LtZeroShape(n: nat)
    ensures var t, f := Label(TrueLt, n), Label(FalseLt, n);
            LtZeroCode(n, Empty).code == [IfLt(t)] + [IConst(false), Goto(f), Mark(t), IConst(true), Mark(f)]
  {
    LtZeroLayout(n, Empty);
    Operand([], IfLt(Label(TrueLt, n)), OperatorTail(false, Label(TrueLt, n), Label(FalseLt, n)));
  }
}
