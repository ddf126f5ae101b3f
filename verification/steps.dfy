/** How the generator's state steps add up: emitting one construct after
    another is emitting their concatenation, and the state steps of each
    operator's visit add up to the operator's emission. */
module Steps {
  import opened Ast
  import opened Jasmin
  import opened Labels
  import opened Emit
  import opened Statements

  /** Emitting one construct after another is emitting their
      concatenation. */
  lemma ApplyThen(g: Gen, a: Emission, b: Emission)
    ensures Apply(Apply(g, a), b) == Apply(g, Then(a, b))
  {
    assert g.code + a.code + b.code == g.code + (a.code + b.code);
  }

  lemma ArithSteps(g: Gen, a: Emission, b: Emission, op: ArithOp)
    ensures Apply(Apply(Apply(g, a), b), Pops(IArith(op), 1)) == Apply(g, ArithCode(a, b, op))
  {
    ApplyThen(g, a, b);
    ApplyThen(g, Then(a, b), Pops(IArith(op), 1));
  }

  /** The state steps of `&&` add up to its emission. */
  lemma AndSteps(g: Gen, g1: Gen, n: nat, a: Emission, b: Emission)
    requires g1 == Apply(g, Tick) && n == g.ctr.logic
    ensures Apply(Apply(Apply(Apply(Apply(g1, a), Pops(IfEq(Label(FalseAnd, n)), 1)), b), Pops(IfEq(Label(FalseAnd, n)), 1)),
                  TailCode(true, Label(FalseAnd, n), Label(TrueAnd, n)))
            == Apply(g, AndCode(n, a, b))
  {
    var p := Pops(IfEq(Label(FalseAnd, n)), 1);
    var tail := TailCode(true, Label(FalseAnd, n), Label(TrueAnd, n));
    ApplyThen(g1, a, p);
    ApplyThen(g1, Then(a, p), b);
    ApplyThen(g1, Then(Then(a, p), b), p);
    ApplyThen(g1, Then(Then(Then(a, p), b), p), tail);
    ApplyThen(g, Tick, Then(Then(Then(Then(a, p), b), p), tail));
  }

  lemma LtZeroSteps(g: Gen, g1: Gen, n: nat, a: Emission)
    requires g1 == Apply(g, Tick) && n == g.ctr.logic
    ensures Apply(Apply(Apply(g1, a), Pops(IfLt(Label(TrueLt, n)), 1)), LtTail(n))
            == Apply(g, LtZeroCode(n, a))
  {
    var p := Pops(IfLt(Label(TrueLt, n)), 1);
    ApplyThen(g1, a, p);
    ApplyThen(g1, Then(a, p), LtTail(n));
    ApplyThen(g, Tick, Then(Then(a, p), LtTail(n)));
  }

  lemma LtSteps(g: Gen, g1: Gen, n: nat, a: Emission, b: Emission)
    requires g1 == Apply(g, Tick) && n == g.ctr.logic
    ensures Apply(Apply(Apply(Apply(g1, a), b), Pops(IfICmpLt(Label(TrueLt, n)), 2)), LtTail(n))
            == Apply(g, LtCode(n, a, b))
  {
    var p := Pops(IfICmpLt(Label(TrueLt, n)), 2);
    ApplyThen(g1, a, b);
    ApplyThen(g1, Then(a, b), p);
    ApplyThen(g1, Then(Then(a, b), p), LtTail(n));
    ApplyThen(g, Tick, Then(Then(Then(a, b), p), LtTail(n)));
  }

  lemma NotSteps(g: Gen, g1: Gen, n: nat, a: Emission)
    requires g1 == Apply(g, Tick) && n == g.ctr.logic
    ensures Apply(Apply(Apply(g1, a), Pops(IfNe(Label(NotEq, n)), 1)),
                  TailCode(true, Label(NotEq, n), Label(Eq, n)))
            == Apply(g, NotCode(n, a))
  {
    var p := Pops(IfNe(Label(NotEq, n)), 1);
    var tail := TailCode(true, Label(NotEq, n), Label(Eq, n));
    ApplyThen(g1, a, p);
    ApplyThen(g1, Then(a, p), tail);
    ApplyThen(g, Tick, Then(Then(a, p), tail));
  }
}
