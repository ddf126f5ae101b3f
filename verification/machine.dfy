/** What the logic operators' code computes, on a model of the JVM operand
    stack that covers the integer instructions they use: constants, the
    conditional jumps, `goto` and label definitions. A boolean is the int
    1 or 0, as on the JVM. */
module Machine {
  import opened Wrappers
  import opened Jasmin

  /** The operand stack, top last. */
  datatype Stack = Bottom | On(rest: Stack, top: int)

  datatype State = State(pc: nat, stack: Stack)

  function Bit(b: bool): int { if b then 1 else 0 }

  /** Continue at `l`'s definition, or fail when the table lacks it. */
  function JumpTo(at: map<Label, nat>, l: Label, stack: Stack): Option<State>
  {
    if l in at then Some(State(at[l], stack)) else None
  }

  /** One instruction at `s.pc`; `None` for an instruction outside the
      model or a stack too short for it. */
  function Step(code: seq<Instr>, at: map<Label, nat>, s: State): Option<State>
    requires s.pc < |code|
  {
    var st, next := s.stack, s.pc + 1;
    match code[s.pc]
    case BiPush(v) => Some(State(next, On(st, v)))
    case LdcW(v) => Some(State(next, On(st, v)))
    case IConst(b) => Some(State(next, On(st, Bit(b))))
    case Mark(_) => Some(State(next, st))
    case Goto(l) => JumpTo(at, l, st)
    case IfEq(l) =>
      if st.Bottom? then None
      else if st.top == 0 then JumpTo(at, l, st.rest) else Some(State(next, st.rest))
    case IfNe(l) =>
      if st.Bottom? then None
      else if st.top != 0 then JumpTo(at, l, st.rest) else Some(State(next, st.rest))
    case IfLt(l) =>
      if st.Bottom? then None
      else if st.top < 0 then JumpTo(at, l, st.rest) else Some(State(next, st.rest))
    case IfICmpLt(l) =>
      if st.Bottom? || st.rest.Bottom? then None
      else if st.rest.top < st.top then JumpTo(at, l, st.rest.rest) else Some(State(next, st.rest.rest))
    case _ => None
  }

  /** Running until control leaves the end of the code, for at most
      `fuel` steps; the final stack. */
  function Run(code: seq<Instr>, at: map<Label, nat>, s: State, fuel: nat): Option<Stack>
    decreases fuel
  {
    if s.pc >= |code| then Some(s.stack)
    else if fuel == 0 then None
    else
      var t := Step(code, at, s);
      if t.None? then None else Run(code, at, t.value, fuel - 1)
  }

  /** The value a constant-pushing instruction pushes. */
  predicate Pushes(i: Instr, v: int)
  {
    (i.BiPush? && v == i.value) || (i.LdcW? && v == i.value) || (i.IConst? && v == Bit(i.bit))
  }

  /** A constant is pushed. */
  lemma RunPush(code: seq<Instr>, at: map<Label, nat>, s: State, v: int, fuel: nat)
    requires s.pc < |code| && Pushes(code[s.pc], v) && fuel > 0
    ensures Run(code, at, s, fuel) == Run(code, at, State(s.pc + 1, On(s.stack, v)), fuel - 1)
  {
  }

  /** A label definition does nothing. */
  lemma RunMark(code: seq<Instr>, at: map<Label, nat>, s: State, fuel: nat)
    requires s.pc < |code| && code[s.pc].Mark? && fuel > 0
    ensures Run(code, at, s, fuel) == Run(code, at, State(s.pc + 1, s.stack), fuel - 1)
  {
  }

  /** `goto` continues at its label's definition. */
  lemma RunGoto(code: seq<Instr>, at: map<Label, nat>, s: State, fuel: nat)
    requires s.pc < |code| && code[s.pc].Goto? && code[s.pc].target in at && fuel > 0
    ensures Run(code, at, s, fuel) == Run(code, at, State(at[code[s.pc].target], s.stack), fuel - 1)
  {
  }

  /** Whether a one-operand test jumps on `v`. */
  predicate Taken(i: Instr, v: int)
  {
    (i.IfEq? && v == 0) || (i.IfNe? && v != 0) || (i.IfLt? && v < 0)
  }

  /** A one-operand test pops its operand and jumps when it holds. */
  lemma RunTest(code: seq<Instr>, at: map<Label, nat>, s: State, rest: Stack, v: int, fuel: nat)
    requires s.pc < |code| && (code[s.pc].IfEq? || code[s.pc].IfNe? || code[s.pc].IfLt?)
    requires s.stack == On(rest, v) && code[s.pc].target in at && fuel > 0
    ensures Run(code, at, s, fuel)
            == Run(code, at, if Taken(code[s.pc], v) then State(at[code[s.pc].target], rest) else State(s.pc + 1, rest), fuel - 1)
  {
  }

  /** `if_icmplt` pops two operands and jumps when the lower one is
      smaller. */
  lemma RunCmp(code: seq<Instr>, at: map<Label, nat>, s: State, rest: Stack, v: int, w: int, fuel: nat)
    requires s.pc < |code| && code[s.pc].IfICmpLt?
    requires s.stack == On(On(rest, v), w) && code[s.pc].target in at && fuel > 0
    ensures Run(code, at, s, fuel)
            == Run(code, at, if v < w then State(at[code[s.pc].target], rest) else State(s.pc + 1, rest), fuel - 1)
  {
  }

  /** The shared tail of the logic operators, `iconst first; goto f; t:;
      iconst !first; f:`, ends the code at `k`. */
  predicate TailAt(code: seq<Instr>, k: nat, first: bool, t: Label, f: Label)
  {
    && k + 5 == |code|
    && code[k] == IConst(first) && code[k + 1] == Goto(f) && code[k + 2] == Mark(t)
    && code[k + 3] == IConst(!first) && code[k + 4] == Mark(f)
  }

  /** The tail entered at its start (the test fell through) pushes
      `first`. */
  lemma TailFall(code: seq<Instr>, at: map<Label, nat>, k: nat, first: bool, t: Label, f: Label, below: Stack, fuel: nat)
    requires TailAt(code, k, first, t, f) && f in at && at[f] == k + 4 && fuel >= 3
    ensures Run(code, at, State(k, below), fuel) == Some(On(below, Bit(first)))
  {
    RunPush(code, at, State(k, below), Bit(first), fuel);
    var f1 := fuel - 1;
    RunGoto(code, at, State(k + 1, On(below, Bit(first))), f1);
    var f2 := f1 - 1;
    RunMark(code, at, State(k + 4, On(below, Bit(first))), f2);
  }

  /** The tail entered at its first label (the test jumped) pushes
      `!first`. */
  lemma TailJump(code: seq<Instr>, at: map<Label, nat>, k: nat, first: bool, t: Label, f: Label, below: Stack, fuel: nat)
    requires TailAt(code, k, first, t, f) && fuel >= 3
    ensures Run(code, at, State(k + 2, below), fuel) == Some(On(below, Bit(!first)))
  {
    RunMark(code, at, State(k + 2, below), fuel);
    var f1 := fuel - 1;
    RunPush(code, at, State(k + 3, below), Bit(!first), f1);
    var f2 := f1 - 1;
    RunMark(code, at, State(k + 4, On(below, Bit(!first))), f2);
  }

  /** The tail entered after its test: at its first label when the test
      jumped, at its start otherwise. */
  lemma Tail(code: seq<Instr>, at: map<Label, nat>, k: nat, first: bool, t: Label, f: Label, below: Stack, jumped: bool, fuel: nat)
    requires TailAt(code, k, first, t, f) && f in at && at[f] == k + 4 && fuel >= 3
    ensures Run(code, at, if jumped then State(k + 2, below) else State(k, below), fuel) == Some(On(below, Bit(first != jumped)))
  {
    if jumped {
      TailJump(code, at, k, first, t, f, below, fuel);
    } else {
      TailFall(code, at, k, first, t, f, below, fuel);
    }
  }

  /** `!`'s test and tail, with the operand on the stack: 1 when it is 0. */
  lemma NotRuns(code: seq<Instr>, v: int, t: Label, f: Label, at: map<Label, nat>, below: Stack, fuel: nat)
    requires code == [IfNe(t)] + [IConst(true), Goto(f), Mark(t), IConst(false), Mark(f)]
    requires t != f && fuel >= 4
    requires t in at && at[t] == 3 && f in at && at[f] == 5
    ensures Run(code, at, State(0, On(below, v)), fuel)
            == Some(On(below, Bit(v == 0)))
  {
    assert TailAt(code, 1, true, t, f) && code[0] == IfNe(t);
    RunTest(code, at, State(0, On(below, v)), below, v, fuel);
    Tail(code, at, 1, true, t, f, below, v != 0, fuel - 1);
  }

  /** `&&`'s tests and tail, with the first operand on the stack and the
      second pushed by one instruction: 1 when both are nonzero. */
  lemma AndRuns(code: seq<Instr>, q: Instr, v: int, w: int, f: Label, t: Label, at: map<Label, nat>, below: Stack, fuel: nat)
    requires code == [IfEq(f), q, IfEq(f)] + [IConst(true), Goto(t), Mark(f), IConst(false), Mark(t)]
    requires Pushes(q, w) && t != f && fuel >= 6
    requires f in at && at[f] == 5 && t in at && at[t] == 7
    ensures Run(code, at, State(0, On(below, v)), fuel)
            == Some(On(below, Bit(v != 0 && w != 0)))
  {
    assert TailAt(code, 3, true, f, t) && code[0] == IfEq(f);
    RunTest(code, at, State(0, On(below, v)), below, v, fuel);
    if v == 0 {
      Tail(code, at, 3, true, f, t, below, true, fuel - 1);
    } else {
      AndSecond(code, q, w, f, t, at, below, fuel - 1);
    }
  }

  /** `&&` once the first operand was nonzero: the second decides. */
  lemma AndSecond(code: seq<Instr>, q: Instr, w: int, f: Label, t: Label, at: map<Label, nat>, below: Stack, fuel: nat)
    requires code == [IfEq(f), q, IfEq(f)] + [IConst(true), Goto(t), Mark(f), IConst(false), Mark(t)]
    requires Pushes(q, w) && fuel >= 5
    requires f in at && at[f] == 5 && t in at && at[t] == 7
    ensures Run(code, at, State(1, below), fuel) == Some(On(below, Bit(w != 0)))
  {
    assert TailAt(code, 3, true, f, t) && code[1] == q && code[2] == IfEq(f);
    RunPush(code, at, State(1, below), w, fuel);
    RunTest(code, at, State(2, On(below, w)), below, w, fuel - 1);
    Tail(code, at, 3, true, f, t, below, w == 0, fuel - 2);
  }

  /** `<`'s comparison and tail, with both operands on the stack: 1 when
      the first is smaller. */
  lemma LtRuns(code: seq<Instr>, v: int, w: int, t: Label, f: Label, at: map<Label, nat>, below: Stack, fuel: nat)
    requires code == [IfICmpLt(t)] + [IConst(false), Goto(f), Mark(t), IConst(true), Mark(f)]
    requires t != f && fuel >= 4
    requires t in at && at[t] == 3 && f in at && at[f] == 5
    ensures Run(code, at, State(0, On(On(below, v), w)), fuel)
            == Some(On(below, Bit(v < w)))
  {
    assert TailAt(code, 1, false, t, f) && code[0] == IfICmpLt(t);
    RunCmp(code, at, State(0, On(On(below, v), w)), below, v, w, fuel);
    Tail(code, at, 1, false, t, f, below, v < w, fuel - 1);
  }

  /** The `< 0` test and tail, with the operand on the stack: 1 when it is
      negative. */
  lemma LtZeroRuns(code: seq<Instr>, v: int, t: Label, f: Label, at: map<Label, nat>, below: Stack, fuel: nat)
    requires code == [IfLt(t)] + [IConst(false), Goto(f), Mark(t), IConst(true), Mark(f)]
    requires t != f && fuel >= 4
    requires t in at && at[t] == 3 && f in at && at[f] == 5
    ensures Run(code, at, State(0, On(below, v)), fuel)
            == Some(On(below, Bit(v < 0)))
  {
    assert TailAt(code, 1, false, t, f) && code[0] == IfLt(t);
    RunTest(code, at, State(0, On(below, v)), below, v, fuel);
    Tail(code, at, 1, false, t, f, below, v < 0, fuel - 1);
  }
}
