/** Where branch labels may occur in emitted code. Each construct takes
    the current value of its family's counter, increments the counter, and
    defines its labels with that number; what is proved here is that code
    built this way defines every label at most once and defines every
    label it jumps to. */
module Labels {
  import opened Jasmin

  /** The three label counters of the generator. */
  datatype Counters = Counters(ifs: nat, whiles: nat, logic: nat)

  datatype Family = IfFamily | WhileFamily | LogicFamily

  function FamilyOf(k: LabelKind): Family
  {
    match k
    case Else | EndIf => IfFamily
    case WhileTop | EndWhile => WhileFamily
    case _ => LogicFamily
  }

  /** The counter a family's labels are numbered by. */
  function Get(c: Counters, f: Family): nat
  {
    match f
    case IfFamily => c.ifs
    case WhileFamily => c.whiles
    case LogicFamily => c.logic
  }

  /** Every counter of `a` is at most the matching counter of `b`. */
  predicate Le(a: Counters, b: Counters)
  {
    a.ifs <= b.ifs && a.whiles <= b.whiles && a.logic <= b.logic
  }

  /** The label an instruction defines, if any. */
  function DefOf(i: Instr): set<Label>
  {
    if i.Mark? then {i.at} else {}
  }

  /** The label an instruction jumps to, if any. */
  function TargetOf(i: Instr): set<Label>
  {
    if i.IfEq? || i.IfNe? || i.IfLt? || i.IfICmpLt? || i.Goto? then {i.target} else {}
  }

  /** The labels the code defines. */
  function Defs(code: seq<Instr>): set<Label>
    decreases |code|
  {
    if code == [] then {} else Defs(code[..|code| - 1]) + DefOf(code[|code| - 1])
  }

  /** The labels the code jumps to. */
  function Targets(code: seq<Instr>): set<Label>
    decreases |code|
  {
    if code == [] then {} else Targets(code[..|code| - 1]) + TargetOf(code[|code| - 1])
  }

  /** Label `l` is numbered within its family's interval `[lo, hi)`. */
  predicate InBox(l: Label, lo: Counters, hi: Counters)
  {
    Get(lo, FamilyOf(l.kind)) <= l.n < Get(hi, FamilyOf(l.kind))
  }

  /** Every label the code defines is numbered, in its family, within
      `[lo, hi)`. */
  ghost predicate Within(code: seq<Instr>, lo: Counters, hi: Counters)
  {
    forall l | l in Defs(code) :: InBox(l, lo, hi)
  }

  /** No label is defined twice: reading the code backwards, no
      definition repeats one made before it. */
  ghost predicate Unique(code: seq<Instr>)
    decreases |code|
  {
    code == [] || (DefOf(code[|code| - 1]) !! Defs(code[..|code| - 1]) && Unique(code[..|code| - 1]))
  }

  /** Every label the code jumps to is defined in it. */
  ghost predicate Closed(code: seq<Instr>)
  {
    Targets(code) <= Defs(code)
  }

  /** The three properties together. */
  ghost predicate WellLabelled(code: seq<Instr>, lo: Counters, hi: Counters)
  {
    Within(code, lo, hi) && Unique(code) && Closed(code)
  }

  /** The intervals `[a1, b1)` and `[a2, b2)` do not overlap. */
  predicate Apart(a1: nat, b1: nat, a2: nat, b2: nat)
  {
    b1 <= a2 || b2 <= a1 || b1 <= a1 || b2 <= a2
  }

  /** Two counter boxes that share no label. */
  predicate Disjoint(lo1: Counters, hi1: Counters, lo2: Counters, hi2: Counters)
  {
    && Apart(lo1.ifs, hi1.ifs, lo2.ifs, hi2.ifs)
    && Apart(lo1.whiles, hi1.whiles, lo2.whiles, hi2.whiles)
    && Apart(lo1.logic, hi1.logic, lo2.logic, hi2.logic)
  }

  /** Code that defines no label and jumps nowhere. */
  predicate Unlabelled(code: seq<Instr>)
  {
    forall i :: 0 <= i < |code| ==> !code[i].Mark? && !code[i].IfEq? && !code[i].IfNe? &&
                                    !code[i].IfLt? && !code[i].IfICmpLt? && !code[i].Goto?
  }

  /** One more instruction adds what it defines and what it jumps to. */
  lemma DefsSnoc(code: seq<Instr>, i: Instr)
    ensures Defs(code + [i]) == Defs(code) + DefOf(i)
    ensures Targets(code + [i]) == Targets(code) + TargetOf(i)
  {
    assert (code + [i])[..|code|] == code;
  }

  /** The labels of a concatenation are those of its halves. */
  lemma {:induction false} DefsAppend(a: seq<Instr>, b: seq<Instr>)
    ensures Defs(a + b) == Defs(a) + Defs(b)
    ensures Targets(a + b) == Targets(a) + Targets(b)
    decreases |b|
  {
    if b == [] {
      assert a + b == a;
    } else {
      var k := |b| - 1;
      assert a + b == (a + b[..k]) + [b[k]];
      assert b == b[..k] + [b[k]];
      DefsAppend(a, b[..k]);
      DefsSnoc(a + b[..k], b[k]);
      DefsSnoc(b[..k], b[k]);
    }
  }

  /** A prefix defines no more than the whole. */
  lemma DefsPrefix(a: seq<Instr>, b: seq<Instr>)
    requires a <= b
    ensures Defs(a) <= Defs(b)
  {
    assert b == a + b[|a|..];
    DefsAppend(a, b[|a|..]);
  }

  lemma {:induction false} UnlabelledNone(code: seq<Instr>)
    requires Unlabelled(code)
    ensures Defs(code) == {} && Targets(code) == {} && Unique(code)
    decreases |code|
  {
    if code != [] {
      UnlabelledNone(code[..|code| - 1]);
    }
  }

  lemma UnlabelledIsWellLabelled(code: seq<Instr>, lo: Counters, hi: Counters)
    requires Unlabelled(code)
    ensures WellLabelled(code, lo, hi)
  {
    UnlabelledNone(code);
  }

  /** One more instruction keeps the code unique when it does not define a
      label already defined. */
  lemma UniqueSnoc(code: seq<Instr>, i: Instr)
    requires Unique(code) && DefOf(i) !! Defs(code)
    ensures Unique(code + [i])
  {
    assert (code + [i])[..|code|] == code;
  }

  /** Two unique pieces that define no label in common make a unique
      whole. */
  lemma {:induction false} UniqueAppend(a: seq<Instr>, b: seq<Instr>)
    requires Unique(a) && Unique(b) && Defs(a) !! Defs(b)
    ensures Unique(a + b)
    decreases |b|
  {
    if b == [] {
      assert a + b == a;
    } else {
      var k := |b| - 1;
      assert b == b[..k] + [b[k]];
      DefsSnoc(b[..k], b[k]);
      UniqueAppend(a, b[..k]);
      DefsAppend(a, b[..k]);
      UniqueSnoc(a + b[..k], b[k]);
      assert a + b == (a + b[..k]) + [b[k]];
    }
  }

  /** Code placed after other code keeps both halves' labels apart when
      their boxes are disjoint. */
  lemma UniqueJoin(a: seq<Instr>, b: seq<Instr>, lo1: Counters, hi1: Counters, lo2: Counters, hi2: Counters)
    requires Within(a, lo1, hi1) && Within(b, lo2, hi2) && Unique(a) && Unique(b)
    requires Disjoint(lo1, hi1, lo2, hi2)
    ensures Unique(a + b)
  {
    forall l | l in Defs(a) ensures l !in Defs(b) {
      assert InBox(l, lo1, hi1);
    }
    UniqueAppend(a, b);
  }

  lemma ClosedJoin(a: seq<Instr>, b: seq<Instr>)
    requires Closed(a) && Closed(b)
    ensures Closed(a + b)
  {
    DefsAppend(a, b);
  }

  /** Two well-labelled pieces with disjoint boxes make a well-labelled
      whole, in the union of the boxes when the first ends where the
      second starts. */
  lemma Join(a: seq<Instr>, b: seq<Instr>, lo: Counters, mid: Counters, hi: Counters)
    requires WellLabelled(a, lo, mid) && WellLabelled(b, mid, hi) && Le(lo, mid) && Le(mid, hi)
    ensures WellLabelled(a + b, lo, hi)
  {
    UniqueJoin(a, b, lo, mid, mid, hi);
    ClosedJoin(a, b);
    Widen(a, lo, mid, lo, hi);
    Widen(b, mid, hi, lo, hi);
    WithinJoin(a, b, lo, hi);
  }

  /** Both halves within one box make the whole within it. */
  lemma WithinJoin(a: seq<Instr>, b: seq<Instr>, lo: Counters, hi: Counters)
    requires Within(a, lo, hi) && Within(b, lo, hi)
    ensures Within(a + b, lo, hi)
  {
    DefsAppend(a, b);
  }

  /** A box may be widened. */
  lemma Widen(code: seq<Instr>, lo: Counters, hi: Counters, lo': Counters, hi': Counters)
    requires Within(code, lo, hi) && Le(lo', lo) && Le(hi, hi')
    ensures Within(code, lo', hi')
  {
    forall l | l in Defs(code) ensures InBox(l, lo', hi') {
      assert InBox(l, lo, hi);
    }
  }

  /** Code that only defines labels of the logic family keeps its logic
      interval under any if and while counters. */
  lemma Reframe(code: seq<Instr>, x: nat, y: nat, lo: Counters, hi: Counters)
    requires Within(code, Counters(0, 0, x), Counters(0, 0, y))
    requires lo.logic == x && hi.logic == y
    ensures Within(code, lo, hi)
  {
    forall l | l in Defs(code) ensures InBox(l, lo, hi) {
      assert InBox(l, Counters(0, 0, x), Counters(0, 0, y));
    }
  }

  /** A conditional jump to `t`. */
  predicate Test(i: Instr, t: Label)
  {
    i == IfEq(t) || i == IfNe(t) || i == IfLt(t) || i == IfICmpLt(t)
  }

  /** Every label the code jumps to is defined in it, except possibly `t`. */
  ghost predicate ClosedBut(code: seq<Instr>, t: Label)
  {
    Targets(code) <= Defs(code) + {t}
  }

  /** Well-labelled code followed by a conditional jump to `t` is
      well-labelled but for `t`. */
  lemma Guard(a: seq<Instr>, test: Instr, t: Label, lo: Counters, hi: Counters)
    requires WellLabelled(a, lo, hi) && Test(test, t)
    ensures Within(a + [test], lo, hi) && Unique(a + [test]) && ClosedBut(a + [test], t)
  {
    DefsSnoc(a, test);
    UniqueSnoc(a, test);
  }

  /** Code well-labelled but for `t`, then well-labelled code in the next
      box and another conditional jump to `t`. */
  lemma GuardAgain(p: seq<Instr>, b: seq<Instr>, test: Instr, t: Label, lo: Counters, mid: Counters, hi: Counters)
    requires Within(p, lo, mid) && Unique(p) && ClosedBut(p, t) && Test(test, t)
    requires WellLabelled(b, mid, hi) && Le(lo, mid) && Le(mid, hi)
    ensures Within(p + b + [test], lo, hi) && Unique(p + b + [test]) && ClosedBut(p + b + [test], t)
  {
    UniqueJoin(p, b, lo, mid, mid, hi);
    DefsAppend(p, b);
    DefsSnoc(p + b, test);
    UniqueSnoc(p + b, test);
    Widen(p, lo, mid, lo, hi);
    Widen(b, mid, hi, lo, hi);
  }

  /** Code well-labelled but for `t`, in box `[mid, hi)`, followed by a
      tail in the box `[lo, mid)` below it that defines `t`. */
  lemma Enclose(body: seq<Instr>, tail: seq<Instr>, t: Label, lo: Counters, mid: Counters, hi: Counters)
    requires Within(body, mid, hi) && Unique(body) && ClosedBut(body, t)
    requires WellLabelled(tail, lo, mid) && t in Defs(tail) && Le(lo, mid) && Le(mid, hi)
    ensures WellLabelled(body + tail, lo, hi)
  {
    UniqueJoin(body, tail, mid, hi, lo, mid);
    DefsAppend(body, tail);
    Widen(body, mid, hi, lo, hi);
    Widen(tail, lo, mid, lo, hi);
  }
}
