/** Local-variable slots and `.limit locals`. Each method starts a fresh
    variable map with the slot counter at 1 (slot 0 holds `this`, or the
    argument array of `main`); a regular method's parameters are added
    first, then its locals, in declaration order. */
module Slots {
  import opened Wrappers
  import opened Ast
  import opened Emit
  import Descriptors
  import Builder

  /** `addVariable`: a name not yet in the map gets slot `next`, with its
      declared type, and the counter moves on; a name already present
      (a local reusing a parameter's name) changes nothing. */
  datatype Added = Added(vars: Vars, next: nat, isNew: bool)

  function AddSlot(vars: Vars, next: nat, x: string, t: string): Added
  {
    if x !in vars then Added(vars[x := Slot(next, t)], next + 1, true)
    else Added(vars, next, false)
  }

  /** The slots in use are exactly `1 .. next - 1`, one name each. */
  predicate Dense(vars: Vars, next: nat)
  {
    && next == |vars| + 1
    && (forall x | x in vars :: 1 <= vars[x].index < next)
    && (forall x, y | x in vars && y in vars && x != y :: vars[x].index != vars[y].index)
  }

  /** Adding a name maps it, with the next slot when it is new, and
      leaves every name already present as it was. */
  lemma AddSlotKeeps(vars: Vars, next: nat, x: string, t: string)
    ensures var r := AddSlot(vars, next, x, t);
            && r.isNew == (x !in vars)
            && r.vars.Keys == vars.Keys + {x}
            && (forall y | y in vars :: r.vars[y] == vars[y])
            && (r.isNew ==> r.vars[x] == Slot(next, t) && r.next == next + 1)
            && (!r.isNew ==> r.next == next)
  {
  }

  /** Adding a name keeps the slots dense: a new name gets the one new
      slot. */
  lemma AddSlotDense(vars: Vars, next: nat, x: string, t: string)
    requires Dense(vars, next)
    ensures Dense(AddSlot(vars, next, x, t).vars, AddSlot(vars, next, x, t).next)
  {
    if x !in vars {
      var m := vars[x := Slot(next, t)];
      assert m.Keys == vars.Keys + {x};
      assert |m| == |vars| + 1;
      forall y | y in m ensures 1 <= m[y].index < next + 1 && (y != x ==> m[y].index < next) {
      }
    }
  }


  /** Adding a list of declarations in order. */
  function Allocate(vars: Vars, next: nat, ds: seq<VarDecl>): Added
    decreases |ds|
  {
    if ds == [] then Added(vars, next, false)
    else
      var r := AddSlot(vars, next, ds[0].name, ds[0].varType);
      Allocate(r.vars, r.next, ds[1..])
  }

  /** Allocation maps the old names and the declared ones, and an old
      name keeps its slot. */
  lemma {:induction false} AllocateKeeps(vars: Vars, next: nat, ds: seq<VarDecl>)
    ensures Allocate(vars, next, ds).vars.Keys == vars.Keys + NameSet(ds)
    ensures forall y | y in vars :: Allocate(vars, next, ds).vars[y] == vars[y]
    decreases |ds|
  {
    if ds != [] {
      assert [ds[0]] + ds[1..] == ds;
      assert NameSet([ds[0]]) == {ds[0].name};
      NameSetAppend([ds[0]], ds[1..]);
      var r := AddSlot(vars, next, ds[0].name, ds[0].varType);
      AddSlotKeeps(vars, next, ds[0].name, ds[0].varType);
      AllocateKeeps(r.vars, r.next, ds[1..]);
    }
  }

  /** Allocation keeps the slots dense. */
  lemma {:induction false} AllocateDense(vars: Vars, next: nat, ds: seq<VarDecl>)
    requires Dense(vars, next)
    ensures Dense(Allocate(vars, next, ds).vars, Allocate(vars, next, ds).next)
    decreases |ds|
  {
    if ds != [] {
      var r := AddSlot(vars, next, ds[0].name, ds[0].varType);
      AddSlotDense(vars, next, ds[0].name, ds[0].varType);
      AllocateDense(r.vars, r.next, ds[1..]);
    }
  }

  /** The first declaration of a name decides its slot and type. */
  lemma {:induction false} AllocateFirst(vars: Vars, next: nat, ds: seq<VarDecl>, i: nat)
    requires i < |ds|
    requires ds[i].name !in vars && forall j :: 0 <= j < i ==> ds[j].name != ds[i].name
    ensures ds[i].name in Allocate(vars, next, ds).vars
    ensures Allocate(vars, next, ds).vars[ds[i].name].varType == ds[i].varType
    decreases |ds|
  {
    var rest := ds[1..];
    assert i > 0 ==> rest[i - 1] == ds[i] && forall j :: 0 <= j < i - 1 ==> rest[j] == ds[j + 1];
    var r := AddSlot(vars, next, ds[0].name, ds[0].varType);
    AddSlotKeeps(vars, next, ds[0].name, ds[0].varType);
    AllocateKeeps(r.vars, r.next, rest);
    if i > 0 {
      AllocateFirst(r.vars, r.next, rest, i - 1);
    }
  }

  /** Allocating two lists is allocating their concatenation. */
  lemma {:induction false} AllocateAppend(vars: Vars, next: nat, a: seq<VarDecl>, b: seq<VarDecl>)
    ensures var r := Allocate(vars, next, a);
            && Allocate(r.vars, r.next, b).vars == Allocate(vars, next, a + b).vars
            && Allocate(r.vars, r.next, b).next == Allocate(vars, next, a + b).next
    decreases |a|
  {
    if a == [] {
      assert a + b == b;
    } else {
      var r := AddSlot(vars, next, a[0].name, a[0].varType);
      assert (a + b)[1..] == a[1..] + b;
      AllocateAppend(r.vars, r.next, a[1..], b);
    }
  }

  /** The variable map of a method body: for a regular method its
      parameters then its locals, for `main` its locals only (the argument
      array is not entered). */
  function MethodVars(m: MethodDecl): Added
  {
    match m
    case RegularMethod(_, _, params, locals, _, _) => Allocate(map[], 1, params + locals)
    case MainMethod(_, _, locals, _) => Allocate(map[], 1, locals)
  }

  /** A method's slots are dense from 1, and its names are exactly its
      parameters' and locals'. */
  lemma MethodVarsDense(m: MethodDecl)
    ensures Dense(MethodVars(m).vars, MethodVars(m).next)
    ensures m.RegularMethod? ==> MethodVars(m).vars.Keys == NameSet(m.params + m.locals)
    ensures m.MainMethod? ==> MethodVars(m).vars.Keys == NameSet(m.locals)
  {
    if m.RegularMethod? {
      AllocateDense(map[], 1, m.params + m.locals);
      AllocateKeeps(map[], 1, m.params + m.locals);
    } else {
      AllocateDense(map[], 1, m.locals);
      AllocateKeeps(map[], 1, m.locals);
    }
  }

  /** The method's signature as the generator looks it up: its name and
      parameter types, `main` with one `String[]` parameter. */
  function LookupOwn(env: Env, m: MethodDecl): Option<Sig>
  {
    match m
    case RegularMethod(name, _, params, _, _, _) => LookupMethod(env, name, DeclTypes(params))
    case MainMethod(_, _, _, _) => LookupMethod(env, "main", ["String[]"])
  }

  /** `getLimitLocals`: the descriptor's parameters and locals, plus one
      for `this` in a regular method; 0 when the lookup fails. */
  function LimitLocals(env: Env, m: MethodDecl): nat
  {
    var s := LookupOwn(env, m);
    if s.None? then 0
    else if m.RegularMethod? then s.value.slots + 1
    else s.value.slots
  }

  /** When the descriptor the generator finds counts each distinct
      parameter and local once (as the symbol-table builder records them:
      parameters and locals are rejected on a repeated name, and `main`
      has its one `String[]` parameter), every slot the generator hands
      out is below `.limit locals`. */
  lemma SlotsBelowLimit(env: Env, m: MethodDecl, x: string)
    requires LookupOwn(env, m).Some?
    requires m.RegularMethod? ==> LookupOwn(env, m).value.slots == |NameSet(m.params)| + |NameSet(m.locals)|
    requires m.MainMethod? ==> LookupOwn(env, m).value.slots == 1 + |NameSet(m.locals)|
    requires x in MethodVars(m).vars
    ensures 1 <= MethodVars(m).vars[x].index < LimitLocals(env, m)
  {
    MethodVarsDense(m);
    assert |MethodVars(m).vars.Keys| == |MethodVars(m).vars|;
    if m.RegularMethod? {
      NameSetAppend(m.params, m.locals);
      assert |NameSet(m.params) + NameSet(m.locals)| <= |NameSet(m.params)| + |NameSet(m.locals)|;
    }
  }

  /** Names that are pairwise distinct are as many as the declarations. */
  lemma {:induction false} DistinctNameCount(r: seq<VarDecl>)
    requires forall i, j :: 0 <= i < j < |r| ==> r[i].name != r[j].name
    ensures |NameSet(r)| == |r|
  {
    if r != [] {
      var q, d := r[..|r| - 1], r[|r| - 1];
      DistinctNameCount(q);
      assert r == q + [d];
      NameSetAppend(q, [d]);
      assert NameSet([d]) == {d.name};
      assert d.name !in NameSet(q);
    }
  }

  /** The names a declaration list declares. */
  lemma DeclaredNames(ds: seq<VarDecl>)
    ensures forall n :: n in NameSet(ds) <==> Builder.Declared(ds, n)
  {
  }

  /** `getLimitLocals`'s count for a descriptor: its parameters plus its
      locals. */
  function DescriptorSlots(e: Descriptors.MethodDescriptor): nat
    reads e
  {
    |e.parameters| + |e.locals|
  }

  /** The descriptor the builder records for `m` counts `m`'s distinct
      parameter names (the argument array for `main`) plus its distinct
      local names: the premise `SlotsBelowLimit` asks of the lookup. */
  lemma DescribedSlots(e: Descriptors.MethodDescriptor, m: MethodDecl)
    requires Builder.DescribesMethod(e, m)
    ensures m.RegularMethod? ==> DescriptorSlots(e) == |NameSet(m.params)| + |NameSet(m.locals)|
    ensures m.MainMethod? ==> DescriptorSlots(e) == 1 + |NameSet(m.locals)|
  {
    assert |e.parameters| == |Descriptors.ParamNames(e.parameters)| == |Builder.SigNames(m)|;
    assert e.LocalTypes() == Builder.DeclMap(m.locals);
    assert e.locals.Keys == Builder.DeclMap(m.locals).Keys;
    DeclaredNames(m.locals);
    assert Builder.DeclMap(m.locals).Keys == NameSet(m.locals);
    assert |e.locals| == |e.locals.Keys|;
    if m.RegularMethod? {
      var r := Builder.FirstDecls(m.params);
      Builder.FirstDeclsFacts(m.params);
      DistinctNameCount(r);
      DeclaredNames(r);
      DeclaredNames(m.params);
      assert NameSet(r) == NameSet(m.params);
    }
  }

  /** For a method whose descriptor the builder recorded, every slot the
      generator hands out is below `.limit locals`. */
  lemma BuiltSlotsBelowLimit(env: Env, m: MethodDecl, e: Descriptors.MethodDescriptor, x: string)
    requires LookupOwn(env, m).Some? && LookupOwn(env, m).value.slots == DescriptorSlots(e)
    requires Builder.DescribesMethod(e, m)
    requires x in MethodVars(m).vars
    ensures 1 <= MethodVars(m).vars[x].index < LimitLocals(env, m)
  {
    DescribedSlots(e, m);
    SlotsBelowLimit(env, m, x);
  }
}
