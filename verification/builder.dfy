/** The first pass: a walk over the declarations of a program that fills a
    fresh symbol table. A declaration the table rejects is reported as a
    diagnostic and the walk goes on; statements and expressions add nothing. */
module Builder {
  import opened Wrappers
  import opened Ast
  import opened Descriptors
  import opened Symbols

  /** Some declaration in `ds` has the name `n`. */
  predicate Declared(ds: seq<VarDecl>, n: string)
  {
    exists i :: 0 <= i < |ds| && ds[i].name == n
  }

  /** The declarations of `ds` that are the first with their name, in order. */
  function FirstDecls(ds: seq<VarDecl>): seq<VarDecl>
  {
    if ds == [] then []
    else
      var d := ds[|ds| - 1];
      FirstDecls(ds[..|ds| - 1]) + if Declared(ds[..|ds| - 1], d.name) then [] else [d]
  }

  /** Appending a declaration declares its name and nothing else new. */
  lemma DeclaredSnoc(ds: seq<VarDecl>, d: VarDecl)
    ensures forall n :: Declared(ds + [d], n) <==> Declared(ds, n) || d.name == n
  {
    var s := ds + [d];
    forall n | Declared(s, n) ensures Declared(ds, n) || d.name == n {
      var i :| 0 <= i < |s| && s[i].name == n;
      if i < |ds| {
        assert ds[i] == s[i];
      }
    }
    forall n | Declared(ds, n) ensures Declared(s, n) {
      var i :| 0 <= i < |ds| && ds[i].name == n;
      assert s[i] == ds[i];
    }
    assert s[|ds|] == d;
  }

  /** The first declarations are distinct, declare the same names and come
      from `ds`. */
  lemma {:induction false} FirstDeclsFacts(ds: seq<VarDecl>)
    ensures var r := FirstDecls(ds);
            && |r| <= |ds|
            && (forall i, j :: 0 <= i < j < |r| ==> r[i].name != r[j].name)
            && (forall n :: Declared(r, n) <==> Declared(ds, n))
            && (forall i :: 0 <= i < |r| ==> r[i] in ds)
  {
    if ds != [] {
      var q := ds[..|ds| - 1];
      var d := ds[|ds| - 1];
      var p := FirstDecls(q);
      FirstDeclsFacts(q);
      assert ds == q + [d];
      DeclaredSnoc(q, d);
      forall x | x in p ensures x in ds {
        var i :| 0 <= i < |q| && q[i] == x;
        assert ds[i] == x;
      }
      if !Declared(q, d.name) {
        DeclaredSnoc(p, d);
        forall i | 0 <= i < |p| ensures p[i].name != d.name {
          assert Declared(p, p[i].name);
        }
      } else {
        assert p + [] == p;
      }
    }
  }

  /** The type of the first declaration of each name. */
  function DeclMap(ds: seq<VarDecl>): (m: map<string, string>)
    ensures forall n :: n in m <==> Declared(ds, n)
  {
    if ds == [] then map[]
    else
      var m := DeclMap(ds[..|ds| - 1]);
      var d := ds[|ds| - 1];
      assert ds == ds[..|ds| - 1] + [d];
      DeclaredSnoc(ds[..|ds| - 1], d);
      if d.name in m then m else m[d.name := d.varType]
  }

  /** Each declared name is mapped to the type of its first declaration. */
  lemma {:induction false} DeclMapFacts(ds: seq<VarDecl>)
    ensures forall i | 0 <= i < |ds| && !Declared(ds[..i], ds[i].name) :: DeclMap(ds)[ds[i].name] == ds[i].varType
  {
    if ds != [] {
      var q := ds[..|ds| - 1];
      var d := ds[|ds| - 1];
      DeclMapFacts(q);
      forall i | 0 <= i < |ds| && !Declared(ds[..i], ds[i].name)
        ensures DeclMap(ds)[ds[i].name] == ds[i].varType
      {
        if i < |q| {
          assert ds[..i] == q[..i] && ds[i] == q[i];
          assert Declared(q, ds[i].name) by { assert q[i].name == ds[i].name; }
        } else {
          assert ds[..i] == q;
        }
      }
    }
  }

  /** One diagnostic per parameter that repeats an earlier name. */
  function ParamDiags(methodName: string, ds: seq<VarDecl>): (r: seq<Diagnostic>)
    ensures |r| <= |ds|
  {
    if ds == [] then []
    else
      var d := ds[|ds| - 1];
      ParamDiags(methodName, ds[..|ds| - 1])
      + if Declared(ds[..|ds| - 1], d.name)
        then [Diagnostic(InMethod(InUse(d.name), methodName), d.pos)]
        else []
  }

  /** A message of a field (`None`) or of a local of a method. */
  function Scoped(msg: string, context: Option<string>): string
  {
    if context.None? then msg else InMethod(msg, context.value)
  }

  /** One diagnostic per field or local that repeats an earlier name;
      `context` names the method of a local. */
  function VarDiags(context: Option<string>, ds: seq<VarDecl>): (r: seq<Diagnostic>)
    ensures |r| <= |ds|
  {
    if ds == [] then []
    else
      var d := ds[|ds| - 1];
      VarDiags(context, ds[..|ds| - 1])
      + if Declared(ds[..|ds| - 1], d.name)
        then [Diagnostic(Scoped(AlreadyDefined(d.name), context), d.pos)]
        else []
  }

  /** Appending a declaration keeps the first declarations, and adds it
      when its name is new. */
  lemma FirstDeclsSnoc(ds: seq<VarDecl>, d: VarDecl)
    ensures FirstDecls(ds + [d]) == if Declared(ds, d.name) then FirstDecls(ds) else FirstDecls(ds) + [d]
  {
    assert (ds + [d])[..|ds|] == ds;
  }

  /** Appending a declaration adds its type under a new name only. */
  lemma DeclMapSnoc(ds: seq<VarDecl>, d: VarDecl)
    ensures DeclMap(ds + [d]) == if d.name in DeclMap(ds) then DeclMap(ds) else DeclMap(ds)[d.name := d.varType]
  {
    assert (ds + [d])[..|ds|] == ds;
  }

  /** Appending a parameter reports it exactly when its name is taken. */
  lemma ParamDiagsSnoc(methodName: string, ds: seq<VarDecl>, d: VarDecl)
    ensures ParamDiags(methodName, ds + [d])
            == ParamDiags(methodName, ds)
               + if Declared(ds, d.name)
                 then [Diagnostic(InMethod(InUse(d.name), methodName), d.pos)]
                 else []
  {
    assert (ds + [d])[..|ds|] == ds;
  }

  /** Appending a field or local reports it exactly when its name is taken. */
  lemma VarDiagsSnoc(context: Option<string>, ds: seq<VarDecl>, d: VarDecl)
    ensures VarDiags(context, ds + [d])
            == VarDiags(context, ds)
               + if Declared(ds, d.name)
                 then [Diagnostic(Scoped(AlreadyDefined(d.name), context), d.pos)]
                 else []
  {
    assert (ds + [d])[..|ds|] == ds;
  }

  lemma DeclaredInNames(ds: seq<VarDecl>, n: string)
    ensures Declared(ds, n) <==> n in DeclNames(ds)
  {
    if n in DeclNames(ds) {
      var i :| 0 <= i < |ds| && DeclNames(ds)[i] == n;
      assert ds[i].name == n;
    }
  }

  /** What visiting the parameter at index `i` adds, in the terms the
      symbol table reports it. */
  lemma ParamStepFacts(methodName: string, ps: seq<VarDecl>, i: nat)
    requires i < |ps|
    ensures var f := FirstDecls(ps[..i]);
            var dup := ps[i].name in DeclNames(f);
            && DeclNames(FirstDecls(ps[..i + 1])) == DeclNames(f) + (if dup then [] else [ps[i].name])
            && DeclTypes(FirstDecls(ps[..i + 1])) == DeclTypes(f) + (if dup then [] else [ps[i].varType])
            && ParamDiags(methodName, ps[..i + 1])
               == ParamDiags(methodName, ps[..i])
                  + if dup then [Diagnostic(InMethod(InUse(ps[i].name), methodName), ps[i].pos)] else []
  {
    assert ps[..i + 1] == ps[..i] + [ps[i]];
    FirstDeclsSnoc(ps[..i], ps[i]);
    FirstDeclsFacts(ps[..i]);
    ParamDiagsSnoc(methodName, ps[..i], ps[i]);
    DeclaredInNames(FirstDecls(ps[..i]), ps[i].name);
    DeclsSnoc(FirstDecls(ps[..i]), ps[i]);
  }

  /** What visiting the field or local at index `i` adds. */
  lemma DeclStepFacts(context: Option<string>, vs: seq<VarDecl>, i: nat)
    requires i < |vs|
    ensures var dup := vs[i].name in DeclMap(vs[..i]);
            && DeclMap(vs[..i + 1]) == (if dup then DeclMap(vs[..i]) else DeclMap(vs[..i])[vs[i].name := vs[i].varType])
            && VarDiags(context, vs[..i + 1])
               == VarDiags(context, vs[..i])
                  + if dup then [Diagnostic(Scoped(AlreadyDefined(vs[i].name), context), vs[i].pos)] else []
  {
    assert vs[..i + 1] == vs[..i] + [vs[i]];
    DeclMapSnoc(vs[..i], vs[i]);
    VarDiagsSnoc(context, vs[..i], vs[i]);
  }

  /** The parameter types an import's children declare, in child order. */
  function ImportParamTypes(cs: seq<ImportChild>): seq<string>
  {
    if cs == [] then []
    else
      ImportParamTypes(cs[..|cs| - 1])
      + if cs[|cs| - 1].ParamType? then [cs[|cs| - 1].t] else []
  }

  /** The return type an import ends with: that of its last return-type
      child, `dflt` when there is none. */
  function ImportReturnType(cs: seq<ImportChild>, dflt: string): string
  {
    if cs == [] then dflt
    else if cs[|cs| - 1].ReturnType? then cs[|cs| - 1].t
    else ImportReturnType(cs[..|cs| - 1], dflt)
  }

  /** At most one parameter type per child, one per child when all of them
      are parameter types; the return type is the default or that of some
      return-type child, and the default when there is none. */
  lemma {:induction false} ImportTypesFacts(cs: seq<ImportChild>, dflt: string)
    ensures |ImportParamTypes(cs)| <= |cs|
    ensures (forall i :: 0 <= i < |cs| ==> cs[i].ParamType?) ==> |ImportParamTypes(cs)| == |cs|
    ensures (forall i :: 0 <= i < |cs| ==> cs[i].ParamType?) ==> ImportReturnType(cs, dflt) == dflt
    ensures var r := ImportReturnType(cs, dflt); r == dflt || exists i :: 0 <= i < |cs| && cs[i] == ReturnType(r)
  {
    if cs != [] {
      var p := cs[..|cs| - 1];
      ImportTypesFacts(p, dflt);
      assert forall i :: 0 <= i < |p| ==> p[i] == cs[i];
      var r := ImportReturnType(cs, dflt);
      if r != dflt && cs[|cs| - 1].ParamType? {
        var i :| 0 <= i < |p| && p[i] == ReturnType(r);
        assert cs[i] == ReturnType(r);
      }
    }
  }

  /** Appending one child changes the declared parameter types and return
      type exactly as visiting that child does. */
  lemma ImportChildStep(cs: seq<ImportChild>, c: ImportChild)
    ensures ImportParamTypes(cs + [c]) == ImportParamTypes(cs) + (if c.ParamType? then [c.t] else [])
    ensures ImportReturnType(cs + [c], "void") == (if c.ReturnType? then c.t else ImportReturnType(cs, "void"))
  {
    assert (cs + [c])[..|cs|] == cs;
  }

  function ImportIds(ds: seq<ImportDecl>): set<string>
  {
    set i | 0 <= i < |ds| :: ds[i].id
  }

  /** The key a method declaration is entered under: `main` for the main
      method. */
  function MethodKey(m: MethodDecl): string
  {
    if m.RegularMethod? then m.name else "main"
  }

  function MethodNames(ms: seq<MethodDecl>): set<string>
  {
    set i | 0 <= i < |ms| :: MethodKey(ms[i])
  }

  lemma NameSetStep(vs: seq<VarDecl>, i: nat)
    requires i < |vs|
    ensures NameSet(vs[..i + 1]) == NameSet(vs[..i]) + {vs[i].name}
  {
    assert vs[..i + 1] == vs[..i] + [vs[i]];
    NameSetAppend(vs[..i], [vs[i]]);
    assert NameSet([vs[i]]) == {vs[i].name};
  }

  lemma ImportIdsStep(ds: seq<ImportDecl>, i: nat)
    requires i < |ds|
    ensures ImportIds(ds[..i + 1]) == ImportIds(ds[..i]) + {ds[i].id}
  {
    forall x | x in ImportIds(ds[..i + 1]) ensures x in ImportIds(ds[..i]) + {ds[i].id} {
      var k :| 0 <= k < i + 1 && ds[..i + 1][k].id == x;
      if k < i { assert ds[..i][k].id == x; }
    }
    forall x | x in ImportIds(ds[..i]) ensures x in ImportIds(ds[..i + 1]) {
      var k :| 0 <= k < i && ds[..i][k].id == x;
      assert ds[..i + 1][k].id == x;
    }
    assert ds[..i + 1][i].id == ds[i].id;
  }

  lemma MethodNamesStep(ms: seq<MethodDecl>, i: nat)
    requires i < |ms|
    ensures MethodNames(ms[..i + 1]) == MethodNames(ms[..i]) + {MethodKey(ms[i])}
  {
    forall x | x in MethodNames(ms[..i + 1]) ensures x in MethodNames(ms[..i]) + {MethodKey(ms[i])} {
      var k :| 0 <= k < i + 1 && MethodKey(ms[..i + 1][k]) == x;
      if k < i { assert MethodKey(ms[..i][k]) == x; }
    }
    forall x | x in MethodNames(ms[..i]) ensures x in MethodNames(ms[..i + 1]) {
      var k :| 0 <= k < i && MethodKey(ms[..i][k]) == x;
      assert MethodKey(ms[..i + 1][k]) == x;
    }
    assert MethodKey(ms[..i + 1][i]) == MethodKey(ms[i]);
  }

  /** The import declarations entered under `id`, in program order. */
  function ImportsNamed(ds: seq<ImportDecl>, id: string): seq<ImportDecl>
  {
    if ds == [] then []
    else ImportsNamed(ds[..|ds| - 1], id) + if ds[|ds| - 1].id == id then [ds[|ds| - 1]] else []
  }

  /** The positions in `ds` of the declarations with id `id`, in order. */
  function ImportPositions(ds: seq<ImportDecl>, id: string): seq<nat>
  {
    if ds == [] then []
    else ImportPositions(ds[..|ds| - 1], id) + if ds[|ds| - 1].id == id then [|ds| - 1] else []
  }

  /** Each declaration in the group is one of `ds` and carries the id. */
  lemma {:induction false} ImportsNamedFacts(ds: seq<ImportDecl>, id: string)
    ensures var r := ImportsNamed(ds, id);
            |r| <= |ds| && forall k :: 0 <= k < |r| ==> r[k].id == id && r[k] in ds
  {
    if ds != [] {
      var p := ds[..|ds| - 1];
      ImportsNamedFacts(p, id);
      var r := ImportsNamed(ds, id);
      forall k | 0 <= k < |r| ensures r[k].id == id && r[k] in ds {
        if k < |ImportsNamed(p, id)| {
          assert r[k] == ImportsNamed(p, id)[k];
          var j :| 0 <= j < |p| && p[j] == r[k];
          assert ds[j] == r[k];
        } else {
          assert r[k] == ds[|ds| - 1];
        }
      }
    }
  }

  /** The group under `id` is exactly the declarations with that id, in
      program order: its k-th entry is the declaration at the k-th
      matching position, the positions increase, and every declaration
      with the id has its position among them. */
  lemma {:induction false} ImportsNamedInOrder(ds: seq<ImportDecl>, id: string)
    ensures var r, ix := ImportsNamed(ds, id), ImportPositions(ds, id);
            && |ix| == |r|
            && (forall k :: 0 <= k < |ix| ==> ix[k] < |ds| && r[k] == ds[ix[k]])
            && (forall k, l :: 0 <= k < l < |ix| ==> ix[k] < ix[l])
            && (forall j :: 0 <= j < |ds| && ds[j].id == id ==> j in ix)
  {
    if ds != [] {
      var p, d := ds[..|ds| - 1], ds[|ds| - 1];
      ImportsNamedInOrder(p, id);
      var r, ix := ImportsNamed(ds, id), ImportPositions(ds, id);
      var rp, ixp := ImportsNamed(p, id), ImportPositions(p, id);
      forall k | 0 <= k < |ix| ensures ix[k] < |ds| && r[k] == ds[ix[k]] {
        if k < |ixp| {
          assert r[k] == rp[k] && ix[k] == ixp[k];
          assert p[ixp[k]] == ds[ixp[k]];
        }
      }
      forall j | 0 <= j < |ds| && ds[j].id == id ensures j in ix {
        if j < |p| {
          assert p[j].id == id;
        }
      }
    }
  }

  lemma ImportsNamedStep(ds: seq<ImportDecl>, i: nat, id: string)
    requires i < |ds|
    ensures ImportsNamed(ds[..i + 1], id) == ImportsNamed(ds[..i], id) + if ds[i].id == id then [ds[i]] else []
  {
    assert ds[..i + 1][..i] == ds[..i];
  }

  /** The import descriptor `e` holds what visiting `d` records. */
  predicate DescribesImport(e: ImportDescriptor, d: ImportDecl)
    reads e
  {
    && e.isStatic == d.isStatic && e.isMethod == d.isMethod
    && DescTypes(e.parameters) == (if d.isMethod then ImportParamTypes(d.children) else [])
    && e.returnType == (if d.isMethod then ImportReturnType(d.children, "void") else "")
  }

  /** The group `g` holds one descriptor per declaration of `ds`, in order. */
  predicate ImportsBuilt(g: seq<ImportDescriptor>, ds: seq<ImportDecl>)
    reads g
  {
    |g| == |ds| && forall k :: 0 <= k < |g| ==> DescribesImport(g[k], ds[k])
  }

  lemma ImportsBuiltSnoc(g: seq<ImportDescriptor>, ds: seq<ImportDecl>, e: ImportDescriptor, d: ImportDecl)
    requires ImportsBuilt(g, ds) && DescribesImport(e, d)
    ensures ImportsBuilt(g + [e], ds + [d])
  {
  }

  /** The ordered parameter names, the parameter types and the return type
      a method declaration gives its overload. */
  function SigNames(m: MethodDecl): seq<string>
  {
    if m.RegularMethod? then DeclNames(FirstDecls(m.params)) else [m.argName]
  }

  function SigTypes(m: MethodDecl): seq<string>
  {
    if m.RegularMethod? then DeclTypes(FirstDecls(m.params)) else ["String[]"]
  }

  function SigReturn(m: MethodDecl): string
  {
    if m.RegularMethod? then m.returnType else "void"
  }

  /** What an overload records: return type, ordered parameter names and
      types, and the type of each local. */
  datatype MethodShape = MethodShape(returnType: string, names: seq<string>, types: seq<string>, locals: map<string, string>)

  function Shape(e: MethodDescriptor): MethodShape
    reads e
  {
    MethodShape(e.returnType, ParamNames(e.parameters), ParamTypes(e.parameters), e.LocalTypes())
  }

  /** The method descriptor `e` holds what visiting `m` records. */
  predicate DescribesMethod(e: MethodDescriptor, m: MethodDecl)
    reads e
  {
    Shape(e) == MethodShape(SigReturn(m), SigNames(m), SigTypes(m), DeclMap(m.locals))
  }

  /** The method declarations entered under `id`, in program order. */
  function MethodsNamed(ms: seq<MethodDecl>, id: string): seq<MethodDecl>
  {
    if ms == [] then []
    else MethodsNamed(ms[..|ms| - 1], id) + if MethodKey(ms[|ms| - 1]) == id then [ms[|ms| - 1]] else []
  }

  /** The positions in `ms` of the methods with key `id`, in order. */
  function MethodPositions(ms: seq<MethodDecl>, id: string): seq<nat>
  {
    if ms == [] then []
    else MethodPositions(ms[..|ms| - 1], id) + if MethodKey(ms[|ms| - 1]) == id then [|ms| - 1] else []
  }

  /** Each method in the group is one of `ms` and has the key `id`. */
  lemma {:induction false} MethodsNamedFacts(ms: seq<MethodDecl>, id: string)
    ensures var r := MethodsNamed(ms, id);
            |r| <= |ms| && forall k :: 0 <= k < |r| ==> MethodKey(r[k]) == id && r[k] in ms
  {
    if ms != [] {
      var p := ms[..|ms| - 1];
      MethodsNamedFacts(p, id);
      var r := MethodsNamed(ms, id);
      forall k | 0 <= k < |r| ensures MethodKey(r[k]) == id && r[k] in ms {
        if k < |MethodsNamed(p, id)| {
          assert r[k] == MethodsNamed(p, id)[k];
          var j :| 0 <= j < |p| && p[j] == r[k];
          assert ms[j] == r[k];
        } else {
          assert r[k] == ms[|ms| - 1];
        }
      }
    }
  }

  /** The group under `id` is exactly the methods with that key, in
      program order: its k-th entry is the method at the k-th matching
      position, the positions increase, and every method with the key has
      its position among them. */
  lemma {:induction false} MethodsNamedInOrder(ms: seq<MethodDecl>, id: string)
    ensures var r, ix := MethodsNamed(ms, id), MethodPositions(ms, id);
            && |ix| == |r|
            && (forall k :: 0 <= k < |ix| ==> ix[k] < |ms| && r[k] == ms[ix[k]])
            && (forall k, l :: 0 <= k < l < |ix| ==> ix[k] < ix[l])
            && (forall j :: 0 <= j < |ms| && MethodKey(ms[j]) == id ==> j in ix)
  {
    if ms != [] {
      var p, m := ms[..|ms| - 1], ms[|ms| - 1];
      MethodsNamedInOrder(p, id);
      var r, ix := MethodsNamed(ms, id), MethodPositions(ms, id);
      var rp, ixp := MethodsNamed(p, id), MethodPositions(p, id);
      forall k | 0 <= k < |ix| ensures ix[k] < |ms| && r[k] == ms[ix[k]] {
        if k < |ixp| {
          assert r[k] == rp[k] && ix[k] == ixp[k];
          assert p[ixp[k]] == ms[ixp[k]];
        }
      }
      forall j | 0 <= j < |ms| && MethodKey(ms[j]) == id ensures j in ix {
        if j < |p| {
          assert MethodKey(p[j]) == id;
        }
      }
    }
  }

  lemma MethodsNamedStep(ms: seq<MethodDecl>, i: nat, id: string)
    requires i < |ms|
    ensures MethodsNamed(ms[..i + 1], id) == MethodsNamed(ms[..i], id) + if MethodKey(ms[i]) == id then [ms[i]] else []
  {
    assert ms[..i + 1][..i] == ms[..i];
  }

  predicate MethodsBuilt(g: seq<MethodDescriptor>, ms: seq<MethodDecl>)
    reads g
  {
    |g| == |ms| && forall k :: 0 <= k < |g| ==> DescribesMethod(g[k], ms[k])
  }

  lemma MethodsBuiltSnoc(g: seq<MethodDescriptor>, ms: seq<MethodDecl>, e: MethodDescriptor, m: MethodDecl)
    requires MethodsBuilt(g, ms) && DescribesMethod(e, m)
    ensures MethodsBuilt(g + [e], ms + [m])
  {
  }

  /** Overload compatibility read off the declarations: different ordered
      parameter types, same return type. */
  predicate DeclsCompatible(a: MethodDecl, b: MethodDecl)
  {
    SigTypes(a) != SigTypes(b) && SigReturn(a) == SigReturn(b)
  }

  predicate DeclGroupConsistent(ms: seq<MethodDecl>)
  {
    forall i, j :: 0 <= i < j < |ms| ==> DeclsCompatible(ms[i], ms[j])
  }

  /** A group built from declarations passes the overload check exactly
      when the declarations are pairwise compatible. */
  lemma BuiltGroupConsistent(g: seq<MethodDescriptor>, ms: seq<MethodDecl>)
    requires MethodsBuilt(g, ms)
    ensures MethodGroupConsistent(g) <==> DeclGroupConsistent(ms)
  {
    assert forall i, j :: 0 <= i < j < |ms| ==> (MethodsCompatible(g[i], g[j]) <==> DeclsCompatible(ms[i], ms[j]));
  }

  /** What the builder reports while visiting `m`, before the overload
      check: repeated parameters, then repeated locals. */
  function DeclReports(m: MethodDecl): seq<Diagnostic>
  {
    if m.RegularMethod? then ParamDiags(m.name, m.params) + VarDiags(Some(m.name), m.locals)
    else VarDiags(Some("main"), m.locals)
  }

  /** `chunk` is what visiting `m` reports: `DeclReports(m)`, followed for a
      regular method by one report at its position when `clash` holds. */
  predicate ReportsOf(m: MethodDecl, clash: bool, chunk: seq<Diagnostic>)
  {
    if m.RegularMethod? && clash then
      |chunk| == |DeclReports(m)| + 1 && chunk[..|DeclReports(m)|] == DeclReports(m) && chunk[|DeclReports(m)|].pos == m.pos
    else chunk == DeclReports(m)
  }

  /** Whether the overload check fails for the `i`-th declaration: its
      group, up to and including it, is not pairwise compatible. */
  predicate DeclClash(ms: seq<MethodDecl>, i: nat)
    requires i < |ms|
  {
    !DeclGroupConsistent(MethodsNamed(ms[..i + 1], MethodKey(ms[i])))
  }

  function Flatten(cs: seq<seq<Diagnostic>>): seq<Diagnostic>
  {
    if cs == [] then [] else Flatten(cs[..|cs| - 1]) + cs[|cs| - 1]
  }

  /** `chunks[k]` is what visiting `ms[k]` reports, for every `k`, the
      overload report included exactly when `clashes[k]`. */
  predicate ReportsAll(ms: seq<MethodDecl>, clashes: seq<bool>, chunks: seq<seq<Diagnostic>>)
  {
    |chunks| == |clashes| <= |ms| && forall k :: 0 <= k < |chunks| ==> ReportsOf(ms[k], clashes[k], chunks[k])
  }

  /** `clashes[k]` is whether the overload check fails at the `k`-th
      declaration, read off the declarations alone. */
  predicate ClashesAre(ms: seq<MethodDecl>, clashes: seq<bool>)
  {
    |clashes| <= |ms| && forall k :: 0 <= k < |clashes| ==> clashes[k] == DeclClash(ms, k)
  }

  lemma ReportsSnoc(ms: seq<MethodDecl>, clashes: seq<bool>, chunks: seq<seq<Diagnostic>>, clash: bool, c: seq<Diagnostic>)
    requires |chunks| < |ms|
    requires ReportsAll(ms, clashes, chunks) && ReportsOf(ms[|chunks|], clash, c)
    ensures ReportsAll(ms, clashes + [clash], chunks + [c])
  {
    var cs, bs := chunks + [c], clashes + [clash];
    forall k | 0 <= k < |cs| ensures ReportsOf(ms[k], bs[k], cs[k]) {
      if k < |chunks| {
        assert cs[k] == chunks[k] && bs[k] == clashes[k];
        assert ReportsOf(ms[k], clashes[k], chunks[k]);
      } else {
        assert cs[k] == c && bs[k] == clash;
      }
    }
  }

  lemma ClashesSnoc(ms: seq<MethodDecl>, clashes: seq<bool>, clash: bool)
    requires |clashes| < |ms|
    requires ClashesAre(ms, clashes) && clash == DeclClash(ms, |clashes|)
    ensures ClashesAre(ms, clashes + [clash])
  {
    var bs := clashes + [clash];
    forall k | 0 <= k < |bs| ensures bs[k] == DeclClash(ms, k) {
      if k < |clashes| {
        assert bs[k] == clashes[k];
      } else {
        assert bs[k] == clash;
      }
    }
  }

  lemma FlattenSnoc(base: seq<Diagnostic>, chunks: seq<seq<Diagnostic>>, c: seq<Diagnostic>)
    ensures base + Flatten(chunks) + c == base + Flatten(chunks + [c])
  {
    assert (chunks + [c])[..|chunks|] == chunks;
  }

  class SymbolTableBuilder {
    const table: SymbolTable
    /** The semantic errors printed so far, in order. */
    var diagnostics: seq<Diagnostic>

    constructor ()
      ensures fresh(table) && table.Valid()
      ensures table.className == "" && table.extendedClassName == ""
      ensures table.fields == map[] && table.methods == map[] && table.imports == map[]
      ensures diagnostics == []
    {
      table := new SymbolTable();
      diagnostics := [];
    }

    /** An import node: one new entry with the node's flags; each type child
        becomes a parameter in child order and a return-type child sets the
        return type. Nothing is checked and nothing is reported. */
    method VisitImport(d: ImportDecl) returns (ghost e: ImportDescriptor)
      requires table.Valid()
      modifies table
      ensures table.Valid()
      ensures diagnostics == old(diagnostics)
      ensures table.className == old(table.className) && table.extendedClassName == old(table.extendedClassName)
      ensures table.fields == old(table.fields) && table.methods == old(table.methods)
      ensures table.imports == old(table.imports)[d.id := old(table.ImportGroup(d.id)) + [e]]
      ensures fresh(e) && DescribesImport(e, d)
    {
      table.AddImport(d.id, d.isStatic, d.isMethod);
      e := table.imports[d.id][|table.imports[d.id]| - 1];
      VisitImportChildren(d, e);
    }

    /** `VisitImport`, read against the declarations: when the group under
        the id was built from `prior`, it is now built from `prior + [d]`;
        every other group is built from what it was before. */
    method VisitImportAfter(d: ImportDecl, ghost prior: seq<ImportDecl>, ghost track: bool)
      requires table.Valid()
      requires track ==> ImportsBuilt(table.ImportGroup(d.id), prior)
      modifies table
      ensures table.Valid()
      ensures table.className == old(table.className) && table.extendedClassName == old(table.extendedClassName)
      ensures table.fields == old(table.fields) && table.methods == old(table.methods)
      ensures table.imports.Keys == old(table.imports.Keys) + {d.id}
      ensures track ==> ImportsBuilt(table.ImportGroup(d.id), prior + [d])
      ensures forall id, ds :: id != d.id && old(ImportsBuilt(table.ImportGroup(id), ds)) ==> ImportsBuilt(table.ImportGroup(id), ds)
    {
      ghost var g := table.ImportGroup(d.id);
      ghost var e := VisitImport(d);
      if track {
        assert old(ImportsBuilt(g, prior));
        ImportsBuiltSnoc(g, prior, e, d);
      }
      forall id, ds | id != d.id && old(ImportsBuilt(table.ImportGroup(id), ds)) ensures ImportsBuilt(table.ImportGroup(id), ds) {
        assert table.ImportGroup(id) == old(table.ImportGroup(id));
      }
    }

    /** The type children of an import node, in order, into the last entry
        of its group: each parameter type is appended, and each return type
        replaces the previous one. */
    method VisitImportChildren(d: ImportDecl, ghost e: ImportDescriptor)
      requires table.Valid() && d.id in table.imports && e == table.imports[d.id][|table.imports[d.id]| - 1]
      requires e.parameters == [] && e.returnType == (if e.isMethod then "void" else "")
      modifies e
      ensures DescTypes(e.parameters) == (if e.isMethod then ImportParamTypes(d.children) else [])
      ensures e.returnType == (if e.isMethod then ImportReturnType(d.children, "void") else "")
    {
      var i := 0;
      while i < |d.children|
        invariant 0 <= i <= |d.children|
        invariant DescTypes(e.parameters) == (if e.isMethod then ImportParamTypes(d.children[..i]) else [])
        invariant e.isMethod ==> e.returnType == ImportReturnType(d.children[..i], "void")
        invariant !e.isMethod ==> e.returnType == ""
        modifies e
      {
        assert d.children[..i + 1] == d.children[..i] + [d.children[i]];
        ImportChildStep(d.children[..i], d.children[i]);
        VisitImportChild(d.id, d.children[i], e);
        i := i + 1;
      }
      assert d.children[..i] == d.children;
    }

    /** One type child of an import node, applied to the last entry of its
        group; an entry that is not a method ignores it. */
    method VisitImportChild(id: string, c: ImportChild, ghost e: ImportDescriptor)
      requires table.Valid() && id in table.imports && e == table.imports[id][|table.imports[id]| - 1]
      modifies e
      ensures DescTypes(e.parameters) == DescTypes(old(e.parameters)) + (if e.isMethod && c.ParamType? then [c.t] else [])
      ensures e.returnType == (if e.isMethod && c.ReturnType? then c.t else old(e.returnType))
    {
      ghost var before := e.parameters;
      match c {
        case ParamType(t) =>
          table.AddImportParameter(id, t);
          if e.isMethod {
            assert e.parameters == before + [e.parameters[|before|]];
          }
        case ReturnType(t) =>
          table.SetImportReturnType(id, t);
      }
    }

    /** A field declaration: a new, uninitialised field, or a reported
        duplicate that leaves the table as it was. */
    method VisitField(v: VarDecl)
      requires table.Valid()
      modifies this, table
      ensures table.Valid()
      ensures table.className == old(table.className) && table.extendedClassName == old(table.extendedClassName)
      ensures table.methods == old(table.methods) && table.imports == old(table.imports)
      ensures v.name in old(table.fields) ==>
                && table.fields == old(table.fields)
                && diagnostics == old(diagnostics) + [Diagnostic(AlreadyDefined(v.name), v.pos)]
      ensures v.name !in old(table.fields) ==>
                && v.name in table.fields
                && table.fields == old(table.fields)[v.name := table.fields[v.name]]
                && table.fields[v.name].dataType == v.varType
                && !table.fields[v.name].initialised
                && diagnostics == old(diagnostics)
      ensures table.FieldTypes()
              == if v.name in old(table.fields) then old(table.FieldTypes()) else old(table.FieldTypes())[v.name := v.varType]
    {
      var r := table.AddVariable(v.name, v.varType);
      if r.Fail? {
        diagnostics := diagnostics + [Diagnostic(r.error, v.pos)];
      }
    }

    /** A local declaration inside `methodName`: added to its last overload,
        or a reported duplicate that leaves that overload as it was. */
    method VisitLocal(methodName: string, v: VarDecl, ghost md: MethodDescriptor)
      requires table.Valid() && methodName in table.methods && md == table.LastMethod(methodName)
      modifies this, md
      ensures && md.parameters == old(md.parameters)
              && md.LocalTypes() == (if v.name in old(md.locals) then old(md.LocalTypes())
                                     else old(md.LocalTypes())[v.name := v.varType])
              && diagnostics == old(diagnostics)
                 + (if v.name in old(md.locals)
                    then [Diagnostic(InMethod(AlreadyDefined(v.name), methodName), v.pos)]
                    else [])
    {
      var r := table.AddMethodVariable(methodName, v.name, v.varType);
      if r.Fail? {
        diagnostics := diagnostics + [Diagnostic(r.error, v.pos)];
      }
    }

    /** A variable declaration node: a field when there is no enclosing
        method, otherwise a local of that method. Either way a repeated name
        is reported and the first declaration kept. */
    method VisitVarDeclaration(v: VarDecl, context: Option<string>)
      requires table.Valid()
      requires context.Some? ==> context.value in table.methods
      modifies this, table, if context.Some? then {table.LastMethod(context.value)} else {}
      ensures table.Valid()
      ensures table.className == old(table.className) && table.extendedClassName == old(table.extendedClassName)
      ensures table.methods == old(table.methods) && table.imports == old(table.imports)
      ensures context.None? ==>
                && table.fields.Keys == old(table.fields.Keys) + {v.name}
                && (v.name in old(table.fields) <==> |diagnostics| == |old(diagnostics)| + 1)
      ensures context.Some? ==>
                var md := table.LastMethod(context.value);
                && table.fields == old(table.fields)
                && md.locals.Keys == old(md.locals.Keys) + {v.name}
                && (v.name in old(md.locals) <==> |diagnostics| == |old(diagnostics)| + 1)
      ensures context.None? ==>
                && table.FieldTypes()
                   == (if v.name in old(table.fields) then old(table.FieldTypes()) else old(table.FieldTypes())[v.name := v.varType])
                && diagnostics == old(diagnostics)
                   + (if v.name in old(table.fields) then [Diagnostic(Scoped(AlreadyDefined(v.name), context), v.pos)] else [])
      ensures context.Some? ==>
                var md := table.LastMethod(context.value);
                && md.parameters == old(md.parameters)
                && md.LocalTypes()
                   == (if v.name in old(md.locals) then old(md.LocalTypes()) else old(md.LocalTypes())[v.name := v.varType])
                && diagnostics == old(diagnostics)
                   + (if v.name in old(md.locals) then [Diagnostic(Scoped(AlreadyDefined(v.name), context), v.pos)] else [])
    {
      if context.None? {
        VisitField(v);
      } else {
        VisitLocal(context.value, v, table.LastMethod(context.value));
      }
    }

    /** A parameter of the method being declared, added to its last overload. */
    method VisitMethodParam(methodName: string, p: VarDecl, ghost md: MethodDescriptor)
      requires table.Valid() && methodName in table.methods && md == table.LastMethod(methodName)
      modifies this, md
      ensures var dup := p.name in old(ParamNames(md.parameters));
              && md.locals == old(md.locals)
              && ParamNames(md.parameters) == old(ParamNames(md.parameters)) + (if dup then [] else [p.name])
              && ParamTypes(md.parameters) == old(ParamTypes(md.parameters)) + (if dup then [] else [p.varType])
              && diagnostics == old(diagnostics)
                 + (if dup
                    then [Diagnostic(InMethod(InUse(p.name), methodName), p.pos)]
                    else [])
    {
      ghost var before := md.parameters;
      var r := table.AddMethodParameter(methodName, p.name, p.varType);
      if r.Fail? {
        diagnostics := diagnostics + [Diagnostic(r.error, p.pos)];
      } else {
        ParamsSnoc(before, md.parameters[|before|]);
      }
    }

    /** The parameter children of a method, in order, into its new overload:
        the first parameter of each name is kept and every repeat reported. */
    method VisitParams(methodName: string, ps: seq<VarDecl>, ghost md: MethodDescriptor)
      requires table.Valid() && methodName in table.methods && md == table.LastMethod(methodName)
      requires md.parameters == []
      modifies this, md
      ensures md.locals == old(md.locals)
      ensures ParamNames(md.parameters) == DeclNames(FirstDecls(ps))
      ensures ParamTypes(md.parameters) == DeclTypes(FirstDecls(ps))
      ensures diagnostics == old(diagnostics) + ParamDiags(methodName, ps)
    {
      var i := 0;
      while i < |ps|
        invariant 0 <= i <= |ps|
        invariant md.locals == old(md.locals)
        invariant ParamNames(md.parameters) == DeclNames(FirstDecls(ps[..i]))
        invariant ParamTypes(md.parameters) == DeclTypes(FirstDecls(ps[..i]))
        invariant diagnostics == old(diagnostics) + ParamDiags(methodName, ps[..i])
        modifies this, md
      {
        ParamStep(methodName, ps, i, old(diagnostics), md);
        i := i + 1;
      }
      assert ps[..i] == ps;
    }

    /** One step of `VisitParams`: the parameter at index `i`. */
    method ParamStep(methodName: string, ps: seq<VarDecl>, i: nat, ghost base: seq<Diagnostic>, ghost md: MethodDescriptor)
      requires table.Valid() && methodName in table.methods && i < |ps| && md == table.LastMethod(methodName)
      requires ParamNames(md.parameters) == DeclNames(FirstDecls(ps[..i]))
      requires ParamTypes(md.parameters) == DeclTypes(FirstDecls(ps[..i]))
      requires diagnostics == base + ParamDiags(methodName, ps[..i])
      modifies this, md
      ensures md.locals == old(md.locals)
      ensures ParamNames(md.parameters) == DeclNames(FirstDecls(ps[..i + 1]))
      ensures ParamTypes(md.parameters) == DeclTypes(FirstDecls(ps[..i + 1]))
      ensures diagnostics == base + ParamDiags(methodName, ps[..i + 1])
    {
      ParamStepFacts(methodName, ps, i);
      ghost var dup := ps[i].name in DeclNames(FirstDecls(ps[..i]));
      ghost var x := if dup then [Diagnostic(InMethod(InUse(ps[i].name), methodName), ps[i].pos)] else [];
      assert base + ParamDiags(methodName, ps[..i]) + x == base + (ParamDiags(methodName, ps[..i]) + x);
      assert base + ParamDiags(methodName, ps[..i + 1]) == diagnostics + x;
      VisitMethodParam(methodName, ps[i], md);
    }

    /** The local declarations of a method, in order, into its new overload:
        the first local of each name is kept and every repeat reported. */
    method VisitLocals(methodName: string, vs: seq<VarDecl>, ghost md: MethodDescriptor)
      requires table.Valid() && methodName in table.methods && md == table.LastMethod(methodName)
      requires md.locals == map[]
      modifies this, md
      ensures md.parameters == old(md.parameters)
      ensures md.LocalTypes() == DeclMap(vs)
      ensures diagnostics == old(diagnostics) + VarDiags(Some(methodName), vs)
    {
      var i := 0;
      while i < |vs|
        invariant 0 <= i <= |vs|
        invariant md.parameters == old(md.parameters)
        invariant md.LocalTypes() == DeclMap(vs[..i])
        invariant diagnostics == old(diagnostics) + VarDiags(Some(methodName), vs[..i])
        modifies this, md
      {
        LocalStep(methodName, vs, i, old(diagnostics), md);
        i := i + 1;
      }
      assert vs[..i] == vs;
    }

    /** One step of `VisitLocals`: the local at index `i`. */
    method LocalStep(methodName: string, vs: seq<VarDecl>, i: nat, ghost base: seq<Diagnostic>, ghost md: MethodDescriptor)
      requires table.Valid() && methodName in table.methods && i < |vs| && md == table.LastMethod(methodName)
      requires md.LocalTypes() == DeclMap(vs[..i])
      requires diagnostics == base + VarDiags(Some(methodName), vs[..i])
      modifies this, md
      ensures md.parameters == old(md.parameters)
      ensures md.LocalTypes() == DeclMap(vs[..i + 1])
      ensures diagnostics == base + VarDiags(Some(methodName), vs[..i + 1])
    {
      DeclStepFacts(Some(methodName), vs, i);
      assert vs[i].name in md.locals <==> vs[i].name in DeclMap(vs[..i]) by {
        assert md.locals.Keys == md.LocalTypes().Keys;
      }
      ghost var x := if vs[i].name in DeclMap(vs[..i])
                     then [Diagnostic(InMethod(AlreadyDefined(vs[i].name), methodName), vs[i].pos)] else [];
      assert base + VarDiags(Some(methodName), vs[..i]) + x == base + (VarDiags(Some(methodName), vs[..i]) + x);
      VisitLocal(methodName, vs[i], md);
    }

    /** A regular method: a new overload, its parameters and locals, then the
        overload check over every method of that name, reported at the
        method's position when it fails. */
    method VisitRegularMethod(m: MethodDecl) returns (ghost md: MethodDescriptor, ghost chunk: seq<Diagnostic>)
      requires m.RegularMethod? && table.Valid()
      modifies this, table
      ensures table.Valid()
      ensures table.className == old(table.className) && table.extendedClassName == old(table.extendedClassName)
      ensures table.fields == old(table.fields) && table.imports == old(table.imports)
      ensures table.methods == old(table.methods)[m.name := old(table.MethodGroup(m.name)) + [md]]
      ensures fresh(md) && DescribesMethod(md, m)
      ensures diagnostics == old(diagnostics) + chunk
      ensures ReportsOf(m, !MethodGroupConsistent(table.methods[m.name]), chunk)
    {
      md := DeclareMethod(m);
      chunk := DeclReports(m);
      var r := CheckOverloads(m.name);
      if r.Fail? {
        diagnostics := diagnostics + [Diagnostic(r.error, m.pos)];
        chunk := chunk + [Diagnostic(r.error, m.pos)];
      }
    }

    /** The overload check, of which only the verdict matters here. */
    method CheckOverloads(id: string) returns (r: Outcome)
      requires id in table.methods
      ensures r == Pass <==> MethodGroupConsistent(table.methods[id])
    {
      r := table.CheckEqualMethods(id);
    }

    /** The part of `VisitRegularMethod` before the overload check. */
    method DeclareMethod(m: MethodDecl) returns (ghost md: MethodDescriptor)
      requires m.RegularMethod? && table.Valid()
      modifies this, table
      ensures table.Valid()
      ensures table.className == old(table.className) && table.extendedClassName == old(table.extendedClassName)
      ensures table.fields == old(table.fields) && table.imports == old(table.imports)
      ensures table.methods == old(table.methods)[m.name := old(table.MethodGroup(m.name)) + [md]]
      ensures fresh(md) && DescribesMethod(md, m)
      ensures diagnostics == old(diagnostics) + DeclReports(m)
    {
      table.AddMethod(m.name, m.returnType);
      md := table.LastMethod(m.name);
      VisitParams(m.name, m.params, md);
      VisitLocals(m.name, m.locals, md);
      assert old(diagnostics) + ParamDiags(m.name, m.params) + VarDiags(Some(m.name), m.locals)
          == old(diagnostics) + DeclReports(m);
    }

    /** `main`: an overload of return type "void" whose one parameter has type
        "String[]", then its locals; no overload check is made. */
    method VisitMainMethod(m: MethodDecl) returns (ghost md: MethodDescriptor)
      requires m.MainMethod? && table.Valid()
      modifies this, table
      ensures table.Valid()
      ensures table.className == old(table.className) && table.extendedClassName == old(table.extendedClassName)
      ensures table.fields == old(table.fields) && table.imports == old(table.imports)
      ensures table.methods == old(table.methods)["main" := old(table.MethodGroup("main")) + [md]]
      ensures fresh(md) && md.returnType == "void"
      ensures ParamNames(md.parameters) == [m.argName] && ParamTypes(md.parameters) == ["String[]"]
      ensures md.LocalTypes() == DeclMap(m.locals)
      ensures diagnostics == old(diagnostics) + VarDiags(Some("main"), m.locals)
    {
      table.AddMethod("main", "void");
      md := table.LastMethod("main");
      VisitMethodParam("main", VarDecl(m.argName, "String[]", m.argPos), md);
      VisitLocals("main", m.locals, md);
    }

    /** The import nodes of a program, in order. Into a table without
        imports, each group holds one descriptor per import of that name, in
        program order. */
    method VisitImports(ds: seq<ImportDecl>)
      requires table.Valid()
      modifies table
      ensures table.Valid()
      ensures table.className == old(table.className) && table.extendedClassName == old(table.extendedClassName)
      ensures table.fields == old(table.fields) && table.methods == old(table.methods)
      ensures table.imports.Keys == old(table.imports.Keys) + ImportIds(ds)
      ensures old(table.imports) == map[] ==> forall id :: ImportsBuilt(table.ImportGroup(id), ImportsNamed(ds, id))
    {
      ghost var empty := table.imports == map[];
      var i := 0;
      while i < |ds|
        invariant 0 <= i <= |ds|
        invariant table.Valid()
        invariant table.className == old(table.className) && table.extendedClassName == old(table.extendedClassName)
        invariant table.fields == old(table.fields) && table.methods == old(table.methods)
        invariant table.imports.Keys == old(table.imports.Keys) + ImportIds(ds[..i])
        invariant empty ==> forall id :: ImportsBuilt(table.ImportGroup(id), ImportsNamed(ds[..i], id))
      {
        ImportIdsStep(ds, i);
        ImportStep(ds, i, empty);
        i := i + 1;
      }
      assert ds[..i] == ds;
    }

    /** One step of `VisitImports`: the import at index `i`. */
    method ImportStep(ds: seq<ImportDecl>, i: nat, ghost empty: bool)
      requires table.Valid() && i < |ds|
      requires empty ==> forall id :: ImportsBuilt(table.ImportGroup(id), ImportsNamed(ds[..i], id))
      modifies table
      ensures table.Valid()
      ensures table.className == old(table.className) && table.extendedClassName == old(table.extendedClassName)
      ensures table.fields == old(table.fields) && table.methods == old(table.methods)
      ensures table.imports.Keys == old(table.imports.Keys) + {ds[i].id}
      ensures empty ==> forall id :: ImportsBuilt(table.ImportGroup(id), ImportsNamed(ds[..i + 1], id))
    {
      VisitImportAfter(ds[i], ImportsNamed(ds[..i], ds[i].id), empty);
      forall id | empty ensures ImportsBuilt(table.ImportGroup(id), ImportsNamed(ds[..i + 1], id)) {
        ImportsNamedStep(ds, i, id);
      }
    }

    /** The field declarations of the class, in order. Into a table without
        fields, as when the class is visited, each name gets the type of its
        first declaration and every repeat is reported. */
    method VisitFields(vs: seq<VarDecl>)
      requires table.Valid()
      modifies this, table
      ensures table.Valid()
      ensures table.className == old(table.className) && table.extendedClassName == old(table.extendedClassName)
      ensures table.methods == old(table.methods) && table.imports == old(table.imports)
      ensures table.fields.Keys == old(table.fields.Keys) + NameSet(vs)
      ensures old(table.fields) == map[] ==>
                table.FieldTypes() == DeclMap(vs) && diagnostics == old(diagnostics) + VarDiags(None, vs)
    {
      ghost var empty := table.fields == map[];
      var i := 0;
      while i < |vs|
        invariant 0 <= i <= |vs|
        invariant table.Valid()
        invariant table.className == old(table.className) && table.extendedClassName == old(table.extendedClassName)
        invariant table.methods == old(table.methods) && table.imports == old(table.imports)
        invariant table.fields.Keys == old(table.fields.Keys) + NameSet(vs[..i])
        invariant empty ==> table.FieldTypes() == DeclMap(vs[..i]) && diagnostics == old(diagnostics) + VarDiags(None, vs[..i])
      {
        FieldStep(vs, i, empty, old(diagnostics));
        i := i + 1;
      }
      assert vs[..i] == vs;
    }

    /** One step of `VisitFields`: the field at index `i`. */
    method FieldStep(vs: seq<VarDecl>, i: nat, ghost empty: bool, ghost base: seq<Diagnostic>)
      requires table.Valid() && i < |vs|
      requires empty ==> table.FieldTypes() == DeclMap(vs[..i]) && diagnostics == base + VarDiags(None, vs[..i])
      modifies this, table
      ensures table.Valid()
      ensures table.className == old(table.className) && table.extendedClassName == old(table.extendedClassName)
      ensures table.methods == old(table.methods) && table.imports == old(table.imports)
      ensures table.fields.Keys == old(table.fields.Keys) + {vs[i].name}
      ensures empty ==> table.FieldTypes() == DeclMap(vs[..i + 1]) && diagnostics == base + VarDiags(None, vs[..i + 1])
    {
      DeclStepFacts(None, vs, i);
      ghost var x := if vs[i].name in DeclMap(vs[..i]) then [Diagnostic(AlreadyDefined(vs[i].name), vs[i].pos)] else [];
      assert base + VarDiags(None, vs[..i]) + x == base + (VarDiags(None, vs[..i]) + x);
      VisitField(vs[i]);
    }

    /** A method node of either kind: one new overload under its key, and
        what `ReportsOf` describes, where the overload check fails exactly
        when the group is not consistent. */
    method VisitMethod(m: MethodDecl) returns (ghost e: MethodDescriptor, ghost chunk: seq<Diagnostic>, ghost clash: bool)
      requires table.Valid()
      modifies this, table
      ensures table.Valid()
      ensures table.className == old(table.className) && table.extendedClassName == old(table.extendedClassName)
      ensures table.fields == old(table.fields) && table.imports == old(table.imports)
      ensures table.methods == old(table.methods)[MethodKey(m) := old(table.MethodGroup(MethodKey(m))) + [e]]
      ensures fresh(e) && DescribesMethod(e, m)
      ensures diagnostics == old(diagnostics) + chunk
      ensures clash == !MethodGroupConsistent(table.MethodGroup(MethodKey(m))) && ReportsOf(m, clash, chunk)
    {
      if m.RegularMethod? {
        e, chunk := VisitRegularMethod(m);
      } else {
        e := VisitMainMethod(m);
        chunk := DeclReports(m);
      }
      clash := !MethodGroupConsistent(table.methods[MethodKey(m)]);
    }

    /** `VisitMethod`, read against the declarations: when the group under
        the key was built from `prior`, it is now built from `prior + [m]`,
        and the overload check fails exactly when those are not pairwise
        compatible; every other group is built from what it was before. */
    method VisitMethodAfter(m: MethodDecl, ghost prior: seq<MethodDecl>, ghost track: bool) returns (ghost chunk: seq<Diagnostic>, ghost clash: bool)
      requires table.Valid()
      requires track ==> MethodsBuilt(table.MethodGroup(MethodKey(m)), prior)
      modifies this, table
      ensures table.Valid()
      ensures table.className == old(table.className) && table.extendedClassName == old(table.extendedClassName)
      ensures table.fields == old(table.fields) && table.imports == old(table.imports)
      ensures table.methods.Keys == old(table.methods.Keys) + {MethodKey(m)}
      ensures diagnostics == old(diagnostics) + chunk
      ensures ReportsOf(m, clash, chunk)
      ensures track ==> MethodsBuilt(table.MethodGroup(MethodKey(m)), prior + [m]) && (clash <==> !DeclGroupConsistent(prior + [m]))
      ensures forall id, ds :: id != MethodKey(m) && old(MethodsBuilt(table.MethodGroup(id), ds)) ==> MethodsBuilt(table.MethodGroup(id), ds)
    {
      ghost var g := table.MethodGroup(MethodKey(m));
      ghost var e;
      e, chunk, clash := VisitMethod(m);
      if track {
        assert old(MethodsBuilt(g, prior));
        MethodsBuiltSnoc(g, prior, e, m);
        BuiltGroupConsistent(table.MethodGroup(MethodKey(m)), prior + [m]);
      }
      forall id, ds | id != MethodKey(m) && old(MethodsBuilt(table.MethodGroup(id), ds)) ensures MethodsBuilt(table.MethodGroup(id), ds) {
        assert table.MethodGroup(id) == old(table.MethodGroup(id));
      }
    }

    /** The method declarations of the class, in order; `chunks[i]` is what
        visiting the `i`-th reports. Into a table without methods, each
        group holds one descriptor per declaration under its key, in
        program order, and a regular method's overload check fails exactly
        when the declarations of its group so far are not pairwise
        compatible. */
    method VisitMethods(ms: seq<MethodDecl>) returns (ghost clashes: seq<bool>, ghost chunks: seq<seq<Diagnostic>>)
      requires table.Valid()
      modifies this, table
      ensures table.Valid()
      ensures table.className == old(table.className) && table.extendedClassName == old(table.extendedClassName)
      ensures table.fields == old(table.fields) && table.imports == old(table.imports)
      ensures table.methods.Keys == old(table.methods.Keys) + MethodNames(ms)
      ensures |chunks| == |ms| && diagnostics == old(diagnostics) + Flatten(chunks)
      ensures ReportsAll(ms, clashes, chunks)
      ensures old(table.methods) == map[] ==>
                && (forall id :: MethodsBuilt(table.MethodGroup(id), MethodsNamed(ms, id)))
                && ClashesAre(ms, clashes)
    {
      ghost var empty := table.methods == map[];
      clashes, chunks := [], [];
      var i := 0;
      while i < |ms|
        invariant 0 <= i <= |ms| && |chunks| == i
        invariant table.Valid()
        invariant table.className == old(table.className) && table.extendedClassName == old(table.extendedClassName)
        invariant table.fields == old(table.fields) && table.imports == old(table.imports)
        invariant table.methods.Keys == old(table.methods.Keys) + MethodNames(ms[..i])
        invariant diagnostics == old(diagnostics) + Flatten(chunks)
        invariant ReportsAll(ms, clashes, chunks)
        invariant empty ==> forall id :: MethodsBuilt(table.MethodGroup(id), MethodsNamed(ms[..i], id))
        invariant empty ==> ClashesAre(ms, clashes)
      {
        MethodNamesStep(ms, i);
        ghost var c, clash := MethodStep(ms, i, empty);
        ReportsSnoc(ms, clashes, chunks, clash, c);
        if empty { ClashesSnoc(ms, clashes, clash); }
        FlattenSnoc(old(diagnostics), chunks, c);
        clashes, chunks := clashes + [clash], chunks + [c];
        i := i + 1;
      }
      assert ms[..i] == ms;
    }

    /** One step of `VisitMethods`: the method at index `i`. */
    method MethodStep(ms: seq<MethodDecl>, i: nat, ghost empty: bool) returns (ghost chunk: seq<Diagnostic>, ghost clash: bool)
      requires table.Valid() && i < |ms|
      requires empty ==> forall id :: MethodsBuilt(table.MethodGroup(id), MethodsNamed(ms[..i], id))
      modifies this, table
      ensures table.Valid()
      ensures table.className == old(table.className) && table.extendedClassName == old(table.extendedClassName)
      ensures table.fields == old(table.fields) && table.imports == old(table.imports)
      ensures table.methods.Keys == old(table.methods.Keys) + {MethodKey(ms[i])}
      ensures diagnostics == old(diagnostics) + chunk
      ensures ReportsOf(ms[i], clash, chunk)
      ensures empty ==> clash == DeclClash(ms, i)
      ensures empty ==> forall id :: MethodsBuilt(table.MethodGroup(id), MethodsNamed(ms[..i + 1], id))
    {
      var key := MethodKey(ms[i]);
      chunk, clash := VisitMethodAfter(ms[i], MethodsNamed(ms[..i], key), empty);
      forall id | empty ensures MethodsBuilt(table.MethodGroup(id), MethodsNamed(ms[..i + 1], id)) {
        MethodsNamedStep(ms, i, id);
      }
      if empty {
        MethodsNamedStep(ms, i, key);
      }
    }

    /** `buildSymbolTable`: imports, then fields, then methods, in program
        order. The class and superclass names are not recorded. Into an
        empty table, as the builder is constructed, the result is what
        `VisitImports`, `VisitFields` and `VisitMethods` describe. */
    method Build(p: Program) returns (ghost clashes: seq<bool>, ghost chunks: seq<seq<Diagnostic>>)
      requires table.Valid()
      modifies this, table
      ensures table.Valid()
      ensures table.className == old(table.className) && table.extendedClassName == old(table.extendedClassName)
      ensures table.imports.Keys == old(table.imports.Keys) + ImportIds(p.imports)
      ensures table.fields.Keys == old(table.fields.Keys) + NameSet(p.cls.fields)
      ensures table.methods.Keys == old(table.methods.Keys) + MethodNames(p.cls.methods)
      ensures |chunks| == |p.cls.methods| && ReportsAll(p.cls.methods, clashes, chunks)
      ensures old(table.imports) == map[] ==> forall id :: ImportsBuilt(table.ImportGroup(id), ImportsNamed(p.imports, id))
      ensures old(table.fields) == map[] ==>
                && table.FieldTypes() == DeclMap(p.cls.fields)
                && diagnostics == old(diagnostics) + VarDiags(None, p.cls.fields) + Flatten(chunks)
      ensures old(table.methods) == map[] ==>
                && (forall id :: MethodsBuilt(table.MethodGroup(id), MethodsNamed(p.cls.methods, id)))
                && ClashesAre(p.cls.methods, clashes)
    {
      VisitImports(p.imports);
      VisitFields(p.cls.fields);
      clashes, chunks := VisitMethods(p.cls.methods);
    }
  }
}
