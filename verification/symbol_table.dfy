/** The symbol table of one compilation unit: the class and superclass
    names, the fields, and the overload groups of declared methods and of
    imported members, each group in insertion order. */
module Symbols {
  import opened Wrappers
  import opened Text
  import opened Descriptors

  /** Two overloads may coexist: different ordered parameter types, same
      return type. */
  predicate MethodsCompatible(a: MethodDescriptor, b: MethodDescriptor)
    reads a, b
  {
    ParamTypes(a.parameters) != ParamTypes(b.parameters) && a.returnType == b.returnType
  }

  predicate ImportsCompatible(a: ImportDescriptor, b: ImportDescriptor)
    reads a, b
  {
    DescTypes(a.parameters) != DescTypes(b.parameters) && a.returnType == b.returnType
  }

  /** Every pair of overloads in the group is compatible. */
  predicate MethodGroupConsistent(g: seq<MethodDescriptor>)
    reads g
  {
    forall i, j :: 0 <= i < j < |g| ==> MethodsCompatible(g[i], g[j])
  }

  predicate ImportGroupConsistent(g: seq<ImportDescriptor>)
    reads g
  {
    forall i, j :: 0 <= i < j < |g| ==> ImportsCompatible(g[i], g[j])
  }

  /** Every pair (a, b), a < b, that comes before (i, j) in the order the
      pairs are checked, first by a then by b, is compatible. */
  predicate MethodsCompatibleBefore(g: seq<MethodDescriptor>, i: int, j: int)
    reads g
  {
    forall a, b :: 0 <= a < b < |g| && (a < i || (a == i && b < j)) ==> MethodsCompatible(g[a], g[b])
  }

  predicate ImportsCompatibleBefore(g: seq<ImportDescriptor>, i: int, j: int)
    reads g
  {
    forall a, b :: 0 <= a < b < |g| && (a < i || (a == i && b < j)) ==> ImportsCompatible(g[a], g[b])
  }

  /** Index of the first overload whose ordered parameter types equal `ts`;
      `|g|` when there is none. */
  function FirstMethod(g: seq<MethodDescriptor>, ts: seq<string>): (k: nat)
    reads g
    ensures k <= |g|
    ensures k < |g| ==> ParamTypes(g[k].parameters) == ts
    ensures forall j :: 0 <= j < k ==> ParamTypes(g[j].parameters) != ts
  {
    if g == [] then 0
    else if ParamTypes(g[0].parameters) == ts then 0
    else 1 + FirstMethod(g[1..], ts)
  }

  function FirstImport(g: seq<ImportDescriptor>, ts: seq<string>): (k: nat)
    reads g
    ensures k <= |g|
    ensures k < |g| ==> DescTypes(g[k].parameters) == ts
    ensures forall j :: 0 <= j < k ==> DescTypes(g[j].parameters) != ts
  {
    if g == [] then 0
    else if DescTypes(g[0].parameters) == ts then 0
    else 1 + FirstImport(g[1..], ts)
  }

  /** The imports of a group that are methods, in their original order. */
  function MethodImports(g: seq<ImportDescriptor>): (f: seq<ImportDescriptor>)
    ensures |f| <= |g|
    ensures forall i :: 0 <= i < |f| ==> f[i] in g && f[i].isMethod
    ensures forall i :: 0 <= i < |g| && g[i].isMethod ==> g[i] in f
  {
    if g == [] then []
    else if g[0].isMethod then [g[0]] + MethodImports(g[1..])
    else MethodImports(g[1..])
  }

  /** A non-method import appended to a group changes nothing that the
      overload check looks at. */
  lemma {:induction false} MethodImportsSkipNonMethods(g: seq<ImportDescriptor>, d: ImportDescriptor)
    requires !d.isMethod
    ensures MethodImports(g + [d]) == MethodImports(g)
  {
    if g == [] {
      assert g + [d] == [d];
      assert MethodImports([d]) == MethodImports([d][1..]);
    } else {
      assert (g + [d])[1..] == g[1..] + [d];
      MethodImportsSkipNonMethods(g[1..], d);
    }
  }

  /** Appending an import to a group appends it to the checked list exactly
      when it is a method, so the list keeps the group's order and
      multiplicity. */
  lemma {:induction false} MethodImportsSnoc(g: seq<ImportDescriptor>, d: ImportDescriptor)
    ensures MethodImports(g + [d]) == MethodImports(g) + (if d.isMethod then [d] else [])
  {
    if g == [] {
      assert g + [d] == [d];
      assert MethodImports([d]) == (if d.isMethod then [d] else []) + MethodImports([d][1..]);
    } else {
      assert (g + [d])[1..] == g[1..] + [d];
      MethodImportsSnoc(g[1..], d);
    }
  }

  /** A failure message qualified by the method or import it arose in. */
  function InMethod(msg: string, id: string): string { msg + " in method '" + id + "'" }
  function InImport(msg: string, id: string): string { msg + " in import '" + id + "'" }

  /** The message of a failed method or import lookup. */
  function MethodNotDefined(id: string, ts: seq<string>): string
  {
    "Method '" + id + "(" + Join(", ", ts) + ")' not defined"
  }

  class SymbolTable {
    var className: string
    var extendedClassName: string
    var fields: map<string, VariableDescriptor>
    var methods: map<string, seq<MethodDescriptor>>
    var imports: map<string, seq<ImportDescriptor>>

    /** A group exists only once something has been added to it. */
    ghost predicate Valid()
      reads this
    {
      && (forall n :: n in methods ==> methods[n] != [])
      && (forall n :: n in imports ==> imports[n] != [])
    }

    /** Every descriptor object the table reaches. */
    ghost function Repr(): set<object>
      reads this
    {
      {this}
      + (set n, m | n in methods && m in methods[n] :: m as object)
      + (set n, d | n in imports && d in imports[n] :: d as object)
    }

    /** The declared type of each field. */
    function FieldTypes(): (m: map<string, string>)
      reads this
      ensures m.Keys == fields.Keys
      ensures forall n :: n in m ==> m[n] == fields[n].dataType
    {
      map n | n in fields :: fields[n].dataType
    }

    function MethodGroup(id: string): seq<MethodDescriptor>
      reads this
    {
      if id in methods then methods[id] else []
    }

    function ImportGroup(id: string): seq<ImportDescriptor>
      reads this
    {
      if id in imports then imports[id] else []
    }

    /** The overload that parameters and locals are added to: the last one
        declared under `id`. */
    function LastMethod(id: string): MethodDescriptor
      requires Valid() && id in methods
      reads this
    {
      methods[id][|methods[id]| - 1]
    }

    constructor ()
      ensures Valid()
      ensures className == "" && extendedClassName == ""
      ensures fields == map[] && methods == map[] && imports == map[]
    {
      className := "";
      extendedClassName := "";
      fields := map[];
      methods := map[];
      imports := map[];
    }

    /** `lookupAttribute`: the stored field, or "not defined". */
    function LookupAttribute(id: string): (r: Result<VariableDescriptor>)
      reads this
      ensures r.Ok? <==> id in fields
      ensures r.Ok? ==> r.value == fields[id]
      ensures r.Err? ==> r.error == NotDefined(id)
    {
      if id !in fields then Err(NotDefined(id)) else Ok(fields[id])
    }

    /** `lookupMethod`: the first overload whose ordered parameter types are
        exactly `ts`. */
    method LookupMethod(id: string, ts: seq<string>) returns (r: Result<MethodDescriptor>)
      ensures r.Ok? <==> exists i :: 0 <= i < |MethodGroup(id)| && ParamTypes(MethodGroup(id)[i].parameters) == ts
      ensures r.Ok? ==> FirstMethod(MethodGroup(id), ts) < |MethodGroup(id)|
                        && r.value == MethodGroup(id)[FirstMethod(MethodGroup(id), ts)]
      ensures r.Err? ==> r.error == MethodNotDefined(id, ts)
    {
      if id !in methods {
        return Err(MethodNotDefined(id, ts));
      }
      var g := methods[id];
      var i := 0;
      while i < |g|
        invariant 0 <= i <= |g|
        invariant forall j :: 0 <= j < i ==> ParamTypes(g[j].parameters) != ts
      {
        var candidate := g[i].GetStringParameters();
        assert candidate == ParamTypes(g[i].parameters);
        if candidate == ts {
          assert g == MethodGroup(id) && ParamTypes(g[i].parameters) == ts;
          return Ok(g[i]);
        }
        i := i + 1;
      }
      return Err(MethodNotDefined(id, ts));
    }

    /** `lookupImport`: the same exact-match rule over the import groups. */
    method LookupImport(id: string, ts: seq<string>) returns (r: Result<ImportDescriptor>)
      ensures r.Ok? <==> exists i :: 0 <= i < |ImportGroup(id)| && DescTypes(ImportGroup(id)[i].parameters) == ts
      ensures r.Ok? ==> FirstImport(ImportGroup(id), ts) < |ImportGroup(id)|
                        && r.value == ImportGroup(id)[FirstImport(ImportGroup(id), ts)]
      ensures r.Err? ==> r.error == MethodNotDefined(id, ts)
    {
      if id !in imports {
        return Err(MethodNotDefined(id, ts));
      }
      var g := imports[id];
      var i := 0;
      while i < |g|
        invariant 0 <= i <= |g|
        invariant forall j :: 0 <= j < i ==> DescTypes(g[j].parameters) != ts
      {
        var candidate := g[i].GetStringParameters();
        assert candidate == DescTypes(g[i].parameters);
        if candidate == ts {
          assert g == ImportGroup(id) && DescTypes(g[i].parameters) == ts;
          return Ok(g[i]);
        }
        i := i + 1;
      }
      return Err(MethodNotDefined(id, ts));
    }

    /** `addVariable`: a new, uninitialised field; a duplicate name fails and
        leaves the table as it was. */
    method AddVariable(id: string, dataType: string) returns (r: Outcome)
      modifies this
      ensures className == old(className) && extendedClassName == old(extendedClassName)
      ensures methods == old(methods) && imports == old(imports)
      ensures id in old(fields) ==>
                r == Fail(AlreadyDefined(id)) && fields == old(fields)
      ensures id !in old(fields) ==>
                && r == Pass
                && id in fields
                && fields == old(fields)[id := fields[id]]
                && fields[id].dataType == dataType
                && !fields[id].initialised
                && fresh(fields[id])
    {
      if id !in fields {
        var v := new VariableDescriptor(dataType);
        fields := fields[id := v];
        r := Pass;
      } else {
        r := Fail(AlreadyDefined(id));
      }
    }

    /** `addMethod`: one new overload at the end of the group, which is
        created when absent; every other group is untouched. */
    method AddMethod(id: string, dataType: string)
      requires Valid()
      modifies this
      ensures Valid()
      ensures className == old(className) && extendedClassName == old(extendedClassName)
      ensures fields == old(fields) && imports == old(imports)
      ensures id in methods && |methods[id]| == |old(MethodGroup(id))| + 1
      ensures methods == old(methods)[id := old(MethodGroup(id)) + [methods[id][|old(MethodGroup(id))|]]]
      ensures fresh(methods[id][|old(MethodGroup(id))|])
      ensures methods[id][|old(MethodGroup(id))|].returnType == dataType
      ensures methods[id][|old(MethodGroup(id))|].parameters == []
      ensures methods[id][|old(MethodGroup(id))|].locals == map[]
    {
      if id !in methods {
        methods := methods[id := []];
      }
      var m := new MethodDescriptor(dataType);
      methods := methods[id := methods[id] + [m]];
    }

    /** `addMethodParameter`: adds to the last overload of `methodId` only;
        a failure carries the method's name. */
    method AddMethodParameter(methodId: string, paramId: string, dataType: string) returns (r: Outcome)
      requires Valid() && methodId in methods
      modifies methods[methodId][|methods[methodId]| - 1]
      ensures var m := methods[methodId][|methods[methodId]| - 1];
              && m.locals == old(m.locals)
              && (old(m.HasParameter(paramId)) ==>
                    && r == Fail(InMethod(InUse(paramId), methodId))
                    && m.parameters == old(m.parameters))
              && (!old(m.HasParameter(paramId)) ==>
                    && r == Pass
                    && |m.parameters| == |old(m.parameters)| + 1
                    && m.parameters == old(m.parameters) + [Param(paramId, m.parameters[|old(m.parameters)|].desc)]
                    && m.parameters[|old(m.parameters)|].desc.dataType == dataType
                    && m.parameters[|old(m.parameters)|].desc.initialised)
    {
      var m := methods[methodId][|methods[methodId]| - 1];
      r := m.AddParameter(paramId, dataType);
      if r.Fail? {
        r := Fail(InMethod(r.error, methodId));
      }
    }

    /** `addMethodVariable`: adds a local to the last overload of `methodId`
        only; a failure carries the method's name. */
    method AddMethodVariable(methodId: string, varId: string, dataType: string) returns (r: Outcome)
      requires Valid() && methodId in methods
      modifies methods[methodId][|methods[methodId]| - 1]
      ensures var m := methods[methodId][|methods[methodId]| - 1];
              && m.parameters == old(m.parameters)
              && (varId in old(m.locals) ==>
                    && r == Fail(InMethod(AlreadyDefined(varId), methodId))
                    && m.locals == old(m.locals))
              && (varId !in old(m.locals) ==>
                    && r == Pass
                    && varId in m.locals
                    && m.locals == old(m.locals)[varId := m.locals[varId]]
                    && m.locals[varId].dataType == dataType
                    && !m.locals[varId].initialised)
    {
      var m := methods[methodId][|methods[methodId]| - 1];
      r := m.AddVariable(varId, dataType);
      if r.Fail? {
        r := Fail(InMethod(r.error, methodId));
      }
    }

    /** `checkEqualMethods`: every pair i < j of the group is compared in
        order (by i, then by j); the first incompatible pair's message is
        reported with the method's name. */
    method CheckEqualMethods(id: string) returns (r: Outcome)
      requires id in methods
      ensures r == Pass <==> MethodGroupConsistent(methods[id])
      ensures r.Fail? ==>
                exists i, j :: 0 <= i < j < |methods[id]|
                  && !MethodsCompatible(methods[id][i], methods[id][j])
                  && r.error == InMethod(methods[id][i].CheckEqualMethod(methods[id][j].parameters, methods[id][j].returnType).error, id)
                  && MethodsCompatibleBefore(methods[id], i, j)
    {
      var g := methods[id];
      var first := 0;
      while first < |g|
        invariant 0 <= first <= |g| && MethodsCompatibleBefore(g, first, first + 1)
      {
        var second := first + 1;
        while second < |g|
          invariant first + 1 <= second <= |g| && MethodsCompatibleBefore(g, first, second)
        {
          var c := g[first].CheckEqualMethod(g[second].parameters, g[second].returnType);
          if c.Fail? {
            r := Fail(InMethod(c.error, id));
            assert !MethodsCompatible(g[first], g[second]);
            return;
          }
          second := second + 1;
        }
        first := first + 1;
      }
      return Pass;
    }

    /** `addImport`: one new import at the end of the group, which is
        created when absent; every other group is untouched. */
    method AddImport(id: string, isStatic: bool, isMethod: bool)
      requires Valid()
      modifies this
      ensures Valid()
      ensures className == old(className) && extendedClassName == old(extendedClassName)
      ensures fields == old(fields) && methods == old(methods)
      ensures id in imports && |imports[id]| == |old(ImportGroup(id))| + 1
      ensures imports == old(imports)[id := old(ImportGroup(id)) + [imports[id][|old(ImportGroup(id))|]]]
      ensures fresh(imports[id][|old(ImportGroup(id))|])
      ensures imports[id][|old(ImportGroup(id))|].isStatic == isStatic
      ensures imports[id][|old(ImportGroup(id))|].isMethod == isMethod
      ensures imports[id][|old(ImportGroup(id))|].parameters == []
      ensures imports[id][|old(ImportGroup(id))|].returnType == if isMethod then "void" else ""
    {
      if id !in imports {
        imports := imports[id := []];
      }
      var d := new ImportDescriptor(isStatic, isMethod);
      imports := imports[id := imports[id] + [d]];
    }

    /** `addImportParameter`: appends to the last import of the group. */
    method AddImportParameter(id: string, dataType: string)
      requires Valid() && id in imports
      modifies imports[id][|imports[id]| - 1]
      ensures var d := imports[id][|imports[id]| - 1];
              && d.returnType == old(d.returnType)
              && (!d.isMethod ==> d.parameters == old(d.parameters))
              && (d.isMethod ==>
                    && |d.parameters| == |old(d.parameters)| + 1
                    && d.parameters[..|old(d.parameters)|] == old(d.parameters)
                    && d.parameters[|old(d.parameters)|].dataType == dataType)
    {
      imports[id][|imports[id]| - 1].AddParameter(dataType);
    }

    /** `setImportReturnType`: sets the type of the last import of the group. */
    method SetImportReturnType(id: string, dataType: string)
      requires Valid() && id in imports
      modifies imports[id][|imports[id]| - 1]
      ensures var d := imports[id][|imports[id]| - 1];
              && d.parameters == old(d.parameters)
              && d.returnType == if d.isMethod then dataType else old(d.returnType)
    {
      imports[id][|imports[id]| - 1].SetReturnType(dataType);
    }

    /** `checkEqualImports`: the pairwise rule of `checkEqualMethods`, applied
        only among the imports that are methods. */
    method CheckEqualImports(id: string) returns (r: Outcome)
      requires id in imports
      ensures r == Pass <==> ImportGroupConsistent(MethodImports(imports[id]))
      ensures r.Fail? ==>
                var g := MethodImports(imports[id]);
                exists i, j :: 0 <= i < j < |g|
                  && !ImportsCompatible(g[i], g[j])
                  && r.error == InImport(g[i].CheckEqualImport(g[j].parameters, g[j].returnType).error, id)
                  && ImportsCompatibleBefore(g, i, j)
    {
      var g := MethodImports(imports[id]);
      var first := 0;
      while first < |g|
        invariant 0 <= first <= |g| && ImportsCompatibleBefore(g, first, first + 1)
      {
        var second := first + 1;
        while second < |g|
          invariant first + 1 <= second <= |g| && ImportsCompatibleBefore(g, first, second)
        {
          var c := g[first].CheckEqualImport(g[second].parameters, g[second].returnType);
          if c.Fail? {
            r := Fail(InImport(c.error, id));
            assert !ImportsCompatible(g[first], g[second]);
            return;
          }
          second := second + 1;
        }
        first := first + 1;
      }
      return Pass;
    }
  }
}
