/** The descriptors the symbol table stores: one per field, parameter or
    local (VariableDescriptor), one per method overload (MethodDescriptor)
    and one per imported member (ImportDescriptor).

    The common `type` of the Java base class `Descriptor` is written once at
    construction and never reassigned for variables or methods (its setter
    has no caller), so it is a `const` here; only an import's return type
    changes after construction. */
module Descriptors {
  import opened Wrappers

  /** A field, a method parameter or a local variable. */
  class VariableDescriptor {
    const dataType: string
    var initialised: bool

    constructor (dataType: string)
      ensures this.dataType == dataType && !initialised
    {
      this.dataType := dataType;
      initialised := false;
    }

    /** `setInitialised`: the flag becomes `b`; the type is a constant. */
    method SetInitialised(b: bool)
      modifies this
      ensures initialised == b
    {
      initialised := b;
    }

    /** `equals`: the same object, or another variable descriptor whose type
        string is equal. The `initialised` flag takes no part. */
    predicate Equals(o: VariableDescriptor?)
      ensures Equals(o) <==> o != null && o.dataType == dataType
    {
      this == o || (o != null && dataType == o.dataType)
    }
  }

  /** `equals` is an equivalence on descriptors, and it holds exactly when the
      type strings agree, whatever the initialisation flags are. */
  lemma EqualsIsTypeEquality(a: VariableDescriptor, b: VariableDescriptor, c: VariableDescriptor)
    ensures a.Equals(a)
    ensures a.Equals(b) <==> b.Equals(a)
    ensures a.Equals(b) && b.Equals(c) ==> a.Equals(c)
    ensures a.dataType != b.dataType ==> !a.Equals(b)
  {
  }

  /** The type strings of a list of descriptors, in order. */
  function DescTypes(ds: seq<VariableDescriptor>): (ts: seq<string>)
    ensures |ts| == |ds|
    ensures forall i :: 0 <= i < |ds| ==> ts[i] == ds[i].dataType
  {
    if ds == [] then [] else [ds[0].dataType] + DescTypes(ds[1..])
  }

  /** `List.equals` on two lists of descriptors: equal length and pairwise
      `equals`. */
  predicate ListEquals(xs: seq<VariableDescriptor>, ys: seq<VariableDescriptor>)
  {
    |xs| == |ys| && forall i :: 0 <= i < |xs| ==> xs[i].Equals(ys[i])
  }

  /** Two descriptor lists are `equals` exactly when their type lists agree. */
  lemma ListEqualsIffSameTypes(xs: seq<VariableDescriptor>, ys: seq<VariableDescriptor>)
    ensures ListEquals(xs, ys) <==> DescTypes(xs) == DescTypes(ys)
  {
    if DescTypes(xs) == DescTypes(ys) {
      forall i | 0 <= i < |xs| ensures xs[i].Equals(ys[i]) {
        assert DescTypes(xs)[i] == DescTypes(ys)[i];
      }
    }
  }

  /** The failure messages of the descriptors, by the name involved. */
  function NotDefined(id: string): string { "Variable '" + id + "' not defined" }
  function InUse(id: string): string { "Parameter name '" + id + "' already in use" }
  function AlreadyDefined(id: string): string { "Variable '" + id + "' already defined" }

  /** One entry of the insertion-ordered parameter map. */
  datatype Param = Param(name: string, desc: VariableDescriptor)

  /** The descriptors of an ordered parameter map (`parameters.values()`). */
  function Values(ps: seq<Param>): (ds: seq<VariableDescriptor>)
    ensures |ds| == |ps|
    ensures forall i :: 0 <= i < |ps| ==> ds[i] == ps[i].desc
  {
    if ps == [] then [] else [ps[0].desc] + Values(ps[1..])
  }

  /** The ordered parameter-type list of a parameter map: the signature that
      overload resolution compares. */
  function ParamTypes(ps: seq<Param>): (ts: seq<string>)
    ensures |ts| == |ps|
    ensures forall i :: 0 <= i < |ps| ==> ts[i] == ps[i].desc.dataType
  {
    DescTypes(Values(ps))
  }

  /** The names of an ordered parameter map (`parameters.keySet()`). */
  function ParamNames(ps: seq<Param>): (ns: seq<string>)
    ensures |ns| == |ps|
    ensures forall i :: 0 <= i < |ps| ==> ns[i] == ps[i].name
  {
    if ps == [] then [] else [ps[0].name] + ParamNames(ps[1..])
  }

  /** Appending an entry appends its name and its type. */
  lemma ParamsSnoc(ps: seq<Param>, x: Param)
    ensures ParamNames(ps + [x]) == ParamNames(ps) + [x.name]
    ensures ParamTypes(ps + [x]) == ParamTypes(ps) + [x.desc.dataType]
  {
  }

  predicate UniqueNames(ps: seq<Param>)
  {
    forall i, j :: 0 <= i < j < |ps| ==> ps[i].name != ps[j].name
  }

  /** The descriptor of the first entry named `id`, if any. */
  function FindParam(ps: seq<Param>, id: string): (r: Option<VariableDescriptor>)
    ensures r.Some? <==> exists i :: 0 <= i < |ps| && ps[i].name == id
    ensures r.Some? ==> exists i :: 0 <= i < |ps| && ps[i].name == id && ps[i].desc == r.value
                                    && forall j :: 0 <= j < i ==> ps[j].name != id
  {
    if ps == [] then None
    else if ps[0].name == id then Some(ps[0].desc)
    else
      var r := FindParam(ps[1..], id);
      if r.Some? then
        ghost var k :| 0 <= k < |ps| - 1 && ps[1..][k].name == id && ps[1..][k].desc == r.value
                       && forall j :: 0 <= j < k ==> ps[1..][j].name != id;
        assert ps[k + 1].name == id && ps[k + 1].desc == r.value;
        r
      else r
  }

  /** A method overload: its return type, its parameters in declaration
      order and its locals. */
  class MethodDescriptor {
    const returnType: string
    var parameters: seq<Param>
    var locals: map<string, VariableDescriptor>

    constructor (returnType: string)
      ensures this.returnType == returnType && parameters == [] && locals == map[]
    {
      this.returnType := returnType;
      parameters := [];
      locals := map[];
    }

    predicate HasParameter(id: string)
      reads this
      ensures HasParameter(id) <==> id in ParamNames(parameters)
    {
      exists i :: 0 <= i < |parameters| && parameters[i].name == id
    }

    /** The declared type of each local, by name. */
    function LocalTypes(): (m: map<string, string>)
      reads this
      ensures m.Keys == locals.Keys
      ensures forall n :: n in m ==> m[n] == locals[n].dataType
    {
      map n | n in locals :: locals[n].dataType
    }

    /** `lookupVariable`: a local wins over a parameter of the same name;
        a name that is neither fails with "not defined". */
    function LookupVariable(id: string): (r: Result<VariableDescriptor>)
      reads this
      ensures id in locals ==> r == Ok(locals[id])
      ensures id !in locals ==> (r.Ok? <==> HasParameter(id))
      ensures id !in locals && r.Ok? ==>
                exists i :: 0 <= i < |parameters| && parameters[i].name == id && parameters[i].desc == r.value
      ensures r.Err? ==> r.error == NotDefined(id)
    {
      if id in locals then Ok(locals[id])
      else match FindParam(parameters, id)
        case Some(d) => Ok(d)
        case None => Err(NotDefined(id))
    }

    /** `addParameter`: a fresh name is appended, already initialised; a name
        already used by a parameter fails and changes nothing. */
    method AddParameter(id: string, dataType: string) returns (r: Outcome)
      modifies this
      ensures locals == old(locals)
      ensures old(HasParameter(id)) ==>
                r == Fail(InUse(id)) && parameters == old(parameters)
      ensures !old(HasParameter(id)) ==>
                && r == Pass
                && |parameters| == |old(parameters)| + 1
                && parameters == old(parameters) + [Param(id, parameters[|old(parameters)|].desc)]
                && parameters[|old(parameters)|].desc.dataType == dataType
                && parameters[|old(parameters)|].desc.initialised
                && fresh(parameters[|old(parameters)|].desc)
      ensures UniqueNames(old(parameters)) ==> UniqueNames(parameters)
    {
      if !HasParameter(id) {
        var parameter := new VariableDescriptor(dataType);
        parameter.SetInitialised(true);
        parameters := parameters + [Param(id, parameter)];
        r := Pass;
      } else {
        r := Fail(InUse(id));
      }
    }

    /** `addVariable`: a new uninitialised local; fails only when a local of
        that name exists (a local may reuse a parameter's name). */
    method AddVariable(id: string, dataType: string) returns (r: Outcome)
      modifies this
      ensures parameters == old(parameters)
      ensures id in old(locals) ==>
                r == Fail(AlreadyDefined(id)) && locals == old(locals)
      ensures id !in old(locals) ==>
                && r == Pass
                && id in locals
                && locals == old(locals)[id := locals[id]]
                && locals[id].dataType == dataType
                && !locals[id].initialised
                && fresh(locals[id])
    {
      if id !in locals {
        var v := new VariableDescriptor(dataType);
        locals := locals[id := v];
        r := Pass;
      } else {
        r := Fail(AlreadyDefined(id));
      }
    }

    /** `checkEqualMethod`: an overload with the same ordered parameter types
        is rejected first; otherwise a different return type is rejected. */
    function CheckEqualMethod(others: seq<Param>, otherReturnType: string): (r: Outcome)
      reads this
      ensures r == Fail("Parameter type list already defined") <==>
                (ParamTypes(parameters) == ParamTypes(others))
      ensures r == Fail("Return type '" + otherReturnType + "' different from other methods with the same identifier") <==>
                (ParamTypes(parameters) != ParamTypes(others) && returnType != otherReturnType)
      ensures r == Pass <==> ParamTypes(parameters) != ParamTypes(others) && returnType == otherReturnType
    {
      ListEqualsIffSameTypes(Values(parameters), Values(others));
      if ListEquals(Values(parameters), Values(others)) then
        Fail("Parameter type list already defined")
      else if returnType != otherReturnType then
        Fail("Return type '" + otherReturnType + "' different from other methods with the same identifier")
      else
        Pass
    }

    /** `getStringParameters`: the parameter types in declaration order. */
    method GetStringParameters() returns (ts: seq<string>)
      ensures |ts| == |parameters|
      ensures forall i :: 0 <= i < |parameters| ==> ts[i] == parameters[i].desc.dataType
    {
      ts := [];
      var i := 0;
      while i < |parameters|
        invariant 0 <= i <= |parameters|
        invariant |ts| == i
        invariant forall k :: 0 <= k < i ==> ts[k] == parameters[k].desc.dataType
      {
        ts := ts + [parameters[i].desc.dataType];
        i := i + 1;
      }
    }
  }

  /** An imported member: a method (static or not) or a constructor. The
      Java object leaves the list and the type null for a non-method import;
      here that list is empty and the type is "". */
  class ImportDescriptor {
    const isStatic: bool
    const isMethod: bool
    var returnType: string
    var parameters: seq<VariableDescriptor>

    constructor (isStatic: bool, isMethod: bool)
      ensures this.isStatic == isStatic && this.isMethod == isMethod
      ensures parameters == []
      ensures returnType == if isMethod then "void" else ""
    {
      this.isStatic := isStatic;
      this.isMethod := isMethod;
      parameters := [];
      returnType := if isMethod then "void" else "";
    }

    /** `addParameter`: appends the type for a method import, a no-op otherwise. */
    method AddParameter(dataType: string)
      modifies this
      ensures returnType == old(returnType)
      ensures !isMethod ==> parameters == old(parameters)
      ensures isMethod ==>
                && |parameters| == |old(parameters)| + 1
                && parameters[..|old(parameters)|] == old(parameters)
                && parameters[|old(parameters)|].dataType == dataType
                && fresh(parameters[|old(parameters)|])
    {
      if !isMethod {
        return;
      }
      var v := new VariableDescriptor(dataType);
      parameters := parameters + [v];
    }

    /** `setReturnType`: sets the type of a method import, a no-op otherwise. */
    method SetReturnType(dataType: string)
      modifies this
      ensures parameters == old(parameters)
      ensures returnType == if isMethod then dataType else old(returnType)
    {
      if !isMethod {
        return;
      }
      returnType := dataType;
    }

    /** `checkEqualImport`: the same rule as for methods, equal parameter
        lists first, then a differing return type. */
    function CheckEqualImport(others: seq<VariableDescriptor>, otherReturnType: string): (r: Outcome)
      reads this
      ensures r == Fail("Parameter type list already defined") <==>
                (DescTypes(parameters) == DescTypes(others))
      ensures r == Fail("Return type '" + otherReturnType + "' different from other imports with the same identifier") <==>
                (DescTypes(parameters) != DescTypes(others) && returnType != otherReturnType)
      ensures r == Pass <==> DescTypes(parameters) != DescTypes(others) && returnType == otherReturnType
    {
      ListEqualsIffSameTypes(parameters, others);
      if ListEquals(parameters, others) then
        Fail("Parameter type list already defined")
      else if returnType != otherReturnType then
        Fail("Return type '" + otherReturnType + "' different from other imports with the same identifier")
      else
        Pass
    }

    /** `getStringParameters`: the parameter types in insertion order. */
    method GetStringParameters() returns (ts: seq<string>)
      ensures |ts| == |parameters|
      ensures forall i :: 0 <= i < |parameters| ==> ts[i] == parameters[i].dataType
    {
      ts := [];
      var i := 0;
      while i < |parameters|
        invariant 0 <= i <= |parameters|
        invariant |ts| == i
        invariant forall k :: 0 <= k < i ==> ts[k] == parameters[k].dataType
      {
        ts := ts + [parameters[i].dataType];
        i := i + 1;
      }
    }
  }
}
