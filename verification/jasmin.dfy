/** The Jasmin assembly the code generator writes: branch labels, the
    instructions it buffers, their text, and the mappings from J-- type
    names to JVM descriptors (section 4.3.2 of the JVM Specification) and
    to typed-instruction prefixes. */
module Jasmin {
  import opened Wrappers
  import opened Text
  import opened Ast

  /** One label family per construct; the number is the value of that
      construct's counter when it was visited. */
  datatype LabelKind =
    | Else | EndIf            // if/else: `if_counter`
    | WhileTop | EndWhile     // while: `while_counter`
    | TrueAnd | FalseAnd      // `&&`: `logic_operation_counter`
    | TrueLt | FalseLt        // `<`: `logic_operation_counter`
    | NotEq | Eq             // `!`: `logic_operation_counter`

  datatype Label = Label(kind: LabelKind, n: nat)

  function Prefix(k: LabelKind): string
  {
    match k
    case Else => "else_"
    case EndIf => "endif_"
    case WhileTop => "while_"
    case EndWhile => "end_while_"
    case TrueAnd => "true_and_"
    case FalseAnd => "false_and_"
    case TrueLt => "true_lt_"
    case FalseLt => "false_lt_"
    case NotEq => "not_eq_"
    case Eq => "eq_"
  }

  function LabelName(l: Label): string
  {
    Prefix(l.kind) + NatToString(l.n)
  }

  /** Distinct labels are written as distinct names, so labels that never
      repeat as values never repeat in the text either. */
  lemma LabelNameInjective(a: Label, b: Label)
    requires LabelName(a) == LabelName(b)
    ensures a == b
  {
    var s := LabelName(a);
    var pa, pb := Prefix(a.kind), Prefix(b.kind);
    assert |pa| >= 3 && |pb| >= 3;
    assert pa[0] == s[0] == pb[0];
    assert pa[1] == s[1] == pb[1];
    assert pa[2] == s[2] == pb[2];
    if a.kind in {EndIf, EndWhile} {
      assert pa[3] == s[3] == pb[3];
    } else if a.kind in {TrueAnd, TrueLt} {
      assert pa[5] == s[5] == pb[5];
    } else if a.kind in {FalseAnd, FalseLt} {
      assert pa[6] == s[6] == pb[6];
    }
    assert a.kind == b.kind;
    assert NatToString(a.n) == s[|pa|..] == NatToString(b.n);
    NatToStringInjective(a.n, b.n);
  }

  datatype InvokeKind = Virtual | Static | Special

  /** The instructions the generator buffers, one per line. */
  datatype Instr =
      /** `<k>load` / `<k>store` of a local slot; `k` is "i", "a" or "". */
    | Load(kind: string, slot: nat)
    | Store(kind: string, slot: nat)
    | GetField(owner: string, name: string, desc: string)
    | PutField(owner: string, name: string, desc: string)
    | IALoad
    | IAStore
    | BiPush(value: nat)
    | LdcW(value: nat)
    | IConst(bit: bool)
    | NewArrayInt
    | New(cls: string)
    | Dup
    | Invoke(how: InvokeKind, owner: string, name: string, desc: string)
    | ArrayLength
    | IArith(op: ArithOp)
    | IfEq(target: Label)
    | IfNe(target: Label)
    | IfLt(target: Label)
    | IfICmpLt(target: Label)
    | Goto(target: Label)
      /** A label definition line, `name:`. */
    | Mark(at: Label)
    | Return(kind: string)
    | Pop

  /** The load/store forms: slots 0 to 3 have the one-byte `_n` opcodes,
      larger slots take the index as an operand. */
  function SlotText(kind: string, op: string, n: nat): string
  {
    if n <= 3 then kind + op + "_" + NatToString(n) else kind + op + " " + NatToString(n)
  }

  /** The slot can be read back from the text, whichever form was chosen;
      the `_n` form is only ever used for slots 0 to 3. */
  lemma SlotTextInjective(kind: string, op: string, n1: nat, n2: nat)
    requires SlotText(kind, op, n1) == SlotText(kind, op, n2)
    ensures n1 == n2
    ensures SlotText(kind, op, n1)[|kind + op|] == '_' <==> n1 <= 3
  {
    var p := kind + op;
    var s := SlotText(kind, op, n1);
    assert s[|p|] == (if n1 <= 3 then '_' else ' ');
    assert s[|p|] == (if n2 <= 3 then '_' else ' ');
    if n1 <= 3 {
      assert s == p + "_" + NatToString(n1) == p + "_" + NatToString(n2);
      assert NatToString(n1) == s[|p| + 1..] == NatToString(n2);
    } else {
      assert s == p + " " + NatToString(n1) == p + " " + NatToString(n2);
      assert NatToString(n1) == s[|p| + 1..] == NatToString(n2);
    }
    NatToStringInjective(n1, n2);
  }

  function ArithText(op: ArithOp): string
  {
    match op
    case Add => "iadd"
    case Sub => "isub"
    case Mul => "imul"
    case Div => "idiv"
  }

  function InvokeText(how: InvokeKind): string
  {
    match how
    case Virtual => "invokevirtual "
    case Static => "invokestatic "
    case Special => "invokespecial "
  }

  /** The text of an instruction, as `bufferInstruction` receives it. */
  function Render(i: Instr): string
  {
    match i
    case Load(k, n) => SlotText(k, "load", n)
    case Store(k, n) => SlotText(k, "store", n)
    case GetField(o, f, d) => "getfield " + o + "/" + f + " " + d
    case PutField(o, f, d) => "putfield " + o + "/" + f + " " + d
    case IALoad => "iaload"
    case IAStore => "iastore"
    case BiPush(v) => "bipush " + NatToString(v)
    case LdcW(v) => "ldc_w " + NatToString(v)
    case IConst(b) => if b then "iconst_1" else "iconst_0"
    case NewArrayInt => "newarray int"
    case New(c) => "new " + c
    case Dup => "dup"
    case Invoke(how, o, m, d) => InvokeText(how) + o + "/" + m + d
    case ArrayLength => "arraylength"
    case IArith(op) => ArithText(op)
    case IfEq(l) => "ifeq " + LabelName(l)
    case IfNe(l) => "ifne " + LabelName(l)
    case IfLt(l) => "iflt " + LabelName(l)
    case IfICmpLt(l) => "if_icmplt " + LabelName(l)
    case Goto(l) => "goto " + LabelName(l)
    case Mark(l) => LabelName(l) + ":"
    case Return(k) => k + "return"
    case Pop => "pop"
  }

  /** A buffered line: three spaces of indentation, then the text. */
  function Line(i: Instr): string { "   " + Render(i) }

  function Lines(code: seq<Instr>): (ls: seq<string>)
    ensures |ls| == |code|
    ensures forall k :: 0 <= k < |code| ==> ls[k] == Line(code[k])
  {
    if code == [] then [] else [Line(code[0])] + Lines(code[1..])
  }

  /** The J-- primitive types, which have one-letter descriptors. */
  predicate Primitive(t: string)
  {
    t == "void" || t == "int" || t == "boolean" || t == "int[]"
  }

  /** `convertType` as written: class types have no descriptor (Java
      `null`). */
  function ConvertTypeAsWritten(t: string): (d: Option<string>)
    ensures d.Some? <==> Primitive(t)
  {
    if t == "void" then Some("V")
    else if t == "int" then Some("I")
    else if t == "boolean" then Some("Z")
    else if t == "int[]" then Some("[I")
    else None
  }

  /** Java string concatenation prints a null reference as "null". */
  function OrNull(d: Option<string>): string
  {
    if d.Some? then d.value else "null"
  }

  /** `convertParams` as written. */
  function ConvertParamsAsWritten(ts: seq<string>): string
  {
    if ts == [] then "" else OrNull(ConvertTypeAsWritten(ts[0])) + ConvertParamsAsWritten(ts[1..])
  }

  /** As written, two different class-typed signatures get the same
      descriptor, so overloads `f(A)` and `f(B)` cannot be told apart. */
  lemma ClassParamsCollideAsWritten()
    ensures ["A"] != ["B"]
    ensures ConvertParamsAsWritten(["A"]) == ConvertParamsAsWritten(["B"]) == "null"
  {
    assert ["A"] != ["B"] by { assert ["A"][0] != ["B"][0]; }
  }

  /** A type name a descriptor can be built from. */
  predicate DescribableName(t: string)
  {
    forall k :: 0 <= k < |t| ==> t[k] != ';'
  }

  /** `convertType` with the class case completed: a class type `C` has
      descriptor `LC;`. */
  function ConvertType(t: string): (d: string)
    ensures |d| >= 1
    ensures d[0] == 'L' <==> !Primitive(t)
    ensures Primitive(t) ==> Some(d) == ConvertTypeAsWritten(t)
  {
    if t == "void" then "V"
    else if t == "int" then "I"
    else if t == "boolean" then "Z"
    else if t == "int[]" then "[I"
    else "L" + t + ";"
  }

  /** `convertParams`: the descriptors of the parameter types, in order. */
  function ConvertParams(ts: seq<string>): (d: string)
    ensures ts == [] <==> d == ""
  {
    if ts == [] then "" else ConvertType(ts[0]) + ConvertParams(ts[1..])
  }

  /** No descriptor is a proper prefix of another (descriptors form a
      prefix code), so a descriptor followed by anything determines the
      type. */
  lemma ConvertTypePrefixFree(t1: string, t2: string, x: string, y: string)
    requires DescribableName(t1) && DescribableName(t2)
    requires ConvertType(t1) + x == ConvertType(t2) + y
    ensures t1 == t2 && x == y
  {
    var d1, d2 := ConvertType(t1), ConvertType(t2);
    assert d1[0] == (d1 + x)[0] == (d2 + y)[0] == d2[0];
    if Primitive(t1) {
      assert Primitive(t2);
      if d1 == "[I" {
        assert d2 != "V" && d2 != "I" && d2 != "Z";
        assert d2 == "[I";
      } else {
        assert d2 != "[I" by {
          assert d2[0] == d1[0] != '[';
        }
        assert |d1| == 1 && |d2| == 1;
      }
      assert t1 == t2;
      assert x == (d1 + x)[|d1|..] == (d2 + y)[|d2|..] == y;
    } else {
      assert !Primitive(t2);
      assert d1 == "L" + t1 + ";" && d2 == "L" + t2 + ";";
      var s := d1 + x;
      assert s == d2 + y;
      ClassDescriptorEnd(t1, x);
      ClassDescriptorEnd(t2, y);
      assert |t1| == |t2|;
      assert t1 == s[1..1 + |t1|] == t2;
      assert x == s[|d1|..] == y;
    }
  }

  /** In a class descriptor followed by anything, the first ';' is the one
      that closes the descriptor. */
  lemma ClassDescriptorEnd(t: string, x: string)
    requires DescribableName(t)
    ensures var s := "L" + t + ";" + x;
            s[1 + |t|] == ';' && forall k :: 1 <= k < 1 + |t| ==> s[k] != ';'
  {
    var s := "L" + t + ";" + x;
    forall k | 1 <= k < 1 + |t|
      ensures s[k] != ';'
    {
      assert s[k] == t[k - 1];
    }
  }

  /** Different parameter-type lists get different descriptors: the
      corrected mapping keeps overloads apart. */
  lemma {:induction false} ConvertParamsInjective(a: seq<string>, b: seq<string>)
    requires forall k :: 0 <= k < |a| ==> DescribableName(a[k])
    requires forall k :: 0 <= k < |b| ==> DescribableName(b[k])
    requires ConvertParams(a) == ConvertParams(b)
    ensures a == b
  {
    if a != [] {
      assert b != [];
      ConvertTypePrefixFree(a[0], b[0], ConvertParams(a[1..]), ConvertParams(b[1..]));
      ConvertParamsInjective(a[1..], b[1..]);
      assert a == [a[0]] + a[1..] && b == [b[0]] + b[1..];
    }
  }

  /** `convertInstructionType`: int and boolean are both int-typed on the
      JVM, void has no value, everything else is a reference. */
  function KindOf(t: string): (k: string)
    ensures k == "i" <==> t == "int" || t == "boolean"
    ensures k == "" <==> t == "void"
    ensures k == "i" || k == "" || k == "a"
  {
    if t == "boolean" || t == "int" then "i"
    else if t == "void" then ""
    else "a"
  }

  /** The instruction for an integer literal, as written: `bipush` up to
      200, `ldc_w` above. */
  function PushIntAsWritten(v: nat): Instr
  {
    if v > 200 then LdcW(v) else BiPush(v)
  }

  /** `bipush` takes a signed byte; as written, every literal from 128 to
      200 is given to it, where the completed choice loads it with
      `ldc_w`. */
  lemma PushIntAsWrittenOverflows(v: nat)
    requires 128 <= v <= 200
    ensures PushIntAsWritten(v) == BiPush(v) && v > 127
    ensures PushInt(v) == LdcW(v)
  {
  }

  /** The instruction for an integer literal: `bipush` only where its
      signed-byte operand can hold the value, `ldc_w` otherwise. */
  function PushInt(v: nat): (i: Instr)
    ensures i.BiPush? || i.LdcW?
    ensures i.value == v
    ensures i.BiPush? <==> v <= 127
  {
    if v > 127 then LdcW(v) else BiPush(v)
  }
}
