/** Runtime types: the closed set of representations a value can have in
    generated C code (mypyc/ops.py, `RType` and its subclasses), with their
    C storage type, their undefined/error sentinel and their reference-counting
    metadata, and the slot layout of native classes. */
module RTypes {
  import opened Wrappers
  import opened Strings

  /** `c_module_name`: the C global that holds an imported module. */
  function CModuleName(moduleName: string): (r: string)
    ensures StartsWith(r, "module_")
    ensures '.' !in r[7..]
    ensures |r| == 7 + |moduleName| + 6 * CountChar(moduleName, '.')
    ensures '.' !in moduleName ==> r == "module_" + moduleName
  {
    ReplaceCharLength(moduleName, '.', "__dot__");
    CModuleNameAbsent(moduleName);
    var r := "module_" + ReplaceChar(moduleName, '.', "__dot__");
    assert r[7..] == ReplaceChar(moduleName, '.', "__dot__");
    r
  }

  lemma CModuleNameAbsent(moduleName: string)
    ensures '.' !in moduleName ==> ReplaceChar(moduleName, '.', "__dot__") == moduleName
  {
    if '.' !in moduleName {
      ReplaceCharAbsent(moduleName, '.', "__dot__");
    }
  }

  const BuiltinsPrefix := "builtins."

  /** `short_name`: drops the `builtins.` module prefix. */
  function ShortName(name: string): (r: string)
    ensures StartsWith(name, BuiltinsPrefix) ==> BuiltinsPrefix + r == name
    ensures !StartsWith(name, BuiltinsPrefix) ==> r == name
  {
    if StartsWith(name, BuiltinsPrefix) then name[9..] else name
  }

  lemma ShortNameStripsPrefix(s: string)
    ensures ShortName(BuiltinsPrefix + s) == s
  {
    assert StartsWith(BuiltinsPrefix + s, BuiltinsPrefix);
  }

  /** The three C storage types an `RPrimitive` may have. */
  datatype PrimCType = CPyTagged | PyObjectPtr | CChar

  function PrimCTypeText(c: PrimCType): string {
    match c
    case CPyTagged => "CPyTagged"
    case PyObjectPtr => "PyObject *"
    case CChar => "char"
  }

  function ParsePrimCType(s: string): (r: Option<PrimCType>)
    ensures r.Some? ==> PrimCTypeText(r.value) == s
  {
    if s == "CPyTagged" then Some(CPyTagged)
    else if s == "PyObject *" then Some(PyObjectPtr)
    else if s == "char" then Some(CChar)
    else None
  }

  lemma ParsePrimCTypeText(c: PrimCType)
    ensures ParsePrimCType(PrimCTypeText(c)) == Some(c)
  {
  }

  /** The undefined value of a primitive, fixed by its C type. */
  function PrimUndefined(c: PrimCType): string {
    match c
    case CPyTagged => "CPY_INT_TAG"
    case PyObjectPtr => "NULL"
    case CChar => "2"
  }

  datatype RType =
    | RPrimitive(name: string, isUnboxedFlag: bool, isRefcountedFlag: bool, ctype: PrimCType)
    | RTuple(types: seq<RType>)
    | RInstance(cls: ClassLayout)
    | ROptional(valueType: RType)
    | RUnion(items: seq<RType>)
    | RVoid

  /** What an `RInstance` reads of its `ClassIR`: the name, the attributes in
      storage order and the names of the methods in method-table order. */
  datatype ClassLayout = ClassLayout(name: string, attributes: seq<Attribute>, methods: seq<string>)

  datatype Attribute = Attribute(name: string, rtype: RType)

  /** `RPrimitive.__init__`: the C type must be one of the three known ones. */
  function NewRPrimitive(name: string, isUnboxed: bool, isRefcounted: bool, ctype: string): (r: Result<RType>)
    ensures r.Ok? <==> ctype in ["CPyTagged", "PyObject *", "char"]
    ensures ctype == "CPyTagged" ==> r.Ok? && CUndefinedValue(r.value) == Ok("CPY_INT_TAG")
    ensures ctype == "PyObject *" ==> r.Ok? && CUndefinedValue(r.value) == Ok("NULL")
    ensures ctype == "char" ==> r.Ok? && CUndefinedValue(r.value) == Ok("2")
    ensures r.Ok? ==> r.value.RPrimitive? && Ctype(r.value) == ctype && TypeName(r.value) == name
    ensures r.Ok? ==> IsUnboxed(r.value) == isUnboxed && IsRefcounted(r.value) == isRefcounted
  {
    match ParsePrimCType(ctype)
    case Some(c) => Ok(RPrimitive(name, isUnboxed, isRefcounted, c))
    case None => Fail("Uncognized ctype: " + ctype)
  }

  const ObjectRPrimitive := RPrimitive("builtins.object", false, true, PyObjectPtr)
  const IntRPrimitive := RPrimitive("builtins.int", true, true, CPyTagged)
  const BoolRPrimitive := RPrimitive("builtins.bool", true, false, CChar)
  const NoneRPrimitive := RPrimitive("builtins.None", false, true, PyObjectPtr)
  const ListRPrimitive := RPrimitive("builtins.list", false, true, PyObjectPtr)
  const DictRPrimitive := RPrimitive("builtins.dict", false, true, PyObjectPtr)
  const StrRPrimitive := RPrimitive("builtins.str", false, true, PyObjectPtr)
  const TupleRPrimitive := RPrimitive("builtins.tuple", false, true, PyObjectPtr)

  predicate IsPrimitiveNamed(t: RType, name: string) {
    t.RPrimitive? && t.name == name
  }

  predicate IsIntRPrimitive(t: RType) { IsPrimitiveNamed(t, "builtins.int") }
  predicate IsBoolRPrimitive(t: RType) { IsPrimitiveNamed(t, "builtins.bool") }
  predicate IsObjectRPrimitive(t: RType) { IsPrimitiveNamed(t, "builtins.object") }
  predicate IsNoneRPrimitive(t: RType) { IsPrimitiveNamed(t, "builtins.None") }
  predicate IsListRPrimitive(t: RType) { IsPrimitiveNamed(t, "builtins.list") }
  predicate IsDictRPrimitive(t: RType) { IsPrimitiveNamed(t, "builtins.dict") }
  predicate IsStrRPrimitive(t: RType) { IsPrimitiveNamed(t, "builtins.str") }
  predicate IsTupleRPrimitive(t: RType) { IsPrimitiveNamed(t, "builtins.tuple") }

  /** The `name` attribute of each runtime type. */
  function TypeName(t: RType): string {
    match t
    case RPrimitive(name, _, _, _) => name
    case RTuple(_) => "tuple"
    case RInstance(cls) => cls.name
    case ROptional(_) => "optional"
    case RUnion(_) => "union"
    case RVoid => "void"
  }

  function IsUnboxed(t: RType): bool {
    match t
    case RPrimitive(_, unboxed, _, _) => unboxed
    case RTuple(_) => true
    case _ => false
  }

  function IsRefcounted(t: RType): bool {
    match t
    case RPrimitive(_, _, refcounted, _) => refcounted
    case RTuple(ts) => AnyRefcounted(ts)
    case RVoid => false
    case _ => true
  }

  function AnyRefcounted(ts: seq<RType>): bool
    decreases ts
  {
    ts != [] && (IsRefcounted(ts[0]) || AnyRefcounted(ts[1..]))
  }

  /** A fixed tuple needs reference counting exactly when one of its items does. */
  lemma {:induction false} TupleRefcountedIff(ts: seq<RType>)
    ensures IsRefcounted(RTuple(ts)) <==> exists i :: 0 <= i < |ts| && IsRefcounted(ts[i])
  {
    if ts != [] {
      TupleRefcountedIff(ts[1..]);
      if IsRefcounted(RTuple(ts[1..])) {
        var i :| 0 <= i < |ts[1..]| && IsRefcounted(ts[1..][i]);
        assert IsRefcounted(ts[i + 1]);
      }
      if exists i :: 0 <= i < |ts| && IsRefcounted(ts[i]) {
        var i :| 0 <= i < |ts| && IsRefcounted(ts[i]);
        if i > 0 {
          assert IsRefcounted(ts[1..][i - 1]);
        }
      }
    }
  }

  /** The structure that the source's `hash` of a type is computed from:
      the name for primitives and instances, the item structure for tuples
      and optionals. */
  function TypeKey(t: RType): string
    decreases t
  {
    match t
    case RTuple(ts) => "tuple(" + Join(TypeKeys(ts), ",") + ")"
    case ROptional(v) => "optional(" + TypeKey(v) + ")"
    case RUnion(ts) => "union(" + Join(TypeKeys(ts), ",") + ")"
    case _ => TypeName(t)
  }

  function TypeKeys(ts: seq<RType>): (r: seq<string>)
    decreases ts
    ensures |r| == |ts|
  {
    if ts == [] then [] else [TypeKey(ts[0])] + TypeKeys(ts[1..])
  }

  /** `RTuple.struct_name`: a name derived from the tuple's structure alone. */
  function TupleStructName(ts: seq<RType>): string {
    "tuple_def_" + TypeKey(RTuple(ts))
  }

  /** The `ctype` attribute: the C storage type. */
  function Ctype(t: RType): (r: string)
    ensures |r| > 0
  {
    match t
    case RPrimitive(_, _, _, c) => PrimCTypeText(c)
    case RTuple(ts) => "struct " + TupleStructName(ts)
    case RVoid => "void"
    case _ => "PyObject *"
  }

  /** `ctype_spaced`: the C type followed by what separates it from a
      declared name: nothing after a pointer star, a blank otherwise. */
  function CtypeSpaced(t: RType): (r: string)
    ensures r == Ctype(t) || r == Ctype(t) + " "
    ensures r[|r| - 1] == '*' || r[|r| - 1] == ' '
    ensures r == Ctype(t) <==> Ctype(t)[|Ctype(t)| - 1] == '*'
  {
    var c := Ctype(t);
    if c[|c| - 1] == '*' then c else c + " "
  }

  lemma CtypeSpacedExamples()
    ensures CtypeSpaced(IntRPrimitive) == "CPyTagged "
    ensures CtypeSpaced(BoolRPrimitive) == "char "
    ensures CtypeSpaced(ObjectRPrimitive) == "PyObject *"
  {
  }

  /** `c_undefined_value`: the sentinel as one C expression. A fixed tuple has
      none (the caller must build a temporary), and neither has void. */
  function CUndefinedValue(t: RType): (r: Result<string>)
    ensures r.Fail? <==> t.RTuple? || t.RVoid?
    ensures t.RPrimitive? ==> r == Ok(PrimUndefined(t.ctype))
    ensures t.RInstance? || t.ROptional? || t.RUnion? ==> r == Ok("NULL")
  {
    match t
    case RPrimitive(_, _, _, c) => Ok(PrimUndefined(c))
    case RTuple(_) => Fail("Tuple undefined value can't be represented as a C expression")
    case RVoid => Fail("void has no undefined value")
    case _ => Ok("NULL")
  }

  /** `c_error_value`: the error sentinel is the undefined value. */
  function CErrorValue(t: RType): Result<string> {
    CUndefinedValue(t)
  }

  /** Every tuple, whatever its items, fails to give a single-expression
      sentinel, while each of its non-tuple items has one. */
  lemma TupleSentinelFails(ts: seq<RType>)
    ensures CUndefinedValue(RTuple(ts)).Fail?
    ensures forall i :: 0 <= i < |ts| && !ts[i].RTuple? && !ts[i].RVoid? ==> CUndefinedValue(ts[i]).Ok?
  {
  }

  /** The declaration of field `f<i>` of a tuple struct. */
  function TupleFieldLine(t: RType, i: nat): string {
    "    " + CtypeSpaced(t) + "f" + NatToString(i) + ";"
  }

  /** `RTuple.get_c_declaration`: the struct definition, one field `f<i>` per item. */
  method TupleCDeclaration(ts: seq<RType>) returns (result: seq<string>)
    ensures |result| == |ts| + 3
    ensures result[0] == "struct " + TupleStructName(ts) + " {"
    ensures forall i :: 0 <= i < |ts| ==> result[i + 1] == TupleFieldLine(ts[i], i)
    ensures result[|ts| + 1] == "};" && result[|ts| + 2] == ""
  {
    var header := "struct " + TupleStructName(ts) + " {";
    result := [header];
    var i := 0;
    while i < |ts|
      invariant 0 <= i <= |ts|
      invariant |result| == i + 1
      invariant result[0] == header
      invariant forall k :: 0 <= k < i ==> result[k + 1] == TupleFieldLine(ts[k], k)
    {
      var line := TupleFieldLine(ts[i], i);
      SnocFields(result, i, line, ts);
      result := result + [line];
      i := i + 1;
    }
    result := result + ["};", ""];
  }

  /** Appending the line of field `i` extends the fields declared so far. */
  lemma SnocFields(result: seq<string>, i: nat, line: string, ts: seq<RType>)
    requires i < |ts| && |result| == i + 1 && line == TupleFieldLine(ts[i], i)
    requires forall k :: 0 <= k < i ==> result[k + 1] == TupleFieldLine(ts[k], k)
    ensures forall k :: 0 <= k < i + 1 ==> (result + [line])[k + 1] == TupleFieldLine(ts[k], k)
  {
    forall k | 0 <= k < i + 1
      ensures (result + [line])[k + 1] == TupleFieldLine(ts[k], k)
    {
      if k < i {
        assert (result + [line])[k + 1] == result[k + 1];
      }
    }
  }

  /** Position of the first attribute with the given name. */
  function FirstAttribute(attrs: seq<Attribute>, name: string): (r: Option<nat>)
    ensures r.Some? ==> (r.value < |attrs| && attrs[r.value].name == name
      && forall j :: 0 <= j < r.value ==> attrs[j].name != name)
    ensures r.None? <==> forall j :: 0 <= j < |attrs| ==> attrs[j].name != name
  {
    if attrs == [] then None
    else if attrs[0].name == name then Some(0)
    else match FirstAttribute(attrs[1..], name)
      case Some(i) => Some(i + 1)
      case None => None
  }

  /** Position of the first method with the given name. */
  function FirstMethod(methods: seq<string>, name: string): (r: Option<nat>)
    ensures r.Some? ==> (r.value < |methods| && methods[r.value] == name
      && forall j :: 0 <= j < r.value ==> methods[j] != name)
    ensures r.None? <==> name !in methods
  {
    if methods == [] then None
    else if methods[0] == name then Some(0)
    else match FirstMethod(methods[1..], name)
      case Some(i) => Some(i + 1)
      case None => None
  }

  /** `RInstance.getter_index`: each attribute takes two slots, getter first. */
  function GetterIndex(cls: ClassLayout, name: string): (r: Result<int>)
    ensures r.Fail? <==> forall j :: 0 <= j < |cls.attributes| ==> cls.attributes[j].name != name
    ensures r.Ok? ==> (r.value % 2 == 0 && 0 <= r.value < 2 * |cls.attributes|
      && cls.attributes[r.value / 2].name == name
      && forall j :: 0 <= j < r.value / 2 ==> cls.attributes[j].name != name)
  {
    match FirstAttribute(cls.attributes, name)
    case Some(i) => Ok(i * 2)
    case None => Fail(cls.name + " has no attribute " + name)
  }

  /** `RInstance.setter_index`: the slot right after the getter. */
  function SetterIndex(cls: ClassLayout, name: string): (r: Result<int>)
    ensures r.Ok? == GetterIndex(cls, name).Ok?
    ensures r.Ok? ==> r.value == GetterIndex(cls, name).value + 1 && r.value % 2 == 1
  {
    var g :- GetterIndex(cls, name);
    Ok(g + 1)
  }

  /** `RInstance.method_index`: method slots follow all attribute slots. */
  function MethodIndex(cls: ClassLayout, name: string): (r: Result<int>)
    ensures r.Fail? <==> name !in cls.methods
    ensures r.Ok? ==> (2 * |cls.attributes| <= r.value < 2 * |cls.attributes| + |cls.methods|
      && cls.methods[r.value - 2 * |cls.attributes|] == name
      && forall j :: 0 <= j < r.value - 2 * |cls.attributes| ==> cls.methods[j] != name)
  {
    match FirstMethod(cls.methods, name)
    case Some(i) => Ok(2 * |cls.attributes| + i)
    case None => Fail(cls.name + " has no attribute " + name)
  }

  /** `RInstance.attr_type`: the type of the first attribute with that name. */
  function AttrType(cls: ClassLayout, name: string): (r: Result<RType>)
    ensures r.Ok? <==> GetterIndex(cls, name).Ok?
    ensures r.Ok? ==> r.value == cls.attributes[GetterIndex(cls, name).value / 2].rtype
  {
    match FirstAttribute(cls.attributes, name)
    case Some(i) => Ok(cls.attributes[i].rtype)
    case None => Fail(cls.name + " has no attribute " + name)
  }

  /** `RInstance.struct_name`, which is the class's `struct_name`. */
  function InstanceStructName(cls: ClassLayout): string {
    cls.name + "Object"
  }

  /** Slot layout of a class with attributes `a: int, b: str` and methods `f, g`. */
  lemma SlotLayoutExample()
    ensures var cls := ClassLayout("C", [Attribute("a", IntRPrimitive), Attribute("b", StrRPrimitive)], ["f", "g"]);
      && GetterIndex(cls, "a") == Ok(0) && SetterIndex(cls, "a") == Ok(1)
      && GetterIndex(cls, "b") == Ok(2) && SetterIndex(cls, "b") == Ok(3)
      && MethodIndex(cls, "f") == Ok(4) && MethodIndex(cls, "g") == Ok(5)
      && GetterIndex(cls, "c").Fail?
  {
    var cls := ClassLayout("C", [Attribute("a", IntRPrimitive), Attribute("b", StrRPrimitive)], ["f", "g"]);
    assert cls.attributes[1..] == [Attribute("b", StrRPrimitive)];
    assert FirstAttribute(cls.attributes[1..], "b") == Some(0);
    assert FirstAttribute(cls.attributes, "b") == Some(1);
    assert cls.methods[1..] == ["g"];
    assert FirstMethod(cls.methods[1..], "g") == Some(0);
    assert FirstMethod(cls.methods, "g") == Some(1);
  }

  /** Number of type constructors in a type; it bounds the recursion of
      `PyEq`, which swaps its operands under `optional`. */
  function Size(t: RType): (n: nat)
    ensures n >= 1
    decreases t
  {
    match t
    case RTuple(ts) => 1 + SizeAll(ts)
    case ROptional(v) => 1 + Size(v)
    case RUnion(ts) => 1 + SizeAll(ts)
    case _ => 1
  }

  function SizeAll(ts: seq<RType>): nat
    decreases ts
  {
    if ts == [] then 0 else Size(ts[0]) + SizeAll(ts[1..])
  }

  /** Python's `==` on runtime types (`RType.__eq__` and its overrides):
      primitives, instances, unions and void compare by name against any
      type, tuples and optionals only against their own kind, structurally. */
  function PyEq(a: RType, b: RType): bool
    decreases Size(a) + Size(b), 0
  {
    match a
    case RTuple(ts) => b.RTuple? && PyEqAll(ts, b.types)
    case ROptional(v) => b.ROptional? && PyEq(b.valueType, v)
    case _ => TypeName(b) == TypeName(a)
  }

  function PyEqAll(xs: seq<RType>, ys: seq<RType>): bool
    decreases SizeAll(xs) + SizeAll(ys), 1
  {
    |xs| == |ys| && (xs == [] || (PyEq(xs[0], ys[0]) && PyEqAll(xs[1..], ys[1..])))
  }

  /** `str()` of a runtime type. */
  function TypeStr(t: RType): string
    decreases t
  {
    match t
    case RTuple(ts) => "tuple[" + Join(TypeStrs(ts), ", ") + "]"
    case ROptional(v) => "optional[" + TypeStr(v) + "]"
    case _ => ShortName(TypeName(t))
  }

  function TypeStrs(ts: seq<RType>): (r: seq<string>)
    decreases ts
    ensures |r| == |ts|
  {
    if ts == [] then [] else [TypeStr(ts[0])] + TypeStrs(ts[1..])
  }
}
