/** The analyzer's type system: primitive, array and interface types, the ordered property
    maps of interfaces, type equality and type names. */
module Types {
  import opened Wrappers
  import opened Strings

  /** A type of the language. An array element or a property may have no type (`None`)
      when the expression it came from had none, as in the source. */
  datatype Type =
    | Primitive(name: string)
    | Array(elem: Option<Type>)
    | Interface(id: string, props: seq<Field>)

  /** One entry of an interface's insertion-ordered property dictionary. */
  datatype Field = Field(name: string, ty: Option<Type>)

  const Number := Primitive("number")
  const String := Primitive("string")
  const Boolean := Primitive("boolean")
  const Void := Primitive("void")
  const Unknown := Primitive("unknown")

  /** The id given to the anonymous interface an object literal produces. */
  const ObjLiteralId := "<obj-literal>"

  /** The position of `name` among the properties (`name in props`), the first if repeated. */
  function FindField(props: seq<Field>, name: string): (r: Option<nat>)
    ensures r.Some? ==> r.value < |props| && props[r.value].name == name
    ensures r.Some? ==> forall j :: 0 <= j < r.value ==> props[j].name != name
    ensures r.None? ==> forall j :: 0 <= j < |props| ==> props[j].name != name
  {
    if props == [] then None
    else if props[0].name == name then Some(0)
    else
      var r := FindField(props[1..], name);
      if r.Some? then Some(r.value + 1) else None
  }

  predicate HasField(props: seq<Field>, name: string) {
    FindField(props, name).Some?
  }

  /** `props[name]`. */
  function FieldType(props: seq<Field>, name: string): Option<Type>
    requires HasField(props, name)
  {
    props[FindField(props, name).value].ty
  }

  /** `props[name] = ty` on an insertion-ordered dictionary: an existing key keeps its
      position and gets the new value, a new key goes last. */
  function SetField(props: seq<Field>, name: string, ty: Option<Type>): (r: seq<Field>)
    ensures HasField(r, name) && FieldType(r, name) == ty
    ensures forall n :: n != name ==> (HasField(r, n) <==> HasField(props, n))
    ensures forall n :: n != name && HasField(props, n) ==> FieldType(r, n) == FieldType(props, n)
    ensures HasField(props, name) ==> |r| == |props|
    ensures !HasField(props, name) ==> |r| == |props| + 1
  {
    var k := FindField(props, name);
    if k.Some? then
      var r := props[k.value := Field(name, ty)];
      assert forall n :: FindField(r, n) == FindField(props, n) by {
        forall n ensures FindField(r, n) == FindField(props, n) {
          FindFieldUpdate(props, k.value, name, ty, n);
        }
      }
      r
    else
      var r := props + [Field(name, ty)];
      assert forall n :: n != name ==> FindField(r, n) == FindField(props, n) by {
        forall n | n != name ensures FindField(r, n) == FindField(props, n) {
          FindFieldAppend(props, Field(name, ty), n);
        }
      }
      FindFieldAppend(props, Field(name, ty), name);
      r
  }

  lemma {:induction false} FindFieldUpdate(props: seq<Field>, k: nat, name: string, ty: Option<Type>, n: string)
    requires FindField(props, name) == Some(k)
    ensures FindField(props[k := Field(name, ty)], n) == FindField(props, n)
  {
    if props[0].name != name {
      assert props[k := Field(name, ty)][1..] == props[1..][k - 1 := Field(name, ty)];
      FindFieldUpdate(props[1..], k - 1, name, ty, n);
    }
  }

  lemma {:induction false} FindFieldAppend(props: seq<Field>, f: Field, n: string)
    ensures FindField(props + [f], n) ==
      (if HasField(props, n) then FindField(props, n) else if f.name == n then Some(|props|) else None)
  {
    if props != [] {
      assert (props + [f])[1..] == props[1..] + [f];
      FindFieldAppend(props[1..], f, n);
    }
  }

  /** `types_equal`: primitives by name, arrays by element, interfaces by id only;
      an absent type equals nothing. */
  function TypesEqual(a: Option<Type>, b: Option<Type>): bool
    decreases a
  {
    if a.None? || b.None? then false
    else match (a.value, b.value)
      case (Primitive(x), Primitive(y)) => x == y
      case (Array(x), Array(y)) => TypesEqual(x, y)
      case (Interface(x, _), Interface(y, _)) => x == y
      case _ => false
  }

  /** A type with no absent part: every array has an element type, every property a type,
      and property names are distinct (a dictionary). */
  predicate Complete(t: Type)
    decreases t, 1
  {
    match t
    case Primitive(_) => true
    case Array(e) => e.Some? && Complete(e.value)
    case Interface(_, props) => CompleteFields(t, 0)
  }

  predicate CompleteFields(t: Type, i: nat)
    requires t.Interface?
    decreases t, 0, |t.props| - i
  {
    i >= |t.props| ||
      (t.props[i].ty.Some? && Complete(t.props[i].ty.value) &&
       FindField(t.props, t.props[i].name) == Some(i) && CompleteFields(t, i + 1))
  }

  /** A type whose `name()` can be formed: no array with an absent element. */
  predicate Named(t: Type) {
    t.Array? ==> t.elem.Some? && Named(t.elem.value)
  }

  /** `Type.name()`: the primitive name, `T[]` for arrays, the id for interfaces. */
  function TypeName(t: Type): string
    requires Named(t)
  {
    match t
    case Primitive(n) => n
    case Array(e) => TypeName(e.value) + "[]"
    case Interface(id, _) => id
  }

  lemma {:induction false} TypeNameOfArray(t: Type)
    requires t.Array? && Named(t)
    ensures EndsWith(TypeName(t), "[]")
    ensures TypeName(t)[..|TypeName(t)| - 2] == TypeName(t.elem.value)
  {
  }
}
