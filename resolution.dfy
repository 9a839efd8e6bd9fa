/** Turning type annotations into types: `_parse_type` on the annotation's text and
    `type_from_ctx` on its parse tree. Both look interface names up in the registry and
    report the names they cannot resolve. */
module Resolution {
  import opened Wrappers
  import opened Strings
  import opened Types
  import opened Ast
  import opened Diagnostics

  predicate IsTypeKeyword(s: string) {
    s == "number" || s == "string" || s == "boolean" || s == "void"
  }

  /** `_parse_type(text)`: peels one trailing `[]` at a time, then resolves a keyword or a
      registered interface; anything else is reported and becomes `<unknown:text>`. */
  function ParseType(text: string, interfaces: map<string, Type>): (r: (Type, seq<Diag>))
    decreases |text|
  {
    if EndsWith(text, "[]") then
      var inner := ParseType(text[..|text| - 2], interfaces);
      (Array(Some(inner.0)), inner.1)
    else if IsTypeKeyword(text) then (Primitive(text), [])
    else if text in interfaces then (interfaces[text], [])
    else (Interface("<unknown:" + text + ">", []), [TypeNotFound(text)])
  }

  /** A type that `ParseType` can read back from its name: keyword primitives, arrays of
      such types, and interfaces registered under their own id. */
  predicate Denotable(t: Type, interfaces: map<string, Type>) {
    match t
    case Primitive(n) => IsTypeKeyword(n)
    case Array(e) => e.Some? && Denotable(e.value, interfaces)
    case Interface(id, _) =>
      id in interfaces && interfaces[id] == t && !EndsWith(id, "[]") && !IsTypeKeyword(id)
  }

  lemma {:induction false} DenotableIsNamed(t: Type, interfaces: map<string, Type>)
    requires Denotable(t, interfaces)
    ensures Named(t)
  {
    if t.Array? {
      DenotableIsNamed(t.elem.value, interfaces);
    }
  }

  /** Parsing a type's name gives the type back, with no diagnostic. */
  lemma {:induction false} ParseTypeName(t: Type, interfaces: map<string, Type>)
    requires Denotable(t, interfaces)
    ensures Named(t) && ParseType(TypeName(t), interfaces) == (t, [])
  {
    DenotableIsNamed(t, interfaces);
    match t
    case Primitive(n) =>
      assert !EndsWith(n, "[]");
    case Array(e) =>
      var s := TypeName(t);
      assert s == TypeName(e.value) + "[]";
      assert EndsWith(s, "[]");
      assert s[..|s| - 2] == TypeName(e.value);
      ParseTypeName(e.value, interfaces);
    case Interface(id, _) =>
  }

  /** The text of an annotation: the base followed by `[]` per dimension. */
  function TypeExprText(te: TypeExpr): string {
    BaseText(te.base) + Brackets(te.dims)
  }

  function BaseText(b: BaseType): string {
    match b
    case NumberKw => "number"
    case StringKw => "string"
    case BooleanKw => "boolean"
    case NamedType(id) => id
  }

  function Brackets(n: nat): string {
    if n == 0 then "" else Brackets(n - 1) + "[]"
  }

  /** The base type of an annotation: keywords, `void`, a registered interface, or an
      unresolved name reported and replaced by `<unknown:name>`. */
  function ResolveBase(b: BaseType, interfaces: map<string, Type>): (Type, seq<Diag>) {
    match b
    case NumberKw => (Number, [])
    case StringKw => (String, [])
    case BooleanKw => (Boolean, [])
    case NamedType(id) =>
      if id == "void" then (Void, [])
      else if id in interfaces then (interfaces[id], [])
      else (Interface("<unknown:" + id + ">", []), [InterfaceNotDeclared(id)])
  }

  /** `type_from_ctx`: the base type, wrapped in ONE array level whenever the annotation
      ends with `[]`, whatever the number of bracket pairs. */
  function TypeFromCtx(te: TypeExpr, interfaces: map<string, Type>): (Type, seq<Diag>) {
    var (base, diags) := ResolveBase(te.base, interfaces);
    if te.dims > 0 then (Array(Some(base)), diags) else (base, diags)
  }

  lemma {:induction false} BracketsText(n: nat)
    ensures |Brackets(n)| == 2 * n
    ensures n > 0 ==> EndsWith(Brackets(n), "[]")
  {
    if n > 0 {
      BracketsText(n - 1);
    }
  }

  /** The two resolvers agree on an annotation with at most one bracket pair whose base is a
      keyword, `void` or a registered interface with an ordinary name. */
  lemma {:induction false} TypeFromCtxAgreesWithParseType(te: TypeExpr, interfaces: map<string, Type>)
    requires te.dims <= 1
    requires te.base.NamedType? ==>
      (te.base.id == "void" || te.base.id in interfaces) &&
      !EndsWith(te.base.id, "[]") && (IsTypeKeyword(te.base.id) ==> te.base.id == "void")
    ensures TypeFromCtx(te, interfaces) == ParseType(TypeExprText(te), interfaces)
  {
    var b := BaseText(te.base);
    assert !EndsWith(b, "[]");
    if te.dims == 1 {
      var s := TypeExprText(te);
      assert s == b + "[]";
      assert EndsWith(s, "[]");
      assert s[..|s| - 2] == b;
    } else {
      assert TypeExprText(te) == b;
    }
  }

  /** With two or more bracket pairs the resolvers disagree: `number[][]` resolves to
      `number[]` from the parse tree but to `number[][]` from its text. */
  lemma NestedArrayAnnotation(interfaces: map<string, Type>)
    ensures TypeFromCtx(TypeExpr(NumberKw, 2), interfaces).0 == Array(Some(Number))
    ensures ParseType("number[][]", interfaces).0 == Array(Some(Array(Some(Number))))
  {
    assert EndsWith("number[][]", "[]");
    assert "number[][]"[..8] == "number[]";
    assert EndsWith("number[]", "[]");
    assert "number[]"[..6] == "number";
    assert !EndsWith("number", "[]");
  }
}
