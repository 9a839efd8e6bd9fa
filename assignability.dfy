/** `is_assignable(target, source)`: which source type a target accepts, together with the
    diagnostics the check appends while it decides (only interface mismatches report). */
module Assignability {
  import opened Wrappers
  import opened Types
  import opened Diagnostics

  /** The verdict and the diagnostics appended, in order. Interfaces are compared field by
      field and stop at the first missing, mismatched or extra field. */
  function Assign(target: Option<Type>, source: Option<Type>): (r: (bool, seq<Diag>))
    decreases target, 1
  {
    if target.None? || source.None? then (false, [])
    else
      var t, s := target.value, source.value;
      if t.Primitive? && s.Primitive? then
        if s.name == "unknown" && (t.name == "string" || t.name == "number") then (true, [])
        else (TypesEqual(target, source), [])
      else if t.Array? && s.Array? then
        if s.elem.Some? && s.elem.value.Primitive? && s.elem.value.name == "unknown" then (true, [])
        else if t.elem.Some? && t.elem.value.Interface? && s.elem.Some? && s.elem.value.Interface?
                && s.elem.value.id == ObjLiteralId then
          Assign(t.elem, s.elem)
        else (TypesEqual(target, source), [])
      else if t.Interface? && s.Interface? then
        AssignFields(t, s, 0)
      else (false, [])
  }

  /** The loop over the target's fields from the `i`-th on, then the check for extra fields. */
  function AssignFields(t: Type, s: Type, i: nat): (r: (bool, seq<Diag>))
    requires t.Interface? && s.Interface?
    decreases t, 0, |t.props| - i
  {
    if i >= |t.props| then ExtraFields(t, s, 0)
    else
      var f := t.props[i];
      var k := FindField(s.props, f.name);
      if k.None? then (false, [FieldMissing(f.name, t.id)])
      else
        var found := s.props[k.value].ty;
        var sub := Assign(f.ty, found);
        if !sub.0 then (false, sub.1 + [FieldTypeMismatch(f.name, f.ty, found)])
        else
          var rest := AssignFields(t, s, i + 1);
          (rest.0, sub.1 + rest.1)
  }

  /** The loop over the source's fields from the `j`-th on: the first one the target lacks
      is reported. */
  function ExtraFields(t: Type, s: Type, j: nat): (r: (bool, seq<Diag>))
    requires t.Interface? && s.Interface?
    decreases |s.props| - j
  {
    if j >= |s.props| then (true, [])
    else if !HasField(t.props, s.props[j].name) then (false, [FieldExtra(s.props[j].name, t.id)])
    else ExtraFields(t, s, j + 1)
  }

  // ---------------------------------------------------------------------------
  // Properties
  // ---------------------------------------------------------------------------

  /** An accepted assignment never reports anything. */
  lemma {:induction false} AcceptedReportsNothing(target: Option<Type>, source: Option<Type>)
    ensures Assign(target, source).0 ==> Assign(target, source).1 == []
    decreases target, 1
  {
    if target.Some? && source.Some? {
      var t, s := target.value, source.value;
      if t.Array? && s.Array? && t.elem.Some? && s.elem.Some? {
        AcceptedReportsNothing(t.elem, s.elem);
      } else if t.Interface? && s.Interface? {
        AcceptedFieldsReportNothing(t, s, 0);
      }
    }
  }

  lemma {:induction false} AcceptedFieldsReportNothing(t: Type, s: Type, i: nat)
    requires t.Interface? && s.Interface?
    ensures AssignFields(t, s, i).0 ==> AssignFields(t, s, i).1 == []
    decreases t, 0, |t.props| - i
  {
    if i >= |t.props| {
      ExtraFieldsReport(t, s, 0);
    } else {
      var k := FindField(s.props, t.props[i].name);
      if k.Some? {
        AcceptedReportsNothing(t.props[i].ty, s.props[k.value].ty);
        AcceptedFieldsReportNothing(t, s, i + 1);
      }
    }
  }

  lemma {:induction false} ExtraFieldsReport(t: Type, s: Type, j: nat)
    requires t.Interface? && s.Interface?
    ensures ExtraFields(t, s, j).0 <==> ExtraFields(t, s, j).1 == []
    ensures ExtraFields(t, s, j).0 <==> forall m :: j <= m < |s.props| ==> HasField(t.props, s.props[m].name)
    decreases |s.props| - j
  {
    if j < |s.props| {
      ExtraFieldsReport(t, s, j + 1);
    }
  }

  /** A rejected interface assignment reports, and its last diagnostic names the first
      field that is missing from the source, has an incompatible type, or is extra. */
  lemma {:induction false} RejectedInterfaceReports(t: Type, s: Type, i: nat)
    requires t.Interface? && s.Interface?
    ensures var r := AssignFields(t, s, i);
      !r.0 ==> r.1 != [] && (r.1[|r.1| - 1].FieldMissing? || r.1[|r.1| - 1].FieldTypeMismatch? ||
                             r.1[|r.1| - 1].FieldExtra?)
    decreases |t.props| - i
  {
    if i >= |t.props| {
      ExtraFieldsReport(t, s, 0);
      ExtraFieldsLast(t, s, 0);
    } else {
      var k := FindField(s.props, t.props[i].name);
      if k.Some? {
        var sub := Assign(t.props[i].ty, s.props[k.value].ty);
        if sub.0 {
          AcceptedReportsNothing(t.props[i].ty, s.props[k.value].ty);
          RejectedInterfaceReports(t, s, i + 1);
        }
      }
    }
  }

  lemma {:induction false} ExtraFieldsLast(t: Type, s: Type, j: nat)
    requires t.Interface? && s.Interface?
    ensures var r := ExtraFields(t, s, j); !r.0 ==> |r.1| == 1 && r.1[0].FieldExtra?
    decreases |s.props| - j
  {
    if j < |s.props| {
      ExtraFieldsLast(t, s, j + 1);
    }
  }

  predicate FieldDiag(d: Diag) {
    d.FieldMissing? || d.FieldTypeMismatch? || d.FieldExtra?
  }

  /** The only diagnostics an assignability check appends are about interface fields. */
  lemma {:induction false} AssignReportsFieldDiags(target: Option<Type>, source: Option<Type>)
    ensures forall d :: d in Assign(target, source).1 ==> FieldDiag(d)
    decreases target, 1
  {
    if target.Some? && source.Some? {
      var t, s := target.value, source.value;
      if t.Array? && s.Array? && t.elem.Some? && s.elem.Some? {
        AssignReportsFieldDiags(t.elem, s.elem);
      } else if t.Interface? && s.Interface? {
        AssignFieldsReportFieldDiags(t, s, 0);
      }
    }
  }

  lemma {:induction false} AssignFieldsReportFieldDiags(t: Type, s: Type, i: nat)
    requires t.Interface? && s.Interface?
    ensures forall d :: d in AssignFields(t, s, i).1 ==> FieldDiag(d)
    decreases t, 0, |t.props| - i
  {
    if i >= |t.props| {
      ExtraFieldsLast(t, s, 0);
      ExtraFieldsReport(t, s, 0);
    } else {
      var k := FindField(s.props, t.props[i].name);
      if k.Some? {
        AssignReportsFieldDiags(t.props[i].ty, s.props[k.value].ty);
        AssignFieldsReportFieldDiags(t, s, i + 1);
      }
    }
  }

  /** Exact shape: an interface accepts another iff each of its fields is present in the
      source with an assignable type and the source has no field it lacks. */
  lemma ExactShape(t: Type, s: Type)
    requires t.Interface? && s.Interface?
    ensures Assign(Some(t), Some(s)).0 <==>
      (forall i :: 0 <= i < |t.props| ==>
         HasField(s.props, t.props[i].name) &&
         Assign(t.props[i].ty, FieldType(s.props, t.props[i].name)).0) &&
      (forall j :: 0 <= j < |s.props| ==> HasField(t.props, s.props[j].name))
  {
    ExactShapeFrom(t, s, 0);
  }

  lemma {:induction false} ExactShapeFrom(t: Type, s: Type, i: nat)
    requires t.Interface? && s.Interface?
    ensures AssignFields(t, s, i).0 <==>
      (forall m :: i <= m < |t.props| ==>
         HasField(s.props, t.props[m].name) &&
         Assign(t.props[m].ty, FieldType(s.props, t.props[m].name)).0) &&
      (forall j :: 0 <= j < |s.props| ==> HasField(t.props, s.props[j].name))
    decreases |t.props| - i
  {
    if i >= |t.props| {
      ExtraFieldsReport(t, s, 0);
    } else {
      ExactShapeFrom(t, s, i + 1);
      var f := t.props[i];
      var k := FindField(s.props, f.name);
      if k.Some? {
        var sub := Assign(f.ty, s.props[k.value].ty);
        assert FieldType(s.props, f.name) == s.props[k.value].ty;
        if sub.0 {
          assert AssignFields(t, s, i).0 == AssignFields(t, s, i + 1).0;
        }
      }
    }
  }

  /** Primitives: an exact name match, or `unknown` (what `read()` yields) into `string` or
      `number`. */
  lemma PrimitiveAssignable(tn: string, sn: string)
    ensures Assign(Some(Primitive(tn)), Some(Primitive(sn))).0 <==>
      tn == sn || (sn == "unknown" && (tn == "string" || tn == "number"))
    ensures Assign(Some(Primitive(tn)), Some(Primitive(sn))).1 == []
  {
  }

  /** The relation is not symmetric: `unknown` goes into `string` but not back, and never
      into `boolean`. */
  lemma UnknownOneWay()
    ensures Assign(Some(String), Some(Unknown)).0
    ensures Assign(Some(Number), Some(Unknown)).0
    ensures !Assign(Some(Unknown), Some(String)).0
    ensures !Assign(Some(Boolean), Some(Unknown)).0
  {
  }

  /** The type of an empty array literal goes into every array type. */
  lemma EmptyArrayAssignable(elem: Option<Type>)
    ensures Assign(Some(Array(elem)), Some(Array(Some(Unknown)))) == (true, [])
  {
  }

  /** Types of different kinds never accept one another, and an absent type is never
      accepted nor accepts. */
  lemma MixedKindsRejected(target: Option<Type>, source: Option<Type>)
    requires target.None? || source.None? ||
      (target.value.Primitive? != source.value.Primitive?) ||
      (target.value.Array? != source.value.Array?)
    ensures Assign(target, source) == (false, [])
  {
  }

  /** Every complete type accepts itself. */
  lemma {:induction false} AssignReflexive(t: Type)
    requires Complete(t)
    ensures Assign(Some(t), Some(t)).0
    decreases t, 1
  {
    match t
    case Primitive(_) =>
    case Array(e) =>
      EqualReflexive(e.value);
      if e.value.Interface? && e.value.id == ObjLiteralId {
        AssignReflexive(e.value);
      }
    case Interface(_, _) =>
      AssignFieldsReflexive(t, 0);
  }

  lemma {:induction false} AssignFieldsReflexive(t: Type, i: nat)
    requires t.Interface? && Complete(t) && CompleteFields(t, i)
    ensures AssignFields(t, t, i).0
    decreases t, 0, |t.props| - i
  {
    if i >= |t.props| {
      assert forall m :: 0 <= m < |t.props| ==> HasField(t.props, t.props[m].name) by {
        forall m | 0 <= m < |t.props| ensures HasField(t.props, t.props[m].name) {
          FindFieldAt(t.props, m);
        }
      }
      ExtraFieldsReport(t, t, 0);
    } else {
      AssignReflexive(t.props[i].ty.value);
      AssignFieldsReflexive(t, i + 1);
    }
  }

  lemma {:induction false} FindFieldAt(props: seq<Field>, m: nat)
    requires m < |props|
    ensures HasField(props, props[m].name)
  {
    if props[0].name != props[m].name {
      FindFieldAt(props[1..], m - 1);
    }
  }

  /** `types_equal` is reflexive on complete types... */
  lemma {:induction false} EqualReflexive(t: Type)
    requires Complete(t)
    ensures TypesEqual(Some(t), Some(t))
  {
    if t.Array? {
      EqualReflexive(t.elem.value);
    }
  }

  /** ... and symmetric. */
  lemma {:induction false} EqualSymmetric(a: Option<Type>, b: Option<Type>)
    ensures TypesEqual(a, b) == TypesEqual(b, a)
    decreases a
  {
    if a.Some? && b.Some? && a.value.Array? && b.value.Array? {
      EqualSymmetric(a.value.elem, b.value.elem);
    }
  }

  /** Interfaces are equal exactly when their ids are, whatever their fields. */
  lemma InterfacesEqualById(id1: string, p1: seq<Field>, id2: string, p2: seq<Field>)
    ensures TypesEqual(Some(Interface(id1, p1)), Some(Interface(id2, p2))) <==> id1 == id2
  {
  }
}
