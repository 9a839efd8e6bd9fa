/** What analyzing an expression yields depends only on the symbol table and the function
    context, not on the diagnostics reported before it nor on the call graph: from two
    states that agree on everything else, an expression gets the same type and appends
    the same diagnostics. This lets an array literal be described element by element,
    each element analyzed on its own. */
module SemanticIndependence {
  import opened Wrappers
  import opened Types
  import opened Ast
  import opened Diagnostics
  import opened Assignability
  import opened Semantic
  import opened SemanticProps

  /** Two states that differ at most in their error lists and call graphs. */
  predicate Agree(a: AState, b: AState) {
    a.vars == b.vars && a.funcs == b.funcs && a.interfaces == b.interfaces &&
    a.currentFunction == b.currentFunction && a.expectedReturn == b.expectedReturn &&
    a.returnSeen == b.returnSeen
  }

  /** The steps from `a` to `a2` and from `b` to `b2` appended the same diagnostics and end
      in states that agree. */
  predicate Parallel(a: AState, a2: AState, b: AState, b2: AState) {
    Agree(a2, b2) && a.errors <= a2.errors && b.errors <= b2.errors &&
    a2.errors[|a.errors|..] == b2.errors[|b.errors|..]
  }

  lemma ParallelTrans(a: AState, a1: AState, a2: AState, b: AState, b1: AState, b2: AState)
    requires Parallel(a, a1, b, b1) && Parallel(a1, a2, b1, b2)
    ensures Parallel(a, a2, b, b2)
  {
    assert a2.errors[|a.errors|..] == a1.errors[|a.errors|..] + a2.errors[|a1.errors|..];
    assert b2.errors[|b.errors|..] == b1.errors[|b.errors|..] + b2.errors[|b1.errors|..];
  }

  lemma AddErrsParallel(a: AState, b: AState, ds: seq<Diag>)
    requires Agree(a, b)
    ensures Parallel(a, AddErrs(a, ds), b, AddErrs(b, ds))
  {
    assert AddErrs(a, ds).errors[|a.errors|..] == ds;
    assert AddErrs(b, ds).errors[|b.errors|..] == ds;
  }

  lemma ErrParallel(a: AState, b: AState, d: Diag)
    requires Agree(a, b)
    ensures Parallel(a, Err(a, d), b, Err(b, d))
  {
    AddErrsParallel(a, b, [d]);
  }

  lemma SameParallel(a: AState, b: AState)
    requires Agree(a, b)
    ensures Parallel(a, a, b, b)
  {
  }

  // ---------------------------------------------------------------------------
  // Expressions
  // ---------------------------------------------------------------------------

  lemma {:induction false} ExprSame(a: AState, b: AState, e: Expr)
    requires Agree(a, b)
    ensures AnalyzeExpr(a, e).1 == AnalyzeExpr(b, e).1
    ensures Parallel(a, AnalyzeExpr(a, e).0, b, AnalyzeExpr(b, e).0)
    decreases e, 3
  {
    match e
    case Assign(_, _, _) => AssignSame(a, b, e);
    case Binary(_, _, _, _) => BinarySame(a, b, e);
    case Unary(_, operand, _) => ExprSame(a, b, operand);
    case Postfix(_, _, _) => PostfixSame(a, b, e);
  }

  lemma {:induction false} AssignSame(a: AState, b: AState, e: Expr)
    requires Agree(a, b) && e.Assign?
    ensures AnalyzeAssign(a, e).1 == AnalyzeAssign(b, e).1
    ensures Parallel(a, AnalyzeAssign(a, e).0, b, AnalyzeAssign(b, e).0)
    decreases e, 2
  {
    var (a1, lt) := AnalyzeExpr(a, e.target);
    var (b1, _) := AnalyzeExpr(b, e.target);
    ExprSame(a, b, e.target);
    var name := e.target.text;
    var isConst := name in a1.vars && a1.vars[name].isConst;
    var a2 := if isConst then Err(a1, ConstReassignment(name)) else a1;
    var b2 := if isConst then Err(b1, ConstReassignment(name)) else b1;
    if isConst {
      ErrParallel(a1, b1, ConstReassignment(name));
    }
    ParallelTrans(a, a1, a2, b, b1, b2);
    AssignValueSame(a2, b2, lt, e.value);
    ParallelTrans(a, a2, AssignValue(a2, lt, e.value), b, b2, AssignValue(b2, lt, e.value));
  }

  lemma {:induction false} AssignValueSame(a: AState, b: AState, lt: Option<Type>, value: Expr)
    requires Agree(a, b)
    ensures Parallel(a, AssignValue(a, lt, value), b, AssignValue(b, lt, value))
    decreases value, 4
  {
    var (a1, rt) := AnalyzeExpr(a, value);
    var (b1, _) := AnalyzeExpr(b, value);
    ExprSame(a, b, value);
    if lt.Some? && rt.Some? {
      var (ok, ds) := Assignability.Assign(lt, rt);
      AddErrsParallel(a1, b1, ds);
      ParallelTrans(a, a1, AddErrs(a1, ds), b, b1, AddErrs(b1, ds));
      if !ok {
        var d := AssignmentMismatch(lt.value, rt.value);
        ErrParallel(AddErrs(a1, ds), AddErrs(b1, ds), d);
        ParallelTrans(a, AddErrs(a1, ds), Err(AddErrs(a1, ds), d), b, AddErrs(b1, ds), Err(AddErrs(b1, ds), d));
      }
    }
  }

  lemma {:induction false} BinarySame(a: AState, b: AState, e: Expr)
    requires Agree(a, b) && e.Binary?
    ensures AnalyzeBinary(a, e).1 == AnalyzeBinary(b, e).1
    ensures Parallel(a, AnalyzeBinary(a, e).0, b, AnalyzeBinary(b, e).0)
    decreases e, 2
  {
    var (a1, left) := AnalyzeExpr(a, e.first);
    var (b1, _) := AnalyzeExpr(b, e.first);
    ExprSame(a, b, e.first);
    ChainSame(a1, b1, e, 0, left);
    ParallelTrans(a, a1, AnalyzeChain(a1, e, 0, left).0, b, b1, AnalyzeChain(b1, e, 0, left).0);
  }

  lemma {:induction false} ChainSame(a: AState, b: AState, e: Expr, i: nat, left: Option<Type>)
    requires Agree(a, b) && e.Binary?
    ensures AnalyzeChain(a, e, i, left).1 == AnalyzeChain(b, e, i, left).1
    ensures Parallel(a, AnalyzeChain(a, e, i, left).0, b, AnalyzeChain(b, e, i, left).0)
    decreases e, 0, |e.rest| - i
  {
    if i < |e.rest| {
      var (a1, right) := AnalyzeExpr(a, e.rest[i].arg);
      var (b1, _) := AnalyzeExpr(b, e.rest[i].arg);
      ExprSame(a, b, e.rest[i].arg);
      var known := left.Some? && right.Some?;
      var a2 := if known then Validate(a1, e.level, e.rest[i].op, left.value, right.value) else a1;
      var b2 := if known then Validate(b1, e.level, e.rest[i].op, left.value, right.value) else b1;
      if known {
        ValidateSame(a1, b1, e.level, e.rest[i].op, left.value, right.value);
      }
      ParallelTrans(a, a1, a2, b, b1, b2);
      var next := Some(LevelResult(e.level));
      assert AnalyzeChain(a, e, i, left) == AnalyzeChain(a2, e, i + 1, next);
      assert AnalyzeChain(b, e, i, left) == AnalyzeChain(b2, e, i + 1, next);
      ChainSame(a2, b2, e, i + 1, next);
      ParallelTrans(a, a2, AnalyzeChain(a2, e, i + 1, next).0, b, b2, AnalyzeChain(b2, e, i + 1, next).0);
    }
  }

  lemma ValidateSame(a: AState, b: AState, level: Level, op: BinOp, l: Type, r: Type)
    requires Agree(a, b)
    ensures Parallel(a, Validate(a, level, op, l, r), b, Validate(b, level, op, l, r))
  {
    var va := Validate(a, level, op, l, r);
    var vb := Validate(b, level, op, l, r);
    if va == a {
      assert vb == b;
    } else {
      var d := va.errors[|a.errors|];
      assert va == Err(a, d) && vb == Err(b, d);
      ErrParallel(a, b, d);
    }
  }

  lemma {:induction false} PostfixSame(a: AState, b: AState, e: Expr)
    requires Agree(a, b) && e.Postfix?
    ensures AnalyzePostfix(a, e).1 == AnalyzePostfix(b, e).1
    ensures Parallel(a, AnalyzePostfix(a, e).0, b, AnalyzePostfix(b, e).0)
    decreases e, 2
  {
    var primaryId := if e.primary.Ident? then Some(e.primary.name) else None;
    var (a1, t) := AnalyzePrimary(a, e.primary);
    var (b1, _) := AnalyzePrimary(b, e.primary);
    PrimarySame(a, b, e.primary);
    OpsSame(a1, b1, e, primaryId, 0, t);
    ParallelTrans(a, a1, AnalyzeOps(a1, e, primaryId, 0, t).0, b, b1, AnalyzeOps(b1, e, primaryId, 0, t).0);
  }

  lemma {:induction false} OpsSame(a: AState, b: AState, e: Expr, primaryId: Option<string>, i: nat, t: Option<Type>)
    requires Agree(a, b) && e.Postfix?
    ensures AnalyzeOps(a, e, primaryId, i, t).1 == AnalyzeOps(b, e, primaryId, i, t).1
    ensures Parallel(a, AnalyzeOps(a, e, primaryId, i, t).0, b, AnalyzeOps(b, e, primaryId, i, t).0)
    decreases e, 0, |e.ops| - i
  {
    if i < |e.ops| {
      match e.ops[i]
      case Index(_) =>
        if t.Some? && t.value.Array? {
          OpsSame(a, b, e, primaryId, i + 1, t.value.elem);
        } else {
          ErrParallel(a, b, IndexOnNonArray);
        }
      case Member(name) =>
        if t.Some? && t.value.Interface? {
          if HasField(t.value.props, name) {
            OpsSame(a, b, e, primaryId, i + 1, FieldType(t.value.props, name));
          } else {
            ErrParallel(a, b, FieldNotFound(name, t.value.id));
          }
        } else {
          ErrParallel(a, b, MemberOnNonInterface);
        }
      case Call(args) =>
        if i == 0 && primaryId.Some? && primaryId.value in a.funcs {
          var f := primaryId.value;
          var a1 := AnalyzeCall(a, f, args);
          var b1 := AnalyzeCall(b, f, args);
          CallSame(a, b, f, args);
          var rt := Some(a.funcs[f].returnType);
          assert AnalyzeOps(a, e, primaryId, i, t) == AnalyzeOps(a1, e, primaryId, i + 1, rt);
          assert AnalyzeOps(b, e, primaryId, i, t) == AnalyzeOps(b1, e, primaryId, i + 1, rt);
          OpsSame(a1, b1, e, primaryId, i + 1, rt);
          ParallelTrans(a, a1, AnalyzeOps(a1, e, primaryId, i + 1, rt).0, b, b1, AnalyzeOps(b1, e, primaryId, i + 1, rt).0);
        } else {
          OpsSame(a, b, e, primaryId, i + 1, t);
        }
    }
  }

  lemma {:induction false} CallSame(a: AState, b: AState, f: string, args: seq<Expr>)
    requires Agree(a, b)
    ensures Parallel(a, AnalyzeCall(a, f, args), b, AnalyzeCall(b, f, args))
    decreases args, 1
  {
    var isPrint := f == "print" && |args| == 1;
    var a1 := if isPrint then CheckPrintArg(a, args[0]) else a;
    var b1 := if isPrint then CheckPrintArg(b, args[0]) else b;
    if isPrint {
      PrintArgSame(a, b, args[0]);
    }
    var isRead := f == "read" && |args| != 0;
    var a2 := if isRead then Err(a1, ReadTakesNoArguments) else a1;
    var b2 := if isRead then Err(b1, ReadTakesNoArguments) else b1;
    ReadRecordSame(a1, b1, a2, b2, f, isRead);
    ParallelTrans(a, a1, RecordCall(a2, f), b, b1, RecordCall(b2, f));
  }

  lemma ReadRecordSame(a1: AState, b1: AState, a2: AState, b2: AState, f: string, isRead: bool)
    requires Agree(a1, b1)
    requires a2 == (if isRead then Err(a1, ReadTakesNoArguments) else a1)
    requires b2 == (if isRead then Err(b1, ReadTakesNoArguments) else b1)
    ensures Parallel(a1, RecordCall(a2, f), b1, RecordCall(b2, f))
  {
    if isRead {
      ErrParallel(a1, b1, ReadTakesNoArguments);
    }
    assert Parallel(a2, RecordCall(a2, f), b2, RecordCall(b2, f));
    ParallelTrans(a1, a2, RecordCall(a2, f), b1, b2, RecordCall(b2, f));
  }

  lemma {:induction false} PrintArgSame(a: AState, b: AState, arg: Expr)
    requires Agree(a, b)
    ensures Parallel(a, CheckPrintArg(a, arg), b, CheckPrintArg(b, arg))
    decreases arg, 4
  {
    var (a1, at) := AnalyzeExpr(a, arg);
    var (b1, _) := AnalyzeExpr(b, arg);
    ExprSame(a, b, arg);
    if !IsPrintable(at) {
      ErrParallel(a1, b1, InvalidPrintArgument);
      ParallelTrans(a, a1, Err(a1, InvalidPrintArgument), b, b1, Err(b1, InvalidPrintArgument));
    }
  }

  lemma {:induction false} PrimarySame(a: AState, b: AState, p: Primary)
    requires Agree(a, b)
    ensures AnalyzePrimary(a, p).1 == AnalyzePrimary(b, p).1
    ensures Parallel(a, AnalyzePrimary(a, p).0, b, AnalyzePrimary(b, p).0)
    decreases p, 1
  {
    match p
    case Lit(_) =>
    case Ident(x) =>
      if x !in a.vars && x !in a.funcs {
        ErrParallel(a, b, Undeclared(x));
      }
    case Paren(inner) => ExprSame(a, b, inner);
    case ArrayLit(elems) =>
      if |elems| > 0 {
        var (a1, first) := AnalyzeExpr(a, elems[0]);
        var (b1, _) := AnalyzeExpr(b, elems[0]);
        ExprSame(a, b, elems[0]);
        ArrayRestSame(a1, b1, p, 1, first);
        ParallelTrans(a, a1, AnalyzeArrayRest(a1, p, 1, first), b, b1, AnalyzeArrayRest(b1, p, 1, first));
      }
    case ObjectLit(_) => EntriesSame(a, b, p, 0, []);
  }

  lemma {:induction false} ArrayRestSame(a: AState, b: AState, p: Primary, i: nat, first: Option<Type>)
    requires Agree(a, b) && p.ArrayLit?
    ensures Parallel(a, AnalyzeArrayRest(a, p, i, first), b, AnalyzeArrayRest(b, p, i, first))
    decreases p, 0, |p.elems| - i
  {
    if i < |p.elems| {
      var (a1, t) := AnalyzeExpr(a, p.elems[i]);
      var (b1, _) := AnalyzeExpr(b, p.elems[i]);
      ExprSame(a, b, p.elems[i]);
      var same := TypesEqual(first, t);
      var a2 := if same then a1 else Err(a1, HeterogeneousArray(first, t));
      var b2 := if same then b1 else Err(b1, HeterogeneousArray(first, t));
      if !same {
        ErrParallel(a1, b1, HeterogeneousArray(first, t));
      }
      ParallelTrans(a, a1, a2, b, b1, b2);
      assert AnalyzeArrayRest(a, p, i, first) == AnalyzeArrayRest(a2, p, i + 1, first);
      assert AnalyzeArrayRest(b, p, i, first) == AnalyzeArrayRest(b2, p, i + 1, first);
      ArrayRestSame(a2, b2, p, i + 1, first);
      ParallelTrans(a, a2, AnalyzeArrayRest(a2, p, i + 1, first), b, b2, AnalyzeArrayRest(b2, p, i + 1, first));
    }
  }

  lemma {:induction false} EntriesSame(a: AState, b: AState, p: Primary, i: nat, props: seq<Field>)
    requires Agree(a, b) && p.ObjectLit?
    ensures AnalyzeEntries(a, p, i, props).1 == AnalyzeEntries(b, p, i, props).1
    ensures Parallel(a, AnalyzeEntries(a, p, i, props).0, b, AnalyzeEntries(b, p, i, props).0)
    decreases p, 0, |p.entries| - i
  {
    if i < |p.entries| {
      var (a1, t) := AnalyzeExpr(a, p.entries[i].value);
      var (b1, _) := AnalyzeExpr(b, p.entries[i].value);
      ExprSame(a, b, p.entries[i].value);
      var props' := SetField(props, p.entries[i].key, t);
      assert AnalyzeEntries(a, p, i, props) == AnalyzeEntries(a1, p, i + 1, props');
      assert AnalyzeEntries(b, p, i, props) == AnalyzeEntries(b1, p, i + 1, props');
      EntriesSame(a1, b1, p, i + 1, props');
      ParallelTrans(a, a1, AnalyzeEntries(a1, p, i + 1, props').0, b, b1, AnalyzeEntries(b1, p, i + 1, props').0);
    } else {
      SameParallel(a, b);
    }
  }

  // ---------------------------------------------------------------------------
  // Array literals, element by element
  // ---------------------------------------------------------------------------

  /** The type of the `k`-th element, analyzed on its own from `st`. */
  function ElemType(st: AState, p: Primary, k: nat): Option<Type>
    requires p.ArrayLit? && k < |p.elems|
  {
    AnalyzeExpr(st, p.elems[k]).1
  }

  /** The diagnostics of the `k`-th element, analyzed on its own from `st`. */
  function ElemDiags(st: AState, p: Primary, k: nat): seq<Diag>
    requires p.ArrayLit? && k < |p.elems|
  {
    var s := AnalyzeExpr(st, p.elems[k]).0;
    if |st.errors| <= |s.errors| then s.errors[|st.errors|..] else []
  }

  /** What the elements from the `i`-th on report: each element's own diagnostics, followed
      by one heterogeneity report when its type is not equal to the first element's. */
  function ArrayDiags(st: AState, p: Primary, i: nat, first: Option<Type>): seq<Diag>
    requires p.ArrayLit?
    decreases |p.elems| - i
  {
    if i >= |p.elems| then []
    else
      var t := ElemType(st, p, i);
      ElemDiags(st, p, i) + Het(first, t) + ArrayDiags(st, p, i + 1, first)
  }

  /** The heterogeneity report for an element of type `t`, if any. */
  function Het(first: Option<Type>, t: Option<Type>): seq<Diag>
  {
    if TypesEqual(first, t) then [] else [HeterogeneousArray(first, t)]
  }

  /** The number of elements from the `i`-th on whose type is not equal to the first's. */
  function Mismatching(st: AState, p: Primary, i: nat, first: Option<Type>): nat
    requires p.ArrayLit?
    decreases |p.elems| - i
  {
    if i >= |p.elems| then 0
    else (if TypesEqual(first, ElemType(st, p, i)) then 0 else 1) + Mismatching(st, p, i + 1, first)
  }

  lemma {:induction false} ArrayRestDiags(st0: AState, st: AState, p: Primary, i: nat, first: Option<Type>)
    requires p.ArrayLit? && Agree(st0, st)
    ensures var r := AnalyzeArrayRest(st, p, i, first);
      Agree(st0, r) && r.errors == st.errors + ArrayDiags(st0, p, i, first)
    decreases |p.elems| - i
  {
    if i < |p.elems| {
      var s2 := ArrayRestStep(st0, st, p, i, first);
      ArrayRestDiags(st0, s2, p, i + 1, first);
    }
  }

  /** The state after the `i`-th element: its analysis, then its heterogeneity report. */
  function RestStep(st: AState, p: Primary, i: nat, first: Option<Type>): AState
    requires p.ArrayLit? && i < |p.elems|
  {
    var (s1, t) := AnalyzeExpr(st, p.elems[i]);
    if TypesEqual(first, t) then s1 else Err(s1, HeterogeneousArray(first, t))
  }

  lemma RestUnfold(st: AState, p: Primary, i: nat, first: Option<Type>)
    requires p.ArrayLit? && i < |p.elems|
    ensures AnalyzeArrayRest(st, p, i, first) == AnalyzeArrayRest(RestStep(st, p, i, first), p, i + 1, first)
  {
  }

  lemma RestStepErrors(st0: AState, st: AState, p: Primary, i: nat, first: Option<Type>)
    requires p.ArrayLit? && i < |p.elems| && Agree(st0, st)
    ensures var s2 := RestStep(st, p, i, first);
      Agree(st0, s2) && s2.errors == st.errors + ElemDiags(st0, p, i) + Het(first, ElemType(st0, p, i))
  {
    ElemStep(st0, st, p, i);
  }

  /** One element: the state after it, from which the rest goes on. */
  lemma ArrayRestStep(st0: AState, st: AState, p: Primary, i: nat, first: Option<Type>) returns (s2: AState)
    requires p.ArrayLit? && Agree(st0, st) && i < |p.elems|
    ensures Agree(st0, s2) && AnalyzeArrayRest(st, p, i, first) == AnalyzeArrayRest(s2, p, i + 1, first)
    ensures st.errors + ArrayDiags(st0, p, i, first) == s2.errors + ArrayDiags(st0, p, i + 1, first)
  {
    s2 := RestStep(st, p, i, first);
    RestUnfold(st, p, i, first);
    RestStepErrors(st0, st, p, i, first);
    var e, h, rest := ElemDiags(st0, p, i), Het(first, ElemType(st0, p, i)), ArrayDiags(st0, p, i + 1, first);
    assert ArrayDiags(st0, p, i, first) == e + h + rest;
    assert st.errors + (e + h + rest) == (st.errors + e + h) + rest;
  }

  /** An element analyzed from a state agreeing with `st0` has the type and appends the
      diagnostics it has on its own from `st0`. */
  lemma ElemStep(st0: AState, st: AState, p: Primary, i: nat)
    requires p.ArrayLit? && i < |p.elems| && Agree(st0, st)
    ensures var (s1, t) := AnalyzeExpr(st, p.elems[i]);
      t == ElemType(st0, p, i) && s1.errors == st.errors + ElemDiags(st0, p, i) && Agree(st0, s1)
  {
    var s0 := AnalyzeExpr(st0, p.elems[i]).0;
    var s1 := AnalyzeExpr(st, p.elems[i]).0;
    ExprFrame(st0, p.elems[i]);
    ExprSame(st0, st, p.elems[i]);
    assert Agree(st0, s0) && Agree(s0, s1);
    assert s1.errors == st.errors + s1.errors[|st.errors|..];
  }

  /** An array literal with elements has the first element's type as element type; it
      reports each element's own diagnostics in order, each later element's followed by
      exactly one heterogeneity report when its type is not equal to the first's. Each
      element is analyzed as if on its own. An empty literal is `unknown[]`. */
  lemma ArrayLiteral(st: AState, p: Primary)
    requires p.ArrayLit?
    ensures |p.elems| == 0 ==> AnalyzePrimary(st, p) == (st, Some(Array(Some(Unknown))))
    ensures |p.elems| > 0 ==>
      var (r, t) := AnalyzePrimary(st, p);
      t == Some(Array(ElemType(st, p, 0))) && Agree(st, r) &&
      r.errors == st.errors + ElemDiags(st, p, 0) + ArrayDiags(st, p, 1, ElemType(st, p, 0))
  {
    if |p.elems| > 0 {
      var (s1, first) := AnalyzeExpr(st, p.elems[0]);
      ExprFrame(st, p.elems[0]);
      assert s1.errors == st.errors + ElemDiags(st, p, 0);
      ArrayRestDiags(st, s1, p, 1, first);
    }
  }

  /** When no element reports anything of its own, an array literal reports exactly one
      diagnostic per later element whose type is not equal to the first's. */
  lemma {:induction false} QuietElementsReports(st: AState, p: Primary, i: nat, first: Option<Type>)
    requires p.ArrayLit?
    requires forall k :: i <= k < |p.elems| ==> ElemDiags(st, p, k) == []
    ensures |ArrayDiags(st, p, i, first)| == Mismatching(st, p, i, first)
    ensures forall d :: d in ArrayDiags(st, p, i, first) ==> d.HeterogeneousArray? && d.first == first
    decreases |p.elems| - i
  {
    if i < |p.elems| {
      QuietElementsReports(st, p, i + 1, first);
    }
  }
}
