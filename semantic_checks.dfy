/** The checks the analyzer performs on expressions and `return` statements, stated for
    all inputs: what each operator level demands of its operands, how a `return` is
    checked against the function's return type, what indexing, member access and name
    lookup yield, what `print` and `read` demand of their arguments, and how assignments
    and initializers are checked. */
module SemanticChecks {
  import opened Wrappers
  import opened Types
  import opened Ast
  import opened Diagnostics
  import opened Assignability
  import opened Semantic
  import opened SemanticProps

  // ---------------------------------------------------------------------------
  // Binary operators
  // ---------------------------------------------------------------------------

  /** The operand rules of the validators: equality wants two equal types, `&&` and `||`
      two booleans, comparisons and arithmetic two numbers. A failed rule appends exactly
      one diagnostic naming the operator; nothing else of the state changes. */
  lemma ValidateReports(st: AState, level: Level, op: BinOp, l: Type, r: Type)
    ensures var v := Validate(st, level, op, l, r);
      v == st.(errors := v.errors) &&
      (level == Equality ==>
        v.errors == st.errors + (if TypesEqual(Some(l), Some(r)) then [] else [OperandsNotSameType(op)])) &&
      (level == LogicalAnd || level == LogicalOr ==>
        v.errors == st.errors + (if l == Boolean && r == Boolean then [] else [OperandsNotBoolean(op)])) &&
      (level == Relational || level == Additive || level == Multiplicative ==>
        v.errors == st.errors + (if l == Number && r == Number then [] else [OperandsNotNumber(op)]))
  {
  }

  /** The rules do not depend on the operator within a level: `+` and `-` are checked
      alike, and so are the four comparisons. */
  lemma ValidateSameForLevel(st: AState, level: Level, op1: BinOp, op2: BinOp, l: Type, r: Type)
    ensures |Validate(st, level, op1, l, r).errors| == |Validate(st, level, op2, l, r).errors|
  {
    ValidateReports(st, level, op1, l, r);
    ValidateReports(st, level, op2, l, r);
  }

  /** One operator of a chain: its right operand is analyzed, the pair is validated only
      when both types are known, and the left type of the next operator is the level's
      result type, whatever the operands were. */
  lemma ChainStep(st: AState, e: Expr, i: nat, left: Option<Type>)
    requires e.Binary? && i < |e.rest|
    ensures var (s1, right) := AnalyzeExpr(st, e.rest[i].arg);
      (left.None? || right.None? ==>
        AnalyzeChain(st, e, i, left) == AnalyzeChain(s1, e, i + 1, Some(LevelResult(e.level)))) &&
      (left.Some? && right.Some? ==>
        AnalyzeChain(st, e, i, left) ==
          AnalyzeChain(Validate(s1, e.level, e.rest[i].op, left.value, right.value), e, i + 1, Some(LevelResult(e.level))))
  {
  }

  /** An operand whose type is unknown reports nothing about its operator: a binary
      expression of two operands, one of them unknown, reports only what its operands
      report. */
  lemma UnknownOperandNotValidated(st: AState, e: Expr)
    requires e.Binary? && |e.rest| == 1
    ensures var (s1, left) := AnalyzeExpr(st, e.first);
      var (s2, right) := AnalyzeExpr(s1, e.rest[0].arg);
      (left.None? || right.None? ==> AnalyzeExpr(st, e) == (s2, Some(LevelResult(e.level)))) &&
      (left.Some? && right.Some? ==>
        AnalyzeExpr(st, e) == (Validate(s2, e.level, e.rest[0].op, left.value, right.value), Some(LevelResult(e.level))))
  {
    var (s1, left) := AnalyzeExpr(st, e.first);
    ChainStep(s1, e, 0, left);
  }

  /** After its first operator, an arithmetic chain's left operand is a number, so a
      further operator is accepted exactly when its right operand is a number too. */
  lemma ArithmeticChainContinues(st: AState, e: Expr, i: nat)
    requires e.Binary? && (e.level == Additive || e.level == Multiplicative) && 0 < i < |e.rest|
    ensures var (s1, right) := AnalyzeExpr(st, e.rest[i].arg);
      right.Some? ==>
        AnalyzeChain(st, e, i, Some(Number)) ==
          AnalyzeChain(s1.(errors := s1.errors + (if right.value == Number then [] else [OperandsNotNumber(e.rest[i].op)])),
                       e, i + 1, Some(Number))
  {
    var (s1, right) := AnalyzeExpr(st, e.rest[i].arg);
    ChainStep(st, e, i, Some(Number));
    if right.Some? {
      ValidateReports(s1, e.level, e.rest[i].op, Number, right.value);
    }
  }

  // ---------------------------------------------------------------------------
  // return
  // ---------------------------------------------------------------------------

  /** In a `void` function a `return` with a value is reported and a bare one is not; in
      any other context a bare `return` is reported with the function's name and expected
      type. Either way nothing is analyzed and the return is marked as seen. */
  lemma ReturnWithoutValueChecks(st: AState, s: Stmt)
    requires s.Return?
    ensures st.expectedReturn == Some(Void) ==>
      AnalyzeReturn(st, s) ==
        st.(returnSeen := true, errors := st.errors + (if s.value.Some? then [VoidReturnsValue] else []))
    ensures st.expectedReturn != Some(Void) && s.value.None? ==>
      AnalyzeReturn(st, s) ==
        st.(returnSeen := true, errors := st.errors + [ReturnWithoutValue(st.currentFunction, st.expectedReturn)])
  {
  }

  /** A returned value outside a `void` function is analyzed and, when a return type is
      expected, checked for assignability to it: the check's own diagnostics are appended,
      then a return mismatch exactly when the value is rejected. At the top level the
      value is only analyzed. */
  lemma ReturnValueChecked(st: AState, s: Stmt)
    requires s.Return? && s.value.Some? && st.expectedReturn != Some(Void)
    ensures var (s2, t) := AnalyzeExpr(st.(returnSeen := true), s.value.value);
      var r := AnalyzeReturn(st, s);
      r == s2.(errors := r.errors) &&
      (st.expectedReturn.None? ==> r.errors == s2.errors) &&
      (st.expectedReturn.Some? ==>
        var a := Assignability.Assign(st.expectedReturn, t);
        r.errors == s2.errors + a.1 + (if a.0 then [] else [ReturnMismatch(st.expectedReturn.value, t)]))
  {
    ExprFrame(st.(returnSeen := true), s.value.value);
  }

  /** The return mismatch is reported exactly when the expected return type rejects the
      value's type: neither the value's own diagnostics nor the assignability check's can
      be one. */
  lemma ReturnMismatchExactlyWhen(st: AState, s: Stmt)
    requires s.Return? && s.value.Some? && st.expectedReturn.Some? && st.expectedReturn != Some(Void)
    ensures var t := AnalyzeExpr(st.(returnSeen := true), s.value.value).1;
      var r := AnalyzeReturn(st, s);
      |st.errors| <= |r.errors| &&
      (ReturnMismatch(st.expectedReturn.value, t) in r.errors[|st.errors|..] <==> !Assignability.Assign(st.expectedReturn, t).0)
  {
    var s1 := st.(returnSeen := true);
    var (s2, t) := AnalyzeExpr(s1, s.value.value);
    ExprFrame(s1, s.value.value);
    ReturnValueChecked(st, s);
    AssignReportsFieldDiags(st.expectedReturn, t);
    var a := Assignability.Assign(st.expectedReturn, t);
    var r := AnalyzeReturn(st, s);
    var d := ReturnMismatch(st.expectedReturn.value, t);
    assert r.errors[|st.errors|..] == s2.errors[|st.errors|..] + a.1 + (if a.0 then [] else [d]);
    assert d !in s2.errors[|st.errors|..] by {
      forall k | |st.errors| <= k < |s2.errors|
        ensures s2.errors[k] != d
      {
        assert ExprDiag(s2.errors[k], s1.vars);
      }
    }
    assert !FieldDiag(d);
  }

  // ---------------------------------------------------------------------------
  // Postfix expressions and names
  // ---------------------------------------------------------------------------

  /** Indexing an array gives its element type; indexing anything else, an unknown type
      included, reports and ends the expression with no type. The index expression itself
      is not analyzed. */
  lemma IndexStep(st: AState, e: Expr, primaryId: Option<string>, i: nat, t: Option<Type>)
    requires e.Postfix? && i < |e.ops| && e.ops[i].Index?
    ensures t.Some? && t.value.Array? ==>
      AnalyzeOps(st, e, primaryId, i, t) == AnalyzeOps(st, e, primaryId, i + 1, t.value.elem)
    ensures !(t.Some? && t.value.Array?) ==>
      AnalyzeOps(st, e, primaryId, i, t) == (st.(errors := st.errors + [IndexOnNonArray]), None)
  {
  }

  /** A member of an interface gives the field's type; a name the interface lacks reports
      the field and the interface, and a member of anything else reports; both end the
      expression with no type. */
  lemma MemberStep(st: AState, e: Expr, primaryId: Option<string>, i: nat, t: Option<Type>)
    requires e.Postfix? && i < |e.ops| && e.ops[i].Member?
    ensures var name := e.ops[i].name;
      (t.Some? && t.value.Interface? && HasField(t.value.props, name) ==>
        AnalyzeOps(st, e, primaryId, i, t) == AnalyzeOps(st, e, primaryId, i + 1, FieldType(t.value.props, name))) &&
      (t.Some? && t.value.Interface? && !HasField(t.value.props, name) ==>
        AnalyzeOps(st, e, primaryId, i, t) == (st.(errors := st.errors + [FieldNotFound(name, t.value.id)]), None)) &&
      (!(t.Some? && t.value.Interface?) ==>
        AnalyzeOps(st, e, primaryId, i, t) == (st.(errors := st.errors + [MemberOnNonInterface]), None))
  {
  }

  /** A call is checked only as the first suffix of a name registered as a function; it
      then has the function's return type. Any other call is skipped. */
  lemma CallStep(st: AState, e: Expr, primaryId: Option<string>, i: nat, t: Option<Type>)
    requires e.Postfix? && i < |e.ops| && e.ops[i].Call?
    ensures i == 0 && primaryId.Some? && primaryId.value in st.funcs ==>
      AnalyzeOps(st, e, primaryId, i, t) ==
        AnalyzeOps(AnalyzeCall(st, primaryId.value, e.ops[i].args), e, primaryId, i + 1,
                   Some(st.funcs[primaryId.value].returnType))
    ensures !(i == 0 && primaryId.Some? && primaryId.value in st.funcs) ==>
      AnalyzeOps(st, e, primaryId, i, t) == AnalyzeOps(st, e, primaryId, i + 1, t)
  {
  }

  /** A name is looked up among the variables first, then among the functions (its type is
      then the return type); a name that is neither is reported, and has no type. Only
      the error list can change. */
  lemma NameResolution(st: AState, x: string)
    ensures var (s, t) := AnalyzePrimary(st, Ident(x));
      s == st.(errors := s.errors) &&
      (t.None? <==> x !in st.vars && x !in st.funcs) &&
      (x in st.vars ==> t == Some(st.vars[x].ty)) &&
      (x !in st.vars && x in st.funcs ==> t == Some(st.funcs[x].returnType)) &&
      s.errors == st.errors + (if x in st.vars || x in st.funcs then [] else [Undeclared(x)])
  {
  }

  /** `a[i]` for a variable `a`: the element type with no report when `a` is an array,
      otherwise one report and no type. */
  lemma IndexedVariable(st: AState, x: string, index: Expr, text: string)
    requires x in st.vars
    ensures var ty := st.vars[x].ty;
      AnalyzeExpr(st, Postfix(Ident(x), [Index(index)], text)) ==
        if ty.Array? then (st, ty.elem) else (st.(errors := st.errors + [IndexOnNonArray]), None)
  {
    var e := Postfix(Ident(x), [Index(index)], text);
    NameResolution(st, x);
    IndexStep(st, e, Some(x), 0, Some(st.vars[x].ty));
  }

  /** `o.f` for a variable `o`: the field's type when `o` is of an interface with that
      field, otherwise one report and no type. */
  lemma MemberOfVariable(st: AState, x: string, f: string, text: string)
    requires x in st.vars
    ensures var ty := st.vars[x].ty;
      AnalyzeExpr(st, Postfix(Ident(x), [Member(f)], text)) ==
        if ty.Interface? && HasField(ty.props, f) then (st, FieldType(ty.props, f))
        else if ty.Interface? then (st.(errors := st.errors + [FieldNotFound(f, ty.id)]), None)
        else (st.(errors := st.errors + [MemberOnNonInterface]), None)
  {
    var e := Postfix(Ident(x), [Member(f)], text);
    NameResolution(st, x);
    MemberStep(st, e, Some(x), 0, Some(st.vars[x].ty));
  }

  // ---------------------------------------------------------------------------
  // print and read
  // ---------------------------------------------------------------------------

  /** `print` with exactly one argument analyzes it and reports it unless it is a string,
      a number or a boolean; `print` with any other number of arguments is not checked.
      `read` reports any argument. No other function has its arguments analyzed or
      checked. */
  lemma CallChecks(st: AState, f: string, args: seq<Expr>)
    ensures var r := AnalyzeCall(st, f, args);
      (f == "print" && |args| == 1 ==>
        var (s, at) := AnalyzeExpr(st, args[0]);
        r.errors == s.errors + (if IsPrintable(at) then [] else [InvalidPrintArgument])) &&
      (f == "print" && |args| != 1 ==> r.errors == st.errors) &&
      (f == "read" ==> r.errors == st.errors + (if |args| > 0 then [ReadTakesNoArguments] else [])) &&
      (f != "print" && f != "read" ==> r.errors == st.errors)
  {
  }

  /** Exactly the three primitive types of values can be printed; `void`, `unknown`, an
      array, an interface or no type at all cannot. */
  lemma PrintableTypes(t: Option<Type>)
    ensures IsPrintable(t) <==> t == Some(String) || t == Some(Number) || t == Some(Boolean)
  {
  }

  // ---------------------------------------------------------------------------
  // Assignments and initializers
  // ---------------------------------------------------------------------------

  /** An assignment has its target's type, whatever is assigned. */
  lemma AssignmentType(st: AState, e: Expr)
    requires e.Assign?
    ensures AnalyzeExpr(st, e).1 == AnalyzeExpr(st, e.target).1
  {
  }

  /** The assigned value is analyzed; only when both its type and the target's are known is
      it checked for assignability, whose diagnostics are appended, followed by a mismatch
      report naming both types exactly when it is rejected. */
  lemma AssignValueChecks(st: AState, lt: Option<Type>, value: Expr)
    ensures var (s1, rt) := AnalyzeExpr(st, value);
      var r := AssignValue(st, lt, value);
      r == s1.(errors := r.errors) &&
      r.errors == s1.errors +
        (if lt.Some? && rt.Some? then
          var a := Assignability.Assign(lt, rt);
          a.1 + (if a.0 then [] else [AssignmentMismatch(lt.value, rt.value)])
         else [])
  {
  }

  /** An accepted assignment, and one with an unknown side, reports nothing beyond what
      its value reports; a rejected one ends with the mismatch. */
  lemma AssignmentMismatchLast(st: AState, lt: Option<Type>, value: Expr)
    ensures var (s1, rt) := AnalyzeExpr(st, value);
      var r := AssignValue(st, lt, value);
      (lt.Some? && rt.Some? && !Assignability.Assign(lt, rt).0 <==>
        |r.errors| > |s1.errors| && r.errors[|r.errors| - 1] == AssignmentMismatch(lt.value, rt.value)) &&
      (!(lt.Some? && rt.Some? && !Assignability.Assign(lt, rt).0) ==> r.errors == s1.errors)
  {
    var (s1, rt) := AnalyzeExpr(st, value);
    AssignValueChecks(st, lt, value);
    if lt.Some? && rt.Some? {
      if Assignability.Assign(lt, rt).0 {
        AcceptedReportsNothing(lt, rt);
      }
    }
  }

  /** A declaration with an initializer analyzes it and checks it for assignability to the
      declared type, whose diagnostics are appended, followed by a mismatch report exactly
      when it is rejected; an initializer of unknown type is always rejected. A `const`
      without an initializer is reported; a `let` without one is not. */
  lemma InitializerChecks(st: AState, name: string, isConst: bool, declared: Type, init: Option<Expr>)
    ensures init.Some? ==>
      var (s1, it) := AnalyzeExpr(st, init.value);
      var a := Assignability.Assign(Some(declared), it);
      var r := CheckInitializer(st, name, isConst, declared, init);
      r == s1.(errors := r.errors) &&
      r.errors == s1.errors + a.1 + (if a.0 then [] else [InitializerMismatch(declared, it)]) &&
      (it.None? ==> !a.0)
    ensures init.None? ==>
      CheckInitializer(st, name, isConst, declared, init) ==
        st.(errors := st.errors + (if isConst then [ConstWithoutInitializer(name)] else []))
  {
    if init.Some? {
      var (s1, it) := AnalyzeExpr(st, init.value);
      if it.None? {
        MixedKindsRejected(Some(declared), it);
      }
    }
  }

  /** The initializer mismatch is reported exactly when the declared type rejects the
      initializer's type: neither the initializer's own diagnostics nor the assignability
      check's can be one. */
  lemma InitializerMismatchExactlyWhen(st: AState, name: string, isConst: bool, declared: Type, init: Expr)
    ensures var it := AnalyzeExpr(st, init).1;
      var r := CheckInitializer(st, name, isConst, declared, Some(init));
      |st.errors| <= |r.errors| &&
      (InitializerMismatch(declared, it) in r.errors[|st.errors|..] <==> !Assignability.Assign(Some(declared), it).0)
  {
    var (s1, it) := AnalyzeExpr(st, init);
    ExprFrame(st, init);
    InitializerChecks(st, name, isConst, declared, Some(init));
    AssignReportsFieldDiags(Some(declared), it);
    var a := Assignability.Assign(Some(declared), it);
    var r := CheckInitializer(st, name, isConst, declared, Some(init));
    var d := InitializerMismatch(declared, it);
    assert r.errors[|st.errors|..] == s1.errors[|st.errors|..] + a.1 + (if a.0 then [] else [d]);
    assert d !in s1.errors[|st.errors|..] by {
      forall k | |st.errors| <= k < |s1.errors|
        ensures s1.errors[k] != d
      {
        assert ExprDiag(s1.errors[k], st.vars);
      }
    }
    assert !FieldDiag(d);
  }
}
