/** `SemanticAnalyzer` as an object: its fields are updated in place while it walks the
    tree, and each visit is proved to leave the fields in the state the functions of module
    `Semantic` give, returning the type they infer. */
module Analyzer {
  import opened Wrappers
  import opened Types
  import opened Ast
  import opened Diagnostics
  import opened Resolution
  import opened Assignability
  import opened Semantic
  import opened SemanticProps

  class SemanticAnalyzer {
    var vars: map<string, VarSymbol>
    var funcs: map<string, FuncSymbol>
    var interfaces: map<string, Type>
    var errors: seq<Diag>
    var callGraph: map<string, set<string>>
    var currentFunction: Option<string>
    var expectedReturn: Option<Type>
    var returnSeen: bool

    /** The fields as one value. */
    function State(): AState
      reads this
    {
      AState(vars, funcs, interfaces, errors, callGraph, currentFunction, expectedReturn, returnSeen)
    }

    /** An empty symbol table with `print` and `read` registered, no errors, no context. */
    constructor()
      ensures State() == Initial()
    {
      vars := map[];
      funcs := Builtins();
      interfaces := map[];
      errors := [];
      callGraph := map[];
      currentFunction := None;
      expectedReturn := None;
      returnSeen := false;
    }

    /** `_err`: appends one diagnostic. */
    method Report(d: Diag)
      modifies this
      ensures State() == Err(old(State()), d)
    {
      errors := errors + [d];
    }

    /** `type_from_ctx` on an annotation, reporting an undeclared interface. */
    method ResolveAnnotation(te: TypeExpr) returns (t: Type)
      modifies this
      ensures (t, State()) == (TypeFromCtx(te, old(interfaces)).0, AddErrs(old(State()), TypeFromCtx(te, old(interfaces)).1))
    {
      var r := TypeFromCtx(te, interfaces);
      errors := errors + r.1;
      t := r.0;
    }

    /** `is_assignable`: the verdict, with the interface field diagnostics appended. */
    method IsAssignable(target: Option<Type>, source: Option<Type>) returns (ok: bool)
      modifies this
      ensures (State(), ok) == CheckAssignable(old(State()), target, source)
      decreases target, 1
    {
      AddNothing(State());
      if target.None? || source.None? {
        return false;
      }
      var t, s := target.value, source.value;
      if t.Primitive? && s.Primitive? {
        if s.name == "unknown" && (t.name == "string" || t.name == "number") {
          return true;
        }
        return TypesEqual(target, source);
      }
      if t.Array? && s.Array? {
        if s.elem.Some? && s.elem.value.Primitive? && s.elem.value.name == "unknown" {
          return true;
        }
        if t.elem.Some? && t.elem.value.Interface? && s.elem.Some? && s.elem.value.Interface? &&
           s.elem.value.id == ObjLiteralId {
          ok := IsAssignable(t.elem, s.elem);
          return;
        }
        return TypesEqual(target, source);
      }
      if t.Interface? && s.Interface? {
        ok := InterfaceAssignable(t, s);
        return;
      }
      return false;
    }

    /** The interface case of `is_assignable`: the target's fields in order, then the
        source's fields; the first failure is reported and ends the check. */
    method InterfaceAssignable(t: Type, s: Type) returns (ok: bool)
      requires t.Interface? && s.Interface?
      modifies this
      ensures (State(), ok) == (AddErrs(old(State()), AssignFields(t, s, 0).1), AssignFields(t, s, 0).0)
      decreases t, 0
    {
      ghost var acc: seq<Diag> := [];
      assert acc + AssignFields(t, s, 0).1 == AssignFields(t, s, 0).1;
      AddNothing(State());
      var i := 0;
      while i < |t.props|
        invariant 0 <= i <= |t.props|
        invariant State() == AddErrs(old(State()), acc)
        invariant AssignFields(t, s, 0) == (AssignFields(t, s, i).0, acc + AssignFields(t, s, i).1)
        decreases |t.props| - i
      {
        var f := t.props[i];
        var k := FindField(s.props, f.name);
        AssignFieldsStep(t, s, i);
        if k.None? {
          ErrAfter(old(State()), acc, FieldMissing(f.name, t.id));
          Report(FieldMissing(f.name, t.id));
          return false;
        }
        var found := s.props[k.value].ty;
        ghost var sub := Assignability.Assign(f.ty, found);
        ghost var rest := AssignFields(t, s, i + 1);
        var subOk := IsAssignable(f.ty, found);
        AddErrsTwice(old(State()), acc, sub.1);
        if !subOk {
          ErrAfter(old(State()), acc + sub.1, FieldTypeMismatch(f.name, f.ty, found));
          assert acc + sub.1 + [FieldTypeMismatch(f.name, f.ty, found)] ==
            acc + (sub.1 + [FieldTypeMismatch(f.name, f.ty, found)]);
          Report(FieldTypeMismatch(f.name, f.ty, found));
          return false;
        }
        assert acc + (sub.1 + rest.1) == (acc + sub.1) + rest.1;
        acc := acc + sub.1;
        i := i + 1;
      }
      ghost var extra := ExtraFields(t, s, 0);
      assert AssignFields(t, s, i) == extra;
      ok := NoExtraField(t, s);
      AddErrsTwice(old(State()), acc, extra.1);
    }

    /** The second loop of the interface case: the first source field the target lacks is
        reported. */
    method NoExtraField(t: Type, s: Type) returns (ok: bool)
      requires t.Interface? && s.Interface?
      modifies this
      ensures (State(), ok) == (AddErrs(old(State()), ExtraFields(t, s, 0).1), ExtraFields(t, s, 0).0)
    {
      var j := 0;
      while j < |s.props|
        invariant 0 <= j <= |s.props|
        invariant State() == old(State())
        invariant ExtraFields(t, s, 0) == ExtraFields(t, s, j)
        decreases |s.props| - j
      {
        if !HasField(t.props, s.props[j].name) {
          Report(FieldExtra(s.props[j].name, t.id));
          return false;
        }
        j := j + 1;
      }
      AddNothing(State());
      return true;
    }

    // -------------------------------------------------------------------------
    // Expressions
    // -------------------------------------------------------------------------

    /** Visits an expression and returns its type (`None` when it has none). */
    method VisitExpr(e: Expr) returns (t: Option<Type>)
      modifies this
      ensures (State(), t) == AnalyzeExpr(old(State()), e)
      decreases e, 3
    {
      match e
      case Assign(_, _, _) => t := VisitAssignment(e);
      case Binary(_, _, _, _) => t := VisitBinary(e);
      case Unary(_, operand, _) => t := VisitExpr(operand);
      case Postfix(_, _, _) => t := VisitPostfix(e);
    }

    /** `visitAssignmentExpr`: left side, const check on its text, right side, then
        assignability when both types are known. */
    method VisitAssignment(e: Expr) returns (t: Option<Type>)
      requires e.Assign?
      modifies this
      ensures (State(), t) == AnalyzeAssign(old(State()), e)
      decreases e, 2
    {
      t := VisitExpr(e.target);
      var name := e.target.text;
      if name in vars && vars[name].isConst {
        Report(ConstReassignment(name));
      }
      ghost var s2 := State();
      var rt := VisitExpr(e.value);
      if t.Some? && rt.Some? {
        var ok := IsAssignable(t, rt);
        if !ok {
          Report(AssignmentMismatch(t.value, rt.value));
        }
      }
      assert State() == AssignValue(s2, t, e.value);
    }

    /** `_binary_expr`: the first operand, then each operator and right operand in turn,
        validated when both types are known; after an operator the type is the level's. */
    method VisitBinary(e: Expr) returns (t: Option<Type>)
      requires e.Binary?
      modifies this
      ensures (State(), t) == AnalyzeBinary(old(State()), e)
      decreases e, 2
    {
      t := VisitExpr(e.first);
      ghost var goal := AnalyzeChain(State(), e, 0, t);
      var i := 0;
      while i < |e.rest|
        invariant 0 <= i <= |e.rest|
        invariant AnalyzeChain(State(), e, i, t) == goal
        decreases |e.rest| - i
      {
        ghost var before := State();
        var right := VisitExpr(e.rest[i].arg);
        if t.Some? && right.Some? {
          CheckOperands(e.level, e.rest[i].op, t.value, right.value);
        }
        assert AnalyzeChain(before, e, i, t) == AnalyzeChain(State(), e, i + 1, Some(LevelResult(e.level)));
        t := Some(LevelResult(e.level));
        i := i + 1;
      }
    }

    /** The operand check of the visitor for `level`. */
    method CheckOperands(level: Level, op: BinOp, l: Type, r: Type)
      modifies this
      ensures State() == Validate(old(State()), level, op, l, r)
    {
      var ok, d;
      match level {
        case Equality =>
          ok, d := TypesEqual(Some(l), Some(r)), OperandsNotSameType(op);
        case LogicalAnd =>
          ok, d := l == Boolean && r == Boolean, OperandsNotBoolean(op);
        case LogicalOr =>
          ok, d := l == Boolean && r == Boolean, OperandsNotBoolean(op);
        case _ =>
          ok, d := l == Number && r == Number, OperandsNotNumber(op);
      }
      assert Validate(State(), level, op, l, r) == if ok then State() else Err(State(), d);
      if !ok {
        Report(d);
      }
    }

    /** `visitPostfixExpr`: the primary, then each suffix; a bad index or member access
        reports and ends the expression with no type. */
    method VisitPostfix(e: Expr) returns (t: Option<Type>)
      requires e.Postfix?
      modifies this
      ensures (State(), t) == AnalyzePostfix(old(State()), e)
      decreases e, 2
    {
      var primaryId := if e.primary.Ident? then Some(e.primary.name) else None;
      t := VisitPrimary(e.primary);
      ghost var goal := AnalyzeOps(State(), e, primaryId, 0, t);
      var i := 0;
      while i < |e.ops|
        invariant 0 <= i <= |e.ops|
        invariant AnalyzeOps(State(), e, primaryId, i, t) == goal
        decreases |e.ops| - i
      {
        ghost var before := State();
        match e.ops[i] {
          case Index(_) =>
            if t.Some? && t.value.Array? {
              t := t.value.elem;
            } else {
              Report(IndexOnNonArray);
              return None;
            }
          case Member(name) =>
            if t.Some? && t.value.Interface? {
              if HasField(t.value.props, name) {
                t := FieldType(t.value.props, name);
              } else {
                Report(FieldNotFound(name, t.value.id));
                return None;
              }
            } else {
              Report(MemberOnNonInterface);
              return None;
            }
          case Call(args) =>
            if i == 0 && primaryId.Some? && primaryId.value in funcs {
              var f := primaryId.value;
              var rt := funcs[f].returnType;
              VisitCall(f, args);
              t := Some(rt);
            }
        }
        i := i + 1;
      }
    }

    /** The checks on a call of the registered function `f`, and its call-graph edge. */
    method VisitCall(f: string, args: seq<Expr>)
      modifies this
      ensures State() == AnalyzeCall(old(State()), f, args)
      decreases args, 1
    {
      if f == "print" && |args| == 1 {
        var at := VisitExpr(args[0]);
        if !IsPrintable(at) {
          Report(InvalidPrintArgument);
        }
      }
      if f == "read" && |args| != 0 {
        Report(ReadTakesNoArguments);
      }
      if currentFunction.Some? {
        callGraph := AddEdge(callGraph, currentFunction.value, f);
      }
    }

    /** `visitPrimary`, with the array and object literal visitors. */
    method VisitPrimary(p: Primary) returns (t: Option<Type>)
      modifies this
      ensures (State(), t) == AnalyzePrimary(old(State()), p)
      decreases p, 1
    {
      match p
      case Lit(l) => t := Some(LiteralType(l));
      case Ident(x) =>
        if x in vars {
          t := Some(vars[x].ty);
        } else if x in funcs {
          t := Some(funcs[x].returnType);
        } else {
          Report(Undeclared(x));
          t := None;
        }
      case Paren(inner) => t := VisitExpr(inner);
      case ArrayLit(elems) =>
        if |elems| == 0 {
          return Some(Array(Some(Unknown)));
        }
        var first := VisitExpr(elems[0]);
        ghost var goal := AnalyzeArrayRest(State(), p, 1, first);
        var i := 1;
        while i < |elems|
          invariant 1 <= i <= |elems|
          invariant AnalyzeArrayRest(State(), p, i, first) == goal
          decreases |elems| - i
        {
          ghost var before := State();
          var elem := VisitExpr(elems[i]);
          if !TypesEqual(first, elem) {
            Report(HeterogeneousArray(first, elem));
          }
          assert AnalyzeArrayRest(before, p, i, first) == AnalyzeArrayRest(State(), p, i + 1, first);
          i := i + 1;
        }
        t := Some(Array(first));
      case ObjectLit(entries) =>
        var props: seq<Field> := [];
        ghost var goal := AnalyzeEntries(State(), p, 0, []);
        var i := 0;
        while i < |entries|
          invariant 0 <= i <= |entries|
          invariant AnalyzeEntries(State(), p, i, props) == goal
          decreases |entries| - i
        {
          ghost var before := State();
          var vt := VisitExpr(entries[i].value);
          assert AnalyzeEntries(before, p, i, props) ==
            AnalyzeEntries(State(), p, i + 1, SetField(props, entries[i].key, vt));
          props := SetField(props, entries[i].key, vt);
          i := i + 1;
        }
        t := Some(Interface(ObjLiteralId, props));
    }

    // -------------------------------------------------------------------------
    // Statements
    // -------------------------------------------------------------------------

    /** Visits one statement; statements without a visitor of their own visit their
        children in source order. */
    method VisitStmt(s: Stmt)
      modifies this
      ensures State() == AnalyzeStmt(old(State()), s)
      decreases s, 1
    {
      match s
      case VarDecl(_, _, _, _) => VisitVariableDecl(s);
      case FunctionDecl(_, _, _, _) => VisitFunctionDecl(s);
      case InterfaceDecl(_, _) => VisitInterfaceDecl(s);
      case Return(_) => VisitReturnStmt(s);
      case If(c, th, el) =>
        var ct := VisitExpr(c);
        VisitStmt(th);
        if el.Some? {
          VisitStmt(el.value);
        }
      case While(c, body) =>
        var ct := VisitExpr(c);
        VisitStmt(body);
      case For(init, test, update, body) =>
        if init.Some? {
          VisitStmt(init.value);
        }
        if test.Some? {
          var tt := VisitExpr(test.value);
        }
        if update.Some? {
          var ut := VisitExpr(update.value);
        }
        VisitStmt(body);
      case ExprStmt(x) =>
        var xt := VisitExpr(x);
      case Block(ss) => VisitBlock(ss);
    }

    /** The statements of a block (or a program), in order. */
    method VisitBlock(ss: seq<Stmt>)
      modifies this
      ensures State() == AnalyzeStmts(old(State()), ss)
      decreases ss
    {
      var i := 0;
      while i < |ss|
        invariant 0 <= i <= |ss|
        invariant AnalyzeStmts(State(), ss[i..]) == AnalyzeStmts(old(State()), ss)
        decreases |ss| - i
      {
        ghost var before := State();
        VisitStmt(ss[i]);
        assert ss[i..][0] == ss[i] && ss[i..][1..] == ss[i + 1..];
        assert AnalyzeStmts(before, ss[i..]) == AnalyzeStmts(State(), ss[i + 1..]);
        i := i + 1;
      }
    }

    /** `visitVariableDecl`: resolve the annotation, report a name already bound (and bind
        it anyway), then check the initializer, or its absence for a `const`. */
    method VisitVariableDecl(s: Stmt)
      requires s.VarDecl?
      modifies this
      ensures State() == AnalyzeVarDecl(old(State()), s)
    {
      DeclaredParts(State(), s);
      var declared := ResolveAnnotation(s.declType);
      if s.name in vars {
        Report(VarRedeclared(s.name));
      }
      vars := vars[s.name := VarSymbol(s.name, declared, s.isConst)];
      assert State() == Declared(old(State()), s);
      VisitInitializer(s.name, s.isConst, declared, s.initializer);
    }

    /** The initializer of a declaration, checked against the declared type; a `const`
        without one is reported. */
    method VisitInitializer(name: string, isConst: bool, declared: Type, init: Option<Expr>)
      modifies this
      ensures State() == CheckInitializer(old(State()), name, isConst, declared, init)
    {
      if init.Some? {
        var it := VisitExpr(init.value);
        var ok := IsAssignable(Some(declared), it);
        if !ok {
          Report(InitializerMismatch(declared, it));
        }
      } else if isConst {
        Report(ConstWithoutInitializer(name));
      }
    }

    /** `visitFunctionDecl`: resolve the signature, register the function, analyze the body
        with the parameters bound and the function's context set, restore the caller's
        variables and context, and report a missing return. */
    method VisitFunctionDecl(s: Stmt)
      requires s.FunctionDecl?
      modifies this
      ensures State() == AnalyzeFunction(old(State()), s)
      decreases s, 0
    {
      ghost var st := State();
      var pts, rt := RegisterFunction(s);
      ghost var s3 := State();
      var prevFunction, prevReturn, prevVars, prevReturnSeen := currentFunction, expectedReturn, vars, returnSeen;
      currentFunction, expectedReturn, returnSeen := Some(s.name), Some(rt), false;
      BindParameters(s.params, pts);
      assert State() == Entered(st, s);
      VisitBlock(s.block);
      LeaveFunction(s3, s.name, rt, prevVars, prevFunction, prevReturn, prevReturnSeen);
      FunctionParts(st, s);
    }

    /** The signature part of `visitFunctionDecl`: parameter and return annotations
        resolved, a redeclaration reported, the function registered with a call-graph
        entry. */
    method RegisterFunction(s: Stmt) returns (pts: seq<Type>, rt: Type)
      requires s.FunctionDecl?
      modifies this
      ensures State() == Registered(old(State()), s)
      ensures pts == ResolveParams(s.params, old(interfaces)).0 && rt == TypeFromCtx(s.returnType, old(interfaces)).0
    {
      pts := ResolveParameters(s.params);
      rt := ResolveAnnotation(s.returnType);
      if s.name in funcs {
        Report(FunctionRedeclared(s.name));
      }
      funcs := funcs[s.name := FuncSymbol(s.name, pts, rt)];
      callGraph := SetDefault(callGraph, s.name);
    }

    /** The end of `visitFunctionDecl`: the caller's variables and context restored from
        `s3`, a missing return reported, the caller's return flag restored. */
    method LeaveFunction(ghost s3: AState, name: string, rt: Type, prevVars: map<string, VarSymbol>,
                         prevFunction: Option<string>, prevReturn: Option<Type>, prevReturnSeen: bool)
      requires prevVars == s3.vars && prevFunction == s3.currentFunction
      requires prevReturn == s3.expectedReturn && prevReturnSeen == s3.returnSeen
      modifies this
      ensures State() == Left(s3, old(State()), name, rt)
    {
      vars, currentFunction, expectedReturn := prevVars, prevFunction, prevReturn;
      if NeedsReturn(rt) && !returnSeen {
        Report(MissingReturn(name, rt));
      }
      returnSeen := prevReturnSeen;
    }

    /** The parameter loop of `visitFunctionDecl`: each annotation resolved in order. */
    method ResolveParameters(ps: seq<Param>) returns (pts: seq<Type>)
      modifies this
      ensures pts == ResolveParams(ps, old(interfaces)).0
      ensures State() == AddErrs(old(State()), ResolveParams(ps, old(interfaces)).1)
    {
      pts := [];
      ghost var pds: seq<Diag> := [];
      var i := 0;
      while i < |ps|
        invariant 0 <= i <= |ps|
        invariant (pts, pds) == ResolveParams(ps[..i], old(interfaces))
        invariant State() == AddErrs(old(State()), pds)
        decreases |ps| - i
      {
        ghost var r := TypeFromCtx(ps[i].ty, interfaces);
        var t := ResolveAnnotation(ps[i].ty);
        assert ps[..i + 1][..i] == ps[..i];
        AddErrsTwice(old(State()), pds, r.1);
        pts, pds := pts + [t], pds + r.1;
        i := i + 1;
      }
      assert ps[..i] == ps;
    }

    /** Binds each parameter, in order, as a non-const variable. */
    method BindParameters(ps: seq<Param>, pts: seq<Type>)
      requires |ps| == |pts|
      modifies this
      ensures State() == old(State()).(vars := BindParams(old(vars), ps, pts))
    {
      var j := 0;
      while j < |ps|
        invariant 0 <= j <= |ps|
        invariant State() == old(State()).(vars := BindParams(old(vars), ps[..j], pts[..j]))
        decreases |ps| - j
      {
        assert ps[..j + 1][..j] == ps[..j] && pts[..j + 1][..j] == pts[..j];
        vars := vars[ps[j].name := VarSymbol(ps[j].name, pts[j], false)];
        j := j + 1;
      }
      assert ps[..j] == ps && pts[..j] == pts;
    }

    /** `visitInterfaceDecl`: a redeclaration is reported and ignored; otherwise the
        properties are resolved in order and the interface registered. */
    method VisitInterfaceDecl(s: Stmt)
      requires s.InterfaceDecl?
      modifies this
      ensures State() == AnalyzeInterface(old(State()), s)
    {
      if s.name in interfaces {
        Report(InterfaceRedeclared(s.name));
        return;
      }
      var props: seq<Field> := [];
      ghost var ds: seq<Diag> := [];
      var i := 0;
      while i < |s.props|
        invariant 0 <= i <= |s.props|
        invariant (props, ds) == ResolveProps(s.props[..i], old(interfaces))
        invariant State() == AddErrs(old(State()), ds)
        decreases |s.props| - i
      {
        ghost var r := TypeFromCtx(s.props[i].ty, interfaces);
        var t := ResolveAnnotation(s.props[i].ty);
        assert s.props[..i + 1][..i] == s.props[..i];
        AddErrsTwice(old(State()), ds, r.1);
        props, ds := SetField(props, s.props[i].name, Some(t)), ds + r.1;
        i := i + 1;
      }
      assert s.props[..i] == s.props;
      interfaces := interfaces[s.name := Interface(s.name, props)];
    }

    /** `visitReturnStmt`: marks a return as seen, then checks the value against the
        enclosing function's return type. */
    method VisitReturnStmt(s: Stmt)
      requires s.Return?
      modifies this
      ensures State() == AnalyzeReturn(old(State()), s)
    {
      returnSeen := true;
      if expectedReturn == Some(Void) {
        if s.value.Some? {
          Report(VoidReturnsValue);
        }
        return;
      }
      if s.value.None? {
        Report(ReturnWithoutValue(currentFunction, expectedReturn));
        return;
      }
      var t := VisitExpr(s.value.value);
      if expectedReturn.Some? {
        var ok := IsAssignable(expectedReturn, t);
        if !ok {
          Report(ReturnMismatch(expectedReturn.value, t));
        }
      }
    }

    /** `analyze`: visits the program and returns the errors collected so far; on a fresh
        analyzer these are the program's diagnostics. */
    method Analyze(program: seq<Stmt>) returns (errs: seq<Diag>)
      modifies this
      ensures State() == AnalyzeStmts(old(State()), program) && errs == errors
      ensures old(State()) == Initial() ==> errs == Semantic.Analyze(program)
    {
      VisitBlock(program);
      errs := errors;
    }
  }

  /** One field of the target, as `AssignFields` checks it. */
  lemma AssignFieldsStep(t: Type, s: Type, i: nat)
    requires t.Interface? && s.Interface? && i < |t.props|
    ensures var f := t.props[i];
      var k := FindField(s.props, f.name);
      AssignFields(t, s, i) ==
        if k.None? then (false, [FieldMissing(f.name, t.id)])
        else
          var sub := Assignability.Assign(f.ty, s.props[k.value].ty);
          if !sub.0 then (false, sub.1 + [FieldTypeMismatch(f.name, f.ty, s.props[k.value].ty)])
          else (AssignFields(t, s, i + 1).0, sub.1 + AssignFields(t, s, i + 1).1)
  {
  }

  lemma AddNothing(st: AState)
    ensures AddErrs(st, []) == st
  {
    assert st.errors + [] == st.errors;
  }

  lemma AddErrsTwice(st: AState, a: seq<Diag>, b: seq<Diag>)
    ensures AddErrs(AddErrs(st, a), b) == AddErrs(st, a + b)
  {
    assert st.errors + a + b == st.errors + (a + b);
  }

  lemma ErrAfter(st: AState, a: seq<Diag>, d: Diag)
    ensures Err(AddErrs(st, a), d) == AddErrs(st, a + [d])
  {
    assert st.errors + a + [d] == st.errors + (a + [d]);
  }
}
