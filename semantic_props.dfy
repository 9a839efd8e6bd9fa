/** Properties of the semantic analysis: what analyzing an expression may and may not
    change, how `return` statements are tracked, and what declarations report. */
module SemanticProps {
  import opened Wrappers
  import opened Types
  import opened Ast
  import opened Diagnostics
  import opened Resolution
  import opened Assignability
  import opened Semantic

  // ---------------------------------------------------------------------------
  // Expressions change nothing but the error list and the call graph
  // ---------------------------------------------------------------------------

  /** The diagnostics an expression may report. A const reassignment is reported only for
      a name bound to a `const` in the variable map. */
  predicate ExprDiag(d: Diag, vars: map<string, VarSymbol>) {
    d.Undeclared? || d.HeterogeneousArray? || d.IndexOnNonArray? || d.FieldNotFound? ||
    d.MemberOnNonInterface? || d.InvalidPrintArgument? || d.ReadTakesNoArguments? ||
    d.OperandsNotNumber? || d.OperandsNotSameType? || d.OperandsNotBoolean? ||
    d.AssignmentMismatch? || FieldDiag(d) ||
    (d.ConstReassignment? && d.name in vars && vars[d.name].isConst)
  }

  /** Edges are only ever added, and only from the function being analyzed. */
  predicate CallGraphStep(g: map<string, set<string>>, h: map<string, set<string>>, cur: Option<string>) {
    (forall f :: f in g ==> f in h && g[f] <= h[f]) &&
    (forall f :: f in h && cur != Some(f) ==> f in g && h[f] == g[f])
  }

  /** From `a` to `b` only diagnostics of expressions were appended and call edges added. */
  predicate ExprStep(a: AState, b: AState) {
    b.vars == a.vars && b.funcs == a.funcs && b.interfaces == a.interfaces &&
    b.currentFunction == a.currentFunction && b.expectedReturn == a.expectedReturn &&
    b.returnSeen == a.returnSeen &&
    a.errors <= b.errors &&
    (forall k :: |a.errors| <= k < |b.errors| ==> ExprDiag(b.errors[k], a.vars)) &&
    CallGraphStep(a.callGraph, b.callGraph, a.currentFunction)
  }

  lemma ExprStepTrans(a: AState, b: AState, c: AState)
    requires ExprStep(a, b) && ExprStep(b, c)
    ensures ExprStep(a, c)
  {
    forall k | |a.errors| <= k < |c.errors| ensures ExprDiag(c.errors[k], a.vars) {
      if k < |b.errors| {
        assert c.errors[k] == b.errors[k];
      }
    }
  }

  lemma ErrStep(a: AState, d: Diag)
    requires ExprDiag(d, a.vars)
    ensures ExprStep(a, Err(a, d))
  {
  }

  lemma ValidateStep(st: AState, level: Level, op: BinOp, l: Type, r: Type)
    ensures ExprStep(st, Validate(st, level, op, l, r))
  {
    match level
    case Equality =>
      if !TypesEqual(Some(l), Some(r)) {
        ErrStep(st, OperandsNotSameType(op));
      }
    case LogicalAnd =>
      if !(l == Boolean && r == Boolean) {
        ErrStep(st, OperandsNotBoolean(op));
      }
    case LogicalOr =>
      if !(l == Boolean && r == Boolean) {
        ErrStep(st, OperandsNotBoolean(op));
      }
    case _ =>
      if !(l == Number && r == Number) {
        ErrStep(st, OperandsNotNumber(op));
      }
  }

  lemma CheckAssignableStep(st: AState, target: Option<Type>, source: Option<Type>)
    ensures ExprStep(st, CheckAssignable(st, target, source).0)
  {
    AssignReportsFieldDiags(target, source);
    var r := CheckAssignable(st, target, source).0;
    forall k | |st.errors| <= k < |r.errors| ensures ExprDiag(r.errors[k], st.vars) {
      assert r.errors[k] in Assignability.Assign(target, source).1;
    }
  }

  /** Analyzing an expression leaves the symbol table and the function context as they
      were; it appends expression diagnostics and adds call edges from the current
      function only. */
  lemma {:induction false} ExprFrame(st: AState, e: Expr)
    ensures ExprStep(st, AnalyzeExpr(st, e).0)
    decreases e, 3
  {
    match e
    case Assign(_, _, _) => AssignFrame(st, e);
    case Binary(_, _, _, _) => BinaryFrame(st, e);
    case Unary(_, operand, _) => ExprFrame(st, operand);
    case Postfix(_, _, _) => PostfixFrame(st, e);
  }

  lemma {:induction false} AssignFrame(st: AState, e: Expr)
    requires e.Assign?
    ensures ExprStep(st, AnalyzeAssign(st, e).0)
    decreases e, 2
  {
    var (s1, lt) := AnalyzeExpr(st, e.target);
    ExprFrame(st, e.target);
    var name := e.target.text;
    var s2 := if name in s1.vars && s1.vars[name].isConst then Err(s1, ConstReassignment(name)) else s1;
    if name in s1.vars && s1.vars[name].isConst {
      ErrStep(s1, ConstReassignment(name));
    }
    ExprStepTrans(st, s1, s2);
    AssignValueFrame(s2, lt, e.value);
    ExprStepTrans(st, s2, AssignValue(s2, lt, e.value));
  }

  lemma {:induction false} AssignValueFrame(st: AState, lt: Option<Type>, value: Expr)
    ensures ExprStep(st, AssignValue(st, lt, value))
    decreases value, 4
  {
    var (s1, rt) := AnalyzeExpr(st, value);
    ExprFrame(st, value);
    if lt.Some? && rt.Some? {
      var (s2, ok) := CheckAssignable(s1, lt, rt);
      CheckAssignableStep(s1, lt, rt);
      ExprStepTrans(st, s1, s2);
      if !ok {
        ErrStep(s2, AssignmentMismatch(lt.value, rt.value));
        ExprStepTrans(st, s2, Err(s2, AssignmentMismatch(lt.value, rt.value)));
      }
    }
  }

  lemma {:induction false} BinaryFrame(st: AState, e: Expr)
    requires e.Binary?
    ensures ExprStep(st, AnalyzeBinary(st, e).0)
    decreases e, 2
  {
    var (s1, left) := AnalyzeExpr(st, e.first);
    ExprFrame(st, e.first);
    ChainFrame(s1, e, 0, left);
    ExprStepTrans(st, s1, AnalyzeChain(s1, e, 0, left).0);
  }

  lemma {:induction false} ChainFrame(st: AState, e: Expr, i: nat, left: Option<Type>)
    requires e.Binary?
    ensures ExprStep(st, AnalyzeChain(st, e, i, left).0)
    decreases e, 0, |e.rest| - i
  {
    if i < |e.rest| {
      var (s1, right) := AnalyzeExpr(st, e.rest[i].arg);
      ExprFrame(st, e.rest[i].arg);
      var s2 := if left.Some? && right.Some? then Validate(s1, e.level, e.rest[i].op, left.value, right.value) else s1;
      if left.Some? && right.Some? {
        ValidateStep(s1, e.level, e.rest[i].op, left.value, right.value);
      }
      ExprStepTrans(st, s1, s2);
      var next := Some(LevelResult(e.level));
      assert AnalyzeChain(st, e, i, left) == AnalyzeChain(s2, e, i + 1, next);
      ChainFrame(s2, e, i + 1, next);
      ExprStepTrans(st, s2, AnalyzeChain(s2, e, i + 1, next).0);
    }
  }

  lemma {:induction false} PostfixFrame(st: AState, e: Expr)
    requires e.Postfix?
    ensures ExprStep(st, AnalyzePostfix(st, e).0)
    decreases e, 2
  {
    var primaryId := if e.primary.Ident? then Some(e.primary.name) else None;
    var (s1, t) := AnalyzePrimary(st, e.primary);
    PrimaryFrame(st, e.primary);
    OpsFrame(s1, e, primaryId, 0, t);
    ExprStepTrans(st, s1, AnalyzeOps(s1, e, primaryId, 0, t).0);
  }

  lemma {:induction false} OpsFrame(st: AState, e: Expr, primaryId: Option<string>, i: nat, t: Option<Type>)
    requires e.Postfix?
    ensures ExprStep(st, AnalyzeOps(st, e, primaryId, i, t).0)
    decreases e, 0, |e.ops| - i
  {
    if i < |e.ops| {
      match e.ops[i]
      case Index(_) =>
        if t.Some? && t.value.Array? {
          OpsFrame(st, e, primaryId, i + 1, t.value.elem);
        } else {
          ErrStep(st, IndexOnNonArray);
        }
      case Member(name) =>
        if t.Some? && t.value.Interface? {
          if HasField(t.value.props, name) {
            OpsFrame(st, e, primaryId, i + 1, FieldType(t.value.props, name));
          } else {
            ErrStep(st, FieldNotFound(name, t.value.id));
          }
        } else {
          ErrStep(st, MemberOnNonInterface);
        }
      case Call(args) =>
        if i == 0 && primaryId.Some? && primaryId.value in st.funcs {
          var s1 := AnalyzeCall(st, primaryId.value, args);
          CallFrame(st, primaryId.value, args);
          var rt := Some(st.funcs[primaryId.value].returnType);
          assert AnalyzeOps(st, e, primaryId, i, t) == AnalyzeOps(s1, e, primaryId, i + 1, rt);
          OpsFrame(s1, e, primaryId, i + 1, rt);
          ExprStepTrans(st, s1, AnalyzeOps(s1, e, primaryId, i + 1, rt).0);
        } else {
          OpsFrame(st, e, primaryId, i + 1, t);
        }
    }
  }

  /** A call also records the edge from the current function to the callee. */
  lemma {:induction false} CallFrame(st: AState, f: string, args: seq<Expr>)
    ensures ExprStep(st, AnalyzeCall(st, f, args))
    ensures st.currentFunction.Some? ==>
      st.currentFunction.value in AnalyzeCall(st, f, args).callGraph &&
      f in AnalyzeCall(st, f, args).callGraph[st.currentFunction.value]
    decreases args, 1
  {
    var s1 := if f == "print" && |args| == 1 then CheckPrintArg(st, args[0]) else st;
    if f == "print" && |args| == 1 {
      PrintArgFrame(st, args[0]);
    }
    var s2 := if f == "read" && |args| != 0 then Err(s1, ReadTakesNoArguments) else s1;
    if f == "read" && |args| != 0 {
      ErrStep(s1, ReadTakesNoArguments);
    }
    ExprStepTrans(st, s1, s2);
    RecordCallStep(s2, f);
    ExprStepTrans(st, s2, RecordCall(s2, f));
  }

  lemma {:induction false} PrintArgFrame(st: AState, arg: Expr)
    ensures ExprStep(st, CheckPrintArg(st, arg))
    decreases arg, 4
  {
    var (s, at) := AnalyzeExpr(st, arg);
    ExprFrame(st, arg);
    if !IsPrintable(at) {
      ErrStep(s, InvalidPrintArgument);
      ExprStepTrans(st, s, Err(s, InvalidPrintArgument));
    }
  }

  lemma RecordCallStep(st: AState, f: string)
    ensures ExprStep(st, RecordCall(st, f))
    ensures st.currentFunction.Some? ==>
      st.currentFunction.value in RecordCall(st, f).callGraph &&
      f in RecordCall(st, f).callGraph[st.currentFunction.value]
  {
    if st.currentFunction.Some? {
      AddEdgeStep(st.callGraph, st.currentFunction.value, f);
    }
  }

  lemma AddEdgeStep(cg: map<string, set<string>>, f: string, g: string)
    ensures CallGraphStep(cg, AddEdge(cg, f, g), Some(f))
    ensures f in AddEdge(cg, f, g) && g in AddEdge(cg, f, g)[f]
  {
  }

  lemma {:induction false} PrimaryFrame(st: AState, p: Primary)
    ensures ExprStep(st, AnalyzePrimary(st, p).0)
    decreases p, 1
  {
    match p
    case Lit(_) =>
    case Ident(x) =>
      if x !in st.vars && x !in st.funcs {
        ErrStep(st, Undeclared(x));
      }
    case Paren(inner) => ExprFrame(st, inner);
    case ArrayLit(elems) =>
      if |elems| > 0 {
        var (s1, first) := AnalyzeExpr(st, elems[0]);
        ExprFrame(st, elems[0]);
        ArrayRestFrame(s1, p, 1, first);
        ExprStepTrans(st, s1, AnalyzeArrayRest(s1, p, 1, first));
      }
    case ObjectLit(_) => EntriesFrame(st, p, 0, []);
  }

  lemma {:induction false} ArrayRestFrame(st: AState, p: Primary, i: nat, first: Option<Type>)
    requires p.ArrayLit?
    ensures ExprStep(st, AnalyzeArrayRest(st, p, i, first))
    decreases p, 0, |p.elems| - i
  {
    if i < |p.elems| {
      var (s1, t) := AnalyzeExpr(st, p.elems[i]);
      ExprFrame(st, p.elems[i]);
      var s2 := if TypesEqual(first, t) then s1 else Err(s1, HeterogeneousArray(first, t));
      if !TypesEqual(first, t) {
        ErrStep(s1, HeterogeneousArray(first, t));
      }
      ExprStepTrans(st, s1, s2);
      assert AnalyzeArrayRest(st, p, i, first) == AnalyzeArrayRest(s2, p, i + 1, first);
      ArrayRestFrame(s2, p, i + 1, first);
      ExprStepTrans(st, s2, AnalyzeArrayRest(s2, p, i + 1, first));
    }
  }

  lemma {:induction false} EntriesFrame(st: AState, p: Primary, i: nat, props: seq<Field>)
    requires p.ObjectLit?
    ensures ExprStep(st, AnalyzeEntries(st, p, i, props).0)
    decreases p, 0, |p.entries| - i
  {
    if i < |p.entries| {
      var (s1, t) := AnalyzeExpr(st, p.entries[i].value);
      ExprFrame(st, p.entries[i].value);
      var props' := SetField(props, p.entries[i].key, t);
      assert AnalyzeEntries(st, p, i, props) == AnalyzeEntries(s1, p, i + 1, props');
      EntriesFrame(s1, p, i + 1, props');
      ExprStepTrans(st, s1, AnalyzeEntries(s1, p, i + 1, props').0);
    }
  }

  // ---------------------------------------------------------------------------
  // Statements
  // ---------------------------------------------------------------------------

  /** A `return` statement reachable in the statement without entering a nested
      function declaration. */
  predicate StmtHasReturn(s: Stmt)
    decreases s, 1
  {
    match s
    case Return(_) => true
    case If(_, th, el) => StmtHasReturn(th) || (el.Some? && StmtHasReturn(el.value))
    case While(_, body) => StmtHasReturn(body)
    case For(init, _, _, body) => (init.Some? && StmtHasReturn(init.value)) || StmtHasReturn(body)
    case Block(ss) => HasReturn(ss)
    case _ => false
  }

  predicate HasReturn(ss: seq<Stmt>)
    decreases ss
  {
    ss != [] && (StmtHasReturn(ss[0]) || HasReturn(ss[1..]))
  }

  /** No function declaration anywhere in the statement. */
  predicate StmtNoFunctions(s: Stmt)
    decreases s, 1
  {
    match s
    case FunctionDecl(_, _, _, _) => false
    case If(_, th, el) => StmtNoFunctions(th) && (el.None? || StmtNoFunctions(el.value))
    case While(_, body) => StmtNoFunctions(body)
    case For(init, _, _, body) => (init.None? || StmtNoFunctions(init.value)) && StmtNoFunctions(body)
    case Block(ss) => NoFunctions(ss)
    case _ => true
  }

  predicate NoFunctions(ss: seq<Stmt>)
    decreases ss
  {
    ss == [] || (StmtNoFunctions(ss[0]) && NoFunctions(ss[1..]))
  }

  /** `a` to `b`: errors only appended, function context unchanged; and, when `noFun`,
      no missing-return diagnostic among the new ones. */
  predicate StmtStep(a: AState, b: AState, noFun: bool) {
    a.errors <= b.errors &&
    b.currentFunction == a.currentFunction && b.expectedReturn == a.expectedReturn &&
    a.funcs.Keys <= b.funcs.Keys && a.interfaces.Keys <= b.interfaces.Keys &&
    (noFun ==> forall k :: |a.errors| <= k < |b.errors| ==> !b.errors[k].MissingReturn?)
  }

  lemma StmtStepTrans(a: AState, b: AState, c: AState, noFun: bool)
    requires StmtStep(a, b, noFun) && StmtStep(b, c, noFun)
    ensures StmtStep(a, c, noFun)
  {
    if noFun {
      forall k | |a.errors| <= k < |c.errors| ensures !c.errors[k].MissingReturn? {
        if k < |b.errors| {
          assert c.errors[k] == b.errors[k];
        }
      }
    }
  }

  lemma ExprStepIsStmtStep(a: AState, b: AState, noFun: bool)
    requires ExprStep(a, b)
    ensures StmtStep(a, b, noFun)
  {
    if noFun {
      forall k | |a.errors| <= k < |b.errors| ensures !b.errors[k].MissingReturn? {
        assert ExprDiag(b.errors[k], a.vars);
      }
    }
  }

  lemma ExprStmtStep(st: AState, e: Expr, noFun: bool)
    ensures StmtStep(st, AnalyzeExpr(st, e).0, noFun)
  {
    ExprFrame(st, e);
    ExprStepIsStmtStep(st, AnalyzeExpr(st, e).0, noFun);
  }

  /** Statements append to the error list and never change the function context; without
      nested function declarations they never report a missing return. */
  lemma {:induction false} StmtFrame(st: AState, s: Stmt)
    ensures StmtStep(st, AnalyzeStmt(st, s), StmtNoFunctions(s))
    decreases s, 1
  {
    var nf := StmtNoFunctions(s);
    match s
    case VarDecl(_, _, _, _) => VarDeclFrame(st, s);
    case FunctionDecl(_, _, _, _) => FunctionFrame(st, s);
    case InterfaceDecl(_, _) => InterfaceFrame(st, s);
    case Return(_) => ReturnFrame(st, s);
    case If(c, th, el) =>
      var s0 := AnalyzeExpr(st, c).0;
      ExprStmtStep(st, c, nf);
      var s1 := AnalyzeStmt(s0, th);
      StmtFrame(s0, th);
      StmtStepTrans(st, s0, s1, nf);
      if el.Some? {
        StmtFrame(s1, el.value);
        StmtStepTrans(st, s1, AnalyzeStmt(s1, el.value), nf);
      }
    case While(c, body) =>
      var s0 := AnalyzeExpr(st, c).0;
      ExprStmtStep(st, c, nf);
      StmtFrame(s0, body);
      StmtStepTrans(st, s0, AnalyzeStmt(s0, body), nf);
    case For(init, test, update, body) =>
      var s1 := if init.Some? then AnalyzeStmt(st, init.value) else st;
      if init.Some? {
        StmtFrame(st, init.value);
      }
      var s2 := if test.Some? then AnalyzeExpr(s1, test.value).0 else s1;
      if test.Some? {
        ExprStmtStep(s1, test.value, nf);
      }
      StmtStepTrans(st, s1, s2, nf);
      var s3 := if update.Some? then AnalyzeExpr(s2, update.value).0 else s2;
      if update.Some? {
        ExprStmtStep(s2, update.value, nf);
      }
      StmtStepTrans(st, s2, s3, nf);
      StmtFrame(s3, body);
      StmtStepTrans(st, s3, AnalyzeStmt(s3, body), nf);
    case ExprStmt(x) => ExprStmtStep(st, x, nf);
    case Block(ss) => StmtsFrame(st, ss);
  }

  lemma {:induction false} StmtsFrame(st: AState, ss: seq<Stmt>)
    ensures StmtStep(st, AnalyzeStmts(st, ss), NoFunctions(ss))
    decreases ss
  {
    if ss != [] {
      var nf := NoFunctions(ss);
      var s1 := AnalyzeStmt(st, ss[0]);
      StmtFrame(st, ss[0]);
      StmtsFrame(s1, ss[1..]);
      if nf {
        StmtStepTrans(st, s1, AnalyzeStmts(s1, ss[1..]), true);
      } else {
        StmtStepTrans(st, s1, AnalyzeStmts(s1, ss[1..]), false);
      }
    }
  }

  /** The diagnostics of an initializer check. */
  predicate InitDiag(d: Diag, vars: map<string, VarSymbol>) {
    ExprDiag(d, vars) || d.InitializerMismatch? || d.ConstWithoutInitializer?
  }

  /** Checking an initializer changes nothing but the errors and the call graph. */
  lemma InitializerStep(st: AState, name: string, isConst: bool, declared: Type, init: Option<Expr>)
    ensures var r := CheckInitializer(st, name, isConst, declared, init);
      r.vars == st.vars && r.funcs == st.funcs && r.interfaces == st.interfaces &&
      r.currentFunction == st.currentFunction && r.expectedReturn == st.expectedReturn &&
      r.returnSeen == st.returnSeen && st.callGraph.Keys <= r.callGraph.Keys &&
      st.errors <= r.errors &&
      (forall k :: |st.errors| <= k < |r.errors| ==> InitDiag(r.errors[k], st.vars))
    ensures init.None? ==>
      CheckInitializer(st, name, isConst, declared, init).errors ==
        st.errors + (if isConst then [ConstWithoutInitializer(name)] else [])
  {
    if init.Some? {
      var (s1, it) := AnalyzeExpr(st, init.value);
      ExprFrame(st, init.value);
      var (s2, ok) := CheckAssignable(s1, Some(declared), it);
      CheckAssignableStep(s1, Some(declared), it);
      ExprStepTrans(st, s1, s2);
      var r := CheckInitializer(st, name, isConst, declared, init);
      forall k | |st.errors| <= k < |r.errors| ensures InitDiag(r.errors[k], st.vars) {
        if k < |s2.errors| {
          assert r.errors[k] == s2.errors[k];
        }
      }
    }
  }

  /** The part of a variable declaration before its initializer is checked. */
  function Declared(st: AState, s: Stmt): AState
    requires s.VarDecl?
  {
    var (declared, tds) := TypeFromCtx(s.declType, st.interfaces);
    var s1 := AddErrs(st, tds);
    var s2 := if s.name in s1.vars then Err(s1, VarRedeclared(s.name)) else s1;
    s2.(vars := s2.vars[s.name := VarSymbol(s.name, declared, s.isConst)])
  }

  lemma DeclaredParts(st: AState, s: Stmt)
    requires s.VarDecl?
    ensures var tds := TypeFromCtx(s.declType, st.interfaces).1;
      var s3 := Declared(st, s);
      AnalyzeVarDecl(st, s) ==
        CheckInitializer(s3, s.name, s.isConst, TypeFromCtx(s.declType, st.interfaces).0, s.initializer) &&
      s3.errors == st.errors + tds + (if s.name in st.vars then [VarRedeclared(s.name)] else []) &&
      s3.vars == st.vars[s.name := VarSymbol(s.name, TypeFromCtx(s.declType, st.interfaces).0, s.isConst)] &&
      s3.funcs == st.funcs && s3.interfaces == st.interfaces && s3.callGraph == st.callGraph &&
      s3.currentFunction == st.currentFunction && s3.expectedReturn == st.expectedReturn &&
      s3.returnSeen == st.returnSeen
  {
  }

  lemma VarDeclFrame(st: AState, s: Stmt)
    requires s.VarDecl?
    ensures StmtStep(st, AnalyzeVarDecl(st, s), true)
    ensures AnalyzeVarDecl(st, s).returnSeen == st.returnSeen
    ensures st.callGraph.Keys <= AnalyzeVarDecl(st, s).callGraph.Keys
  {
    var (declared, tds) := TypeFromCtx(s.declType, st.interfaces);
    ResolutionDiags(s.declType, st.interfaces);
    DeclaredParts(st, s);
    var s3 := Declared(st, s);
    InitializerStep(s3, s.name, s.isConst, declared, s.initializer);
    var r := AnalyzeVarDecl(st, s);
    forall k | |st.errors| <= k < |r.errors| ensures !r.errors[k].MissingReturn? {
      if k < |s3.errors| {
        assert r.errors[k] == s3.errors[k];
        if k < |st.errors| + |tds| {
          assert s3.errors[k] == tds[k - |st.errors|];
          assert tds[k - |st.errors|] in tds;
        }
      } else {
        assert InitDiag(r.errors[k], s3.vars);
      }
    }
  }

  lemma InterfaceFrame(st: AState, s: Stmt)
    requires s.InterfaceDecl?
    ensures StmtStep(st, AnalyzeInterface(st, s), true)
  {
    if s.name !in st.interfaces {
      ResolvePropsDiags(s.props, st.interfaces);
      var ds := ResolveProps(s.props, st.interfaces).1;
      var r := AnalyzeInterface(st, s);
      forall k | |st.errors| <= k < |r.errors| ensures !r.errors[k].MissingReturn? {
        assert r.errors[k] == ds[k - |st.errors|];
        assert ds[k - |st.errors|] in ds;
      }
    }
  }

  lemma ReturnFrame(st: AState, s: Stmt)
    requires s.Return?
    ensures StmtStep(st, AnalyzeReturn(st, s), true)
  {
    var s1 := st.(returnSeen := true);
    if s1.expectedReturn != Some(Void) && s.value.Some? {
      var (s2, t) := AnalyzeExpr(s1, s.value.value);
      ExprStmtStep(s1, s.value.value, true);
      if s2.expectedReturn.Some? {
        var (s3, ok) := CheckAssignable(s2, s2.expectedReturn, t);
        CheckAssignableStep(s2, s2.expectedReturn, t);
        ExprStepIsStmtStep(s2, s3, true);
        StmtStepTrans(s1, s2, s3, true);
      }
    }
  }

  /** The state after a function's signature is resolved and the function registered. */
  function Registered(st: AState, s: Stmt): AState
    requires s.FunctionDecl?
  {
    var (pts, pds) := ResolveParams(s.params, st.interfaces);
    var (rt, rds) := TypeFromCtx(s.returnType, st.interfaces);
    var s1 := AddErrs(AddErrs(st, pds), rds);
    var s2 := if s.name in s1.funcs then Err(s1, FunctionRedeclared(s.name)) else s1;
    s2.(funcs := s2.funcs[s.name := FuncSymbol(s.name, pts, rt)],
        callGraph := SetDefault(s2.callGraph, s.name))
  }

  /** The state the body is analyzed in. */
  function Entered(st: AState, s: Stmt): AState
    requires s.FunctionDecl?
  {
    var s3 := Registered(st, s);
    s3.(currentFunction := Some(s.name), expectedReturn := Some(TypeFromCtx(s.returnType, st.interfaces).0),
        returnSeen := false, vars := BindParams(s3.vars, s.params, ResolveParams(s.params, st.interfaces).0))
  }

  /** The state after the body: the caller's context back, and a missing return reported. */
  function Left(s3: AState, s4: AState, name: string, rt: Type): AState {
    var s5 := s4.(vars := s3.vars, currentFunction := s3.currentFunction, expectedReturn := s3.expectedReturn);
    var s6 := if NeedsReturn(rt) && !s4.returnSeen then Err(s5, MissingReturn(name, rt)) else s5;
    s6.(returnSeen := s3.returnSeen)
  }

  lemma FunctionParts(st: AState, s: Stmt)
    requires s.FunctionDecl?
    ensures AnalyzeFunction(st, s) ==
      Left(Registered(st, s), AnalyzeStmts(Entered(st, s), s.block), s.name, TypeFromCtx(s.returnType, st.interfaces).0)
  {
  }

  /** Registering reports only undeclared interfaces and redeclarations, and keeps the rest
      of the state apart from the new function and its call-graph entry. */
  lemma RegisteredStep(st: AState, s: Stmt)
    requires s.FunctionDecl?
    ensures var s3 := Registered(st, s);
      StmtStep(st, s3, true) && s.name in s3.funcs && st.callGraph.Keys + {s.name} <= s3.callGraph.Keys &&
      s3.vars == st.vars && s3.currentFunction == st.currentFunction &&
      s3.expectedReturn == st.expectedReturn && s3.returnSeen == st.returnSeen &&
      s3.interfaces == st.interfaces &&
      forall k :: |st.errors| <= k < |s3.errors| ==> !s3.errors[k].MissingReturn?
  {
    var (pts, pds) := ResolveParams(s.params, st.interfaces);
    var (rt, rds) := TypeFromCtx(s.returnType, st.interfaces);
    ResolutionDiags(s.returnType, st.interfaces);
    ResolveParamsDiags(s.params, st.interfaces);
    var s1 := AddErrs(AddErrs(st, pds), rds);
    forall k | |st.errors| <= k < |s1.errors| ensures !s1.errors[k].MissingReturn? {
      if k < |st.errors| + |pds| {
        assert s1.errors[k] == pds[k - |st.errors|];
        assert pds[k - |st.errors|] in pds;
      } else {
        assert s1.errors[k] == rds[k - |st.errors| - |pds|];
        assert rds[k - |st.errors| - |pds|] in rds;
      }
    }
  }

  /** The exit keeps the errors of the body and appends at most a missing return. */
  lemma LeftErrors(s3: AState, s4: AState, name: string, rt: Type)
    ensures var r := Left(s3, s4, name, rt);
      r.errors == s4.errors + (if NeedsReturn(rt) && !s4.returnSeen then [MissingReturn(name, rt)] else []) &&
      r.vars == s3.vars && r.currentFunction == s3.currentFunction &&
      r.expectedReturn == s3.expectedReturn && r.returnSeen == s3.returnSeen &&
      r.funcs == s4.funcs && r.interfaces == s4.interfaces && r.callGraph == s4.callGraph
  {
  }

  lemma {:induction false} FunctionFrame(st: AState, s: Stmt)
    requires s.FunctionDecl?
    ensures StmtStep(st, AnalyzeFunction(st, s), false)
    ensures s.name in AnalyzeFunction(st, s).funcs
    decreases s, 0
  {
    var rt := TypeFromCtx(s.returnType, st.interfaces).0;
    var s3 := Registered(st, s);
    var s4 := AnalyzeStmts(Entered(st, s), s.block);
    FunctionParts(st, s);
    RegisteredStep(st, s);
    StmtsFrame(Entered(st, s), s.block);
    LeftErrors(s3, s4, s.name, rt);
  }

  // ---------------------------------------------------------------------------
  // Return tracking and missing returns
  // ---------------------------------------------------------------------------

  /** After a statement the return flag is set exactly when it was already set or the
      statement contains a `return` outside nested functions. */
  lemma {:induction false} ReturnSeenStmt(st: AState, s: Stmt)
    ensures AnalyzeStmt(st, s).returnSeen == (st.returnSeen || StmtHasReturn(s))
    decreases s, 1
  {
    match s
    case VarDecl(_, _, _, _) => VarDeclFrame(st, s);
    case FunctionDecl(_, _, _, _) =>
    case InterfaceDecl(_, _) =>
    case Return(_) =>
      if st.expectedReturn != Some(Void) && s.value.Some? {
        ExprFrame(st.(returnSeen := true), s.value.value);
      }
    case If(c, th, el) =>
      var s0 := AnalyzeExpr(st, c).0;
      ExprFrame(st, c);
      ReturnSeenStmt(s0, th);
      if el.Some? {
        ReturnSeenStmt(AnalyzeStmt(s0, th), el.value);
      }
    case While(c, body) =>
      ExprFrame(st, c);
      ReturnSeenStmt(AnalyzeExpr(st, c).0, body);
    case For(init, test, update, body) =>
      var s1 := if init.Some? then AnalyzeStmt(st, init.value) else st;
      if init.Some? {
        ReturnSeenStmt(st, init.value);
      }
      var s2 := if test.Some? then AnalyzeExpr(s1, test.value).0 else s1;
      if test.Some? {
        ExprFrame(s1, test.value);
      }
      var s3 := if update.Some? then AnalyzeExpr(s2, update.value).0 else s2;
      if update.Some? {
        ExprFrame(s2, update.value);
      }
      ReturnSeenStmt(s3, body);
    case ExprStmt(x) => ExprFrame(st, x);
    case Block(ss) => ReturnSeenStmts(st, ss);
  }

  lemma {:induction false} ReturnSeenStmts(st: AState, ss: seq<Stmt>)
    ensures AnalyzeStmts(st, ss).returnSeen == (st.returnSeen || HasReturn(ss))
    decreases ss
  {
    if ss != [] {
      ReturnSeenStmt(st, ss[0]);
      ReturnSeenStmts(AnalyzeStmt(st, ss[0]), ss[1..]);
    }
  }

  /** A function declaration restores the caller's variables and function context, and
      registers the function with a call-graph entry. */
  lemma {:induction false} FunctionRestores(st: AState, s: Stmt)
    requires s.FunctionDecl?
    ensures var r := AnalyzeFunction(st, s);
      r.vars == st.vars && r.currentFunction == st.currentFunction &&
      r.expectedReturn == st.expectedReturn && r.returnSeen == st.returnSeen &&
      st.funcs.Keys + {s.name} <= r.funcs.Keys && st.callGraph.Keys + {s.name} <= r.callGraph.Keys
    decreases s, 0
  {
    var s3 := Registered(st, s);
    FunctionParts(st, s);
    RegisteredStep(st, s);
    StmtsFrame(Entered(st, s), s.block);
    CallGraphKeysKept(Entered(st, s), s.block);
    LeftErrors(s3, AnalyzeStmts(Entered(st, s), s.block), s.name, TypeFromCtx(s.returnType, st.interfaces).0);
  }

  /** Names with a call-graph entry keep it. */
  lemma {:induction false} CallGraphKeysKeptStmt(st: AState, s: Stmt)
    ensures st.callGraph.Keys <= AnalyzeStmt(st, s).callGraph.Keys
    decreases s, 1
  {
    match s
    case VarDecl(_, _, _, _) => VarDeclFrame(st, s);
    case FunctionDecl(_, _, _, _) => FunctionRestores(st, s);
    case InterfaceDecl(_, _) =>
    case Return(_) =>
      if st.expectedReturn != Some(Void) && s.value.Some? {
        ExprFrame(st.(returnSeen := true), s.value.value);
      }
    case If(c, th, el) =>
      var s0 := AnalyzeExpr(st, c).0;
      ExprFrame(st, c);
      CallGraphKeysKeptStmt(s0, th);
      if el.Some? {
        CallGraphKeysKeptStmt(AnalyzeStmt(s0, th), el.value);
      }
    case While(c, body) =>
      ExprFrame(st, c);
      CallGraphKeysKeptStmt(AnalyzeExpr(st, c).0, body);
    case For(init, test, update, body) =>
      var s1 := if init.Some? then AnalyzeStmt(st, init.value) else st;
      if init.Some? {
        CallGraphKeysKeptStmt(st, init.value);
      }
      var s2 := if test.Some? then AnalyzeExpr(s1, test.value).0 else s1;
      if test.Some? {
        ExprFrame(s1, test.value);
      }
      var s3 := if update.Some? then AnalyzeExpr(s2, update.value).0 else s2;
      if update.Some? {
        ExprFrame(s2, update.value);
      }
      CallGraphKeysKeptStmt(s3, body);
    case ExprStmt(x) => ExprFrame(st, x);
    case Block(ss) => CallGraphKeysKept(st, ss);
  }

  lemma {:induction false} CallGraphKeysKept(st: AState, ss: seq<Stmt>)
    ensures st.callGraph.Keys <= AnalyzeStmts(st, ss).callGraph.Keys
    decreases ss
  {
    if ss != [] {
      CallGraphKeysKeptStmt(st, ss[0]);
      CallGraphKeysKept(AnalyzeStmt(st, ss[0]), ss[1..]);
    }
  }

  /** A diagnostic not among those appended keeps its number of occurrences. */
  lemma CountUnchanged(a: seq<Diag>, b: seq<Diag>, d: Diag)
    requires a <= b
    requires forall k :: |a| <= k < |b| ==> b[k] != d
    ensures multiset(b)[d] == multiset(a)[d]
  {
    var added := b[|a|..];
    assert b == a + added;
    assert d !in added by {
      forall k | 0 <= k < |added| ensures added[k] != d {
        assert added[k] == b[|a| + k];
      }
    }
  }

  lemma StmtStepCount(a: AState, b: AState, d: Diag)
    requires StmtStep(a, b, true) && d.MissingReturn?
    ensures multiset(b.errors)[d] == multiset(a.errors)[d]
  {
    CountUnchanged(a.errors, b.errors, d);
  }

  /** A function whose body declares no nested function gets exactly one missing-return
      diagnostic when its return type is a non-void primitive and its body has no
      `return`, and none otherwise. */
  lemma MissingReturnExactlyWhen(st: AState, s: Stmt)
    requires s.FunctionDecl? && NoFunctions(s.block)
    ensures var rt := TypeFromCtx(s.returnType, st.interfaces).0;
      var d := MissingReturn(s.name, rt);
      multiset(AnalyzeFunction(st, s).errors)[d] ==
        multiset(st.errors)[d] + (if NeedsReturn(rt) && !HasReturn(s.block) then 1 else 0)
  {
    var rt := TypeFromCtx(s.returnType, st.interfaces).0;
    var d := MissingReturn(s.name, rt);
    var s3 := Registered(st, s);
    var inner := Entered(st, s);
    var s4 := AnalyzeStmts(inner, s.block);
    FunctionParts(st, s);
    RegisteredStep(st, s);
    CountUnchanged(st.errors, s3.errors, d);
    StmtsFrame(inner, s.block);
    StmtStepCount(inner, s4, d);
    ReturnSeenStmts(inner, s.block);
    LeftErrors(s3, s4, s.name, rt);
    var r := AnalyzeFunction(st, s);
    if NeedsReturn(rt) && !s4.returnSeen {
      assert multiset(r.errors) == multiset(s4.errors) + multiset{d};
    }
  }

  /** Annotations only ever report undeclared interfaces. */
  lemma ResolutionDiags(te: TypeExpr, interfaces: map<string, Type>)
    ensures forall d :: d in TypeFromCtx(te, interfaces).1 ==> d.InterfaceNotDeclared?
  {
  }

  lemma {:induction false} ResolveParamsDiags(ps: seq<Param>, interfaces: map<string, Type>)
    ensures forall d :: d in ResolveParams(ps, interfaces).1 ==> d.InterfaceNotDeclared?
  {
    if ps != [] {
      ResolveParamsDiags(ps[..|ps| - 1], interfaces);
      ResolutionDiags(ps[|ps| - 1].ty, interfaces);
    }
  }

  // ---------------------------------------------------------------------------
  // Declarations
  // ---------------------------------------------------------------------------

  lemma {:induction false} ResolvePropsDiags(ps: seq<PropDecl>, interfaces: map<string, Type>)
    ensures forall d :: d in ResolveProps(ps, interfaces).1 ==> d.InterfaceNotDeclared?
  {
    if ps != [] {
      ResolvePropsDiags(ps[..|ps| - 1], interfaces);
      ResolutionDiags(ps[|ps| - 1].ty, interfaces);
    }
  }

  // ---------------------------------------------------------------------------
  // Declarations
  // ---------------------------------------------------------------------------

  /** A variable declaration binds its name in the flat variable map, replacing any
      earlier binding, and reports a redeclaration exactly when the name was bound. */
  lemma VarDeclBindsAndReports(st: AState, s: Stmt)
    requires s.VarDecl?
    ensures var declared := TypeFromCtx(s.declType, st.interfaces).0;
      var r := AnalyzeVarDecl(st, s);
      r.vars == st.vars[s.name := VarSymbol(s.name, declared, s.isConst)] &&
      st.errors <= r.errors &&
      (VarRedeclared(s.name) in r.errors[|st.errors|..] <==> s.name in st.vars)
  {
    var (declared, tds) := TypeFromCtx(s.declType, st.interfaces);
    ResolutionDiags(s.declType, st.interfaces);
    DeclaredParts(st, s);
    var s3 := Declared(st, s);
    InitializerStep(s3, s.name, s.isConst, declared, s.initializer);
    RedeclaredOnce(st.errors, tds, s3.errors, AnalyzeVarDecl(st, s).errors, s.name, s.name in st.vars, s3.vars);
  }

  /** The errors of a declaration: the annotation's, a redeclaration when `bound`, then
      the initializer's; only the middle one can be a redeclaration. */
  lemma RedeclaredOnce(a: seq<Diag>, tds: seq<Diag>, mid: seq<Diag>, b: seq<Diag>, name: string, bound: bool,
                       vars: map<string, VarSymbol>)
    requires forall d :: d in tds ==> d.InterfaceNotDeclared?
    requires mid == a + tds + (if bound then [VarRedeclared(name)] else [])
    requires mid <= b
    requires forall k :: |mid| <= k < |b| ==> InitDiag(b[k], vars)
    ensures a <= b
    ensures VarRedeclared(name) in b[|a|..] <==> bound
  {
    var added := b[|a|..];
    if bound {
      assert added[|tds|] == b[|a| + |tds|] == mid[|a| + |tds|];
    } else {
      forall k | 0 <= k < |added| ensures added[k] != VarRedeclared(name) {
        var j := |a| + k;
        assert added[k] == b[j];
        if j < |mid| {
          assert b[j] == mid[j] == tds[k];
          assert tds[k] in tds;
        } else {
          assert InitDiag(b[j], vars);
        }
      }
    }
  }

  /** A `const` declared without an initializer ends with exactly one report of it. */
  lemma ConstWithoutInitializerReported(st: AState, s: Stmt)
    requires s.VarDecl? && s.isConst && s.initializer.None?
    ensures var r := AnalyzeVarDecl(st, s);
      |r.errors| > |st.errors| && r.errors[|r.errors| - 1] == ConstWithoutInitializer(s.name) &&
      multiset(r.errors)[ConstWithoutInitializer(s.name)] == multiset(st.errors)[ConstWithoutInitializer(s.name)] + 1
  {
    var (declared, tds) := TypeFromCtx(s.declType, st.interfaces);
    ResolutionDiags(s.declType, st.interfaces);
    DeclaredParts(st, s);
    var s3 := Declared(st, s);
    InitializerStep(s3, s.name, s.isConst, declared, s.initializer);
    var d := ConstWithoutInitializer(s.name);
    forall k | |st.errors| <= k < |s3.errors| ensures s3.errors[k] != d {
      if k < |st.errors| + |tds| {
        assert s3.errors[k] == tds[k - |st.errors|];
        assert tds[k - |st.errors|] in tds;
      }
    }
    CountUnchanged(st.errors, s3.errors, d);
    var r := AnalyzeVarDecl(st, s);
    assert r.errors == s3.errors + [d];
    assert multiset(r.errors) == multiset(s3.errors) + multiset{d};
  }

  /** Assigning to a name bound to a `const` is reported right after the diagnostics of
      the assignment's target, and only then. */
  lemma ConstReassignmentReported(st: AState, e: Expr)
    requires e.Assign?
    ensures var s1 := AnalyzeExpr(st, e.target).0;
      var r := AnalyzeAssign(st, e).0;
      var name := e.target.text;
      (|s1.errors| < |r.errors| && r.errors[|s1.errors|] == ConstReassignment(name)) <==>
        (name in st.vars && st.vars[name].isConst)
  {
    var (s1, lt) := AnalyzeExpr(st, e.target);
    ExprFrame(st, e.target);
    var name := e.target.text;
    var s2 := if name in s1.vars && s1.vars[name].isConst then Err(s1, ConstReassignment(name)) else s1;
    AssignValueFrame(s2, lt, e.value);
    var r := AnalyzeAssign(st, e).0;
    assert r == AssignValue(s2, lt, e.value);
    if name in st.vars && st.vars[name].isConst {
      assert r.errors[|s1.errors|] == s2.errors[|s1.errors|];
    } else {
      ExprStepTrans(st, s1, r);
      if |s1.errors| < |r.errors| {
        assert ExprDiag(r.errors[|s1.errors|], st.vars);
      }
    }
  }

  /** A chain of binary operators with at least one operator yields `number` for
      arithmetic and `boolean` otherwise, whatever its operands; without one it is its
      operand's type. */
  lemma {:induction false} ChainResultType(st: AState, e: Expr, i: nat, left: Option<Type>)
    requires e.Binary?
    ensures AnalyzeChain(st, e, i, left).1 == if i < |e.rest| then Some(LevelResult(e.level)) else left
    decreases |e.rest| - i
  {
    if i < |e.rest| {
      var (s1, right) := AnalyzeExpr(st, e.rest[i].arg);
      var s2 := if left.Some? && right.Some? then Validate(s1, e.level, e.rest[i].op, left.value, right.value) else s1;
      ChainResultType(s2, e, i + 1, Some(LevelResult(e.level)));
    }
  }

  lemma BinaryResultType(st: AState, e: Expr)
    requires e.Binary?
    ensures AnalyzeExpr(st, e).1 == if |e.rest| > 0 then Some(LevelResult(e.level)) else AnalyzeExpr(st, e.first).1
  {
    ChainResultType(AnalyzeExpr(st, e.first).0, e, 0, AnalyzeExpr(st, e.first).1);
  }
}
