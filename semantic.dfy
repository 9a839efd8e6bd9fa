/** What `SemanticAnalyzer` does, as functions from the analyzer's state before a visit to
    its state after (and, for expressions, the inferred type). The class in module
    `Analyzer` performs the same walk by updating its fields and is proved to end in the
    state these functions give. */
module Semantic {
  import opened Wrappers
  import opened Types
  import opened Ast
  import opened Diagnostics
  import opened Resolution
  import opened Assignability

  datatype VarSymbol = VarSymbol(name: string, ty: Type, isConst: bool)

  datatype FuncSymbol = FuncSymbol(name: string, paramTypes: seq<Type>, returnType: Type)

  /** The analyzer's fields: the symbol table (one flat variable map, functions,
      interfaces), the error list, the call graph and the per-function context. */
  datatype AState = AState(
    vars: map<string, VarSymbol>,
    funcs: map<string, FuncSymbol>,
    interfaces: map<string, Type>,
    errors: seq<Diag>,
    callGraph: map<string, set<string>>,
    currentFunction: Option<string>,
    expectedReturn: Option<Type>,
    returnSeen: bool)

  /** The two built-in functions registered at construction. */
  function Builtins(): map<string, FuncSymbol> {
    map["print" := FuncSymbol("print", [Unknown], Void),
        "read" := FuncSymbol("read", [], Unknown)]
  }

  function Initial(): AState {
    AState(map[], Builtins(), map[], [], map[], None, None, false)
  }

  /** `_err`: append one diagnostic. */
  function Err(st: AState, d: Diag): AState {
    st.(errors := st.errors + [d])
  }

  function AddErrs(st: AState, ds: seq<Diag>): AState {
    st.(errors := st.errors + ds)
  }

  /** `is_assignable` run from the analyzer: its diagnostics are appended. */
  function CheckAssignable(st: AState, target: Option<Type>, source: Option<Type>): (AState, bool) {
    var r := Assignability.Assign(target, source);
    (AddErrs(st, r.1), r.0)
  }

  /** `call_graph.setdefault(f, set()).add(g)`. */
  function AddEdge(cg: map<string, set<string>>, f: string, g: string): map<string, set<string>> {
    cg[f := (if f in cg then cg[f] else {}) + {g}]
  }

  function SetDefault(cg: map<string, set<string>>, f: string): map<string, set<string>> {
    if f in cg then cg else cg[f := {}]
  }

  function LiteralType(l: Literal): Type {
    match l
    case NumberLit(_) => Number
    case StringLit(_) => String
    case BooleanLit(_) => Boolean
  }

  predicate IsPrintable(t: Option<Type>) {
    t.Some? && t.value.Primitive? &&
      (t.value.name == "string" || t.value.name == "number" || t.value.name == "boolean")
  }

  /** The type a chain of binary operators yields once it has an operator. */
  function LevelResult(level: Level): Type {
    match level
    case Additive => Number
    case Multiplicative => Number
    case _ => Boolean
  }

  /** The operand check of each operator visitor, run only when both types are known. */
  function Validate(st: AState, level: Level, op: BinOp, l: Type, r: Type): AState {
    match level
    case Equality => if TypesEqual(Some(l), Some(r)) then st else Err(st, OperandsNotSameType(op))
    case LogicalAnd => if l == Boolean && r == Boolean then st else Err(st, OperandsNotBoolean(op))
    case LogicalOr => if l == Boolean && r == Boolean then st else Err(st, OperandsNotBoolean(op))
    case _ => if l == Number && r == Number then st else Err(st, OperandsNotNumber(op))
  }

  // ---------------------------------------------------------------------------
  // Expressions
  // ---------------------------------------------------------------------------

  function AnalyzeExpr(st: AState, e: Expr): (AState, Option<Type>)
    decreases e, 3
  {
    match e
    case Assign(_, _, _) => AnalyzeAssign(st, e)
    case Binary(_, _, _, _) => AnalyzeBinary(st, e)
    // No visitor for unary expressions: the generic child walk returns the operand's type.
    case Unary(_, operand, _) => AnalyzeExpr(st, operand)
    case Postfix(_, _, _) => AnalyzePostfix(st, e)
  }

  /** `visitAssignmentExpr` with an `=`: left side, const check on its text, right side,
      then assignability when both types are known; the result is the left type. */
  function AnalyzeAssign(st: AState, e: Expr): (AState, Option<Type>)
    requires e.Assign?
    decreases e, 2
  {
    var (s1, lt) := AnalyzeExpr(st, e.target);
    var name := e.target.text;
    var s2 := if name in s1.vars && s1.vars[name].isConst then Err(s1, ConstReassignment(name)) else s1;
    (AssignValue(s2, lt, e.value), lt)
  }

  /** The right side of an assignment to a target of type `lt`. */
  function AssignValue(st: AState, lt: Option<Type>, value: Expr): AState
    decreases value, 4
  {
    var (s1, rt) := AnalyzeExpr(st, value);
    if lt.Some? && rt.Some? then
      var (s2, ok) := CheckAssignable(s1, lt, rt);
      if ok then s2 else Err(s2, AssignmentMismatch(lt.value, rt.value))
    else s1
  }

  /** `_binary_expr`: the first operand, then the chain folded left to right. */
  function AnalyzeBinary(st: AState, e: Expr): (AState, Option<Type>)
    requires e.Binary?
    decreases e, 2
  {
    var (s1, left) := AnalyzeExpr(st, e.first);
    AnalyzeChain(s1, e, 0, left)
  }

  function AnalyzeChain(st: AState, e: Expr, i: nat, left: Option<Type>): (AState, Option<Type>)
    requires e.Binary?
    decreases e, 0, |e.rest| - i
  {
    if i >= |e.rest| then (st, left)
    else
      var (s1, right) := AnalyzeExpr(st, e.rest[i].arg);
      var s2 := if left.Some? && right.Some? then Validate(s1, e.level, e.rest[i].op, left.value, right.value) else s1;
      AnalyzeChain(s2, e, i + 1, Some(LevelResult(e.level)))
  }

  /** `visitPostfixExpr`: the primary, then each suffix in turn. */
  function AnalyzePostfix(st: AState, e: Expr): (AState, Option<Type>)
    requires e.Postfix?
    decreases e, 2
  {
    var primaryId := if e.primary.Ident? then Some(e.primary.name) else None;
    var (s1, t) := AnalyzePrimary(st, e.primary);
    AnalyzeOps(s1, e, primaryId, 0, t)
  }

  /** The suffixes from the `i`-th on, applied to the type `t` so far. A bad index or
      member access reports and ends the expression with no type. A call counts only as
      the first suffix of a name that is a registered function. */
  function AnalyzeOps(st: AState, e: Expr, primaryId: Option<string>, i: nat, t: Option<Type>): (AState, Option<Type>)
    requires e.Postfix?
    decreases e, 0, |e.ops| - i
  {
    if i >= |e.ops| then (st, t)
    else match e.ops[i]
      case Index(_) =>
        if t.Some? && t.value.Array? then AnalyzeOps(st, e, primaryId, i + 1, t.value.elem)
        else (Err(st, IndexOnNonArray), None)
      case Member(name) =>
        if t.Some? && t.value.Interface? then
          if HasField(t.value.props, name) then AnalyzeOps(st, e, primaryId, i + 1, FieldType(t.value.props, name))
          else (Err(st, FieldNotFound(name, t.value.id)), None)
        else (Err(st, MemberOnNonInterface), None)
      case Call(args) =>
        if i == 0 && primaryId.Some? && primaryId.value in st.funcs then
          var f := primaryId.value;
          var s1 := AnalyzeCall(st, f, args);
          AnalyzeOps(s1, e, primaryId, i + 1, Some(st.funcs[f].returnType))
        else AnalyzeOps(st, e, primaryId, i + 1, t)
  }

  /** The checks on a call of a registered function `f`: only `print` with one argument
      has its argument analyzed; `read` must have none; arity is not checked. The call
      edge is recorded when inside a function. */
  function AnalyzeCall(st: AState, f: string, args: seq<Expr>): AState
    decreases args, 1
  {
    var s1 := if f == "print" && |args| == 1 then CheckPrintArg(st, args[0]) else st;
    var s2 := if f == "read" && |args| != 0 then Err(s1, ReadTakesNoArguments) else s1;
    RecordCall(s2, f)
  }

  /** The one argument of `print` must be a string, a number or a boolean. */
  function CheckPrintArg(st: AState, arg: Expr): AState
    decreases arg, 4
  {
    var (s, at) := AnalyzeExpr(st, arg);
    if IsPrintable(at) then s else Err(s, InvalidPrintArgument)
  }

  /** The edge from the function being analyzed, if any, to the callee `f`. */
  function RecordCall(st: AState, f: string): AState {
    if st.currentFunction.Some? then st.(callGraph := AddEdge(st.callGraph, st.currentFunction.value, f))
    else st
  }

  /** `visitPrimary` with `visitLiteral`, `visitArrayLiteral` and `visitObjectLiteral`. */
  function AnalyzePrimary(st: AState, p: Primary): (AState, Option<Type>)
    decreases p, 1
  {
    match p
    case Lit(l) => (st, Some(LiteralType(l)))
    case Ident(x) =>
      if x in st.vars then (st, Some(st.vars[x].ty))
      else if x in st.funcs then (st, Some(st.funcs[x].returnType))
      else (Err(st, Undeclared(x)), None)
    case Paren(inner) => AnalyzeExpr(st, inner)
    case ArrayLit(elems) =>
      if |elems| == 0 then (st, Some(Array(Some(Unknown))))
      else
        var (s1, first) := AnalyzeExpr(st, elems[0]);
        (AnalyzeArrayRest(s1, p, 1, first), Some(Array(first)))
    case ObjectLit(_) =>
      var (s1, props) := AnalyzeEntries(st, p, 0, []);
      (s1, Some(Interface(ObjLiteralId, props)))
  }

  /** The elements after the first: each one not equal to the first's type is reported. */
  function AnalyzeArrayRest(st: AState, p: Primary, i: nat, first: Option<Type>): AState
    requires p.ArrayLit?
    decreases p, 0, |p.elems| - i
  {
    if i >= |p.elems| then st
    else
      var (s1, t) := AnalyzeExpr(st, p.elems[i]);
      var s2 := if TypesEqual(first, t) then s1 else Err(s1, HeterogeneousArray(first, t));
      AnalyzeArrayRest(s2, p, i + 1, first)
  }

  /** The entries from the `i`-th on, each stored into the property dictionary. */
  function AnalyzeEntries(st: AState, p: Primary, i: nat, props: seq<Field>): (AState, seq<Field>)
    requires p.ObjectLit?
    decreases p, 0, |p.entries| - i
  {
    if i >= |p.entries| then (st, props)
    else
      var (s1, t) := AnalyzeExpr(st, p.entries[i].value);
      AnalyzeEntries(s1, p, i + 1, SetField(props, p.entries[i].key, t))
  }

  // ---------------------------------------------------------------------------
  // Statements
  // ---------------------------------------------------------------------------

  /** One statement. Statements without a visitor of their own (if, while, for, blocks,
      expression statements) visit their children in source order. */
  function AnalyzeStmt(st: AState, s: Stmt): AState
    decreases s, 1
  {
    match s
    case VarDecl(_, _, _, _) => AnalyzeVarDecl(st, s)
    case FunctionDecl(_, _, _, _) => AnalyzeFunction(st, s)
    case InterfaceDecl(_, _) => AnalyzeInterface(st, s)
    case Return(_) => AnalyzeReturn(st, s)
    case If(c, th, el) =>
      var s1 := AnalyzeStmt(AnalyzeExpr(st, c).0, th);
      if el.Some? then AnalyzeStmt(s1, el.value) else s1
    case While(c, body) => AnalyzeStmt(AnalyzeExpr(st, c).0, body)
    case For(init, test, update, body) =>
      var s1 := if init.Some? then AnalyzeStmt(st, init.value) else st;
      var s2 := if test.Some? then AnalyzeExpr(s1, test.value).0 else s1;
      var s3 := if update.Some? then AnalyzeExpr(s2, update.value).0 else s2;
      AnalyzeStmt(s3, body)
    case ExprStmt(x) => AnalyzeExpr(st, x).0
    case Block(ss) => AnalyzeStmts(st, ss)
  }

  function AnalyzeStmts(st: AState, ss: seq<Stmt>): AState
    decreases ss
  {
    if ss == [] then st else AnalyzeStmts(AnalyzeStmt(st, ss[0]), ss[1..])
  }

  /** `visitVariableDecl`: resolve the annotation, report a name already in the flat
      variable map (and overwrite it anyway), then check the initializer. */
  function AnalyzeVarDecl(st: AState, s: Stmt): AState
    requires s.VarDecl?
  {
    var (declared, tds) := TypeFromCtx(s.declType, st.interfaces);
    var s1 := AddErrs(st, tds);
    var s2 := if s.name in s1.vars then Err(s1, VarRedeclared(s.name)) else s1;
    var s3 := s2.(vars := s2.vars[s.name := VarSymbol(s.name, declared, s.isConst)]);
    CheckInitializer(s3, s.name, s.isConst, declared, s.initializer)
  }

  /** An initializer must be assignable to the declared type; a `const` must have one. */
  function CheckInitializer(st: AState, name: string, isConst: bool, declared: Type, init: Option<Expr>): AState {
    if init.Some? then
      var (s1, it) := AnalyzeExpr(st, init.value);
      var (s2, ok) := CheckAssignable(s1, Some(declared), it);
      if ok then s2 else Err(s2, InitializerMismatch(declared, it))
    else if isConst then Err(st, ConstWithoutInitializer(name))
    else st
  }

  /** The parameter types, resolved in order, with their diagnostics. */
  function ResolveParams(ps: seq<Param>, interfaces: map<string, Type>): (r: (seq<Type>, seq<Diag>))
    ensures |r.0| == |ps|
  {
    if ps == [] then ([], [])
    else
      var (ts, ds) := ResolveParams(ps[..|ps| - 1], interfaces);
      var (t, d) := TypeFromCtx(ps[|ps| - 1].ty, interfaces);
      (ts + [t], ds + d)
  }

  /** Each parameter bound in the variable map, in order (a later one overwrites). */
  function BindParams(vars: map<string, VarSymbol>, ps: seq<Param>, ts: seq<Type>): map<string, VarSymbol>
    requires |ps| == |ts|
  {
    if ps == [] then vars
    else
      var n := |ps| - 1;
      BindParams(vars, ps[..n], ts[..n])[ps[n].name := VarSymbol(ps[n].name, ts[n], false)]
  }

  /** A non-void primitive return type requires a `return` somewhere in the body. */
  predicate NeedsReturn(rt: Type) {
    rt.Primitive? && rt.name != "void"
  }

  /** `visitFunctionDecl`: register the function, analyze the body with the parameters
      bound and a fresh context, then restore the variable map and the context and report
      a missing `return`. */
  function AnalyzeFunction(st: AState, s: Stmt): AState
    requires s.FunctionDecl?
    decreases s, 0
  {
    var (pts, pds) := ResolveParams(s.params, st.interfaces);
    var (rt, rds) := TypeFromCtx(s.returnType, st.interfaces);
    var s1 := AddErrs(AddErrs(st, pds), rds);
    var s2 := if s.name in s1.funcs then Err(s1, FunctionRedeclared(s.name)) else s1;
    var s3 := s2.(funcs := s2.funcs[s.name := FuncSymbol(s.name, pts, rt)],
                  callGraph := SetDefault(s2.callGraph, s.name));
    var inner := s3.(currentFunction := Some(s.name), expectedReturn := Some(rt), returnSeen := false,
                     vars := BindParams(s3.vars, s.params, pts));
    var s4 := AnalyzeStmts(inner, s.block);
    var s5 := s4.(vars := s3.vars, currentFunction := s3.currentFunction, expectedReturn := s3.expectedReturn);
    var s6 := if NeedsReturn(rt) && !s4.returnSeen then Err(s5, MissingReturn(s.name, rt)) else s5;
    s6.(returnSeen := s3.returnSeen)
  }

  /** The declared properties, resolved in order into an insertion-ordered dictionary. */
  function ResolveProps(ps: seq<PropDecl>, interfaces: map<string, Type>): (seq<Field>, seq<Diag>) {
    if ps == [] then ([], [])
    else
      var (fs, ds) := ResolveProps(ps[..|ps| - 1], interfaces);
      var (t, d) := TypeFromCtx(ps[|ps| - 1].ty, interfaces);
      (SetField(fs, ps[|ps| - 1].name, Some(t)), ds + d)
  }

  /** `visitInterfaceDecl`: a second declaration of a name is reported and ignored. */
  function AnalyzeInterface(st: AState, s: Stmt): AState
    requires s.InterfaceDecl?
  {
    if s.name in st.interfaces then Err(st, InterfaceRedeclared(s.name))
    else
      var (props, ds) := ResolveProps(s.props, st.interfaces);
      AddErrs(st, ds).(interfaces := st.interfaces[s.name := Interface(s.name, props)])
  }

  /** `visitReturnStmt`: marks a return as seen; in a void function a value is reported
      (and not analyzed); elsewhere a bare return is reported and a value must be
      assignable to the expected type, when there is one. */
  function AnalyzeReturn(st: AState, s: Stmt): AState
    requires s.Return?
    decreases s, 0
  {
    var s1 := st.(returnSeen := true);
    if s1.expectedReturn == Some(Void) then
      if s.value.Some? then Err(s1, VoidReturnsValue) else s1
    else if s.value.None? then Err(s1, ReturnWithoutValue(s1.currentFunction, s1.expectedReturn))
    else
      var (s2, t) := AnalyzeExpr(s1, s.value.value);
      if s2.expectedReturn.Some? then
        var (s3, ok) := CheckAssignable(s2, s2.expectedReturn, t);
        if ok then s3 else Err(s3, ReturnMismatch(s2.expectedReturn.value, t))
      else s2
  }

  /** `analyze`: the diagnostics of a whole program, from the initial state. */
  function Analyze(program: seq<Stmt>): seq<Diag> {
    AnalyzeStmts(Initial(), program).errors
  }
}
