/** The analyzer on concrete programs, and on array literals of literals. */
module SemanticScenarios {
  import opened Wrappers
  import opened Types
  import opened Ast
  import opened Diagnostics
  import opened Resolution
  import opened Assignability
  import opened Semantic
  import opened SemanticProps

  function LitText(l: Literal): string {
    match l
    case NumberLit(t) => t
    case StringLit(t) => t
    case BooleanLit(b) => if b then "true" else "false"
  }

  /** A literal used as an expression. */
  function LitExpr(l: Literal): Expr {
    Postfix(Lit(l), [], LitText(l))
  }

  lemma LitExprType(st: AState, l: Literal)
    ensures AnalyzeExpr(st, LitExpr(l)) == (st, Some(LiteralType(l)))
  {
    var e := LitExpr(l);
    assert AnalyzePrimary(st, Lit(l)) == (st, Some(LiteralType(l)));
    assert AnalyzeOps(st, e, None, 0, Some(LiteralType(l))) == (st, Some(LiteralType(l)));
    assert AnalyzePostfix(st, e) == AnalyzeOps(st, e, None, 0, Some(LiteralType(l)));
  }

  function LitExprs(ls: seq<Literal>): (es: seq<Expr>)
    ensures |es| == |ls| && forall i :: 0 <= i < |ls| ==> es[i] == LitExpr(ls[i])
  {
    if ls == [] then [] else [LitExpr(ls[0])] + LitExprs(ls[1..])
  }

  /** One heterogeneity report per literal whose type differs from `first`, in order. */
  function Mismatches(first: Type, ls: seq<Literal>): seq<Diag> {
    if ls == [] then []
    else
      (if LiteralType(ls[0]) == first then [] else [HeterogeneousArray(Some(first), Some(LiteralType(ls[0])))]) +
      Mismatches(first, ls[1..])
  }

  /** One element of an array literal of literals. */
  lemma ArrayRestLitStep(st: AState, ls: seq<Literal>, i: nat)
    requires 1 <= i < |ls|
    ensures var first := LiteralType(ls[0]);
      var t := LiteralType(ls[i]);
      var s2 := if t == first then st else Err(st, HeterogeneousArray(Some(first), Some(t)));
      AnalyzeArrayRest(st, ArrayLit(LitExprs(ls)), i, Some(first)) ==
        AnalyzeArrayRest(s2, ArrayLit(LitExprs(ls)), i + 1, Some(first))
  {
    var p := ArrayLit(LitExprs(ls));
    assert p.elems[i] == LitExpr(ls[i]);
    LitExprType(st, ls[i]);
    assert TypesEqual(Some(LiteralType(ls[0])), Some(LiteralType(ls[i]))) <==> LiteralType(ls[i]) == LiteralType(ls[0]);
  }

  lemma MismatchesCons(first: Type, ls: seq<Literal>, i: nat)
    requires i < |ls|
    ensures Mismatches(first, ls[i..]) ==
      (if LiteralType(ls[i]) == first then [] else [HeterogeneousArray(Some(first), Some(LiteralType(ls[i])))]) +
      Mismatches(first, ls[i + 1..])
  {
    assert ls[i..][0] == ls[i] && ls[i..][1..] == ls[i + 1..];
  }

  lemma AppendErrors(st: AState, h: seq<Diag>, m: seq<Diag>)
    ensures var s2 := st.(errors := st.errors + h);
      s2.(errors := s2.errors + m) == st.(errors := st.errors + (h + m))
  {
    assert st.errors + h + m == st.errors + (h + m);
  }

  /** The elements before the `i`-th of an array literal of literals, given the result
      from the next element on. */
  lemma ArrayRestLitCons(st: AState, p: Primary, ls: seq<Literal>, i: nat)
    requires p == ArrayLit(LitExprs(ls))
    requires 1 <= i < |ls|
    requires var first := LiteralType(ls[0]);
      var t := LiteralType(ls[i]);
      var s2 := st.(errors := st.errors + (if t == first then [] else [HeterogeneousArray(Some(first), Some(t))]));
      AnalyzeArrayRest(s2, p, i + 1, Some(first)) == s2.(errors := s2.errors + Mismatches(first, ls[i + 1..]))
    ensures AnalyzeArrayRest(st, p, i, Some(LiteralType(ls[0]))) ==
        st.(errors := st.errors + Mismatches(LiteralType(ls[0]), ls[i..]))
  {
    var first := LiteralType(ls[0]);
    var t := LiteralType(ls[i]);
    var h := if t == first then [] else [HeterogeneousArray(Some(first), Some(t))];
    assert st.(errors := st.errors + h) == if t == first then st else Err(st, HeterogeneousArray(Some(first), Some(t)));
    ArrayRestLitStep(st, ls, i);
    MismatchesCons(first, ls, i);
    AppendErrors(st, h, Mismatches(first, ls[i + 1..]));
  }

  lemma {:induction false} ArrayRestOfLiterals(st: AState, p: Primary, ls: seq<Literal>, i: nat)
    requires p == ArrayLit(LitExprs(ls))
    requires 1 <= i <= |ls|
    ensures AnalyzeArrayRest(st, p, i, Some(LiteralType(ls[0]))) ==
        st.(errors := st.errors + Mismatches(LiteralType(ls[0]), ls[i..]))
    decreases |ls| - i
  {
    if i < |ls| {
      var first := LiteralType(ls[0]);
      var t := LiteralType(ls[i]);
      ArrayRestOfLiterals(st.(errors := st.errors + (if t == first then [] else [HeterogeneousArray(Some(first), Some(t))])), p, ls, i + 1);
      ArrayRestLitCons(st, p, ls, i);
    } else {
      assert ls[i..] == [];
    }
  }

  /** An array literal of literals has the first element's type as element type and one
      heterogeneity report per later element of another type; an empty one is `unknown[]`. */
  lemma ArrayOfLiterals(st: AState, ls: seq<Literal>)
    ensures |ls| == 0 ==> AnalyzePrimary(st, ArrayLit(LitExprs(ls))) == (st, Some(Array(Some(Unknown))))
    ensures |ls| > 0 ==>
      AnalyzePrimary(st, ArrayLit(LitExprs(ls))) ==
        (st.(errors := st.errors + Mismatches(LiteralType(ls[0]), ls[1..])), Some(Array(Some(LiteralType(ls[0])))))
  {
    if |ls| > 0 {
      var p := ArrayLit(LitExprs(ls));
      LitExprType(st, ls[0]);
      assert AnalyzeExpr(st, p.elems[0]) == (st, Some(LiteralType(ls[0])));
      ArrayRestOfLiterals(st, p, ls, 1);
      assert AnalyzePrimary(st, p) ==
        (AnalyzeArrayRest(st, p, 1, Some(LiteralType(ls[0]))), Some(Array(Some(LiteralType(ls[0])))));
    }
  }

  // ---------------------------------------------------------------------------
  // Programs
  // ---------------------------------------------------------------------------

  function Num(tok: string): Expr { LitExpr(NumberLit(tok)) }
  function Str(tok: string): Expr { LitExpr(StringLit(tok)) }
  function Var(x: string): Expr { Postfix(Ident(x), [], x) }
  const NumberAnn := TypeExpr(NumberKw, 0)

  lemma StmtsOne(st: AState, s: Stmt)
    ensures AnalyzeStmts(st, [s]) == AnalyzeStmt(st, s)
  {
    assert AnalyzeStmts(st, [s]) == AnalyzeStmts(AnalyzeStmt(st, s), []);
  }

  lemma StmtsTwo(st: AState, a: Stmt, b: Stmt)
    ensures AnalyzeStmts(st, [a, b]) == AnalyzeStmt(AnalyzeStmt(st, a), b)
  {
    assert [a, b][1..] == [b];
    assert AnalyzeStmts(st, [a, b]) == AnalyzeStmts(AnalyzeStmt(st, a), [b]);
    StmtsOne(AnalyzeStmt(st, a), b);
  }

  lemma VarEval(st: AState, x: string)
    requires x in st.vars
    ensures AnalyzeExpr(st, Var(x)) == (st, Some(st.vars[x].ty))
  {
    var e := Var(x);
    assert AnalyzePrimary(st, Ident(x)) == (st, Some(st.vars[x].ty));
    assert AnalyzePostfix(st, e) == AnalyzeOps(st, e, Some(x), 0, Some(st.vars[x].ty));
  }

  /** `const x: number;` reports exactly the missing initializer. */
  lemma ConstWithoutInitializerProgram()
    ensures Analyze([VarDecl(true, "x", NumberAnn, None)]) == [ConstWithoutInitializer("x")]
  {
    var s := VarDecl(true, "x", NumberAnn, None);
    StmtsOne(Initial(), s);
    DeclaredParts(Initial(), s);
    InitializerStep(Declared(Initial(), s), "x", true, Number, None);
  }

  /** `let a: number[] = [1, "x", 3];` reports one heterogeneous element, of type string
      against number, and nothing else. */
  lemma HeterogeneousArrayProgram()
    ensures Analyze([VarDecl(false, "a", TypeExpr(NumberKw, 1),
                             Some(Postfix(ArrayLit(LitExprs([NumberLit("1"), StringLit("\"x\""), NumberLit("3")])), [], "[1,\"x\",3]")))])
            == [HeterogeneousArray(Some(Number), Some(String))]
  {
    var ls := [NumberLit("1"), StringLit("\"x\""), NumberLit("3")];
    var p := ArrayLit(LitExprs(ls));
    var e := Postfix(p, [], "[1,\"x\",3]");
    var s := VarDecl(false, "a", TypeExpr(NumberKw, 1), Some(e));
    StmtsOne(Initial(), s);
    DeclaredParts(Initial(), s);
    var s3 := Declared(Initial(), s);
    assert s3.errors == [];
    ArrayOfLiterals(s3, ls);
    assert ls[1..] == [StringLit("\"x\""), NumberLit("3")];
    assert Mismatches(Number, ls[1..]) == [HeterogeneousArray(Some(Number), Some(String))];
    var s4 := s3.(errors := [HeterogeneousArray(Some(Number), Some(String))]);
    assert LiteralType(ls[0]) == Number;
    assert s3.(errors := s3.errors + Mismatches(Number, ls[1..])) == s4;
    assert AnalyzePrimary(s3, p) == (s4, Some(Array(Some(Number))));
    assert AnalyzeExpr(s3, e) == AnalyzeOps(s4, e, None, 0, Some(Array(Some(Number))));
    assert Assignability.Assign(Some(Array(Some(Number))), Some(Array(Some(Number)))) == (true, []);
  }


  /** A call without arguments of a function name that no variable shadows. */
  lemma CallEval(st: AState, f: string, text: string)
    requires f !in st.vars && f in st.funcs
    ensures AnalyzeExpr(st, Postfix(Ident(f), [Call([])], text)) == (RecordCall(st, f), Some(st.funcs[f].returnType))
  {
    var e := Postfix(Ident(f), [Call([])], text);
    var rt := Some(st.funcs[f].returnType);
    assert AnalyzePrimary(st, Ident(f)) == (st, rt);
    assert AnalyzeCall(st, f, []) == RecordCall(st, f);
    assert AnalyzeOps(st, e, Some(f), 0, rt) == AnalyzeOps(RecordCall(st, f), e, Some(f), 1, rt);
    assert AnalyzePostfix(st, e) == AnalyzeOps(st, e, Some(f), 0, rt);
  }

  /** `read()` yields `unknown`: accepted into a number, rejected for a boolean. */
  lemma ReadProgram()
    ensures Analyze([VarDecl(false, "n", NumberAnn, Some(Postfix(Ident("read"), [Call([])], "read()")))]) == []
    ensures Analyze([VarDecl(false, "b", TypeExpr(BooleanKw, 0), Some(Postfix(Ident("read"), [Call([])], "read()")))])
            == [InitializerMismatch(Boolean, Some(Unknown))]
  {
    var e := Postfix(Ident("read"), [Call([])], "read()");
    var sn := VarDecl(false, "n", NumberAnn, Some(e));
    StmtsOne(Initial(), sn);
    DeclaredParts(Initial(), sn);
    CallEval(Declared(Initial(), sn), "read", "read()");
    var sb := VarDecl(false, "b", TypeExpr(BooleanKw, 0), Some(e));
    StmtsOne(Initial(), sb);
    DeclaredParts(Initial(), sb);
    CallEval(Declared(Initial(), sb), "read", "read()");
  }

  /** Variables live in one flat map: a variable declared inside a block is still known
      after it, so `if (true) { let y: number = 1; } let z: number = y;` is accepted. */
  lemma NoBlockScope()
    ensures Analyze([
      If(LitExpr(BooleanLit(true)), Block([VarDecl(false, "y", NumberAnn, Some(Num("1")))]), None),
      VarDecl(false, "z", NumberAnn, Some(Var("y")))]) == []
  {
    var dy := VarDecl(false, "y", NumberAnn, Some(Num("1")));
    var a := If(LitExpr(BooleanLit(true)), Block([dy]), None);
    var b := VarDecl(false, "z", NumberAnn, Some(Var("y")));
    StmtsTwo(Initial(), a, b);
    LitExprType(Initial(), BooleanLit(true));
    StmtsOne(Initial(), dy);
    DeclaredParts(Initial(), dy);
    LitExprType(Declared(Initial(), dy), NumberLit("1"));
    var s1 := AnalyzeStmt(Initial(), a);
    assert s1 == AnalyzeVarDecl(Initial(), dy);
    assert s1.errors == [] && "y" in s1.vars && s1.vars["y"].ty == Number;
    DeclaredParts(s1, b);
    VarEval(Declared(s1, b), "y");
  }

  /** Reassigning a const is reported even when the types agree. */
  lemma ConstReassignmentProgram()
    ensures Analyze([VarDecl(true, "x", NumberAnn, Some(Num("1"))),
                     ExprStmt(Assign(Var("x"), Num("2"), "x=2"))]) == [ConstReassignment("x")]
  {
    var a := VarDecl(true, "x", NumberAnn, Some(Num("1")));
    var asg := Assign(Var("x"), Num("2"), "x=2");
    StmtsTwo(Initial(), a, ExprStmt(asg));
    DeclaredParts(Initial(), a);
    LitExprType(Declared(Initial(), a), NumberLit("1"));
    var s1 := AnalyzeStmt(Initial(), a);
    assert s1.errors == [] && s1.vars["x"] == VarSymbol("x", Number, true);
    VarEval(s1, "x");
    var s2 := Err(s1, ConstReassignment("x"));
    LitExprType(s2, NumberLit("2"));
    assert AnalyzeAssign(s1, asg).0 == AssignValue(s2, Some(Number), Num("2"));
  }

  /** A new function without parameters whose return annotation resolves cleanly. */
  lemma NoParamFunction(st: AState, f: Stmt, rt: Type)
    requires f.FunctionDecl? && f.params == [] && f.name !in st.funcs
    requires TypeFromCtx(f.returnType, st.interfaces) == (rt, [])
    ensures Registered(st, f) ==
      st.(funcs := st.funcs[f.name := FuncSymbol(f.name, [], rt)], callGraph := SetDefault(st.callGraph, f.name))
    ensures Entered(st, f) ==
      Registered(st, f).(currentFunction := Some(f.name), expectedReturn := Some(rt), returnSeen := false)
    ensures AnalyzeStmts(st, [f]) == Left(Registered(st, f), AnalyzeStmts(Entered(st, f), f.block), f.name, rt)
  {
    assert ResolveParams([], st.interfaces) == ([], []);
    assert BindParams(st.vars, [], []) == st.vars;
    StmtsOne(st, f);
    FunctionParts(st, f);
  }

  /** `function f(): number {}` lacks a return; `return 1;` removes the report. */
  lemma MissingReturnProgram()
    ensures Analyze([FunctionDecl("f", [], NumberAnn, [])]) == [MissingReturn("f", Number)]
    ensures Analyze([FunctionDecl("f", [], NumberAnn, [Return(Some(Num("1")))])]) == []
  {
    var f0 := FunctionDecl("f", [], NumberAnn, []);
    NoParamFunction(Initial(), f0, Number);
    var inner0 := Entered(Initial(), f0);
    LeftErrors(Registered(Initial(), f0), inner0, "f", Number);
    var ret := Return(Some(Num("1")));
    var f1 := FunctionDecl("f", [], NumberAnn, [ret]);
    NoParamFunction(Initial(), f1, Number);
    var inner := Entered(Initial(), f1);
    StmtsOne(inner, ret);
    LitExprType(inner.(returnSeen := true), NumberLit("1"));
    assert AnalyzeStmts(inner, [ret]) == inner.(returnSeen := true);
    LeftErrors(Registered(Initial(), f1), inner.(returnSeen := true), "f", Number);
  }

  /** A void function returning a value is reported. */
  lemma VoidReturnProgram()
    ensures Analyze([FunctionDecl("f", [], TypeExpr(NamedType("void"), 0), [Return(Some(Num("1")))])])
            == [VoidReturnsValue]
  {
    var ret := Return(Some(Num("1")));
    var f := FunctionDecl("f", [], TypeExpr(NamedType("void"), 0), [ret]);
    NoParamFunction(Initial(), f, Void);
    var inner := Entered(Initial(), f);
    StmtsOne(inner, ret);
    assert AnalyzeStmts(inner, [ret]) == Err(inner.(returnSeen := true), VoidReturnsValue);
    LeftErrors(Registered(Initial(), f), Err(inner.(returnSeen := true), VoidReturnsValue), "f", Void);
  }

  /** A direct self-call is recorded in the call graph and reported nowhere. */
  lemma SelfCallProgram()
    ensures var st := AnalyzeStmts(Initial(), [FunctionDecl("f", [], NumberAnn,
                        [Return(Some(Postfix(Ident("f"), [Call([])], "f()")))])]);
      st.errors == [] && st.callGraph == map["f" := {"f"}]
  {
    var call := Postfix(Ident("f"), [Call([])], "f()");
    var ret := Return(Some(call));
    var f := FunctionDecl("f", [], NumberAnn, [ret]);
    NoParamFunction(Initial(), f, Number);
    var inner := Entered(Initial(), f);
    assert inner.callGraph == map["f" := {}];
    StmtsOne(inner, ret);
    var s1 := inner.(returnSeen := true);
    CallEval(s1, "f", "f()");
    assert {} + {"f"} == {"f"};
    assert map["f" := {}]["f" := {"f"}] == map["f" := {"f"}];
    assert RecordCall(s1, "f") == s1.(callGraph := map["f" := {"f"}]);
    assert AnalyzeStmts(inner, [ret]) == s1.(callGraph := map["f" := {"f"}]);
    LeftErrors(Registered(Initial(), f), s1.(callGraph := map["f" := {"f"}]), "f", Number);
  }

  const PInterface := Interface("P", [Field("name", Some(String))])
  const PDecl := InterfaceDecl("P", [PropDecl("name", TypeExpr(StringKw, 0))])
  const PName := Postfix(Ident("p"), [Member("name")], "p.name")

  /** Declaring `interface P { name: string }` registers it and reports nothing. */
  lemma InterfacePDecl()
    ensures AnalyzeStmt(Initial(), PDecl) == Initial().(interfaces := map["P" := PInterface])
  {
    var props := PDecl.props;
    assert props[..0] == [];
    assert SetField([], "name", Some(String)) == [Field("name", Some(String))];
    assert ResolveProps(props[..0], map[]) == ([], []);
    assert TypeFromCtx(TypeExpr(StringKw, 0), map[]) == (String, []);
    assert props[|props| - 1] == PropDecl("name", TypeExpr(StringKw, 0));
    assert ResolveProps(props, map[]) ==
      (SetField([], "name", Some(String)), ResolveProps(props[..0], map[]).1 + TypeFromCtx(TypeExpr(StringKw, 0), map[]).1);
    var rp := ResolveProps(props, map[]);
    assert rp.0 == [Field("name", Some(String))];
    assert rp.1 == [];
  }

  /** `return p.name;` with `p: P` in a function returning a string reports nothing. */
  lemma ReturnPName(inner: AState)
    requires inner.vars == map["p" := VarSymbol("p", PInterface, false)]
    requires inner.expectedReturn == Some(String)
    ensures AnalyzeStmts(inner, [Return(Some(PName))]) == inner.(returnSeen := true)
  {
    var ret := Return(Some(PName));
    StmtsOne(inner, ret);
    var s2 := inner.(returnSeen := true);
    assert AnalyzePrimary(s2, Ident("p")) == (s2, Some(PInterface));
    assert HasField(PInterface.props, "name") && FieldType(PInterface.props, "name") == Some(String);
    assert AnalyzeOps(s2, PName, Some("p"), 0, Some(PInterface)) == AnalyzeOps(s2, PName, Some("p"), 1, Some(String));
    assert AnalyzeExpr(s2, PName) == (s2, Some(String));
  }

  /** A function returning a field of an interface parameter is accepted. */
  lemma InterfaceParameterProgram()
    ensures Analyze([PDecl,
      FunctionDecl("f", [Param("p", TypeExpr(NamedType("P"), 0))], TypeExpr(StringKw, 0),
        [Return(Some(PName))])]) == []
  {
    var params := [Param("p", TypeExpr(NamedType("P"), 0))];
    var f := FunctionDecl("f", params, TypeExpr(StringKw, 0), [Return(Some(PName))]);
    StmtsTwo(Initial(), PDecl, f);
    InterfacePDecl();
    var s1 := Initial().(interfaces := map["P" := PInterface]);
    assert params[..0] == [];
    assert ResolveParams(params, s1.interfaces) == ([PInterface], []);
    assert BindParams(map[], params, [PInterface]) == map["p" := VarSymbol("p", PInterface, false)];
    var s3 := Registered(s1, f);
    assert s3 == s1.(funcs := Builtins()["f" := FuncSymbol("f", [PInterface], String)], callGraph := map["f" := {}]);
    var inner := Entered(s1, f);
    assert inner == s3.(currentFunction := Some("f"), expectedReturn := Some(String), returnSeen := false,
                        vars := map["p" := VarSymbol("p", PInterface, false)]);
    FunctionParts(s1, f);
    ReturnPName(inner);
    LeftErrors(s3, inner.(returnSeen := true), "f", String);
  }
}
