/** The Jasmin generator as the object the source builds: it appends lines to `code`, bumps
    `labelCounter` and allocates slots in `localVarIndex` / `localVars` as it walks the
    tree. Every visitor is proved to leave the state the `Jasmin` functions describe. */
module Generator {
  import opened Wrappers
  import opened Strings
  import opened Types
  import opened Ast
  import Semantic
  import opened Jasmin

  class JasminGenerator {
    const className: string
    /** The global variables (name and type, in declaration order). */
    const globals: seq<Global>
    /** The analyzer's function table. */
    const funcs: map<string, Semantic.FuncSymbol>

    var code: seq<string>
    var labelCounter: nat
    var localVarIndex: nat
    var localVars: map<string, nat>

    function Context(): Ctx {
      Ctx(className, globals, funcs)
    }

    function State(): GState
      reads this
    {
      GState(code, labelCounter, localVarIndex, localVars)
    }

    constructor(className: string, globals: seq<Global>, funcs: map<string, Semantic.FuncSymbol>)
      ensures Context() == Ctx(className, globals, funcs) && State() == Start()
    {
      this.className := className;
      this.globals := globals;
      this.funcs := funcs;
      code := [];
      labelCounter := 0;
      localVarIndex := 0;
      localVars := map[];
    }

    method Emit(ins: string)
      modifies this
      ensures State() == Jasmin.Emit(old(State()), ins)
    {
      code := code + [Indent(ins)];
    }

    method EmitAll(ins: seq<string>)
      modifies this
      ensures State() == Jasmin.EmitAll(old(State()), ins)
    {
      code := code + Indented(ins);
    }

    method EmitLabel(name: string)
      modifies this
      ensures State() == Jasmin.EmitLabel(old(State()), name)
    {
      code := code + [name + ":"];
    }

    method GetNewLabel() returns (name: string)
      modifies this
      ensures (State(), name) == NewLabel(old(State()))
    {
      labelCounter := labelCounter + 1;
      name := "L" + NatToString(labelCounter);
    }

    // -------------------------------------------------------------------------
    // Expressions
    // -------------------------------------------------------------------------

    method VisitExpr(e: Expr)
      modifies this
      ensures State() == GenExpr(Context(), old(State()), e)
      decreases e, 3
    {
      match e
      case Assign(_, _, _) => VisitAssignment(e);
      case Binary(_, _, _, _) => VisitBinary(e);
      case Unary(_, operand, _) => VisitExpr(operand);
      case Postfix(_, _, _) => VisitPostfix(e);
    }

    method VisitAssignment(e: Expr)
      requires e.Assign?
      modifies this
      ensures State() == GenAssign(Context(), old(State()), e)
      decreases e, 2
    {
      VisitExpr(e.value);
      var name := e.target.text;
      if name in localVars {
        EmitAll(["dup", "istore " + NatToString(localVars[name])]);
      } else {
        var gt := FindGlobal(globals, name);
        if gt.Some? {
          EmitAll(["dup", "putstatic " + StaticRef(Context(), name, gt.value)]);
        }
      }
    }

    /** `visitAdditiveExpr`, `visitMultiplicativeExpr`, the generic walk of the logical
        levels, and the comparison visitors. */
    method VisitBinary(e: Expr)
      requires e.Binary?
      modifies this
      ensures State() == GenBinary(Context(), old(State()), e)
      decreases e, 2
    {
      if IsComparison(e.level) && |e.rest| > 0 {
        VisitComparison(e);
        return;
      }
      VisitExpr(e.first);
      ghost var goal := GenChain(Context(), State(), e, 0);
      var i := 0;
      while i < |e.rest|
        invariant 0 <= i <= |e.rest|
        invariant GenChain(Context(), State(), e, i) == goal
      {
        VisitExpr(e.rest[i].arg);
        var op := ArithOpcode(e.level, e.rest[i].op);
        if op.Some? {
          Emit(op.value);
        }
        i := i + 1;
      }
    }

    method VisitComparison(e: Expr)
      requires e.Binary? && |e.rest| > 0
      modifies this
      ensures State() == GenCompare(Context(), old(State()), e)
      decreases e, 1
    {
      VisitExpr(e.first);
      VisitExpr(e.rest[0].arg);
      var trueLabel := GetNewLabel();
      var endLabel := GetNewLabel();
      var jump := CompareJump(e.level, e.rest[0].op);
      if jump.Some? {
        Emit(jump.value + " " + trueLabel);
      }
      EmitAll(["iconst_0", "goto " + endLabel]);
      EmitLabel(trueLabel);
      Emit("iconst_1");
      EmitLabel(endLabel);
    }

    /** `visitPostfixExpr`: the primary, then the suffix loop. */
    method VisitPostfix(e: Expr)
      requires e.Postfix?
      modifies this
      ensures State() == GenPostfix(Context(), old(State()), e)
      decreases e, 2
    {
      VisitPrimary(e.primary);
      ghost var goal := GenOps(Context(), State(), e, 0);
      var i := 0;
      while i < |e.ops|
        invariant 0 <= i <= |e.ops|
        invariant GenOps(Context(), State(), e, i) == goal
        decreases |e.ops| - i
      {
        match e.ops[i] {
          case Index(x) =>
            VisitExpr(x);
            EmitAll(ListGet);
            i := i + 1;
          case Member(m) =>
            if i + 1 < |e.ops| && e.ops[i + 1].Call? && m in {"push", "pop", "size"} {
              var args := e.ops[i + 1].args;
              if m == "push" {
                if |args| >= 1 {
                  VisitExpr(args[0]);
                  EmitAll(ListAdd);
                }
              } else if m == "pop" {
                EmitAll(ListPop);
              } else {
                Emit(ListSize);
              }
              i := i + 2;
            } else {
              i := i + 1;
            }
          case Call(args) =>
            if e.primary.Ident? {
              VisitCall(e.primary.name, args);
            }
            i := i + 1;
        }
      }
    }

    /** A call suffix on the name `f`: the intrinsics, then a function of the table. */
    method VisitCall(f: string, args: seq<Expr>)
      modifies this
      ensures State() == GenCall(Context(), old(State()), f, args)
      decreases args, 2
    {
      if f == "print" {
        VisitPrint(args);
      } else if f == "array" {
        EmitAll(ListInit);
      } else if f == "read" {
        EmitAll(ReadInt);
      } else if f == "push" {
        if |args| >= 2 {
          VisitExpr(args[0]);
          VisitExpr(args[1]);
          EmitAll(ListAdd);
        }
      } else if f == "pop" {
        if |args| >= 1 {
          VisitExpr(args[0]);
          EmitAll(ListPop);
        }
      } else if f == "size" {
        if |args| >= 1 {
          VisitExpr(args[0]);
          Emit(ListSize);
        }
      } else if f in funcs {
        ghost var goal := GenArgs(Context(), State(), args, 0);
        for k := 0 to |args|
          invariant GenArgs(Context(), State(), args, k) == goal
        {
          VisitExpr(args[k]);
        }
        Emit("invokestatic " + className + "/" + f + MethodDescriptor(funcs[f]));
      }
    }

    method VisitPrint(args: seq<Expr>)
      modifies this
      ensures State() == GenPrint(Context(), old(State()), args)
      decreases args, 1
    {
      Emit(GetOut);
      if |args| == 0 {
        Emit(PrintlnEmpty);
      } else if |args| == 1 {
        VisitExpr(args[0]);
        Emit(if Quoted(args[0].text) then PrintlnString else PrintlnInt);
      } else {
        EmitAll(BuilderInit);
        ghost var goal := GenPrintArgs(Context(), State(), args, 0);
        for k := 0 to |args|
          invariant GenPrintArgs(Context(), State(), args, k) == goal
        {
          if k > 0 {
            EmitAll([Separator, AppendString]);
          }
          VisitExpr(args[k]);
          Emit(if Quoted(args[k].text) then AppendString else AppendInt);
        }
        EmitAll(BuilderDone);
      }
    }

    /** `visitPrimary` with `visitLiteral`. */
    method VisitPrimary(p: Primary)
      modifies this
      ensures State() == GenPrimary(Context(), old(State()), p)
      decreases p, 1
    {
      match p {
        case Lit(l) => Emit(LiteralInstr(l));
        case ArrayLit(_) => EmitAll(ListInit);
        case Ident(x) =>
          if x in localVars {
            Emit("iload " + NatToString(localVars[x]));
          } else {
            var gt := FindGlobal(globals, x);
            if gt.Some? {
              Emit("getstatic " + StaticRef(Context(), x, gt.value));
            }
          }
        case Paren(inner) => VisitExpr(inner);
        case ObjectLit(_) =>
      }
    }

    // -------------------------------------------------------------------------
    // Statements
    // -------------------------------------------------------------------------

    method VisitStmt(s: Stmt)
      modifies this
      ensures State() == GenStmt(Context(), old(State()), s)
      decreases s, 1
    {
      match s
      case VarDecl(_, _, _, _) => VisitVarDecl(s);
      case FunctionDecl(_, _, _, _) => VisitFunctionDecl(s);
      case InterfaceDecl(_, _) =>
      case Return(_) => VisitReturnStmt(s);
      case If(_, _, _) => VisitIf(s);
      case While(_, _) => VisitWhile(s);
      case For(_, _, _, _) => VisitFor(s);
      case ExprStmt(x) => VisitExpressionStmt(x);
      case Block(ss) => VisitBlock(ss);
    }

    method VisitBlock(ss: seq<Stmt>)
      modifies this
      ensures State() == GenStmts(Context(), old(State()), ss)
      decreases ss
    {
      for i := 0 to |ss|
        invariant GenStmts(Context(), State(), ss[i..]) == GenStmts(Context(), old(State()), ss)
      {
        assert ss[i..][1..] == ss[i + 1..];
        VisitStmt(ss[i]);
      }
    }

    /** `_visitVarDecl_common`. */
    method VisitVarDecl(s: Stmt)
      requires s.VarDecl?
      modifies this
      ensures State() == GenVarDecl(Context(), old(State()), s)
      decreases s, 0
    {
      if s.initializer.Some? {
        var init := s.initializer.value;
        VisitExpr(init);
        var store := StoreOp(init.text);
        if s.name in localVars {
          Emit(store + NatToString(localVars[s.name]));
        } else {
          var gt := FindGlobal(globals, s.name);
          if gt.Some? {
            Emit("putstatic " + StaticRef(Context(), s.name, gt.value));
          } else {
            var idx := localVarIndex;
            localVars := localVars[s.name := idx];
            localVarIndex := localVarIndex + 1;
            Emit(store + NatToString(idx));
          }
        }
      }
    }

    method VisitExpressionStmt(x: Expr)
      modifies this
      ensures State() == GenExprStmt(Context(), old(State()), x)
      decreases x, 4
    {
      var isVoid := IsVoidCall(x.text);
      VisitExpr(x);
      if !isVoid {
        Emit("pop");
      }
    }

    method VisitReturnStmt(s: Stmt)
      requires s.Return?
      modifies this
      ensures State() == GenStmt(Context(), old(State()), s)
      decreases s, 0
    {
      if s.value.Some? {
        VisitExpr(s.value.value);
        Emit("ireturn");
      } else {
        Emit("return");
      }
    }

    method VisitIf(s: Stmt)
      requires s.If?
      modifies this
      ensures State() == GenIf(Context(), old(State()), s)
      decreases s, 0
    {
      var elseLabel := GetNewLabel();
      var endLabel := GetNewLabel();
      VisitExpr(s.cond);
      Emit("ifeq " + elseLabel);
      VisitStmt(s.thenBranch);
      Emit("goto " + endLabel);
      EmitLabel(elseLabel);
      if s.elseBranch.Some? {
        VisitStmt(s.elseBranch.value);
      }
      EmitLabel(endLabel);
    }

    method VisitWhile(s: Stmt)
      requires s.While?
      modifies this
      ensures State() == GenWhile(Context(), old(State()), s)
      decreases s, 0
    {
      var startLabel := GetNewLabel();
      var endLabel := GetNewLabel();
      EmitLabel(startLabel);
      VisitExpr(s.cond);
      Emit("ifeq " + endLabel);
      VisitStmt(s.body);
      Emit("goto " + startLabel);
      EmitLabel(endLabel);
    }

    method VisitFor(s: Stmt)
      requires s.For?
      modifies this
      ensures State() == GenFor(Context(), old(State()), s)
      decreases s, 0
    {
      var startLabel := GetNewLabel();
      var endLabel := GetNewLabel();
      if s.init.Some? {
        VisitStmt(s.init.value);
      }
      EmitLabel(startLabel);
      if s.test.Some? {
        VisitExpr(s.test.value);
        Emit("ifeq " + endLabel);
      } else if s.update.Some? {
        VisitExpr(s.update.value);
        Emit("ifeq " + endLabel);
      }
      VisitStmt(s.body);
      if s.test.Some? && s.update.Some? {
        VisitExpr(s.update.value);
        Emit("pop");
      }
      Emit("goto " + startLabel);
      EmitLabel(endLabel);
    }

    // -------------------------------------------------------------------------
    // Methods and the class
    // -------------------------------------------------------------------------

    method VisitFunctionDecl(s: Stmt)
      requires s.FunctionDecl?
      modifies this
      ensures State() == GenFunction(Context(), old(State()), s)
      decreases s, 0
    {
      if s.name !in funcs {
        return;
      }
      EnterFunction(s);
      VisitBlock(s.block);
      if JvmType(funcs[s.name].returnType) == "V" {
        Emit("return");
      }
      code := code + [".end method", ""];
    }

    /** The method header, built from the function symbol's types, then the parameters in
        slots 0, 1, ... */
    method EnterFunction(s: Stmt)
      requires s.FunctionDecl? && s.name in funcs
      modifies this
      ensures State() == FunctionEntry(Context(), old(State()), s)
    {
      var sym := funcs[s.name];
      var paramDesc := "";
      for k := 0 to |sym.paramTypes|
        invariant paramDesc == ParamDescriptors(sym.paramTypes[..k])
      {
        assert sym.paramTypes[..k + 1][..k] == sym.paramTypes[..k];
        paramDesc := paramDesc + JvmType(sym.paramTypes[k]);
      }
      assert sym.paramTypes[..|sym.paramTypes|] == sym.paramTypes;
      var returnDesc := JvmType(sym.returnType);
      code := code + MethodHeader(s.name, "(" + paramDesc + ")" + returnDesc);
      localVars := map[];
      localVarIndex := 0;
      ghost var goal := BindSlots(State(), s.params);
      for k := 0 to |s.params|
        invariant BindSlots(State(), s.params[k..]) == goal
      {
        assert s.params[k..][1..] == s.params[k + 1..];
        localVars := localVars[s.params[k].name := localVarIndex];
        localVarIndex := localVarIndex + 1;
      }
    }

    /** `visitProgram`. */
    method VisitProgram(prog: seq<Stmt>)
      modifies this
      ensures State() == GenProgram(Context(), old(State()), prog)
    {
      EmitPrologue();
      VisitFunctions(prog);
      code := code + MainHeader;
      localVars := map[];
      localVarIndex := 1;
      VisitMain(prog);
      Emit("return");
      code := code + [".end method"];
    }

    /** The class header, one static field per global, the static initializer when there
        are globals, and the constructor. */
    method EmitPrologue()
      modifies this
      ensures State() == old(State()).(code := old(code) + Prologue(Context()))
    {
      code := code + ClassHeader(Context());
      EmitFields();
      code := code + ([""] + PrologueTail(Context()));
      assert code == old(code) + Prologue(Context());
    }

    /** One `.field` line per global, in declaration order. */
    method EmitFields()
      modifies this
      ensures State() == old(State()).(code := old(code) + FieldLines(globals))
    {
      ghost var start := code;
      for k := 0 to |globals|
        invariant code == start + FieldLines(globals[..k])
        invariant labelCounter == old(labelCounter) && localVarIndex == old(localVarIndex) && localVars == old(localVars)
      {
        FieldLinesStep(globals, k);
        code := code + [".field public static " + globals[k].name + " " + JvmType(globals[k].ty)];
      }
      assert globals[..|globals|] == globals;
    }

    /** The function declarations among the top-level statements. */
    method VisitFunctions(prog: seq<Stmt>)
      modifies this
      ensures State() == GenFunctions(Context(), old(State()), prog)
    {
      for k := 0 to |prog|
        invariant GenFunctions(Context(), State(), prog[k..]) == GenFunctions(Context(), old(State()), prog)
      {
        assert prog[k..][1..] == prog[k + 1..];
        if prog[k].FunctionDecl? {
          VisitFunctionDecl(prog[k]);
        }
      }
    }

    /** The top-level statements other than function and interface declarations. */
    method VisitMain(prog: seq<Stmt>)
      modifies this
      ensures State() == GenMain(Context(), old(State()), prog)
    {
      for k := 0 to |prog|
        invariant GenMain(Context(), State(), prog[k..]) == GenMain(Context(), old(State()), prog)
      {
        assert prog[k..][1..] == prog[k + 1..];
        if !(prog[k].FunctionDecl? || prog[k].InterfaceDecl?) {
          VisitStmt(prog[k]);
        }
      }
    }
  }

  lemma FieldLinesStep(gs: seq<Global>, k: nat)
    requires k < |gs|
    ensures FieldLines(gs[..k + 1]) == FieldLines(gs[..k]) + [".field public static " + gs[k].name + " " + JvmType(gs[k].ty)]
  {
  }
}
