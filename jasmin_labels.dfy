/** Labels. The counter only grows and is never reset, every label name is `L` followed by
    the counter's decimal value, and every construct that takes labels also emits each of
    their label lines exactly once. So the label lines a generator step appends define
    exactly the labels it took, each once; over a whole class, `L1` ... `Ln` are each
    defined exactly once. */
module JasminLabels {
  import opened Wrappers
  import opened Strings
  import opened Ast
  import opened Jasmin

  /** The label a line defines, when it has the shape `L<digits>:`. */
  function LabelOf(line: string): Option<nat> {
    if |line| >= 2 && line[0] == 'L' && line[|line| - 1] == ':' && AllDigits(line[1..|line| - 1])
    then Some(DigitsValue(line[1..|line| - 1]))
    else None
  }

  function LineDefs(line: string): multiset<nat> {
    var l := LabelOf(line);
    if l.Some? then multiset{l.value} else multiset{}
  }

  /** The labels the lines define, with multiplicity. */
  function LabelDefs(code: seq<string>): multiset<nat> {
    if code == [] then multiset{} else LabelDefs(code[..|code| - 1]) + LineDefs(code[|code| - 1])
  }

  /** The numbers `lo + 1` .. `hi`, once each. */
  function Range(lo: nat, hi: nat): multiset<nat>
    decreases hi
  {
    if hi <= lo then multiset{} else Range(lo, hi - 1) + multiset{hi}
  }

  /** The lines `r` has beyond `g`. */
  function New(g: GState, r: GState): seq<string>
    requires g.code <= r.code
  {
    r.code[|g.code|..]
  }

  /** The step from `g` to `r` defines exactly the labels it took, each once. */
  predicate Fresh(g: GState, r: GState) {
    Grows(g, r) && LabelDefs(New(g, r)) == Range(g.labels, r.labels)
  }

  // ---------------------------------------------------------------------------
  // Lines and ranges
  // ---------------------------------------------------------------------------

  /** A label line names the label it was made from. */
  lemma LabelLineDefines(k: nat)
    ensures LineDefs(LabelName(k) + ":") == multiset{k}
  {
    var line := LabelName(k) + ":";
    assert line[1..|line| - 1] == NatToString(k);
    DigitsValueOfNatToString(k);
  }

  /** Distinct counter values give distinct label names. */
  lemma LabelNamesDistinct(j: nat, k: nat)
    requires j != k
    ensures LabelName(j) != LabelName(k)
  {
    NatToStringInjective(j, k);
    assert LabelName(j)[1..] == NatToString(j);
    assert LabelName(k)[1..] == NatToString(k);
  }

  lemma {:induction false} LabelDefsAppend(a: seq<string>, b: seq<string>)
    ensures LabelDefs(a + b) == LabelDefs(a) + LabelDefs(b)
    decreases |b|
  {
    if b == [] {
      assert a + b == a;
    } else {
      assert (a + b)[..|a + b| - 1] == a + b[..|b| - 1];
      LabelDefsAppend(a, b[..|b| - 1]);
    }
  }

  /** Lines that are empty or do not start with `L` define nothing. */
  lemma {:induction false} NoLabelLines(lines: seq<string>)
    requires forall i :: 0 <= i < |lines| ==> lines[i] == [] || lines[i][0] != 'L'
    ensures LabelDefs(lines) == multiset{}
    decreases |lines|
  {
    if lines != [] {
      NoLabelLines(lines[..|lines| - 1]);
    }
  }

  lemma IndentedNoLabels(ins: seq<string>)
    ensures LabelDefs(Indented(ins)) == multiset{}
  {
    NoLabelLines(Indented(ins));
  }

  /** Each number of the range occurs exactly once, and no other. */
  lemma {:induction false} RangeCount(lo: nat, hi: nat, k: nat)
    ensures Range(lo, hi)[k] == if lo < k <= hi then 1 else 0
    decreases hi
  {
    if hi > lo {
      RangeCount(lo, hi - 1, k);
    }
  }

  lemma {:induction false} RangeSplit(lo: nat, mid: nat, hi: nat)
    requires lo <= mid <= hi
    ensures Range(lo, hi) == Range(lo, mid) + Range(mid, hi)
    decreases hi
  {
    if hi > mid {
      var h := hi - 1;
      RangeSplit(lo, mid, h);
      assert Range(lo, hi) == Range(lo, h) + multiset{hi};
      assert Range(mid, hi) == Range(mid, h) + multiset{hi};
    }
  }

  // ---------------------------------------------------------------------------
  // Composing steps
  // ---------------------------------------------------------------------------

  lemma NewSplit(a: GState, b: GState, c: GState)
    requires a.code <= b.code && b.code <= c.code
    ensures LabelDefs(New(a, c)) == LabelDefs(New(a, b)) + LabelDefs(New(b, c))
  {
    assert New(a, c) == New(a, b) + New(b, c);
    LabelDefsAppend(New(a, b), New(b, c));
  }

  lemma FreshTrans(a: GState, b: GState, c: GState)
    requires Fresh(a, b) && Fresh(b, c)
    ensures Fresh(a, c)
  {
    NewSplit(a, b, c);
    RangeSplit(a.labels, b.labels, c.labels);
  }

  lemma FreshSame(g: GState)
    ensures Fresh(g, g)
  {
    assert New(g, g) == [];
  }

  lemma FreshEmit(g: GState, ins: string)
    ensures Fresh(g, Emit(g, ins))
  {
    assert New(g, Emit(g, ins)) == [Indent(ins)];
    assert LabelDefs([Indent(ins)]) == LabelDefs([]) + LineDefs(Indent(ins));
  }

  lemma FreshEmitAll(g: GState, ins: seq<string>)
    ensures Fresh(g, EmitAll(g, ins))
  {
    assert New(g, EmitAll(g, ins)) == Indented(ins);
    IndentedNoLabels(ins);
  }

  /** The label line of label `k`. */
  lemma LabelStep(g: GState, k: nat)
    ensures LabelDefs(New(g, EmitLabel(g, LabelName(k)))) == multiset{k}
  {
    var r := EmitLabel(g, LabelName(k));
    assert New(g, r) == [LabelName(k) + ":"];
    assert LabelDefs([LabelName(k) + ":"]) == LabelDefs([]) + LineDefs(LabelName(k) + ":");
    LabelLineDefines(k);
  }

  lemma RangeTwo(lo: nat)
    ensures Range(lo, lo + 2) == multiset{lo + 1} + multiset{lo + 2}
  {
    assert Range(lo, lo + 1) == multiset{lo + 1};
  }

  /** The step from `g` to `r` defines the labels it took, each once, and `extra` besides. */
  predicate Took(g: GState, r: GState, extra: multiset<nat>) {
    Grows(g, r) && LabelDefs(New(g, r)) == Range(g.labels, r.labels) + extra
  }

  /** A label line after a step that defined what it took. */
  lemma FreshThenLabel(a: GState, b: GState, k: nat)
    requires Fresh(a, b)
    ensures Took(a, EmitLabel(b, LabelName(k)), multiset{k})
  {
    LabelStep(b, k);
    NewSplit(a, b, EmitLabel(b, LabelName(k)));
  }

  lemma TookThenLabel(a: GState, b: GState, x: multiset<nat>, k: nat)
    requires Took(a, b, x)
    ensures Took(a, EmitLabel(b, LabelName(k)), x + multiset{k})
  {
    LabelStep(b, k);
    NewSplit(a, b, EmitLabel(b, LabelName(k)));
  }

  lemma TookThenFresh(a: GState, b: GState, c: GState, x: multiset<nat>)
    requires Took(a, b, x) && Fresh(b, c)
    ensures Took(a, c, x)
  {
    NewSplit(a, b, c);
    RangeSplit(a.labels, b.labels, c.labels);
  }

  /** A step that reserved two labels first and defines both besides what its parts took. */
  lemma TwoLabels(g: GState, g2: GState, r: GState, k: nat)
    requires k == g.labels && g2.code == g.code && g2.labels == k + 2
    requires Took(g2, r, multiset{k + 1} + multiset{k + 2})
    ensures Fresh(g, r)
  {
    assert New(g2, r) == New(g, r);
    var rest := Range(k + 2, r.labels);
    var two := multiset{k + 1} + multiset{k + 2};
    assert LabelDefs(New(g, r)) == rest + two;
    RangeSplit(k, k + 2, r.labels);
    RangeTwo(k);
    assert Range(k, r.labels) == two + rest;
  }

  lemma SandwichCore(g: GState, g2: GState, a: GState, b: GState, k: nat)
    requires k == g.labels && g2.code == g.code && g2.labels == k + 2
    requires Fresh(g2, a) && Fresh(EmitLabel(a, LabelName(k + 1)), b)
    ensures Fresh(g, EmitLabel(b, LabelName(k + 2)))
  {
    FreshThenLabel(g2, a, k + 1);
    TookThenFresh(g2, EmitLabel(a, LabelName(k + 1)), b, multiset{k + 1});
    TookThenLabel(g2, b, multiset{k + 1}, k + 2);
    TwoLabels(g, g2, EmitLabel(b, LabelName(k + 2)), k);
  }

  /** A step that reserves two labels, then runs a part, defines the first label, runs a
      second part and defines the second label. */
  lemma Sandwich(g: GState, a: GState, b: GState)
    requires Fresh(NewLabel(NewLabel(g).0).0, a)
    requires Fresh(EmitLabel(a, NewLabel(g).1), b)
    ensures Fresh(g, EmitLabel(b, NewLabel(NewLabel(g).0).1))
  {
    var k := g.labels;
    assert NewLabel(g).1 == LabelName(k + 1);
    assert NewLabel(NewLabel(g).0).1 == LabelName(k + 2);
    SandwichCore(g, NewLabel(NewLabel(g).0).0, a, b, k);
  }

  // ---------------------------------------------------------------------------
  // Expressions
  // ---------------------------------------------------------------------------

  lemma {:induction false} ExprFresh(c: Ctx, g: GState, e: Expr)
    ensures Fresh(g, GenExpr(c, g, e))
    decreases e, 3
  {
    match e
    case Assign(_, _, _) => AssignFresh(c, g, e);
    case Binary(_, _, _, _) => BinaryFresh(c, g, e);
    case Unary(_, operand, _) => ExprFresh(c, g, operand);
    case Postfix(_, _, _) => PostfixFresh(c, g, e);
  }

  lemma {:induction false} AssignFresh(c: Ctx, g: GState, e: Expr)
    requires e.Assign?
    ensures Fresh(g, GenAssign(c, g, e))
    decreases e, 2
  {
    var g1 := GenExpr(c, g, e.value);
    ExprFresh(c, g, e.value);
    var name := e.target.text;
    if name in g1.locals {
      FreshEmitAll(g1, ["dup", "istore " + NatToString(g1.locals[name])]);
      FreshTrans(g, g1, GenAssign(c, g, e));
    } else if FindGlobal(c.globals, name).Some? {
      FreshEmitAll(g1, ["dup", "putstatic " + StaticRef(c, name, FindGlobal(c.globals, name).value)]);
      FreshTrans(g, g1, GenAssign(c, g, e));
    }
  }

  lemma {:induction false} BinaryFresh(c: Ctx, g: GState, e: Expr)
    requires e.Binary?
    ensures Fresh(g, GenBinary(c, g, e))
    decreases e, 2
  {
    if IsComparison(e.level) && |e.rest| > 0 {
      CompareFresh(c, g, e);
    } else {
      var g1 := GenExpr(c, g, e.first);
      ExprFresh(c, g, e.first);
      ChainFresh(c, g1, e, 0);
      FreshTrans(g, g1, GenChain(c, g1, e, 0));
    }
  }

  lemma {:induction false} ChainFresh(c: Ctx, g: GState, e: Expr, i: nat)
    requires e.Binary?
    ensures Fresh(g, GenChain(c, g, e, i))
    decreases e, 0, |e.rest| - i
  {
    if i >= |e.rest| {
      FreshSame(g);
    } else {
      var g1 := GenExpr(c, g, e.rest[i].arg);
      ExprFresh(c, g, e.rest[i].arg);
      var op := ArithOpcode(e.level, e.rest[i].op);
      var g2 := if op.Some? then Emit(g1, op.value) else g1;
      if op.Some? {
        FreshEmit(g1, op.value);
        FreshTrans(g, g1, g2);
      }
      ChainFresh(c, g2, e, i + 1);
      FreshTrans(g, g2, GenChain(c, g2, e, i + 1));
    }
  }

  /** A comparison takes its two labels after its operands and defines both. */
  /** What a comparison emits after its operands: two labels, each defined once. */
  lemma CompareTailFresh(g: GState, jump: Option<string>)
    ensures
      var (g3, t) := NewLabel(g);
      var (g4, end) := NewLabel(g3);
      var g5 := if jump.Some? then Emit(g4, jump.value + " " + t) else g4;
      Fresh(g, EmitLabel(Emit(EmitLabel(EmitAll(g5, ["iconst_0", "goto " + end]), t), "iconst_1"), end))
  {
    var (g3, t) := NewLabel(g);
    var (g4, end) := NewLabel(g3);
    var g5 := if jump.Some? then Emit(g4, jump.value + " " + t) else g4;
    if jump.Some? {
      FreshEmit(g4, jump.value + " " + t);
    } else {
      FreshSame(g4);
    }
    var g6 := EmitAll(g5, ["iconst_0", "goto " + end]);
    FreshEmitAll(g5, ["iconst_0", "goto " + end]);
    FreshTrans(g4, g5, g6);
    var g7 := EmitLabel(g6, t);
    FreshEmit(g7, "iconst_1");
    Sandwich(g, g6, Emit(g7, "iconst_1"));
  }

  /** A comparison takes its two labels after its operands and defines both. */
  lemma {:induction false} CompareFresh(c: Ctx, g: GState, e: Expr)
    requires e.Binary? && |e.rest| > 0
    ensures Fresh(g, GenCompare(c, g, e))
    decreases e, 1
  {
    var g1 := GenExpr(c, g, e.first);
    ExprFresh(c, g, e.first);
    var g2 := GenExpr(c, g1, e.rest[0].arg);
    ExprFresh(c, g1, e.rest[0].arg);
    FreshTrans(g, g1, g2);
    CompareTailFresh(g2, CompareJump(e.level, e.rest[0].op));
    FreshTrans(g, g2, GenCompare(c, g, e));
  }

  lemma {:induction false} PostfixFresh(c: Ctx, g: GState, e: Expr)
    requires e.Postfix?
    ensures Fresh(g, GenPostfix(c, g, e))
    decreases e, 2
  {
    var g1 := GenPrimary(c, g, e.primary);
    PrimaryFresh(c, g, e.primary);
    OpsFresh(c, g1, e, 0);
    FreshTrans(g, g1, GenOps(c, g1, e, 0));
  }

  lemma {:induction false} OpsFresh(c: Ctx, g: GState, e: Expr, i: nat)
    requires e.Postfix?
    ensures Fresh(g, GenOps(c, g, e, i))
    decreases e, 1, |e.ops| - i
  {
    if i >= |e.ops| {
      FreshSame(g);
    } else {
      match e.ops[i]
      case Index(x) =>
        var g1 := GenExpr(c, g, x);
        ExprFresh(c, g, x);
        FreshEmitAll(g1, ListGet);
        FreshTrans(g, g1, EmitAll(g1, ListGet));
        OpsFresh(c, EmitAll(g1, ListGet), e, i + 1);
        FreshTrans(g, EmitAll(g1, ListGet), GenOps(c, EmitAll(g1, ListGet), e, i + 1));
      case Member(m) =>
        if i + 1 < |e.ops| && e.ops[i + 1].Call? && m in {"push", "pop", "size"} {
          var args := e.ops[i + 1].args;
          var g1 :=
            if m == "push" then (if |args| >= 1 then EmitAll(GenExpr(c, g, args[0]), ListAdd) else g)
            else if m == "pop" then EmitAll(g, ListPop)
            else Emit(g, ListSize);
          if m == "push" {
            if |args| >= 1 {
              ExprFresh(c, g, args[0]);
              FreshEmitAll(GenExpr(c, g, args[0]), ListAdd);
              FreshTrans(g, GenExpr(c, g, args[0]), g1);
            } else {
              FreshSame(g);
            }
          } else if m == "pop" {
            FreshEmitAll(g, ListPop);
          } else {
            FreshEmit(g, ListSize);
          }
          OpsFresh(c, g1, e, i + 2);
          FreshTrans(g, g1, GenOps(c, g1, e, i + 2));
        } else {
          OpsFresh(c, g, e, i + 1);
        }
      case Call(args) =>
        var g1 := if e.primary.Ident? then GenCall(c, g, e.primary.name, args) else g;
        if e.primary.Ident? {
          CallFresh(c, g, e.primary.name, args);
        } else {
          FreshSame(g);
        }
        OpsFresh(c, g1, e, i + 1);
        FreshTrans(g, g1, GenOps(c, g1, e, i + 1));
    }
  }

  lemma {:induction false} CallFresh(c: Ctx, g: GState, f: string, args: seq<Expr>)
    ensures Fresh(g, GenCall(c, g, f, args))
    decreases args, 2
  {
    if f == "print" {
      PrintFresh(c, g, args);
    } else if f == "array" {
      FreshEmitAll(g, ListInit);
    } else if f == "read" {
      FreshEmitAll(g, ReadInt);
    } else if f == "push" {
      if |args| >= 2 {
        var g1 := GenExpr(c, g, args[0]);
        ExprFresh(c, g, args[0]);
        var g2 := GenExpr(c, g1, args[1]);
        ExprFresh(c, g1, args[1]);
        FreshEmitAll(g2, ListAdd);
        FreshTrans(g, g1, g2);
        FreshTrans(g, g2, EmitAll(g2, ListAdd));
      } else {
        FreshSame(g);
      }
    } else if f == "pop" {
      if |args| >= 1 {
        ExprFresh(c, g, args[0]);
        FreshEmitAll(GenExpr(c, g, args[0]), ListPop);
        FreshTrans(g, GenExpr(c, g, args[0]), GenCall(c, g, f, args));
      } else {
        FreshSame(g);
      }
    } else if f == "size" {
      if |args| >= 1 {
        ExprFresh(c, g, args[0]);
        FreshEmit(GenExpr(c, g, args[0]), ListSize);
        FreshTrans(g, GenExpr(c, g, args[0]), GenCall(c, g, f, args));
      } else {
        FreshSame(g);
      }
    } else if f in c.funcs {
      var g1 := GenArgs(c, g, args, 0);
      ArgsFresh(c, g, args, 0);
      FreshEmit(g1, "invokestatic " + c.className + "/" + f + MethodDescriptor(c.funcs[f]));
      FreshTrans(g, g1, GenCall(c, g, f, args));
    } else {
      FreshSame(g);
    }
  }

  lemma {:induction false} ArgsFresh(c: Ctx, g: GState, args: seq<Expr>, k: nat)
    ensures Fresh(g, GenArgs(c, g, args, k))
    decreases args, 0, |args| - k
  {
    if k >= |args| {
      FreshSame(g);
    } else {
      var g1 := GenExpr(c, g, args[k]);
      ExprFresh(c, g, args[k]);
      ArgsFresh(c, g1, args, k + 1);
      FreshTrans(g, g1, GenArgs(c, g1, args, k + 1));
    }
  }

  lemma {:induction false} PrintFresh(c: Ctx, g: GState, args: seq<Expr>)
    ensures Fresh(g, GenPrint(c, g, args))
    decreases args, 1
  {
    var g1 := Emit(g, GetOut);
    FreshEmit(g, GetOut);
    if |args| == 0 {
      FreshEmit(g1, PrintlnEmpty);
      FreshTrans(g, g1, Emit(g1, PrintlnEmpty));
    } else if |args| == 1 {
      var g2 := GenExpr(c, g1, args[0]);
      ExprFresh(c, g1, args[0]);
      var ins := if Quoted(args[0].text) then PrintlnString else PrintlnInt;
      FreshEmit(g2, ins);
      FreshTrans(g, g1, g2);
      FreshTrans(g, g2, Emit(g2, ins));
    } else {
      var g2 := EmitAll(g1, BuilderInit);
      FreshEmitAll(g1, BuilderInit);
      var g3 := GenPrintArgs(c, g2, args, 0);
      PrintArgsFresh(c, g2, args, 0);
      FreshEmitAll(g3, BuilderDone);
      FreshTrans(g, g1, g2);
      FreshTrans(g, g2, g3);
      FreshTrans(g, g3, EmitAll(g3, BuilderDone));
    }
  }

  lemma {:induction false} PrintArgsFresh(c: Ctx, g: GState, args: seq<Expr>, k: nat)
    ensures Fresh(g, GenPrintArgs(c, g, args, k))
    decreases args, 0, |args| - k
  {
    if k >= |args| {
      FreshSame(g);
    } else {
      var g1 := if k > 0 then EmitAll(g, [Separator, AppendString]) else g;
      if k > 0 {
        FreshEmitAll(g, [Separator, AppendString]);
      } else {
        FreshSame(g);
      }
      var g2 := GenExpr(c, g1, args[k]);
      ExprFresh(c, g1, args[k]);
      var g3 := Emit(g2, if Quoted(args[k].text) then AppendString else AppendInt);
      FreshEmit(g2, if Quoted(args[k].text) then AppendString else AppendInt);
      PrintArgsFresh(c, g3, args, k + 1);
      FreshTrans(g, g1, g2);
      FreshTrans(g, g2, g3);
      FreshTrans(g, g3, GenPrintArgs(c, g3, args, k + 1));
    }
  }

  lemma {:induction false} PrimaryFresh(c: Ctx, g: GState, p: Primary)
    ensures Fresh(g, GenPrimary(c, g, p))
    decreases p, 1
  {
    match p
    case Lit(l) => FreshEmit(g, LiteralInstr(l));
    case ArrayLit(_) => FreshEmitAll(g, ListInit);
    case Ident(x) =>
      if x in g.locals {
        FreshEmit(g, "iload " + NatToString(g.locals[x]));
      } else if FindGlobal(c.globals, x).Some? {
        FreshEmit(g, "getstatic " + StaticRef(c, x, FindGlobal(c.globals, x).value));
      } else {
        FreshSame(g);
      }
    case Paren(inner) => ExprFresh(c, g, inner);
    case ObjectLit(_) => FreshSame(g);
  }

  // ---------------------------------------------------------------------------
  // Statements
  // ---------------------------------------------------------------------------

  lemma {:induction false} StmtFresh(c: Ctx, g: GState, s: Stmt)
    ensures Fresh(g, GenStmt(c, g, s))
    decreases s, 2
  {
    match s
    case VarDecl(_, _, _, _) => VarDeclFresh(c, g, s);
    case FunctionDecl(_, _, _, _) => FunctionFresh(c, g, s);
    case InterfaceDecl(_, _) => FreshSame(g);
    case Return(v) =>
      if v.Some? {
        ExprFresh(c, g, v.value);
        FreshEmit(GenExpr(c, g, v.value), "ireturn");
        FreshTrans(g, GenExpr(c, g, v.value), GenStmt(c, g, s));
      } else {
        FreshEmit(g, "return");
      }
    case If(_, _, _) => IfFresh(c, g, s);
    case While(_, _) => WhileFresh(c, g, s);
    case For(_, _, _, _) => ForFresh(c, g, s);
    case ExprStmt(x) =>
      ExprFresh(c, g, x);
      if !IsVoidCall(x.text) {
        FreshEmit(GenExpr(c, g, x), "pop");
        FreshTrans(g, GenExpr(c, g, x), GenStmt(c, g, s));
      }
    case Block(ss) => StmtsFresh(c, g, ss);
  }

  lemma {:induction false} StmtsFresh(c: Ctx, g: GState, ss: seq<Stmt>)
    ensures Fresh(g, GenStmts(c, g, ss))
    decreases ss
  {
    if ss == [] {
      FreshSame(g);
    } else {
      var g1 := GenStmt(c, g, ss[0]);
      StmtFresh(c, g, ss[0]);
      StmtsFresh(c, g1, ss[1..]);
      FreshTrans(g, g1, GenStmts(c, g1, ss[1..]));
    }
  }

  lemma {:induction false} VarDeclFresh(c: Ctx, g: GState, s: Stmt)
    requires s.VarDecl?
    ensures Fresh(g, GenVarDecl(c, g, s))
    decreases s, 0
  {
    if s.initializer.None? {
      FreshSame(g);
    } else {
      var init := s.initializer.value;
      var g1 := GenExpr(c, g, init);
      ExprFresh(c, g, init);
      var r := GenVarDecl(c, g, s);
      assert |r.code| == |g1.code| + 1 && r.labels == g1.labels && g1.code <= r.code;
      assert New(g1, r) == [r.code[|r.code| - 1]];
      assert r.code[|r.code| - 1][0] == ' ';
      NoLabelLines(New(g1, r));
      FreshTrans(g, g1, r);
    }
  }

  /** A condition, its jump, a statement and a closing jump: the middle of `if` and `while`. */
  lemma {:induction false} GuardedFresh(c: Ctx, g: GState, cond: Expr, jump: string, body: Stmt, back: string)
    ensures Fresh(g, Emit(GenStmt(c, Emit(GenExpr(c, g, cond), jump), body), back))
    decreases body, 3
  {
    var a := GenExpr(c, g, cond);
    ExprFresh(c, g, cond);
    var a1 := Emit(a, jump);
    FreshEmit(a, jump);
    var b := GenStmt(c, a1, body);
    StmtFresh(c, a1, body);
    FreshEmit(b, back);
    FreshTrans(g, a, a1);
    FreshTrans(g, a1, b);
    FreshTrans(g, b, Emit(b, back));
  }

  lemma {:induction false} IfFresh(c: Ctx, g: GState, s: Stmt)
    requires s.If?
    ensures Fresh(g, GenIf(c, g, s))
    decreases s, 0
  {
    var (g1, elseLabel) := NewLabel(g);
    var (g2, endLabel) := NewLabel(g1);
    GuardedFresh(c, g2, s.cond, "ifeq " + elseLabel, s.thenBranch, "goto " + endLabel);
    var b1 := Emit(GenStmt(c, Emit(GenExpr(c, g2, s.cond), "ifeq " + elseLabel), s.thenBranch), "goto " + endLabel);
    var g4 := EmitLabel(b1, elseLabel);
    var g5 := if s.elseBranch.Some? then GenStmt(c, g4, s.elseBranch.value) else g4;
    if s.elseBranch.Some? {
      StmtFresh(c, g4, s.elseBranch.value);
    } else {
      FreshSame(g4);
    }
    Sandwich(g, b1, g5);
  }

  lemma {:induction false} WhileFresh(c: Ctx, g: GState, s: Stmt)
    requires s.While?
    ensures Fresh(g, GenWhile(c, g, s))
    decreases s, 0
  {
    var (g1, startLabel) := NewLabel(g);
    var (g2, endLabel) := NewLabel(g1);
    var g3 := EmitLabel(g2, startLabel);
    GuardedFresh(c, g3, s.cond, "ifeq " + endLabel, s.body, "goto " + startLabel);
    FreshSame(g2);
    Sandwich(g, g2, Emit(GenStmt(c, Emit(GenExpr(c, g3, s.cond), "ifeq " + endLabel), s.body), "goto " + startLabel));
  }

  /** The loop part of a `for`: test, body, update and the jump back. */
  lemma {:induction false} ForLoopFresh(c: Ctx, g3: GState, s: Stmt, startLabel: string, endLabel: string)
    requires s.For?
    ensures
      var g4 :=
        if s.test.Some? then Emit(GenExpr(c, g3, s.test.value), "ifeq " + endLabel)
        else if s.update.Some? then Emit(GenExpr(c, g3, s.update.value), "ifeq " + endLabel)
        else g3;
      var g5 := GenStmt(c, g4, s.body);
      var g6 := if s.test.Some? && s.update.Some? then Emit(GenExpr(c, g5, s.update.value), "pop") else g5;
      Fresh(g3, Emit(g6, "goto " + startLabel))
    decreases s, 0
  {
    var g4 := ForTest(c, g3, s, endLabel);
    var g5 := GenStmt(c, g4, s.body);
    StmtFresh(c, g4, s.body);
    var g6 := if s.test.Some? && s.update.Some? then Emit(GenExpr(c, g5, s.update.value), "pop") else g5;
    if s.test.Some? && s.update.Some? {
      ExprFresh(c, g5, s.update.value);
      FreshEmit(GenExpr(c, g5, s.update.value), "pop");
      FreshTrans(g5, GenExpr(c, g5, s.update.value), g6);
    } else {
      FreshSame(g5);
    }
    FreshEmit(g6, "goto " + startLabel);
    FreshTrans(g3, g4, g5);
    FreshTrans(g3, g5, g6);
    FreshTrans(g3, g6, Emit(g6, "goto " + startLabel));
  }

  lemma {:induction false} ForFresh(c: Ctx, g: GState, s: Stmt)
    requires s.For?
    ensures Fresh(g, GenFor(c, g, s))
    decreases s, 1
  {
    var (g1, startLabel) := NewLabel(g);
    var (g2, endLabel) := NewLabel(g1);
    var g2a := if s.init.Some? then GenStmt(c, g2, s.init.value) else g2;
    if s.init.Some? {
      StmtFresh(c, g2, s.init.value);
    } else {
      FreshSame(g2);
    }
    var g3 := EmitLabel(g2a, startLabel);
    ForLoopFresh(c, g3, s, startLabel, endLabel);
    var g4 :=
      if s.test.Some? then Emit(GenExpr(c, g3, s.test.value), "ifeq " + endLabel)
      else if s.update.Some? then Emit(GenExpr(c, g3, s.update.value), "ifeq " + endLabel)
      else g3;
    var g5 := GenStmt(c, g4, s.body);
    var g6 := if s.test.Some? && s.update.Some? then Emit(GenExpr(c, g5, s.update.value), "pop") else g5;
    Sandwich(g, g2a, Emit(g6, "goto " + startLabel));
  }

  /** The tested expression of a `for` and its `ifeq`, as `GenFor` emits them. */
  function ForTest(c: Ctx, g: GState, s: Stmt, endLabel: string): (r: GState)
    requires s.For?
    ensures Fresh(g, r)
    ensures r == (if s.test.Some? then Emit(GenExpr(c, g, s.test.value), "ifeq " + endLabel)
                  else if s.update.Some? then Emit(GenExpr(c, g, s.update.value), "ifeq " + endLabel)
                  else g)
  {
    if s.test.Some? || s.update.Some? then
      var x := if s.test.Some? then s.test.value else s.update.value;
      ExprFresh(c, g, x);
      FreshEmit(GenExpr(c, g, x), "ifeq " + endLabel);
      FreshTrans(g, GenExpr(c, g, x), Emit(GenExpr(c, g, x), "ifeq " + endLabel));
      Emit(GenExpr(c, g, x), "ifeq " + endLabel)
    else
      FreshSame(g);
      g
  }

  lemma EntryFresh(c: Ctx, g: GState, s: Stmt)
    requires s.FunctionDecl? && s.name in c.funcs
    ensures Fresh(g, FunctionEntry(c, g, s))
  {
    var header := MethodHeader(s.name, MethodDescriptor(c.funcs[s.name]));
    NoLabelLines(header);
    FreshAppend(g, FunctionEntry(c, g, s), header);
  }

  lemma ExitFresh(g: GState, ret: string)
    ensures Fresh(g, FunctionExit(g, ret))
  {
    var g1 := if ret == "V" then Emit(g, "return") else g;
    if ret == "V" {
      FreshEmit(g, "return");
    } else {
      FreshSame(g);
    }
    NoLabelLines([".end method", ""]);
    FreshAppend(g1, FunctionExit(g, ret), [".end method", ""]);
    FreshTrans(g, g1, FunctionExit(g, ret));
  }

  /** A function method: header lines and slots, the body, the closing lines. */
  lemma {:induction false} FunctionFresh(c: Ctx, g: GState, s: Stmt)
    requires s.FunctionDecl?
    ensures Fresh(g, GenFunction(c, g, s))
    decreases s, 0
  {
    if s.name !in c.funcs {
      FreshSame(g);
    } else {
      var g1 := FunctionEntry(c, g, s);
      EntryFresh(c, g, s);
      var g2 := GenStmts(c, g1, s.block);
      StmtsFresh(c, g1, s.block);
      ExitFresh(g2, JvmType(c.funcs[s.name].returnType));
      FreshTrans(g, g1, g2);
      FreshTrans(g, g2, GenFunction(c, g, s));
    }
  }

  lemma {:induction false} FunctionsFresh(c: Ctx, g: GState, prog: seq<Stmt>)
    ensures Fresh(g, GenFunctions(c, g, prog))
    decreases prog
  {
    if prog == [] {
      FreshSame(g);
    } else {
      var g1 := if prog[0].FunctionDecl? then GenFunction(c, g, prog[0]) else g;
      if prog[0].FunctionDecl? {
        FunctionFresh(c, g, prog[0]);
      } else {
        FreshSame(g);
      }
      FunctionsFresh(c, g1, prog[1..]);
      FreshTrans(g, g1, GenFunctions(c, g1, prog[1..]));
    }
  }

  lemma {:induction false} MainFresh(c: Ctx, g: GState, prog: seq<Stmt>)
    ensures Fresh(g, GenMain(c, g, prog))
    decreases prog
  {
    if prog == [] {
      FreshSame(g);
    } else {
      var skip := prog[0].FunctionDecl? || prog[0].InterfaceDecl?;
      var g1 := if skip then g else GenStmt(c, g, prog[0]);
      if skip {
        FreshSame(g);
      } else {
        StmtFresh(c, g, prog[0]);
      }
      MainFresh(c, g1, prog[1..]);
      FreshTrans(g, g1, GenMain(c, g1, prog[1..]));
    }
  }

  lemma PrologueNoLabels(c: Ctx)
    ensures LabelDefs(Prologue(c)) == multiset{}
  {
    var p := Prologue(c);
    forall i | 0 <= i < |p|
      ensures p[i] == [] || p[i][0] != 'L'
    {
      var n := |c.globals|;
      if 3 <= i < 3 + n {
        assert p[i] == FieldLines(c.globals)[i - 3];
      }
    }
    NoLabelLines(p);
  }

  /** A whole class defines exactly the labels `L1` .. `Ln` its generator took, each once. */
  /** Appending lines that define no label, with the counter unchanged. */
  lemma FreshAppend(g: GState, r: GState, lines: seq<string>)
    requires r.code == g.code + lines && r.labels == g.labels
    requires LabelDefs(lines) == multiset{}
    ensures Fresh(g, r)
  {
    assert New(g, r) == lines;
  }

  lemma MainEntryFresh(g: GState)
    ensures Fresh(g, g.(code := g.code + MainHeader, locals := map[], index := 1))
  {
    NoLabelLines(MainHeader);
    FreshAppend(g, g.(code := g.code + MainHeader, locals := map[], index := 1), MainHeader);
  }

  lemma MainExitFresh(g: GState)
    ensures Fresh(g, Emit(g, "return").(code := Emit(g, "return").code + [".end method"]))
  {
    var g1 := Emit(g, "return");
    FreshEmit(g, "return");
    NoLabelLines([".end method"]);
    FreshAppend(g1, g1.(code := g1.code + [".end method"]), [".end method"]);
    FreshTrans(g, g1, g1.(code := g1.code + [".end method"]));
  }

  lemma ProgramFresh(c: Ctx, g: GState, prog: seq<Stmt>)
    ensures Fresh(g, GenProgram(c, g, prog))
  {
    var g0 := g.(code := g.code + Prologue(c));
    PrologueNoLabels(c);
    FreshAppend(g, g0, Prologue(c));
    var g1 := GenFunctions(c, g0, prog);
    FunctionsFresh(c, g0, prog);
    var g2 := g1.(code := g1.code + MainHeader, locals := map[], index := 1);
    MainEntryFresh(g1);
    var g3 := GenMain(c, g2, prog);
    MainFresh(c, g2, prog);
    MainExitFresh(g3);
    FreshTrans(g, g0, g1);
    FreshTrans(g, g1, g2);
    FreshTrans(g, g2, g3);
    FreshTrans(g, g3, GenProgram(c, g, prog));
  }

  /** In the lines of a generated class, the label lines define `L1` .. `Ln` for the final
      counter `n`, each exactly once. */
  lemma GeneratedLabelsOnce(c: Ctx, prog: seq<Stmt>, k: nat)
    ensures LabelDefs(Generate(c, prog))[k] == if 0 < k <= GenProgram(c, Start(), prog).labels then 1 else 0
  {
    ProgramFresh(c, Start(), prog);
    assert New(Start(), GenProgram(c, Start(), prog)) == Generate(c, prog);
    RangeCount(0, GenProgram(c, Start(), prog).labels, k);
  }
}
