/** What the generated Jasmin text looks like: the class layout, calls that match the
    methods they call, the pieces of `print`, comparisons, expression statements, `for`
    loops and number literals. */
module JasminProps {
  import opened Wrappers
  import opened Strings
  import opened Types
  import opened Ast
  import Semantic
  import opened Jasmin
  import opened JasminLabels
  import JasminLayout

  // ---------------------------------------------------------------------------
  // Class layout
  // ---------------------------------------------------------------------------

  /** The class header, the fields, an empty line, then the static initializer exactly when
      there are globals. */
  lemma PrologueLayout(c: Ctx)
    ensures |Prologue(c)| > 5 + |c.globals|
    ensures Prologue(c)[..3] == [".class public " + c.className, ".super java/lang/Object", ""]
    ensures forall i :: 0 <= i < |c.globals| ==>
      Prologue(c)[3 + i] == ".field public static " + c.globals[i].name + " " + JvmType(c.globals[i].ty)
    ensures Prologue(c)[3 + |c.globals|] == ""
    ensures Prologue(c)[4 + |c.globals|] == ".method public static <clinit>()V" <==> c.globals != []
  {
    var h := ClassHeader(c);
    var f := FieldLines(c.globals);
    var t := PrologueTail(c);
    Pieces(h, f, t);
    PrologueFields(c, Prologue(c), f);
    PrologueTailHead(c);
  }

  lemma PrologueFields(c: Ctx, p: seq<string>, f: seq<string>)
    requires f == FieldLines(c.globals) && |p| > 3 + |f|
    requires forall i :: 0 <= i < |f| ==> p[3 + i] == f[i]
    ensures forall i :: 0 <= i < |c.globals| ==>
      p[3 + i] == ".field public static " + c.globals[i].name + " " + JvmType(c.globals[i].ty)
  {
    forall i | 0 <= i < |c.globals|
      ensures p[3 + i] == ".field public static " + c.globals[i].name + " " + JvmType(c.globals[i].ty)
    {
      assert p[3 + i] == f[i];
    }
  }

  lemma PrologueTailHead(c: Ctx)
    ensures PrologueTail(c)[0] == ".method public static <clinit>()V" <==> c.globals != []
  {
    assert InitLines[0] != ClinitLines[0] by {
      assert |InitLines[0]| != |ClinitLines[0]|;
    }
  }

  /** Where the pieces of a header, a body, an empty line and a tail sit in their sum. */
  lemma Pieces(h: seq<string>, f: seq<string>, t: seq<string>)
    requires |h| == 3 && |t| > 1
    ensures var p := h + f + [""] + t;
      |p| > 5 + |f| && p[..3] == h && (forall i :: 0 <= i < |f| ==> p[3 + i] == f[i]) &&
      p[3 + |f|] == "" && p[4 + |f|] == t[0]
  {
  }

  /** The generated lines start with the prologue and end with the end of `main`. */
  lemma ProgramEnds(c: Ctx, g: GState, prog: seq<Stmt>)
    ensures var r := GenProgram(c, g, prog);
      g.code + Prologue(c) <= r.code && |r.code| >= |g.code| + |Prologue(c)| + 2 &&
      r.code[|r.code| - 2..] == [Indent("return"), ".end method"]
  {
    var g0 := g.(code := g.code + Prologue(c));
    var g1 := GenFunctions(c, g0, prog);
    var g2 := GenMain(c, g1.(code := g1.code + MainHeader, locals := map[], index := 1), prog);
    var r := GenProgram(c, g, prog);
    assert r.code == g2.code + [Indent("return"), ".end method"];
  }

  /** A generated class starts with its header, one static field per global in order, an
      empty line, and a static initializer exactly when there are globals, then the
      constructor, the function methods and `main`; it ends with the `return` and the end
      of `main`. */
  lemma ClassLayout(c: Ctx, prog: seq<Stmt>)
    ensures var out := Generate(c, prog);
      var n := |c.globals|;
      |out| > 5 + n &&
      out[..3] == [".class public " + c.className, ".super java/lang/Object", ""] &&
      (forall i :: 0 <= i < n ==>
        out[3 + i] == ".field public static " + c.globals[i].name + " " + JvmType(c.globals[i].ty)) &&
      out[3 + n] == "" &&
      (out[4 + n] == ".method public static <clinit>()V" <==> c.globals != []) &&
      out[|out| - 2..] == [Indent("return"), ".end method"] &&
      JasminLayout.ClassOrdered(c, prog, out)
  {
    JasminLayout.ClassOrder(c, prog);
    GenerateEnds(c, prog);
    LayoutOfPrefix(c, Prologue(c), Generate(c, prog));
  }

  lemma GenerateEnds(c: Ctx, prog: seq<Stmt>)
    ensures Prologue(c) <= Generate(c, prog)
    ensures |Generate(c, prog)| >= 2 && Generate(c, prog)[|Generate(c, prog)| - 2..] == [Indent("return"), ".end method"]
  {
    ProgramEnds(c, Start(), prog);
    PrefixOfEmpty(Start().code, Prologue(c), Generate(c, prog));
  }

  lemma PrefixOfEmpty(e: seq<string>, p: seq<string>, out: seq<string>)
    requires e == [] && e + p <= out
    ensures p <= out
  {
    assert e + p == p;
  }

  lemma LayoutOfPrefix(c: Ctx, p: seq<string>, out: seq<string>)
    requires p == Prologue(c) && p <= out
    ensures var n := |c.globals|;
      |out| > 5 + n &&
      out[..3] == [".class public " + c.className, ".super java/lang/Object", ""] &&
      (forall i :: 0 <= i < n ==>
        out[3 + i] == ".field public static " + c.globals[i].name + " " + JvmType(c.globals[i].ty)) &&
      out[3 + n] == "" &&
      (out[4 + n] == ".method public static <clinit>()V" <==> c.globals != [])
  {
    PrologueLayout(c);
    assert out[..3] == p[..3];
  }

  // ---------------------------------------------------------------------------
  // Calls and the methods they call
  // ---------------------------------------------------------------------------

  /** A call of a user function evaluates the arguments left to right and then invokes the
      method by exactly the name and descriptor the function's own method is declared with. */
  lemma CallMatchesMethod(c: Ctx, g: GState, f: string, args: seq<Expr>, h: GState, s: Stmt)
    requires f in c.funcs && f !in ["print", "array", "read", "push", "pop", "size"]
    requires s.FunctionDecl? && s.name == f
    ensures var desc := MethodDescriptor(c.funcs[f]);
      GenCall(c, g, f, args).code ==
        GenArgs(c, g, args, 0).code + [Indent("invokestatic " + c.className + "/" + f + desc)] &&
      |GenFunction(c, h, s).code| > |h.code| &&
      GenFunction(c, h, s).code[|h.code|] == ".method public static " + f + desc
  {
    var g1 := FunctionEntry(c, h, s);
    var header := MethodHeader(s.name, MethodDescriptor(c.funcs[s.name]));
    assert BindSlots(h.(code := h.code + header, locals := map[], index := 0), s.params).code == h.code + header;
    assert GenFunction(c, h, s).code[|h.code|] == g1.code[|h.code|];
  }

  /** A method descriptor lists the parameter descriptors in order inside parentheses, then
      the return descriptor. */
  lemma {:induction false} ParamDescriptorsCons(t: Type, ts: seq<Type>)
    ensures ParamDescriptors([t] + ts) == JvmType(t) + ParamDescriptors(ts)
    decreases |ts|
  {
    if ts != [] {
      var ts' := ts[..|ts| - 1];
      assert ([t] + ts)[..|[t] + ts| - 1] == [t] + ts';
      ParamDescriptorsCons(t, ts');
    } else {
      assert ([t] + ts)[..0] == [];
    }
  }

  // ---------------------------------------------------------------------------
  // print
  // ---------------------------------------------------------------------------

  /** An argument that is a name or a literal other than the one-space string: its code is at
      most one line and never the separator. */
  predicate SimpleArg(e: Expr) {
    e.Postfix? && e.ops == [] &&
    (e.primary.Ident? || (e.primary.Lit? && LiteralInstr(e.primary.lit) != Separator))
  }

  /** The number of times the separator line occurs among lines. */
  function Separators(lines: seq<string>): nat {
    multiset(lines)[Indent(Separator)]
  }

  lemma SeparatorsSplit(a: GState, b: GState, c: GState)
    requires a.code <= b.code && b.code <= c.code
    ensures Separators(New(a, c)) == Separators(New(a, b)) + Separators(New(b, c))
  {
    assert New(a, c) == New(a, b) + New(b, c);
  }

  lemma SeparatorsOne(ins: string)
    ensures Separators([Indent(ins)]) == if ins == Separator then 1 else 0
  {
    if Indent(ins) == Indent(Separator) {
      assert Indent(ins)[4..] == ins;
    }
  }

  lemma SeparatorsEmit(g: GState, ins: string)
    ensures Separators(New(g, Emit(g, ins))) == if ins == Separator then 1 else 0
  {
    assert New(g, Emit(g, ins)) == [Indent(ins)];
    SeparatorsOne(ins);
  }

  lemma SeparatorsEmitAll(g: GState, ins: seq<string>)
    requires Separator !in ins
    ensures Separators(New(g, EmitAll(g, ins))) == 0
  {
    assert New(g, EmitAll(g, ins)) == Indented(ins);
    forall i | 0 <= i < |ins|
      ensures Indented(ins)[i] != Indent(Separator)
    {
      assert Indented(ins)[i][4..] == ins[i];
      assert Indent(Separator)[4..] == Separator;
    }
  }

  /** An argument whose code, generated from any state, never contains the separator
      line. */
  ghost predicate NoSeparatorCode(c: Ctx, e: Expr) {
    forall h :: Separators(New(h, GenExpr(c, h, e))) == 0
  }

  /** Names and literals other than `" "` are such arguments. */
  lemma SimpleArgNoSeparator(c: Ctx, e: Expr)
    requires SimpleArg(e)
    ensures NoSeparatorCode(c, e)
  {
    forall g
      ensures Separators(New(g, GenExpr(c, g, e))) == 0
    {
      SimpleArgCode(c, g, e);
    }
  }

  lemma SimpleArgCode(c: Ctx, g: GState, e: Expr)
    requires SimpleArg(e)
    ensures Separators(New(g, GenExpr(c, g, e))) == 0
  {
    var p := GenPrimary(c, g, e.primary);
    assert GenExpr(c, g, e) == GenPostfix(c, g, e) == GenOps(c, p, e, 0) == p;
    match e.primary
    case Ident(x) =>
      if x in g.locals {
        assert ("iload " + NatToString(g.locals[x]))[0] == 'i';
        SeparatorsEmit(g, "iload " + NatToString(g.locals[x]));
      } else if FindGlobal(c.globals, x).Some? {
        assert ("getstatic " + StaticRef(c, x, FindGlobal(c.globals, x).value))[0] == 'g';
        SeparatorsEmit(g, "getstatic " + StaticRef(c, x, FindGlobal(c.globals, x).value));
      } else {
        assert New(g, p) == [];
      }
    case Lit(l) =>
      SeparatorsEmit(g, LiteralInstr(l));
  }

  function SeparatorsFrom(k: nat, n: nat): nat {
    if k >= n then 0 else if k == 0 then n - 1 else n - k
  }

  /** One argument of a multi-argument `print`, whatever it is: the separator and its
      `append` before it exactly when it is not the first, then its value, then the
      `append` for its text. The separators are the one before it, if any, and those of
      its own code. */
  lemma PrintArgSeparators(c: Ctx, g: GState, args: seq<Expr>, k: nat)
    requires k < |args|
    ensures var g1 := if k > 0 then EmitAll(g, [Separator, AppendString]) else g;
      var g2 := GenExpr(c, g1, args[k]);
      var g3 := Emit(g2, if Quoted(args[k].text) then AppendString else AppendInt);
      g1.code == g.code + (if k > 0 then [Indent(Separator), Indent(AppendString)] else []) &&
      g3.code == g2.code + [Indent(if Quoted(args[k].text) then AppendString else AppendInt)] &&
      GenPrintArgs(c, g, args, k) == GenPrintArgs(c, g3, args, k + 1) &&
      Grows(g, g3) && Separators(New(g, g3)) == (if k > 0 then 1 else 0) + Separators(New(g1, g2))
  {
    var g1 := if k > 0 then EmitAll(g, [Separator, AppendString]) else g;
    var g2 := GenExpr(c, g1, args[k]);
    var ins := if Quoted(args[k].text) then AppendString else AppendInt;
    SeparatorsAround(g, g1, g2, Emit(g2, ins), k > 0, ins);
  }

  /** The separator count of one argument's lines, whatever its own code is. */
  lemma SeparatorsAround(g: GState, g1: GState, g2: GState, g3: GState, sep: bool, ins: string)
    requires g1 == if sep then EmitAll(g, [Separator, AppendString]) else g
    requires Grows(g1, g2) && g3 == Emit(g2, ins) && ins != Separator
    ensures Grows(g, g3) && Separators(New(g, g3)) == (if sep then 1 else 0) + Separators(New(g1, g2))
  {
    if sep {
      assert New(g, g1) == [Indent(Separator)] + [Indent(AppendString)];
      SeparatorsOne(Separator);
      SeparatorsOne(AppendString);
    } else {
      assert New(g, g1) == [];
    }
    SeparatorsEmit(g2, ins);
    SeparatorsSplit(g, g1, g2);
    SeparatorsSplit(g, g2, g3);
  }

  /** At least one separator before every argument after the first; exactly those when no
      argument's own code holds one. */
  lemma {:induction false} PrintArgsSeparators(c: Ctx, g: GState, args: seq<Expr>, k: nat)
    ensures Separators(New(g, GenPrintArgs(c, g, args, k))) >= SeparatorsFrom(k, |args|)
    ensures (forall i :: k <= i < |args| ==> NoSeparatorCode(c, args[i])) ==>
      Separators(New(g, GenPrintArgs(c, g, args, k))) == SeparatorsFrom(k, |args|)
    decreases |args| - k
  {
    if k < |args| {
      var g1 := if k > 0 then EmitAll(g, [Separator, AppendString]) else g;
      var g2 := GenExpr(c, g1, args[k]);
      var g3 := Emit(g2, if Quoted(args[k].text) then AppendString else AppendInt);
      PrintArgSeparators(c, g, args, k);
      PrintArgsSeparators(c, g3, args, k + 1);
      SeparatorsSplit(g, g3, GenPrintArgs(c, g3, args, k + 1));
      if forall i :: k <= i < |args| ==> NoSeparatorCode(c, args[i]) {
        assert NoSeparatorCode(c, args[k]);
        assert Separators(New(g1, g2)) == 0;
      }
    } else {
      assert New(g, GenPrintArgs(c, g, args, k)) == [];
    }
  }

  /** `print` with arguments puts at least one space between consecutive ones, and exactly
      those when no argument's own code holds one (names and literals other than `" "`
      never do). */
  lemma PrintSeparators(c: Ctx, g: GState, args: seq<Expr>)
    requires |args| >= 1
    ensures Separators(New(g, GenPrint(c, g, args))) >= |args| - 1
    ensures (forall i :: 0 <= i < |args| ==> NoSeparatorCode(c, args[i])) ==>
      Separators(New(g, GenPrint(c, g, args))) == |args| - 1
  {
    var g1 := Emit(g, GetOut);
    SeparatorsEmit(g, GetOut);
    var r := GenPrint(c, g, args);
    if |args| == 1 {
      var g2 := GenExpr(c, g1, args[0]);
      SeparatorsEmit(g2, if Quoted(args[0].text) then PrintlnString else PrintlnInt);
      SeparatorsSplit(g, g1, g2);
      SeparatorsSplit(g, g2, r);
      if forall i :: 0 <= i < |args| ==> NoSeparatorCode(c, args[i]) {
        assert NoSeparatorCode(c, args[0]);
        assert Separators(New(g1, g2)) == 0;
      }
    } else {
      var g2 := EmitAll(g1, BuilderInit);
      SeparatorsEmitAll(g1, BuilderInit);
      var g3 := GenPrintArgs(c, g2, args, 0);
      PrintArgsSeparators(c, g2, args, 0);
      SeparatorsEmitAll(g3, BuilderDone);
      SeparatorsSplit(g, g1, g2);
      SeparatorsSplit(g, g2, g3);
      SeparatorsSplit(g, g3, r);
    }
  }

  /** `print` fetches `System.out` first. With no argument it prints an empty line; with one,
      it prints a string when the argument's text is quoted and an int otherwise; with
      several, it prints the string built in a `StringBuilder`. */
  lemma PrintShape(c: Ctx, g: GState, args: seq<Expr>)
    ensures var r := GenPrint(c, g, args);
      |r.code| >= |g.code| + 2 && r.code[|g.code|] == Indent(GetOut) &&
      (|args| == 0 ==> r.code == g.code + [Indent(GetOut), Indent(PrintlnEmpty)]) &&
      (|args| == 1 ==> r.code[|r.code| - 1] == Indent(if Quoted(args[0].text) then PrintlnString else PrintlnInt)) &&
      (|args| >= 2 ==> r.code[|r.code| - 1] == Indent(PrintlnString))
  {
    var g1 := Emit(g, GetOut);
    var r := GenPrint(c, g, args);
    assert g1.code <= r.code;
    if |args| >= 2 {
      var g3 := GenPrintArgs(c, EmitAll(g1, BuilderInit), args, 0);
      assert r.code == g3.code + Indented(BuilderDone);
    }
  }

  // ---------------------------------------------------------------------------
  // Comparisons, expression statements, for loops
  // ---------------------------------------------------------------------------

  /** A comparison evaluates its first two operands only, then leaves 1 when the jump for its
      operator is taken and 0 otherwise, through two new labels defined after the jump. An
      operator with no jump of its level always gives 0. */
  lemma CompareShape(c: Ctx, g: GState, e: Expr)
    requires e.Binary? && IsComparison(e.level) && |e.rest| > 0
    ensures var m := GenExpr(c, GenExpr(c, g, e.first), e.rest[0].arg);
      var k := m.labels;
      var jump := CompareJump(e.level, e.rest[0].op);
      var r := GenExpr(c, g, e);
      r.labels == k + 2 &&
      r.code == m.code + (if jump.Some? then [Indent(jump.value + " " + LabelName(k + 1))] else []) +
        [Indent("iconst_0"), Indent("goto " + LabelName(k + 2)), LabelName(k + 1) + ":",
         Indent("iconst_1"), LabelName(k + 2) + ":"]
  {
    assert GenExpr(c, g, e) == GenCompare(c, g, e);
    CompareCode(c, g, e);
  }

  lemma CompareCode(c: Ctx, g: GState, e: Expr)
    requires e.Binary? && |e.rest| > 0
    ensures var m := GenExpr(c, GenExpr(c, g, e.first), e.rest[0].arg);
      var k := m.labels;
      var jump := CompareJump(e.level, e.rest[0].op);
      var r := GenCompare(c, g, e);
      r.labels == k + 2 &&
      r.code == m.code + (if jump.Some? then [Indent(jump.value + " " + LabelName(k + 1))] else []) +
        [Indent("iconst_0"), Indent("goto " + LabelName(k + 2)), LabelName(k + 1) + ":",
         Indent("iconst_1"), LabelName(k + 2) + ":"]
  {
    var m := GenExpr(c, GenExpr(c, g, e.first), e.rest[0].arg);
    var jump := CompareJump(e.level, e.rest[0].op);
    CompareTail(m, jump);
  }

  /** The code a comparison emits once both operands are on the stack. */
  lemma CompareTail(m: GState, jump: Option<string>)
    ensures var k := m.labels;
      var (g3, t) := NewLabel(m);
      var (g4, end) := NewLabel(g3);
      var g5 := if jump.Some? then Emit(g4, jump.value + " " + t) else g4;
      var r := EmitLabel(Emit(EmitLabel(EmitAll(g5, ["iconst_0", "goto " + end]), t), "iconst_1"), end);
      r.labels == k + 2 &&
      r.code == m.code + (if jump.Some? then [Indent(jump.value + " " + LabelName(k + 1))] else []) +
        [Indent("iconst_0"), Indent("goto " + LabelName(k + 2)), LabelName(k + 1) + ":",
         Indent("iconst_1"), LabelName(k + 2) + ":"]
  {
    var k := m.labels;
    assert Indented(["iconst_0", "goto " + LabelName(k + 2)]) == [Indent("iconst_0"), Indent("goto " + LabelName(k + 2))];
  }

  /** Only operator/level pairs of the comparison levels have a jump, and each has its own. */
  lemma CompareJumps(level: Level, op: BinOp)
    ensures CompareJump(level, op).Some? <==>
      (level == Relational && op in [LtOp, GtOp, LeOp, GeOp]) || (level == Equality && op in [EqOp, NeOp])
    ensures forall op' :: CompareJump(level, op).Some? && CompareJump(level, op') == CompareJump(level, op) ==> op' == op
  {
  }

  /** An expression statement pops the value it leaves, unless its text marks it as a call
      that leaves nothing. */
  lemma ExprStmtPop(c: Ctx, g: GState, x: Expr)
    ensures GenStmt(c, g, ExprStmt(x)).code ==
      GenExpr(c, g, x).code + (if IsVoidCall(x.text) then [] else [Indent("pop")])
  {
  }

  /** The texts that count as calls leaving nothing: those starting with `print(` or
      `push(`, or containing `.push(`. */
  lemma VoidCallTexts()
    ensures IsVoidCall("print(x)") && IsVoidCall("xs.push(1)") && IsVoidCall("push(xs, 1)")
  {
    assert StartsWith("print(x)", "print(");
    assert StartsWith("push(xs, 1)", "push(");
    assert "xs.push(1)"[1..][1..] == ".push(1)";
    assert StartsWith(".push(1)", ".push(");
    assert Contains("xs.push(1)"[1..], ".push(");
  }

  /** An assignment and a call of `read` leave a value, which is popped. */
  lemma ValueTexts()
    ensures !IsVoidCall("x = 1") && !IsVoidCall("read()")
  {
    ContainsTooShort("x = 1", ".push(");
    ContainsTooShort("read()"[1..], ".push(");
    assert !StartsWith("read()", ".push(") by { assert "read()"[0] != ".push("[0]; }
    assert !StartsWith("read()", "print(") by { assert "read()"[0] != "print("[0]; }
    assert !StartsWith("read()", "push(") by { assert "read()"[0] != "push("[0]; }
    assert !StartsWith("x = 1", "push(") by { assert "x = 1"[0] != "push("[0]; }
  }

  /** A `for` with a test evaluates the update after the body and pops its value; a `for`
      without a test tests its update instead, before the body, and does not evaluate it
      after the body. */
  lemma ForUpdate(c: Ctx, g: GState, s: Stmt)
    requires s.For? && s.update.Some?
    ensures var (g1, startLabel) := NewLabel(g);
      var (g2, endLabel) := NewLabel(g1);
      var g3 := EmitLabel(if s.init.Some? then GenStmt(c, g2, s.init.value) else g2, startLabel);
      var tested := if s.test.Some? then s.test.value else s.update.value;
      var g4 := Emit(GenExpr(c, g3, tested), "ifeq " + endLabel);
      var g5 := GenStmt(c, g4, s.body);
      var r := GenFor(c, g, s);
      r.code == (if s.test.Some? then Emit(GenExpr(c, g5, s.update.value), "pop").code else g5.code) +
        [Indent("goto " + startLabel), endLabel + ":"]
  {
  }

  // ---------------------------------------------------------------------------
  // Number literals
  // ---------------------------------------------------------------------------

  lemma {:induction false} LeadingDigitsOf(d: string, rest: string)
    requires AllDigits(d) && (rest == [] || !IsDigit(rest[0]))
    ensures LeadingDigits(d + rest) == d
    decreases |d|
  {
    if d != [] {
      assert (d + rest)[1..] == d[1..] + rest;
      LeadingDigitsOf(d[1..], rest);
    } else {
      assert d + rest == rest;
    }
  }

  /** A number token `d.f` is loaded as the integer `d`, written without leading zeros. */
  lemma NumberWithDot(d: string, f: string)
    requires d != [] && AllDigits(d) && AllDigits(f)
    ensures LiteralInstr(NumberLit(d + "." + f)) == "ldc " + NatToString(DigitsValue(d))
  {
    DotIn(d, f);
    IntegerPartOf(d, f);
  }

  lemma DotIn(d: string, f: string)
    ensures HasDot(d + "." + f)
  {
    assert (d + "." + f)[|d|] == '.';
  }

  lemma IntegerPartOf(d: string, f: string)
    requires AllDigits(d)
    ensures IntegerPart(d + "." + f) == NatToString(DigitsValue(d))
  {
    assert d + "." + f == d + ("." + f);
    LeadingDigitsOf(d, "." + f);
  }

  /** A number token without a dot is loaded as written. */
  lemma NumberWithoutDot(d: string)
    requires AllDigits(d)
    ensures LiteralInstr(NumberLit(d)) == "ldc " + d
  {
    forall i | 0 <= i < |d|
      ensures d[i] != '.'
    {
      assert IsDigit(d[i]);
    }
  }
}
