/** The order in which the generator lays out what it emits: function methods, `while`
    loops, arithmetic chains and the class as a whole. */
module JasminLayout {
  import opened Wrappers
  import opened Strings
  import opened Types
  import opened Ast
  import Semantic
  import opened Jasmin
  import opened JasminLabels
  import opened JasminSlots

  // ---------------------------------------------------------------------------
  // Function methods
  // ---------------------------------------------------------------------------

  /** A function method is its header, then its body from slot 0 on, then a `return` only
      when it returns `V`, the end of the method and an empty line. A function missing
      from the table emits nothing. */
  lemma FunctionLayout(c: Ctx, g: GState, s: Stmt)
    requires s.FunctionDecl?
    ensures s.name !in c.funcs ==> GenFunction(c, g, s) == g
    ensures s.name in c.funcs ==>
      var header := MethodHeader(s.name, MethodDescriptor(c.funcs[s.name]));
      var entry := FunctionEntry(c, g, s);
      var body := GenStmts(c, entry, s.block);
      var ret := JvmType(c.funcs[s.name].returnType);
      entry.code == g.code + header && entry.index == |s.params| &&
      GenFunction(c, g, s).code ==
        body.code + (if ret == "V" then [Indent("return")] else []) + [".end method", ""] &&
      (ret == "V" <==> c.funcs[s.name].returnType == Void)
  {
    if s.name in c.funcs {
      FunctionParamSlots(c, g, s);
      var header := MethodHeader(s.name, MethodDescriptor(c.funcs[s.name]));
      assert BindSlots(g.(code := g.code + header, locals := map[], index := 0), s.params).code == g.code + header;
    }
  }

  /** Every function method ends with the end of the method and an empty line, right after
      a `return` when it returns `void`. */
  lemma FunctionEnds(c: Ctx, g: GState, s: Stmt)
    requires s.FunctionDecl? && s.name in c.funcs
    ensures var r := GenFunction(c, g, s).code;
      |r| >= |g.code| + 5 && r[|r| - 2..] == [".end method", ""] &&
      (c.funcs[s.name].returnType == Void ==> r[|r| - 3] == Indent("return"))
  {
    FunctionLayout(c, g, s);
    var entry := FunctionEntry(c, g, s);
    var body := GenStmts(c, entry, s.block);
    assert |body.code| >= |entry.code| == |g.code| + 3;
  }

  // ---------------------------------------------------------------------------
  // while
  // ---------------------------------------------------------------------------

  /** A `while` loop takes two new labels, start and end: the start label line, the
      condition, a jump to the end when it is false, the body, a jump back to the start and
      the end label line, in that order. */
  lemma WhileLayout(c: Ctx, g: GState, s: Stmt)
    requires s.While?
    ensures var start := LabelName(g.labels + 1);
      var end := LabelName(g.labels + 2);
      var cond := GenExpr(c, EmitLabel(g.(labels := g.labels + 2), start), s.cond);
      var body := GenStmt(c, Emit(cond, "ifeq " + end), s.body);
      var r := GenWhile(c, g, s);
      start != end &&
      g.code + [start + ":"] <= cond.code &&
      cond.code + [Indent("ifeq " + end)] <= body.code &&
      r.code == body.code + [Indent("goto " + start), end + ":"] &&
      r.labels == body.labels
  {
    LabelNamesDistinct(g.labels + 1, g.labels + 2);
    var start, end := LabelName(g.labels + 1), LabelName(g.labels + 2);
    var g1 := g.(labels := g.labels + 1);
    assert NewLabel(g) == (g1, start);
    assert NewLabel(g1) == (g.(labels := g.labels + 2), end);
    var g2 := EmitLabel(g.(labels := g.labels + 2), start);
    var cond := GenExpr(c, g2, s.cond);
    assert Grows(g2, cond);
    var body := GenStmt(c, Emit(cond, "ifeq " + end), s.body);
    assert Grows(Emit(cond, "ifeq " + end), body);
  }

  /** The loop's first line defines its start label and its last line its end label; the
      line before the last jumps back to the start. */
  lemma WhileEnds(c: Ctx, g: GState, s: Stmt)
    requires s.While?
    ensures var r := GenWhile(c, g, s).code;
      |r| >= |g.code| + 4 &&
      r[|g.code|] == LabelName(g.labels + 1) + ":" &&
      r[|r| - 2] == Indent("goto " + LabelName(g.labels + 1)) &&
      r[|r| - 1] == LabelName(g.labels + 2) + ":"
  {
    WhileLayout(c, g, s);
    var start := LabelName(g.labels + 1);
    var cond := GenExpr(c, EmitLabel(g.(labels := g.labels + 2), start), s.cond);
    assert cond.code[|g.code|] == (g.code + [start + ":"])[|g.code|];
  }

  // ---------------------------------------------------------------------------
  // Arithmetic and logical chains
  // ---------------------------------------------------------------------------

  /** An expression with no operator is generated as its operand alone. */
  lemma BinaryPassThrough(c: Ctx, g: GState, e: Expr)
    requires e.Binary? && |e.rest| == 0
    ensures GenExpr(c, g, e) == GenExpr(c, g, e.first)
  {
    assert GenExpr(c, g, e) == GenBinary(c, g, e) == GenChain(c, GenExpr(c, g, e.first), e, 0);
  }

  /** The opcodes of arithmetic: `+` `-` `*` `/` `%` map to `iadd` `isub` `imul` `idiv`
      `irem`, and no other operator of any level has one. */
  lemma ArithOpcodes(level: Level, op: BinOp)
    ensures ArithOpcode(level, op).Some? <==>
      (level == Additive && (op == AddOp || op == SubOp)) ||
      (level == Multiplicative && (op == MulOp || op == DivOp || op == ModOp))
    ensures ArithOpcode(level, op) == Some("iadd") <==> level == Additive && op == AddOp
    ensures ArithOpcode(level, op) == Some("isub") <==> level == Additive && op == SubOp
    ensures ArithOpcode(level, op) == Some("imul") <==> level == Multiplicative && op == MulOp
    ensures ArithOpcode(level, op) == Some("idiv") <==> level == Multiplicative && op == DivOp
    ensures ArithOpcode(level, op) == Some("irem") <==> level == Multiplicative && op == ModOp
  {
  }

  /** In a chain that is not a comparison, the left operand comes first, and every further
      operand is generated after all that precedes it and is directly followed by its
      operator's opcode, when it has one. */
  lemma ChainOrder(c: Ctx, g: GState, e: Expr, i: nat)
    requires e.Binary? && i < |e.rest|
    ensures var g1 := GenExpr(c, g, e.rest[i].arg);
      var op := ArithOpcode(e.level, e.rest[i].op);
      var r := GenChain(c, g, e, i);
      g.code <= g1.code &&
      (op.Some? ==> g1.code + [Indent(op.value)] <= r.code) &&
      (op.None? ==> g1.code <= r.code) &&
      r == GenChain(c, if op.Some? then Emit(g1, op.value) else g1, e, i + 1)
  {
  }

  /** An arithmetic expression with operators is its left operand's code, then the code of
      the rest, and its last line is the opcode of its last operator. */
  lemma ArithmeticLayout(c: Ctx, g: GState, e: Expr)
    requires e.Binary? && (e.level == Additive || e.level == Multiplicative) && |e.rest| > 0
    requires ArithOpcode(e.level, e.rest[|e.rest| - 1].op).Some?
    ensures var r := GenExpr(c, g, e).code;
      GenExpr(c, g, e.first).code <= r && |r| > 0 &&
      r[|r| - 1] == Indent(ArithOpcode(e.level, e.rest[|e.rest| - 1].op).value)
  {
    var g1 := GenExpr(c, g, e.first);
    ChainLast(c, g1, e, 0);
    assert !IsComparison(e.level);
    assert GenBinary(c, g, e) == GenChain(c, g1, e, 0);
    assert GenExpr(c, g, e) == GenBinary(c, g, e);
  }

  /** The last line of a chain from its `i`-th operator on is the last operator's opcode. */
  lemma {:induction false} ChainLast(c: Ctx, g: GState, e: Expr, i: nat)
    requires e.Binary? && i < |e.rest| && ArithOpcode(e.level, e.rest[|e.rest| - 1].op).Some?
    ensures var r := GenChain(c, g, e, i).code;
      |r| > 0 && r[|r| - 1] == Indent(ArithOpcode(e.level, e.rest[|e.rest| - 1].op).value)
    decreases |e.rest| - i
  {
    var g1 := GenExpr(c, g, e.rest[i].arg);
    var op := ArithOpcode(e.level, e.rest[i].op);
    var g2 := if op.Some? then Emit(g1, op.value) else g1;
    if i + 1 < |e.rest| {
      ChainLast(c, g2, e, i + 1);
    } else {
      assert GenChain(c, g2, e, i + 1) == g2;
    }
  }

  /** A chain of `&&` or `||` emits only its operands, in order: no instruction of its
      own. */
  lemma {:induction false} LogicalChain(c: Ctx, g: GState, e: Expr, i: nat)
    requires e.Binary? && (e.level == LogicalAnd || e.level == LogicalOr) && i <= |e.rest|
    ensures GenChain(c, g, e, i) == GenOperands(c, g, e, i)
    decreases |e.rest| - i
  {
    if i < |e.rest| {
      LogicalChain(c, GenExpr(c, g, e.rest[i].arg), e, i + 1);
    }
  }

  /** The operands of a chain from the `i`-th on, each generated after the previous one. */
  function GenOperands(c: Ctx, g: GState, e: Expr, i: nat): GState
    requires e.Binary?
    decreases |e.rest| - i
  {
    if i >= |e.rest| then g else GenOperands(c, GenExpr(c, g, e.rest[i].arg), e, i + 1)
  }

  // ---------------------------------------------------------------------------
  // The class
  // ---------------------------------------------------------------------------

  /** The prologue ends with the constructor, preceded by the placeholder static
      initializer exactly when there are globals. */
  lemma PrologueEnds(c: Ctx)
    ensures var p := Prologue(c);
      var n := 4 + |c.globals|;
      |p| == n + |PrologueTail(c)| && p[n..] == PrologueTail(c) &&
      p[|p| - 6..] == InitLines &&
      (c.globals != [] ==> |p| == n + 12 && p[n..n + 6] == ClinitLines) &&
      (c.globals == [] ==> |p| == n + 6)
  {
    TailAfter(ClassHeader(c), FieldLines(c.globals), PrologueTail(c));
    TailOf(c.globals != [], ClinitLines, InitLines, PrologueTail(c));
  }

  lemma TailAfter(h: seq<string>, f: seq<string>, t: seq<string>)
    requires |h| == 3
    ensures var p := h + f + [""] + t; |p| == 4 + |f| + |t| && p[4 + |f|..] == t
  {
  }

  lemma TailOf(some: bool, cl: seq<string>, init: seq<string>, t: seq<string>)
    requires |cl| == 6 && |init| == 6 && t == (if some then cl else []) + init
    ensures t[|t| - 6..] == init && (some ==> |t| == 12 && t[..6] == cl) && (!some ==> |t| == 6)
  {
  }

  /** The class is the prologue, then the function methods in the order of their
      declarations, then `main`, whose locals start empty at slot 1 (slot 0 holds its
      argument), and finally `main`'s `return` and end. */
  lemma ProgramLayout(c: Ctx, g: GState, prog: seq<Stmt>)
    ensures var pro := g.(code := g.code + Prologue(c));
      var fs := GenFunctions(c, pro, prog);
      var m0 := fs.(code := fs.code + MainHeader, locals := map[], index := 1);
      var r := GenProgram(c, g, prog);
      pro.code <= fs.code &&
      m0.index == 1 && m0.locals == map[] && SlotsOk(m0) &&
      r.code == GenMain(c, m0, prog).code + [Indent("return"), ".end method"] &&
      fs.code + MainHeader <= r.code
  {
  }

  /** Each declared function's method is generated before `main`: its header line lies
      between the prologue and `main`'s header. */
  lemma FunctionsBeforeMain(c: Ctx, g: GState, prog: seq<Stmt>, k: nat)
    requires k < |prog| && prog[k].FunctionDecl? && prog[k].name in c.funcs
    ensures var pro := g.(code := g.code + Prologue(c));
      var fs := GenFunctions(c, pro, prog);
      var r := GenProgram(c, g, prog).code;
      ".method public static " + prog[k].name + MethodDescriptor(c.funcs[prog[k].name]) in fs.code[|pro.code|..] &&
      r[..|fs.code|] == fs.code && r[|fs.code|] == MainHeader[0]
  {
    var pro := g.(code := g.code + Prologue(c));
    var fs := GenFunctions(c, pro, prog);
    HeaderIn(c, pro, prog, k);
    ProgramLayout(c, g, prog);
    var r := GenProgram(c, g, prog).code;
    assert r[|fs.code|] == (fs.code + MainHeader)[|fs.code|];
  }

  /** The header of the `k`-th declaration's method is among the lines the function
      declarations add. */
  lemma {:induction false} HeaderIn(c: Ctx, g: GState, prog: seq<Stmt>, k: nat)
    requires k < |prog| && prog[k].FunctionDecl? && prog[k].name in c.funcs
    ensures ".method public static " + prog[k].name + MethodDescriptor(c.funcs[prog[k].name]) in
      GenFunctions(c, g, prog).code[|g.code|..]
    decreases prog
  {
    var h := if prog[0].FunctionDecl? then GenFunction(c, g, prog[0]) else g;
    var r := GenFunctions(c, g, prog);
    assert r == GenFunctions(c, h, prog[1..]);
    assert g.code <= h.code && h.code <= r.code;
    if k == 0 {
      var s := prog[0];
      FunctionLayout(c, g, s);
      var header := MethodHeader(s.name, MethodDescriptor(c.funcs[s.name]));
      assert h.code[|g.code|] == header[0];
      assert r.code[|g.code|..][0] == h.code[|g.code|];
    } else {
      HeaderIn(c, h, prog[1..], k - 1);
      var line := ".method public static " + prog[k].name + MethodDescriptor(c.funcs[prog[k].name]);
      var j :| |h.code| <= j < |r.code| && r.code[j] == line;
      assert r.code[|g.code|..][j - |g.code|] == line;
    }
  }

  /** Because `main` starts at slot 1, a program whose first statement declares a new,
      non-global variable with an initializer stores it into slot 1. */
  lemma MainFirstLocal(c: Ctx, g: GState, prog: seq<Stmt>)
    requires |prog| > 0 && prog[0].VarDecl? && prog[0].initializer.Some?
    requires FindGlobal(c.globals, prog[0].name).None?
    ensures Indent(StoreOp(prog[0].initializer.value.text) + "1") in GenProgram(c, g, prog).code
  {
    var pro := g.(code := g.code + Prologue(c));
    var fs := GenFunctions(c, pro, prog);
    var m0 := fs.(code := fs.code + MainHeader, locals := map[], index := 1);
    ProgramLayout(c, g, prog);
    var s := prog[0];
    VarDeclSlot(c, m0, s);
    var d := GenStmt(c, m0, s);
    assert d == GenVarDecl(c, m0, s);
    var line := Indent(StoreOp(s.initializer.value.text) + NatToString(1));
    assert NatToString(1) == "1";
    assert line in d.code;
    assert GenMain(c, m0, prog) == GenMain(c, d, prog[1..]);
    assert d.code <= GenMain(c, m0, prog).code;
  }

  /** Where `main`'s header starts in a generated class: after the prologue and the
      function methods. */
  function MainStart(c: Ctx, prog: seq<Stmt>): nat {
    |GenFunctions(c, Start().(code := Prologue(c)), prog).code|
  }

  /** `out` is the prologue, ending with the constructor; then every declared function's
      method; then `main`'s header. */
  predicate ClassOrdered(c: Ctx, prog: seq<Stmt>, out: seq<string>) {
    var p := |Prologue(c)|;
    var m := MainStart(c, prog);
    6 <= p <= m && m + 3 <= |out| &&
    out[..p] == Prologue(c) && out[p - 6..p] == InitLines && out[m..m + 3] == MainHeader &&
    (forall k :: 0 <= k < |prog| && prog[k].FunctionDecl? && prog[k].name in c.funcs ==>
      ".method public static " + prog[k].name + MethodDescriptor(c.funcs[prog[k].name]) in out[p..m])
  }

  /** A generated class is laid out in that order. */
  lemma ClassOrder(c: Ctx, prog: seq<Stmt>)
    ensures ClassOrdered(c, prog, Generate(c, prog))
  {
    var g := Start();
    var pro := g.(code := g.code + Prologue(c));
    assert pro == Start().(code := Prologue(c)) by {
      assert g.code + Prologue(c) == Prologue(c);
    }
    var fs := GenFunctions(c, pro, prog);
    var out := Generate(c, prog);
    var p := |Prologue(c)|;
    var m := |fs.code|;
    ProgramLayout(c, g, prog);
    PrologueEnds(c);
    assert out[..m] == fs.code;
    assert out[..p] == fs.code[..p] == Prologue(c);
    assert out[p - 6..p] == Prologue(c)[p - 6..];
    assert out[m..m + 3] == MainHeader by {
      assert (fs.code + MainHeader)[m..m + 3] == MainHeader;
    }
    forall k | 0 <= k < |prog| && prog[k].FunctionDecl? && prog[k].name in c.funcs
      ensures ".method public static " + prog[k].name + MethodDescriptor(c.funcs[prog[k].name]) in out[p..m]
    {
      HeaderIn(c, pro, prog, k);
      assert out[p..m] == fs.code[p..];
    }
  }
}
