/** What the Jasmin generator emits, as pure state-passing functions. The generator's
    state is the list of emitted lines, the label counter (shared by the whole class,
    never reset), the next free local slot and the name-to-slot map of the method being
    generated. The class name, the global variables and the analyzer's function table are
    read but never changed. Every instruction line is indented by four spaces; a label
    line is the label followed by a colon. */
module Jasmin {
  import opened Wrappers
  import opened Strings
  import opened Types
  import opened Ast
  import Semantic

  /** A global variable, in declaration order. */
  datatype Global = Global(name: string, ty: Type)

  /** The inputs the generator only reads. */
  datatype Ctx = Ctx(className: string, globals: seq<Global>, funcs: map<string, Semantic.FuncSymbol>)

  datatype GState = GState(code: seq<string>, labels: nat, index: nat, locals: map<string, nat>)

  /** A fresh generator: no code, no label used yet, slot 0 next, no locals. */
  function Start(): GState {
    GState([], 0, 0, map[])
  }

  /** The lines only grow and the label counter never goes back. */
  predicate Grows(g: GState, r: GState) {
    g.code <= r.code && g.labels <= r.labels
  }

  /** `Grows`, with the slots and the locals untouched: what every expression does. */
  predicate ExprFrame(g: GState, r: GState) {
    Grows(g, r) && r.index == g.index && r.locals == g.locals
  }

  // ---------------------------------------------------------------------------
  // Lines, labels and descriptors
  // ---------------------------------------------------------------------------

  function Indent(ins: string): string {
    "    " + ins
  }

  function Indented(ins: seq<string>): (r: seq<string>)
    ensures |r| == |ins|
  {
    seq(|ins|, i requires 0 <= i < |ins| => Indent(ins[i]))
  }

  /** `emit`: one indented instruction line. */
  function Emit(g: GState, ins: string): GState {
    g.(code := g.code + [Indent(ins)])
  }

  /** Several `emit`s in a row. */
  function EmitAll(g: GState, ins: seq<string>): GState {
    g.(code := g.code + Indented(ins))
  }

  /** `emit_label`: the label line. */
  function EmitLabel(g: GState, name: string): GState {
    g.(code := g.code + [name + ":"])
  }

  function LabelName(k: nat): string {
    "L" + NatToString(k)
  }

  /** `get_new_label`: bump the counter, then name the label after it. */
  function NewLabel(g: GState): (GState, string) {
    (g.(labels := g.labels + 1), LabelName(g.labels + 1))
  }

  /** `get_jvm_type`: the field or parameter descriptor of a type. */
  function JvmType(t: Type): (r: string)
    ensures r in ["I", "Ljava/lang/String;", "V", "Ljava/util/ArrayList;"]
    ensures r == "V" <==> t == Void
    ensures r == "Ljava/lang/String;" <==> t == String
    ensures r == "Ljava/util/ArrayList;" <==> t.Array?
  {
    match t
    case Primitive(n) =>
      if n == "number" then "I"
      else if n == "boolean" then "I"
      else if n == "string" then "Ljava/lang/String;"
      else if n == "void" then "V"
      else "I"
    case Array(_) => "Ljava/util/ArrayList;"
    case Interface(_, _) => "I"
  }

  /** The parameter descriptors, concatenated in order. */
  function ParamDescriptors(ts: seq<Type>): string {
    if ts == [] then "" else ParamDescriptors(ts[..|ts| - 1]) + JvmType(ts[|ts| - 1])
  }

  /** `(params)ret` of a function symbol, used by both the method header and the call. */
  function MethodDescriptor(f: Semantic.FuncSymbol): string {
    "(" + ParamDescriptors(f.paramTypes) + ")" + JvmType(f.returnType)
  }

  /** `name in global_vars` and `global_vars[name].type`; the first entry wins. */
  function FindGlobal(gs: seq<Global>, name: string): Option<Type> {
    if gs == [] then None
    else if gs[0].name == name then Some(gs[0].ty)
    else FindGlobal(gs[1..], name)
  }

  /** A local store is `astore` when the initializer text starts with `array(`. */
  function StoreOp(text: string): string {
    if StartsWith(text, "array(") then "astore " else "istore "
  }

  function StaticRef(c: Ctx, name: string, t: Type): string {
    c.className + "/" + name + " " + JvmType(t)
  }

  /** Expression statements whose text marks them as leaving nothing on the stack. */
  predicate IsVoidCall(text: string) {
    StartsWith(text, "print(") || StartsWith(text, "push(") || Contains(text, ".push(")
  }

  /** An argument text quoted with `"` or `'` on both ends is printed as a string. */
  predicate Quoted(text: string) {
    (StartsWith(text, "\"") && EndsWith(text, "\"")) || (StartsWith(text, "'") && EndsWith(text, "'"))
  }

  predicate HasDot(s: string) {
    exists i :: 0 <= i < |s| && s[i] == '.'
  }

  /** The leading decimal digits of a token. */
  function LeadingDigits(s: string): (r: string)
    ensures r <= s && AllDigits(r)
  {
    if s != [] && IsDigit(s[0]) then [s[0]] + LeadingDigits(s[1..]) else []
  }

  /** `str(int(float(tok)))` for a number token `digits.digits`: its integer part. */
  function IntegerPart(tok: string): string {
    NatToString(DigitsValue(LeadingDigits(tok)))
  }

  // Fixed instruction patterns.
  const ListInit := ["new java/util/ArrayList", "dup", "invokespecial java/util/ArrayList/<init>()V"]
  const UnboxInt := ["checkcast java/lang/Integer", "invokevirtual java/lang/Integer/intValue()I"]
  const ListGet := ["invokevirtual java/util/ArrayList/get(I)Ljava/lang/Object;"] + UnboxInt
  const ListAdd := ["invokestatic java/lang/Integer/valueOf(I)Ljava/lang/Integer;",
                    "invokevirtual java/util/ArrayList/add(Ljava/lang/Object;)Z", "pop"]
  const ListSize := "invokevirtual java/util/ArrayList/size()I"
  /** Removing the last element; the index also goes to slot 99. */
  const ListPop := ["dup", ListSize, "iconst_1", "isub", "dup", "istore 99",
                    "invokevirtual java/util/ArrayList/remove(I)Ljava/lang/Object;"] + UnboxInt
  const ReadInt := ["new java/util/Scanner", "dup", "getstatic java/lang/System/in Ljava/io/InputStream;",
                    "invokespecial java/util/Scanner/<init>(Ljava/io/InputStream;)V",
                    "invokevirtual java/util/Scanner/nextInt()I"]
  const GetOut := "getstatic java/lang/System/out Ljava/io/PrintStream;"
  const PrintlnEmpty := "invokevirtual java/io/PrintStream/println()V"
  const PrintlnString := "invokevirtual java/io/PrintStream/println(Ljava/lang/String;)V"
  const PrintlnInt := "invokevirtual java/io/PrintStream/println(I)V"
  const BuilderInit := ["new java/lang/StringBuilder", "dup", "invokespecial java/lang/StringBuilder/<init>()V"]
  const AppendString := "invokevirtual java/lang/StringBuilder/append(Ljava/lang/String;)Ljava/lang/StringBuilder;"
  const AppendInt := "invokevirtual java/lang/StringBuilder/append(I)Ljava/lang/StringBuilder;"
  const Separator := "ldc \" \""
  const BuilderDone := ["invokevirtual java/lang/StringBuilder/toString()Ljava/lang/String;", PrintlnString]

  // ---------------------------------------------------------------------------
  // Expressions
  // ---------------------------------------------------------------------------

  function GenExpr(c: Ctx, g: GState, e: Expr): (r: GState)
    ensures ExprFrame(g, r)
    decreases e, 3
  {
    match e
    case Assign(_, _, _) => GenAssign(c, g, e)
    case Binary(_, _, _, _) => GenBinary(c, g, e)
    // No visitor for unary expressions: the generic child walk emits the operand only.
    case Unary(_, operand, _) => GenExpr(c, g, operand)
    case Postfix(_, _, _) => GenPostfix(c, g, e)
  }

  /** `visitAssignmentExpr` with `=`: the value, then `dup` and a store into the local slot
      or the static field named by the target's text; an unknown target stores nothing. */
  function GenAssign(c: Ctx, g: GState, e: Expr): (r: GState)
    requires e.Assign?
    ensures ExprFrame(g, r)
    decreases e, 2
  {
    var g1 := GenExpr(c, g, e.value);
    var name := e.target.text;
    if name in g1.locals then EmitAll(g1, ["dup", "istore " + NatToString(g1.locals[name])])
    else
      var gt := FindGlobal(c.globals, name);
      if gt.Some? then EmitAll(g1, ["dup", "putstatic " + StaticRef(c, name, gt.value)])
      else g1
  }

  /** The opcode after each further operand of an additive or multiplicative chain. */
  function ArithOpcode(level: Level, op: BinOp): Option<string> {
    match level
    case Additive => if op == AddOp then Some("iadd") else if op == SubOp then Some("isub") else None
    case Multiplicative =>
      if op == MulOp then Some("imul") else if op == DivOp then Some("idiv")
      else if op == ModOp then Some("irem") else None
    case _ => None
  }

  /** The conditional jump of a comparison. */
  function CompareJump(level: Level, op: BinOp): Option<string> {
    match level
    case Relational =>
      if op == LtOp then Some("if_icmplt") else if op == GtOp then Some("if_icmpgt")
      else if op == LeOp then Some("if_icmple") else if op == GeOp then Some("if_icmpge") else None
    case Equality => if op == EqOp then Some("if_icmpeq") else if op == NeOp then Some("if_icmpne") else None
    case _ => None
  }

  predicate IsComparison(level: Level) {
    level == Relational || level == Equality
  }

  /** A comparison with a right operand goes to `GenCompare`; every other chain emits its
      operands left to right, each further one followed by its opcode, if any (logical
      operators have none). */
  function GenBinary(c: Ctx, g: GState, e: Expr): (r: GState)
    requires e.Binary?
    ensures ExprFrame(g, r)
    decreases e, 2
  {
    if IsComparison(e.level) && |e.rest| > 0 then GenCompare(c, g, e)
    else GenChain(c, GenExpr(c, g, e.first), e, 0)
  }

  function GenChain(c: Ctx, g: GState, e: Expr, i: nat): (r: GState)
    requires e.Binary?
    ensures ExprFrame(g, r)
    decreases e, 0, |e.rest| - i
  {
    if i >= |e.rest| then g
    else
      var g1 := GenExpr(c, g, e.rest[i].arg);
      var op := ArithOpcode(e.level, e.rest[i].op);
      GenChain(c, if op.Some? then Emit(g1, op.value) else g1, e, i + 1)
  }

  /** `visitRelationalExpr` / `visitEqualityExpr` with two operands: both operands (further
      ones are ignored), then a jump to a true label over `iconst_0`, and `iconst_1`. */
  function GenCompare(c: Ctx, g: GState, e: Expr): (r: GState)
    requires e.Binary? && |e.rest| > 0
    ensures ExprFrame(g, r)
    decreases e, 1
  {
    var g1 := GenExpr(c, g, e.first);
    var g2 := GenExpr(c, g1, e.rest[0].arg);
    var (g3, t) := NewLabel(g2);
    var (g4, end) := NewLabel(g3);
    var jump := CompareJump(e.level, e.rest[0].op);
    var g5 := if jump.Some? then Emit(g4, jump.value + " " + t) else g4;
    var g6 := EmitAll(g5, ["iconst_0", "goto " + end]);
    EmitLabel(Emit(EmitLabel(g6, t), "iconst_1"), end)
  }

  /** `visitPostfixExpr`: the primary, then the suffixes. */
  function GenPostfix(c: Ctx, g: GState, e: Expr): (r: GState)
    requires e.Postfix?
    ensures ExprFrame(g, r)
    decreases e, 2
  {
    GenOps(c, GenPrimary(c, g, e.primary), e, 0)
  }

  /** The suffixes from the `i`-th on. `.push(x)`, `.pop()` and `.size()` consume the call
      after the member; a call applies to the primary's name, whatever came before it;
      anything else emits nothing. */
  function GenOps(c: Ctx, g: GState, e: Expr, i: nat): (r: GState)
    requires e.Postfix?
    ensures ExprFrame(g, r)
    decreases e, 1, |e.ops| - i
  {
    if i >= |e.ops| then g
    else match e.ops[i]
      case Index(x) => GenOps(c, EmitAll(GenExpr(c, g, x), ListGet), e, i + 1)
      case Member(m) =>
        if i + 1 < |e.ops| && e.ops[i + 1].Call? && m in {"push", "pop", "size"} then
          var args := e.ops[i + 1].args;
          var g1 :=
            if m == "push" then (if |args| >= 1 then EmitAll(GenExpr(c, g, args[0]), ListAdd) else g)
            else if m == "pop" then EmitAll(g, ListPop)
            else Emit(g, ListSize);
          GenOps(c, g1, e, i + 2)
        else GenOps(c, g, e, i + 1)
      case Call(args) =>
        var g1 := if e.primary.Ident? then GenCall(c, g, e.primary.name, args) else g;
        GenOps(c, g1, e, i + 1)
  }

  /** A call of the name `f`: the intrinsics, then a function of the table. */
  function GenCall(c: Ctx, g: GState, f: string, args: seq<Expr>): (r: GState)
    ensures ExprFrame(g, r)
    decreases args, 2
  {
    if f == "print" then GenPrint(c, g, args)
    else if f == "array" then EmitAll(g, ListInit)
    else if f == "read" then EmitAll(g, ReadInt)
    else if f == "push" then
      if |args| >= 2 then EmitAll(GenExpr(c, GenExpr(c, g, args[0]), args[1]), ListAdd) else g
    else if f == "pop" then
      if |args| >= 1 then EmitAll(GenExpr(c, g, args[0]), ListPop) else g
    else if f == "size" then
      if |args| >= 1 then Emit(GenExpr(c, g, args[0]), ListSize) else g
    else if f in c.funcs then
      Emit(GenArgs(c, g, args, 0), "invokestatic " + c.className + "/" + f + MethodDescriptor(c.funcs[f]))
    else g
  }

  /** The arguments from the `k`-th on, left to right. */
  function GenArgs(c: Ctx, g: GState, args: seq<Expr>, k: nat): (r: GState)
    ensures ExprFrame(g, r)
    decreases args, 0, |args| - k
  {
    if k >= |args| then g else GenArgs(c, GenExpr(c, g, args[k]), args, k + 1)
  }

  /** `print`: no argument prints an empty line, one argument is printed as a string or an
      int by its text, several are joined with spaces in a `StringBuilder`. */
  function GenPrint(c: Ctx, g: GState, args: seq<Expr>): (r: GState)
    ensures ExprFrame(g, r)
    decreases args, 1
  {
    var g1 := Emit(g, GetOut);
    if |args| == 0 then Emit(g1, PrintlnEmpty)
    else if |args| == 1 then
      Emit(GenExpr(c, g1, args[0]), if Quoted(args[0].text) then PrintlnString else PrintlnInt)
    else EmitAll(GenPrintArgs(c, EmitAll(g1, BuilderInit), args, 0), BuilderDone)
  }

  /** The appends from the `k`-th argument on; every argument after the first is preceded by
      a `" "` separator. */
  function GenPrintArgs(c: Ctx, g: GState, args: seq<Expr>, k: nat): (r: GState)
    ensures ExprFrame(g, r)
    decreases args, 0, |args| - k
  {
    if k >= |args| then g
    else
      var g1 := if k > 0 then EmitAll(g, [Separator, AppendString]) else g;
      var g2 := GenExpr(c, g1, args[k]);
      GenPrintArgs(c, Emit(g2, if Quoted(args[k].text) then AppendString else AppendInt), args, k + 1)
  }

  /** `visitPrimary`: literals, a new empty list for any array literal (its elements are not
      generated), a load of a local or a static, a parenthesized expression; object literals
      and unknown names emit nothing. */
  function GenPrimary(c: Ctx, g: GState, p: Primary): (r: GState)
    ensures ExprFrame(g, r)
    decreases p, 1
  {
    match p
    case Lit(l) => Emit(g, LiteralInstr(l))
    case ArrayLit(_) => EmitAll(g, ListInit)
    case Ident(x) =>
      if x in g.locals then Emit(g, "iload " + NatToString(g.locals[x]))
      else
        var gt := FindGlobal(c.globals, x);
        if gt.Some? then Emit(g, "getstatic " + StaticRef(c, x, gt.value)) else g
    case Paren(inner) => GenExpr(c, g, inner)
    case ObjectLit(_) => g
  }

  /** `visitLiteral`: a number token with a dot is cut to its integer part. */
  function LiteralInstr(l: Literal): string {
    match l
    case NumberLit(tok) => "ldc " + (if HasDot(tok) then IntegerPart(tok) else tok)
    case BooleanLit(v) => if v then "iconst_1" else "iconst_0"
    case StringLit(tok) => "ldc " + tok
  }

  // ---------------------------------------------------------------------------
  // Statements
  // ---------------------------------------------------------------------------

  function GenStmt(c: Ctx, g: GState, s: Stmt): (r: GState)
    ensures Grows(g, r)
    decreases s, 1
  {
    match s
    case VarDecl(_, _, _, _) => GenVarDecl(c, g, s)
    case FunctionDecl(_, _, _, _) => GenFunction(c, g, s)
    case InterfaceDecl(_, _) => g
    case Return(v) => if v.Some? then Emit(GenExpr(c, g, v.value), "ireturn") else Emit(g, "return")
    case If(_, _, _) => GenIf(c, g, s)
    case While(_, _) => GenWhile(c, g, s)
    case For(_, _, _, _) => GenFor(c, g, s)
    case ExprStmt(x) => GenExprStmt(c, g, x)
    case Block(ss) => GenStmts(c, g, ss)
  }

  function GenStmts(c: Ctx, g: GState, ss: seq<Stmt>): (r: GState)
    ensures Grows(g, r)
    decreases ss
  {
    if ss == [] then g else GenStmts(c, GenStmt(c, g, ss[0]), ss[1..])
  }

  /** `_visitVarDecl_common`: only a declaration with an initializer emits code: the value,
      then a store into the name's slot, its static field, or a new slot. */
  function GenVarDecl(c: Ctx, g: GState, s: Stmt): (r: GState)
    requires s.VarDecl?
    ensures Grows(g, r)
    decreases s, 0
  {
    if s.initializer.None? then g
    else
      var init := s.initializer.value;
      var g1 := GenExpr(c, g, init);
      var store := StoreOp(init.text);
      if s.name in g1.locals then Emit(g1, store + NatToString(g1.locals[s.name]))
      else
        var gt := FindGlobal(c.globals, s.name);
        if gt.Some? then Emit(g1, "putstatic " + StaticRef(c, s.name, gt.value))
        else
          var g2 := g1.(locals := g1.locals[s.name := g1.index], index := g1.index + 1);
          Emit(g2, store + NatToString(g1.index))
  }

  /** `visitExpressionStmt`: the value left by the expression is popped unless the text
      looks like a call that returns nothing. */
  function GenExprStmt(c: Ctx, g: GState, x: Expr): (r: GState)
    ensures Grows(g, r)
    decreases x, 4
  {
    var g1 := GenExpr(c, g, x);
    if IsVoidCall(x.text) then g1 else Emit(g1, "pop")
  }

  /** `visitIfStmt`: both labels are taken first. */
  function GenIf(c: Ctx, g: GState, s: Stmt): (r: GState)
    requires s.If?
    ensures Grows(g, r)
    decreases s, 0
  {
    var (g1, elseLabel) := NewLabel(g);
    var (g2, endLabel) := NewLabel(g1);
    var g3 := Emit(GenExpr(c, g2, s.cond), "ifeq " + elseLabel);
    var g4 := EmitLabel(Emit(GenStmt(c, g3, s.thenBranch), "goto " + endLabel), elseLabel);
    var g5 := if s.elseBranch.Some? then GenStmt(c, g4, s.elseBranch.value) else g4;
    EmitLabel(g5, endLabel)
  }

  function GenWhile(c: Ctx, g: GState, s: Stmt): (r: GState)
    requires s.While?
    ensures Grows(g, r)
    decreases s, 0
  {
    var (g1, startLabel) := NewLabel(g);
    var (g2, endLabel) := NewLabel(g1);
    var g3 := Emit(GenExpr(c, EmitLabel(g2, startLabel), s.cond), "ifeq " + endLabel);
    EmitLabel(Emit(GenStmt(c, g3, s.body), "goto " + startLabel), endLabel)
  }

  /** `visitForStmt`. The source takes the optional test and update as one list of
      expressions, the first tested and the second popped after the body; so when the test
      is missing, the update is tested before the body and never run after it. */
  function GenFor(c: Ctx, g: GState, s: Stmt): (r: GState)
    requires s.For?
    ensures Grows(g, r)
    decreases s, 0
  {
    var (g1, startLabel) := NewLabel(g);
    var (g2, endLabel) := NewLabel(g1);
    var g3 := EmitLabel(if s.init.Some? then GenStmt(c, g2, s.init.value) else g2, startLabel);
    var g4 :=
      if s.test.Some? then Emit(GenExpr(c, g3, s.test.value), "ifeq " + endLabel)
      else if s.update.Some? then Emit(GenExpr(c, g3, s.update.value), "ifeq " + endLabel)
      else g3;
    var g5 := GenStmt(c, g4, s.body);
    var g6 := if s.test.Some? && s.update.Some? then Emit(GenExpr(c, g5, s.update.value), "pop") else g5;
    EmitLabel(Emit(g6, "goto " + startLabel), endLabel)
  }

  // ---------------------------------------------------------------------------
  // Methods and the class
  // ---------------------------------------------------------------------------

  /** The parameters take the next slots in order (a repeated name keeps the later slot). */
  function BindSlots(g: GState, ps: seq<Param>): (r: GState)
    ensures r.code == g.code && r.labels == g.labels && r.index == g.index + |ps|
    decreases ps
  {
    if ps == [] then g
    else BindSlots(g.(locals := g.locals[ps[0].name := g.index], index := g.index + 1), ps[1..])
  }

  function MethodHeader(name: string, desc: string): seq<string> {
    [".method public static " + name + desc, Indent(".limit stack 200"), Indent(".limit locals 200")]
  }

  /** `visitFunctionDecl`: nothing for a name missing from the function table; otherwise
      the header, the parameters in slots from 0, the body, a `return` when the method
      returns `V`, and the end of the method. */
  function GenFunction(c: Ctx, g: GState, s: Stmt): (r: GState)
    requires s.FunctionDecl?
    ensures Grows(g, r)
    decreases s, 0
  {
    if s.name !in c.funcs then g
    else
      var g1 := FunctionEntry(c, g, s);
      var g2 := GenStmts(c, g1, s.block);
      FunctionExit(g2, JvmType(c.funcs[s.name].returnType))
  }

  /** The header, with the slots reset and the parameters bound. */
  function FunctionEntry(c: Ctx, g: GState, s: Stmt): (r: GState)
    requires s.FunctionDecl? && s.name in c.funcs
    ensures Grows(g, r)
  {
    var header := MethodHeader(s.name, MethodDescriptor(c.funcs[s.name]));
    BindSlots(g.(code := g.code + header, locals := map[], index := 0), s.params)
  }

  /** The closing lines of a function method: a `return` exactly when the method returns
      `V`, then the end of the method and an empty line. */
  function FunctionExit(g: GState, ret: string): (r: GState)
    ensures r.code == g.code + (if ret == "V" then [Indent("return")] else []) + [".end method", ""]
    ensures r.labels == g.labels && r.index == g.index && r.locals == g.locals
  {
    var g1 := if ret == "V" then Emit(g, "return") else g;
    g1.(code := g1.code + [".end method", ""])
  }

  function FieldLines(gs: seq<Global>): (r: seq<string>)
    ensures |r| == |gs|
  {
    seq(|gs|, i requires 0 <= i < |gs| => ".field public static " + gs[i].name + " " + JvmType(gs[i].ty))
  }

  const ClinitLines := [".method public static <clinit>()V", Indent(".limit stack 200"), Indent(".limit locals 200"),
                        Indent("return"), ".end method", ""]
  const InitLines := [".method public <init>()V", Indent("aload_0"), Indent("invokespecial java/lang/Object/<init>()V"),
                      Indent("return"), ".end method", ""]

  /** The class declaration, its superclass and an empty line. */
  function ClassHeader(c: Ctx): seq<string> {
    [".class public " + c.className, ".super java/lang/Object", ""]
  }

  /** What follows the fields' empty line: the placeholder static initializer when there
      are globals, then the constructor. */
  function PrologueTail(c: Ctx): (t: seq<string>)
    ensures |t| > 1
  {
    (if c.globals != [] then ClinitLines else []) + InitLines
  }

  /** The class header, the static fields, the placeholder static initializer when there are
      globals, and the constructor. */
  function Prologue(c: Ctx): seq<string> {
    ClassHeader(c) + FieldLines(c.globals) + [""] + PrologueTail(c)
  }

  /** The top-level function declarations, in order. */
  function GenFunctions(c: Ctx, g: GState, prog: seq<Stmt>): (r: GState)
    ensures Grows(g, r)
    decreases prog
  {
    if prog == [] then g
    else GenFunctions(c, if prog[0].FunctionDecl? then GenFunction(c, g, prog[0]) else g, prog[1..])
  }

  /** The other top-level statements, interface declarations excepted, in order. */
  function GenMain(c: Ctx, g: GState, prog: seq<Stmt>): (r: GState)
    ensures Grows(g, r)
    decreases prog
  {
    if prog == [] then g
    else
      var skip := prog[0].FunctionDecl? || prog[0].InterfaceDecl?;
      GenMain(c, if skip then g else GenStmt(c, g, prog[0]), prog[1..])
  }

  const MainHeader := MethodHeader("main", "([Ljava/lang/String;)V")

  /** `visitProgram`. `main` starts its slots at 1 (slot 0 holds its argument). */
  function GenProgram(c: Ctx, g: GState, prog: seq<Stmt>): (r: GState)
    ensures Grows(g, r)
  {
    var g1 := GenFunctions(c, g.(code := g.code + Prologue(c)), prog);
    var g2 := GenMain(c, g1.(code := g1.code + MainHeader, locals := map[], index := 1), prog);
    var g3 := Emit(g2, "return");
    g3.(code := g3.code + [".end method"])
  }

  /** The lines of a class generated by a fresh generator. */
  function Generate(c: Ctx, prog: seq<Stmt>): seq<string> {
    GenProgram(c, Start(), prog).code
  }
}
