/** Local variable slots. A method's locals map names to JVM slots; the generator hands out
    the next free slot for each new local and never gives two live names the same slot.
    Parameters take slots 0 .. n-1 in order; `main` starts at 1. */
module JasminSlots {
  import opened Wrappers
  import opened Strings
  import opened Ast
  import opened Jasmin

  /** Every slot in use is below the next free one, and no two names share a slot. */
  predicate SlotsOk(g: GState) {
    (forall x :: x in g.locals ==> g.locals[x] < g.index) &&
    (forall x, y :: x in g.locals && y in g.locals && x != y ==> g.locals[x] != g.locals[y])
  }

  lemma SlotsKept(g: GState, r: GState)
    requires SlotsOk(g) && r.locals == g.locals && r.index == g.index
    ensures SlotsOk(r)
  {
  }

  /** The names of the parameters. */
  function Names(ps: seq<Param>): set<string> {
    set i | 0 <= i < |ps| :: ps[i].name
  }

  /** `ps[i]` is the last parameter with its name. */
  predicate LastOf(ps: seq<Param>, i: nat)
    requires i < |ps|
  {
    forall j :: i < j < |ps| ==> ps[j].name != ps[i].name
  }

  lemma NamesCons(ps: seq<Param>)
    requires ps != []
    ensures Names(ps) == {ps[0].name} + Names(ps[1..])
  {
    forall x | x in Names(ps) ensures x in {ps[0].name} + Names(ps[1..]) {
      var i :| 0 <= i < |ps| && ps[i].name == x;
      if i > 0 {
        assert ps[1..][i - 1] == ps[i];
      }
    }
    forall x | x in Names(ps[1..]) ensures x in Names(ps) {
      var i :| 0 <= i < |ps[1..]| && ps[1..][i].name == x;
      assert ps[i + 1].name == x;
    }
  }

  /** Binding parameters leaves every other name as it was and adds the parameters' names. */
  lemma {:induction false} BindSlotsOthers(g: GState, ps: seq<Param>)
    ensures var r := BindSlots(g, ps);
      r.locals.Keys == g.locals.Keys + Names(ps) &&
      (forall x :: x !in Names(ps) && x in g.locals ==> r.locals[x] == g.locals[x])
    decreases ps
  {
    if ps != [] {
      var g1 := g.(locals := g.locals[ps[0].name := g.index], index := g.index + 1);
      BindSlotsOthers(g1, ps[1..]);
      NamesCons(ps);
    }
  }

  /** Binding parameters gives each name the slot of its last occurrence, counted from the
      first free slot. */
  lemma {:induction false} BindSlotsLast(g: GState, ps: seq<Param>)
    ensures var r := BindSlots(g, ps);
      forall i :: 0 <= i < |ps| && LastOf(ps, i) ==> ps[i].name in r.locals && r.locals[ps[i].name] == g.index + i
    decreases ps
  {
    if ps != [] {
      var g1 := g.(locals := g.locals[ps[0].name := g.index], index := g.index + 1);
      BindSlotsLast(g1, ps[1..]);
      BindSlotsOthers(g1, ps[1..]);
      var r := BindSlots(g, ps);
      assert r == BindSlots(g1, ps[1..]);
      forall i | 0 <= i < |ps| && LastOf(ps, i)
        ensures ps[i].name in r.locals && r.locals[ps[i].name] == g.index + i
      {
        if i > 0 {
          assert ps[1..][i - 1] == ps[i];
          assert LastOf(ps[1..], i - 1);
        } else {
          assert ps[0].name !in Names(ps[1..]);
        }
      }
    }
  }

  /** Binding parameters keeps the slots distinct and below the next free one. */
  lemma {:induction false} BindSlotsOk(g: GState, ps: seq<Param>)
    requires SlotsOk(g)
    ensures SlotsOk(BindSlots(g, ps))
    decreases ps
  {
    if ps != [] {
      var g1 := g.(locals := g.locals[ps[0].name := g.index], index := g.index + 1);
      assert SlotsOk(g1);
      BindSlotsOk(g1, ps[1..]);
    }
  }

  /** A function method's parameters occupy slots 0 .. n-1 in order (a repeated name keeps
      its last slot), no other local is known at the start of the body, and the next free
      slot is n. */
  lemma FunctionParamSlots(c: Ctx, g: GState, s: Stmt)
    requires s.FunctionDecl? && s.name in c.funcs
    ensures var r := FunctionEntry(c, g, s);
      r.index == |s.params| && r.locals.Keys == Names(s.params) &&
      (forall i :: 0 <= i < |s.params| && LastOf(s.params, i) ==> r.locals[s.params[i].name] == i) &&
      SlotsOk(r)
  {
    var header := MethodHeader(s.name, MethodDescriptor(c.funcs[s.name]));
    var g0 := g.(code := g.code + header, locals := map[], index := 0);
    BindSlotsLast(g0, s.params);
    BindSlotsOthers(g0, s.params);
    BindSlotsOk(g0, s.params);
  }

  /** A declaration with an initializer stores the value into the name's existing slot,
      else into its static field, else into a new slot: the first free one, which no other
      name holds. Locals shadow globals. The store is `astore` exactly when the initializer
      text starts with `array(`. A declaration without an initializer emits nothing. */
  lemma VarDeclSlot(c: Ctx, g: GState, s: Stmt)
    requires s.VarDecl? && SlotsOk(g)
    ensures s.initializer.None? ==> GenVarDecl(c, g, s) == g
    ensures s.initializer.Some? ==>
      var init := s.initializer.value;
      var g1 := GenExpr(c, g, init);
      var r := GenVarDecl(c, g, s);
      (StoreOp(init.text) == "astore " <==> StartsWith(init.text, "array(")) &&
      (s.name in g.locals ==>
        r.code == g1.code + [Indent(StoreOp(init.text) + NatToString(g.locals[s.name]))] &&
        r.locals == g.locals && r.index == g.index) &&
      (s.name !in g.locals && FindGlobal(c.globals, s.name).Some? ==>
        r.code == g1.code + [Indent("putstatic " + StaticRef(c, s.name, FindGlobal(c.globals, s.name).value))] &&
        r.locals == g.locals && r.index == g.index) &&
      (s.name !in g.locals && FindGlobal(c.globals, s.name).None? ==>
        r.code == g1.code + [Indent(StoreOp(init.text) + NatToString(g.index))] &&
        r.locals == g.locals[s.name := g.index] && r.index == g.index + 1 &&
        (forall y :: y in g.locals ==> g.locals[y] != g.index) &&
        SlotsOk(r))
  {
    if s.initializer.Some? {
      var init := s.initializer.value;
      var g1 := GenExpr(c, g, init);
      assert g1.locals == g.locals && g1.index == g.index;
      if s.name !in g.locals && FindGlobal(c.globals, s.name).None? {
        var r := GenVarDecl(c, g, s);
        assert r.locals == g.locals[s.name := g.index] && r.index == g.index + 1;
        assert SlotsOk(r);
      }
    }
  }

  // ---------------------------------------------------------------------------
  // The slot invariant through statements
  // ---------------------------------------------------------------------------

  lemma {:induction false} StmtSlots(c: Ctx, g: GState, s: Stmt)
    requires SlotsOk(g)
    ensures SlotsOk(GenStmt(c, g, s))
    decreases s, 2
  {
    match s
    case VarDecl(_, _, _, _) => VarDeclSlot(c, g, s);
    case FunctionDecl(_, _, _, _) => FunctionSlots(c, g, s);
    case InterfaceDecl(_, _) =>
    case Return(v) =>
    case If(_, _, _) => IfSlots(c, g, s);
    case While(_, _) => WhileSlots(c, g, s);
    case For(_, _, _, _) => ForSlots(c, g, s);
    case ExprStmt(x) =>
    case Block(ss) => StmtsSlots(c, g, ss);
  }

  lemma {:induction false} StmtsSlots(c: Ctx, g: GState, ss: seq<Stmt>)
    requires SlotsOk(g)
    ensures SlotsOk(GenStmts(c, g, ss))
    decreases ss
  {
    if ss != [] {
      StmtSlots(c, g, ss[0]);
      StmtsSlots(c, GenStmt(c, g, ss[0]), ss[1..]);
    }
  }

  lemma {:induction false} IfSlots(c: Ctx, g: GState, s: Stmt)
    requires s.If? && SlotsOk(g)
    ensures SlotsOk(GenIf(c, g, s))
    decreases s, 0
  {
    var (g1, elseLabel) := NewLabel(g);
    var (g2, endLabel) := NewLabel(g1);
    var g3 := Emit(GenExpr(c, g2, s.cond), "ifeq " + elseLabel);
    SlotsKept(g, g3);
    StmtSlots(c, g3, s.thenBranch);
    var g4 := EmitLabel(Emit(GenStmt(c, g3, s.thenBranch), "goto " + endLabel), elseLabel);
    SlotsKept(GenStmt(c, g3, s.thenBranch), g4);
    if s.elseBranch.Some? {
      StmtSlots(c, g4, s.elseBranch.value);
    }
  }

  lemma {:induction false} WhileSlots(c: Ctx, g: GState, s: Stmt)
    requires s.While? && SlotsOk(g)
    ensures SlotsOk(GenWhile(c, g, s))
    decreases s, 0
  {
    var (g1, startLabel) := NewLabel(g);
    var (g2, endLabel) := NewLabel(g1);
    var g3 := Emit(GenExpr(c, EmitLabel(g2, startLabel), s.cond), "ifeq " + endLabel);
    SlotsKept(g, g3);
    StmtSlots(c, g3, s.body);
  }

  lemma {:induction false} ForSlots(c: Ctx, g: GState, s: Stmt)
    requires s.For? && SlotsOk(g)
    ensures SlotsOk(GenFor(c, g, s))
    decreases s, 1
  {
    var (g1, startLabel) := NewLabel(g);
    var (g2, endLabel) := NewLabel(g1);
    SlotsKept(g, g2);
    if s.init.Some? {
      StmtSlots(c, g2, s.init.value);
    }
    var g3 := EmitLabel(if s.init.Some? then GenStmt(c, g2, s.init.value) else g2, startLabel);
    var g4 :=
      if s.test.Some? then Emit(GenExpr(c, g3, s.test.value), "ifeq " + endLabel)
      else if s.update.Some? then Emit(GenExpr(c, g3, s.update.value), "ifeq " + endLabel)
      else g3;
    StmtSlots(c, g4, s.body);
  }

  lemma {:induction false} FunctionSlots(c: Ctx, g: GState, s: Stmt)
    requires s.FunctionDecl? && SlotsOk(g)
    ensures SlotsOk(GenFunction(c, g, s))
    decreases s, 0
  {
    if s.name in c.funcs {
      FunctionParamSlots(c, g, s);
      StmtsSlots(c, FunctionEntry(c, g, s), s.block);
    }
  }

  /** The top-level statements of `main` keep the invariant from its empty start. */
  lemma {:induction false} MainSlots(c: Ctx, g: GState, prog: seq<Stmt>)
    requires SlotsOk(g)
    ensures SlotsOk(GenMain(c, g, prog))
    decreases prog
  {
    if prog != [] {
      if !(prog[0].FunctionDecl? || prog[0].InterfaceDecl?) {
        StmtSlots(c, g, prog[0]);
      }
      MainSlots(c, if prog[0].FunctionDecl? || prog[0].InterfaceDecl? then g else GenStmt(c, g, prog[0]), prog[1..]);
    }
  }
}
