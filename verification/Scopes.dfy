// Local variables and calls: what the slots of the stack are used for.
module Scopes {
  import opened Wrappers
  import opened Bytecode
  import opened Syntax
  import opened CodeGen
  import opened Semantics
  import opened Machine
  import opened Shape
  import opened SimBase
  import opened SimSteps
  import opened Simulation
  import opened Correctness
  import opened CompilerSpec
  import opened MonitorFlow

  /** No two visible locals have one name. */
  ghost predicate Apart(locals: seq<Local>) {
    forall i, j | 0 <= i < j < |locals| :: locals[i].name != locals[j].name
  }

  /** Declaring a name that resolves is refused, so names stay apart. */
  lemma {:induction false} Unresolved(locals: seq<Local>, x: string)
    requires Resolve(locals, x) == -1
    ensures forall i | 0 <= i < |locals| :: locals[i].name != x
  {
    if locals != [] { Unresolved(locals[..|locals| - 1], x); }
  }

  lemma {:induction false} ResolvedSlot(locals: seq<Local>, x: string)
    ensures -1 <= Resolve(locals, x) < |locals|
    ensures Resolve(locals, x) >= 0 ==> locals[Resolve(locals, x)].name == x
  {
    if locals != [] { ResolvedSlot(locals[..|locals| - 1], x); }
  }

  lemma VarDeclApart(x: Name, init: Option<Expr>, c: Ctx)
    requires Apart(c.locals) && GenVarDecl(x, init, c).Some?
    ensures Apart(GenVarDecl(x, init, c).value.c.locals)
  {
    if c.depth > 0 { Unresolved(c.locals, x); }
  }

  lemma DeclApart(d: Decl, c: Ctx)
    requires PlacedDecl(d) && Fine(c) && Apart(c.locals) && GenDecl(d, c).Some?
    ensures Apart(GenDecl(d, c).value.c.locals)
  {
    hide GenStmt, GenFun, GenVarDecl;
    match d
    case StmtDecl(s) => StmtShape(s, c);
    case VarDecl(x, e) => VarDeclApart(x, e, c);
    case FunDecl(_) =>
  }

  lemma {:induction false} DeclsApart(ds: seq<Decl>, c: Ctx)
    requires PlacedDecls(ds) && Fine(c) && Apart(c.locals) && GenDecls(ds, c).Some?
    ensures Apart(GenDecls(ds, c).value.c.locals)
    decreases |ds|
  {
    hide GenDecl, Fine, Apart;
    if ds != [] {
      DeclApart(ds[0], c);
      DeclShape(ds[0], c);
      DeclsApart(ds[1..], GenDecl(ds[0], c).value.c);
    }
  }

  lemma {:induction false} ParamsApart(ps: seq<Name>, c: Ctx)
    requires Apart(c.locals) && GenParams(ps, c).Some?
    ensures Apart(GenParams(ps, c).value.locals)
  {
    if ps != [] {
      Unresolved(c.locals, ps[0]);
      ParamsApart(ps[1..], AddLocal(c, ps[0]).value);
    }
  }

  /** Between two declarations: a visible name has its own slot above the callee's
      and inside the frame the function will ask for, and variables of outer scopes
      keep the slots they had. */
  lemma SlotsApart(before: seq<Decl>, after: seq<Decl>, c: Ctx)
    requires PlacedDecls(before) && PlacedDecls(after) && Fine(c) && Apart(c.locals) && GenDecls(before + after, c).Some?
    ensures GenDecls(before, c).Some?
    ensures var d := GenDecls(before, c).value.c;
            var e := GenDecls(before + after, c).value.c;
            && (forall x: Name :: Resolve(d.locals, x) >= 0 ==> 1 <= Resolve(d.locals, x) < e.maxLocals)
            && (forall x, y :: Resolve(d.locals, x) == Resolve(d.locals, y) >= 0 ==> x == y)
            && (forall x :: Resolve(c.locals, x) >= 0 ==> Resolve(d.locals, x) == Resolve(c.locals, x))
  {
    hide GenDecls, Apart, GenDecl, PlacedDecls;
    GenDeclsAppend(before, after, c);
    var d := GenDecls(before, c).value.c;
    DeclsShape(before, c);
    DeclsShape(after, d);
    DeclsApart(before, c);
    forall x
      ensures Resolve(c.locals, x) >= 0 ==> Resolve(d.locals, x) == Resolve(c.locals, x)
      ensures -1 <= Resolve(d.locals, x) < |d.locals|
      ensures Resolve(d.locals, x) >= 0 ==> d.locals[Resolve(d.locals, x)].name == x
    {
      ResolvedSlot(c.locals, x);
      ResolvedSlot(d.locals, x);
      if Resolve(c.locals, x) >= 0 { OneSlot(d.locals, x, Resolve(c.locals, x)); }
    }
  }

  lemma {:induction false} OneSlot(locals: seq<Local>, x: string, i: nat)
    requires Apart(locals) && i < |locals| && locals[i].name == x
    ensures Resolve(locals, x) == i
  {
    if i < |locals| - 1 { OneSlot(locals[..|locals| - 1], x, i); }
  }

  // ----- every point of a function -----

  /** Every visible local resolves to its own slot, the callee's first, all below the
      local count `n`, and the locals of the scopes around are visible still. */
  ghost predicate SlotsOk(c: Ctx, n: nat, outer: seq<Local>) {
    && outer <= c.locals && c.locals != [] && c.locals[0] == CALLEE
    && (forall i: nat | i < |c.locals| :: Resolve(c.locals, c.locals[i].name) == i)
    && (|c.locals| > 1 ==> |c.locals| <= n)
  }

  /** This holds before a statement and at every point inside it. */
  ghost predicate PointsStmt(s: Stmt, c: Ctx, n: nat)
    decreases s, 1
  {
    SlotsOk(c, n, [])
    && match s
       case Block(ds) => PointsDecls(ds, BeginScope(c), n, c.locals)
       case If(cond, t, e) =>
         GenExpr(cond, c).Some? ==>
           var o := GenExpr(cond, c).value;
           PointsStmt(t, o.c, n) && (e.Some? && GenStmt(t, o.c).Some? ==> PointsStmt(e.value, GenStmt(t, o.c).value.c, n))
       case While(_, _) => PointsLoop(s, c, n, c.locals)
       case For(i, _, _, _) =>
         GenInit(i, BeginScope(c)).Some? ==> PointsLoop(s, GenInit(i, BeginScope(c)).value.c, n, c.locals)
       case Sync(b) => c.nextMon < MAX_MONITORS_PER_FUNCTION ==> PointsStmt(b, Inner(c), n)
       case _ => true
  }

  ghost predicate PointsLoop(s: Stmt, c: Ctx, n: nat, outer: seq<Local>)
    requires s.While? || s.For?
    decreases s, 0
  {
    && SlotsOk(c, n, outer)
    && (GenExpr(s.cond, c).Some? ==>
          var o := GenExpr(s.cond, c).value;
          var q := if s.For? then GenIncr(s.incr, o.c) else Some(Out([], o.c));
          q.Some? ==> PointsStmt(s.loopBody, q.value.c, n))
  }

  ghost predicate PointsDecl(d: Decl, c: Ctx, n: nat)
    decreases d, 1
  {
    d.StmtDecl? ==> PointsStmt(d.s, c, n)
  }

  ghost predicate PointsDecls(ds: seq<Decl>, c: Ctx, n: nat, outer: seq<Local>)
    decreases ds, 0
  {
    && SlotsOk(c, n, outer)
    && (ds != [] ==>
          && PointsDecl(ds[0], c, n)
          && (GenDecl(ds[0], c).Some? ==> PointsDecls(ds[1..], GenDecl(ds[0], c).value.c, n, outer)))
  }

  lemma SlotsNow(c: Ctx, n: nat, outer: seq<Local>)
    requires Fine(c) && Apart(c.locals) && c.maxLocals <= n && outer <= c.locals
    ensures SlotsOk(c, n, outer)
  {
    forall i: nat | i < |c.locals|
      ensures Resolve(c.locals, c.locals[i].name) == i
    {
      OneSlot(c.locals, c.locals[i].name, i);
    }
  }

  lemma {:induction false} StmtPoints(s: Stmt, c: Ctx, n: nat)
    requires Placed(s) && Fine(c) && Apart(c.locals) && GenStmt(s, c).Some? && GenStmt(s, c).value.c.maxLocals <= n
    ensures PointsStmt(s, c, n)
    decreases s, 1
  {
    hide GenFun, Fine, Apart, SlotsOk, GenExpr, GenInit, GenLoop, GenDecls;
    StmtShape(s, c);
    SlotsNow(c, n, []);
    match s
    case Block(ds) =>
      FineInner(c);
      DeclsPoints(ds, BeginScope(c), n, c.locals);
    case If(_, _, _) => IfPoints(s, c, n);
    case While(_, _) => LoopPoints(s, c, n, c.locals);
    case For(i, _, _, _) =>
      FineInner(c);
      InitShape(i, BeginScope(c));
      InitApart(i, BeginScope(c));
      LoopPoints(s, GenInit(i, BeginScope(c)).value.c, n, c.locals);
    case Sync(b) =>
      FineInner(c);
      StmtPoints(b, Inner(c), n);
    case _ =>
  }

  lemma FineInner(c: Ctx)
    requires Fine(c)
    ensures Fine(BeginScope(c)) && (c.nextMon < MAX_MONITORS_PER_FUNCTION ==> Fine(Inner(c)))
  {
  }

  lemma InitApart(i: Init, c: Ctx)
    requires Apart(c.locals) && GenInit(i, c).Some?
    ensures Apart(GenInit(i, c).value.c.locals)
  {
    hide GenVarDecl, GenExpr, Apart;
    if i.VarInit? { VarDeclApart(i.x, i.init, c); }
  }

  lemma {:induction false} IfPoints(s: Stmt, c: Ctx, n: nat)
    requires s.If? && Placed(s) && Fine(c) && Apart(c.locals) && GenStmt(s, c).Some? && GenStmt(s, c).value.c.maxLocals <= n
    requires SlotsOk(c, n, [])
    ensures PointsStmt(s, c, n)
    decreases s, 0
  {
    hide GenFun, GenExpr, SlotsOk, Apart;
    PlainKeepsFlag(s.cond, c);
    var o := GenExpr(s.cond, c).value;
    var p := GenStmt(s.thn, o.c).value;
    StmtShape(s.thn, o.c);
    if s.els.Some? {
      StmtShape(s.els.value, p.c);
      StmtPoints(s.els.value, p.c, n);
    }
    StmtPoints(s.thn, o.c, n);
  }

  lemma {:induction false} LoopPoints(s: Stmt, c: Ctx, n: nat, outer: seq<Local>)
    requires (s.While? || s.For?) && Placed(s) && Fine(c) && Apart(c.locals) && outer <= c.locals
    requires GenLoop(s, c).Some? && GenLoop(s, c).value.c.maxLocals <= n
    ensures PointsLoop(s, c, n, outer)
    decreases s, 0
  {
    hide GenFun, GenExpr, GenStmt, SlotsOk, Apart, Placed;
    LoopShape(s, c);
    SlotsNow(c, n, outer);
    LoopFine(s, c);
    var o := GenExpr(s.cond, c).value;
    var q := if s.For? then GenIncr(s.incr, o.c).value else Out([], o.c);
    StmtPoints(s.loopBody, q.c, n);
  }

  lemma LoopFine(s: Stmt, c: Ctx)
    requires (s.While? || s.For?) && Placed(s) && Fine(c) && GenLoop(s, c).Some?
    ensures var o := GenExpr(s.cond, c).value;
            var q := if s.For? then GenIncr(s.incr, o.c).value else Out([], o.c);
            Fine(q.c) && q.c.locals == c.locals && Placed(s.loopBody)
  {
    hide GenFun, GenExpr;
    PlainKeepsFlag(s.cond, c);
    if s.For? { EffectShape(s.incr, GenExpr(s.cond, c).value.c); }
  }

  lemma {:induction false} DeclPoints(d: Decl, c: Ctx, n: nat)
    requires PlacedDecl(d) && Fine(c) && Apart(c.locals) && GenDecl(d, c).Some? && GenDecl(d, c).value.c.maxLocals <= n
    ensures PointsDecl(d, c, n)
    decreases d, 1
  {
    hide GenFun, GenStmt, GenVarDecl, PointsStmt, Fine, Apart;
    if d.StmtDecl? { StmtPoints(d.s, c, n); }
  }

  lemma {:induction false} DeclsPoints(ds: seq<Decl>, c: Ctx, n: nat, outer: seq<Local>)
    requires PlacedDecls(ds) && Fine(c) && Apart(c.locals) && outer <= c.locals
    requires GenDecls(ds, c).Some? && GenDecls(ds, c).value.c.maxLocals <= n
    ensures PointsDecls(ds, c, n, outer)
    decreases ds, 0
  {
    hide GenFun, GenDecl, Fine, Apart, SlotsOk, PointsDecl;
    DeclsShape(ds, c);
    SlotsNow(c, n, outer);
    if ds != [] {
      var d := GenDecl(ds[0], c).value.c;
      DeclShape(ds[0], c);
      DeclApart(ds[0], c);
      DeclsShape(ds[1..], d);
      DeclPoints(ds[0], c, n);
      DeclsPoints(ds[1..], d, n, outer);
    }
  }

  /** At every point of a compiled function, and of the package's own code, distinct
      visible names have distinct slots, above the callee's and below the local count
      of the compiled function, and entering a block or leaving it moves no variable
      that stays visible. */
  lemma FunPoints(f: Fun)
    requires GenFun(f).Some? && PlacedDecls(f.body)
    ensures GenParams(f.params, StartCtx(true, [])).Some?
    ensures PointsDecls(f.body, EnterMain(f.synced, GenParams(f.params, StartCtx(true, [])).value), GenFun(f).value.nLocals, [CALLEE])
  {
    hide GenDecls, GenParams, PointsDecls;
    var start := StartCtx(true, []);
    var c := EnterMain(f.synced, GenParams(f.params, start).value);
    ParamsShape(f.params, start);
    ParamsApart(f.params, start);
    DeclsPoints(f.body, c, GenFun(f).value.nLocals, [CALLEE]);
  }

  lemma MainPoints(ds: seq<Decl>)
    requires GenProgram(ds).Some? && PlacedDecls(ds)
    ensures PointsDecls(ds, StartCtx(false, []), GenProgram(ds).value.main.nLocals, [CALLEE])
  {
    hide GenDecls, PointsDecls;
    DeclsPoints(ds, StartCtx(false, []), GenProgram(ds).value.main.nLocals, [CALLEE]);
  }

  // ----- calls -----

  /** A call that returns: callee and arguments are replaced by the one result, and
      everything below, the caller's frame and locals included, is as it was,
      whatever the callee left on the stack. */
  lemma CallReplaced(m: Sys, st: State, k: nat, vs: seq<Value>, fuel: nat) returns (n: nat, st1: State)
    requires Linked(m) && Valid(st) && st.frames != [] && |vs| < 256 && Next(m, st, [OP_CALL, |vs|, 0])
    requires k < |m.p.funs| && m.p.funs[k].nArgs == |vs| && |st.frames| < FRAME_MAX
    requires st.esp >= |vs| + 1 && st.mem[st.esp - |vs| - 1..st.esp] == [VFun(k)] + vs
    ensures k < |m.src.funs| && |m.src.funs[k].params| == |vs|
    ensures match CallFun(m.src, k, vs, st.w, fuel, |st.frames| + 1)
            case EVal(v, w) =>
              && RunM(m, st, n) == Running(st1) && Valid(st1)
              && st1.frames == Goto(st, Top(st).pc + 3).frames
              && st1.mem[..st1.esp] == st.mem[..st.esp - |vs| - 1] + [v] && st1.w == w
            case EStop(why, w) => RunM(m, st, n) == Stopped(why, w)
            case EFuel(w) => n >= fuel && RunM(m, st, n).Running? && RunM(m, st, n).st.w == w
  {
    hide RunM, CallFun, Gone, Next, Linked, CallStep;

    CompiledFun(m, k);
    DoCall(m, st, |vs|);
    var t := CallBegins(m, st, k, vs);
    n, st1 := SimFun(m, k, vs, t, fuel);
    Then(m, st, 1, t, n);
    n := 1 + n;
    if CallFun(m.src, k, vs, st.w, fuel, |st.frames| + 1).EVal? {
      var r := CallFun(m.src, k, vs, st.w, fuel, |st.frames| + 1);
      BelowCall(st, t, st1, |vs|, r.v, r.w);
    }
  }

  lemma CallBegins(m: Sys, st: State, k: nat, vs: seq<Value>) returns (t: State)
    requires Valid(st) && st.frames != [] && k < |m.p.funs| && m.p.funs[k].nArgs == |vs| <= m.p.funs[k].nLocals && |st.frames| < FRAME_MAX
    requires st.esp >= |vs| + 1 && st.mem[st.esp - |vs| - 1..st.esp] == [VFun(k)] + vs
    ensures CallStep(m.p, |vs|, Behind(st, 3)) == Running(t) && t.w == st.w
    ensures Valid(t) && t.frames == Goto(st, Top(st).pc + 3).frames + [Frame(k + 1, 0, st.esp - |vs| - 1)] && t.esp == Base(m, t)
    ensures st.esp <= |t.mem| && t.mem[..st.esp] == st.mem[..st.esp]
    ensures forall i | 0 <= i < |vs| :: t.mem[Top(t).slots + 1 + i] == vs[i]
  {
    var s := st.mem[st.esp - |vs| - 1..st.esp];
    assert st.mem[st.esp - |vs| - 1] == s[0];
    t := CallStep(m.p, |vs|, Behind(st, 3)).st;
    forall i | 0 <= i < |vs| ensures t.mem[Top(t).slots + 1 + i] == vs[i] {
      assert st.mem[st.esp - |vs| + i] == s[1 + i];
    }
  }

  lemma BelowCall(st: State, t: State, st1: State, n: nat, v: Value, w: World)
    requires st.frames != [] && t.frames != [] && Gone(t, st1, v, w) && Valid(st) && Valid(t) && st.esp >= n + 1
    requires Top(t).slots == st.esp - n - 1 && Callers(t) == Goto(st, Top(st).pc + 3).frames
    requires st.esp <= |t.mem| && t.mem[..st.esp] == st.mem[..st.esp]
    ensures Valid(st1) && st1.frames == Goto(st, Top(st).pc + 3).frames && st1.w == w
    ensures st1.mem[..st1.esp] == st.mem[..st.esp - n - 1] + [v]
  {
    forall i: nat | i < st.esp - n - 1
      ensures st1.mem[i] == st.mem[i]
    {
      assert st.mem[i] == st.mem[..st.esp][i] == t.mem[..st.esp][i];
    }
  }
}
