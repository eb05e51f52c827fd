// What compiling a piece of the tree does to the compiler's tables: scopes are
// given back, constants and functions are only added, monitors are counted.
module Shape {
  import opened Wrappers
  import opened Bytecode
  import opened Syntax
  import opened CodeGen

  /** Invariant of the tables: slot 0 is the callee's, no visible local is deeper
      than the current scope, and `maxLocals` bounds the slots in use. */
  ghost predicate Fine(c: Ctx) {
    && c.locals != [] && c.locals[0] == CALLEE
    && (forall i | 0 <= i < |c.locals| :: c.locals[i].depth <= c.depth)
    && (|c.locals| == 1 || |c.locals| <= c.maxLocals)
    && |c.locals| <= MAX_LOCALS
    && !c.setOp && c.pending == -2
  }

  /** `objs` are the functions `fs`, compiled. */
  ghost predicate Compiled(fs: seq<Fun>, objs: seq<FunObj>) {
    |fs| == |objs| && forall i | 0 <= i < |fs| :: GenFun(fs[i]) == Some(objs[i])
  }

  /** How the tables `d` after a piece of the tree relate to those before it. */
  ghost predicate Follows(c: Ctx, d: Ctx, syncs: nat, fs: seq<Fun>) {
    && Fine(d)
    && d.inFun == c.inFun && d.depth == c.depth && d.held == c.held
    && c.consts <= d.consts
    && c.maxLocals <= d.maxLocals
    && c.locals <= d.locals
    && (forall i | |c.locals| <= i < |d.locals| :: d.locals[i].depth == c.depth)
    && d.nextMon == c.nextMon + syncs
    && c.funs <= d.funs && Compiled(fs, d.funs[|c.funs|..])
  }

  lemma FollowsTrans(c: Ctx, d: Ctx, e: Ctx, n: nat, m: nat, fs: seq<Fun>, gs: seq<Fun>)
    requires Follows(c, d, n, fs) && Follows(d, e, m, gs)
    ensures Follows(c, e, n + m, fs + gs)
  {
    hide GenFun;
    assert e.funs[|c.funs|..] == d.funs[|c.funs|..] + e.funs[|d.funs|..];
  }

  lemma {:induction false} PlainKeepsFlag(e: Expr, c: Ctx)
    requires Plain(e) && GenExpr(e, c).Some?
    ensures GenExpr(e, c).value.c.setOp == c.setOp
    decreases e, 1
  {
    match e
    case Unary(_, a) => PlainKeepsFlag(a, c);
    case Binary(_, l, r) =>
      PlainKeepsFlag(l, c);
      PlainKeepsFlag(r, GenExpr(l, c).value.c);
    case Call(f, args) =>
      PlainKeepsFlag(f, c);
      PlainArgsKeepFlag(args, GenExpr(f, c).value.c);
    case _ =>
  }

  lemma {:induction false} PlainArgsKeepFlag(args: seq<Expr>, c: Ctx)
    requires PlainArgs(args) && GenArgs(args, c).Some?
    ensures GenArgs(args, c).value.c.setOp == c.setOp
    decreases args, 0
  {
    if args != [] {
      PlainKeepsFlag(args[0], c);
      PlainArgsKeepFlag(args[1..], GenExpr(args[0], c).value.c);
    }
  }

  lemma EffectShape(e: Expr, c: Ctx)
    requires Effect(e) && Fine(c)
    ensures GenEffect(e, c).Some? ==> Follows(c, GenEffect(e, c).value.c, 0, [])
    ensures GenIncr(e, c).Some? ==> Follows(c, GenIncr(e, c).value.c, 0, [])
  {
    if !e.Assign? && GenExpr(e, c).Some? {
      PlainKeepsFlag(e, c);
    }
  }

  lemma OptShape(e: Option<Expr>, c: Ctx)
    requires PlacedOpt(e) && GenOpt(e, c).Some?
    ensures GenOpt(e, c).value.c.setOp == c.setOp
  {
    if e.Some? {
      PlainKeepsFlag(e.value, c);
    }
  }

  lemma VarDeclShape(x: Name, init: Option<Expr>, c: Ctx)
    requires PlacedOpt(init) && Fine(c) && GenVarDecl(x, init, c).Some?
    ensures Follows(c, GenVarDecl(x, init, c).value.c, 0, [])
    ensures c.depth == 0 ==> GenVarDecl(x, init, c).value.c.locals == c.locals
  {
    if c.depth > 0 {
      OptShape(init, AddLocal(c, x).value.(pending := |c.locals|));
    } else {
      OptShape(init, AddConst(c, VStr(x)).value.1);
    }
  }

  lemma InitShape(i: Init, c: Ctx)
    requires PlacedInit(i) && Fine(c) && GenInit(i, c).Some?
    ensures Follows(c, GenInit(i, c).value.c, 0, [])
  {
    match i
    case NoInit =>
    case VarInit(x, e) => VarDeclShape(x, e, c);
    case ExprInit(e) => EffectShape(e, c);
  }

  /** Ending a scope gives back exactly the locals declared in it. */
  lemma {:induction false} VisibleAgain(outer: seq<Local>, locals: seq<Local>, depth: nat)
    requires outer <= locals
    requires forall i | 0 <= i < |outer| :: outer[i].depth <= depth
    requires forall i | |outer| <= i < |locals| :: locals[i].depth > depth
    ensures Visible(locals, depth) == outer
    decreases |locals|
  {
    if |locals| > |outer| {
      VisibleAgain(outer, locals[..|locals| - 1], depth);
    }
  }

  lemma ScopeShape(c: Ctx, d: Ctx, n: nat, fs: seq<Fun>)
    requires Fine(c) && Follows(BeginScope(c), d, n, fs)
    ensures Follows(c, EndScope(d), n, fs) && EndScope(d).locals == c.locals
  {
    hide GenFun;
    VisibleAgain(c.locals, d.locals, c.depth);
  }

  lemma {:induction false} StmtShape(s: Stmt, c: Ctx)
    requires Placed(s) && Fine(c) && GenStmt(s, c).Some?
    ensures Follows(c, GenStmt(s, c).value.c, Syncs(s), Funs(s)) && GenStmt(s, c).value.c.locals == c.locals
    decreases s, 1
  {
    hide GenFun, GenExpr, GenDecls, GenLoop;
    match s
    case Print(e) => PlainKeepsFlag(e, c);
    case ExprStmt(e) => EffectShape(e, c);
    case Block(ds) =>
      DeclsShape(ds, BeginScope(c));
      ScopeShape(c, GenDecls(ds, BeginScope(c)).value.c, SyncsIn(ds), FunsIn(ds));
    case If(_, _, _) => IfShape(s, c);
    case While(_, _) => LoopShape(s, c);
    case For(_, _, _, _) => ForShape(s, c);
    case Return(e) => OptShape(e, c);
    case Sync(b) => StmtShape(b, c.(nextMon := c.nextMon + 1, held := c.held + [c.nextMon]));
  }

  lemma {:induction false} IfShape(s: Stmt, c: Ctx)
    requires s.If? && Placed(s) && Fine(c) && GenStmt(s, c).Some?
    ensures Follows(c, GenStmt(s, c).value.c, Syncs(s), Funs(s)) && GenStmt(s, c).value.c.locals == c.locals
    decreases s, 0
  {
    hide GenFun, GenExpr;
    PlainKeepsFlag(s.cond, c);
    var o := GenExpr(s.cond, c).value;
    StmtShape(s.thn, o.c);
    if s.els.Some? {
      var p := GenStmt(s.thn, o.c).value;
      StmtShape(s.els.value, p.c);
      FollowsTrans(o.c, p.c, GenStmt(s.els.value, p.c).value.c,
                   Syncs(s.thn), Syncs(s.els.value), Funs(s.thn), Funs(s.els.value));
    } else {
      assert Funs(s.thn) + [] == Funs(s.thn);
    }
  }

  lemma {:induction false} ForShape(s: Stmt, c: Ctx)
    requires s.For? && Placed(s) && Fine(c) && GenStmt(s, c).Some?
    ensures Follows(c, GenStmt(s, c).value.c, Syncs(s), Funs(s)) && GenStmt(s, c).value.c.locals == c.locals
    decreases s, 0, 1
  {
    hide GenFun, GenExpr, GenLoop, GenInit;
    var b := s.loopBody;
    var o := GenInit(s.init, BeginScope(c)).value;
    InitShape(s.init, BeginScope(c));
    LoopShape(s, o.c);
    FollowsTrans(BeginScope(c), o.c, GenLoop(s, o.c).value.c, 0, Syncs(b), [], Funs(b));
    assert [] + Funs(b) == Funs(b);
    ScopeShape(c, GenLoop(s, o.c).value.c, Syncs(b), Funs(b));
  }

  lemma {:induction false} LoopShape(s: Stmt, c: Ctx)
    requires (s.While? || s.For?) && Placed(s) && Fine(c) && GenLoop(s, c).Some?
    ensures Follows(c, GenLoop(s, c).value.c, Syncs(s.loopBody), Funs(s.loopBody))
    ensures GenLoop(s, c).value.c.locals == c.locals
    decreases s, 0, 0
  {
    hide GenFun;
    PlainKeepsFlag(s.cond, c);
    var o := GenExpr(s.cond, c).value;
    if s.For? {
      EffectShape(s.incr, o.c);
      StmtShape(s.loopBody, GenIncr(s.incr, o.c).value.c);
    } else {
      StmtShape(s.loopBody, o.c);
    }
  }

  lemma {:induction false} DeclShape(d: Decl, c: Ctx)
    requires PlacedDecl(d) && Fine(c) && GenDecl(d, c).Some?
    ensures Follows(c, GenDecl(d, c).value.c, SyncsOf(d), FunsOf(d))
    decreases d, 1
  {
    match d
    case StmtDecl(s) => StmtShape(s, c);
    case VarDecl(x, e) => VarDeclShape(x, e, c);
    case FunDecl(f) => hide GenFun;
  }

  lemma {:induction false} DeclsShape(ds: seq<Decl>, c: Ctx)
    requires PlacedDecls(ds) && Fine(c) && GenDecls(ds, c).Some?
    ensures Follows(c, GenDecls(ds, c).value.c, SyncsIn(ds), FunsIn(ds))
    decreases ds, 0
  {
    hide GenFun;
    if ds != [] {
      var d := GenDecl(ds[0], c).value.c;
      DeclShape(ds[0], c);
      DeclsShape(ds[1..], d);
      FollowsTrans(c, d, GenDecls(ds, c).value.c, SyncsOf(ds[0]), SyncsIn(ds[1..]), FunsOf(ds[0]), FunsIn(ds[1..]));
    }
  }

  lemma {:induction false} ParamsShape(ps: seq<Name>, c: Ctx)
    requires Fine(c) && GenParams(ps, c).Some?
    ensures var d := GenParams(ps, c).value;
            && Fine(d) && d == c.(locals := d.locals, maxLocals := d.maxLocals)
            && |d.locals| == |c.locals| + |ps| && c.locals <= d.locals
            && forall i | 0 <= i < |ps| :: d.locals[|c.locals| + i].name == ps[i]
    decreases ps
  {
    if ps != [] {
      ParamsShape(ps[1..], AddLocal(c, ps[0]).value);
    }
  }
}
