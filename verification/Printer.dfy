// A printer with the parentheses the precedences need, and the proof that the
// parser reads back every tree it prints.
module Printer {
  import opened Wrappers
  import opened Syntax
  import opened Parser

  /** The loosest precedence at which the printed form of a tree can stand bare. */
  function Level(e: Expr): (p: nat)
    ensures 0 < p <= PREC_PRIMARY
  {
    match e
    case Assign(_, _) => PREC_ASSIGNMENT
    case Binary(op, _, _) => OpPrec(op)
    case Unary(_, _) => PREC_UNARY
    case Call(_, _) => PREC_CALL
    case _ => PREC_PRIMARY
  }

  function UnTok(op: UnOp): Token {
    if op == Minus then Operator(Sub) else BangTok
  }

  function LitTok(l: Literal): Token {
    match l
    case LNil => NilTok
    case LTrue => TrueTok
    case LFalse => FalseTok
  }

  function Bare(e: Expr): Tokens
    decreases e, 1
  {
    match e
    case Number(v, d) => [NumberTok(v, d)]
    case Str(s) => [StringTok(s)]
    case Lit(l) => [LitTok(l)]
    case Var(x) => [Ident(x)]
    case Assign(x, r) => [Ident(x), EqualTok] + Pr(r, PREC_ASSIGNMENT)
    case Unary(op, a) => [UnTok(op)] + Pr(a, PREC_UNARY)
    case Binary(op, l, r) => Pr(l, OpPrec(op)) + [Operator(op)] + Pr(r, OpPrec(op) + 1)
    case Call(f, args) => Pr(f, PREC_CALL) + [OpenParen] + PrArgs(args) + [CloseParen]
  }

  /** An expression where precedence `p` is expected. */
  function Pr(e: Expr, p: nat): Tokens
    decreases e, 2
  {
    if Level(e) < p then [OpenParen] + Bare(e) + [CloseParen] else Bare(e)
  }

  function PrArgs(args: seq<Expr>): Tokens
    decreases args, 0
  {
    if args == [] then []
    else if |args| == 1 then Pr(args[0], PREC_ASSIGNMENT)
    else Pr(args[0], PREC_ASSIGNMENT) + [Comma] + PrArgs(args[1..])
  }

  /** What follows is neither an assignment nor a brace, which a preceding
      identifier would take. */
  predicate Free(rest: Tokens) {
    Cur(rest) != EqualTok && Cur(rest) != OpenBrace
  }

  /** An operator that follows does not capture the right end of a bare tree. */
  predicate Ends(e: Expr, q: nat, rest: Tokens) {
    Level(e) < q
    || (match e
        case Assign(_, _) => Prec(Cur(rest)) == 0
        case Unary(_, _) => Prec(Cur(rest)) < PREC_UNARY
        case Binary(op, _, _) => Prec(Cur(rest)) <= OpPrec(op)
        case _ => true)
  }

  lemma PLoopStops(p: nat, e: Expr, rest: Tokens)
    requires p > 0 && Prec(Cur(rest)) < p && Free(rest)
    ensures PLoop(p, e, rest) == Some((e, rest))
  {
  }

  /** Where a printed tree begins, the parser goes on with the whole tree as left
      operand. */
  lemma {:induction false} ParseBare(e: Expr, p: nat, rest: Tokens)
    requires 0 < p <= Level(e) && Free(rest) && Ends(e, Level(e), rest)
    ensures PExpr(p, Bare(e) + rest) == PLoop(p, e, rest)
    decreases e, 1
  {
    hide Pr, PLoop;
    match e
    case Binary(_, _, _) => ParseBinary(e, p, rest);
    case Call(_, _) => ParseCall(e, p, rest);
    case Assign(_, _) => ParseAssign(e, p, rest);
    case Unary(_, _) => ParseUnary(e, p, rest);
    case _ => assert (Bare(e) + rest)[1..] == rest;
  }

  lemma {:induction false} ParseAssign(e: Expr, p: nat, rest: Tokens)
    requires e.Assign? && p == PREC_ASSIGNMENT && Free(rest) && Prec(Cur(rest)) == 0
    ensures PExpr(p, Bare(e) + rest) == PLoop(p, e, rest)
    decreases e, 0
  {
    hide Pr, PLoop;
    var tail := Pr(e.rhs, PREC_ASSIGNMENT) + rest;
    assert Bare(e) + rest == [Ident(e.x)] + ([EqualTok] + tail);
    assert ([Ident(e.x)] + ([EqualTok] + tail))[1..] == [EqualTok] + tail;
    assert ([EqualTok] + tail)[1..] == tail;
    ParsePrinted(e.rhs, PREC_ASSIGNMENT, rest);
  }

  lemma {:induction false} ParseUnary(e: Expr, p: nat, rest: Tokens)
    requires e.Unary? && 0 < p <= PREC_UNARY && Free(rest) && Prec(Cur(rest)) < PREC_UNARY
    ensures PExpr(p, Bare(e) + rest) == PLoop(p, e, rest)
    decreases e, 0
  {
    hide Pr, PLoop;
    var tail := Pr(e.e, PREC_UNARY) + rest;
    assert Bare(e) + rest == [UnTok(e.uop)] + tail;
    assert ([UnTok(e.uop)] + tail)[1..] == tail;
    ParsePrinted(e.e, PREC_UNARY, rest);
  }

  lemma {:induction false} ParseBinary(e: Expr, p: nat, rest: Tokens)
    requires e.Binary? && 0 < p <= OpPrec(e.op) && Free(rest) && Prec(Cur(rest)) <= OpPrec(e.op)
    ensures PExpr(p, Bare(e) + rest) == PLoop(p, e, rest)
    decreases e, 0
  {
    hide Pr, PExpr, Level;
    var q := OpPrec(e.op);
    var tail := Pr(e.r, q + 1) + rest;
    var rest1 := [Operator(e.op)] + tail;
    assert Bare(e) + rest == Pr(e.l, q) + rest1;
    assert Ends(e.l, q, rest1) by { EndsAtOperator(e.l, q, rest1); }
    ParseLeft(e.l, p, q, rest1);
    assert rest1[1..] == tail;
    ParsePrinted(e.r, q + 1, rest);
  }

  lemma EndsAtOperator(e: Expr, q: nat, rest: Tokens)
    requires Prec(Cur(rest)) == q && q < PREC_UNARY
    ensures Ends(e, q, rest)
  {
  }

  lemma {:induction false} ParseCall(e: Expr, p: nat, rest: Tokens)
    requires e.Call? && 0 < p <= PREC_CALL && Free(rest)
    ensures PExpr(p, Bare(e) + rest) == PLoop(p, e, rest)
    decreases e, 0
  {
    hide Pr, PExpr, PArgs, PrArgs;
    var tail := PrArgs(e.args) + ([CloseParen] + rest);
    var rest1 := [OpenParen] + tail;
    assert Bare(e) + rest == Pr(e.callee, PREC_CALL) + rest1;
    ParseLeft(e.callee, p, PREC_CALL, rest1);
    assert rest1[1..] == tail;
    ParseArgs(e.args, rest);
  }

  /** Likewise with the parentheses precedence `q` asks for. */
  lemma {:induction false} ParseLeft(e: Expr, p: nat, q: nat, rest: Tokens)
    requires 0 < p <= q <= PREC_PRIMARY && Free(rest) && Ends(e, q, rest)
    ensures PExpr(p, Pr(e, q) + rest) == PLoop(p, e, rest)
    decreases e, 2
  {
    hide Bare, PLoop, PExpr, Ends;
    if Level(e) < q {
      var inner := [CloseParen] + rest;
      assert Pr(e, q) + rest == [OpenParen] + (Bare(e) + inner);
      assert Ends(e, Level(e), inner) by { EndsAtParen(e, inner); }
      ParseBare(e, PREC_ASSIGNMENT, inner);
      PLoopStops(PREC_ASSIGNMENT, e, inner);
      ParseParens(e, p, Bare(e), rest);
    } else {
      assert Ends(e, Level(e), rest) by { EndsBare(e, q, rest); }
      ParseBare(e, p, rest);
    }
  }

  lemma EndsAtParen(e: Expr, rest: Tokens)
    requires Prec(Cur(rest)) == 0
    ensures Ends(e, Level(e), rest)
  {
  }

  lemma EndsBare(e: Expr, q: nat, rest: Tokens)
    requires Ends(e, q, rest) && Level(e) >= q
    ensures Ends(e, Level(e), rest)
  {
  }

  lemma ParseParens(e: Expr, p: nat, inner: Tokens, rest: Tokens)
    requires p > 0 && PExpr(PREC_ASSIGNMENT, inner + ([CloseParen] + rest)) == Some((e, [CloseParen] + rest))
    ensures PExpr(p, [OpenParen] + (inner + ([CloseParen] + rest))) == PLoop(p, e, rest)
  {
    hide PLoop;
    var ts := [OpenParen] + (inner + ([CloseParen] + rest));
    assert ts[1..] == inner + ([CloseParen] + rest);
    assert ([CloseParen] + rest)[1..] == rest;
  }

  /** Printing an expression and running the parser gives the expression back, and
      stops at the token after it. */
  lemma {:induction false} ParsePrinted(e: Expr, p: nat, rest: Tokens)
    requires 0 < p <= PREC_PRIMARY && Free(rest) && Prec(Cur(rest)) < p
    ensures PExpr(p, Pr(e, p) + rest) == Some((e, rest))
    decreases e, 3
  {
    ParseLeft(e, p, p, rest);
    PLoopStops(p, e, rest);
  }

  lemma {:induction false} ParseArgs(args: seq<Expr>, rest: Tokens)
    ensures PArgs(PrArgs(args) + ([CloseParen] + rest)) == Some((args, rest))
    decreases args, 0
  {
    var ts := PrArgs(args) + ([CloseParen] + rest);
    if args == [] {
      assert ts == [CloseParen] + rest;
    } else {
      ParseMoreArgs(args, rest);
      StartsExpr(args[0], PREC_ASSIGNMENT);
    }
  }

  lemma {:induction false} ParseMoreArgs(args: seq<Expr>, rest: Tokens)
    requires args != []
    ensures PMoreArgs(PrArgs(args) + ([CloseParen] + rest)) == Some((args, rest))
    decreases args, 0, 0
  {
    hide Pr, PExpr;
    var end := [CloseParen] + rest;
    var ts := PrArgs(args) + end;
    if |args| == 1 {
      ParsePrinted(args[0], PREC_ASSIGNMENT, end);
      assert end[1..] == rest && args == [args[0]];
    } else {
      var tail := PrArgs(args[1..]) + end;
      assert ts == Pr(args[0], PREC_ASSIGNMENT) + ([Comma] + tail);
      ParsePrinted(args[0], PREC_ASSIGNMENT, [Comma] + tail);
      assert ([Comma] + tail)[1..] == tail;
      ParseMoreArgs(args[1..], rest);
      assert args == [args[0]] + args[1..];
    }
  }

  /** A token an expression can begin with. */
  predicate Opens(t: Token) {
    t.OpenParen? || t == Operator(Sub) || t.BangTok? || t.Ident? || t.NumberTok? || t.StringTok?
    || t.NilTok? || t.TrueTok? || t.FalseTok?
  }

  lemma {:induction false} StartsExpr(e: Expr, p: nat)
    ensures |Pr(e, p)| > 0 && Opens(Pr(e, p)[0])
    decreases e
  {
    match e
    case Binary(op, l, _) => StartsExpr(l, OpPrec(op));
    case Call(f, _) => StartsExpr(f, PREC_CALL);
    case _ =>
  }

  // ----- statements -----

  function Top(e: Expr): Tokens {
    Pr(e, PREC_ASSIGNMENT)
  }

  function PrVarDecl(x: Name, e: Option<Expr>): Tokens {
    [Ident(x)] + (if e.Some? then [EqualTok] + Top(e.value) else []) + [Semicolon]
  }

  function PrInit(i: Init): Tokens {
    match i
    case NoInit => [Semicolon]
    case VarInit(x, e) => [VarTok] + PrVarDecl(x, e)
    case ExprInit(e) => Top(e) + [Semicolon]
  }

  function PrCond(e: Expr): Tokens {
    [OpenParen] + Top(e) + [CloseParen]
  }

  function PrStmt(s: Stmt): Tokens
    decreases s, 1
  {
    match s
    case Print(e) => [PrintTok] + Top(e) + [Semicolon]
    case Block(ds) => [OpenBrace] + PrDecls(ds) + [CloseBrace]
    case For(i, c, n, b) =>
      [ForTok, OpenParen] + PrInit(i) + Top(c) + [Semicolon] + Top(n) + [CloseParen] + PrStmt(b)
    case While(c, b) => [WhileTok] + PrCond(c) + PrStmt(b)
    case If(c, t, e) => [IfTok] + PrCond(c) + PrStmt(t) + (if e.Some? then [ElseTok] + PrStmt(e.value) else [])
    case Return(e) => [ReturnTok] + (if e.Some? then Top(e.value) else []) + [Semicolon]
    case Sync(b) => [SyncTok] + PrStmt(b)
    case ExprStmt(e) => Top(e) + [Semicolon]
  }

  function PrDecl(d: Decl): Tokens
    decreases d, 1
  {
    match d
    case VarDecl(x, e) => [VarTok] + PrVarDecl(x, e)
    case FunDecl(f) =>
      [FunTok] + (if f.synced then [SyncTok] else []) + [Ident(f.name), OpenParen] + PrParams(f.params)
      + [CloseParen, OpenBrace] + PrDecls(f.body) + [CloseBrace]
    case StmtDecl(s) => PrStmt(s)
  }

  function PrDecls(ds: seq<Decl>): Tokens
    decreases ds, 0
  {
    if ds == [] then [] else PrDecl(ds[0]) + PrDecls(ds[1..])
  }

  function PrParams(ps: seq<Name>): Tokens {
    if ps == [] then []
    else if |ps| == 1 then [Ident(ps[0])]
    else [Ident(ps[0]), Comma] + PrParams(ps[1..])
  }

  /** A statement that an `else` behind it would become part of. */
  predicate OpenIf(s: Stmt) {
    match s
    case If(_, _, e) => e.None? || OpenIf(e.value)
    case For(_, _, _, b) => OpenIf(b)
    case While(_, b) => OpenIf(b)
    case Sync(b) => OpenIf(b)
    case _ => false
  }

  /** No `else` is printed where an inner `if` would take it. */
  predicate Clear(s: Stmt)
    decreases s, 1
  {
    match s
    case Block(ds) => ClearAll(ds)
    case For(_, _, _, b) => Clear(b)
    case While(_, b) => Clear(b)
    case If(_, t, e) => Clear(t) && (e.Some? ==> Clear(e.value) && !OpenIf(t))
    case Sync(b) => Clear(b)
    case _ => true
  }

  predicate ClearDecl(d: Decl)
    decreases d, 1
  {
    match d
    case VarDecl(_, _) => true
    case FunDecl(f) => ClearAll(f.body)
    case StmtDecl(s) => Clear(s)
  }

  predicate ClearAll(ds: seq<Decl>)
    decreases ds, 0
  {
    ds == [] || (ClearDecl(ds[0]) && ClearAll(ds[1..]))
  }

  lemma ParseSemi(e: Expr, rest: Tokens)
    ensures PExprSemi(Top(e) + ([Semicolon] + rest)) == Some((e, rest))
  {
    ParsePrinted(e, PREC_ASSIGNMENT, [Semicolon] + rest);
    assert ([Semicolon] + rest)[1..] == rest;
  }

  lemma ParseCond(e: Expr, rest: Tokens)
    ensures PCond(PrCond(e) + rest) == Some((e, rest))
  {
    hide PExpr, Pr;
    var tail := [CloseParen] + rest;
    assert PrCond(e) + rest == [OpenParen] + (Top(e) + tail);
    assert ([OpenParen] + (Top(e) + tail))[1..] == Top(e) + tail;
    ParsePrinted(e, PREC_ASSIGNMENT, tail);
    assert tail[1..] == rest;
  }

  lemma ParseVarDecl(x: Name, e: Option<Expr>, rest: Tokens)
    ensures PVarDecl(PrVarDecl(x, e) + rest) == Some((x, e, rest))
  {
    hide PExpr, Pr;
    var ts := PrVarDecl(x, e) + rest;
    if e.Some? {
      var tail := [Semicolon] + rest;
      assert ts[2..] == Top(e.value) + tail && ts[1..][0] == EqualTok;
      ParsePrinted(e.value, PREC_ASSIGNMENT, tail);
      assert tail[1..] == rest;
    } else {
      assert ts[1..] == [Semicolon] + rest;
      assert ts[1..][1..] == rest;
    }
  }

  lemma ParseInit(i: Init, rest: Tokens)
    ensures PInit(PrInit(i) + rest) == Some((i, rest))
  {
    hide PExprSemi, PVarDecl, PrVarDecl, Pr;
    var ts := PrInit(i) + rest;
    match i
    case NoInit => assert ts[1..] == rest;
    case VarInit(x, e) =>
      assert ts[1..] == PrVarDecl(x, e) + rest;
      ParseVarDecl(x, e, rest);
    case ExprInit(e) =>
      assert ts == Top(e) + ([Semicolon] + rest);
      ParseSemi(e, rest);
      StartsExpr(e, PREC_ASSIGNMENT);
  }

  /** Statements are read back, unless an `else` that follows would be drawn in. */
  lemma {:induction false} ParseStmt(s: Stmt, rest: Tokens)
    requires Clear(s) && (OpenIf(s) ==> Cur(rest) != ElseTok)
    ensures PStmt(PrStmt(s) + rest) == Some((s, rest))
    decreases s, 1
  {
    hide PExprSemi, PCond, PInit, PExpr, PBlock, Pr, PrCond, PrInit, PrDecls;
    var ts := PrStmt(s) + rest;
    match s
    case Block(ds) =>
      assert ts[1..] == PrDecls(ds) + ([CloseBrace] + rest);
      ParseBlock(ds, rest);
    case For(_, _, _, _) => ParseFor(s, rest);
    case While(_, _) => ParseWhile(s, rest);
    case If(_, _, _) => ParseIf(s, rest);
    case Sync(b) =>
      assert ts[1..] == PrStmt(b) + rest;
      ParseStmt(b, rest);
    case _ => ParseSimple(s, rest);
  }

  lemma ParseSimple(s: Stmt, rest: Tokens)
    requires s.Print? || s.Return? || s.ExprStmt?
    ensures PStmt(PrStmt(s) + rest) == Some((s, rest))
  {
    hide PExprSemi, PCond, PInit, PExpr, PBlock, Pr, PrCond, PrInit;
    var ts := PrStmt(s) + rest;
    match s
    case Print(e) =>
      assert ts[1..] == Top(e) + ([Semicolon] + rest);
      ParseSemi(e, rest);
    case Return(e) =>
      if e.Some? {
        assert ts[1..] == Top(e.value) + ([Semicolon] + rest);
        ParseSemi(e.value, rest);
        StartsExpr(e.value, PREC_ASSIGNMENT);
      } else {
        assert ts[1..] == [Semicolon] + rest;
        assert ts[2..] == rest;
      }
    case ExprStmt(e) =>
      assert ts == Top(e) + ([Semicolon] + rest);
      ParseSemi(e, rest);
      StartsExpr(e, PREC_ASSIGNMENT);
  }

  lemma {:induction false} ParseWhile(s: Stmt, rest: Tokens)
    requires s.While? && Clear(s) && (OpenIf(s) ==> Cur(rest) != ElseTok)
    ensures PStmt(PrStmt(s) + rest) == Some((s, rest))
    decreases s, 0
  {
    hide PExprSemi, PCond, PInit, PExpr, PBlock, Pr, PrCond, PrInit;
    assert (PrStmt(s) + rest)[1..] == PrCond(s.cond) + (PrStmt(s.loopBody) + rest);
    ParseCond(s.cond, PrStmt(s.loopBody) + rest);
    ParseStmt(s.loopBody, rest);
  }

  lemma {:induction false} ParseIf(s: Stmt, rest: Tokens)
    requires s.If? && Clear(s) && (OpenIf(s) ==> Cur(rest) != ElseTok)
    ensures PStmt(PrStmt(s) + rest) == Some((s, rest))
    decreases s, 0
  {
    hide PStmt, PCond, PrCond, PrStmt;
    var ts := PrStmt(s) + rest;
    var tail := (if s.els.Some? then [ElseTok] + PrStmt(s.els.value) else []) + rest;
    IfText(s, rest, tail);
    ParseCond(s.cond, PrStmt(s.thn) + tail);
    ParseStmt(s.thn, tail);
    if s.els.Some? {
      assert tail[1..] == PrStmt(s.els.value) + rest;
      ParseStmt(s.els.value, rest);
    } else {
      assert tail == rest;
    }
    IfParses(s, ts, PrStmt(s.thn) + tail, tail, rest);
  }

  lemma IfText(s: Stmt, rest: Tokens, tail: Tokens)
    requires s.If? && tail == (if s.els.Some? then [ElseTok] + PrStmt(s.els.value) else []) + rest
    ensures var ts := PrStmt(s) + rest;
            ts != [] && ts[0] == IfTok && ts[1..] == PrCond(s.cond) + (PrStmt(s.thn) + tail)
  {
    hide PrCond;
  }

  lemma IfParses(s: Stmt, ts: Tokens, ts1: Tokens, ts2: Tokens, rest: Tokens)
    requires s.If? && Cur(ts) == IfTok && PCond(ts[1..]) == Some((s.cond, ts1)) && PStmt(ts1) == Some((s.thn, ts2))
    requires if s.els.Some? then Cur(ts2) == ElseTok && PStmt(ts2[1..]) == Some((s.els.value, rest))
             else Cur(ts2) != ElseTok && ts2 == rest
    ensures PStmt(ts) == Some((s, rest))
  {
    hide PCond, PBlock, PInit, PExprSemi;
  }

  lemma {:induction false} ParseFor(s: Stmt, rest: Tokens)
    requires s.For? && Clear(s) && (OpenIf(s) ==> Cur(rest) != ElseTok)
    ensures PStmt(PrStmt(s) + rest) == Some((s, rest))
    decreases s, 0
  {
    hide PExprSemi, PCond, PInit, PExpr, PBlock, Pr, PrCond, PrInit;
    var ts := PrStmt(s) + rest;
    var t4 := [CloseParen] + (PrStmt(s.loopBody) + rest);
    var t3 := Top(s.incr) + t4;
    var t2 := Top(s.cond) + ([Semicolon] + t3);
    var t1 := PrInit(s.init) + t2;
    assert ts == [ForTok, OpenParen] + t1;
    assert ts[1..][1..] == t1;
    ParseInit(s.init, t2);
    ParseSemi(s.cond, t3);
    ParsePrinted(s.incr, PREC_ASSIGNMENT, t4);
    assert t4[1..] == PrStmt(s.loopBody) + rest;
    ParseStmt(s.loopBody, rest);
  }

  lemma {:induction false} StartsStmt(s: Stmt)
    ensures |PrStmt(s)| > 0
    ensures Opens(PrStmt(s)[0]) || PrStmt(s)[0] in {PrintTok, OpenBrace, ForTok, WhileTok, IfTok, ReturnTok, SyncTok}
  {
    if s.ExprStmt? { StartsExpr(s.e, PREC_ASSIGNMENT); }
  }

  lemma {:induction false} ParseDecl(d: Decl, rest: Tokens)
    requires ClearDecl(d) && Cur(rest) != ElseTok
    ensures PDecl(PrDecl(d) + rest) == Some((d, rest))
    ensures Cur(PrDecl(d) + rest) !in {CloseBrace, ElseTok, Eof}
    decreases d, 1
  {
    hide PStmt, PVarDecl, PFun, PrVarDecl, PrStmt;
    var ts := PrDecl(d) + rest;
    match d
    case VarDecl(x, e) =>
      assert ts[1..] == PrVarDecl(x, e) + rest;
      ParseVarDecl(x, e, rest);
    case FunDecl(f) => ParseFun(f, rest);
    case StmtDecl(s) =>
      ParseStmt(s, rest);
      StartsStmt(s);
  }

  lemma {:induction false} ParseFun(f: Fun, rest: Tokens)
    requires ClearAll(f.body)
    ensures PDecl(PrDecl(FunDecl(f)) + rest) == Some((FunDecl(f), rest))
    decreases f, 0
  {
    hide PBlock, PrDecls, PParams, PrParams, PDecl, PFun;
    var ts := PrDecl(FunDecl(f)) + rest;
    var t3 := PrDecls(f.body) + ([CloseBrace] + rest);
    var t2 := PrParams(f.params) + ([CloseParen] + ([OpenBrace] + t3));
    var t1 := [Ident(f.name), OpenParen] + t2;
    assert ts == (if f.synced then [FunTok, SyncTok] else [FunTok]) + t1;
    ParseParams(f.params, [OpenBrace] + t3);
    ParseBlock(f.body, rest);
    FunParses(f, ts, t1, t2, t3, rest);
  }

  lemma FunParses(f: Fun, ts: Tokens, t1: Tokens, t2: Tokens, t3: Tokens, rest: Tokens)
    requires ts == (if f.synced then [FunTok, SyncTok] else [FunTok]) + t1 && t1 == [Ident(f.name), OpenParen] + t2
    requires PParams(t2) == Some((f.params, [OpenBrace] + t3)) && PBlock(t3) == Some((f.body, rest))
    ensures PDecl(ts) == Some((FunDecl(f), rest))
  {
    hide PBlock, PParams;
    assert t1[1..][1..] == t2 && ([OpenBrace] + t3)[1..] == t3;
    if f.synced {
      assert ts[2..] == t1 && ts[1..][0] == SyncTok;
    } else {
      assert ts[1..] == t1;
    }
  }

  lemma {:induction false} ParseParams(ps: seq<Name>, rest: Tokens)
    ensures PParams(PrParams(ps) + ([CloseParen] + rest)) == Some((ps, rest))
  {
    var ts := PrParams(ps) + ([CloseParen] + rest);
    if ps == [] {
      assert ts[1..] == rest;
    } else {
      ParseMoreParams(ps, rest);
    }
  }

  lemma ParamsText(ps: seq<Name>, end: Tokens)
    requires ps != []
    ensures PrParams(ps) + end
            == if |ps| == 1 then [Ident(ps[0])] + end else [Ident(ps[0]), Comma] + (PrParams(ps[1..]) + end)
  {
  }

  lemma {:induction false} ParseMoreParams(ps: seq<Name>, rest: Tokens)
    requires ps != []
    ensures PMoreParams(PrParams(ps) + ([CloseParen] + rest)) == Some((ps, rest))
    decreases ps
  {
    hide PrParams;
    var end := [CloseParen] + rest;
    var ts := PrParams(ps) + end;
    ParamsText(ps, end);
    if |ps| == 1 {
      assert ts[1..] == end && end[1..] == rest && ps == [ps[0]];
    } else {
      assert ts[2..] == PrParams(ps[1..]) + end;
      ParseMoreParams(ps[1..], rest);
      assert ps == [ps[0]] + ps[1..];
    }
  }

  lemma {:induction false} ParseBlock(ds: seq<Decl>, rest: Tokens)
    requires ClearAll(ds)
    ensures PBlock(PrDecls(ds) + ([CloseBrace] + rest)) == Some((ds, rest))
    ensures Cur(PrDecls(ds) + ([CloseBrace] + rest)) != ElseTok
    decreases ds, 0
  {
    hide PDecl, PrDecl;
    var end := [CloseBrace] + rest;
    var ts := PrDecls(ds) + end;
    if ds == [] {
      assert ts == end && end[1..] == rest;
    } else {
      var tail := PrDecls(ds[1..]) + end;
      assert ts == PrDecl(ds[0]) + tail;
      ParseBlock(ds[1..], rest);
      ParseDecl(ds[0], tail);
      assert ds == [ds[0]] + ds[1..];
    }
  }

  /** Every package without dangling `else` is read back from its text. */
  lemma {:induction false} ParseProgram(ds: seq<Decl>)
    requires ClearAll(ds)
    ensures PProgram(PrDecls(ds)) == Some(ds)
    ensures Cur(PrDecls(ds)) != ElseTok
    decreases ds, 0
  {
    hide PDecl, PrDecl;
    if ds != [] {
      ParseProgram(ds[1..]);
      ParseDecl(ds[0], PrDecls(ds[1..]));
      assert ds == [ds[0]] + ds[1..];
    }
  }

  // ----- no other tree has a text -----

  /** A statement that was read is clear, and no `else` follows one that would have
      taken it. */
  lemma {:induction false} StmtClear(ts: Tokens)
    requires PStmt(ts).Some?
    ensures var (s, rest) := PStmt(ts).value; Clear(s) && (OpenIf(s) ==> Cur(rest) != ElseTok)
    decreases |ts|, 1
  {
    hide PExpr, PExprSemi, PCond, PInit, PBlock;
    match Cur(ts)
    case OpenBrace => BlockClear(ts[1..]);
    case ForTok =>
      var ts4 := PExpr(PREC_ASSIGNMENT, PExprSemi(PInit(Rest(ts[1..])).value.1).value.1).value.1;
      StmtClear(Rest(ts4));
    case WhileTok => StmtClear(PCond(ts[1..]).value.1);
    case IfTok =>
      var ts1 := PCond(ts[1..]).value.1;
      StmtClear(ts1);
      var ts2 := PStmt(ts1).value.1;
      if Cur(ts2) == ElseTok { StmtClear(ts2[1..]); }
    case SyncTok => StmtClear(ts[1..]);
    case _ =>
  }

  lemma {:induction false} DeclClear(ts: Tokens)
    requires PDecl(ts).Some?
    ensures ClearDecl(PDecl(ts).value.0)
    decreases |ts|, 2
  {
    hide PStmt, PVarDecl, Clear, PParams, PBlock;
    match Cur(ts)
    case VarTok =>
    case FunTok =>
      var ts1 := if Cur(ts[1..]) == SyncTok then ts[2..] else ts[1..];
      BlockClear(Rest(PParams(Rest(ts1[1..])).value.1));
    case _ => StmtClear(ts);
  }

  lemma {:induction false} BlockClear(ts: Tokens)
    requires PBlock(ts).Some?
    ensures ClearAll(PBlock(ts).value.0)
    decreases |ts|, 3
  {
    hide PDecl, ClearDecl;
    if Cur(ts) != CloseBrace {
      DeclClear(ts);
      BlockClear(PDecl(ts).value.1);
    }
  }

  lemma {:induction false} ProgramClear(ts: Tokens)
    requires PProgram(ts).Some?
    ensures ClearAll(PProgram(ts).value)
    decreases |ts|
  {
    hide PDecl, ClearDecl;
    if Cur(ts) != Eof {
      DeclClear(ts);
      ProgramClear(PDecl(ts).value.1);
    }
  }

  /** A package has a text if and only if no `else` in it dangles. */
  lemma TextIff(ds: seq<Decl>)
    ensures (exists ts :: PProgram(ts) == Some(ds)) <==> ClearAll(ds)
  {
    hide PProgram, ClearAll, PrDecls;
    if ClearAll(ds) { ParseProgram(ds); }
    if ts :| PProgram(ts) == Some(ds) { ProgramClear(ts); }
  }
}
