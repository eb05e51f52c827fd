// What the one-pass compiler is to do with a piece of text: parse it, then
// generate code for the tree.
module CompilerSpec {
  import opened Wrappers
  import opened Bytecode
  import opened Syntax
  import opened CodeGen
  import opened Parser

  type Result = Option<(Out, Tokens)>

  /** The compiler accepted the text and appended exactly the code `r` asks for,
      or rejected it because there is none. */
  ghost predicate Did(ok: bool, r: Result, before: seq<Byte>, after: seq<Byte>, c: Ctx, rest: Tokens) {
    if r.None? then !ok else ok && after == before + r.value.0.code && c == r.value.0.c && rest == r.value.1
  }

  function CPrefix(p: nat, ts: Tokens, c: Ctx): Result {
    var (e, r) :- PPrefix(p, ts);
    var o :- GenExpr(e, c);
    Some((o, r))
  }

  /** An expression and the parenthesis that closes it. */
  function CGroup(ts: Tokens, c: Ctx): Result {
    var (e, r) :- PExpr(PREC_ASSIGNMENT, ts);
    var r1 :- Expect(CloseParen, r);
    var o :- GenExpr(e, c);
    Some((o, r1))
  }

  function CUnary(op: UnOp, ts: Tokens, c: Ctx): Result {
    var (e, r) :- PExpr(PREC_UNARY, ts);
    var o :- GenExpr(e, c);
    Some((Out(o.code + [if op == Minus then OP_NEGATE else OP_NOT], o.c), r))
  }

  function CAssign(x: Name, ts: Tokens, c: Ctx): Result {
    var (e, r) :- PExpr(PREC_ASSIGNMENT, ts);
    var o :- GenExpr(Assign(x, e), c);
    Some((o, r))
  }

  /** A variable, or an assignment to it. */
  function CVariable(x: Name, canAssign: bool, ts: Tokens, c: Ctx): Result {
    if Cur(ts) == OpenBrace then None
    else if canAssign && Cur(ts) == EqualTok then CAssign(x, Rest(ts), c)
    else
      var o :- GenVar(x, c);
      Some((o, ts))
  }

  function WithRest(o: Option<Out>, ts: Tokens): Result {
    if o.None? then None else Some((o.value, ts))
  }

  /** The prefix rules, token by token. */
  lemma PrefixCases(p: nat, ts: Tokens, c: Ctx)
    ensures CPrefix(p, ts, c) ==
            if ts == [] then None
            else
              match ts[0]
              case OpenParen => CGroup(ts[1..], c)
              case Operator(op) => if op == Sub then CUnary(Minus, ts[1..], c) else None
              case BangTok => CUnary(Bang, ts[1..], c)
              case Ident(x) => CVariable(x, p <= PREC_ASSIGNMENT, ts[1..], c)
              case NumberTok(v, d) => WithRest(GenNumber(v, d, c), ts[1..])
              case StringTok(s) => WithRest(GenConst(VStr(s), c), ts[1..])
              case NilTok => Some((Out([OP_NIL], c), ts[1..]))
              case TrueTok => Some((Out([OP_TRUE], c), ts[1..]))
              case FalseTok => Some((Out([OP_FALSE], c), ts[1..]))
              case _ => None
  {
    hide PExpr;
  }

  function CExpr(p: nat, ts: Tokens, c: Ctx): (x: Result)
    requires p > 0
    ensures x.Some? ==> Grows(c, x.value.0.c)
  {
    var (e, r) :- PExpr(p, ts);
    var o :- GenExpr(e, c);
    Some((o, r))
  }

  function CArgs(ts: Tokens, c: Ctx): Result {
    var (es, r) :- PArgs(ts);
    var o :- GenArgs(es, c);
    Some((o, r))
  }

  /** The right operand of an operator, and the operator. */
  function CBinary(op: BinOp, ts: Tokens, c: Ctx): Result {
    var (e, r) :- PExpr(OpPrec(op) + 1, ts);
    var o :- GenExpr(e, c);
    Some((Out(o.code + OpCode(op), o.c), r))
  }

  /** The arguments of a call, and the call. */
  function CCall(ts: Tokens, c: Ctx): Result {
    var (es, r) :- PArgs(ts);
    var o :- GenArgs(es, c);
    Some((Out(o.code + [OP_CALL, |es| % 256, 0], o.c), r))
  }

  function CExprSemi(ts: Tokens, c: Ctx): (x: Result)
    ensures x.Some? ==> Grows(c, x.value.0.c)
  {
    var (e, r) :- PExprSemi(ts);
    var o :- GenExpr(e, c);
    Some((o, r))
  }

  function CEffect(ts: Tokens, c: Ctx): Result {
    var (e, r) :- PExprSemi(ts);
    var o :- GenEffect(e, c);
    Some((o, r))
  }

  function CCond(ts: Tokens, c: Ctx): Result {
    var (e, r) :- PCond(ts);
    var o :- GenExpr(e, c);
    Some((o, r))
  }

  function CIncr(ts: Tokens, c: Ctx): Result {
    var (e, r) :- PExpr(PREC_ASSIGNMENT, ts);
    var r1 :- Expect(CloseParen, r);
    var o :- GenIncr(e, c);
    Some((o, r1))
  }

  function CVarDecl(ts: Tokens, c: Ctx): Result {
    var (x, e, r) :- PVarDecl(ts);
    var o :- GenVarDecl(x, e, c);
    Some((o, r))
  }

  /** The value of a new variable, nil unless one is given. */
  function CInitializer(ts: Tokens, c: Ctx): (x: Result)
    ensures x.Some? ==> Grows(c, x.value.0.c)
  {
    if Cur(ts) == EqualTok then CExpr(PREC_ASSIGNMENT, Rest(ts), c) else Some((Out([OP_NIL], c), ts))
  }

  /** A new variable: its slot or the constant of its name, and what is known from
      here on. */
  function Declare(x: Name, c: Ctx): (r: Option<(Byte, Ctx)>)
    ensures r.Some? ==> r.value.1.depth == c.depth
  {
    if c.depth > 0 then
      var c1 :- AddLocal(c, x);
      Some((|c.locals| % 256, c1.(pending := |c.locals|)))
    else AddConst(c, VStr(x))
  }

  function CVarDeclParts(ts: Tokens, c: Ctx): Result {
    if !Cur(ts).Ident? then None
    else
      var (id, c1) :- Declare(ts[0].name, c);
      var (o, ts1) :- CInitializer(ts[1..], c1);
      var r :- Expect(Semicolon, ts1);
      Some(if c.depth > 0 then (Out(o.code + [OP_SET_LOCAL, id], o.c.(pending := -2)), r)
           else (Out(o.code + [OP_DEFINE_GLOBAL, id], o.c), r))
  }

  lemma VarDeclCase(ts: Tokens, c: Ctx)
    ensures CVarDecl(ts, c) == CVarDeclParts(ts, c)
  {
    hide PExpr, GenExpr, AddLocal;
    if Cur(ts).Ident? && Cur(ts[1..]) == EqualTok { assert ts[1..][1..] == ts[2..]; }
  }

  /** An assignment is the code of its value and one instruction. */
  lemma AssignCase(x: Name, ts: Tokens, c: Ctx)
    ensures var slot := Resolve(c.locals, x);
            CAssign(x, ts, c) ==
            if slot == c.pending || c.setOp then None
            else if slot != -1 then WithCode(CExpr(PREC_ASSIGNMENT, ts, c.(setOp := true)), [OP_SET_LOCAL, slot % 256])
            else
              match AddConst(c, VStr(x))
              case None => None
              case Some((k, c1)) => WithCode(CExpr(PREC_ASSIGNMENT, ts, c1.(setOp := true)), [OP_SET_GLOBAL, k])
  {
    hide PExpr, Resolve;
  }

  function WithCode(x: Result, code: seq<Byte>): Result {
    var (o, r) :- x;
    Some((Out(o.code + code, o.c), r))
  }

  lemma SemiCase(ts: Tokens, c: Ctx)
    ensures CExprSemi(ts, c) ==
            match CExpr(PREC_ASSIGNMENT, ts, c)
            case None => None
            case Some(x) => if Cur(x.1) == Semicolon then Some((x.0, x.1[1..])) else None
  {
    hide PExpr, GenExpr;
  }

  function CInit(ts: Tokens, c: Ctx): (x: Result)
    ensures x.Some? ==> x.value.0.c.depth == c.depth
  {
    var (i, r) :- PInit(ts);
    var o :- GenInit(i, c);
    Some((o, r))
  }

  function CStmt(ts: Tokens, c: Ctx): (x: Result)
    ensures x.Some? ==> x.value.0.c.depth == c.depth && |x.value.1| < |ts|
  {
    var (s, r) :- PStmt(ts);
    var o :- GenStmt(s, c);
    Some((o, r))
  }

  function CDecl(ts: Tokens, c: Ctx): (x: Result)
    ensures x.Some? ==> x.value.0.c.depth == c.depth && |x.value.1| < |ts|
  {
    var (d, r) :- PDecl(ts);
    var o :- GenDecl(d, c);
    Some((o, r))
  }

  function CBlock(ts: Tokens, c: Ctx): (x: Result)
    ensures x.Some? ==> x.value.0.c.depth == c.depth
  {
    var (ds, r) :- PBlock(ts);
    var o :- GenDecls(ds, c);
    Some((o, r))
  }

  // Statements behind their keyword, piece by piece.

  function CPrint(ts: Tokens, c: Ctx): Result {
    var (o, r) :- CExprSemi(ts, c);
    Some((Out(o.code + [OP_PRINT], o.c), r))
  }

  function CBraces(ts: Tokens, c: Ctx): Result {
    var (o, r) :- CBlock(ts, BeginScope(c));
    Some((Out(o.code, EndScope(o.c)), r))
  }

  function CWhile(ts: Tokens, c: Ctx): Result {
    var (o, ts1) :- CCond(ts, c);
    var (p, r) :- CStmt(ts1, o.c);
    Some((Out(LoopCode(o.code, p.code), p.c), r))
  }

  /** The `else` branch, if there is one. */
  function CElse(ts: Tokens, c: Ctx): (x: Result)
  {
    if Cur(ts) == ElseTok then CStmt(ts[1..], c) else Some((Out([], c), ts))
  }

  /** Both branches of an `if`, with the jumps around them. */
  function CBranches(ts: Tokens, c: Ctx): Result {
    var (p, ts1) :- CStmt(ts, c);
    var (q, r) :- CElse(ts1, p.c);
    Some((Out(Jump(OP_JUMP_IF_FALSE, |p.code| + 3) + p.code + Jump(OP_JUMP, |q.code|) + q.code, q.c), r))
  }

  function CIf(ts: Tokens, c: Ctx): Result {
    var (o, ts1) :- CCond(ts, c);
    var (p, r) :- CBranches(ts1, o.c);
    Some((Out(o.code + p.code, p.c), r))
  }

  /** Increment and body of a `for`, in the order of the text; the code of the
      increment stands behind that of the body. */
  function CBodyIncr(ts: Tokens, c: Ctx): Result {
    var (q, ts1) :- CIncr(ts, c);
    var (p, r) :- CStmt(ts1, q.c);
    Some((Out(p.code + q.code, p.c), r))
  }

  /** Condition, increment and body of a `for`. */
  function CForRest(ts: Tokens, c: Ctx): (x: Result)
    ensures x.Some? ==> x.value.0.c.depth == c.depth
  {
    var (o, ts1) :- CExprSemi(ts, c);
    var (p, r) :- CBodyIncr(ts1, o.c);
    Some((Out(LoopCode(o.code, p.code), p.c), r))
  }

  function CFor(ts: Tokens, c: Ctx): Result {
    var ts1 :- Expect(OpenParen, ts);
    var (i, ts2) :- CInit(ts1, BeginScope(c));
    var (p, r) :- CForRest(ts2, i.c);
    Some((Out(i.code + p.code, EndScope(p.c)), r))
  }

  function CReturn(ts: Tokens, c: Ctx): Result {
    if !c.inFun then None
    else if Cur(ts) == Semicolon then Some((Out(ExitAll(c.held) + [OP_NIL, OP_RETURN], c), ts[1..]))
    else
      var (o, r) :- CExprSemi(ts, c);
      Some((Out(o.code + ExitAll(c.held) + [OP_RETURN], o.c), r))
  }

  function CSync(ts: Tokens, c: Ctx): Result {
    if !c.inFun || c.nextMon >= MAX_MONITORS_PER_FUNCTION then None
    else
      var m := c.nextMon;
      var (o, r) :- CStmt(ts, c.(nextMon := m + 1, held := c.held + [m]));
      Some((Out([OP_ENTER_MONITOR, m] + o.code + [OP_EXIT_MONITOR, m], o.c.(held := c.held)), r))
  }

  lemma StmtCases(ts: Tokens, c: Ctx)
    ensures CStmt(ts, c) ==
            match Cur(ts)
            case PrintTok => CPrint(ts[1..], c)
            case OpenBrace => CBraces(ts[1..], c)
            case ForTok => CFor(ts[1..], c)
            case WhileTok => CWhile(ts[1..], c)
            case IfTok => CIf(ts[1..], c)
            case ReturnTok => CReturn(ts[1..], c)
            case SyncTok => CSync(ts[1..], c)
            case _ => CEffect(ts, c)
  {
    hide PExpr, PBlock, GenExpr, GenDecls;
    match Cur(ts)
    case ForTok => ForCase(ts, c);
    case WhileTok => WhileCase(ts, c);
    case IfTok => IfCase(ts, c);
    case _ => hide PCond, PInit, GenLoop;
  }

  lemma WhileCase(ts: Tokens, c: Ctx)
    requires Cur(ts) == WhileTok
    ensures CStmt(ts, c) == CWhile(ts[1..], c)
  {
    hide PExpr, PBlock, GenExpr, GenDecls, PCond, PInit;
    var x := PStmt(ts);
    if x.Some? {
      var s := x.value.0;
      assert GenStmt(s, c) == GenLoop(s, c);
      if GenLoop(s, c).Some? {
        var p := GenStmt(s.loopBody, GenExpr(s.cond, c).value.c).value;
        assert p.code + [] == p.code;
      }
    }
  }

  lemma IfCase(ts: Tokens, c: Ctx)
    requires Cur(ts) == IfTok
    ensures CStmt(ts, c) == CIf(ts[1..], c)
  {
    hide PExpr, PBlock, GenExpr, GenDecls, GenLoop, GenEffect, PCond, PInit, PExprSemi, Expect, Jump, Grows, ExitAll;
    var x := CIf(ts[1..], c);
    if x.Some? {
      var (o, ts1) := CCond(ts[1..], c).value;
      var (p, ts2) := CStmt(ts1, o.c).value;
      var q := CElse(ts2, p.c).value.0;
      BranchesPatched(o.code, p.code, q.code);
    }
  }

  lemma ForCase(ts: Tokens, c: Ctx)
    requires Cur(ts) == ForTok
    ensures CStmt(ts, c) == CFor(ts[1..], c)
  {
    hide PExpr, PBlock, GenExpr, GenDecls, GenEffect, PCond, PInit, GenInit, PExprSemi, BeginScope, EndScope, LoopCode,
         Jump, Grows, ExitAll;
    var x := PStmt(ts);
    if x.Some? {
      var s := x.value.0;
      var i := GenInit(s.init, BeginScope(c));
      if i.Some? {
        var l := GenLoop(s, i.value.c);
      }
    }
  }

  // ----- functions -----

  function CParams(ts: Tokens, c: Ctx): Option<(nat, Ctx, Tokens)> {
    var (ps, r) :- PParams(ts);
    var d :- GenParams(ps, c);
    Some((|ps|, d, r))
  }

  /** Parameters of a function up to the brace that opens its body. */
  function CHeader(ts: Tokens, c: Ctx): Option<(nat, Ctx, Tokens)> {
    var ts1 :- Expect(OpenParen, ts);
    var (n, d, ts2) :- CParams(ts1, c);
    var r :- Expect(OpenBrace, ts2);
    Some((n, d, r))
  }

  /** The body of a function, with what is emitted around it. */
  function CFunBlock(synced: bool, ts: Tokens, c: Ctx): Result {
    var (o, r) :- CBlock(ts, EnterMain(synced, c));
    Some((Out(FunCode(synced, o.code), o.c), r))
  }

  /** A function behind its name. */
  function CFun(synced: bool, ts: Tokens): Option<(FunObj, Tokens)> {
    var (n, c, ts1) :- CHeader(ts, StartCtx(true, []));
    var (o, r) :- CFunBlock(synced, ts1, c);
    Some((FunObj(o.code, o.c.consts, n, o.c.maxLocals), r))
  }

  function CFunDecl(synced: bool, ts: Tokens, c: Ctx): Result {
    if c.inFun || !Cur(ts).Ident? then None
    else
      var (name, c1) :- AddConst(c, VStr(ts[0].name));
      var (obj, r) :- CFun(synced, ts[1..]);
      var (k, c2) :- AddConst(c1, VFun(|c1.funs|));
      Some((Out([OP_CONSTANT, k] + (if c.depth == 0 then [OP_DEFINE_GLOBAL, name] else []),
                c2.(funs := c2.funs + [obj])), r))
  }

  lemma DeclCases(ts: Tokens, c: Ctx)
    ensures CDecl(ts, c) ==
            match Cur(ts)
            case VarTok => CVarDecl(ts[1..], c)
            case FunTok =>
              if Cur(ts[1..]) == SyncTok then CFunDecl(true, ts[2..], c) else CFunDecl(false, ts[1..], c)
            case _ => CStmt(ts, c)
  {
    hide PExpr, PStmt, GenStmt, PBlock, GenDecls, GenParams, PParams, GenVarDecl, PVarDecl;
    if Cur(ts) == FunTok {
      var synced := Cur(ts[1..]) == SyncTok;
      FunCase(synced, if synced then ts[2..] else ts[1..], c);
    }
  }

  lemma FunCase(synced: bool, ts: Tokens, c: Ctx)
    ensures CFunDecl(synced, ts, c) ==
            match PFun(synced, ts)
            case None => None
            case Some(x) => WithRest(GenDecl(FunDecl(x.0), c), x.1)
  {
    hide PBlock, GenDecls, GenParams, PParams;
    var x := PFun(synced, ts);
    if x.Some? {
      var obj := GenFun(x.value.0);
      assert GenDecl(FunDecl(x.value.0), c).Some? ==> obj.Some?;
    }
  }

  // ----- facts the loops need -----

  /** A left operand that cannot be compiled spoils the whole expression. */
  lemma {:induction false} LeftFails(p: nat, e: Expr, ts: Tokens, c: Ctx)
    requires p > 0 && GenExpr(e, c).None?
    ensures PLoop(p, e, ts).Some? ==> GenExpr(PLoop(p, e, ts).value.0, c).None?
    decreases |ts|
  {
    if p <= Prec(Cur(ts)) {
      if ts[0].Operator? {
        var r := PExpr(OpPrec(ts[0].op) + 1, ts[1..]);
        if r.Some? { LeftFails(p, Binary(ts[0].op, e, r.value.0), r.value.1, c); }
      } else {
        var r := PArgs(ts[1..]);
        if r.Some? { LeftFails(p, Call(e, r.value.0), r.value.1, c); }
      }
    }
  }

  /** What stands behind a left operand: an operator with its right operand, or
      the arguments of a call. */
  function CSuffix(ts: Tokens, c: Ctx): Result
    requires ts != []
  {
    if ts[0].Operator? then CBinary(ts[0].op, ts[1..], c) else CCall(ts[1..], c)
  }

  function Joined(e: Expr, ts: Tokens): Expr
    requires ts != []
  {
    if ts[0].Operator? then
      var r := PExpr(OpPrec(ts[0].op) + 1, ts[1..]);
      if r.Some? then Binary(ts[0].op, e, r.value.0) else e
    else
      var r := PArgs(ts[1..]);
      if r.Some? then Call(e, r.value.0) else e
  }

  lemma SuffixFails(p: nat, e: Expr, ts: Tokens, c: Ctx, o: Out)
    requires 0 < p <= Prec(Cur(ts)) && GenExpr(e, c) == Some(o) && CSuffix(ts, o.c).None?
    ensures PLoop(p, e, ts).Some? ==> GenExpr(PLoop(p, e, ts).value.0, c).None?
  {
    if ts[0].Operator? {
      var r := PExpr(OpPrec(ts[0].op) + 1, ts[1..]);
      if r.Some? {
        OperandFails(e, r.value.0, ts[0].op, c, o);
        LeftFails(p, Joined(e, ts), r.value.1, c);
      }
    } else {
      var r := PArgs(ts[1..]);
      if r.Some? {
        CallFails(e, r.value.0, c, o);
        LeftFails(p, Joined(e, ts), r.value.1, c);
      }
    }
    hide GenExpr, GenArgs, Grows, OpCode;
  }

  lemma OperandFails(e: Expr, r: Expr, op: BinOp, c: Ctx, o: Out)
    requires GenExpr(e, c) == Some(o) && GenExpr(r, o.c).None?
    ensures GenExpr(Binary(op, e, r), c).None?
  {
  }

  lemma CallFails(e: Expr, es: seq<Expr>, c: Ctx, o: Out)
    requires GenExpr(e, c) == Some(o) && GenArgs(es, o.c).None?
    ensures GenExpr(Call(e, es), c).None?
  {
  }

  lemma SuffixDone(p: nat, e: Expr, ts: Tokens, c: Ctx, o: Out)
    requires 0 < p <= Prec(Cur(ts)) && GenExpr(e, c) == Some(o) && CSuffix(ts, o.c).Some?
    ensures var (t, rest) := CSuffix(ts, o.c).value;
            && GenExpr(Joined(e, ts), c) == Some(Out(o.code + t.code, t.c))
            && PLoop(p, e, ts) == PLoop(p, Joined(e, ts), rest) && |rest| < |ts|
  {
    if ts[0].Operator? {
      BinaryDone(e, PExpr(OpPrec(ts[0].op) + 1, ts[1..]).value.0, ts[0].op, c, o);
    } else {
      CallDone(e, PArgs(ts[1..]).value.0, c, o);
    }
    hide GenExpr, GenArgs, Grows, OpCode;
  }

  lemma BinaryDone(e: Expr, r: Expr, op: BinOp, c: Ctx, o: Out)
    requires GenExpr(e, c) == Some(o) && GenExpr(r, o.c).Some?
    ensures var q := GenExpr(r, o.c).value;
            GenExpr(Binary(op, e, r), c) == Some(Out(o.code + (q.code + OpCode(op)), q.c))
  {
    hide OpCode;
    var q := GenExpr(r, o.c).value;
    assert o.code + q.code + OpCode(op) == o.code + (q.code + OpCode(op));
  }

  lemma CallDone(e: Expr, es: seq<Expr>, c: Ctx, o: Out)
    requires GenExpr(e, c) == Some(o) && GenArgs(es, o.c).Some?
    ensures var q := GenArgs(es, o.c).value;
            GenExpr(Call(e, es), c) == Some(Out(o.code + (q.code + [OP_CALL, |es| % 256, 0]), q.c))
  {
    hide GenArgs;
    var q := GenArgs(es, o.c).value;
    var call: seq<Byte> := [OP_CALL, |es| % 256, 0];
    assert o.code + q.code + call == o.code + (q.code + call);
  }

  // Lists are read one element at a time: `xs` have been read, `r` is what the
  // rest of the list gives.

  function Onto<T>(xs: seq<T>, r: Option<(seq<T>, Tokens)>): Option<(seq<T>, Tokens)> {
    if r.None? then None else Some((xs + r.value.0, r.value.1))
  }

  lemma OntoTwice<T>(xs: seq<T>, x: T, r: Option<(seq<T>, Tokens)>)
    ensures Onto(xs, Onto([x], r)) == Onto(xs + [x], r)
  {
    if r.Some? { assert xs + ([x] + r.value.0) == xs + [x] + r.value.0; }
  }

  /** If the next argument cannot be compiled, neither can the list. */
  lemma ArgFails(es: seq<Expr>, e: Expr, fs: seq<Expr>, c: Ctx, o: Out)
    requires GenArgs(es, c) == Some(o) && GenExpr(e, o.c).None?
    ensures GenArgs(es + ([e] + fs), c).None?
  {
    GenArgsAppend(es, [e] + fs, c);
  }

  lemma ArgDone(es: seq<Expr>, e: Expr, c: Ctx, o: Out, p: Out)
    requires GenArgs(es, c) == Some(o) && GenExpr(e, o.c) == Some(p)
    ensures GenArgs(es + [e], c) == Some(Out(o.code + p.code, p.c))
  {
    GenArgsAppend(es, [e], c);
    assert [e][1..] == [];
    assert p.code + [] == p.code;
  }

  lemma MoreArgs(ts: Tokens)
    ensures PMoreArgs(ts) ==
            match PExpr(PREC_ASSIGNMENT, ts)
            case None => None
            case Some(x) =>
              if Cur(x.1) == Comma then Onto([x.0], PMoreArgs(x.1[1..]))
              else if Cur(x.1) == CloseParen then Some(([x.0], x.1[1..]))
              else None
  {
    hide PExpr;
  }

  // While arguments are compiled, those before `ts` have given `o`; `more` is false
  // behind the last one.

  ghost predicate ArgsSoFar(ts0: Tokens, c: Ctx, es: seq<Expr>, o: Out, more: bool, ts: Tokens) {
    && GenArgs(es, c) == Some(o)
    && PMoreArgs(ts0) == if more then Onto(es, PMoreArgs(ts))
                         else if Cur(ts) == CloseParen then Some((es, ts[1..])) else None
  }

  lemma NoArgs(ts: Tokens, c: Ctx)
    requires Cur(ts) == CloseParen
    ensures CArgs(ts, c) == Some((Out([], c), ts[1..])) && PArgs(ts).value.0 == []
  {
  }

  lemma ArgsBegin(ts: Tokens, c: Ctx)
    ensures ArgsSoFar(ts, c, [], Out([], c), true, ts)
  {
    OntoNothing(PMoreArgs(ts));
  }

  lemma ArgsFail(ts0: Tokens, c: Ctx, es: seq<Expr>, o: Out, ts: Tokens)
    requires ArgsSoFar(ts0, c, es, o, true, ts) && CExpr(PREC_ASSIGNMENT, ts, o.c).None? && Cur(ts0) != CloseParen
    ensures CArgs(ts0, c).None?
  {
    hide PExpr, GenArgs;
    MoreArgs(ts);
    if PMoreArgs(ts).Some? {
      var xs := PMoreArgs(ts).value.0;
      assert xs == [xs[0]] + xs[1..];
      ArgFails(es, xs[0], xs[1..], c, o);
    }
  }

  lemma ArgsGoOn(ts0: Tokens, c: Ctx, es: seq<Expr>, o: Out, ts: Tokens) returns (e: Expr, r: Out)
    requires ArgsSoFar(ts0, c, es, o, true, ts) && CExpr(PREC_ASSIGNMENT, ts, o.c).Some?
    ensures r == CExpr(PREC_ASSIGNMENT, ts, o.c).value.0
    ensures var ts1 := CExpr(PREC_ASSIGNMENT, ts, o.c).value.1;
            ArgsSoFar(ts0, c, es + [e], Out(o.code + r.code, r.c), Cur(ts1) == Comma,
                      if Cur(ts1) == Comma then Rest(ts1) else ts1)
            && |ts1| < |ts|
  {
    hide PExpr, GenArgs;
    MoreArgs(ts);
    var ts1 := CExpr(PREC_ASSIGNMENT, ts, o.c).value.1;
    e := PExpr(PREC_ASSIGNMENT, ts).value.0;
    r := GenExpr(e, o.c).value;
    ArgDone(es, e, c, o, r);
    if Cur(ts1) == Comma { OntoTwice(es, e, PMoreArgs(ts1[1..])); }
  }

  lemma ArgsEnd(ts0: Tokens, c: Ctx, es: seq<Expr>, o: Out, ts: Tokens)
    requires ArgsSoFar(ts0, c, es, o, false, ts) && Cur(ts0) != CloseParen
    ensures CArgs(ts0, c) == if Cur(ts) == CloseParen then Some((o, ts[1..])) else None
    ensures Cur(ts) == CloseParen ==> PArgs(ts0).value.0 == es
  {
    hide GenArgs;
  }

  lemma DeclFails(ds: seq<Decl>, d: Decl, es: seq<Decl>, c: Ctx, o: Out)
    requires GenDecls(ds, c) == Some(o) && GenDecl(d, o.c).None?
    ensures GenDecls(ds + ([d] + es), c).None?
  {
    GenDeclsAppend(ds, [d] + es, c);
  }

  lemma DeclDone(ds: seq<Decl>, d: Decl, c: Ctx, o: Out, p: Out)
    requires GenDecls(ds, c) == Some(o) && GenDecl(d, o.c) == Some(p)
    ensures GenDecls(ds + [d], c) == Some(Out(o.code + p.code, p.c))
  {
    GenDeclsAppend(ds, [d], c);
    assert [d][1..] == [];
    assert p.code + [] == p.code;
  }

  lemma {:induction false} GenDeclsAppend(ds: seq<Decl>, es: seq<Decl>, c: Ctx)
    ensures GenDecls(ds + es, c) ==
            match GenDecls(ds, c)
            case None => None
            case Some(o) =>
              match GenDecls(es, o.c)
              case None => None
              case Some(p) => Some(Out(o.code + p.code, p.c))
    decreases |ds|
  {
    hide GenDecl;
    if ds == [] {
      assert ds + es == es;
      if GenDecls(es, c).Some? { assert [] + GenDecls(es, c).value.code == GenDecls(es, c).value.code; }
    } else {
      assert (ds + es)[1..] == ds[1..] + es;
      if GenDecl(ds[0], c).Some? {
        var o := GenDecl(ds[0], c).value;
        GenDeclsAppend(ds[1..], es, o.c);
        if GenDecls(ds[1..], o.c).Some? && GenDecls(es, GenDecls(ds[1..], o.c).value.c).Some? {
          var p := GenDecls(ds[1..], o.c).value;
          var q := GenDecls(es, p.c).value;
          assert o.code + (p.code + q.code) == (o.code + p.code) + q.code;
        }
      }
    }
  }

  lemma {:induction false} GenArgsAppend(ds: seq<Expr>, es: seq<Expr>, c: Ctx)
    ensures GenArgs(ds + es, c) ==
            match GenArgs(ds, c)
            case None => None
            case Some(o) =>
              match GenArgs(es, o.c)
              case None => None
              case Some(p) => Some(Out(o.code + p.code, p.c))
    decreases |ds|
  {
    hide GenExpr;
    if ds == [] {
      assert ds + es == es;
      if GenArgs(es, c).Some? { assert [] + GenArgs(es, c).value.code == GenArgs(es, c).value.code; }
    } else {
      assert (ds + es)[1..] == ds[1..] + es;
      if GenExpr(ds[0], c).Some? {
        var o := GenExpr(ds[0], c).value;
        GenArgsAppend(ds[1..], es, o.c);
        if GenArgs(ds[1..], o.c).Some? && GenArgs(es, GenArgs(ds[1..], o.c).value.c).Some? {
          var p := GenArgs(ds[1..], o.c).value;
          var q := GenArgs(es, p.c).value;
          assert o.code + (p.code + q.code) == (o.code + p.code) + q.code;
        }
      }
    }
  }

  lemma {:induction false} GenParamsAppend(ps: seq<Name>, qs: seq<Name>, c: Ctx)
    ensures GenParams(ps + qs, c) ==
            match GenParams(ps, c) case None => None case Some(d) => GenParams(qs, d)
    decreases |ps|
  {
    if ps == [] {
      assert ps + qs == qs;
    } else {
      assert (ps + qs)[1..] == ps[1..] + qs;
      if AddLocal(c, ps[0]).Some? { GenParamsAppend(ps[1..], qs, AddLocal(c, ps[0]).value); }
    }
  }

  lemma NoParams(c: Ctx)
    ensures GenParams([], c) == Some(c)
  {
  }

  lemma OntoNothing<T>(r: Option<(seq<T>, Tokens)>)
    ensures Onto([], r) == r
  {
    if r.Some? { assert [] + r.value.0 == r.value.0; }
  }

  lemma BlockStep(ts: Tokens)
    ensures PBlock(ts) ==
            if Cur(ts) == Eof then None
            else if Cur(ts) == CloseBrace then Some(([], ts[1..]))
            else
              match PDecl(ts)
              case None => None
              case Some(x) => Onto([x.0], PBlock(x.1))
  {
    hide PDecl;
  }

  // While a block is compiled, the declarations `ds` before `ts` have given `o`.

  ghost predicate BlockSoFar(ts0: Tokens, c: Ctx, ds: seq<Decl>, o: Out, ts: Tokens) {
    PBlock(ts0) == Onto(ds, PBlock(ts)) && GenDecls(ds, c) == Some(o)
  }

  lemma BlockBegins(ts: Tokens, c: Ctx)
    ensures BlockSoFar(ts, c, [], Out([], c), ts)
  {
    OntoNothing(PBlock(ts));
  }

  lemma BlockFails(ts0: Tokens, c: Ctx, ds: seq<Decl>, o: Out, ts: Tokens)
    requires BlockSoFar(ts0, c, ds, o, ts) && Cur(ts) != CloseBrace && CDecl(ts, o.c).None?
    ensures CBlock(ts0, c).None?
  {
    hide PDecl, GenDecls;
    BlockStep(ts);
    if PBlock(ts).Some? {
      var xs := PBlock(ts).value.0;
      assert xs == [xs[0]] + xs[1..];
      DeclFails(ds, xs[0], xs[1..], c, o);
    }
  }

  lemma BlockGoesOn(ts0: Tokens, c: Ctx, ds: seq<Decl>, o: Out, ts: Tokens) returns (d: Decl, p: Out)
    requires BlockSoFar(ts0, c, ds, o, ts) && Cur(ts) != CloseBrace && Cur(ts) != Eof && CDecl(ts, o.c).Some?
    ensures p == CDecl(ts, o.c).value.0
    ensures BlockSoFar(ts0, c, ds + [d], Out(o.code + p.code, p.c), CDecl(ts, o.c).value.1)
  {
    hide PDecl, GenDecls;
    BlockStep(ts);
    d, p := DeclStep(ds, ts, c, o);
    OntoTwice(ds, d, PBlock(CDecl(ts, o.c).value.1));
  }

  lemma BlockEnds(ts0: Tokens, c: Ctx, ds: seq<Decl>, o: Out, ts: Tokens)
    requires BlockSoFar(ts0, c, ds, o, ts) && (Cur(ts) == CloseBrace || Cur(ts) == Eof)
    ensures CBlock(ts0, c) == if Cur(ts) == CloseBrace then Some((o, ts[1..])) else None
  {
    hide GenDecls;
    BlockStep(ts);
    assert ds + [] == ds;
  }

  lemma DeclStep(ds: seq<Decl>, ts: Tokens, c: Ctx, o: Out) returns (d: Decl, p: Out)
    requires GenDecls(ds, c) == Some(o) && CDecl(ts, o.c).Some?
    ensures PDecl(ts) == Some((d, CDecl(ts, o.c).value.1)) && p == CDecl(ts, o.c).value.0
    ensures GenDecls(ds + [d], c) == Some(Out(o.code + p.code, p.c))
  {
    d, p := PDecl(ts).value.0, CDecl(ts, o.c).value.0;
    DeclDone(ds, d, c, o, p);
  }

  lemma MoreParams(ts: Tokens)
    ensures PMoreParams(ts) ==
            if !Cur(ts).Ident? then None
            else if Cur(ts[1..]) == Comma then Onto([ts[0].name], PMoreParams(ts[1..][1..]))
            else if Cur(ts[1..]) == CloseParen then Some(([ts[0].name], ts[1..][1..]))
            else None
  {
    if Cur(ts).Ident? && Cur(ts[1..]) == Comma { assert ts[1..][1..] == ts[2..]; }
  }

  lemma ParamsFail(ps: seq<Name>, ts: Tokens, c: Ctx, d: Ctx)
    requires GenParams(ps, c) == Some(d) && Cur(ts).Ident? && AddLocal(d, ts[0].name).None?
    ensures Onto(ps, PMoreParams(ts)).Some? ==> GenParams(Onto(ps, PMoreParams(ts)).value.0, c).None?
  {
    if PMoreParams(ts).Some? {
      GenParamsAppend(ps, PMoreParams(ts).value.0, c);
    }
  }

  lemma ParamDone(ps: seq<Name>, x: Name, c: Ctx, d: Ctx)
    requires GenParams(ps, c) == Some(d)
    ensures GenParams(ps + [x], c) == AddLocal(d, x)
  {
    GenParamsAppend(ps, [x], c);
    assert [x][1..] == [];
  }

  // ----- packages -----

  /** What compiling a whole package is to give. */
  function CProgram(ts: Tokens): Option<Program> {
    var ds :- PProgram(ts);
    GenProgram(ds)
  }

  function OntoDecls(ds: seq<Decl>, r: Option<seq<Decl>>): Option<seq<Decl>> {
    if r.None? then None else Some(ds + r.value)
  }

  lemma OntoNoDecls(r: Option<seq<Decl>>)
    ensures OntoDecls([], r) == r
  {
    if r.Some? { assert [] + r.value == r.value; }
  }

  lemma OntoDeclsTwice(ds: seq<Decl>, d: Decl, r: Option<seq<Decl>>)
    ensures OntoDecls(ds, OntoDecls([d], r)) == OntoDecls(ds + [d], r)
  {
    if r.Some? { assert ds + ([d] + r.value) == ds + [d] + r.value; }
  }

  lemma ProgramStep(ts: Tokens)
    ensures PProgram(ts) ==
            if Cur(ts) == Eof then Some([])
            else
              match PDecl(ts)
              case None => None
              case Some(x) => OntoDecls([x.0], PProgram(x.1))
  {
    hide PDecl;
  }

  ghost predicate ProgramSoFar(ts0: Tokens, ds: seq<Decl>, o: Out, ts: Tokens) {
    PProgram(ts0) == OntoDecls(ds, PProgram(ts)) && GenDecls(ds, StartCtx(false, [])) == Some(o)
  }

  lemma ProgramBegins(ts: Tokens)
    ensures ProgramSoFar(ts, [], Out([], StartCtx(false, [])), ts)
  {
    OntoNoDecls(PProgram(ts));
  }

  lemma ProgramFails(ts0: Tokens, ds: seq<Decl>, o: Out, ts: Tokens)
    requires ProgramSoFar(ts0, ds, o, ts) && CDecl(ts, o.c).None? && Cur(ts) != Eof
    ensures CProgram(ts0).None?
  {
    hide PDecl, GenDecls;
    ProgramStep(ts);
    if PProgram(ts).Some? {
      var xs := PProgram(ts).value;
      assert xs == [xs[0]] + xs[1..];
      DeclFails(ds, xs[0], xs[1..], StartCtx(false, []), o);
    }
  }

  lemma ProgramGoesOn(ts0: Tokens, ds: seq<Decl>, o: Out, ts: Tokens) returns (d: Decl, p: Out)
    requires ProgramSoFar(ts0, ds, o, ts) && CDecl(ts, o.c).Some? && Cur(ts) != Eof
    ensures p == CDecl(ts, o.c).value.0
    ensures ProgramSoFar(ts0, ds + [d], Out(o.code + p.code, p.c), CDecl(ts, o.c).value.1)
  {
    hide PDecl, GenDecls;
    ProgramStep(ts);
    d, p := DeclStep(ds, ts, StartCtx(false, []), o);
    OntoDeclsTwice(ds, d, PProgram(CDecl(ts, o.c).value.1));
  }

  lemma ProgramEnds(ts0: Tokens, ds: seq<Decl>, o: Out, ts: Tokens)
    requires ProgramSoFar(ts0, ds, o, ts) && Cur(ts) == Eof
    ensures CProgram(ts0) ==
            Some(Program(FunObj(o.code + [OP_EOF] + [OP_NIL, OP_RETURN], o.c.consts, 0, o.c.maxLocals), o.c.funs))
  {
    hide GenDecls;
    ProgramStep(ts);
    assert ds + [] == ds;
    assert o.code + [OP_EOF] + [OP_NIL, OP_RETURN] == o.code + [OP_EOF, OP_NIL, OP_RETURN];
  }

  // ----- progress and what stays -----

  lemma CondShrinks(ts: Tokens, c: Ctx)
    ensures CCond(ts, c).Some? ==> |CCond(ts, c).value.1| < |ts|
  {
    hide PExpr, GenExpr;
  }

  lemma InitShrinks(ts: Tokens, c: Ctx)
    ensures CInit(ts, c).Some? ==> |CInit(ts, c).value.1| < |ts|
  {
    hide GenInit;
  }

  lemma ExprSemiShrinks(ts: Tokens, c: Ctx)
    ensures CExprSemi(ts, c).Some? ==> |CExprSemi(ts, c).value.1| < |ts|
  {
    hide PExpr, GenExpr;
  }

  lemma IncrShrinks(ts: Tokens, c: Ctx)
    ensures CIncr(ts, c).Some? ==> |CIncr(ts, c).value.1| < |ts|
  {
    hide GenIncr;
  }

  /** The monitors entered are the same again, and the slots fit a byte. */
  ghost predicate Keeps(c: Ctx, d: Ctx) {
    d.held == c.held && c.nextMon <= d.nextMon && (c.maxLocals <= MAX_LOCALS ==> d.maxLocals <= MAX_LOCALS)
  }

  lemma {:induction false} KeptByStmt(s: Stmt, c: Ctx)
    ensures GenStmt(s, c).Some? ==> Keeps(c, GenStmt(s, c).value.c)
    decreases s, 1
  {
    hide GenExpr, GenDecls, GenLoop, GenInit, GenOpt, GenEffect, Jump, ExitAll, Grows;
    match s
    case Block(ds) => KeptByDecls(ds, BeginScope(c));
    case If(_, _, _) => KeptByIf(s, c);
    case While(_, _) => KeptByLoop(s, c);
    case For(i, _, _, _) =>
      if GenInit(i, BeginScope(c)).Some? {
        KeptByInit(i, BeginScope(c));
        KeptByLoop(s, GenInit(i, BeginScope(c)).value.c);
      }
    case Sync(b) =>
      if c.nextMon < MAX_MONITORS_PER_FUNCTION {
        KeptByStmt(b, c.(nextMon := c.nextMon + 1, held := c.held + [c.nextMon]));
      }
    case _ => KeptByLeaf(s, c);
  }

  lemma KeptByLeaf(s: Stmt, c: Ctx)
    requires s.Print? || s.ExprStmt? || s.Return?
    ensures GenStmt(s, c).Some? ==> Keeps(c, GenStmt(s, c).value.c)
  {
    hide GenExpr, ExitAll;
  }

  lemma KeptByInit(i: Init, c: Ctx)
    ensures GenInit(i, c).Some? ==> Keeps(c, GenInit(i, c).value.c)
  {
    hide GenExpr;
  }

  lemma {:induction false} KeptByIf(s: Stmt, c: Ctx)
    requires s.If?
    ensures GenStmt(s, c).Some? ==> Keeps(c, GenStmt(s, c).value.c)
    decreases s, 0
  {
    hide GenExpr, Jump;
    var o := GenExpr(s.cond, c);
    if o.Some? {
      KeptByStmt(s.thn, o.value.c);
      var p := GenStmt(s.thn, o.value.c);
      if s.els.Some? && p.Some? { KeptByStmt(s.els.value, p.value.c); }
    }
  }

  lemma {:induction false} KeptByLoop(s: Stmt, c: Ctx)
    requires s.While? || s.For?
    ensures GenLoop(s, c).Some? ==> Keeps(c, GenLoop(s, c).value.c)
    decreases s, 0
  {
    hide GenExpr;
    if GenExpr(s.cond, c).Some? {
      var o := GenExpr(s.cond, c).value;
      if s.For? {
        if GenIncr(s.incr, o.c).Some? { KeptByStmt(s.loopBody, GenIncr(s.incr, o.c).value.c); }
      } else {
        KeptByStmt(s.loopBody, o.c);
      }
    }
  }

  lemma {:induction false} KeptByDecls(ds: seq<Decl>, c: Ctx)
    ensures GenDecls(ds, c).Some? ==> Keeps(c, GenDecls(ds, c).value.c)
    decreases ds, 0
  {
    if ds != [] && GenDecl(ds[0], c).Some? {
      KeptByDecl(ds[0], c);
      KeptByDecls(ds[1..], GenDecl(ds[0], c).value.c);
    }
  }

  lemma {:induction false} KeptByDecl(d: Decl, c: Ctx)
    ensures GenDecl(d, c).Some? ==> Keeps(c, GenDecl(d, c).value.c)
    decreases d, 1
  {
    hide GenFun;
    if d.StmtDecl? { KeptByStmt(d.s, c); }
  }

  lemma StmtKeepsHeld(ts: Tokens, c: Ctx)
    requires CStmt(ts, c).Some?
    ensures CStmt(ts, c).value.0.c.held == c.held
  {
    KeptByStmt(PStmt(ts).value.0, c);
  }

  lemma BlockKeepsHeld(ts: Tokens, c: Ctx)
    requires CBlock(ts, c).Some?
    ensures CBlock(ts, c).value.0.c.held == c.held
  {
    KeptByDecls(PBlock(ts).value.0, c);
  }

  lemma StartInFunction()
    ensures BeginScope(StartCtx(true, []).(depth := 0)) == StartCtx(true, [])
  {
  }

  lemma {:induction false} ParamsKeep(ps: seq<Name>, c: Ctx)
    ensures GenParams(ps, c).Some? ==>
              GenParams(ps, c).value == c.(locals := GenParams(ps, c).value.locals, maxLocals := GenParams(ps, c).value.maxLocals)
    decreases ps
  {
    if ps != [] && AddLocal(c, ps[0]).Some? { ParamsKeep(ps[1..], AddLocal(c, ps[0]).value); }
  }

  /** No monitor is allocated while the parameters are read. */
  lemma HeaderShrinks(ts: Tokens)
    requires CHeader(ts, StartCtx(true, [])).Some?
    ensures var (n, c, r) := CHeader(ts, StartCtx(true, [])).value;
            c.nextMon == 0 && c.held == [] && c.inFun && |r| < |ts|
  {
    ParamsKeep(PParams(ts[1..]).value.0, StartCtx(true, []));
  }

  // ----- patched jumps -----

  lemma JumpSize3(op: Byte, d: nat)
    ensures |Jump(op, d)| == 3
  {
  }

  lemma Assoc(a: seq<Byte>, b: seq<Byte>, c: seq<Byte>)
    ensures (a + b) + c == a + (b + c)
  {
  }

  lemma ReturnPieces(a: seq<Byte>, o: seq<Byte>, exits: seq<Byte>)
    ensures a + o + exits + [OP_RETURN] == a + (o + exits + [OP_RETURN])
  {
  }

  /** The pieces around the body of a function. */
  lemma FunPieces(synced: bool, o: seq<Byte>, held: seq<Byte>)
    requires held == if synced then [0] else []
    ensures var enter: seq<Byte> := if synced then [OP_ENTER_MONITOR, 0] else [];
            enter + o + ExitAll(held) + [OP_NIL, OP_RETURN] + [OP_EOF] == FunCode(synced, o)
  {
    if synced {
      assert held[..0] == [];
      assert ExitAll(held[..0]) == [];
    }
    var enter: seq<Byte> := if synced then [OP_ENTER_MONITOR, 0] else [];
    var body := enter + o + ExitAll(held);
    assert body + [OP_NIL, OP_RETURN] + [OP_EOF] == body + [OP_NIL, OP_RETURN, OP_EOF];
  }

  /** The jump back and the patched exit make the loop. */
  lemma LoopPatched(a: seq<Byte>, o: seq<Byte>, body: seq<Byte>, back: seq<Byte>)
    requires back == Jump(OP_LOOP, |o| + |body| + 6)
    ensures a + o + Jump(OP_JUMP_IF_FALSE, |body + back|) + (body + back) == a + LoopCode(o, body)
  {
    var exit := Jump(OP_JUMP_IF_FALSE, |body| + 3);
    assert |back| == 3;
    hide Jump;
    assert a + o + exit + (body + back) == a + (o + exit + body + back);
  }

  /** Both branches of an `if` from the pieces they are emitted in. */
  lemma BranchesPatched(a: seq<Byte>, p: seq<Byte>, q: seq<Byte>)
    ensures var toEnd := Jump(OP_JUMP, |q|);
            a + Jump(OP_JUMP_IF_FALSE, |p| + 3) + p + toEnd + q ==
            a + (Jump(OP_JUMP_IF_FALSE, |p| + 3) + p + toEnd + q)
  {
    hide Jump;
  }
}
