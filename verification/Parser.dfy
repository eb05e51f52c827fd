// The grammar the Pratt parser accepts, as functions from tokens to trees, and a
// printer that it inverts.
module Parser {
  import opened Wrappers
  import opened Syntax

  type Tokens = seq<Token>

  const PREC_ASSIGNMENT: nat := 1
  const PREC_UNARY: nat := 8
  const PREC_CALL: nat := 9
  const PREC_PRIMARY: nat := 10

  function Cur(ts: Tokens): Token {
    if ts == [] then Eof else ts[0]
  }

  function Rest(ts: Tokens): Tokens {
    if ts == [] then [] else ts[1..]
  }

  function OpPrec(op: BinOp): (p: nat)
    ensures 4 <= p <= 7
  {
    match op
    case Eq | NotEq => 4
    case Greater | GreaterEq | Less | LessEq => 5
    case Mul | Div => 7
    case _ => 6
  }

  /** Precedence of a token as an infix operator; 0 is PREC_NONE. */
  function Prec(t: Token): nat {
    match t
    case OpenParen => PREC_CALL
    case Operator(op) => OpPrec(op)
    case _ => 0
  }

  function Expect(t: Token, ts: Tokens): Option<Tokens> {
    if ts != [] && Cur(ts) == t then Some(Rest(ts)) else None
  }

  // ----- expressions -----

  function PExpr(p: nat, ts: Tokens): (r: Option<(Expr, Tokens)>)
    requires p > 0
    ensures r.Some? ==> |r.value.1| < |ts|
    decreases |ts|, 1
  {
    var (e, rest) :- PPrefix(p, ts);
    PLoop(p, e, rest)
  }

  function PPrefix(p: nat, ts: Tokens): (r: Option<(Expr, Tokens)>)
    ensures r.Some? ==> |r.value.1| < |ts|
    decreases |ts|, 0
  {
    if ts == [] then None
    else
      var rest := ts[1..];
      match ts[0]
      case OpenParen =>
        var (e, r) :- PExpr(PREC_ASSIGNMENT, rest);
        var r1 :- Expect(CloseParen, r);
        Some((e, r1))
      case Operator(op) =>
        if op != Sub then None
        else
          var (e, r) :- PExpr(PREC_UNARY, rest);
          Some((Unary(Minus, e), r))
      case BangTok =>
        var (e, r) :- PExpr(PREC_UNARY, rest);
        Some((Unary(Bang, e), r))
      case Ident(x) =>
        // an identifier before '{' would be a struct, and none is declared
        if Cur(rest) == OpenBrace then None
        else if p <= PREC_ASSIGNMENT && Cur(rest) == EqualTok then
          var (e, r) :- PExpr(PREC_ASSIGNMENT, Rest(rest));
          Some((Assign(x, e), r))
        else Some((Var(x), rest))
      case NumberTok(v, d) => Some((Number(v, d), rest))
      case StringTok(s) => Some((Str(s), rest))
      case NilTok => Some((Lit(LNil), rest))
      case TrueTok => Some((Lit(LTrue), rest))
      case FalseTok => Some((Lit(LFalse), rest))
      case _ => None
  }

  function PLoop(p: nat, e: Expr, ts: Tokens): (r: Option<(Expr, Tokens)>)
    requires p > 0
    ensures r.Some? ==> |r.value.1| <= |ts|
    decreases |ts|, 2
  {
    if p <= Prec(Cur(ts)) then
      if ts[0].Operator? then
        var (r, rest) :- PExpr(OpPrec(ts[0].op) + 1, ts[1..]);
        PLoop(p, Binary(ts[0].op, e, r), rest)
      else
        var (args, rest) :- PArgs(ts[1..]);
        PLoop(p, Call(e, args), rest)
    else if p <= PREC_ASSIGNMENT && Cur(ts) == EqualTok then None
    else Some((e, ts))
  }

  /** Arguments after the opening parenthesis. */
  function PArgs(ts: Tokens): (r: Option<(seq<Expr>, Tokens)>)
    ensures r.Some? ==> |r.value.1| < |ts|
    decreases |ts|, 3
  {
    if Cur(ts) == CloseParen then Some(([], ts[1..])) else PMoreArgs(ts)
  }

  function PMoreArgs(ts: Tokens): (r: Option<(seq<Expr>, Tokens)>)
    ensures r.Some? ==> |r.value.1| < |ts|
    decreases |ts|, 2
  {
    var (e, rest) :- PExpr(PREC_ASSIGNMENT, ts);
    if Cur(rest) == Comma then
      var (es, r) :- PMoreArgs(rest[1..]);
      Some(([e] + es, r))
    else
      var r :- Expect(CloseParen, rest);
      Some(([e], r))
  }

  // ----- statements and declarations -----

  function PVarDecl(ts: Tokens): (r: Option<(Name, Option<Expr>, Tokens)>)
    ensures r.Some? ==> |r.value.2| < |ts|
  {
    if !Cur(ts).Ident? then None
    else if Cur(ts[1..]) == EqualTok then
      var (e, rest) :- PExpr(PREC_ASSIGNMENT, ts[2..]);
      var r :- Expect(Semicolon, rest);
      Some((ts[0].name, Some(e), r))
    else
      var r :- Expect(Semicolon, ts[1..]);
      Some((ts[0].name, None, r))
  }

  function PExprSemi(ts: Tokens): (r: Option<(Expr, Tokens)>)
    ensures r.Some? ==> |r.value.1| < |ts|
  {
    var (e, rest) :- PExpr(PREC_ASSIGNMENT, ts);
    var r :- Expect(Semicolon, rest);
    Some((e, r))
  }

  /** A condition in parentheses. */
  function PCond(ts: Tokens): (r: Option<(Expr, Tokens)>)
    ensures r.Some? ==> |r.value.1| < |ts|
  {
    var ts1 :- Expect(OpenParen, ts);
    var (e, rest) :- PExpr(PREC_ASSIGNMENT, ts1);
    var r :- Expect(CloseParen, rest);
    Some((e, r))
  }

  function PInit(ts: Tokens): (r: Option<(Init, Tokens)>)
    ensures r.Some? ==> |r.value.1| < |ts|
  {
    if Cur(ts) == Semicolon then Some((NoInit, ts[1..]))
    else if Cur(ts) == VarTok then
      var (x, e, r) :- PVarDecl(ts[1..]);
      Some((VarInit(x, e), r))
    else
      var (e, r) :- PExprSemi(ts);
      Some((ExprInit(e), r))
  }

  function PStmt(ts: Tokens): (r: Option<(Stmt, Tokens)>)
    ensures r.Some? ==> |r.value.1| < |ts|
    decreases |ts|, 1
  {
    match Cur(ts)
    case PrintTok =>
      var (e, r) :- PExprSemi(ts[1..]);
      Some((Print(e), r))
    case OpenBrace =>
      var (ds, r) :- PBlock(ts[1..]);
      Some((Block(ds), r))
    case ForTok =>
      var ts1 :- Expect(OpenParen, ts[1..]);
      var (i, ts2) :- PInit(ts1);
      var (c, ts3) :- PExprSemi(ts2);
      var (n, ts4) :- PExpr(PREC_ASSIGNMENT, ts3);
      var ts5 :- Expect(CloseParen, ts4);
      var (b, r) :- PStmt(ts5);
      Some((For(i, c, n, b), r))
    case WhileTok =>
      var (c, ts1) :- PCond(ts[1..]);
      var (b, r) :- PStmt(ts1);
      Some((While(c, b), r))
    case IfTok =>
      var (c, ts1) :- PCond(ts[1..]);
      var (t, ts2) :- PStmt(ts1);
      if Cur(ts2) == ElseTok then
        var (e, r) :- PStmt(ts2[1..]);
        Some((If(c, t, Some(e)), r))
      else Some((If(c, t, None), ts2))
    case ReturnTok =>
      if Cur(ts[1..]) == Semicolon then Some((Return(None), ts[2..]))
      else
        var (e, r) :- PExprSemi(ts[1..]);
        Some((Return(Some(e)), r))
    case SyncTok =>
      var (s, r) :- PStmt(ts[1..]);
      Some((Sync(s), r))
    case _ =>
      var (e, r) :- PExprSemi(ts);
      Some((ExprStmt(e), r))
  }

  function PDecl(ts: Tokens): (r: Option<(Decl, Tokens)>)
    ensures r.Some? ==> |r.value.1| < |ts|
    decreases |ts|, 2
  {
    match Cur(ts)
    case VarTok =>
      var (x, e, r) :- PVarDecl(ts[1..]);
      Some((VarDecl(x, e), r))
    case FunTok =>
      var synced := Cur(ts[1..]) == SyncTok;
      var (f, r) :- PFun(synced, if synced then ts[2..] else ts[1..]);
      Some((FunDecl(f), r))
    case _ =>
      var (s, r) :- PStmt(ts);
      Some((StmtDecl(s), r))
  }

  /** Declarations up to the closing brace. */
  function PBlock(ts: Tokens): (r: Option<(seq<Decl>, Tokens)>)
    ensures r.Some? ==> |r.value.1| < |ts|
    decreases |ts|, 3
  {
    if ts == [] || Cur(ts) == Eof then None
    else if Cur(ts) == CloseBrace then Some(([], ts[1..]))
    else
      var (d, rest) :- PDecl(ts);
      var (ds, r) :- PBlock(rest);
      Some(([d] + ds, r))
  }

  function PFun(synced: bool, ts: Tokens): (r: Option<(Fun, Tokens)>)
    ensures r.Some? ==> |r.value.1| < |ts|
    decreases |ts|, 1
  {
    if !Cur(ts).Ident? then None
    else
      var ts1 :- Expect(OpenParen, ts[1..]);
      var (ps, ts2) :- PParams(ts1);
      var ts3 :- Expect(OpenBrace, ts2);
      var (body, r) :- PBlock(ts3);
      Some((Fun(ts[0].name, synced, ps, body), r))
  }

  function PParams(ts: Tokens): (r: Option<(seq<Name>, Tokens)>)
    ensures r.Some? ==> |r.value.1| < |ts|
    decreases |ts|
  {
    if Cur(ts) == CloseParen then Some(([], ts[1..])) else PMoreParams(ts)
  }

  function PMoreParams(ts: Tokens): (r: Option<(seq<Name>, Tokens)>)
    ensures r.Some? ==> |r.value.1| < |ts|
    decreases |ts|
  {
    if !Cur(ts).Ident? then None
    else if Cur(ts[1..]) == Comma then
      var (ps, r) :- PMoreParams(ts[2..]);
      Some(([ts[0].name] + ps, r))
    else
      var r :- Expect(CloseParen, ts[1..]);
      Some(([ts[0].name], r))
  }

  /** A package: declarations up to the end of the text. */
  function PProgram(ts: Tokens): Option<seq<Decl>>
    decreases |ts|
  {
    if Cur(ts) == Eof then Some([])
    else
      var (d, rest) :- PDecl(ts);
      var ds :- PProgram(rest);
      Some([d] + ds)
  }
}
