// Tokens and syntax trees of the part of the language that is modelled.
module Syntax {
  import opened Wrappers

  /** Identifiers are never empty. */
  type Name = s: string | |s| > 0 witness "x"

  datatype BinOp = Mod | BitAnd | BitOr | Shr | Shl | Add | Sub | Mul | Div
                 | NotEq | Eq | Greater | GreaterEq | Less | LessEq

  datatype UnOp = Minus | Bang

  datatype Literal = LNil | LTrue | LFalse

  datatype Token =
    | OpenParen | CloseParen | OpenBrace | CloseBrace | Comma | Semicolon
    | Operator(op: BinOp)   // includes '-', which is also a prefix
    | BangTok | EqualTok
    | Ident(name: Name) | StringTok(s: string)
    | NumberTok(v: nat, decimal: bool)
    | AndTok | OrTok | ElseTok | FalseTok | ForTok | FunTok | IfTok | NilTok | PrintTok
    | ReturnTok | TrueTok | VarTok | WhileTok | SyncTok | Eof

  /** A number literal carries the code of its value and whether it was written
      with a decimal point. */
  datatype Expr =
    | Number(v: nat, decimal: bool)
    | Str(s: string)
    | Lit(lit: Literal)
    | Var(x: Name)
    | Assign(x: Name, rhs: Expr)
    | Unary(uop: UnOp, e: Expr)
    | Binary(op: BinOp, l: Expr, r: Expr)
    | Call(callee: Expr, args: seq<Expr>)

  datatype Init = NoInit | VarInit(x: Name, init: Option<Expr>) | ExprInit(e: Expr)

  datatype Stmt =
    | Print(e: Expr)
    | Block(body: seq<Decl>)
    | For(init: Init, cond: Expr, incr: Expr, loopBody: Stmt)
    | While(cond: Expr, loopBody: Stmt)
    | If(cond: Expr, thn: Stmt, els: Option<Stmt>)
    | Return(value: Option<Expr>)
    | Sync(s: Stmt)
    | ExprStmt(e: Expr)

  datatype Decl =
    | VarDecl(x: Name, init: Option<Expr>)
    | FunDecl(f: Fun)
    | StmtDecl(s: Stmt)

  datatype Fun = Fun(name: Name, synced: bool, params: seq<Name>, body: seq<Decl>)

  // Assignments are meant to be statements: "Assignments cannot be used as
  // expressions".  The compiler rejects only some of the others.  The number of
  // arguments of a call is kept in one byte.

  const MAX_ARGS: nat := 255

  predicate Plain(e: Expr)
    decreases e, 1
  {
    match e
    case Number(_, _) | Str(_) | Lit(_) | Var(_) => true
    case Assign(_, _) => false
    case Unary(_, a) => Plain(a)
    case Binary(_, l, r) => Plain(l) && Plain(r)
    case Call(f, args) => Plain(f) && PlainArgs(args) && |args| <= MAX_ARGS
  }

  predicate PlainArgs(es: seq<Expr>)
    decreases es, 0
  {
    es == [] || (Plain(es[0]) && PlainArgs(es[1..]))
  }

  /** An expression used as a statement or as a `for` increment. */
  predicate Effect(e: Expr) {
    Plain(if e.Assign? then e.rhs else e)
  }

  predicate PlacedOpt(e: Option<Expr>) {
    e.Some? ==> Plain(e.value)
  }

  predicate PlacedInit(i: Init) {
    match i
    case NoInit => true
    case VarInit(_, e) => PlacedOpt(e)
    case ExprInit(e) => Effect(e)
  }

  /** Assignments occur only as statements and `for` increments. */
  predicate Placed(s: Stmt)
    decreases s, 1
  {
    match s
    case Print(e) => Plain(e)
    case Block(ds) => PlacedDecls(ds)
    case For(i, c, n, b) => PlacedInit(i) && Plain(c) && Effect(n) && Placed(b)
    case While(c, b) => Plain(c) && Placed(b)
    case If(c, t, e) => Plain(c) && Placed(t) && (e.Some? ==> Placed(e.value))
    case Return(e) => PlacedOpt(e)
    case Sync(b) => Placed(b)
    case ExprStmt(e) => Effect(e)
  }

  predicate PlacedDecl(d: Decl)
    decreases d, 1
  {
    match d
    case VarDecl(_, e) => PlacedOpt(e)
    case FunDecl(f) => PlacedDecls(f.body)
    case StmtDecl(s) => Placed(s)
  }

  predicate PlacedDecls(ds: seq<Decl>)
    decreases ds, 0
  {
    ds == [] || (PlacedDecl(ds[0]) && PlacedDecls(ds[1..]))
  }

  // Numbers that the one-pass compiler counts up while it goes through the text.

  /** How many monitors a statement allocates. */
  function Syncs(s: Stmt): nat
    decreases s, 1
  {
    match s
    case Block(ds) => SyncsIn(ds)
    case For(_, _, _, b) => Syncs(b)
    case While(_, b) => Syncs(b)
    case If(_, t, e) => Syncs(t) + (if e.Some? then Syncs(e.value) else 0)
    case Sync(b) => 1 + Syncs(b)
    case _ => 0
  }

  function SyncsIn(ds: seq<Decl>): nat
    decreases ds, 0
  {
    if ds == [] then 0 else SyncsOf(ds[0]) + SyncsIn(ds[1..])
  }

  function SyncsOf(d: Decl): nat
    decreases d, 1
  {
    match d
    case StmtDecl(s) => Syncs(s)
    case _ => 0
  }

  /** The functions declared in a statement, in the order they are compiled. */
  function Funs(s: Stmt): seq<Fun>
    decreases s, 1
  {
    match s
    case Block(ds) => FunsIn(ds)
    case For(_, _, _, b) => Funs(b)
    case While(_, b) => Funs(b)
    case If(_, t, e) => Funs(t) + (if e.Some? then Funs(e.value) else [])
    case Sync(b) => Funs(b)
    case _ => []
  }

  function FunsOf(d: Decl): seq<Fun>
    decreases d, 1
  {
    match d
    case VarDecl(_, _) => []
    case FunDecl(f) => [f]
    case StmtDecl(s) => Funs(s)
  }

  function FunsIn(ds: seq<Decl>): seq<Fun>
    decreases ds, 0
  {
    if ds == [] then [] else FunsOf(ds[0]) + FunsIn(ds[1..])
  }
}
