// How tightly operators bind, told by the groups of the language alone: which tree a
// text of operands and binary operators is read as.
module Precedence {
  import opened Wrappers
  import opened Syntax
  import opened Parser
  import opened Printer

  /** The groups of binary operators, the tightest first. */
  function Group(op: BinOp): nat {
    if op in {Mul, Div} then 0
    else if op in {Add, Sub, Mod, Shl, Shr, BitAnd, BitOr} then 1
    else if op in {Less, LessEq, Greater, GreaterEq} then 2
    else 3
  }

  /** The operator that is applied last: the last one of the loosest group. */
  function Root(ops: seq<BinOp>): (k: nat)
    requires ops != []
    ensures k < |ops|
    ensures forall i: nat | i < k :: Group(ops[i]) <= Group(ops[k])
    ensures forall i: nat | k < i < |ops| :: Group(ops[i]) < Group(ops[k])
  {
    var n := |ops| - 1;
    if n == 0 then 0
    else
      var k := Root(ops[..n]);
      assert forall i: nat | i < n :: ops[..n][i] == ops[i];
      if Group(ops[k]) <= Group(ops[n]) then n else k
  }

  /** What operands with operators between them mean: everything before the root is
      its left operand, everything behind it its right one. */
  function Grouped(es: seq<Expr>, ops: seq<BinOp>): Expr
    requires |es| == |ops| + 1
    decreases |ops|
  {
    if ops == [] then es[0]
    else
      var k := Root(ops);
      Binary(ops[k], Grouped(es[..k + 1], ops[..k]), Grouped(es[k + 1..], ops[k + 1..]))
  }

  /** An operand: what has a binary operator or an assignment stands in parentheses. */
  function Operand(e: Expr): Tokens {
    if e.Binary? || e.Assign? then [OpenParen] + Bare(e) + [CloseParen] else Bare(e)
  }

  /** Operands with operators between them, without any further parentheses. */
  function Flat(es: seq<Expr>, ops: seq<BinOp>): Tokens
    requires |es| == |ops| + 1
    decreases |ops|
  {
    if ops == [] then Operand(es[0]) else Operand(es[0]) + ([Operator(ops[0])] + Flat(es[1..], ops[1..]))
  }

  /** No token that could belong to the last operand. */
  predicate Closes(t: Token) {
    !t.Operator? && !t.OpenParen? && !t.EqualTok? && !t.OpenBrace?
  }

  // ----- the parser follows the groups -----

  lemma GroupPrec(op: BinOp)
    ensures OpPrec(op) == 7 - Group(op)
  {
  }

  lemma {:induction false} FlatSplit(es: seq<Expr>, ops: seq<BinOp>, k: nat)
    requires |es| == |ops| + 1 && k < |ops|
    ensures Flat(es, ops) == Flat(es[..k + 1], ops[..k]) + ([Operator(ops[k])] + Flat(es[k + 1..], ops[k + 1..]))
    decreases |ops|
  {
    hide Operand;
    if k == 0 {
      assert Flat(es[..1], ops[..0]) == Operand(es[0]);
    } else {
      FlatSplit(es[1..], ops[1..], k - 1);
      assert es[1..][..k] == es[..k + 1][1..] && ops[1..][..k - 1] == ops[..k][1..];
      assert es[1..][k..] == es[k + 1..] && ops[1..][k..] == ops[k + 1..];
    }
  }

  lemma ReadOperand(e: Expr, p: nat, rest: Tokens)
    requires 0 < p <= PREC_UNARY && Free(rest) && Prec(Cur(rest)) < PREC_UNARY
    ensures PExpr(p, Operand(e) + rest) == PLoop(p, e, rest)
  {
    hide PExpr, PLoop, Bare;
    assert Operand(e) == Pr(e, PREC_UNARY);
    ParseLeft(e, p, PREC_UNARY, rest);
  }

  /** No operator among `ops` binds looser than p. */
  predicate AllAtLeast(ops: seq<BinOp>, p: nat) {
    forall i: nat | i < |ops| :: p <= OpPrec(ops[i])
  }

  /** Reading goes on with the whole tree as left operand, if the operator that
      follows, if any, binds no tighter than those before it. */
  lemma {:induction false} ReadFlat(es: seq<Expr>, ops: seq<BinOp>, p: nat, rest: Tokens)
    requires |es| == |ops| + 1 && 0 < p <= PREC_UNARY && Free(rest) && Prec(Cur(rest)) < PREC_UNARY
    requires AllAtLeast(ops, p) && AllAtLeast(ops, Prec(Cur(rest)))
    ensures PExpr(p, Flat(es, ops) + rest) == PLoop(p, Grouped(es, ops), rest)
    decreases |ops|
  {
    hide PExpr, PLoop, OpPrec, Operand, Grouped, Flat, AllAtLeast, Group;
    GroupedIs(es, ops);
    if ops == [] {
      ReadOperand(es[0], p, rest);
    } else {
      var k := Root(ops);
      var op, l, r := ops[k], Flat(es[..k + 1], ops[..k]), Flat(es[k + 1..], ops[k + 1..]);
      var x, y := Grouped(es[..k + 1], ops[..k]), Grouped(es[k + 1..], ops[k + 1..]);
      var rest1 := [Operator(op)] + (r + rest);
      FlatSplit(es, ops, k);
      AroundRoot(ops, p, Prec(Cur(rest)), rest1);
      assert Flat(es, ops) + rest == l + rest1;
      ReadFlat(es[..k + 1], ops[..k], p, rest1);
      ReadFlat(es[k + 1..], ops[k + 1..], OpPrec(op) + 1, rest);
      PLoopStops(OpPrec(op) + 1, y, rest);
      LoopTakes(p, x, op, r + rest);
    }
  }

  lemma GroupedIs(es: seq<Expr>, ops: seq<BinOp>)
    requires |es| == |ops| + 1
    ensures ops == [] ==> Grouped(es, ops) == es[0] && Flat(es, ops) == Operand(es[0])
    ensures ops != [] ==>
              var k := Root(ops);
              Grouped(es, ops) == Binary(ops[k], Grouped(es[..k + 1], ops[..k]), Grouped(es[k + 1..], ops[k + 1..]))
  {
    hide Operand, Root;
  }

  /** Before the root no operator is looser, behind it all are tighter. */
  lemma AroundRoot(ops: seq<BinOp>, p: nat, q: nat, rest1: Tokens)
    requires ops != [] && AllAtLeast(ops, p) && AllAtLeast(ops, q) && rest1 != [] && rest1[0] == Operator(ops[Root(ops)])
    ensures var k := Root(ops);
            && AllAtLeast(ops[..k], p) && AllAtLeast(ops[..k], OpPrec(ops[k]))
            && AllAtLeast(ops[k + 1..], OpPrec(ops[k]) + 1) && AllAtLeast(ops[k + 1..], q)
            && p <= OpPrec(ops[k]) < PREC_UNARY && q <= OpPrec(ops[k])
            && Free(rest1) && Prec(Cur(rest1)) == OpPrec(ops[k])
  {
    var k := Root(ops);
    hide OpPrec, Group;
    GroupPrec(ops[k]);
    forall i: nat | i < |ops|
      ensures OpPrec(ops[i]) == 7 - Group(ops[i])
    {
      GroupPrec(ops[i]);
    }
  }

  lemma LoopTakes(p: nat, e: Expr, op: BinOp, ts: Tokens)
    requires 0 < p <= OpPrec(op) && PExpr(OpPrec(op) + 1, ts).Some?
    ensures var (r, rest) := PExpr(OpPrec(op) + 1, ts).value;
            PLoop(p, e, [Operator(op)] + ts) == PLoop(p, Binary(op, e, r), rest)
  {
    assert ([Operator(op)] + ts)[1..] == ts;
    hide OpPrec, PExpr;
  }

  /** Operands of any kind with binary operators between them are read as their groups
      say, however many there are: the tighter group first, and within one group from
      left to right. */
  lemma PrecedenceTree(es: seq<Expr>, ops: seq<BinOp>, end: Token, more: Tokens)
    requires |es| == |ops| + 1 && Closes(end)
    ensures PExpr(1, Flat(es, ops) + ([end] + more)) == Some((Grouped(es, ops), [end] + more))
  {
    hide PExpr, PLoop, Flat, Grouped, OpPrec;
    assert AllAtLeast(ops, 1) && AllAtLeast(ops, 0);
    ReadFlat(es, ops, 1, [end] + more);
    PLoopStops(1, Grouped(es, ops), [end] + more);
  }

  // ----- the same, token by token -----

  /** A literal or a variable is an operand of one token. */
  function Atom(t: Token): Option<Expr> {
    match t
    case NumberTok(v, d) => Some(Number(v, d))
    case StringTok(s) => Some(Str(s))
    case NilTok => Some(Lit(LNil))
    case TrueTok => Some(Lit(LTrue))
    case FalseTok => Some(Lit(LFalse))
    case Ident(x) => Some(Var(x))
    case _ => None
  }

  lemma AtomOperand(t: Token)
    requires Atom(t).Some?
    ensures Operand(Atom(t).value) == [t]
  {
  }

  /** Three operands: the second operator goes first exactly when its group is the
      tighter one. */
  lemma TwoOperators(a: Token, o1: BinOp, b: Token, o2: BinOp, c: Token, end: Token)
    requires Atom(a).Some? && Atom(b).Some? && Atom(c).Some? && Closes(end)
    ensures var x, y, z := Atom(a).value, Atom(b).value, Atom(c).value;
            PExpr(1, [a, Operator(o1), b, Operator(o2), c, end]) ==
            Some((if Group(o2) < Group(o1) then Binary(o1, x, Binary(o2, y, z)) else Binary(o2, Binary(o1, x, y), z), [end]))
  {
    var x, y, z := Atom(a).value, Atom(b).value, Atom(c).value;
    AtomOperand(a);
    AtomOperand(b);
    AtomOperand(c);
    hide PExpr, Atom, Operand, Group, Flat, Grouped, Closes;
    FlatTwo(x, o1, y, o2, z);
    GroupedTwo(x, o1, y, o2, z);
    PrecedenceTree([x, y, z], [o1, o2], end, []);
    assert [end] + [] == [end];
    SixTokens(a, Operator(o1), b, Operator(o2), c, end);
  }

  lemma SixTokens(a: Token, b: Token, c: Token, d: Token, e: Token, f: Token)
    ensures [a] + ([b] + ([c] + ([d] + [e]))) + [f] == [a, b, c, d, e, f]
  {
  }

  lemma GroupedTwo(x: Expr, o1: BinOp, y: Expr, o2: BinOp, z: Expr)
    ensures Grouped([x, y, z], [o1, o2]) ==
            if Group(o2) < Group(o1) then Binary(o1, x, Binary(o2, y, z)) else Binary(o2, Binary(o1, x, y), z)
  {
    hide Group;
    var es, ops := [x, y, z], [o1, o2];
    assert es[..2] == [x, y] && es[1..] == [y, z] && es[..1] == [x] && es[2..] == [z];
    assert ops[..1] == [o1] && ops[1..] == [o2] && ops[..0] == [] && ops[2..] == [];
    GroupedOne(x, o1, y);
    GroupedOne(y, o2, z);
    GroupedIs(es, ops);
    GroupedIs([x], []);
    GroupedIs([z], []);
    hide Grouped;
    assert Root(ops) == if Group(o2) < Group(o1) then 0 else 1;
  }

  lemma FlatOne(x: Expr, op: BinOp, y: Expr)
    ensures Flat([x, y], [op]) == Operand(x) + ([Operator(op)] + Operand(y))
  {
    hide Operand;
    assert [x, y][1..] == [y] && [op][1..] == [];
  }

  lemma FlatTwo(x: Expr, o1: BinOp, y: Expr, o2: BinOp, z: Expr)
    ensures Flat([x, y, z], [o1, o2]) == Operand(x) + ([Operator(o1)] + (Operand(y) + ([Operator(o2)] + Operand(z))))
  {
    hide Operand;
    assert [x, y, z][1..] == [y, z] && [o1, o2][1..] == [o2];
    FlatOne(y, o2, z);
  }

  lemma GroupedOne(x: Expr, op: BinOp, y: Expr)
    ensures Grouped([x, y], [op]) == Binary(op, x, y)
  {
    assert [x, y][..1] == [x] && [x, y][1..] == [y] && [op][..0] == [] && [op][1..] == [];
  }

  /** Two operands of any kind. */
  lemma OneOperator(x: Expr, op: BinOp, y: Expr, end: Token)
    requires Closes(end)
    ensures PExpr(1, Operand(x) + [Operator(op)] + Operand(y) + [end]) == Some((Binary(op, x, y), [end]))
  {
    hide PExpr, Operand, Flat, Grouped, Closes;
    FlatOne(x, op, y);
    GroupedOne(x, op, y);
    PrecedenceTree([x, y], [op], end, []);
    assert [end] + [] == [end];
    assert Operand(x) + [Operator(op)] + Operand(y) + [end] == Operand(x) + ([Operator(op)] + Operand(y)) + [end];
  }

  lemma PrefixOperand(op: UnOp, t: Token)
    requires Atom(t).Some?
    ensures Operand(Unary(op, Atom(t).value)) == [if op == Minus then Operator(Sub) else BangTok, t]
  {
    assert Pr(Atom(t).value, PREC_UNARY) == [t];
  }

  lemma CallOperand(f: Token, t: Token)
    requires Atom(f).Some? && Atom(t).Some?
    ensures Operand(Call(Atom(f).value, [Atom(t).value])) == [f, OpenParen, t, CloseParen]
  {
    var x := Atom(t).value;
    assert PrArgs([x]) == Pr(x, PREC_ASSIGNMENT) == [t];
    assert Pr(Atom(f).value, PREC_CALL) == [f];
  }

  /** A prefix operator binds tighter than every binary one. */
  lemma PrefixFirst(u: UnOp, a: Token, op: BinOp, b: Token, end: Token)
    requires Atom(a).Some? && Atom(b).Some? && Closes(end)
    ensures var x, y, t := Atom(a).value, Atom(b).value, if u == Minus then Operator(Sub) else BangTok;
            && PExpr(1, [t, a, Operator(op), b, end]) == Some((Binary(op, Unary(u, x), y), [end]))
            && PExpr(1, [a, Operator(op), t, b, end]) == Some((Binary(op, x, Unary(u, y)), [end]))
  {
    var x, y, t := Atom(a).value, Atom(b).value, if u == Minus then Operator(Sub) else BangTok;
    AtomOperand(a);
    AtomOperand(b);
    PrefixOperand(u, a);
    PrefixOperand(u, b);
    hide PExpr, Operand, Atom, Closes;
    OneOperator(Unary(u, x), op, y, end);
    assert [t, a] + [Operator(op)] + [b] + [end] == [t, a, Operator(op), b, end];
    OneOperator(x, op, Unary(u, y), end);
    assert [a] + [Operator(op)] + [t, b] + [end] == [a, Operator(op), t, b, end];
  }

  /** So does a call. */
  lemma CallFirst(f: Token, a: Token, op: BinOp, b: Token, end: Token)
    requires Atom(f).Some? && Atom(a).Some? && Atom(b).Some? && Closes(end)
    ensures var g, x, y := Atom(f).value, Atom(a).value, Atom(b).value;
            && PExpr(1, [f, OpenParen, a, CloseParen, Operator(op), b, end]) == Some((Binary(op, Call(g, [x]), y), [end]))
            && PExpr(1, [b, Operator(op), f, OpenParen, a, CloseParen, end]) == Some((Binary(op, y, Call(g, [x])), [end]))
  {
    var g, x, y := Atom(f).value, Atom(a).value, Atom(b).value;
    AtomOperand(b);
    CallOperand(f, a);
    hide PExpr, Operand, Atom, Closes;
    var call: Tokens := [f, OpenParen, a, CloseParen];
    OneOperator(Call(g, [x]), op, y, end);
    assert call + [Operator(op)] + [b] + [end] == [f, OpenParen, a, CloseParen, Operator(op), b, end];
    OneOperator(y, op, Call(g, [x]), end);
    assert [b] + [Operator(op)] + call + [end] == [b, Operator(op), f, OpenParen, a, CloseParen, end];
  }

  /** A call binds tighter than a prefix operator. */
  lemma CallBeforePrefix(u: UnOp, f: Token, a: Token, end: Token)
    requires Atom(f).Some? && Atom(a).Some? && Closes(end)
    ensures PExpr(1, [if u == Minus then Operator(Sub) else BangTok, f, OpenParen, a, CloseParen, end])
            == Some((Unary(u, Call(Atom(f).value, [Atom(a).value])), [end]))
  {
    var t, call := if u == Minus then Operator(Sub) else BangTok, Call(Atom(f).value, [Atom(a).value]);
    CallOperand(f, a);
    PrefixedCall(u, call);
    assert Free([end]) && Prec(Cur([end])) == 0;
    hide PExpr, PLoop, Operand, Atom;
    ReadOperand(Unary(u, call), 1, [end]);
    PLoopStops(1, Unary(u, call), [end]);
    assert [t] + [f, OpenParen, a, CloseParen] + [end] == [t, f, OpenParen, a, CloseParen, end];
  }

  lemma PrefixedCall(u: UnOp, e: Expr)
    requires e.Call?
    ensures Operand(Unary(u, e)) == [if u == Minus then Operator(Sub) else BangTok] + Operand(e)
  {
    assert Pr(e, PREC_UNARY) == Bare(e);
  }

  /** An assignment takes everything behind it, and nothing but a variable that begins
      the expression can be assigned to. */
  lemma AssignLast(x: Name, a: Token, op: BinOp, b: Token, end: Token)
    requires Atom(a).Some? && Atom(b).Some? && Closes(end)
    ensures PExpr(1, [Ident(x), EqualTok, a, Operator(op), b, end])
            == Some((Assign(x, Binary(op, Atom(a).value, Atom(b).value)), [end]))
    ensures PExpr(1, [a, Operator(op), Ident(x), EqualTok, b, end]) == None
  {
    var y, z := Atom(a).value, Atom(b).value;
    AtomOperand(a);
    AtomOperand(b);
    OneOperator(y, op, z, end);
    var ts: Tokens := [a, Operator(op), b, end];
    assert [a] + [Operator(op)] + [b] + [end] == ts;
    var all: Tokens := [Ident(x), EqualTok] + ts;
    assert all == [Ident(x), EqualTok, a, Operator(op), b, end];
    TakesAll(x, ts, Binary(op, y, z), [end]);
    TakesNone(a, op, x, [b, end]);
    assert [a, Operator(op), Ident(x), EqualTok] + [b, end] == [a, Operator(op), Ident(x), EqualTok, b, end];
  }

  lemma TakesAll(x: Name, ts: Tokens, e: Expr, rest: Tokens)
    requires PExpr(1, ts) == Some((e, rest)) && Free(rest) && Prec(Cur(rest)) == 0
    ensures PExpr(1, [Ident(x), EqualTok] + ts) == Some((Assign(x, e), rest))
  {
    var all := [Ident(x), EqualTok] + ts;
    assert all[1..] == [EqualTok] + ts && ([EqualTok] + ts)[1..] == ts;
    PLoopStops(1, Assign(x, e), rest);
    assert PPrefix(1, all) == Some((Assign(x, e), rest));
  }

  lemma TakesNone(a: Token, op: BinOp, x: Name, more: Tokens)
    requires Atom(a).Some?
    ensures PExpr(1, [a, Operator(op), Ident(x), EqualTok] + more) == None
  {
    var rest := [EqualTok] + more;
    var ts := [a, Operator(op), Ident(x), EqualTok] + more;
    assert ts[1..] == [Operator(op)] + ([Ident(x)] + rest);
    assert ([Ident(x)] + rest)[1..] == rest;
    assert PPrefix(1, ts) == Some((Atom(a).value, ts[1..]));
    assert PPrefix(OpPrec(op) + 1, [Ident(x)] + rest) == Some((Var(x), rest));
    assert PExpr(OpPrec(op) + 1, [Ident(x)] + rest) == Some((Var(x), rest));
    LoopTakes(1, Atom(a).value, op, [Ident(x)] + rest);
  }
}
