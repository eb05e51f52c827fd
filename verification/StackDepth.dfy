// How deep the operand stack gets in the code of an expression, and for which
// expressions that the compiler accepts it is left as it has to be.
module StackDepth {
  import opened Wrappers
  import opened Bytecode
  import opened Syntax
  import opened CodeGen
  import opened Semantics
  import opened Machine
  import opened MonitorFlow

  /** The operands an instruction takes; a call takes its callee too. */
  function Pops(op: Byte, n: Byte): nat {
    if op == OP_CALL then n + 1
    else if BinaryOf(op).Some? then 2
    else if op in {OP_NEGATE, OP_NOT, OP_PRINT, OP_POP, OP_SET_LOCAL, OP_SET_GLOBAL, OP_DEFINE_GLOBAL} then 1
    else 0
  }

  function Pushes(op: Byte): nat {
    if op in {OP_PRINT, OP_POP, OP_SET_LOCAL, OP_SET_GLOBAL, OP_DEFINE_GLOBAL, OP_NO_OP} then 0 else 1
  }

  /** This is what the machine does: a step that goes on found as many operands and
      leaves the stack so much deeper.  What a call leaves behind when it returns,
      Scopes.CallReplaced says. */
  lemma StepDepth(p: Program, ops: Ops, st: State)
    requires st.frames != [] && Valid(st) && Whole(FunOf(p, Top(st).fid).code, Top(st).pc)
    requires var op := FunOf(p, Top(st).fid).code[Top(st).pc]; Simple(op) && op != OP_CALL
    ensures var op, o := FunOf(p, Top(st).fid).code[Top(st).pc], Step(p, ops, st);
            && (st.esp < Pops(op, 0) ==> !o.Running?)
            && (o.Running? ==> o.st.esp == st.esp - Pops(op, 0) + Pushes(op))
  {
    hide Apply, ApplyUnary;
  }

  /** The depth behind straight-line code that begins `d` deep; None if an instruction
      would take operands that lie below. */
  function Depth(code: seq<Byte>, d: nat): Option<nat>
    requires Linear(code)
    decreases |code|
  {
    if code == [] then Some(d)
    else if d < Takes(code) then None
    else Depth(code[Width(code[0])..], d - Takes(code) + Pushes(code[0]))
  }

  /** What the first instruction takes. */
  function Takes(code: seq<Byte>): nat
    requires code != []
  {
    Pops(code[0], if |code| > 1 then code[1] else 0)
  }

  lemma FirstOf(a: seq<Byte>, b: seq<Byte>)
    requires Linear(a) && a != []
    ensures (a + b)[0] == a[0] && Takes(a + b) == Takes(a)
    ensures 1 <= Width(a[0]) <= |a| && (a + b)[Width(a[0])..] == a[Width(a[0])..] + b
  {
    WidthIn(a);
    hide Takes, Width, Linear;
    TakesSame(a, a + b);
    Tail(a, b, Width(a[0]));
  }

  lemma Tail(a: seq<Byte>, b: seq<Byte>, w: nat)
    requires w <= |a|
    ensures (a + b)[w..] == a[w..] + b
  {
  }

  lemma TakesSame(a: seq<Byte>, c: seq<Byte>)
    requires a != [] && c != [] && a[0] == c[0] && Width(a[0]) <= |a| && (|a| > 1 ==> |c| > 1 && a[1] == c[1])
    ensures Takes(c) == Takes(a)
  {
    OperandOf(a[0], if |a| > 1 then a[1] else 0, if |c| > 1 then c[1] else 0);
    WidthIs(a[0]);
    hide Pops, Width;
  }

  lemma WidthIs(op: Byte)
    ensures 1 <= Width(op) <= 3
  {
  }

  lemma WidthIn(a: seq<Byte>)
    requires Linear(a) && a != []
    ensures 1 <= Width(a[0]) <= |a|
  {
  }

  /** Only a call's operand says what it takes. */
  lemma OperandOf(op: Byte, n: Byte, m: Byte)
    ensures Width(op) == 1 ==> Pops(op, n) == Pops(op, m)
  {
  }

  lemma {:induction false} DepthAppend(a: seq<Byte>, b: seq<Byte>, d: nat)
    requires Linear(a) && Linear(b)
    ensures Linear(a + b) && Depth(a + b, d) == match Depth(a, d) case None => None case Some(k) => Depth(b, k)
    decreases |a|
  {
    hide Takes, Pushes, Width, Simple;
    LinearAppend(a, b);
    if a == [] {
      assert a + b == b;
    } else {
      FirstOf(a, b);
      if d >= Takes(a) { DepthAppend(a[Width(a[0])..], b, d - Takes(a) + Pushes(a[0])); }
    }
  }

  /** One instruction at the end. */
  lemma DepthOne(a: seq<Byte>, seg: seq<Byte>, d: nat)
    requires Linear(a) && seg != [] && Simple(seg[0]) && |seg| == Width(seg[0])
    ensures Linear(a + seg)
    ensures Depth(a + seg, d) == match Depth(a, d)
                                 case None => None
                                 case Some(k) => if k < Takes(seg) then None else Some(k - Takes(seg) + Pushes(seg[0]))
  {
    hide Takes, Pushes;
    OneLinear(seg);
    DepthAppend(a, seg, d);
    assert seg[|seg|..] == [];
  }

  // ----- expressions -----

  function Assigns(e: Expr): nat
    decreases e, 1
  {
    match e
    case Assign(_, rhs) => 1 + Assigns(rhs)
    case Unary(_, a) => Assigns(a)
    case Binary(_, l, r) => Assigns(l) + Assigns(r)
    case Call(f, args) => Assigns(f) + AssignsIn(args)
    case _ => 0
  }

  function AssignsIn(es: seq<Expr>): nat
    decreases es, 0
  {
    if es == [] then 0 else Assigns(es[0]) + AssignsIn(es[1..])
  }

  /** No call has more arguments than its operand can count. */
  predicate ArgsFit(e: Expr)
    decreases e, 1
  {
    match e
    case Assign(_, rhs) => ArgsFit(rhs)
    case Unary(_, a) => ArgsFit(a)
    case Binary(_, l, r) => ArgsFit(l) && ArgsFit(r)
    case Call(f, args) => |args| <= MAX_ARGS && ArgsFit(f) && AllArgsFit(args)
    case _ => true
  }

  predicate AllArgsFit(es: seq<Expr>)
    decreases es, 0
  {
    es == [] || (ArgsFit(es[0]) && AllArgsFit(es[1..]))
  }

  lemma {:induction false} PlainIff(e: Expr)
    ensures Plain(e) <==> ArgsFit(e) && Assigns(e) == 0
    decreases e, 1
  {
    match e
    case Assign(_, _) =>
    case Unary(_, a) => PlainIff(a);
    case Binary(_, l, r) => PlainIff(l); PlainIff(r);
    case Call(f, args) => PlainIff(f); PlainArgsIff(args);
    case _ =>
  }

  lemma {:induction false} PlainArgsIff(es: seq<Expr>)
    ensures PlainArgs(es) <==> AllArgsFit(es) && AssignsIn(es) == 0
    decreases es, 0
  {
    if es != [] {
      PlainIff(es[0]);
      PlainArgsIff(es[1..]);
    }
  }

  /** The flag counts: an accepted expression has at most one assignment, and none
      where the flag is set. */
  lemma {:induction false} OneAssign(e: Expr, c: Ctx)
    requires GenExpr(e, c).Some?
    ensures Assigns(e) <= 1 && (c.setOp ==> Assigns(e) == 0)
    ensures GenExpr(e, c).value.c.setOp == (c.setOp || Assigns(e) == 1)
    decreases e, 1
  {
    match e
    case Assign(x, rhs) =>
      var slot := Resolve(c.locals, x);
      hide Resolve;
      OneAssign(rhs, (if slot != -1 then c else AddConst(c, VStr(x)).value.1).(setOp := true));
    case Unary(_, a) => OneAssign(a, c);
    case Binary(_, l, r) =>
      OneAssign(l, c);
      OneAssign(r, GenExpr(l, c).value.c);
    case Call(f, args) =>
      OneAssign(f, c);
      OneAssignIn(args, GenExpr(f, c).value.c);
    case _ =>
  }

  lemma {:induction false} OneAssignIn(es: seq<Expr>, c: Ctx)
    requires GenArgs(es, c).Some?
    ensures AssignsIn(es) <= 1 && (c.setOp ==> AssignsIn(es) == 0)
    ensures GenArgs(es, c).value.c.setOp == (c.setOp || AssignsIn(es) == 1)
    decreases es, 0
  {
    if es != [] {
      OneAssign(es[0], c);
      OneAssignIn(es[1..], GenExpr(es[0], c).value.c);
    }
  }

  /** The net effect of an accepted expression: one operand, less one for its
      assignment, unless it takes what lies below, which without assignment it does
      not. */
  ghost predicate NetIs(e: Option<nat>, d: nat, pushed: nat, assigns: nat) {
    (e.Some? ==> e.value + assigns == d + pushed) && (assigns == 0 ==> e.Some?)
  }

  lemma {:induction false} NetEffect(e: Expr, c: Ctx, d: nat)
    requires GenExpr(e, c).Some? && ArgsFit(e)
    ensures Linear(GenExpr(e, c).value.code) && NetIs(Depth(GenExpr(e, c).value.code, d), d, 1, Assigns(e))
    decreases e, 1
  {
    LinearExpr(e, c);
    hide Depth, Linear, Resolve, AddConst;
    match e
    case Assign(_, _) => NetAssign(e, c, d);
    case Unary(op, a) =>
      NetEffect(a, c, d);
      OneAssign(a, c);
      UnaryDepth(GenExpr(a, c).value.code, op, d);
    case Binary(_, _, _) => NetBinary(e, c, d);
    case Call(_, _) => NetCall(e, c, d);
    case _ => NetLeaf(e, c, d);
  }

  lemma NetLeaf(e: Expr, c: Ctx, d: nat)
    requires GenExpr(e, c).Some? && (e.Number? || e.Str? || e.Lit? || e.Var?)
    ensures Linear(GenExpr(e, c).value.code) && Depth(GenExpr(e, c).value.code, d) == Some(d + 1)
  {
    var code := GenExpr(e, c).value.code;
    LeafCode(e, c);
    hide GenExpr, Linear, Depth;
    NothingDeep(d);
    DepthOne([], code, d);
    assert [] + code == code;
  }

  lemma NothingDeep(d: nat)
    ensures Linear([]) && Depth([], d) == Some(d)
  {
  }

  lemma LeafCode(e: Expr, c: Ctx)
    requires GenExpr(e, c).Some? && (e.Number? || e.Str? || e.Lit? || e.Var?)
    ensures var code := GenExpr(e, c).value.code;
            code != [] && Simple(code[0]) && |code| == Width(code[0]) && Takes(code) == 0 && Pushes(code[0]) == 1
  {
    hide Resolve;
  }

  lemma UnaryDepth(code: seq<Byte>, op: UnOp, d: nat)
    requires Linear(code)
    ensures var all := code + [if op == Minus then OP_NEGATE else OP_NOT];
            Linear(all) && Depth(all, d) == match Depth(code, d) case None => None case Some(k) => if k < 1 then None else Some(k)
  {
    DepthOne(code, [if op == Minus then OP_NEGATE else OP_NOT], d);
  }

  lemma OperatorDepth(code: seq<Byte>, op: BinOp, d: nat)
    requires Linear(code)
    ensures Linear(code + OpCode(op))
    ensures Depth(code + OpCode(op), d) == match Depth(code, d) case None => None case Some(k) => if k < 2 then None else Some(k - 1)
  {
    hide Depth, Linear;
    var ops := OpCode(op);
    FirstOperator(op);
    DepthOne(code, ops[..1], d);
    if |ops| == 2 {
      DepthOne(code + ops[..1], ops[1..], d);
      assert code + ops[..1] + ops[1..] == code + ops;
    } else {
      assert ops[..1] == ops;
    }
  }

  lemma FirstOperator(op: BinOp)
    ensures var ops := OpCode(op);
            1 <= |ops| <= 2 && BinaryOf(ops[0]).Some? && Simple(ops[0]) && Width(ops[0]) == 1 && (|ops| == 2 ==> ops[1] == OP_NOT)
    ensures Pops(OpCode(op)[0], 0) == 2 && Pushes(OpCode(op)[0]) == 1
  {
  }

  lemma {:induction false} BinaryParts(e: Expr, c: Ctx, d: nat) returns (code: seq<Byte>)
    requires e.Binary? && GenExpr(e, c).Some? && ArgsFit(e)
    ensures GenExpr(e, c).value.code == code + OpCode(e.op)
    ensures Linear(code) && NetIs(Depth(code, d), d, 2, Assigns(e))
    decreases e, 0, 0
  {
    hide Depth, Linear, OpCode;
    var o := GenExpr(e.l, c).value;
    var q := GenExpr(e.r, o.c).value;
    code := o.code + q.code;
    NetEffect(e.l, c, d);
    LinearExpr(e.r, o.c);
    DepthAppend(o.code, q.code, d);
    if Depth(o.code, d).Some? { NetEffect(e.r, o.c, Depth(o.code, d).value); }
  }

  lemma {:induction false} NetBinary(e: Expr, c: Ctx, d: nat)
    requires e.Binary? && GenExpr(e, c).Some? && ArgsFit(e)
    ensures Linear(GenExpr(e, c).value.code) && NetIs(Depth(GenExpr(e, c).value.code, d), d, 1, Assigns(e))
    decreases e, 0, 1
  {
    hide Depth, Linear, OpCode, GenExpr, Assigns;
    var code := BinaryParts(e, c, d);
    OperatorDepth(code, e.op, d);
  }

  lemma {:induction false} NetArgs(es: seq<Expr>, c: Ctx, d: nat)
    requires GenArgs(es, c).Some? && AllArgsFit(es)
    ensures Linear(GenArgs(es, c).value.code) && NetIs(Depth(GenArgs(es, c).value.code, d), d, |es|, AssignsIn(es))
    decreases es, 0
  {
    if es == [] {
      assert Depth([], d) == Some(d);
    } else {
      hide Depth, Linear;
      var o := GenExpr(es[0], c).value;
      var q := GenArgs(es[1..], o.c).value;
      NetEffect(es[0], c, d);
      LinearArgs(es[1..], o.c);
      DepthAppend(o.code, q.code, d);
      if Depth(o.code, d).Some? { NetArgs(es[1..], o.c, Depth(o.code, d).value); }
    }
  }

  lemma CallDepth(code: seq<Byte>, n: Byte, d: nat)
    requires Linear(code)
    ensures Linear(code + [OP_CALL, n, 0])
    ensures Depth(code + [OP_CALL, n, 0], d) == match Depth(code, d) case None => None case Some(k) => if k < n + 1 then None else Some(k - n)
  {
    hide Depth, Linear;
    DepthOne(code, [OP_CALL, n, 0], d);
  }

  lemma CallCode(e: Expr, c: Ctx) returns (o: Out, q: Out)
    requires e.Call? && GenExpr(e, c).Some? && |e.args| <= MAX_ARGS
    ensures GenExpr(e.callee, c) == Some(o) && GenArgs(e.args, o.c) == Some(q)
    ensures GenExpr(e, c).value.code == o.code + q.code + [OP_CALL, |e.args|, 0]
  {
    o := GenExpr(e.callee, c).value;
    q := GenArgs(e.args, o.c).value;
  }

  lemma {:induction false} CallParts(e: Expr, c: Ctx, d: nat) returns (code: seq<Byte>)
    requires e.Call? && GenExpr(e, c).Some? && ArgsFit(e)
    ensures |e.args| <= MAX_ARGS && GenExpr(e, c).value.code == code + [OP_CALL, |e.args|, 0]
    ensures Linear(code) && NetIs(Depth(code, d), d, 1 + |e.args|, Assigns(e))
    decreases e, 0, 0
  {
    hide Depth, Linear, GenExpr, GenArgs;
    var o, q := CallCode(e, c);
    code := o.code + q.code;
    NetEffect(e.callee, c, d);
    LinearArgs(e.args, o.c);
    DepthAppend(o.code, q.code, d);
    if Depth(o.code, d).Some? { NetArgs(e.args, o.c, Depth(o.code, d).value); }
  }

  lemma {:induction false} NetCall(e: Expr, c: Ctx, d: nat)
    requires e.Call? && GenExpr(e, c).Some? && ArgsFit(e)
    ensures Linear(GenExpr(e, c).value.code) && NetIs(Depth(GenExpr(e, c).value.code, d), d, 1, Assigns(e))
    decreases e, 0, 1
  {
    hide Depth, Linear, GenExpr, Assigns;
    var code := CallParts(e, c, d);
    CallDepth(code, |e.args|, d);
  }

  lemma StoreDepth(code: seq<Byte>, store: seq<Byte>, d: nat)
    requires Linear(code) && |store| == 2 && store[0] in {OP_SET_LOCAL, OP_SET_GLOBAL}
    ensures Linear(code + store)
    ensures Depth(code + store, d) == match Depth(code, d) case None => None case Some(k) => if k < 1 then None else Some(k - 1)
  {
    hide Depth, Linear;
    DepthOne(code, store, d);
  }

  /** The value of an assignment is compiled with the flag set. */
  lemma AssignParts(e: Expr, c: Ctx) returns (c1: Ctx, o: Out, store: seq<Byte>)
    requires e.Assign? && GenExpr(e, c).Some?
    ensures c1.setOp && GenExpr(e.rhs, c1) == Some(o) && GenExpr(e, c).value.code == o.code + store
    ensures |store| == 2 && store[0] in {OP_SET_LOCAL, OP_SET_GLOBAL}
  {
    var slot := Resolve(c.locals, e.x);
    hide Resolve;
    c1 := (if slot != -1 then c else AddConst(c, VStr(e.x)).value.1).(setOp := true);
    o := GenExpr(e.rhs, c1).value;
    store := GenExpr(e, c).value.code[|o.code|..];
  }

  lemma {:induction false} NetAssign(e: Expr, c: Ctx, d: nat)
    requires e.Assign? && GenExpr(e, c).Some? && ArgsFit(e)
    ensures Linear(GenExpr(e, c).value.code) && NetIs(Depth(GenExpr(e, c).value.code, d), d, 1, Assigns(e))
    ensures Assigns(e.rhs) == 0 && Depth(GenExpr(e, c).value.code, d) == Some(d)
    decreases e, 0
  {
    hide Depth, Linear, GenExpr;
    var c1, o, store := AssignParts(e, c);
    NetEffect(e.rhs, c1, d);
    OneAssign(e.rhs, c1);
    StoreDepth(o.code, store, d);
  }

  /** Exactly the expressions without assignment leave one operand, taking nothing
      that lies below; exactly those and an assignment of one of them take nothing
      that lies below.  The others that the compiler accepts take an operand that is
      not theirs. */
  lemma StackKept(e: Expr, c: Ctx)
    requires GenExpr(e, c).Some? && ArgsFit(e)
    ensures Linear(GenExpr(e, c).value.code) && Assigns(e) <= 1
    ensures Depth(GenExpr(e, c).value.code, 0) == Some(1) <==> Plain(e)
    ensures Depth(GenExpr(e, c).value.code, 0).Some? <==> Effect(e)
  {
    hide Depth, Linear;
    NetEffect(e, c, 0);
    OneAssign(e, c);
    PlainIff(e);
    if e.Assign? {
      NetAssign(e, c, 0);
      PlainIff(e.rhs);
    } else if !Plain(e) {
      TakesMore(e, c);
    }
  }

  /** Where a value is expected the assignment left none. */
  lemma TakesMore(e: Expr, c: Ctx)
    requires GenExpr(e, c).Some? && ArgsFit(e) && !e.Assign? && Assigns(e) == 1
    ensures Linear(GenExpr(e, c).value.code) && Depth(GenExpr(e, c).value.code, 0).None?
  {
    hide Depth, Linear, OpCode;
    LinearExpr(e, c);
    match e
    case Unary(op, a) =>
      NetEffect(a, c, 0);
      UnaryDepth(GenExpr(a, c).value.code, op, 0);
    case Binary(_, _, _) =>
      hide GenExpr;
      var code := BinaryParts(e, c, 0);
      OperatorDepth(code, e.op, 0);
    case Call(_, args) =>
      hide GenExpr;
      var code := CallParts(e, c, 0);
      CallDepth(code, |args|, 0);
    case _ =>
  }
}
