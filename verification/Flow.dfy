// Which monitors are held where, for the code alone: labels on the instructions of a
// function that every edge of its control flow respects.
module MonitorFlow {
  import opened Wrappers
  import opened Bytecode
  import opened Syntax
  import opened CodeGen
  import opened Machine
  import opened CompilerSpec

  /** For each byte: None inside an instruction, else the monitors that are held when
      the instruction begins, the last entered last. */
  type Labels = seq<Option<seq<Byte>>>

  // ----- control flow -----

  predicate Whole(code: seq<Byte>, pc: nat) {
    pc < |code| && pc + Width(code[pc]) <= |code|
  }

  /** Where the machine can be after an instruction, within the same function. */
  function Succs(code: seq<Byte>, pc: nat): set<int>
    requires Whole(code, pc)
  {
    var op := code[pc];
    if op == OP_RETURN || op == OP_EOF then {}
    else if op == OP_JUMP then {pc + 3 + U16(code[pc + 1], code[pc + 2])}
    else if op == OP_LOOP then {pc + 3 - U16(code[pc + 1], code[pc + 2])}
    else if op == OP_JUMP_IF_FALSE then {pc + 3, pc + 3 + U16(code[pc + 1], code[pc + 2])}
    else {pc + Width(op)}
  }

  /** The monitors held after an instruction; None for an instruction that may not
      stand where `h` is held: it enters one of `h`, exits another than the last, or
      returns while one is held. */
  function HeldAfter(code: seq<Byte>, pc: nat, h: seq<Byte>): Option<seq<Byte>>
    requires Whole(code, pc)
  {
    var op := code[pc];
    if op == OP_ENTER_MONITOR then if code[pc + 1] in h then None else Some(h + [code[pc + 1]])
    else if op == OP_EXIT_MONITOR then if h != [] && h[|h| - 1] == code[pc + 1] then Some(h[..|h| - 1]) else None
    else if op == OP_RETURN then if h == [] then Some([]) else None
    else Some(h)
  }

  /** The opcodes the compiler emits. */
  predicate Emitted(op: Byte) {
    Simple(op) || op in {OP_JUMP, OP_LOOP, OP_JUMP_IF_FALSE, OP_RETURN, OP_EOF, OP_ENTER_MONITOR, OP_EXIT_MONITOR}
  }

  /** Those that only go on to the next instruction and concern no monitor. */
  predicate Simple(op: Byte) {
    op in {OP_CONSTANT, OP_NIL, OP_TRUE, OP_FALSE, OP_POP, OP_EQUAL, OP_GREATER, OP_LESS, OP_NEGATE, OP_PRINT, OP_ADD, OP_SUB,
           OP_DEFINE_GLOBAL, OP_GET_GLOBAL, OP_SET_GLOBAL, OP_GET_LOCAL, OP_SET_LOCAL, OP_MUL, OP_DIV, OP_NOT, OP_CALL,
           OP_FAST_CONST_8, OP_FAST_CONST_16, OP_CONST_1, OP_CONST_2, OP_BINARY_OP_AND, OP_BINARY_OP_OR, OP_LEFT_SHIFT,
           OP_RIGHT_SHIFT, OP_MODULO}
  }

  /** Instructions lie one behind the other: none begins inside another, one follows
      each but the end of file, and none begins behind that.  Loops lead back. */
  ghost predicate InLine(code: seq<Byte>, labels: Labels, pc: nat)
    requires |labels| == |code| && Whole(code, pc)
  {
    var op, next := code[pc], pc + Width(code[pc]);
    && Emitted(op)
    && (forall i: nat | pc < i < if op == OP_EOF then |code| else next :: labels[i].None?)
    && (op != OP_EOF ==> next < |code| && labels[next].Some?)
    && (op == OP_LOOP ==> U16(code[pc + 1], code[pc + 2]) >= 3)
  }

  ghost predicate EdgesOk(code: seq<Byte>, labels: Labels, pc: nat)
    requires |labels| == |code| && pc < |code| && labels[pc].Some?
  {
    && Whole(code, pc)
    && InLine(code, labels, pc)
    && HeldAfter(code, pc, labels[pc].value).Some?
    && forall t | t in Succs(code, pc) :: 0 <= t < |code| && labels[t] == HeldAfter(code, pc, labels[pc].value)
  }

  /** The labels of a function's code: nothing is held when it begins, every
      instruction has a label, and every edge from one leads to another that is
      labelled as it has to be. */
  ghost predicate Labelled(code: seq<Byte>, labels: Labels) {
    && |labels| == |code| > 0 && labels[0] == Some([])
    && forall pc: nat | pc < |code| && labels[pc].Some? :: EdgesOk(code, labels, pc)
  }

  // ----- every path -----

  ghost predicate Path(code: seq<Byte>, p: seq<nat>) {
    && p != [] && p[0] == 0 && (forall i: nat | i < |p| :: Whole(code, p[i]))
    && forall i: nat | i + 1 < |p| :: p[i + 1] in Succs(code, p[i])
  }

  /** What is held at the end of a path, if no instruction on it stands wrong. */
  function HeldAlong(code: seq<Byte>, p: seq<nat>): Option<seq<Byte>>
    requires forall i: nat | i < |p| :: Whole(code, p[i])
  {
    if |p| <= 1 then Some([])
    else
      var h :- HeldAlong(code, p[..|p| - 1]);
      HeldAfter(code, p[|p| - 2], h)
  }

  /** On every path from the entry, what is held at an instruction is the
      instruction's label, and the instruction may stand there: it enters no monitor
      the frame holds, exits the last one entered, and returns with none held. */
  lemma {:induction false} PathHeld(code: seq<Byte>, labels: Labels, p: seq<nat>)
    requires Labelled(code, labels) && Path(code, p)
    ensures var pc := p[|p| - 1];
            && HeldAlong(code, p).Some? && labels[pc] == HeldAlong(code, p)
            && HeldAfter(code, pc, HeldAlong(code, p).value).Some?
    decreases |p|
  {
    hide Succs, HeldAfter;
    if |p| > 1 {
      var q := p[..|p| - 1];
      assert Path(code, q);
      PathHeld(code, labels, q);
      assert EdgesOk(code, labels, q[|q| - 1]);
      assert p[|p| - 2 + 1] in Succs(code, p[|p| - 2]);
    }
    assert EdgesOk(code, labels, p[|p| - 1]);
  }

  // ----- labelled pieces -----

  ghost predicate Covers(code: seq<Byte>, labels: Labels, from: nat, to: nat) {
    |labels| == |code| && to <= |code| && forall pc: nat | from <= pc < to && labels[pc].Some? :: EdgesOk(code, labels, pc)
  }

  /** A piece of code and its labels stand at `from`. */
  ghost predicate Stands(code: seq<Byte>, labels: Labels, from: nat, seg: seq<Byte>, lab: Labels) {
    |labels| == |code| && |lab| == |seg| && At(code, from, seg) && labels[from..from + |seg|] == lab
  }

  ghost predicate Held(labels: Labels, pc: nat, h: seq<Byte>) {
    pc < |labels| && labels[pc] == Some(h)
  }

  /** All edges from the piece are right, and `h` is held before it. */
  ghost predicate Flows(code: seq<Byte>, labels: Labels, from: nat, n: nat, h: seq<Byte>) {
    Covers(code, labels, from, from + n) && Held(labels, from, h)
  }

  lemma StandsSplit(code: seq<Byte>, labels: Labels, from: nat, a: seq<Byte>, b: seq<Byte>, la: Labels, lb: Labels)
    requires Stands(code, labels, from, a + b, la + lb) && |a| == |la|
    ensures Stands(code, labels, from, a, la) && Stands(code, labels, from + |a|, b, lb)
  {
    var l := labels[from..from + |a + b|];
    AtSplit(code, from, a, b);
    assert l[..|a|] == la && l[|a|..] == lb;
    assert l[..|a|] == labels[from..from + |a|] && l[|a|..] == labels[from + |a|..from + |a| + |b|];
  }

  lemma FlowsJoin(code: seq<Byte>, labels: Labels, from: nat, n: nat, m: nat, h: seq<Byte>, h1: seq<Byte>)
    requires Flows(code, labels, from, n, h) && Flows(code, labels, from + n, m, h1)
    ensures Flows(code, labels, from, n + m, h)
  {
    hide EdgesOk;
  }

  lemma FlowsNothing(code: seq<Byte>, labels: Labels, from: nat, h: seq<Byte>)
    requires |labels| == |code| && Held(labels, from, h)
    ensures Flows(code, labels, from, 0, h)
  {
  }

  // ----- straight-line code -----

  predicate Linear(code: seq<Byte>)
    decreases |code|
  {
    code == [] || (Simple(code[0]) && Width(code[0]) <= |code| && Linear(code[Width(code[0])..]))
  }

  function Mark(w: nat, h: seq<Byte>): (r: Labels)
    requires 1 <= w <= 3
    ensures |r| == w
  {
    if w == 1 then [Some(h)] else if w == 2 then [Some(h), None] else [Some(h), None, None]
  }

  /** The labels of straight-line code. */
  function Straight(code: seq<Byte>, h: seq<Byte>): (r: Labels)
    requires Linear(code)
    ensures |r| == |code|
    decreases |code|
  {
    if code == [] then [] else Mark(Width(code[0]), h) + Straight(code[Width(code[0])..], h)
  }

  lemma {:induction false} LinearAppend(a: seq<Byte>, b: seq<Byte>)
    requires Linear(a) && Linear(b)
    ensures Linear(a + b)
    decreases |a|
  {
    hide Simple;
    if a == [] {
      assert a + b == b;
    } else {
      var w := Width(a[0]);
      LinearAppend(a[w..], b);
      assert (a + b)[w..] == a[w..] + b;
    }
  }

  lemma OneLinear(seg: seq<Byte>)
    requires seg != [] && Simple(seg[0]) && |seg| == Width(seg[0])
    ensures Linear(seg)
  {
    assert seg[|seg|..] == [];
  }

  lemma OperatorLinear(op: BinOp)
    ensures Linear(OpCode(op))
  {
    var code := OpCode(op);
    OneLinear(code[..1]);
    if |code| == 2 {
      OneLinear(code[1..]);
      LinearAppend(code[..1], code[1..]);
      assert code[..1] + code[1..] == code;
    } else {
      assert code[..1] == code;
    }
  }

  lemma LeafLinear(e: Expr, c: Ctx)
    requires GenExpr(e, c).Some? && (e.Number? || e.Str? || e.Lit? || e.Var?)
    ensures Linear(GenExpr(e, c).value.code)
  {
    hide Linear, Resolve;
    OneLinear(GenExpr(e, c).value.code);
  }

  lemma {:induction false} LinearExpr(e: Expr, c: Ctx)
    requires GenExpr(e, c).Some?
    ensures Linear(GenExpr(e, c).value.code)
    decreases e, 1
  {
    hide AddConst, Resolve, Linear, Width, OpCode;
    match e
    case Assign(_, _) => LinearAssign(e, c);
    case Unary(op, a) =>
      LinearExpr(a, c);
      var i := [if op == Minus then OP_NEGATE else OP_NOT];
      assert Linear(i) by { LinearUnary(op); }
      LinearAppend(GenExpr(a, c).value.code, i);
    case Binary(op, l, r) =>
      var o := GenExpr(l, c).value;
      LinearExpr(l, c);
      LinearExpr(r, o.c);
      OperatorLinear(op);
      LinearAppend(o.code, GenExpr(r, o.c).value.code);
      LinearAppend(o.code + GenExpr(r, o.c).value.code, OpCode(op));
    case Call(f, args) =>
      var o := GenExpr(f, c).value;
      LinearExpr(f, c);
      LinearArgs(args, o.c);
      assert Linear([OP_CALL, |args| % 256, 0]) by { LinearCall(|args| % 256); }
      LinearAppend(o.code, GenArgs(args, o.c).value.code);
      LinearAppend(o.code + GenArgs(args, o.c).value.code, [OP_CALL, |args| % 256, 0]);
    case _ => LeafLinear(e, c);
  }

  lemma LinearUnary(op: UnOp)
    ensures Linear([if op == Minus then OP_NEGATE else OP_NOT])
  {
    OneLinear([if op == Minus then OP_NEGATE else OP_NOT]);
  }

  lemma LinearCall(n: Byte)
    ensures Linear([OP_CALL, n, 0])
  {
    OneLinear([OP_CALL, n, 0]);
  }

  lemma LinearAssign(e: Expr, c: Ctx)
    requires e.Assign? && GenExpr(e, c).Some?
    ensures Linear(GenExpr(e, c).value.code)
    decreases e, 0
  {
    var slot := Resolve(c.locals, e.x);
    hide Resolve, Linear, Width;
    var c1 := if slot != -1 then c else AddConst(c, VStr(e.x)).value.1;
    var o := GenExpr(e.rhs, c1.(setOp := true)).value;
    var code := GenExpr(e, c).value.code;
    var store := code[|o.code|..];
    LinearExpr(e.rhs, c1.(setOp := true));
    assert code == o.code + store;
    assert Linear(store) by { LinearStore(store); }
    LinearAppend(o.code, store);
  }

  lemma LinearStore(store: seq<Byte>)
    requires |store| == 2 && store[0] in {OP_SET_LOCAL, OP_SET_GLOBAL}
    ensures Linear(store)
  {
    OneLinear(store);
  }

  lemma {:induction false} LinearArgs(args: seq<Expr>, c: Ctx)
    requires GenArgs(args, c).Some?
    ensures Linear(GenArgs(args, c).value.code)
    decreases args, 0
  {
    if args != [] {
      var o := GenExpr(args[0], c).value;
      LinearExpr(args[0], c);
      LinearArgs(args[1..], o.c);
      LinearAppend(o.code, GenArgs(args[1..], o.c).value.code);
    }
  }

  lemma StraightSplit(seg: seq<Byte>, h: seq<Byte>) returns (w: nat)
    requires Linear(seg) && seg != []
    ensures w == Width(seg[0]) && 1 <= w <= 3 && w <= |seg| && Simple(seg[0]) && Linear(seg[w..])
    ensures seg == seg[..w] + seg[w..] && Straight(seg, h) == Mark(w, h) + Straight(seg[w..], h)
  {
    w := Width(seg[0]);
  }

  lemma {:induction false} StraightFlow(code: seq<Byte>, labels: Labels, from: nat, seg: seq<Byte>, h: seq<Byte>)
    requires Linear(seg) && Stands(code, labels, from, seg, Straight(seg, h)) && Held(labels, from + |seg|, h)
    ensures Flows(code, labels, from, |seg|, h)
    decreases |seg|
  {
    hide Stands, Flows, Held, Linear, Straight, Width, Mark, Simple;
    if seg == [] {
      StandsLength(code, labels, from, seg, Straight(seg, h));
      FlowsNothing(code, labels, from, h);
    } else {
      var w := StraightSplit(seg, h);
      StandsSplit(code, labels, from, seg[..w], seg[w..], Mark(w, h), Straight(seg[w..], h));
      StraightFlow(code, labels, from + w, seg[w..], h);
      FlowsStart(code, labels, from + w, |seg| - w, h);
      SimpleFlow(code, labels, from, seg[..w], h);
      FlowsJoin(code, labels, from, w, |seg| - w, h, h);
    }
  }

  lemma FlowsStart(code: seq<Byte>, labels: Labels, from: nat, n: nat, h: seq<Byte>)
    requires Flows(code, labels, from, n, h)
    ensures Held(labels, from, h) && |labels| == |code|
  {
  }

  lemma SimpleFlow(code: seq<Byte>, labels: Labels, from: nat, seg: seq<Byte>, h: seq<Byte>)
    requires seg != [] && Simple(seg[0]) && |seg| == Width(seg[0])
    requires Stands(code, labels, from, seg, Mark(|seg|, h)) && Held(labels, from + |seg|, h)
    ensures Flows(code, labels, from, |seg|, h)
  {
    MarkAt(code, labels, from, seg, h);
  }

  /** The one label of an instruction. */
  lemma MarkAt(code: seq<Byte>, labels: Labels, from: nat, seg: seq<Byte>, h: seq<Byte>)
    requires seg != [] && |seg| == Width(seg[0]) && Stands(code, labels, from, seg, Mark(|seg|, h))
    ensures Whole(code, from) && Held(labels, from, h) && forall i: nat | i < |seg| :: code[from + i] == seg[i]
    ensures |labels| == |code| && forall pc: nat | from < pc < from + |seg| :: labels[pc].None?
  {
    var l, s := labels[from..from + |seg|], code[from..from + |seg|];
    assert forall i: nat | i < |seg| :: l[i] == labels[from + i] && s[i] == code[from + i];
    forall pc: nat | from < pc < from + |seg|
      ensures labels[pc].None?
    {
      assert l[pc - from] == labels[from + (pc - from)];
    }
  }

  // ----- the labels of the pieces of a function -----

  lemma OneMore(code: seq<Byte>, seg: seq<Byte>)
    requires Linear(code) && seg != [] && Simple(seg[0]) && |seg| == Width(seg[0])
    ensures Linear(code + seg)
  {
    OneLinear(seg);
    LinearAppend(code, seg);
  }

  lemma LinearOpt(e: Option<Expr>, c: Ctx)
    requires GenOpt(e, c).Some?
    ensures Linear(GenOpt(e, c).value.code)
  {
    if e.Some? { LinearExpr(e.value, c); } else { OneLinear([OP_NIL]); }
  }

  lemma LinearEffect(e: Expr, c: Ctx)
    ensures GenEffect(e, c).Some? ==> Linear(GenEffect(e, c).value.code)
    ensures GenIncr(e, c).Some? ==> Linear(GenIncr(e, c).value.code)
  {
    hide Linear;
    if GenExpr(e, c).Some? {
      LinearExpr(e, c);
      OneMore(GenExpr(e, c).value.code, [OP_POP]);
    }
  }

  lemma LinearVarDecl(x: Name, init: Option<Expr>, c: Ctx)
    requires GenVarDecl(x, init, c).Some?
    ensures Linear(GenVarDecl(x, init, c).value.code)
  {
    hide Linear, GenOpt, AddLocal;
    var code := GenVarDecl(x, init, c).value.code;
    var c1 := if c.depth > 0 then AddLocal(c, x).value.(pending := |c.locals|) else AddConst(c, VStr(x)).value.1;
    LinearOpt(init, c1);
    var o := GenOpt(init, c1).value;
    assert code == o.code + code[|o.code|..];
    OneMore(o.code, code[|o.code|..]);
  }

  lemma LinearInit(i: Init, c: Ctx)
    requires GenInit(i, c).Some?
    ensures Linear(GenInit(i, c).value.code)
  {
    hide GenVarDecl, GenEffect;
    match i
    case NoInit =>
    case VarInit(x, e) => LinearVarDecl(x, e, c);
    case ExprInit(e) => LinearEffect(e, c);
  }

  /** Statements and declarations without branches, loops and monitors. */
  lemma LinearStmt(s: Stmt, c: Ctx)
    requires GenStmt(s, c).Some? && (s.Print? || s.ExprStmt?)
    ensures Linear(GenStmt(s, c).value.code)
  {
    hide Linear, GenExpr, GenEffect;
    if s.Print? {
      LinearExpr(s.e, c);
      OneMore(GenExpr(s.e, c).value.code, [OP_PRINT]);
    } else {
      LinearEffect(s.e, c);
    }
  }

  lemma LinearDecl(d: Decl, c: Ctx)
    requires GenDecl(d, c).Some? && !d.StmtDecl?
    ensures Linear(GenDecl(d, c).value.code)
  {
    hide Linear, GenFun, GenVarDecl;
    if d.VarDecl? {
      LinearVarDecl(d.x, d.init, c);
    } else {
      var code := GenDecl(d, c).value.code;
      OneLinear(code[..2]);
      if |code| > 2 {
        OneMore(code[..2], code[2..]);
        assert code == code[..2] + code[2..];
      } else {
        assert code == code[..2];
      }
    }
  }

  function LabExits(held: seq<Byte>): (r: Labels)
    ensures |r| == |ExitAll(held)|
  {
    if held == [] then [] else Mark(2, held) + LabExits(held[..|held| - 1])
  }

  function Inner(c: Ctx): Ctx
    requires c.nextMon < MAX_MONITORS_PER_FUNCTION
  {
    c.(nextMon := c.nextMon + 1, held := c.held + [c.nextMon])
  }

  ghost function LabStmt(s: Stmt, c: Ctx): (r: Labels)
    requires GenStmt(s, c).Some?
    ensures |r| == |GenStmt(s, c).value.code|
    decreases s, 1
  {
    match s
    case Block(ds) => LabDecls(ds, BeginScope(c))
    case If(cond, t, e) =>
      var o := GenExpr(cond, c).value;
      LinearExpr(cond, c);
      var p := GenStmt(t, o.c).value;
      Straight(o.code, c.held) + (Mark(3, c.held)
        + (LabStmt(t, o.c) + (Mark(3, c.held) + (if e.Some? then LabStmt(e.value, p.c) else []))))
    case While(_, _) => LabLoop(s, c)
    case For(i, _, _, _) =>
      var o := GenInit(i, BeginScope(c)).value;
      LinearInit(i, BeginScope(c));
      Straight(o.code, c.held) + LabLoop(s, o.c)
    case Return(e) =>
      if e.Some? then LinearOpt(e, c); Straight(GenOpt(e, c).value.code, c.held) + (LabExits(c.held) + [Some([])])
      else LabExits(c.held) + [Some([]), Some([])]
    case Sync(b) => Mark(2, c.held) + (LabStmt(b, Inner(c)) + Mark(2, Inner(c).held))
    case _ => LinearStmt(s, c); Straight(GenStmt(s, c).value.code, c.held)
  }

  ghost function LabLoop(s: Stmt, c: Ctx): (r: Labels)
    requires (s.While? || s.For?) && GenLoop(s, c).Some?
    ensures |r| == |GenLoop(s, c).value.code|
    decreases s, 0
  {
    var o := GenExpr(s.cond, c).value;
    LinearExpr(s.cond, c);
    var q := if s.For? then GenIncr(s.incr, o.c).value else Out([], o.c);
    if s.For? then
      LinearEffect(s.incr, o.c);
      Straight(o.code, c.held) + (Mark(3, c.held) + (LabStmt(s.loopBody, q.c) + (Straight(q.code, c.held) + Mark(3, c.held))))
    else
      Straight(o.code, c.held) + (Mark(3, c.held) + (LabStmt(s.loopBody, q.c) + ([] + Mark(3, c.held))))
  }

  ghost function LabDecl(d: Decl, c: Ctx): (r: Labels)
    requires GenDecl(d, c).Some?
    ensures |r| == |GenDecl(d, c).value.code|
    decreases d, 1
  {
    if d.StmtDecl? then LabStmt(d.s, c) else LinearDecl(d, c); Straight(GenDecl(d, c).value.code, c.held)
  }

  ghost function LabDecls(ds: seq<Decl>, c: Ctx): (r: Labels)
    requires GenDecls(ds, c).Some?
    ensures |r| == |GenDecls(ds, c).value.code|
    decreases ds, 0
  {
    if ds == [] then [] else LabDecl(ds[0], c) + LabDecls(ds[1..], GenDecl(ds[0], c).value.c)
  }

  // ----- the edges of the pieces -----

  ghost predicate Below(c: Ctx) {
    forall m | m in c.held :: m < c.nextMon
  }

  lemma BelowKept(c: Ctx, d: Ctx)
    requires Below(c) && d.held == c.held && c.nextMon <= d.nextMon
    ensures Below(d)
  {
  }

  lemma JumpFlow(code: seq<Byte>, labels: Labels, from: nat, op: Byte, d: nat, h: seq<Byte>)
    requires Stands(code, labels, from, Jump(op, d), Mark(3, h)) && Held(labels, from + 3, h) && d < U16_LIMIT
    requires op == OP_JUMP || op == OP_JUMP_IF_FALSE || op == OP_LOOP
    requires if op == OP_LOOP then 3 <= d <= from + 3 && Held(labels, from + 3 - d, h) else Held(labels, from + 3 + d, h)
    ensures Flows(code, labels, from, 3, h)
  {
    U16RoundTrip(d);
    hide U16, Lo, Hi;
    MarkAt(code, labels, from, Jump(op, d), h);
  }

  lemma EnterFlow(code: seq<Byte>, labels: Labels, from: nat, m: Byte, h: seq<Byte>)
    requires Stands(code, labels, from, [OP_ENTER_MONITOR, m], Mark(2, h)) && Held(labels, from + 2, h + [m]) && m !in h
    ensures Flows(code, labels, from, 2, h)
  {
    MarkAt(code, labels, from, [OP_ENTER_MONITOR, m], h);
  }

  lemma ExitFlow(code: seq<Byte>, labels: Labels, from: nat, m: Byte, h: seq<Byte>)
    requires Stands(code, labels, from, [OP_EXIT_MONITOR, m], Mark(2, h + [m])) && Held(labels, from + 2, h)
    ensures Flows(code, labels, from, 2, h + [m])
  {
    MarkAt(code, labels, from, [OP_EXIT_MONITOR, m], h + [m]);
    assert (h + [m])[..|h|] == h;
  }

  lemma {:induction false} ExitsFlow(code: seq<Byte>, labels: Labels, from: nat, held: seq<Byte>)
    requires Stands(code, labels, from, ExitAll(held), LabExits(held)) && Held(labels, from + |ExitAll(held)|, [])
    ensures Flows(code, labels, from, |ExitAll(held)|, held)
    decreases |held|
  {
    if held == [] {
      FlowsNothing(code, labels, from, []);
    } else {
      hide Stands, Flows, Held;
      var m, rest := held[|held| - 1], held[..|held| - 1];
      assert held == rest + [m];
      StandsSplit(code, labels, from, [OP_EXIT_MONITOR, m], ExitAll(rest), Mark(2, held), LabExits(rest));
      ExitsFlow(code, labels, from + 2, rest);
      FlowsStart(code, labels, from + 2, |ExitAll(rest)|, rest);
      ExitFlow(code, labels, from, m, rest);
      FlowsJoin(code, labels, from, 2, |ExitAll(rest)|, held, rest);
    }
  }

  /** Some instruction begins at pc. */
  ghost predicate Begins(labels: Labels, pc: nat) {
    pc < |labels| && labels[pc].Some?
  }

  lemma HeldBegins(labels: Labels, pc: nat, h: seq<Byte>)
    requires Held(labels, pc, h)
    ensures Begins(labels, pc)
  {
  }

  lemma ReturnFlow(code: seq<Byte>, labels: Labels, from: nat)
    requires Stands(code, labels, from, [OP_RETURN], [Some([])]) && Begins(labels, from + 1)
    ensures Flows(code, labels, from, 1, [])
  {
    MarkAt(code, labels, from, [OP_RETURN], []);
  }

  lemma {:induction false} StmtFlow(code: seq<Byte>, labels: Labels, from: nat, s: Stmt, c: Ctx)
    requires GenStmt(s, c).Some? && NearStmt(s, c) && Below(c)
    requires Stands(code, labels, from, GenStmt(s, c).value.code, LabStmt(s, c))
    requires Held(labels, from + |GenStmt(s, c).value.code|, c.held)
    ensures Flows(code, labels, from, |GenStmt(s, c).value.code|, c.held)
    decreases s, 1
  {
    hide GenExpr, GenEffect, Stands, Held, Flows, Straight, Below, GenLoop, GenDecls, LabDecls, LabLoop, NearLoop, NearDecls, Linear;
    match s
    case Block(ds) => BelowKept(c, BeginScope(c)); DeclsFlow(code, labels, from, ds, BeginScope(c));
    case If(_, _, _) => IfFlow(code, labels, from, s, c);
    case While(_, _) => LoopFlow(code, labels, from, s, c);
    case For(_, _, _, _) => ForFlow(code, labels, from, s, c);
    case Return(_) =>
      HeldBegins(labels, from + |GenStmt(s, c).value.code|, c.held);
      ReturnStmtFlow(code, labels, from, s, c);
    case Sync(_) => SyncFlow(code, labels, from, s, c);
    case _ =>
      LinearStmt(s, c);
      StraightFlow(code, labels, from, GenStmt(s, c).value.code, c.held);
  }

  /** Five pieces that stand one behind the other. */
  lemma StandsFive(code: seq<Byte>, labels: Labels, from: nat, a: seq<Byte>, b: seq<Byte>, c: seq<Byte>, d: seq<Byte>, e: seq<Byte>,
                   la: Labels, lb: Labels, lc: Labels, ld: Labels, le: Labels)
    requires Stands(code, labels, from, a + b + c + d + e, la + (lb + (lc + (ld + le))))
    requires |a| == |la| && |b| == |lb| && |c| == |lc| && |d| == |ld|
    ensures Stands(code, labels, from, a, la) && Stands(code, labels, from + |a|, b, lb)
    ensures Stands(code, labels, from + |a + b|, c, lc) && Stands(code, labels, from + |a + b + c|, d, ld)
    ensures Stands(code, labels, from + |a + b + c + d|, e, le)
  {
    assert a + b + c + d + e == a + (b + (c + (d + e)));
    hide Stands;
    StandsSplit(code, labels, from, a, b + (c + (d + e)), la, lb + (lc + (ld + le)));
    StandsSplit(code, labels, from + |a|, b, c + (d + e), lb, lc + (ld + le));
    StandsSplit(code, labels, from + |a| + |b|, c, d + e, lc, ld + le);
    StandsSplit(code, labels, from + |a| + |b| + |c|, d, e, ld, le);
  }

  lemma IfPieces(s: Stmt, c: Ctx) returns (o: Out, p: Out, q: Out, lq: Labels)
    requires s.If? && GenStmt(s, c).Some? && NearStmt(s, c)
    ensures GenExpr(s.cond, c) == Some(o) && Linear(o.code) && GenStmt(s.thn, o.c) == Some(p)
    ensures if s.els.Some? then GenStmt(s.els.value, p.c) == Some(q) && lq == LabStmt(s.els.value, p.c) else q.code == [] && lq == []
    ensures GenStmt(s, c).value.code
            == o.code + Jump(OP_JUMP_IF_FALSE, |p.code| + 3) + p.code + Jump(OP_JUMP, |q.code|) + q.code
    ensures LabStmt(s, c) == Straight(o.code, c.held) + (Mark(3, c.held) + (LabStmt(s.thn, o.c) + (Mark(3, c.held) + lq)))
    ensures NearStmt(s.thn, o.c) && (s.els.Some? ==> NearStmt(s.els.value, p.c)) && |p.code| + 3 < U16_LIMIT && |q.code| < U16_LIMIT
    ensures o.c.held == p.c.held == c.held && c.nextMon == o.c.nextMon <= p.c.nextMon
  {
    hide Straight, Jump, Linear;
    o := GenExpr(s.cond, c).value;
    p := GenStmt(s.thn, o.c).value;
    q := if s.els.Some? then GenStmt(s.els.value, p.c).value else Out([], p.c);
    lq := if s.els.Some? then LabStmt(s.els.value, p.c) else [];
    LinearExpr(s.cond, c);
    KeptByStmt(s.thn, o.c);
  }

  lemma {:induction false} IfFlow(code: seq<Byte>, labels: Labels, from: nat, s: Stmt, c: Ctx)
    requires s.If? && GenStmt(s, c).Some? && NearStmt(s, c) && Below(c)
    requires Stands(code, labels, from, GenStmt(s, c).value.code, LabStmt(s, c))
    requires Held(labels, from + |GenStmt(s, c).value.code|, c.held)
    ensures Flows(code, labels, from, |GenStmt(s, c).value.code|, c.held)
    decreases s, 0
  {
    hide GenExpr, GenStmt, LabStmt, Stands, Held, Flows, Straight, Jump, Linear, Below, NearStmt;
    var h := c.held;
    var o, p, q, lq := IfPieces(s, c);
    BelowKept(c, o.c);
    BelowKept(c, p.c);
    var jif, jump := Jump(OP_JUMP_IF_FALSE, |p.code| + 3), Jump(OP_JUMP, |q.code|);
    assert |jif| == |jump| == 3 by { JumpLength(OP_JUMP_IF_FALSE, |p.code| + 3); JumpLength(OP_JUMP, |q.code|); }
    StandsFive(code, labels, from, o.code, jif, p.code, jump, q.code,
               Straight(o.code, h), Mark(3, h), LabStmt(s.thn, o.c), Mark(3, h), lq);
    var atP := from + |o.code| + 3;
    var atQ := atP + |p.code| + 3;
    if s.els.Some? {
      StmtFlow(code, labels, atQ, s.els.value, p.c);
    } else {
      StandsLength(code, labels, from, o.code, Straight(o.code, h));
      FlowsNothing(code, labels, atQ, h);
    }
    FlowsStart(code, labels, atQ, |q.code|, h);
    JumpFlow(code, labels, atQ - 3, OP_JUMP, |q.code|, h);
    FlowsStart(code, labels, atQ - 3, 3, h);
    StmtFlow(code, labels, atP, s.thn, o.c);
    FlowsStart(code, labels, atP, |p.code|, h);
    JumpFlow(code, labels, from + |o.code|, OP_JUMP_IF_FALSE, |p.code| + 3, h);
    FlowsStart(code, labels, from + |o.code|, 3, h);
    StraightFlow(code, labels, from, o.code, h);
    FlowsFive(code, labels, from, |o.code|, 3, |p.code|, 3, |q.code|, h);
  }

  lemma StandsLength(code: seq<Byte>, labels: Labels, from: nat, seg: seq<Byte>, lab: Labels)
    requires Stands(code, labels, from, seg, lab)
    ensures |labels| == |code| && from + |seg| <= |code|
  {
  }

  lemma JumpLength(op: Byte, d: nat)
    ensures |Jump(op, d)| == 3
  {
  }

  lemma FlowsFive(code: seq<Byte>, labels: Labels, from: nat, a: nat, b: nat, c: nat, d: nat, e: nat, h: seq<Byte>)
    requires Flows(code, labels, from, a, h) && Flows(code, labels, from + a, b, h) && Flows(code, labels, from + a + b, c, h)
    requires Flows(code, labels, from + a + b + c, d, h) && Flows(code, labels, from + a + b + c + d, e, h)
    ensures Flows(code, labels, from, a + b + c + d + e, h)
  {
    hide Flows;
    FlowsJoin(code, labels, from, a, b, h, h);
    FlowsJoin(code, labels, from, a + b, c, h, h);
    FlowsJoin(code, labels, from, a + b + c, d, h, h);
    FlowsJoin(code, labels, from, a + b + c + d, e, h, h);
  }

  ghost predicate LoopParts(s: Stmt, c: Ctx, o: Out, q: Out, r: Out)
    requires s.While? || s.For?
  {
    && GenExpr(s.cond, c) == Some(o)
    && (if s.For? then GenIncr(s.incr, o.c) == Some(q) else q == Out([], o.c))
    && GenStmt(s.loopBody, q.c) == Some(r)
  }

  lemma LoopPieces(s: Stmt, c: Ctx) returns (o: Out, q: Out, r: Out)
    requires (s.While? || s.For?) && GenLoop(s, c).Some? && NearLoop(s, c)
    ensures LoopParts(s, c, o, q, r) && Linear(o.code) && Linear(q.code)
    ensures GenLoop(s, c).value.code
            == o.code + Jump(OP_JUMP_IF_FALSE, |r.code + q.code| + 3) + r.code + q.code + Jump(OP_LOOP, |o.code| + |r.code + q.code| + 6)
    ensures LabLoop(s, c) == Straight(o.code, c.held) + (Mark(3, c.held) + (LabStmt(s.loopBody, q.c)
                               + (Straight(q.code, c.held) + Mark(3, c.held))))
    ensures NearStmt(s.loopBody, q.c) && |o.code| + |r.code + q.code| + 6 < U16_LIMIT
    ensures q.c.held == c.held && q.c.nextMon == c.nextMon
  {
    hide GenExpr, GenStmt, LabStmt, LabLoop, Straight, Jump, Linear, NearLoop, NearStmt;
    o := GenExpr(s.cond, c).value;
    q := if s.For? then GenIncr(s.incr, o.c).value else Out([], o.c);
    r := GenStmt(s.loopBody, q.c).value;
    LinearExpr(s.cond, c);
    if s.For? { LinearEffect(s.incr, o.c); } else { assert Linear([]) by { NoneStraight(c.held); } }
    var jif, back := Jump(OP_JUMP_IF_FALSE, |r.code + q.code| + 3), Jump(OP_LOOP, |o.code| + |r.code + q.code| + 6);
    JumpLength(OP_JUMP_IF_FALSE, |r.code + q.code| + 3);
    JumpLength(OP_LOOP, |o.code| + |r.code + q.code| + 6);
    assert o.code + jif + (r.code + q.code) + back == o.code + jif + r.code + q.code + back;
    LoopLabels(s, c, o, q);
    NearRound(s, c, o, q);
  }

  lemma LoopLabels(s: Stmt, c: Ctx, o: Out, q: Out)
    requires (s.While? || s.For?) && GenLoop(s, c).Some? && GenExpr(s.cond, c) == Some(o) && Linear(o.code) && Linear(q.code)
    requires if s.For? then GenIncr(s.incr, o.c) == Some(q) else q == Out([], o.c)
    ensures LabLoop(s, c) == Straight(o.code, c.held) + (Mark(3, c.held) + (LabStmt(s.loopBody, q.c)
                               + (Straight(q.code, c.held) + Mark(3, c.held))))
  {
    hide GenExpr, GenStmt, GenIncr, LabStmt, Straight, Linear, Mark;
    NoneStraight(c.held);
  }

  lemma NearRound(s: Stmt, c: Ctx, o: Out, q: Out)
    requires (s.While? || s.For?) && NearLoop(s, c) && GenExpr(s.cond, c) == Some(o)
    requires if s.For? then GenIncr(s.incr, o.c) == Some(q) else q == Out([], o.c)
    ensures NearStmt(s.loopBody, q.c) && Short(GenLoop(s, c))
  {
    hide GenExpr, GenStmt, GenIncr, NearStmt, Short;
  }

  lemma NoneStraight(h: seq<Byte>)
    ensures Linear([]) && Straight([], h) == []
  {
  }

  lemma {:induction false} LoopFlow(code: seq<Byte>, labels: Labels, from: nat, s: Stmt, c: Ctx)
    requires (s.While? || s.For?) && GenLoop(s, c).Some? && NearLoop(s, c) && Below(c)
    requires Stands(code, labels, from, GenLoop(s, c).value.code, LabLoop(s, c))
    requires Held(labels, from + |GenLoop(s, c).value.code|, c.held)
    ensures Flows(code, labels, from, |GenLoop(s, c).value.code|, c.held)
    decreases s, 0, 0
  {
    hide GenExpr, GenLoop, GenStmt, LabLoop, LabStmt, Stands, Held, Flows, Straight, Jump, Linear, Below, NearLoop, NearStmt;
    var h := c.held;
    var o, q, r := LoopPieces(s, c);
    var jif, back := Jump(OP_JUMP_IF_FALSE, |r.code + q.code| + 3), Jump(OP_LOOP, |o.code| + |r.code + q.code| + 6);
    assert |jif| == |back| == 3 by {
      JumpLength(OP_JUMP_IF_FALSE, |r.code + q.code| + 3);
      JumpLength(OP_LOOP, |o.code| + |r.code + q.code| + 6);
    }
    BelowKept(c, q.c);
    StandsFive(code, labels, from, o.code, jif, r.code, q.code, back,
               Straight(o.code, h), Mark(3, h), LabStmt(s.loopBody, q.c), Straight(q.code, h), Mark(3, h));
    var atR := from + |o.code| + 3;
    var atQ := atR + |r.code|;
    FirstHeld(code, labels, from, o.code, jif, h);
    JumpFlow(code, labels, atQ + |q.code|, OP_LOOP, |o.code| + |r.code + q.code| + 6, h);
    FlowsStart(code, labels, atQ + |q.code|, 3, h);
    StraightFlow(code, labels, atQ, q.code, h);
    FlowsStart(code, labels, atQ, |q.code|, h);
    StmtFlow(code, labels, atR, s.loopBody, q.c);
    FlowsStart(code, labels, atR, |r.code|, h);
    JumpFlow(code, labels, from + |o.code|, OP_JUMP_IF_FALSE, |r.code + q.code| + 3, h);
    FlowsStart(code, labels, from + |o.code|, 3, h);
    StraightFlow(code, labels, from, o.code, h);
    FlowsFive(code, labels, from, |o.code|, 3, |r.code|, |q.code|, 3, h);
  }

  /** What a loop holds when it begins, told by its labels alone. */
  lemma FirstHeld(code: seq<Byte>, labels: Labels, from: nat, seg: seq<Byte>, jump: seq<Byte>, h: seq<Byte>)
    requires Linear(seg) && |jump| == 3
    requires Stands(code, labels, from, seg, Straight(seg, h)) && Stands(code, labels, from + |seg|, jump, Mark(3, h))
    ensures Held(labels, from, h)
  {
    if seg == [] {
      assert labels[from..from + 3][0] == labels[from];
    } else {
      assert labels[from..from + |seg|][0] == labels[from];
    }
  }

  lemma {:induction false} ForFlow(code: seq<Byte>, labels: Labels, from: nat, s: Stmt, c: Ctx)
    requires s.For? && GenStmt(s, c).Some? && NearStmt(s, c) && Below(c)
    requires Stands(code, labels, from, GenStmt(s, c).value.code, LabStmt(s, c))
    requires Held(labels, from + |GenStmt(s, c).value.code|, c.held)
    ensures Flows(code, labels, from, |GenStmt(s, c).value.code|, c.held)
    decreases s, 0, 1
  {
    hide GenInit, GenLoop, LabLoop, Stands, Held, Flows, Straight, Linear, Below, NearLoop;
    var o := GenInit(s.init, BeginScope(c)).value;
    var p := GenLoop(s, o.c).value;
    LinearInit(s.init, BeginScope(c));
    InitKeeps(s.init, BeginScope(c));
    BelowKept(c, o.c);
    StandsSplit(code, labels, from, o.code, p.code, Straight(o.code, c.held), LabLoop(s, o.c));
    LoopFlow(code, labels, from + |o.code|, s, o.c);
    FlowsStart(code, labels, from + |o.code|, |p.code|, c.held);
    StraightFlow(code, labels, from, o.code, c.held);
    FlowsJoin(code, labels, from, |o.code|, |p.code|, c.held, c.held);
  }

  lemma InitKeeps(i: Init, c: Ctx)
    requires GenInit(i, c).Some?
    ensures GenInit(i, c).value.c.held == c.held && GenInit(i, c).value.c.nextMon == c.nextMon
  {
    hide GenExpr;
  }

  lemma ReturnStmtFlow(code: seq<Byte>, labels: Labels, from: nat, s: Stmt, c: Ctx)
    requires s.Return? && GenStmt(s, c).Some? && Begins(labels, from + |GenStmt(s, c).value.code|)
    requires Stands(code, labels, from, GenStmt(s, c).value.code, LabStmt(s, c))
    ensures Flows(code, labels, from, |GenStmt(s, c).value.code|, c.held)
  {
    hide GenExpr, Stands, Held, Flows, Straight, Linear, ExitAll, LabExits;
    if s.value.Some? {
      LinearOpt(s.value, c);
      var v := GenOpt(s.value, c).value.code;
      assert v + ExitAll(c.held) + [OP_RETURN] == v + (ExitAll(c.held) + [OP_RETURN]);
      ReturnValueFlow(code, labels, from, v, c.held);
    } else {
      ReturnNilFlow(code, labels, from, c.held);
    }
  }

  lemma ReturnValueFlow(code: seq<Byte>, labels: Labels, from: nat, v: seq<Byte>, h: seq<Byte>)
    requires Linear(v) && Begins(labels, from + |v| + |ExitAll(h)| + 1)
    requires Stands(code, labels, from, v + (ExitAll(h) + [OP_RETURN]), Straight(v, h) + (LabExits(h) + [Some([])]))
    ensures Flows(code, labels, from, |v| + |ExitAll(h)| + 1, h)
  {
    hide Stands, Held, Flows, Straight, Linear, ExitAll, LabExits;
    var exits, lab := ExitAll(h), LabExits(h);
    StandsSplit(code, labels, from, v, exits + [OP_RETURN], Straight(v, h), lab + [Some([])]);
    StandsSplit(code, labels, from + |v|, exits, [OP_RETURN], lab, [Some([])]);
    ReturnFlow(code, labels, from + |v| + |exits|);
    FlowsStart(code, labels, from + |v| + |exits|, 1, []);
    ExitsFlow(code, labels, from + |v|, h);
    FlowsStart(code, labels, from + |v|, |exits|, h);
    StraightFlow(code, labels, from, v, h);
    FlowsJoin(code, labels, from + |v|, |exits|, 1, h, []);
    FlowsJoin(code, labels, from, |v|, |exits| + 1, h, h);
  }

  lemma ReturnNilFlow(code: seq<Byte>, labels: Labels, from: nat, h: seq<Byte>)
    requires Begins(labels, from + |ExitAll(h)| + 2)
    requires Stands(code, labels, from, ExitAll(h) + [OP_NIL, OP_RETURN], LabExits(h) + [Some([]), Some([])])
    ensures Flows(code, labels, from, |ExitAll(h)| + 2, h)
  {
    hide Stands, Held, Flows, ExitAll, LabExits;
    var exits, lab := ExitAll(h), LabExits(h);
    assert [OP_NIL, OP_RETURN] == [OP_NIL] + [OP_RETURN] && [Some([]), Some([])] == Mark(1, []) + [Some([])];
    StandsSplit(code, labels, from, exits, [OP_NIL, OP_RETURN], lab, [Some([]), Some([])]);
    StandsSplit(code, labels, from + |exits|, [OP_NIL], [OP_RETURN], Mark(1, []), [Some([])]);
    ReturnFlow(code, labels, from + |exits| + 1);
    FlowsStart(code, labels, from + |exits| + 1, 1, []);
    SimpleFlow(code, labels, from + |exits|, [OP_NIL], []);
    FlowsStart(code, labels, from + |exits|, 1, []);
    ExitsFlow(code, labels, from, h);
    FlowsJoin(code, labels, from + |exits|, 1, 1, [], []);
    FlowsJoin(code, labels, from, |exits|, 2, h, []);
  }

  lemma SyncPieces(b: Stmt, c: Ctx) returns (m: Byte, o: Out)
    requires GenStmt(Sync(b), c).Some? && NearStmt(Sync(b), c) && Below(c)
    ensures c.nextMon < MAX_MONITORS_PER_FUNCTION && m == c.nextMon && m !in c.held && Below(Inner(c))
    ensures GenStmt(b, Inner(c)) == Some(o) && NearStmt(b, Inner(c))
    ensures GenStmt(Sync(b), c).value.code == [OP_ENTER_MONITOR, m] + (o.code + [OP_EXIT_MONITOR, m])
    ensures LabStmt(Sync(b), c) == Mark(2, c.held) + (LabStmt(b, Inner(c)) + Mark(2, c.held + [m]))
  {
    m := c.nextMon;
    o := GenStmt(b, Inner(c)).value;
    assert [OP_ENTER_MONITOR, m] + o.code + [OP_EXIT_MONITOR, m] == [OP_ENTER_MONITOR, m] + (o.code + [OP_EXIT_MONITOR, m]);
  }

  lemma {:induction false} SyncFlow(code: seq<Byte>, labels: Labels, from: nat, s: Stmt, c: Ctx)
    requires s.Sync? && GenStmt(s, c).Some? && NearStmt(s, c) && Below(c)
    requires Stands(code, labels, from, GenStmt(s, c).value.code, LabStmt(s, c))
    requires Held(labels, from + |GenStmt(s, c).value.code|, c.held)
    ensures Flows(code, labels, from, |GenStmt(s, c).value.code|, c.held)
    decreases s, 0
  {
    hide Stands, Held, Flows, Below, GenStmt, LabStmt, NearStmt, Mark;
    var m, o := SyncPieces(s.s, c);
    var h, inner := c.held, c.held + [m];
    var enter, exit := [OP_ENTER_MONITOR, m], [OP_EXIT_MONITOR, m];
    StandsSplit(code, labels, from, enter, o.code + exit, Mark(2, h), LabStmt(s.s, Inner(c)) + Mark(2, inner));
    StandsSplit(code, labels, from + 2, o.code, exit, LabStmt(s.s, Inner(c)), Mark(2, inner));
    ExitFlow(code, labels, from + 2 + |o.code|, m, h);
    FlowsStart(code, labels, from + 2 + |o.code|, 2, inner);
    StmtFlow(code, labels, from + 2, s.s, Inner(c));
    FlowsStart(code, labels, from + 2, |o.code|, inner);
    EnterFlow(code, labels, from, m, h);
    FlowsJoin(code, labels, from + 2, |o.code|, 2, inner, inner);
    FlowsJoin(code, labels, from, 2, |o.code| + 2, h, inner);
  }

  lemma {:induction false} DeclFlow(code: seq<Byte>, labels: Labels, from: nat, d: Decl, c: Ctx)
    requires GenDecl(d, c).Some? && NearDecl(d, c) && Below(c)
    requires Stands(code, labels, from, GenDecl(d, c).value.code, LabDecl(d, c))
    requires Held(labels, from + |GenDecl(d, c).value.code|, c.held)
    ensures Flows(code, labels, from, |GenDecl(d, c).value.code|, c.held)
    decreases d, 1
  {
    hide GenStmt, GenFun, GenVarDecl, Stands, Held, Flows, Below, Straight, Linear, LabStmt, NearStmt;
    if d.StmtDecl? {
      StmtFlow(code, labels, from, d.s, c);
    } else {
      LinearDecl(d, c);
      StraightFlow(code, labels, from, GenDecl(d, c).value.code, c.held);
    }
  }

  lemma {:induction false} DeclsFlow(code: seq<Byte>, labels: Labels, from: nat, ds: seq<Decl>, c: Ctx)
    requires GenDecls(ds, c).Some? && NearDecls(ds, c) && Below(c)
    requires Stands(code, labels, from, GenDecls(ds, c).value.code, LabDecls(ds, c))
    requires Held(labels, from + |GenDecls(ds, c).value.code|, c.held)
    ensures Flows(code, labels, from, |GenDecls(ds, c).value.code|, c.held)
    decreases ds, 0
  {
    hide GenDecl, LabDecl, NearDecl, Stands, Held, Flows, Below;
    if ds == [] {
      StandsLength(code, labels, from, [], []);
      FlowsNothing(code, labels, from, c.held);
    } else {
      var o := GenDecl(ds[0], c).value;
      var p := GenDecls(ds[1..], o.c).value;
      KeptByDecl(ds[0], c);
      BelowKept(c, o.c);
      StandsSplit(code, labels, from, o.code, p.code, LabDecl(ds[0], c), LabDecls(ds[1..], o.c));
      DeclsFlow(code, labels, from + |o.code|, ds[1..], o.c);
      FlowsStart(code, labels, from + |o.code|, |p.code|, c.held);
      DeclFlow(code, labels, from, ds[0], c);
      FlowsJoin(code, labels, from, |o.code|, |p.code|, c.held, c.held);
    }
  }

  // ----- whole functions -----

  ghost function LabFun(f: Fun): (r: Labels)
    requires GenFun(f).Some?
    ensures |r| == |GenFun(f).value.code|
  {
    var c := EnterMain(f.synced, GenParams(f.params, StartCtx(true, [])).value);
    (if f.synced then Mark(2, []) else []) + (LabDecls(f.body, c)
      + ((if f.synced then Mark(2, [0]) else []) + [Some([]), Some([]), Some([])]))
  }

  /** The code of every function is labelled: what is held at an instruction depends
      on the instruction alone. */
  lemma FunLabelled(f: Fun)
    requires GenFun(f).Some? && NearFun(f)
    ensures Labelled(GenFun(f).value.code, LabFun(f))
  {
    hide GenDecls, LabDecls, NearDecls, GenParams, Labelled;
    ParamsKeep(f.params, StartCtx(true, []));
    var c := EnterMain(f.synced, GenParams(f.params, StartCtx(true, [])).value);
    var body, lab := GenDecls(f.body, c).value.code, LabDecls(f.body, c);
    var code, labels := GenFun(f).value.code, LabFun(f);
    if f.synced {
      assert code == [OP_ENTER_MONITOR, 0] + (body + ([OP_EXIT_MONITOR, 0] + [OP_NIL, OP_RETURN, OP_EOF]));
      SyncedLabelled(code, labels, f.body, c);
    } else {
      assert code == body + [OP_NIL, OP_RETURN, OP_EOF];
      assert labels == lab + [Some([]), Some([]), Some([])];
      PlainLabelled(code, labels, f.body, c);
    }
  }

  lemma PlainLabelled(code: seq<Byte>, labels: Labels, ds: seq<Decl>, c: Ctx)
    requires GenDecls(ds, c).Some? && NearDecls(ds, c) && c.held == []
    requires code == GenDecls(ds, c).value.code + [OP_NIL, OP_RETURN, OP_EOF]
    requires labels == LabDecls(ds, c) + [Some([]), Some([]), Some([])]
    ensures Labelled(code, labels)
  {
    hide GenDecls, LabDecls, NearDecls, Stands, Held, Flows, Labelled;
    var n := |GenDecls(ds, c).value.code|;
    WholeStands(code, labels);
    StandsSplit(code, labels, 0, GenDecls(ds, c).value.code, [OP_NIL, OP_RETURN, OP_EOF],
                LabDecls(ds, c), [Some([]), Some([]), Some([])]);
    TailFlow(code, labels, n);
    FlowsStart(code, labels, n, 3, []);
    DeclsFlow(code, labels, 0, ds, c);
    FlowsJoin(code, labels, 0, n, 3, [], []);
    FlowsAll(code, labels);
  }

  lemma SyncedLabelled(code: seq<Byte>, labels: Labels, ds: seq<Decl>, c: Ctx)
    requires GenDecls(ds, c).Some? && NearDecls(ds, c) && c.held == [0] && c.nextMon == 1
    requires code == [OP_ENTER_MONITOR, 0] + (GenDecls(ds, c).value.code + ([OP_EXIT_MONITOR, 0] + [OP_NIL, OP_RETURN, OP_EOF]))
    requires labels == Mark(2, []) + (LabDecls(ds, c) + (Mark(2, [0]) + [Some([]), Some([]), Some([])]))
    ensures Labelled(code, labels)
  {
    hide GenDecls, LabDecls, NearDecls, Stands, Held, Flows, Labelled, Mark;
    var body, lab, n := GenDecls(ds, c).value.code, LabDecls(ds, c), |GenDecls(ds, c).value.code|;
    var tail, lt := [OP_NIL, OP_RETURN, OP_EOF], [Some([]), Some([]), Some([])];
    WholeStands(code, labels);
    StandsSplit(code, labels, 0, [OP_ENTER_MONITOR, 0], body + ([OP_EXIT_MONITOR, 0] + tail), Mark(2, []), lab + (Mark(2, [0]) + lt));
    StandsSplit(code, labels, 2, body, [OP_EXIT_MONITOR, 0] + tail, lab, Mark(2, [0]) + lt);
    StandsSplit(code, labels, 2 + n, [OP_EXIT_MONITOR, 0], tail, Mark(2, [0]), lt);
    TailFlow(code, labels, n + 4);
    FlowsStart(code, labels, n + 4, 3, []);
    assert [] + [0 as Byte] == [0];
    ExitFlow(code, labels, n + 2, 0, []);
    FlowsStart(code, labels, n + 2, 2, [0]);
    DeclsFlow(code, labels, 2, ds, c);
    FlowsStart(code, labels, 2, n, [0]);
    EnterFlow(code, labels, 0, 0, []);
    FlowsJoin(code, labels, n + 2, 2, 3, [0], []);
    FlowsJoin(code, labels, 2, n, 5, [0], [0]);
    FlowsJoin(code, labels, 0, 2, n + 5, [], [0]);
    FlowsAll(code, labels);
  }

  lemma WholeStands(code: seq<Byte>, labels: Labels)
    requires |code| == |labels|
    ensures Stands(code, labels, 0, code, labels)
  {
    assert code[0..|code|] == code && labels[0..|labels|] == labels;
  }

  lemma FlowsAll(code: seq<Byte>, labels: Labels)
    requires Flows(code, labels, 0, |code|, [])
    ensures Labelled(code, labels)
  {
    hide EdgesOk;
  }

  lemma TailFlow(code: seq<Byte>, labels: Labels, from: nat)
    requires Stands(code, labels, from, [OP_NIL, OP_RETURN, OP_EOF], [Some([]), Some([]), Some([])]) && from + 3 == |code|
    ensures Flows(code, labels, from, 3, [])
  {
    assert [OP_NIL, OP_RETURN, OP_EOF] == [OP_NIL] + ([OP_RETURN] + [OP_EOF]);
    assert [Some([]), Some([]), Some([])] == Mark(1, []) + ([Some([])] + [Some([])]);
    hide Stands, Held, Flows;
    StandsSplit(code, labels, from, [OP_NIL], [OP_RETURN] + [OP_EOF], Mark(1, []), [Some([])] + [Some([])]);
    StandsSplit(code, labels, from + 1, [OP_RETURN], [OP_EOF], [Some([])], [Some([])]);
    StandsLength(code, labels, from, [OP_NIL, OP_RETURN, OP_EOF], [Some([]), Some([]), Some([])]);
    EofFlow(code, labels, from + 2);
    FlowsStart(code, labels, from + 2, 1, []);
    HeldBegins(labels, from + 2, []);
    ReturnFlow(code, labels, from + 1);
    FlowsStart(code, labels, from + 1, 1, []);
    SimpleFlow(code, labels, from, [OP_NIL], []);
    FlowsJoin(code, labels, from + 1, 1, 1, [], []);
    FlowsJoin(code, labels, from, 1, 2, [], []);
  }

  lemma EofFlow(code: seq<Byte>, labels: Labels, from: nat)
    requires Stands(code, labels, from, [OP_EOF], [Some([])])
    requires forall pc: nat | from < pc < |labels| :: labels[pc].None?
    ensures Flows(code, labels, from, 1, [])
  {
    MarkAt(code, labels, from, [OP_EOF], []);
  }

  ghost function LabMain(ds: seq<Decl>): (r: Labels)
    requires GenProgram(ds).Some?
    ensures |r| == |GenProgram(ds).value.main.code|
  {
    LabDecls(ds, StartCtx(false, [])) + [Some([]), None, None]
  }

  /** The same of the code of a package, up to its end of file. */
  lemma MainLabelled(ds: seq<Decl>)
    requires GenProgram(ds).Some? && NearDecls(ds, StartCtx(false, []))
    ensures Labelled(GenProgram(ds).value.main.code, LabMain(ds))
  {
    hide GenDecls, LabDecls, NearDecls, Stands, Held, Flows;
    var c := StartCtx(false, []);
    var o := GenDecls(ds, c).value;
    var code, labels := GenProgram(ds).value.main.code, LabMain(ds);
    WholeStands(code, labels);
    StandsSplit(code, labels, 0, o.code, [OP_EOF, OP_NIL, OP_RETURN], LabDecls(ds, c), [Some([]), None, None]);
    MainTailFlow(code, labels, |o.code|);
    FlowsStart(code, labels, |o.code|, 3, []);
    DeclsFlow(code, labels, 0, ds, c);
    FlowsJoin(code, labels, 0, |o.code|, 3, [], []);
    FlowsAll(code, labels);
  }

  lemma MainTailFlow(code: seq<Byte>, labels: Labels, from: nat)
    requires Stands(code, labels, from, [OP_EOF, OP_NIL, OP_RETURN], [Some([]), None, None]) && from + 3 == |code|
    ensures Flows(code, labels, from, 3, [])
  {
    assert [OP_EOF, OP_NIL, OP_RETURN] == [OP_EOF] + [OP_NIL, OP_RETURN];
    var first: Labels, rest: Labels := [Some([])], [None, None];
    assert first + rest == [Some([]), None, None];
    StandsSplit(code, labels, from, [OP_EOF], [OP_NIL, OP_RETURN], first, rest);
    var l := labels[from + 1..from + 3];
    assert labels[from + 1] == l[0] && labels[from + 2] == l[1];
    hide EdgesOk;
    EofFlow(code, labels, from);
  }

  /** On every path through a function, from its entry on: what is held at an
      instruction is the same whatever the path; no monitor is entered that is held,
      the one exited is the last one entered, and at a return none is held. */
  lemma FunPaths(f: Fun, p: seq<nat>)
    requires GenFun(f).Some? && NearFun(f) && Path(GenFun(f).value.code, p)
    ensures var code, pc := GenFun(f).value.code, p[|p| - 1];
            && HeldAlong(code, p).Some? && HeldAlong(code, p) == LabFun(f)[pc]
            && var h := HeldAlong(code, p).value;
               && (code[pc] == OP_ENTER_MONITOR ==> code[pc + 1] !in h)
               && (code[pc] == OP_EXIT_MONITOR ==> h != [] && h[|h| - 1] == code[pc + 1])
               && (code[pc] == OP_RETURN ==> h == [])
  {
    hide GenFun, NearFun, LabFun, Labelled;
    FunLabelled(f);
    PathHeld(GenFun(f).value.code, LabFun(f), p);
  }
}
