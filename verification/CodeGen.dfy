// Code generation as a function of the syntax tree: what the one-pass compiler
// is to emit, with every jump distance computed from the code it skips.
module CodeGen {
  import opened Wrappers
  import opened Bytecode
  import opened Syntax

  datatype Value = VNil | VBool(b: bool) | VNum(n: int) | VStr(s: string) | VFun(index: nat)

  const MAX_CONSTANTS: nat := 255
  const MAX_LOCALS: nat := 255
  const MAX_MONITORS_PER_FUNCTION: nat := 8

  /** A compiled function: its chunk, and the counts the call protocol uses. */
  datatype FunObj = FunObj(code: seq<Byte>, consts: seq<Value>, nArgs: nat, nLocals: nat)

  datatype Program = Program(main: FunObj, funs: seq<FunObj>)

  datatype Local = Local(name: string, depth: nat)

  /** What the compiler knows of the function it compiles, besides its code.
      `locals[0]` is the callee's own slot; `pending` is the slot of the variable
      whose initializer is being compiled, or -2. */
  datatype Ctx = Ctx(
    inFun: bool,
    locals: seq<Local>,
    depth: nat,
    maxLocals: nat,
    consts: seq<Value>,
    nextMon: nat,
    held: seq<Byte>,
    setOp: bool,
    pending: int,
    funs: seq<FunObj>)

  datatype Out = Out(code: seq<Byte>, c: Ctx)

  const CALLEE: Local := Local("", 0)

  function StartCtx(inFun: bool, funs: seq<FunObj>): Ctx {
    Ctx(inFun, [CALLEE], if inFun then 1 else 0, 0, [], 0, [], false, -2, funs)
  }

  // ----- scopes -----

  /** The slot of a visible local, or -1. */
  function Resolve(locals: seq<Local>, x: string): int {
    if locals == [] then -1
    else if locals[|locals| - 1].name == x then |locals| - 1
    else Resolve(locals[..|locals| - 1], x)
  }

  function AddLocal(c: Ctx, x: Name): Option<Ctx> {
    if Resolve(c.locals, x) != -1 || |c.locals| >= MAX_LOCALS then None
    else
      Some(c.(locals := c.locals + [Local(x, c.depth)],
              maxLocals := if c.maxLocals > |c.locals| + 1 then c.maxLocals else |c.locals| + 1))
  }

  function Visible(locals: seq<Local>, depth: nat): seq<Local> {
    if locals != [] && locals[|locals| - 1].depth > depth then Visible(locals[..|locals| - 1], depth) else locals
  }

  function BeginScope(c: Ctx): Ctx {
    c.(depth := c.depth + 1)
  }

  function EndScope(c: Ctx): Ctx
    requires c.depth > 0
  {
    c.(depth := c.depth - 1, locals := Visible(c.locals, c.depth - 1))
  }

  function AddConst(c: Ctx, v: Value): Option<(Byte, Ctx)> {
    if |c.consts| < MAX_CONSTANTS then Some((|c.consts|, c.(consts := c.consts + [v]))) else None
  }

  // ----- pieces of code -----

  function Jump(op: Byte, distance: nat): seq<Byte> {
    [op, Lo(distance), Hi(distance)]
  }

  function ExitAll(held: seq<Byte>): seq<Byte> {
    if held == [] then [] else [OP_EXIT_MONITOR, held[|held| - 1]] + ExitAll(held[..|held| - 1])
  }

  function OpCode(op: BinOp): seq<Byte> {
    match op
    case Mod => [OP_MODULO]
    case BitAnd => [OP_BINARY_OP_AND]
    case BitOr => [OP_BINARY_OP_OR]
    case Shr => [OP_RIGHT_SHIFT]
    case Shl => [OP_LEFT_SHIFT]
    case Add => [OP_ADD]
    case Sub => [OP_SUB]
    case Mul => [OP_MUL]
    case Div => [OP_DIV]
    case NotEq => [OP_EQUAL, OP_NOT]
    case Eq => [OP_EQUAL]
    case Greater => [OP_GREATER]
    case GreaterEq => [OP_LESS, OP_NOT]
    case Less => [OP_LESS]
    case LessEq => [OP_GREATER, OP_NOT]
  }

  function LitCode(l: Literal): seq<Byte> {
    match l
    case LNil => [OP_NIL]
    case LTrue => [OP_TRUE]
    case LFalse => [OP_FALSE]
  }

  function GenConst(v: Value, c: Ctx): Option<Out> {
    var (k, c1) :- AddConst(c, v);
    Some(Out([OP_CONSTANT, k], c1))
  }

  function GenNumber(v: nat, decimal: bool, c: Ctx): Option<Out> {
    if decimal || v > 32767 then GenConst(VNum(v), c)
    else if v == 1 then Some(Out([OP_CONST_1], c))
    else if v == 2 then Some(Out([OP_CONST_2], c))
    else if v <= 127 then Some(Out([OP_FAST_CONST_8, v], c))
    else Some(Out([OP_FAST_CONST_16, Lo(v), Hi(v)], c))
  }

  // ----- expressions -----

  /** An expression adds constants and may set the assignment flag. */
  predicate Grows(c: Ctx, d: Ctx) {
    c.consts <= d.consts && d == c.(consts := d.consts, setOp := d.setOp)
  }

  function GenVar(x: Name, c: Ctx): (r: Option<Out>)
    ensures r.Some? ==> Grows(c, r.value.c)
  {
    var slot := Resolve(c.locals, x);
    if slot == c.pending then None
    else if slot != -1 then Some(Out([OP_GET_LOCAL, slot % 256], c))
    else
      var (k, c1) :- AddConst(c, VStr(x));
      Some(Out([OP_GET_GLOBAL, k], c1))
  }

  function GenExpr(e: Expr, c: Ctx): (r: Option<Out>)
    ensures r.Some? ==> Grows(c, r.value.c)
    decreases e, 1
  {
    match e
    case Number(v, d) => GenNumber(v, d, c)
    case Str(s) => GenConst(VStr(s), c)
    case Lit(l) => Some(Out(LitCode(l), c))
    case Var(x) => GenVar(x, c)
    case Assign(x, rhs) =>
      var slot := Resolve(c.locals, x);
      if slot == c.pending || c.setOp then None
      else if slot != -1 then
        var o :- GenExpr(rhs, c.(setOp := true));
        Some(Out(o.code + [OP_SET_LOCAL, slot % 256], o.c))
      else
        var (k, c1) :- AddConst(c, VStr(x));
        var o :- GenExpr(rhs, c1.(setOp := true));
        Some(Out(o.code + [OP_SET_GLOBAL, k], o.c))
    case Unary(op, a) =>
      var o :- GenExpr(a, c);
      Some(Out(o.code + [if op == Minus then OP_NEGATE else OP_NOT], o.c))
    case Binary(op, l, r) =>
      var o :- GenExpr(l, c);
      var p :- GenExpr(r, o.c);
      Some(Out(o.code + p.code + OpCode(op), p.c))
    case Call(f, args) =>
      var o :- GenExpr(f, c);
      var p :- GenArgs(args, o.c);
      Some(Out(o.code + p.code + [OP_CALL, |args| % 256, 0], p.c))
  }

  function GenArgs(args: seq<Expr>, c: Ctx): (r: Option<Out>)
    ensures r.Some? ==> Grows(c, r.value.c)
    decreases args, 0
  {
    if args == [] then Some(Out([], c))
    else
      var o :- GenExpr(args[0], c);
      var p :- GenArgs(args[1..], o.c);
      Some(Out(o.code + p.code, p.c))
  }

  /** An expression statement: the value is popped unless an assignment took it. */
  function GenEffect(e: Expr, c: Ctx): (r: Option<Out>)
    ensures r.Some? ==> Grows(c, r.value.c)
  {
    var o :- GenExpr(e, c);
    Some(if o.c.setOp then Out(o.code, o.c.(setOp := false)) else Out(o.code + [OP_POP], o.c))
  }

  /** A `for` increment: nothing is popped. */
  function GenIncr(e: Expr, c: Ctx): (r: Option<Out>)
    ensures r.Some? ==> Grows(c, r.value.c)
  {
    var o :- GenExpr(e, c);
    Some(Out(o.code, o.c.(setOp := false)))
  }

  function GenOpt(e: Option<Expr>, c: Ctx): (r: Option<Out>)
    ensures r.Some? ==> Grows(c, r.value.c)
  {
    if e.Some? then GenExpr(e.value, c) else Some(Out([OP_NIL], c))
  }

  // ----- declarations and statements -----

  function GenVarDecl(x: Name, init: Option<Expr>, c: Ctx): (r: Option<Out>)
    ensures r.Some? ==> r.value.c.depth == c.depth
  {
    if c.depth > 0 then
      var c1 :- AddLocal(c, x);
      var o :- GenOpt(init, c1.(pending := |c.locals|));
      Some(Out(o.code + [OP_SET_LOCAL, |c.locals| % 256], o.c.(pending := -2)))
    else
      var (k, c1) :- AddConst(c, VStr(x));
      var o :- GenOpt(init, c1);
      Some(Out(o.code + [OP_DEFINE_GLOBAL, k], o.c))
  }

  function GenInit(i: Init, c: Ctx): (r: Option<Out>)
    ensures r.Some? ==> r.value.c.depth == c.depth
  {
    match i
    case NoInit => Some(Out([], c))
    case VarInit(x, e) => GenVarDecl(x, e, c)
    case ExprInit(e) => GenEffect(e, c)
  }

  function GenStmt(s: Stmt, c: Ctx): (r: Option<Out>)
    ensures r.Some? ==> r.value.c.depth == c.depth
    decreases s, 1
  {
    match s
    case Print(e) =>
      var o :- GenExpr(e, c);
      Some(Out(o.code + [OP_PRINT], o.c))
    case ExprStmt(e) => GenEffect(e, c)
    case Block(ds) =>
      var o :- GenDecls(ds, BeginScope(c));
      Some(Out(o.code, EndScope(o.c)))
    case If(cond, t, e) =>
      var o :- GenExpr(cond, c);
      var p :- GenStmt(t, o.c);
      var q :- (if e.Some? then GenStmt(e.value, p.c) else Some(Out([], p.c)));
      Some(Out(o.code + Jump(OP_JUMP_IF_FALSE, |p.code| + 3) + p.code + Jump(OP_JUMP, |q.code|) + q.code, q.c))
    case While(_, _) => GenLoop(s, c)
    case For(i, _, _, _) =>
      var o :- GenInit(i, BeginScope(c));
      var p :- GenLoop(s, o.c);
      Some(Out(o.code + p.code, EndScope(p.c)))
    case Return(e) =>
      if !c.inFun then None
      else
        var o :- GenOpt(e, c);
        // `return;` exits the monitors before it pushes nil
        Some(Out(if e.Some? then o.code + ExitAll(c.held) + [OP_RETURN]
                 else ExitAll(c.held) + [OP_NIL, OP_RETURN], o.c))
    case Sync(b) =>
      if !c.inFun || c.nextMon >= MAX_MONITORS_PER_FUNCTION then None
      else
        var m := c.nextMon;
        var o :- GenStmt(b, c.(nextMon := m + 1, held := c.held + [m]));
        Some(Out([OP_ENTER_MONITOR, m] + o.code + [OP_EXIT_MONITOR, m], o.c.(held := c.held)))
  }

  /** The increment of a `for` is compiled before the body and stands after it. */
  function GenLoop(s: Stmt, c: Ctx): (r: Option<Out>)
    requires s.While? || s.For?
    ensures r.Some? ==> r.value.c.depth == c.depth
    decreases s, 0
  {
    var o :- GenExpr(s.cond, c);
    var q :- (if s.For? then GenIncr(s.incr, o.c) else Some(Out([], o.c)));
    var r :- GenStmt(s.loopBody, q.c);
    Some(Out(LoopCode(o.code, r.code + q.code), r.c))
  }

  /** A loop: leave when the condition is false, else run the body and jump back. */
  function LoopCode(cond: seq<Byte>, body: seq<Byte>): seq<Byte> {
    cond + Jump(OP_JUMP_IF_FALSE, |body| + 3) + body + Jump(OP_LOOP, |cond| + |body| + 6)
  }

  function GenDecl(d: Decl, c: Ctx): (r: Option<Out>)
    ensures r.Some? ==> r.value.c.depth == c.depth
    decreases d, 1
  {
    match d
    case StmtDecl(s) => GenStmt(s, c)
    case VarDecl(x, e) => GenVarDecl(x, e, c)
    case FunDecl(f) =>
      if c.inFun then None
      else
        var (name, c1) :- AddConst(c, VStr(f.name));
        var obj :- GenFun(f);
        var (k, c2) :- AddConst(c1, VFun(|c1.funs|));
        Some(Out([OP_CONSTANT, k] + (if c.depth == 0 then [OP_DEFINE_GLOBAL, name] else []),
                 c2.(funs := c2.funs + [obj])))
  }

  function GenDecls(ds: seq<Decl>, c: Ctx): (r: Option<Out>)
    ensures r.Some? ==> r.value.c.depth == c.depth
    decreases ds, 0
  {
    if ds == [] then Some(Out([], c))
    else
      var o :- GenDecl(ds[0], c);
      var p :- GenDecls(ds[1..], o.c);
      Some(Out(o.code + p.code, p.c))
  }

  function GenParams(ps: seq<Name>, c: Ctx): Option<Ctx> {
    if ps == [] then Some(c)
    else
      var c1 :- AddLocal(c, ps[0]);
      GenParams(ps[1..], c1)
  }

  function EnterMain(synced: bool, c: Ctx): Ctx {
    if synced then c.(nextMon := 1, held := [0]) else c
  }

  function FunCode(synced: bool, body: seq<Byte>): seq<Byte> {
    (if synced then [OP_ENTER_MONITOR, 0] else []) + body + (if synced then [OP_EXIT_MONITOR, 0] else [])
    + [OP_NIL, OP_RETURN, OP_EOF]
  }

  function GenFun(f: Fun): Option<FunObj>
    decreases f, 1
  {
    var c :- GenParams(f.params, StartCtx(true, []));
    var o :- GenDecls(f.body, EnterMain(f.synced, c));
    Some(FunObj(FunCode(f.synced, o.code), o.c.consts, |f.params|, o.c.maxLocals))
  }

  /** A whole package. */
  function GenProgram(ds: seq<Decl>): Option<Program> {
    var o :- GenDecls(ds, StartCtx(false, []));
    Some(Program(FunObj(o.code + [OP_EOF, OP_NIL, OP_RETURN], o.c.consts, 0, o.c.maxLocals), o.c.funs))
  }

  // ----- jumps that fit -----

  // The operand of a jump has 16 bits; the compiler does not check that a distance
  // fits.  These predicates ask it of every jump that is emitted.

  predicate NearStmt(s: Stmt, c: Ctx)
    decreases s, 1
  {
    match s
    case Block(ds) => NearDecls(ds, BeginScope(c))
    case If(cond, t, e) =>
      var o := GenExpr(cond, c);
      o.Some? ==>
        && NearStmt(t, o.value.c)
        && var p := GenStmt(t, o.value.c);
           p.Some? ==>
             && |p.value.code| + 3 < U16_LIMIT
             && (e.Some? ==> NearStmt(e.value, p.value.c) && Short(GenStmt(e.value, p.value.c)))
    case While(_, _) => NearLoop(s, c)
    case For(i, _, _, _) => var o := GenInit(i, BeginScope(c)); o.Some? ==> NearLoop(s, o.value.c)
    case Sync(b) => c.nextMon < MAX_MONITORS_PER_FUNCTION ==> NearStmt(b, c.(nextMon := c.nextMon + 1, held := c.held + [c.nextMon]))
    case _ => true
  }

  /** A piece of code that a jump can skip. */
  predicate Short(o: Option<Out>) {
    o.Some? ==> |o.value.code| < U16_LIMIT
  }

  /** The jump back of a loop is its longest. */
  predicate NearLoop(s: Stmt, c: Ctx)
    requires s.While? || s.For?
    decreases s, 0
  {
    Short(GenLoop(s, c))
    && var o := GenExpr(s.cond, c);
       o.Some? ==>
         var q := if s.For? then GenIncr(s.incr, o.value.c) else Some(Out([], o.value.c));
         q.Some? ==> NearStmt(s.loopBody, q.value.c)
  }

  predicate NearDecl(d: Decl, c: Ctx)
    decreases d, 1
  {
    d.StmtDecl? ==> NearStmt(d.s, c)
  }

  predicate NearDecls(ds: seq<Decl>, c: Ctx)
    decreases ds, 0
  {
    ds == [] || (NearDecl(ds[0], c) && (GenDecl(ds[0], c).Some? ==> NearDecls(ds[1..], GenDecl(ds[0], c).value.c)))
  }

  predicate NearFun(f: Fun) {
    var c := GenParams(f.params, StartCtx(true, []));
    c.Some? ==> NearDecls(f.body, EnterMain(f.synced, c.value))
  }

  /** Every jump of a package and of its functions fits. */
  predicate Near(ds: seq<Decl>) {
    NearDecls(ds, StartCtx(false, [])) && forall f | f in FunsIn(ds) :: NearFun(f)
  }
}
