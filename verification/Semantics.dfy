// What a program means, by recursion on its syntax tree: variables are looked up
// by name, scopes end with their block, a monitor is left when its statement is
// left in whatever way.  `fuel` bounds the number of nested loop rounds and
// calls, so that programs that do not end have a meaning too.
module Semantics {
  import opened Wrappers
  import opened Syntax
  import opened CodeGen

  /** The operations of the values are left open; adding may panic. */
  datatype Ops = Ops(
    arith: (BinOp, int, int) -> int,
    neg: int -> int,
    less: (int, int) -> bool,
    greater: (int, int) -> bool,
    add: (Value, Value) -> Option<Value>)

  datatype Event = Printed(v: Value) | Entered(fid: nat, mon: nat) | Exited(fid: nat, mon: nat)

  /** The state all functions share: global variables, what was printed and which
      monitors were entered and exited, and the monitors this thread holds. */
  datatype World = World(globals: map<string, Value>, trace: seq<Event>, held: set<(nat, nat)>)

  datatype Why = Panic | Deadlock

  datatype Binding = Binding(name: Name, v: Value)

  datatype Source = Source(funs: seq<Fun>, ops: Ops)

  /** Where a statement stands: function (0 is the package), number of the next
      monitor and function, and whether it is top level code outside blocks. */
  datatype Here = Here(fid: nat, mon: nat, fun: nat, top: bool)

  datatype ExprResult = EVal(v: Value, w: World) | EStop(why: Why, w: World) | EFuel(w: World)

  /** `residue` are values a statement leaves on the operand stack. */
  datatype StmtResult =
    | SNormal(env: seq<Binding>, residue: seq<Value>, w: World)
    | SRet(v: Value, w: World)
    | SStop(why: Why, w: World)
    | SFuel(w: World)

  const FRAME_MAX: nat := 65536

  // ----- worlds -----

  function Emit(w: World, v: Value): World {
    w.(trace := w.trace + [Printed(v)])
  }

  function Enter(w: World, fid: nat, mon: nat): World {
    w.(trace := w.trace + [Entered(fid, mon)], held := w.held + {(fid, mon)})
  }

  function Exit(w: World, fid: nat, mon: nat): World {
    w.(trace := w.trace + [Exited(fid, mon)], held := w.held - {(fid, mon)})
  }

  function Define(w: World, x: string, v: Value): World {
    w.(globals := w.globals[x := v])
  }

  function Global(w: World, x: string): Value {
    if x in w.globals then w.globals[x] else VNil
  }

  // ----- local variables -----

  function Index(env: seq<Binding>, x: string): int
    ensures -1 <= Index(env, x) < |env|
  {
    if env == [] then -1
    else if env[|env| - 1].name == x then |env| - 1
    else Index(env[..|env| - 1], x)
  }

  function Truncate(env: seq<Binding>, n: nat): seq<Binding> {
    if n <= |env| then env[..n] else env
  }

  function Store(env: seq<Binding>, w: World, x: Name, v: Value): StmtResult {
    var i := Index(env, x);
    if i >= 0 then SNormal(env[i := Binding(env[i].name, v)], [], w)
    else if x in w.globals then SNormal(env, [], Define(w, x, v))
    else SStop(Panic, w)
  }

  // ----- operators -----

  function Truthy(v: Value): bool {
    v == VBool(true)
  }

  function NumberOp(ops: Ops, op: BinOp, a: Value, b: Value): Option<Value> {
    if a.VNum? && b.VNum? then Some(VNum(ops.arith(op, a.n, b.n))) else None
  }

  function Compare(rel: (int, int) -> bool, expected: bool, a: Value, b: Value): Option<Value> {
    if a.VNum? && b.VNum? then Some(VBool(rel(a.n, b.n) == expected)) else None
  }

  /** None is a panic. */
  function Apply(ops: Ops, op: BinOp, a: Value, b: Value): Option<Value> {
    match op
    case Add => ops.add(a, b)
    case Eq => Some(VBool(a == b))
    case NotEq => Some(VBool(a != b))
    case Less => Compare(ops.less, true, a, b)
    case GreaterEq => Compare(ops.less, false, a, b)
    case Greater => Compare(ops.greater, true, a, b)
    case LessEq => Compare(ops.greater, false, a, b)
    case _ => NumberOp(ops, op, a, b)
  }

  function ApplyUnary(ops: Ops, op: UnOp, a: Value): Option<Value> {
    match op
    case Minus => if a.VNum? then Some(VNum(ops.neg(a.n))) else None
    case Bang => if a.VBool? then Some(VBool(!a.b)) else None
  }

  function LitValue(l: Literal): Value {
    match l
    case LNil => VNil
    case LTrue => VBool(true)
    case LFalse => VBool(false)
  }

  function OrPanic(v: Option<Value>, w: World): ExprResult {
    if v.Some? then EVal(v.value, w) else EStop(Panic, w)
  }

  // ----- expressions -----

  function Eval(p: Source, e: Expr, env: seq<Binding>, w: World, fuel: nat, depth: nat): ExprResult
    decreases fuel, e, 1
  {
    match e
    case Number(v, _) => EVal(VNum(v), w)
    case Str(s) => EVal(VStr(s), w)
    case Lit(l) => EVal(LitValue(l), w)
    case Var(x) => EVal(if Index(env, x) >= 0 then env[Index(env, x)].v else Global(w, x), w)
    case Assign(_, _) => EStop(Panic, w)  // not an expression, see Placed
    case Unary(op, a) =>
      (match Eval(p, a, env, w, fuel, depth)
       case EVal(v, w1) => OrPanic(ApplyUnary(p.ops, op, v), w1)
       case o => o)
    case Binary(op, l, r) =>
      (match Eval(p, l, env, w, fuel, depth)
       case EVal(a, w1) =>
         (match Eval(p, r, env, w1, fuel, depth)
          case EVal(b, w2) => OrPanic(Apply(p.ops, op, a, b), w2)
          case o => o)
       case o => o)
    case Call(f, args) =>
      (match Eval(p, f, env, w, fuel, depth)
       case EVal(callee, w1) =>
         var (vs, o) := EvalArgs(p, args, env, w1, fuel, depth);
         if !o.EVal? then o
         else if !callee.VFun? || callee.index >= |p.funs| || |p.funs[callee.index].params| != |args|
           || |vs| != |args| || depth >= FRAME_MAX then EStop(Panic, o.w)
         else if fuel == 0 then EFuel(o.w)
         else CallFun(p, callee.index, vs, o.w, fuel - 1, depth + 1)
       case o => o)
  }

  /** The values of the arguments; the second result is EVal when all have one. */
  function EvalArgs(p: Source, args: seq<Expr>, env: seq<Binding>, w: World, fuel: nat, depth: nat)
    : (r: (seq<Value>, ExprResult))
    ensures r.1.EVal? ==> |r.0| == |args|
    decreases fuel, args, 0
  {
    if args == [] then ([], EVal(VNil, w))
    else
      match Eval(p, args[0], env, w, fuel, depth)
      case EVal(v, w1) =>
        var (vs, o) := EvalArgs(p, args[1..], env, w1, fuel, depth);
        ([v] + vs, o)
      case o => ([], o)
  }

  function Bind(params: seq<Name>, vs: seq<Value>): seq<Binding>
    requires |params| == |vs|
  {
    seq(|params|, i requires 0 <= i < |params| => Binding(params[i], vs[i]))
  }

  function CallFun(p: Source, k: nat, vs: seq<Value>, w: World, fuel: nat, depth: nat): ExprResult
    requires k < |p.funs| && |p.funs[k].params| == |vs|
    decreases fuel, p.funs[k], 1
  {
    var f := p.funs[k];
    var env := Bind(f.params, vs);
    if !f.synced then Returned(ExecDecls(p, f.body, Here(k + 1, 0, 0, false), env, w, fuel, depth))
    else if (k + 1, 0) in w.held then EStop(Deadlock, w)
    else Returned(Leave(k + 1, 0, ExecDecls(p, f.body, Here(k + 1, 1, 0, false), env, Enter(w, k + 1, 0), fuel, depth)))
  }

  function Returned(r: StmtResult): ExprResult {
    match r
    case SNormal(_, _, w) => EVal(VNil, w)
    case SRet(v, w) => EVal(v, w)
    case SStop(why, w) => EStop(why, w)
    case SFuel(w) => EFuel(w)
  }

  /** A monitor is left when the statement it protects ends or returns. */
  function Leave(fid: nat, mon: nat, r: StmtResult): StmtResult {
    match r
    case SNormal(env, res, w) => SNormal(env, res, Exit(w, fid, mon))
    case SRet(v, w) => SRet(v, Exit(w, fid, mon))
    case _ => r
  }

  // ----- statements -----

  /** An expression statement, or a `for` increment, which keeps its value. */
  function ExecEffect(p: Source, e: Expr, keep: bool, env: seq<Binding>, w: World, fuel: nat, depth: nat): StmtResult
    decreases fuel, e, 2
  {
    match Eval(p, if e.Assign? then e.rhs else e, env, w, fuel, depth)
    case EVal(v, w1) => if e.Assign? then Store(env, w1, e.x, v) else SNormal(env, if keep then [v] else [], w1)
    case EStop(why, w1) => SStop(why, w1)
    case EFuel(w1) => SFuel(w1)
  }

  function EvalOpt(p: Source, e: Option<Expr>, env: seq<Binding>, w: World, fuel: nat, depth: nat): ExprResult
    decreases fuel, e, 1
  {
    if e.Some? then Eval(p, e.value, env, w, fuel, depth) else EVal(VNil, w)
  }

  function ExecVarDecl(p: Source, x: Name, init: Option<Expr>, h: Here, env: seq<Binding>, w: World, fuel: nat, depth: nat)
    : StmtResult
    decreases fuel, init, 2
  {
    match EvalOpt(p, init, env, w, fuel, depth)
    case EVal(v, w1) => if h.top then SNormal(env, [], Define(w1, x, v)) else SNormal(env + [Binding(x, v)], [], w1)
    case EStop(why, w1) => SStop(why, w1)
    case EFuel(w1) => SFuel(w1)
  }

  function ExecInit(p: Source, i: Init, h: Here, env: seq<Binding>, w: World, fuel: nat, depth: nat): StmtResult
    decreases fuel, i, 1
  {
    match i
    case NoInit => SNormal(env, [], w)
    case VarInit(x, e) => ExecVarDecl(p, x, e, h, env, w, fuel, depth)
    case ExprInit(e) => ExecEffect(p, e, false, env, w, fuel, depth)
  }

  /** End of a scope that began with `n` visible variables. */
  function Scoped(n: nat, r: StmtResult): StmtResult {
    if r.SNormal? then r.(env := Truncate(r.env, n)) else r
  }

  function Prepend(res: seq<Value>, r: StmtResult): StmtResult {
    if r.SNormal? then r.(residue := res + r.residue) else r
  }

  function Exec(p: Source, s: Stmt, h: Here, env: seq<Binding>, w: World, fuel: nat, depth: nat): StmtResult
    decreases fuel, s, 1
  {
    match s
    case Print(e) =>
      (match Eval(p, e, env, w, fuel, depth)
       case EVal(v, w1) => SNormal(env, [], Emit(w1, v))
       case EStop(why, w1) => SStop(why, w1)
       case EFuel(w1) => SFuel(w1))
    case ExprStmt(e) => ExecEffect(p, e, false, env, w, fuel, depth)
    case Block(ds) => Scoped(|env|, ExecDecls(p, ds, h.(top := false), env, w, fuel, depth))
    case If(c, t, e) =>
      (match Eval(p, c, env, w, fuel, depth)
       case EVal(v, w1) =>
         if Truthy(v) then Exec(p, t, h, env, w1, fuel, depth)
         else if e.Some? then
           Exec(p, e.value, h.(mon := h.mon + Syncs(t), fun := h.fun + |Funs(t)|), env, w1, fuel, depth)
         else SNormal(env, [], w1)
       case EStop(why, w1) => SStop(why, w1)
       case EFuel(w1) => SFuel(w1))
    case While(_, _) => ExecLoop(p, s, h, env, w, fuel, depth)
    case For(i, _, _, _) =>
      (match ExecInit(p, i, h.(top := false), env, w, fuel, depth)
       case SNormal(env1, res, w1) =>
         Scoped(|env|, Prepend(res, ExecLoop(p, s, h.(top := false), env1, w1, fuel, depth)))
       case o => o)
    case Return(e) =>
      (match EvalOpt(p, e, env, w, fuel, depth)
       case EVal(v, w1) => SRet(v, w1)
       case EStop(why, w1) => SStop(why, w1)
       case EFuel(w1) => SFuel(w1))
    case Sync(b) =>
      if (h.fid, h.mon) in w.held then SStop(Deadlock, w)
      else Leave(h.fid, h.mon, Exec(p, b, h.(mon := h.mon + 1), env, Enter(w, h.fid, h.mon), fuel, depth))
  }

  /** One round of a loop: the body, and the increment of a `for`. */
  function ExecRound(p: Source, s: Stmt, h: Here, env: seq<Binding>, w: World, fuel: nat, depth: nat): StmtResult
    requires s.While? || s.For?
    decreases fuel, s, 0, 0
  {
    match Exec(p, s.loopBody, h, env, w, fuel, depth)
    case SNormal(env1, res, w1) =>
      if s.For? then Prepend(res, ExecEffect(p, s.incr, true, env1, w1, fuel, depth)) else SNormal(env1, res, w1)
    case o => o
  }

  function ExecLoop(p: Source, s: Stmt, h: Here, env: seq<Binding>, w: World, fuel: nat, depth: nat): StmtResult
    requires s.While? || s.For?
    decreases fuel, s, 0, 1
  {
    match Eval(p, s.cond, env, w, fuel, depth)
    case EVal(v, w1) =>
      if !Truthy(v) then SNormal(env, [], w1)
      else
        (match ExecRound(p, s, h, env, w1, fuel, depth)
         case SNormal(env2, res, w2) =>
           if fuel == 0 then SFuel(w2) else Prepend(res, ExecLoop(p, s, h, env2, w2, fuel - 1, depth))
         case o => o)
    case EStop(why, w1) => SStop(why, w1)
    case EFuel(w1) => SFuel(w1)
  }

  function ExecDecl(p: Source, d: Decl, h: Here, env: seq<Binding>, w: World, fuel: nat, depth: nat): StmtResult
    decreases fuel, d, 1
  {
    match d
    case StmtDecl(s) => Exec(p, s, h, env, w, fuel, depth)
    case VarDecl(x, e) => ExecVarDecl(p, x, e, h, env, w, fuel, depth)
    case FunDecl(f) =>
      if h.top then SNormal(env, [], Define(w, f.name, VFun(h.fun))) else SNormal(env, [VFun(h.fun)], w)
  }

  function After(h: Here, d: Decl): Here {
    h.(mon := h.mon + SyncsOf(d), fun := h.fun + |FunsOf(d)|)
  }

  function ExecDecls(p: Source, ds: seq<Decl>, h: Here, env: seq<Binding>, w: World, fuel: nat, depth: nat): StmtResult
    decreases fuel, ds, 0
  {
    if ds == [] then SNormal(env, [], w)
    else
      match ExecDecl(p, ds[0], h, env, w, fuel, depth)
      case SNormal(env1, res, w1) =>
        Prepend(res, ExecDecls(p, ds[1..], After(h, ds[0]), env1, w1, fuel, depth))
      case o => o
  }

  /** A whole package, from empty globals. */
  function RunSource(ds: seq<Decl>, ops: Ops, fuel: nat): StmtResult {
    ExecDecls(Source(FunsIn(ds), ops), ds, Here(0, 0, 0, true), [], World(map[], [], {}), fuel, 1)
  }
}
