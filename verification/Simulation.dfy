// The compiled code does what the source program does: one induction over the
// fuel and the tree, for results, panics, deadlocks and runs that go on.
module Simulation {
  import opened Wrappers
  import opened Bytecode
  import opened Syntax
  import opened CodeGen
  import opened Semantics
  import opened Machine
  import opened Shape
  import opened SimBase
  import opened SimSteps

  // ----- expressions -----

  ghost predicate ExprPre(m: Sys, e: Expr, c: Ctx, env: seq<Binding>, st: State) {
    && Plain(e) && GenExpr(e, c).Some? && Names(c, env) && Ready(m, st, env)
    && Next(m, st, GenExpr(e, c).value.code) && GenExpr(e, c).value.c.consts <= Current(m, st).consts
  }

  lemma {:induction false} SimExpr(m: Sys, e: Expr, c: Ctx, env: seq<Binding>, st: State, fuel: nat)
    returns (n: nat, st1: State)
    requires Linked(m) && ExprPre(m, e, c, env, st)
    ensures ExprOk(m, st, Top(st).pc + |GenExpr(e, c).value.code|, env,
                   Eval(m.src, e, env, st.w, fuel, |st.frames|), fuel, n, st1)
    decreases fuel, e, 1
  {
    hide RunM, Moved, Linked, ExprOk, Holds;
    n := 1;
    match e
    case Number(v, d) => st1 := SimNumber(m, v, d, c, env, st, fuel);
    case Str(s) => st1 := SimConst(m, VStr(s), c, env, st, fuel);
    case Lit(l) =>
      st1 := Push(Behind(st, 1), LitValue(l));
      DoLit(m, st, l);
      Pushed(m, st, 1, env, LitValue(l), fuel);
    case Var(x) => st1 := SimVar(m, x, c, env, st, fuel);
    case Unary(_, _) => n, st1 := SimUnaryExpr(m, e, c, env, st, fuel);
    case Binary(_, _, _) => n, st1 := SimBinaryExpr(m, e, c, env, st, fuel);
    case Call(_, _) => n, st1 := SimCallExpr(m, e, c, env, st, fuel);
  }

  lemma {:induction false} SimUnaryExpr(m: Sys, e: Expr, c: Ctx, env: seq<Binding>, st: State, fuel: nat)
    returns (n: nat, st1: State)
    requires e.Unary? && Linked(m) && ExprPre(m, e, c, env, st)
    ensures ExprOk(m, st, Top(st).pc + |GenExpr(e, c).value.code|, env,
                   Eval(m.src, e, env, st.w, fuel, |st.frames|), fuel, n, st1)
    decreases fuel, e, 0
  {
    hide RunM, Moved, Linked, Ready, Names, ApplyUnary;
    var code := GenExpr(e.e, c).value.code;
    NextSplit(m, st, code, [UnaryCode(e.uop)]);
    n, st1 := SimExpr(m, e.e, c, env, st, fuel);
    var r := Eval(m.src, e.e, env, st.w, fuel, |st.frames|);
    if r.EVal? {
      MovedNext(m, st, st1, env, [r.v], r.w, code, [UnaryCode(e.uop)]);
      n, st1 := SimUnary(m, e.uop, st, n, st1, Top(st).pc + |code|, env, r.v, r.w, fuel);
    }
  }

  lemma BinaryParts(m: Sys, e: Expr, c: Ctx, env: seq<Binding>, st: State) returns (o: Out, p: Out)
    requires e.Binary? && ExprPre(m, e, c, env, st)
    ensures GenExpr(e.l, c) == Some(o) && GenExpr(e.r, o.c) == Some(p)
    ensures GenExpr(e, c) == Some(Out(o.code + p.code + OpCode(e.op), p.c))
    ensures ExprPre(m, e.l, c, env, st) && Next(m, st, o.code + p.code + OpCode(e.op))
    ensures Plain(e.r) && o.c.locals == c.locals && o.c.pending == c.pending && p.c.consts <= Current(m, st).consts
  {
    hide Ready, Names, OpCode;
    o := GenExpr(e.l, c).value;
    p := GenExpr(e.r, o.c).value;
    NextSplit(m, st, o.code + p.code, OpCode(e.op));
    NextSplit(m, st, o.code, p.code);
  }

  lemma {:induction false} SimBinaryExpr(m: Sys, e: Expr, c: Ctx, env: seq<Binding>, st: State, fuel: nat)
    returns (n: nat, st1: State)
    requires e.Binary? && Linked(m) && ExprPre(m, e, c, env, st)
    ensures ExprOk(m, st, Top(st).pc + |GenExpr(e, c).value.code|, env,
                   Eval(m.src, e, env, st.w, fuel, |st.frames|), fuel, n, st1)
    decreases fuel, e, 0
  {
    hide RunM, Moved, Linked, Ready, Names, Apply, OpCode, GenExpr, Plain, Next;
    var o, p := BinaryParts(m, e, c, env, st);
    NextSplit(m, st, o.code + p.code, OpCode(e.op));
    NextSplit(m, st, o.code, p.code);
    n, st1 := SimExpr(m, e.l, c, env, st, fuel);
    var r := Eval(m.src, e.l, env, st.w, fuel, |st.frames|);
    if r.EVal? {
      var s1, n1 := st1, n;
      MovedNext(m, st, s1, env, [r.v], r.w, o.code, p.code);
      ReadyAfter(m, st, s1, Top(st).pc + |o.code|, c, o.c, env, [r.v], r.w);
      n, st1 := SimExpr(m, e.r, o.c, env, s1, fuel);
      var q := Eval(m.src, e.r, env, r.w, fuel, |st.frames|);
      assert s1.w == r.w by { MovedWorld(m, st, s1, Top(st).pc + |o.code|, env, [r.v], r.w); }
      ComposeExpr(m, st, n1, s1, Top(st).pc + |o.code|, env, [r.v], r.w, Top(st).pc + |o.code| + |p.code|, q, fuel, n, st1);
      n := n1 + n;
      if q.EVal? {
        assert [r.v] + [q.v] == [r.v, q.v];
        MovedNext(m, st, st1, env, [r.v, q.v], q.w, o.code + p.code, OpCode(e.op));
        n, st1 := SimBinary(m, e.op, st, n, st1, Top(st).pc + |o.code + p.code|, env, r.v, q.v, q.w, fuel);
      }
    }
  }

  lemma MovedWorld(m: Sys, st: State, st1: State, pc: nat, env: seq<Binding>, res: seq<Value>, w: World)
    requires Moved(m, st, st1, pc, env, res, w)
    ensures st1.w == w && Ready(m, st1, env) && Valid(st1) && st1.esp == st.esp + |res|
  {
  }

  /** The names and the frame are still in order after an expression. */
  lemma ReadyAfter(m: Sys, st: State, s1: State, pc: nat, c: Ctx, d: Ctx, env: seq<Binding>, res: seq<Value>, w: World)
    requires Moved(m, st, s1, pc, env, res, w) && Names(c, env)
    requires d.locals == c.locals && d.pending == c.pending
    ensures Names(d, env) && Ready(m, s1, env)
  {
  }

  // ----- calls -----

  /** What running the arguments does: all their values are on the stack. */
  ghost predicate ArgsOk(m: Sys, st: State, pc: nat, env: seq<Binding>, r: (seq<Value>, ExprResult), fuel: nat, n: nat, st1: State) {
    match r.1
    case EVal(_, w) => RunM(m, st, n) == Running(st1) && Moved(m, st, st1, pc, env, r.0, w)
    case EStop(why, w) => RunM(m, st, n) == Stopped(why, w)
    case EFuel(w) => n >= fuel && RunM(m, st, n).Running? && RunM(m, st, n).st.w == w
  }

  ghost predicate ArgsPre(m: Sys, args: seq<Expr>, c: Ctx, env: seq<Binding>, st: State) {
    && PlainArgs(args) && GenArgs(args, c).Some? && Names(c, env) && Ready(m, st, env)
    && Next(m, st, GenArgs(args, c).value.code) && GenArgs(args, c).value.c.consts <= Current(m, st).consts
  }

  lemma {:induction false} SimArgs(m: Sys, args: seq<Expr>, c: Ctx, env: seq<Binding>, st: State, fuel: nat)
    returns (n: nat, st1: State)
    requires Linked(m) && ArgsPre(m, args, c, env, st)
    ensures ArgsOk(m, st, Top(st).pc + |GenArgs(args, c).value.code|, env,
                   EvalArgs(m.src, args, env, st.w, fuel, |st.frames|), fuel, n, st1)
    decreases fuel, args, 0
  {
    hide RunM, Moved, Linked, Ready, Names, Eval, GenExpr, Plain;
    if args == [] {
      n, st1 := 0, st;
      Zero(m, st);
      Stay(m, st, env);
    } else {
      var o := GenExpr(args[0], c).value;
      var p := GenArgs(args[1..], o.c).value;
      NextSplit(m, st, o.code, p.code);
      n, st1 := SimExpr(m, args[0], c, env, st, fuel);
      var r := Eval(m.src, args[0], env, st.w, fuel, |st.frames|);
      if r.EVal? {
        var s1, n1 := st1, n;
        MovedNext(m, st, s1, env, [r.v], r.w, o.code, p.code);
        ReadyAfter(m, st, s1, Top(st).pc + |o.code|, c, o.c, env, [r.v], r.w);
        MovedWorld(m, st, s1, Top(st).pc + |o.code|, env, [r.v], r.w);
        n, st1 := SimArgs(m, args[1..], o.c, env, s1, fuel);
        var q := EvalArgs(m.src, args[1..], env, r.w, fuel, |st.frames|);
        Then(m, st, n1, s1, n);
        if q.1.EVal? {
          MovedTrans(m, st, s1, st1, Top(st).pc + |o.code|, Top(st).pc + |o.code + p.code|, env, env, [r.v], q.0, r.w, q.1.w);
        }
        n := n1 + n;
      }
    }
  }

  lemma Stay(m: Sys, st: State, env: seq<Binding>)
    requires Ready(m, st, env)
    ensures Moved(m, st, st, Top(st).pc, env, [], st.w)
  {
    assert st.frames == Goto(st, Top(st).pc).frames;
  }

  lemma CallParts(m: Sys, e: Expr, c: Ctx, env: seq<Binding>, st: State) returns (o: Out, p: Out)
    requires e.Call? && ExprPre(m, e, c, env, st)
    ensures GenExpr(e.callee, c) == Some(o) && GenArgs(e.args, o.c) == Some(p)
    ensures GenExpr(e, c) == Some(Out(o.code + p.code + [OP_CALL, |e.args|, 0], p.c))
    ensures ExprPre(m, e.callee, c, env, st) && Next(m, st, o.code + p.code + [OP_CALL, |e.args|, 0])
    ensures PlainArgs(e.args) && |e.args| <= MAX_ARGS
    ensures o.c.locals == c.locals && o.c.pending == c.pending && p.c.consts <= Current(m, st).consts
  {
    hide Ready, Names, GenArgs;
    o := GenExpr(e.callee, c).value;
    p := GenArgs(e.args, o.c).value;
    NextSplit(m, st, o.code + p.code, [OP_CALL, |e.args|, 0]);
    NextSplit(m, st, o.code, p.code);
  }

  lemma {:induction false} SimCallExpr(m: Sys, e: Expr, c: Ctx, env: seq<Binding>, st: State, fuel: nat)
    returns (n: nat, st1: State)
    requires e.Call? && Linked(m) && ExprPre(m, e, c, env, st)
    ensures ExprOk(m, st, Top(st).pc + |GenExpr(e, c).value.code|, env,
                   Eval(m.src, e, env, st.w, fuel, |st.frames|), fuel, n, st1)
    decreases fuel, e, 0
  {
    hide RunM, Moved, Linked, Ready, Names, GenArgs, EvalArgs, CallFun, GenExpr, Plain, Next;
    var o, p := CallParts(m, e, c, env, st);
    var call := [OP_CALL, |e.args|, 0];
    NextSplit(m, st, o.code + p.code, call);
    NextSplit(m, st, o.code, p.code);
    n, st1 := SimExpr(m, e.callee, c, env, st, fuel);
    var r := Eval(m.src, e.callee, env, st.w, fuel, |st.frames|);
    if r.EVal? {
      var s1, n1 := st1, n;
      MovedNext(m, st, s1, env, [r.v], r.w, o.code, p.code);
      ReadyAfter(m, st, s1, Top(st).pc + |o.code|, c, o.c, env, [r.v], r.w);
      MovedWorld(m, st, s1, Top(st).pc + |o.code|, env, [r.v], r.w);
      n, st1 := SimArgs(m, e.args, o.c, env, s1, fuel);
      var (vs, q) := EvalArgs(m.src, e.args, env, r.w, fuel, |st.frames|);
      Then(m, st, n1, s1, n);
      n := n1 + n;
      if q.EVal? {
        MovedTrans(m, st, s1, st1, Top(st).pc + |o.code|, Top(st).pc + |o.code + p.code|, env, env, [r.v], vs, r.w, q.w);
        MovedNext(m, st, st1, env, [r.v] + vs, q.w, o.code + p.code, call);
        n, st1 := SimCall(m, st, n, st1, Top(st).pc + |o.code + p.code|, env, r.v, vs, q.w, fuel, e);
      }
    }
  }

  /** What a call does once callee and arguments have values. */
  ghost function CallResult(src: Source, callee: Value, vs: seq<Value>, w: World, fuel: nat, depth: nat): ExprResult {
    if !callee.VFun? || callee.index >= |src.funs| || |src.funs[callee.index].params| != |vs| || depth >= FRAME_MAX
    then EStop(Panic, w)
    else if fuel == 0 then EFuel(w)
    else CallFun(src, callee.index, vs, w, fuel - 1, depth + 1)
  }

  /** The state in which a called function begins: a frame over the callee. */
  ghost predicate Called(m: Sys, st: State, s: State, pc: nat, t: State, k: nat, vs: seq<Value>) {
    && s.frames != [] && t.frames == Goto(s, pc).frames + [Frame(k + 1, 0, st.esp)]
    && Valid(t) && t.esp == Base(m, t) && t.w == s.w
    && st.esp + 1 + |vs| <= |t.mem|
    && (forall i | 0 <= i < st.esp :: i < |s.mem| && t.mem[i] == s.mem[i])
    && (forall i | 0 <= i < |vs| :: t.mem[st.esp + 1 + i] == vs[i])
  }

  lemma CallEnters(m: Sys, st: State, s: State, pc: nat, env: seq<Binding>, callee: Value, vs: seq<Value>, w: World)
    requires Moved(m, st, s, pc, env, [callee] + vs, w)
    requires callee.VFun? && callee.index < |m.p.funs|
    requires m.p.funs[callee.index].nArgs == |vs| <= m.p.funs[callee.index].nLocals && |s.frames| < FRAME_MAX
    ensures CallStep(m.p, |vs|, Behind(s, 3)).Running?
    ensures Called(m, st, s, pc + 3, CallStep(m.p, |vs|, Behind(s, 3)).st, callee.index, vs)
  {
    assert s.mem[st.esp + 0] == ([callee] + vs)[0];
    var t := CallStep(m.p, |vs|, Behind(s, 3)).st;
    forall i | 0 <= i < |vs| ensures t.mem[st.esp + 1 + i] == vs[i] {
      assert s.mem[st.esp + (1 + i)] == ([callee] + vs)[1 + i];
    }
  }

  lemma CallPanics(m: Sys, st: State, s: State, pc: nat, env: seq<Binding>, callee: Value, vs: seq<Value>, w: World)
    requires Moved(m, st, s, pc, env, [callee] + vs, w)
    requires !callee.VFun? || callee.index >= |m.p.funs| || m.p.funs[callee.index].nArgs != |vs| || |s.frames| >= FRAME_MAX
    ensures CallStep(m.p, |vs|, Behind(s, 3)) == Stopped(Panic, w)
  {
    assert s.mem[st.esp + 0] == ([callee] + vs)[0];
  }

  /** After the return, callee and arguments have been replaced by one result and
      the caller's frame, locals and lower operands are as they were. */
  lemma CallReturns(m: Sys, st: State, s: State, pc: nat, env: seq<Binding>, callee: Value, vs: seq<Value>, w: World,
                    t: State, u: State, k: nat, v: Value, w1: World)
    requires Moved(m, st, s, pc, env, [callee] + vs, w) && Called(m, st, s, pc + 3, t, k, vs)
    requires Gone(t, u, v, w1)
    ensures Moved(m, st, u, pc + 3, env, [v], w1)
  {
  }

  lemma {:induction false} SimCall(m: Sys, st: State, n1: nat, s: State, pc: nat, env: seq<Binding>, callee: Value,
                                   vs: seq<Value>, w: World, fuel: nat, e: Expr) returns (n: nat, st1: State)
    requires Linked(m) && |vs| < 256
    requires RunM(m, st, n1) == Running(s) && Moved(m, st, s, pc, env, [callee] + vs, w)
    requires Next(m, s, [OP_CALL, |vs|, 0])
    ensures ExprOk(m, st, pc + 3, env, CallResult(m.src, callee, vs, w, fuel, |st.frames|), fuel, n, st1)
    decreases fuel, e, 0, 0
  {
    hide RunM, CallFun, PlacedDecls, CallStep, Moved, Gone, GenFun;
    assert |s.frames| == |st.frames| && s.w == w && Valid(s) by { MovedFrames(m, st, s, pc, env, [callee] + vs, w); }
    Then(m, st, n1, s, 1);
    DoCall(m, s, |vs|);
    n, st1 := n1 + 1, s;
    if callee.VFun? && callee.index < |m.p.funs| {
      CompiledFun(m, callee.index);
    }
    if CallResult(m.src, callee, vs, w, 1, |st.frames|) == EStop(Panic, w) && (!callee.VFun?
       || callee.index >= |m.p.funs| || m.p.funs[callee.index].nArgs != |vs| || |s.frames| >= FRAME_MAX) {
      CallPanics(m, st, s, pc, env, callee, vs, w);
    } else {
      CallEnters(m, st, s, pc, env, callee, vs, w);
      var t := CallStep(m.p, |vs|, Behind(s, 3)).st;
      st1 := t;
      if fuel > 0 {
        var k, u := SimFun(m, callee.index, vs, t, fuel - 1);
        Then(m, st, n1 + 1, t, k);
        n, st1 := n1 + 1 + k, u;
        var r := CallFun(m.src, callee.index, vs, w, fuel - 1, |st.frames| + 1);
        if r.EVal? {
          CallReturns(m, st, s, pc, env, callee, vs, w, t, u, callee.index, r.v, r.w);
        }
      }
    }
  }

  lemma MovedFrames(m: Sys, st: State, st1: State, pc: nat, env: seq<Binding>, res: seq<Value>, w: World)
    requires Moved(m, st, st1, pc, env, res, w)
    ensures |st1.frames| == |st.frames| && Callers(st1) == Callers(st) && Top(st1) == Top(st).(pc := pc)
    ensures st1.w == w && Valid(st1)
  {
  }

  lemma CompiledFun(m: Sys, k: nat)
    requires Linked(m) && k < |m.p.funs|
    ensures k < |m.src.funs| && GenFun(m.src.funs[k]) == Some(m.p.funs[k])
    ensures m.p.funs[k].nArgs == |m.src.funs[k].params|
    ensures m.p.funs[k].nLocals >= m.p.funs[k].nArgs
    ensures PlacedDecls(m.src.funs[k].body) && NearFun(m.src.funs[k])
  {
    hide GenDecls, NearFun;
    var f := m.src.funs[k];
    var c := GenParams(f.params, StartCtx(true, [])).value;
    ParamsShape(f.params, StartCtx(true, []));
    DeclsShape(f.body, EnterMain(f.synced, c));
  }

  // ----- statements -----

  function HereOf(c: Ctx, st: State): Here
    requires st.frames != []
  {
    Here(Top(st).fid, c.nextMon, |c.funs|, c.depth == 0)
  }

  /** The compiler's tables, the environment and the frame fit together. */
  ghost predicate Fits(m: Sys, c: Ctx, env: seq<Binding>, st: State) {
    && Fine(c) && Names(c, env) && Ready(m, st, env)
    && (c.inFun ==> |st.frames| >= 2 && Top(st).slots >= 0)
  }

  /** Some code `o` comes next in a function that ends with larger tables. */
  ghost predicate Ahead(m: Sys, st: State, o: Out) {
    && Next(m, st, o.code)
    && o.c.consts <= Current(m, st).consts && o.c.maxLocals <= Current(m, st).nLocals
  }

  ghost predicate Sim(m: Sys, st: State, c: Ctx, o: Out, r: StmtResult, fuel: nat, n: nat, st1: State)
    requires st.frames != []
  {
    StmtOk(m, st, Top(st).pc + |o.code|, o.c, r, c.held, fuel, n, st1)
  }

  /** The rest of the code and of the tables after a first piece. */
  lemma Rest(m: Sys, st: State, s: State, c: Ctx, d: Ctx, env: seq<Binding>, res: seq<Value>, w: World,
             a: seq<Byte>, b: seq<Byte>)
    requires Next(m, st, a + b) && Moved(m, st, s, Top(st).pc + |a|, env, res, w)
    requires Fine(d) && Names(d, env) && d.inFun == c.inFun
    requires c.inFun ==> |st.frames| >= 2 && Top(st).slots >= 0
    ensures Fits(m, d, env, s) && Next(m, s, b) && Current(m, s) == Current(m, st)
    ensures Top(s) == Top(st).(pc := Top(st).pc + |a|) && |s.frames| == |st.frames| && s.w == w && s.esp == st.esp + |res|
  {
    MovedNext(m, st, s, env, res, w, a, b);
  }

  lemma FromExpr(m: Sys, st: State, pc: nat, pc1: nat, env: seq<Binding>, r: ExprResult, c: Ctx, held: seq<Byte>, fuel: nat,
                 n: nat, st1: State)
    requires ExprOk(m, st, pc, env, r, fuel, n, st1) && !r.EVal?
    ensures StmtOk(m, st, pc1, c, if r.EStop? then SStop(r.why, r.w) else SFuel(r.w), held, fuel, n, st1)
  {
  }

  /** Pop the value just computed; `pc` is where the machine is now. */
  lemma Popped(m: Sys, st: State, s: State, pc: nat, pc1: nat, env: seq<Binding>, v: Value, w: World, w1: World)
    requires Moved(m, st, s, pc, env, [v], w)
    ensures s.esp == st.esp + 1 && s.mem[s.esp - 1] == v && Valid(s)
    ensures Moved(m, st, Goto(s, pc1).(esp := s.esp - 1, w := w1), pc1, env, [], w1)
  {
    assert s.mem[st.esp + 0] == [v][0];
  }

  lemma {:induction false} SimOpt(m: Sys, e: Option<Expr>, c: Ctx, env: seq<Binding>, st: State, fuel: nat)
    returns (n: nat, st1: State)
    requires Linked(m) && PlacedOpt(e) && GenOpt(e, c).Some? && Names(c, env) && Ready(m, st, env)
    requires Next(m, st, GenOpt(e, c).value.code) && GenOpt(e, c).value.c.consts <= Current(m, st).consts
    ensures ExprOk(m, st, Top(st).pc + |GenOpt(e, c).value.code|, env,
                   EvalOpt(m.src, e, env, st.w, fuel, |st.frames|), fuel, n, st1)
    decreases fuel, e, 1
  {
    hide RunM, Moved, Linked, ExprOk, Holds;
    if e.Some? {
      n, st1 := SimExpr(m, e.value, c, env, st, fuel);
    } else {
      n, st1 := 1, Push(Behind(st, 1), VNil);
      assert LitCode(LNil) == [OP_NIL];
      DoLit(m, st, LNil);
      Pushed(m, st, 1, env, VNil, fuel);
    }
  }

  lemma {:induction false} SimPrint(m: Sys, e: Expr, c: Ctx, env: seq<Binding>, st: State, fuel: nat)
    returns (n: nat, st1: State)
    requires Linked(m) && Plain(e) && GenStmt(Print(e), c).Some? && Fits(m, c, env, st)
    requires Ahead(m, st, GenStmt(Print(e), c).value)
    ensures Sim(m, st, c, GenStmt(Print(e), c).value,
                Exec(m.src, Print(e), HereOf(c, st), env, st.w, fuel, |st.frames|), fuel, n, st1)
    decreases fuel, e, 2
  {
    hide NearStmt, NearLoop, NearDecls, RunM, Moved, Linked, Ready, Names, GenExpr, Eval, Emit, Next;
    var o := GenExpr(e, c).value;
    NextSplit(m, st, o.code, [OP_PRINT]);
    n, st1 := SimExpr(m, e, c, env, st, fuel);
    var r := Eval(m.src, e, env, st.w, fuel, |st.frames|);
    if r.EVal? {
      MovedFrames(m, st, st1, Top(st).pc + |o.code|, env, [r.v], r.w);
      PrintTop(m, st, st1, env, o.code, r.v, r.w);
      Then(m, st, n, st1, 1);
      n, st1 := n + 1, Goto(st1, Top(st).pc + |o.code| + 1).(esp := st1.esp - 1, w := Emit(r.w, r.v));
      NamesGrow(c, o.c, env);
    } else {
      FromExpr(m, st, Top(st).pc + |o.code|, Top(st).pc + |o.code| + 1, env, r, o.c, c.held, fuel, n, st1);
    }
  }

  /** The value on the stack is printed. */
  lemma PrintTop(m: Sys, st: State, s: State, env: seq<Binding>, a: seq<Byte>, v: Value, w: World)
    requires st.frames != [] && s.frames != []
    requires Moved(m, st, s, Top(st).pc + |a|, env, [v], w) && Next(m, st, a + [OP_PRINT])
    ensures var t := Goto(s, Top(st).pc + |a| + 1).(esp := s.esp - 1, w := Emit(w, v));
            RunM(m, s, 1) == Running(t) && Moved(m, st, t, Top(st).pc + |a| + 1, env, [], Emit(w, v))
  {
    hide RunM, Moved, Emit;
    var pc := Top(st).pc + |a|;
    MovedFrames(m, st, s, pc, env, [v], w);
    MovedNext(m, st, s, env, [v], w, a, [OP_PRINT]);
    Popped(m, st, s, pc, pc + 1, env, v, w, Emit(w, v));
    DoPrint(m, s);
  }

  lemma NamesGrow(c: Ctx, d: Ctx, env: seq<Binding>)
    requires Names(c, env) && d.locals == c.locals && d.pending == c.pending
    ensures Names(d, env)
  {
  }

  function EffectOut(e: Expr, keep: bool, c: Ctx): Option<Out> {
    if keep then GenIncr(e, c) else GenEffect(e, c)
  }

  ghost predicate EffectPre(m: Sys, e: Expr, keep: bool, c: Ctx, env: seq<Binding>, st: State) {
    Effect(e) && EffectOut(e, keep, c).Some? && Fits(m, c, env, st) && Ahead(m, st, EffectOut(e, keep, c).value)
  }

  lemma {:induction false} SimEffect(m: Sys, e: Expr, keep: bool, c: Ctx, env: seq<Binding>, st: State, fuel: nat)
    returns (n: nat, st1: State)
    requires Linked(m) && EffectPre(m, e, keep, c, env, st)
    ensures Sim(m, st, c, EffectOut(e, keep, c).value,
                ExecEffect(m.src, e, keep, env, st.w, fuel, |st.frames|), fuel, n, st1)
    decreases fuel, e, 2
  {
    hide RunM, Moved, Linked, Ready, Names, GenExpr, Eval, Store;
    if e.Assign? {
      n, st1 := SimAssign(m, e, keep, c, env, st, fuel);
    } else {
      var o := GenExpr(e, c).value;
      PlainKeepsFlag(e, c);
      if !keep { NextSplit(m, st, o.code, [OP_POP]); }
      n, st1 := SimExpr(m, e, c, env, st, fuel);
      var r := Eval(m.src, e, env, st.w, fuel, |st.frames|);
      var pc := Top(st).pc + |o.code|;
      NamesGrow(c, o.c, env);
      NamesGrow(c, EffectOut(e, keep, c).value.c, env);
      if r.EVal? && !keep {
        MovedNext(m, st, st1, env, [r.v], r.w, o.code, [OP_POP]);
        var s := st1;
        Popped(m, st, s, pc, pc + 1, env, r.v, r.w, r.w);
        MovedWorld(m, st, s, pc, env, [r.v], r.w);
        DoPop(m, s);
        Then(m, st, n, s, 1);
        n, st1 := n + 1, Goto(s, pc + 1).(esp := s.esp - 1, w := r.w);
      } else if !r.EVal? {
        FromExpr(m, st, pc, Top(st).pc + |EffectOut(e, keep, c).value.code|, env, r, o.c, c.held, fuel, n, st1);
      }
    }
  }

  /** The pieces of a compiled assignment. */
  lemma AssignParts(e: Expr, keep: bool, c: Ctx, env: seq<Binding>) returns (c1: Ctx, o: Out, store: seq<Byte>)
    requires e.Assign? && Effect(e) && EffectOut(e, keep, c).Some? && Names(c, env)
    ensures GenExpr(e.rhs, c1) == Some(o) && c1.locals == c.locals && c1.pending == c.pending
    ensures var i := Index(env, e.x);
            if i >= 0 then i < 254 && store == [OP_SET_LOCAL, i + 1]
            else |c.consts| < 256 && store == [OP_SET_GLOBAL, |c.consts|] && c.consts + [VStr(e.x)] <= o.c.consts
    ensures EffectOut(e, keep, c) == Some(Out(o.code + store, o.c.(setOp := false)))
  {
    hide Index, Resolve;
    var slot := Resolve(c.locals, e.x);
    NamesResolve(c, env, e.x);
    if slot != -1 {
      SlotByte(c, env, Index(env, e.x));
      c1, store := c.(setOp := true), [OP_SET_LOCAL, slot % 256];
    } else {
      c1, store := AddConst(c, VStr(e.x)).value.1.(setOp := true), [OP_SET_GLOBAL, |c.consts|];
    }
    o := GenExpr(e.rhs, c1).value;
    PlainKeepsFlag(e.rhs, c1);
    assert GenExpr(e, c) == Some(Out(o.code + store, o.c));
  }

  lemma {:induction false} SimAssign(m: Sys, e: Expr, keep: bool, c: Ctx, env: seq<Binding>, st: State, fuel: nat)
    returns (n: nat, st1: State)
    requires e.Assign? && Linked(m) && EffectPre(m, e, keep, c, env, st)
    ensures Sim(m, st, c, EffectOut(e, keep, c).value,
                ExecEffect(m.src, e, keep, env, st.w, fuel, |st.frames|), fuel, n, st1)
    decreases fuel, e, 1
  {
    hide RunM, Moved, Linked, Ready, Names, Eval, Index, Resolve, GenExpr, EffectOut, Store;
    var c1, o, store := AssignParts(e, keep, c, env);
    NextSplit(m, st, o.code, store);
    NamesGrow(c, c1, env);
    n, st1 := SimExpr(m, e.rhs, c1, env, st, fuel);
    var r := Eval(m.src, e.rhs, env, st.w, fuel, |st.frames|);
    var pc := Top(st).pc + |o.code|;
    if r.EVal? {
      MovedNext(m, st, st1, env, [r.v], r.w, o.code, store);
      NamesGrow(c, o.c.(setOp := false), env);
      n, st1 := SimStore(m, st, n, st1, pc, c, o.c.(setOp := false), env, e.x, r.v, r.w, Index(env, e.x), fuel);
    } else {
      FromExpr(m, st, pc, pc + 2, env, r, o.c.(setOp := false), c.held, fuel, n, st1);
    }
  }

  lemma SlotByte(c: Ctx, env: seq<Binding>, i: int)
    requires Names(c, env) && i < |env|
    ensures i + 1 < 255
  {
  }

  /** The store at the end of an assignment. */
  lemma SimStore(m: Sys, st: State, n1: nat, s: State, pc: nat, c: Ctx, d: Ctx, env: seq<Binding>, x: Name, v: Value,
                 w: World, i: int, fuel: nat) returns (n: nat, st1: State)
    requires RunM(m, st, n1) == Running(s) && Moved(m, st, s, pc, env, [v], w)
    requires i == Index(env, x) && Names(d, env)
    requires if i >= 0 then Next(m, s, [OP_SET_LOCAL, i + 1])
             else |c.consts| < 256 && Next(m, s, [OP_SET_GLOBAL, |c.consts|])
                  && |c.consts| < |Current(m, s).consts| && Current(m, s).consts[|c.consts|] == VStr(x)
    ensures StmtOk(m, st, pc + 2, d, Store(env, w, x, v), c.held, fuel, n, st1)
  {
    hide RunM, Index;
    n := n1 + 1;
    Then(m, st, n1, s, 1);
    if i >= 0 {
      StoreMoved(m, st, s, pc, env, v, w, i + 1, env[i := Binding(env[i].name, v)]);
      st1 := Goto(s, pc + 2).(esp := st.esp, mem := s.mem[Top(s).slots + i + 1 := v]);
    } else {
      Popped(m, st, s, pc, pc + 2, env, v, w, Define(w, x, v));
      DoSetGlobal(m, s, |c.consts|, x);
      st1 := Goto(s, pc + 2).(esp := s.esp - 1, w := Define(w, x, v));
    }
  }

  lemma {:induction false} SimVarDecl(m: Sys, x: Name, init: Option<Expr>, c: Ctx, env: seq<Binding>, st: State, fuel: nat)
    returns (n: nat, st1: State)
    requires Linked(m) && PlacedOpt(init) && GenVarDecl(x, init, c).Some? && Fits(m, c, env, st)
    requires Ahead(m, st, GenVarDecl(x, init, c).value)
    ensures Sim(m, st, c, GenVarDecl(x, init, c).value,
                ExecVarDecl(m.src, x, init, HereOf(c, st), env, st.w, fuel, |st.frames|), fuel, n, st1)
    decreases fuel, init, 2
  {
    hide RunM, Moved, Linked, Names, EvalOpt, GenOpt, Resolve;
    var local := c.depth > 0;
    var c1 := if local then AddLocal(c, x).value.(pending := |c.locals|) else AddConst(c, VStr(x)).value.1;
    var o := GenOpt(init, c1).value;
    NamesPending(c, env, x, c1);
    SlotByte(c, env, |env| - 1);
    var store: seq<Byte> := if local then [OP_SET_LOCAL, |env| + 1] else [OP_DEFINE_GLOBAL, |c.consts|];
    NamesSize(c, env);
    NextSplit(m, st, o.code, store);
    n, st1 := SimOpt(m, init, c1, env, st, fuel);
    var r := EvalOpt(m.src, init, env, st.w, fuel, |st.frames|);
    var pc := Top(st).pc + |o.code|;
    var d := GenVarDecl(x, init, c).value.c;
    if r.EVal? {
      MovedNext(m, st, st1, env, [r.v], r.w, o.code, store);
      if local {
        st1 := DeclareLocal(m, st, n, st1, pc, c, d, env, x, r.v, r.w);
      } else {
        st1 := DefineGlobal(m, st, n, st1, pc, c, d, env, x, r.v, r.w);
      }
      n := n + 1;
    } else {
      FromExpr(m, st, pc, pc + 2, env, r, d, c.held, fuel, n, st1);
    }
  }

  lemma DeclareLocal(m: Sys, st: State, n: nat, s: State, pc: nat, c: Ctx, d: Ctx, env: seq<Binding>, x: Name, v: Value,
                     w: World) returns (st1: State)
    requires RunM(m, st, n) == Running(s) && Moved(m, st, s, pc, env, [v], w)
    requires Names(c, env) && c.pending == -2 && |c.locals| < MAX_LOCALS
    requires d.locals == c.locals + [Local(x, c.depth)] && d.pending == -2 && |d.locals| <= Current(m, st).nLocals
    requires |env| + 1 < 256 && Next(m, s, [OP_SET_LOCAL, |env| + 1])
    ensures RunM(m, st, n + 1) == Running(st1) && Moved(m, st, st1, pc + 2, env + [Binding(x, v)], [], w)
    ensures Names(d, env + [Binding(x, v)])
  {
    hide RunM, Moved, Names;
    NamesSize(c, env);
    MovedWorld(m, st, s, pc, env, [v], w);
    MovedFrames(m, st, s, pc, env, [v], w);
    Then(m, st, n, s, 1);
    StoreMoved(m, st, s, pc, env, v, w, |env| + 1, env + [Binding(x, v)]);
    st1 := Goto(s, pc + 2).(esp := st.esp, mem := s.mem[Top(s).slots + |env| + 1 := v]);
    NamesAdd(c, env, x, v, d);
  }

  lemma DefineGlobal(m: Sys, st: State, n: nat, s: State, pc: nat, c: Ctx, d: Ctx, env: seq<Binding>, x: Name, v: Value,
                     w: World) returns (st1: State)
    requires RunM(m, st, n) == Running(s) && Moved(m, st, s, pc, env, [v], w)
    requires Names(c, env) && d.locals == c.locals && d.pending == c.pending
    requires |c.consts| < 256 && Next(m, s, [OP_DEFINE_GLOBAL, |c.consts|])
    requires |c.consts| < |Current(m, s).consts| && Current(m, s).consts[|c.consts|] == VStr(x)
    ensures RunM(m, st, n + 1) == Running(st1) && Moved(m, st, st1, pc + 2, env, [], Define(w, x, v)) && Names(d, env)
  {
    hide RunM, Moved, Names;
    MovedWorld(m, st, s, pc, env, [v], w);
    MovedFrames(m, st, s, pc, env, [v], w);
    Then(m, st, n, s, 1);
    Popped(m, st, s, pc, pc + 2, env, v, w, Define(w, x, v));
    DoDefineGlobal(m, s, |c.consts|, x);
    st1 := Goto(s, pc + 2).(esp := s.esp - 1, w := Define(w, x, v));
    NamesGrow(c, d, env);
  }

  lemma NamesSize(c: Ctx, env: seq<Binding>)
    requires Names(c, env) && c.pending == -2
    ensures |c.locals| == |env| + 1
  {
  }

  lemma NamesPending(c: Ctx, env: seq<Binding>, x: Name, d: Ctx)
    requires Names(c, env) && c.pending == -2
    requires (d.locals == c.locals && d.pending == -2)
             || (|c.locals| < MAX_LOCALS && d.locals == c.locals + [Local(x, c.depth)] && d.pending == |c.locals|)
    ensures Names(d, env)
  {
  }

  lemma NamesAdd(c: Ctx, env: seq<Binding>, x: Name, v: Value, d: Ctx)
    requires Names(c, env) && c.pending == -2 && |c.locals| < MAX_LOCALS
    requires d.locals == c.locals + [Local(x, c.depth)] && d.pending == -2
    ensures Names(d, env + [Binding(x, v)])
  {
  }

  lemma {:induction false} SimInit(m: Sys, i: Init, c: Ctx, env: seq<Binding>, st: State, fuel: nat)
    returns (n: nat, st1: State)
    requires Linked(m) && PlacedInit(i) && GenInit(i, c).Some? && Fits(m, c, env, st)
    requires Ahead(m, st, GenInit(i, c).value)
    ensures Sim(m, st, c, GenInit(i, c).value,
                ExecInit(m.src, i, HereOf(c, st), env, st.w, fuel, |st.frames|), fuel, n, st1)
    decreases fuel, i, 1
  {
    hide RunM, Moved, Linked, GenVarDecl, GenEffect, ExecVarDecl, ExecEffect;
    match i
    case NoInit =>
      n, st1 := 0, st;
      Zero(m, st);
      Stay(m, st, env);
    case VarInit(x, e) => n, st1 := SimVarDecl(m, x, e, c, env, st, fuel);
    case ExprInit(e) => n, st1 := SimEffect(m, e, false, c, env, st, fuel);
  }

  ghost predicate StmtPre(m: Sys, s: Stmt, c: Ctx, env: seq<Binding>, st: State) {
    Placed(s) && NearStmt(s, c) && GenStmt(s, c).Some? && Fits(m, c, env, st) && Ahead(m, st, GenStmt(s, c).value)
  }

  lemma {:induction false} SimStmt(m: Sys, s: Stmt, c: Ctx, env: seq<Binding>, st: State, fuel: nat)
    returns (n: nat, st1: State)
    requires Linked(m) && StmtPre(m, s, c, env, st)
    ensures Sim(m, st, c, GenStmt(s, c).value,
                Exec(m.src, s, HereOf(c, st), env, st.w, fuel, |st.frames|), fuel, n, st1)
    decreases fuel, s, 1
  {
    hide NearStmt, NearLoop, NearDecls, RunM, Moved, Linked, Ready, Names, GenEffect, ExecEffect, GenLoop, ExecLoop, Fine, Next, StmtOk;
    match s
    case Print(e) => n, st1 := SimPrint(m, e, c, env, st, fuel);
    case ExprStmt(e) => n, st1 := SimEffect(m, e, false, c, env, st, fuel);
    case Block(_) => n, st1 := SimBlock(m, s, c, env, st, fuel);
    case If(_, _, _) => n, st1 := SimIf(m, s, c, env, st, fuel);
    case While(_, _) =>
      NearInner(s, c);
      n, st1 := SimLoop(m, s, c, env, st, fuel);
    case For(_, _, _, _) => n, st1 := SimFor(m, s, c, env, st, fuel);
    case Return(_) => n, st1 := SimReturn(m, s, c, env, st, fuel);
    case Sync(_) => n, st1 := SimSync(m, s, c, env, st, fuel);
  }

  /** The names visible before a scope are visible again after it. */
  lemma NamesScope(c: Ctx, d: Ctx, e: Ctx, env: seq<Binding>, env1: seq<Binding>)
    requires Names(c, env) && c.pending == -2 && Names(d, env1) && c.locals <= d.locals && d.pending == -2
    requires e.locals == c.locals && e.pending == c.pending
    ensures |env| <= |env1| && Names(e, Truncate(env1, |env|))
  {
  }

  lemma ScopeMoved(m: Sys, st: State, st1: State, pc: nat, env: seq<Binding>, res: seq<Value>, w: World, k: nat)
    requires Moved(m, st, st1, pc, env, res, w)
    ensures Moved(m, st, st1, pc, Truncate(env, k), res, w)
  {
  }

  /** Leaving a scope changes nothing in the machine. */
  lemma EndOfScope(m: Sys, st: State, pc: nat, c: Ctx, d: Ctx, env: seq<Binding>, r: StmtResult, fuel: nat, n: nat, st1: State)
    requires Names(c, env) && c.pending == -2 && c.locals <= d.locals && d.pending == -2 && c.depth + 1 == d.depth
    requires EndScope(d).locals == c.locals
    requires StmtOk(m, st, pc, d, r, c.held, fuel, n, st1)
    ensures StmtOk(m, st, pc, EndScope(d), Scoped(|env|, r), c.held, fuel, n, st1)
  {
    hide RunM, Moved, Names, Visible;
    if r.SNormal? {
      NamesScope(c, d, EndScope(d), env, r.env);
      ScopeMoved(m, st, st1, pc, r.env, r.residue, r.w, |env|);
    }
  }

  lemma {:induction false} SimBlock(m: Sys, s: Stmt, c: Ctx, env: seq<Binding>, st: State, fuel: nat)
    returns (n: nat, st1: State)
    requires s.Block? && Linked(m) && StmtPre(m, s, c, env, st)
    ensures Sim(m, st, c, GenStmt(s, c).value,
                Exec(m.src, s, HereOf(c, st), env, st.w, fuel, |st.frames|), fuel, n, st1)
    decreases fuel, s, 0
  {
    hide RunM, Moved, Linked, Next, StmtOk, GenFun, GenDecls, ExecDecls;
    var c1 := BeginScope(c);
    var o := GenDecls(s.body, c1).value;
    DeclsShape(s.body, c1);
    ScopeShape(c, o.c, SyncsIn(s.body), FunsIn(s.body));
    n, st1 := SimDecls(m, s.body, c1, env, st, fuel);
    EndOfScope(m, st, Top(st).pc + |o.code|, c, o.c, env,
               ExecDecls(m.src, s.body, HereOf(c1, st), env, st.w, fuel, |st.frames|), fuel, n, st1);
  }

  lemma {:induction false} SimDecl(m: Sys, d: Decl, c: Ctx, env: seq<Binding>, st: State, fuel: nat)
    returns (n: nat, st1: State)
    requires Linked(m) && PlacedDecl(d) && NearDecl(d, c) && GenDecl(d, c).Some? && Fits(m, c, env, st)
    requires Ahead(m, st, GenDecl(d, c).value)
    ensures Sim(m, st, c, GenDecl(d, c).value,
                ExecDecl(m.src, d, HereOf(c, st), env, st.w, fuel, |st.frames|), fuel, n, st1)
    decreases fuel, d, 1
  {
    hide RunM, Moved, Linked, Ready, Names, Fine, Next, StmtOk, GenStmt, Exec, GenFun, GenVarDecl, ExecVarDecl;
    match d
    case StmtDecl(s) => n, st1 := SimStmt(m, s, c, env, st, fuel);
    case VarDecl(x, e) => n, st1 := SimVarDecl(m, x, e, c, env, st, fuel);
    case FunDecl(f) => n, st1 := SimFunDecl(m, f, c, env, st, fuel);
  }

  /** What is compiled where a function is declared. */
  lemma FunDeclOut(f: Fun, c: Ctx)
    requires GenDecl(FunDecl(f), c).Some?
    ensures var o := GenDecl(FunDecl(f), c).value;
            && |c.consts| + 1 < 256 && o.c.consts == c.consts + [VStr(f.name), VFun(|c.funs|)]
            && o.code == [OP_CONSTANT, |c.consts| + 1] + (if c.depth == 0 then [OP_DEFINE_GLOBAL, |c.consts|] else [])
            && o.c.locals == c.locals && o.c.pending == c.pending
  {
    hide GenFun;
  }

  /** The function is the result of its declaration. */
  lemma FunDeclared(m: Sys, f: Fun, c: Ctx, env: seq<Binding>, st: State, fuel: nat)
    requires st.frames != []
    ensures ExecDecl(m.src, FunDecl(f), HereOf(c, st), env, st.w, fuel, |st.frames|) ==
            var v := VFun(|c.funs|);
            if c.depth == 0 then SNormal(env, [], Define(st.w, f.name, v)) else SNormal(env, [v], st.w)
  {
  }

  /** The value on the stack becomes a global. */
  lemma DefineTop(m: Sys, st: State, s: State, env: seq<Binding>, a: seq<Byte>, k: Byte, x: string, v: Value)
    requires st.frames != [] && s.frames != []
    requires Moved(m, st, s, Top(st).pc + |a|, env, [v], st.w) && Next(m, st, a + [OP_DEFINE_GLOBAL, k])
    requires k < |Current(m, st).consts| && Current(m, st).consts[k] == VStr(x)
    ensures var t := Goto(s, Top(st).pc + |a| + 2).(esp := s.esp - 1, w := Define(st.w, x, v));
            RunM(m, s, 1) == Running(t) && Moved(m, st, t, Top(st).pc + |a| + 2, env, [], Define(st.w, x, v))
  {
    hide RunM, Moved, Define;
    var pc := Top(st).pc + |a|;
    MovedFrames(m, st, s, pc, env, [v], st.w);
    MovedNext(m, st, s, env, [v], st.w, a, [OP_DEFINE_GLOBAL, k]);
    Popped(m, st, s, pc, pc + 2, env, v, st.w, Define(st.w, x, v));
    DoDefineGlobal(m, s, k, x);
  }

  lemma SimFunDecl(m: Sys, f: Fun, c: Ctx, env: seq<Binding>, st: State, fuel: nat) returns (n: nat, st1: State)
    requires Linked(m) && GenDecl(FunDecl(f), c).Some? && Fits(m, c, env, st)
    requires Ahead(m, st, GenDecl(FunDecl(f), c).value)
    ensures Sim(m, st, c, GenDecl(FunDecl(f), c).value,
                ExecDecl(m.src, FunDecl(f), HereOf(c, st), env, st.w, fuel, |st.frames|), fuel, n, st1)
  {
    hide RunM, Moved, Linked, Names, GenDecl, ExecDecl, Define, Next, Fine;
    FunDeclOut(f, c);
    FunDeclared(m, f, c, env, st, fuel);
    var o := GenDecl(FunDecl(f), c).value;
    var k: Byte, v := |c.consts| + 1, VFun(|c.funs|);
    var pc := Top(st).pc + 2;
    var rest: seq<Byte> := if c.depth == 0 then [OP_DEFINE_GLOBAL, |c.consts|] else [];
    NextSplit(m, st, [OP_CONSTANT, k], rest);
    assert Current(m, st).consts[|c.consts|] == o.c.consts[|c.consts|] == VStr(f.name);
    assert Current(m, st).consts[k] == o.c.consts[k] == v;
    DoConstant(m, st, k);
    PushMoved(m, st, pc, env, v);
    NamesGrow(c, o.c, env);
    n, st1 := 1, Push(Goto(st, pc), v);
    if c.depth == 0 {
      DefineTop(m, st, st1, env, [OP_CONSTANT, k], |c.consts|, f.name, v);
      Then(m, st, 1, st1, 1);
      n, st1 := 2, Goto(st1, pc + 2).(esp := st1.esp - 1, w := Define(st.w, f.name, v));
    }
  }

  lemma {:induction false} SimDecls(m: Sys, ds: seq<Decl>, c: Ctx, env: seq<Binding>, st: State, fuel: nat)
    returns (n: nat, st1: State)
    requires Linked(m) && PlacedDecls(ds) && NearDecls(ds, c) && GenDecls(ds, c).Some? && Fits(m, c, env, st)
    requires Ahead(m, st, GenDecls(ds, c).value)
    ensures Sim(m, st, c, GenDecls(ds, c).value,
                ExecDecls(m.src, ds, HereOf(c, st), env, st.w, fuel, |st.frames|), fuel, n, st1)
    decreases fuel, ds, 0
  {
    hide RunM, Moved, Linked, Ready, Names, Fine, GenFun, GenDecl, ExecDecl;
    if ds == [] {
      n, st1 := 0, st;
      Zero(m, st);
      Stay(m, st, env);
    } else {
      var o := GenDecl(ds[0], c).value;
      var p := GenDecls(ds[1..], o.c).value;
      DeclShape(ds[0], c);
      DeclsShape(ds[1..], o.c);
      NextSplit(m, st, o.code, p.code);
      n, st1 := SimDecl(m, ds[0], c, env, st, fuel);
      var r := ExecDecl(m.src, ds[0], HereOf(c, st), env, st.w, fuel, |st.frames|);
      if r.SNormal? {
        var s, n1 := st1, n;
        Rest(m, st, s, c, o.c, r.env, r.residue, r.w, o.code, p.code);
        n, st1 := SimDecls(m, ds[1..], o.c, r.env, s, fuel);
        var q := ExecDecls(m.src, ds[1..], HereOf(o.c, s), r.env, r.w, fuel, |st.frames|);
        assert HereOf(o.c, s) == After(HereOf(c, st), ds[0]);
        Compose(m, st, n1, s, Top(st).pc + |o.code|, r.env, r.residue, r.w, Top(st).pc + |o.code + p.code|, p.c, q, c.held,
                fuel, fuel, n, st1);
        n := n1 + n;
      }
    }
  }

  // ----- branches and loops -----

  /** The jumps of a statement are those of what it consists of. */
  lemma NearInner(s: Stmt, c: Ctx)
    requires NearStmt(s, c)
    ensures s.While? ==> NearLoop(s, c)
    ensures s.For? && GenInit(s.init, BeginScope(c)).Some? ==> NearLoop(s, GenInit(s.init, BeginScope(c)).value.c)
    ensures s.Sync? && c.nextMon < MAX_MONITORS_PER_FUNCTION ==> NearStmt(s.s, ProtectedCtx(c))
  {
    hide GenInit, NearLoop, NearDecls;
  }

  lemma NearBranches(s: Stmt, c: Ctx, o: Out, p: Out, q: Out)
    requires s.If? && NearStmt(s, c) && IfParts(s, c, o, p, q)
    ensures NearStmt(s.thn, o.c) && (s.els.Some? ==> NearStmt(s.els.value, p.c))
    ensures |p.code| + 3 < U16_LIMIT && |q.code| < U16_LIMIT
  {
    hide GenExpr, GenStmt;
  }

  lemma NearBody(s: Stmt, c: Ctx, o: Out, q: Out, r: Out)
    requires (s.While? || s.For?) && NearLoop(s, c) && LoopParts(s, c, o, q, r)
    ensures NearStmt(s.loopBody, q.c) && |o.code| + |r.code + q.code| + 6 < U16_LIMIT
  {
    hide GenExpr, GenStmt, GenIncr, NearStmt;
    LoopSize(o.code, r.code + q.code);
  }

  lemma Retarget(m: Sys, st: State, s: State, pc: nat, pc1: nat, env: seq<Binding>, res: seq<Value>, w: World)
    requires Moved(m, st, s, pc, env, res, w)
    ensures Moved(m, st, Goto(s, pc1), pc1, env, res, w) && Top(s).pc == pc
  {
  }

  /** A condition and the conditional jump behind it: pc is where the machine
      goes, with nothing left on the stack. */
  lemma {:induction false} SimCond(m: Sys, e: Expr, d: nat, c: Ctx, env: seq<Binding>, st: State, fuel: nat)
    returns (n: nat, st1: State)
    requires Linked(m) && Plain(e) && GenExpr(e, c).Some? && Names(c, env) && Ready(m, st, env) && d < U16_LIMIT
    requires Next(m, st, GenExpr(e, c).value.code + Jump(OP_JUMP_IF_FALSE, d))
    requires GenExpr(e, c).value.c.consts <= Current(m, st).consts
    ensures match Eval(m.src, e, env, st.w, fuel, |st.frames|)
            case EVal(v, w) =>
              var pc := Top(st).pc + |GenExpr(e, c).value.code| + 3 + if Truthy(v) then 0 else d;
              n > 0 && RunM(m, st, n) == Running(st1) && Moved(m, st, st1, pc, env, [], w)
            case EStop(why, w) => RunM(m, st, n) == Stopped(why, w)
            case EFuel(w) => n >= fuel && RunM(m, st, n).Running? && RunM(m, st, n).st.w == w
    decreases fuel, e, 2
  {
    hide RunM, Moved, Linked, Ready, Names, Truthy;
    var code := GenExpr(e, c).value.code;
    var jump := Jump(OP_JUMP_IF_FALSE, d);
    NextSplit(m, st, code, jump);
    n, st1 := SimExpr(m, e, c, env, st, fuel);
    var r := Eval(m.src, e, env, st.w, fuel, |st.frames|);
    if r.EVal? {
      var s, pc := st1, Top(st).pc + |code|;
      MovedNext(m, st, s, env, [r.v], r.w, code, jump);
      var pc1 := pc + 3 + if Truthy(r.v) then 0 else d;
      Popped(m, st, s, pc, pc1, env, r.v, r.w, r.w);
      MovedWorld(m, st, s, pc, env, [r.v], r.w);
      DoBranch(m, s, d);
      Then(m, st, n, s, 1);
      n, st1 := n + 1, Goto(s, pc1).(esp := s.esp - 1, w := r.w);
    }
  }

  /** The pieces of a compiled `if`. */
  ghost predicate IfParts(s: Stmt, c: Ctx, o: Out, p: Out, q: Out)
    requires s.If?
  {
    && GenExpr(s.cond, c) == Some(o) && GenStmt(s.thn, o.c) == Some(p)
    && (if s.els.Some? then GenStmt(s.els.value, p.c) == Some(q) else q == Out([], p.c))
  }

  function IfCode(o: Out, p: Out, q: Out): seq<Byte> {
    o.code + Jump(OP_JUMP_IF_FALSE, |p.code| + 3) + p.code + Jump(OP_JUMP, |q.code|) + q.code
  }

  lemma {:induction false} SimIf(m: Sys, s: Stmt, c: Ctx, env: seq<Binding>, st: State, fuel: nat)
    returns (n: nat, st1: State)
    requires s.If? && Linked(m) && StmtPre(m, s, c, env, st)
    ensures Sim(m, st, c, GenStmt(s, c).value,
                Exec(m.src, s, HereOf(c, st), env, st.w, fuel, |st.frames|), fuel, n, st1)
    decreases fuel, s, 0
  {
    hide NearStmt, NearLoop, NearDecls, RunM, Moved, Linked, Ready, Eval, Names, GenExpr, Fine, IfCode;
    var o := GenExpr(s.cond, c).value;
    var p := GenStmt(s.thn, o.c).value;
    var q := if s.els.Some? then GenStmt(s.els.value, p.c).value else Out([], p.c);
    assert GenStmt(s, c).value == Out(IfCode(o, p, q), q.c) by { IfCodeIs(s, c, o, p, q); }
    n, st1 := SimBranches(m, s, c, o, p, q, env, st, fuel);
  }

  lemma IfCodeIs(s: Stmt, c: Ctx, o: Out, p: Out, q: Out)
    requires s.If? && IfParts(s, c, o, p, q)
    ensures GenStmt(s, c) == Some(Out(IfCode(o, p, q), q.c))
  {
  }

  lemma {:induction false} SimBranches(m: Sys, s: Stmt, c: Ctx, o: Out, p: Out, q: Out, env: seq<Binding>, st: State, fuel: nat)
    returns (n: nat, st1: State)
    requires s.If? && Linked(m) && Placed(s) && NearStmt(s, c) && IfParts(s, c, o, p, q) && Fits(m, c, env, st)
    requires Ahead(m, st, Out(IfCode(o, p, q), q.c))
    ensures Sim(m, st, c, Out(IfCode(o, p, q), q.c),
                Exec(m.src, s, HereOf(c, st), env, st.w, fuel, |st.frames|), fuel, n, st1)
    decreases fuel, s, 0, 0
  {
    hide NearStmt, NearLoop, NearDecls, RunM, Moved, Linked, Ready, GenExpr, GenStmt, Eval, Names, Fine, Jump, Next, Truthy;
    var toElse := Jump(OP_JUMP_IF_FALSE, |p.code| + 3);
    var toEnd := Jump(OP_JUMP, |q.code|);
    var a, code := o.code + toElse, IfCode(o, p, q);
    assert |toElse| == |toEnd| == 3 by { JumpSize(OP_JUMP_IF_FALSE, |p.code| + 3); JumpSize(OP_JUMP, |q.code|); }
    NearBranches(s, c, o, p, q);
    assert code == a + (p.code + toEnd + q.code);
    assert code == (a + p.code + toEnd) + q.code;
    NextSplit(m, st, a, p.code + toEnd + q.code);
    IfTables(s, c, env, o, p, q);
    n, st1 := SimCond(m, s.cond, |p.code| + 3, c, env, st, fuel);
    var r := Eval(m.src, s.cond, env, st.w, fuel, |st.frames|);
    var end := Top(st).pc + |code|;
    if r.EVal? {
      if Truthy(r.v) {
        Rest(m, st, st1, c, o.c, env, [], r.w, a, p.code + toEnd + q.code);
        NextSplit(m, st1, p.code + toEnd, q.code);
        NextSplit(m, st1, p.code, toEnd);
        n, st1 := SimThen(m, s.thn, c, o, p, q, toEnd, env, st, n, st1, Top(st).pc + |a|, end, r.w, fuel);
      } else {
        Rest(m, st, st1, c, p.c, env, [], r.w, a + p.code + toEnd, q.code);
        if s.els.Some? {
          n, st1 := SimElse(m, s.els.value, c, p, q, env, st, n, st1, end, r.w, fuel);
        }
      }
    }
  }

  lemma JumpSize(op: Byte, d: nat)
    ensures |Jump(op, d)| == 3
  {
  }

  lemma {:induction false} SimElse(m: Sys, e: Stmt, c: Ctx, p: Out, q: Out, env: seq<Binding>,
                                   st: State, n1: nat, s1: State, end: nat, w: World, fuel: nat)
    returns (n: nat, st1: State)
    requires Linked(m) && Placed(e) && NearStmt(e, p.c) && GenStmt(e, p.c) == Some(q) && p.c.held == c.held && s1.frames != []
    requires RunM(m, st, n1) == Running(s1) && Moved(m, st, s1, Top(s1).pc, env, [], w)
    requires Fits(m, p.c, env, s1) && Ahead(m, s1, q) && end == Top(s1).pc + |q.code|
    ensures StmtOk(m, st, end, q.c, Exec(m.src, e, HereOf(p.c, s1), env, w, fuel, |s1.frames|), c.held, fuel, n, st1)
    decreases fuel, e, 2
  {
    hide NearStmt, NearLoop, NearDecls, RunM, Moved, Linked, Ready, GenStmt, Exec, Names, Fine;
    MovedFrames(m, st, s1, Top(s1).pc, env, [], w);
    n, st1 := SimStmt(m, e, p.c, env, s1, fuel);
    var x := Exec(m.src, e, HereOf(p.c, s1), env, w, fuel, |s1.frames|);
    Compose(m, st, n1, s1, Top(s1).pc, env, [], w, end, q.c, x, c.held, fuel, fuel, n, st1);
    n := n1 + n;
    PrependNothing(x);
  }

  lemma PrependNothing(r: StmtResult)
    ensures Prepend([], r) == r
  {
    if r.SNormal? {
      assert [] + r.residue == r.residue;
    }
  }

  /** The tables along the branches of an `if`. */
  lemma IfTables(s: Stmt, c: Ctx, env: seq<Binding>, o: Out, p: Out, q: Out)
    requires s.If? && Placed(s) && Fine(c) && Names(c, env)
    requires GenExpr(s.cond, c) == Some(o) && GenStmt(s.thn, o.c) == Some(p)
    requires if s.els.Some? then GenStmt(s.els.value, p.c) == Some(q) else q == Out([], p.c)
    ensures forall d | d == o.c || d == p.c || d == q.c ::
              Fine(d) && Names(d, env) && d.locals == c.locals && d.pending == c.pending
              && d.held == c.held && d.inFun == c.inFun && d.depth == c.depth
    ensures o.c.nextMon == c.nextMon && |o.c.funs| == |c.funs|
    ensures p.c.nextMon == c.nextMon + Syncs(s.thn) && |p.c.funs| == |c.funs| + |Funs(s.thn)|
    ensures o.c.consts <= p.c.consts <= q.c.consts && o.c.maxLocals <= p.c.maxLocals <= q.c.maxLocals
  {
    hide GenFun, GenExpr, GenStmt, Plain;
    PlainKeepsFlag(s.cond, c);
    StmtShape(s.thn, o.c);
    if s.els.Some? {
      StmtShape(s.els.value, p.c);
    }
  }

  /** The first branch of an `if`, and the jump over the other. */
  lemma {:induction false} SimThen(m: Sys, t: Stmt, c: Ctx, o: Out, p: Out, q: Out, toEnd: seq<Byte>, env: seq<Binding>,
                                   st: State, n1: nat, s1: State, pc: nat, end: nat, w: World, fuel: nat)
    returns (n: nat, st1: State)
    requires Linked(m) && Placed(t) && NearStmt(t, o.c) && GenStmt(t, o.c) == Some(p) && o.c.held == c.held && o.c.locals == q.c.locals
    requires RunM(m, st, n1) == Running(s1) && Moved(m, st, s1, pc, env, [], w)
    requires Fits(m, o.c, env, s1) && Ahead(m, s1, p) && p.c.locals == q.c.locals && p.c.pending == q.c.pending
    requires toEnd == Jump(OP_JUMP, |q.code|) && |q.code| < U16_LIMIT
    requires Next(m, s1, p.code + toEnd) && end == pc + |p.code| + 3 + |q.code|
    ensures StmtOk(m, st, end, q.c, Exec(m.src, t, HereOf(o.c, s1), env, w, fuel, |s1.frames|), c.held, fuel, n, st1)
    decreases fuel, t, 2
  {
    hide NearStmt, NearLoop, NearDecls, RunM, Moved, Linked, Ready, GenStmt, Exec, Names, Fine;
    assert s1.w == w && Top(s1).pc == pc && |s1.frames| == |st.frames| by { MovedFrames(m, st, s1, pc, env, [], w); }
    n, st1 := SimStmt(m, t, o.c, env, s1, fuel);
    var x := Exec(m.src, t, HereOf(o.c, s1), env, w, fuel, |s1.frames|);
    Compose(m, st, n1, s1, pc, env, [], w, pc + |p.code|, p.c, x, c.held, fuel, fuel, n, st1);
    n := n1 + n;
    PrependNothing(x);
    if x.SNormal? {
      var s2 := st1;
      assert Next(m, s2, toEnd) by { NextMoved(m, st, s1, s2, pc, env, x.env, [], x.residue, w, x.w, p.code, toEnd); }
      MovedFrames(m, st, s2, pc + |p.code|, x.env, x.residue, x.w);
      DoJump(m, s2, |q.code|);
      Then(m, st, n, s2, 1);
      Retarget(m, st, s2, pc + |p.code|, end, x.env, x.residue, x.w);
      NamesGrow(p.c, q.c, x.env);
      n, st1 := n + 1, Goto(s2, end);
    }
  }

  lemma NextMoved(m: Sys, st: State, s1: State, s2: State, pc: nat, env1: seq<Binding>, env2: seq<Binding>,
                  res1: seq<Value>, res2: seq<Value>, w1: World, w2: World, a: seq<Byte>, b: seq<Byte>)
    requires Moved(m, st, s1, pc, env1, res1, w1) && Moved(m, st, s2, pc + |a|, env2, res2, w2)
    requires Next(m, s1, a + b)
    ensures Next(m, s2, b) && Current(m, s2) == Current(m, s1)
  {
    AtSplit(Current(m, s1).code, pc, a, b);
  }

  /** The pieces of a loop: condition, increment, body. */
  ghost predicate LoopParts(s: Stmt, c: Ctx, o: Out, q: Out, r: Out)
    requires s.While? || s.For?
  {
    && GenExpr(s.cond, c) == Some(o)
    && (if s.For? then GenIncr(s.incr, o.c) == Some(q) else q == Out([], o.c))
    && GenStmt(s.loopBody, q.c) == Some(r)
  }

  lemma LoopCodeIs(s: Stmt, c: Ctx) returns (o: Out, q: Out, r: Out)
    requires (s.While? || s.For?) && GenLoop(s, c).Some?
    ensures LoopParts(s, c, o, q, r) && GenLoop(s, c) == Some(Out(LoopCode(o.code, r.code + q.code), r.c))
  {
    o := GenExpr(s.cond, c).value;
    q := if s.For? then GenIncr(s.incr, o.c).value else Out([], o.c);
    r := GenStmt(s.loopBody, q.c).value;
  }

  lemma LoopTables(s: Stmt, c: Ctx, o: Out, q: Out, r: Out)
    requires (s.While? || s.For?) && Placed(s) && Fine(c) && LoopParts(s, c, o, q, r)
    ensures forall d | d == o.c || d == q.c || d == r.c ::
              Fine(d) && d.locals == c.locals && d.pending == c.pending
              && d.held == c.held && d.inFun == c.inFun && d.depth == c.depth
    ensures q.c.nextMon == c.nextMon && |q.c.funs| == |c.funs|
    ensures o.c.consts <= q.c.consts <= r.c.consts && o.c.maxLocals <= q.c.maxLocals <= r.c.maxLocals
  {
    hide GenFun, GenExpr, GenStmt, Plain;
    PlainKeepsFlag(s.cond, c);
    if s.For? { EffectShape(s.incr, o.c); }
    StmtShape(s.loopBody, q.c);
  }

  lemma {:induction false} SimRound(m: Sys, s: Stmt, c: Ctx, o: Out, q: Out, r: Out, env: seq<Binding>, st: State, fuel: nat)
    returns (n: nat, st1: State)
    requires (s.While? || s.For?) && Linked(m) && Placed(s) && NearLoop(s, c) && Fine(c) && LoopParts(s, c, o, q, r)
    requires Fits(m, q.c, env, st) && Ahead(m, st, Out(r.code + q.code, r.c))
    ensures StmtOk(m, st, Top(st).pc + |r.code + q.code|, c,
                   ExecRound(m.src, s, HereOf(q.c, st), env, st.w, fuel, |st.frames|), c.held, fuel, n, st1)
    decreases fuel, s, 0, 0
  {
    hide NearStmt, NearLoop, NearDecls, RunM, Moved, Linked, Ready, GenExpr, GenStmt, Exec, Names, Fine, GenIncr, ExecEffect;
    LoopTables(s, c, o, q, r);
    NearBody(s, c, o, q, r);
    NextSplit(m, st, r.code, q.code);
    n, st1 := SimStmt(m, s.loopBody, q.c, env, st, fuel);
    var x := Exec(m.src, s.loopBody, HereOf(q.c, st), env, st.w, fuel, |st.frames|);
    if x.SNormal? {
      NamesGrow(r.c, c, x.env);
      NamesGrow(r.c, o.c, x.env);
      if s.For? {
        var n1, s1 := n, st1;
        Rest(m, st, s1, c, o.c, x.env, x.residue, x.w, r.code, q.code);
        n, st1 := SimEffect(m, s.incr, true, o.c, x.env, s1, fuel);
        var y := ExecEffect(m.src, s.incr, true, x.env, x.w, fuel, |st.frames|);
        Compose(m, st, n1, s1, Top(st).pc + |r.code|, x.env, x.residue, x.w, Top(st).pc + |r.code + q.code|, q.c, y, c.held,
                fuel, fuel, n, st1);
        n := n1 + n;
        if y.SNormal? { NamesGrow(q.c, c, y.env); }
      }
    }
  }

  /** How a loop lies before the machine. */
  lemma LoopLaid(m: Sys, st: State, s: Stmt, c: Ctx, o: Out, q: Out, r: Out)
    requires (s.While? || s.For?) && Placed(s) && NearLoop(s, c) && LoopParts(s, c, o, q, r)
    requires GenLoop(s, c) == Some(Out(LoopCode(o.code, r.code + q.code), r.c)) && Ahead(m, st, GenLoop(s, c).value)
    ensures var body := r.code + q.code;
            var jump, back := Jump(OP_JUMP_IF_FALSE, |body| + 3), Jump(OP_LOOP, |o.code| + |body| + 6);
            && |o.code| + |body| + 6 < U16_LIMIT && |jump| == 3 && |LoopCode(o.code, body)| == |o.code| + |body| + 6
            && Next(m, st, o.code + jump) && Next(m, st, (o.code + jump) + (body + back))
    ensures GenExpr(s.cond, c) == Some(o) && Plain(s.cond) && NearStmt(s.loopBody, q.c)
  {
    hide NearStmt, GenExpr, GenStmt, GenIncr, GenLoop, Jump, Next;
    var body := r.code + q.code;
    var jump, back := Jump(OP_JUMP_IF_FALSE, |body| + 3), Jump(OP_LOOP, |o.code| + |body| + 6);
    JumpSize(OP_LOOP, |o.code| + |body| + 6);
    JumpSize(OP_JUMP_IF_FALSE, |body| + 3);
    NearBody(s, c, o, q, r);
    assert LoopCode(o.code, body) == (o.code + jump) + (body + back);
    NextSplit(m, st, o.code + jump, body + back);
  }

  lemma {:induction false} SimLoop(m: Sys, s: Stmt, c: Ctx, env: seq<Binding>, st: State, fuel: nat)
    returns (n: nat, st1: State)
    requires (s.While? || s.For?) && Linked(m) && Placed(s) && NearLoop(s, c) && GenLoop(s, c).Some? && Fits(m, c, env, st)
    requires Ahead(m, st, GenLoop(s, c).value)
    ensures Sim(m, st, c, GenLoop(s, c).value,
                ExecLoop(m.src, s, HereOf(c, st), env, st.w, fuel, |st.frames|), fuel, n, st1)
    decreases fuel, s, 0, 2
  {
    hide NearStmt, NearLoop, NearDecls, RunM, Moved, Linked, Ready, Next, GenExpr, GenStmt, GenIncr, GenLoop, LoopCode, LoopParts,
         Names, Fine, Jump, ExecRound, Eval, Truthy;
    var o, q, r := LoopCodeIs(s, c);
    var body := r.code + q.code;
    var back, a := Jump(OP_LOOP, |o.code| + |body| + 6), o.code + Jump(OP_JUMP_IF_FALSE, |body| + 3);
    LoopTables(s, c, o, q, r);
    LoopLaid(m, st, s, c, o, q, r);
    n, st1 := SimCond(m, s.cond, |body| + 3, c, env, st, fuel);
    var v := Eval(m.src, s.cond, env, st.w, fuel, |st.frames|);
    NamesGrow(c, r.c, env);
    if v.EVal? && Truthy(v.v) {
      NamesGrow(c, q.c, env);
      Rest(m, st, st1, c, q.c, env, [], v.w, a, body + back);
      NextSplit(m, st1, body, back);
      n, st1 := SimRounds(m, s, c, o, q, r, back, env, st, n, st1, v.w, fuel);
    }
  }

  /** After the condition was true: a round, the jump back, and the loop again. */
  lemma {:induction false} SimRounds(m: Sys, s: Stmt, c: Ctx, o: Out, q: Out, r: Out, back: seq<Byte>, env: seq<Binding>,
                                     st: State, n1: nat, s1: State, w: World, fuel: nat) returns (n: nat, st1: State)
    requires (s.While? || s.For?) && Linked(m) && Placed(s) && NearLoop(s, c) && LoopParts(s, c, o, q, r) && Fits(m, c, env, st)
    requires GenLoop(s, c) == Some(Out(LoopCode(o.code, r.code + q.code), r.c)) && Ahead(m, st, GenLoop(s, c).value)
    requires back == Jump(OP_LOOP, |o.code| + |r.code + q.code| + 6) && |o.code| + |r.code + q.code| + 6 < U16_LIMIT
    requires n1 > 0 && RunM(m, st, n1) == Running(s1)
    requires Moved(m, st, s1, Top(st).pc + |o.code| + 3, env, [], w)
    requires Fits(m, q.c, env, s1) && Ahead(m, s1, Out(r.code + q.code, r.c))
    requires Next(m, s1, r.code + q.code + back)
    ensures StmtOk(m, st, Top(st).pc + |o.code| + |r.code + q.code| + 6, r.c,
                   match ExecRound(m.src, s, HereOf(q.c, s1), env, w, fuel, |st.frames|)
                   case SNormal(env2, res, w2) =>
                     if fuel == 0 then SFuel(w2)
                     else Prepend(res, ExecLoop(m.src, s, HereOf(c, st), env2, w2, fuel - 1, |st.frames|))
                   case x => x,
                   c.held, fuel, n, st1)
    decreases fuel, s, 0, 1
  {
    hide NearStmt, NearLoop, NearDecls, RunM, Moved, Linked, Ready, GenExpr, GenStmt, GenIncr, GenLoop, Names, Fine, Jump, ExecRound, ExecLoop, LoopCode;
    var body := r.code + q.code;
    var pc1 := Top(st).pc + |o.code| + 3;
    MovedFrames(m, st, s1, pc1, env, [], w);
    n, st1 := SimRound(m, s, c, o, q, r, env, s1, fuel);
    var x := ExecRound(m.src, s, HereOf(q.c, s1), env, w, fuel, |st.frames|);
    Compose(m, st, n1, s1, pc1, env, [], w, pc1 + |body|, c, x, c.held, fuel, fuel, n, st1);
    n := n1 + n;
    PrependNothing(x);
    if x.SNormal? {
      var s2 := st1;
      NextMoved(m, st, s1, s2, pc1, env, x.env, [], x.residue, w, x.w, body, back);
      MovedFrames(m, st, s2, pc1 + |body|, x.env, x.residue, x.w);
      DoLoop(m, s2, |o.code| + |body| + 6);
      Then(m, st, n, s2, 1);
      Retarget(m, st, s2, pc1 + |body|, Top(st).pc, x.env, x.residue, x.w);
      var s3 := Goto(s2, Top(st).pc);
      n, st1 := n + 1, s3;
      if fuel > 0 {
        var n3 := n;
        Again(m, st, s3, c, x.env, x.residue, x.w, GenLoop(s, c).value);
        n, st1 := SimLoop(m, s, c, x.env, s3, fuel - 1);
        var y := ExecLoop(m.src, s, HereOf(c, st), x.env, x.w, fuel - 1, |st.frames|);
        Compose(m, st, n3, s3, Top(st).pc, x.env, x.residue, x.w, Top(st).pc + |GenLoop(s, c).value.code|, r.c, y, c.held,
                fuel, fuel - 1, n, st1);
        n := n3 + n;
        LoopSize(o.code, body);
      }
    }
  }

  lemma LoopSize(cond: seq<Byte>, body: seq<Byte>)
    ensures |LoopCode(cond, body)| == |cond| + |body| + 6
  {
  }

  /** Back at the start of a loop. */
  lemma Again(m: Sys, st: State, s: State, c: Ctx, env: seq<Binding>, res: seq<Value>, w: World, o: Out)
    requires st.frames != [] && Moved(m, st, s, Top(st).pc, env, res, w) && Names(c, env) && Fine(c) && Ahead(m, st, o)
    requires c.inFun ==> |st.frames| >= 2 && Top(st).slots >= 0
    ensures Fits(m, c, env, s) && Ahead(m, s, o) && Top(s) == Top(st) && |s.frames| == |st.frames| && s.w == w
    ensures HereOf(c, s) == HereOf(c, st)
  {
  }

  lemma {:induction false} SimFor(m: Sys, s: Stmt, c: Ctx, env: seq<Binding>, st: State, fuel: nat)
    returns (n: nat, st1: State)
    requires s.For? && Linked(m) && StmtPre(m, s, c, env, st)
    ensures Sim(m, st, c, GenStmt(s, c).value,
                Exec(m.src, s, HereOf(c, st), env, st.w, fuel, |st.frames|), fuel, n, st1)
    decreases fuel, s, 0, 3
  {
    hide NearStmt, NearLoop, NearDecls, RunM, Moved, Linked, Ready, GenFun, GenInit, GenLoop, ExecLoop, ExecInit, Names;
    var c1 := BeginScope(c);
    var o := GenInit(s.init, c1).value;
    var p := GenLoop(s, o.c).value;
    ForTables(s, c, o, p);
    NamesGrow(c, c1, env);
    NextSplit(m, st, o.code, p.code);
    n, st1 := SimInit(m, s.init, c1, env, st, fuel);
    var x := ExecInit(m.src, s.init, HereOf(c1, st), env, st.w, fuel, |st.frames|);
    var r := x;
    if x.SNormal? {
      var s1, n1 := st1, n;
      Rest(m, st, s1, c, o.c, x.env, x.residue, x.w, o.code, p.code);
      NearInner(s, c);
      n, st1 := SimLoop(m, s, o.c, x.env, s1, fuel);
      var y := ExecLoop(m.src, s, HereOf(o.c, s1), x.env, x.w, fuel, |st.frames|);
      Compose(m, st, n1, s1, Top(st).pc + |o.code|, x.env, x.residue, x.w, Top(st).pc + |o.code + p.code|, p.c, y, c.held,
              fuel, fuel, n, st1);
      n := n1 + n;
      r := Prepend(x.residue, y);
    }
    EndOfScope(m, st, Top(st).pc + |o.code + p.code|, c, p.c, env, r, fuel, n, st1);
  }

  lemma ForTables(s: Stmt, c: Ctx, o: Out, p: Out)
    requires s.For? && Placed(s) && Fine(c) && GenInit(s.init, BeginScope(c)) == Some(o) && GenLoop(s, o.c) == Some(p)
    ensures Fine(o.c) && o.c.inFun == c.inFun && o.c.held == c.held && o.c.depth == c.depth + 1
    ensures o.c.nextMon == c.nextMon && |o.c.funs| == |c.funs|
    ensures o.c.consts <= p.c.consts && o.c.maxLocals <= p.c.maxLocals
    ensures EndScope(p.c).locals == c.locals && c.locals <= p.c.locals && p.c.pending == -2 && p.c.depth == c.depth + 1
  {
    hide GenFun, GenInit, GenLoop;
    InitShape(s.init, BeginScope(c));
    LoopShape(s, o.c);
    FollowsTrans(BeginScope(c), o.c, p.c, 0, Syncs(s.loopBody), [], Funs(s.loopBody));
    ScopeShape(c, p.c, Syncs(s.loopBody), [] + Funs(s.loopBody));
  }

  lemma {:induction false} SimReturn(m: Sys, s: Stmt, c: Ctx, env: seq<Binding>, st: State, fuel: nat)
    returns (n: nat, st1: State)
    requires s.Return? && Linked(m) && StmtPre(m, s, c, env, st)
    ensures Sim(m, st, c, GenStmt(s, c).value,
                Exec(m.src, s, HereOf(c, st), env, st.w, fuel, |st.frames|), fuel, n, st1)
    decreases fuel, s, 0
  {
    hide NearStmt, NearLoop, NearDecls, RunM, Moved, Linked, Ready, Names, GenExpr, Eval, ExitAll, ExitWorld;
    var exits := ExitAll(c.held);
    if s.value.Some? {
      var o := GenExpr(s.value.value, c).value;
      var tail := exits + [OP_RETURN];
      assert o.code + exits + [OP_RETURN] == o.code + tail;
      NextSplit(m, st, o.code, tail);
      n, st1 := SimExpr(m, s.value.value, c, env, st, fuel);
      var r := Eval(m.src, s.value.value, env, st.w, fuel, |st.frames|);
      if r.EVal? {
        MovedNext(m, st, st1, env, [r.v], r.w, o.code, tail);
        MovedWorld(m, st, st1, Top(st).pc + |o.code|, env, [r.v], r.w);
        n, st1 := SimExits(m, c.held, env, st, n, st1, Top(st).pc + |o.code|, [r.v], r.w, [OP_RETURN]);
        var pc := Top(st).pc + |o.code| + |exits|;
        var s2 := st1;
        st1 := ReturnMoved(m, st, s2, pc, env, r.v, ExitWorld(r.w, Top(st).fid, c.held));
        Then(m, st, n, s2, 1);
        n := n + 1;
      }
    } else {
      assert exits + [OP_NIL, OP_RETURN] == exits + ([OP_NIL] + [OP_RETURN]);
      Zero(m, st);
      Stay(m, st, env);
      n, st1 := SimExits(m, c.held, env, st, 0, st, Top(st).pc, [], st.w, [OP_NIL] + [OP_RETURN]);
      var s2, pc, w := st1, Top(st).pc + |exits|, ExitWorld(st.w, Top(st).fid, c.held);
      MovedWorld(m, st, s2, pc, env, [], w);
      NextSplit(m, s2, [OP_NIL], [OP_RETURN]);
      st1 := SimNil(m, st, s2, pc, env, w, [OP_RETURN]);
      Then(m, st, n, s2, 1);
      n := n + 1;
      var s3 := st1;
      st1 := ReturnMoved(m, st, s3, pc + 1, env, VNil, w);
      Then(m, st, n, s3, 1);
      n := n + 1;
    }
  }

  lemma SimNil(m: Sys, st: State, s: State, pc: nat, env: seq<Binding>, w: World, rest: seq<Byte>) returns (st1: State)
    requires Moved(m, st, s, pc, env, [], w) && Next(m, s, [OP_NIL] + rest)
    ensures RunM(m, s, 1) == Running(st1) && Moved(m, st, st1, pc + 1, env, [VNil], w) && Next(m, st1, rest)
  {
    hide RunM;
    NextSplit(m, s, [OP_NIL], rest);
    assert LitCode(LNil) == [OP_NIL];
    DoLit(m, s, LNil);
    st1 := Push(Behind(s, 1), VNil);
    PushMoved(m, s, pc + 1, env, VNil);
    MovedTrans(m, st, s, st1, pc, pc + 1, env, env, [], [VNil], w, w);
    assert [] + [VNil] == [VNil];
    MovedNext(m, s, st1, env, [VNil], w, [OP_NIL], rest);
  }

  /** The exits of a return statement, with some operands on the stack. */
  lemma SimExits(m: Sys, held: seq<Byte>, env: seq<Binding>, st: State, n1: nat, s: State, pc: nat, res: seq<Value>, w: World,
                 rest: seq<Byte>) returns (n: nat, st1: State)
    requires RunM(m, st, n1) == Running(s) && Moved(m, st, s, pc, env, res, w)
    requires Next(m, s, ExitAll(held) + rest)
    ensures RunM(m, st, n) == Running(st1)
    ensures Moved(m, st, st1, pc + |ExitAll(held)|, env, res, ExitWorld(w, Top(st).fid, held)) && Next(m, st1, rest)
  {
    hide RunM, ExitAll, ExitWorld;
    NextSplit(m, s, ExitAll(held), rest);
    n, st1 := SimExitAll(m, s, held, env);
    Then(m, st, n1, s, n);
    n := n1 + n;
    MovedTrans(m, st, s, st1, pc, pc + |ExitAll(held)|, env, env, res, [], w, ExitWorld(w, Top(st).fid, held));
    assert res + [] == res;
    MovedNext(m, s, st1, env, [], ExitWorld(w, Top(st).fid, held), ExitAll(held), rest);
  }

  lemma ReturnMoved(m: Sys, st: State, s: State, pc: nat, env: seq<Binding>, v: Value, w: World) returns (st1: State)
    requires Moved(m, st, s, pc, env, [v], w) && Next(m, s, [OP_RETURN])
    requires |st.frames| >= 2 && Top(st).slots >= 0
    ensures RunM(m, s, 1) == Running(st1) && Gone(st, st1, v, w)
  {
    hide RunM;
    DoReturn(m, s);
    assert s.mem[st.esp + 0] == [v][0];
    st1 := ReturnStep(Behind(s, 1)).st;
  }

  // ----- monitors -----

  lemma EnterMoved(m: Sys, st: State, mon: Byte, env: seq<Binding>) returns (s: State)
    requires Ready(m, st, env) && Next(m, st, [OP_ENTER_MONITOR, mon])
    requires (Top(st).fid, mon as nat) !in st.w.held
    ensures RunM(m, st, 1) == Running(s)
    ensures Moved(m, st, s, Top(st).pc + 2, env, [], Enter(st.w, Top(st).fid, mon))
  {
    hide RunM, Enter;
    DoEnter(m, st, mon);
    s := Behind(st, 2).(w := Enter(st.w, Top(st).fid, mon));
  }

  lemma ExitMoved(m: Sys, st: State, s: State, pc: nat, env: seq<Binding>, res: seq<Value>, w: World, mon: Byte)
    returns (st1: State)
    requires Moved(m, st, s, pc, env, res, w) && Next(m, s, [OP_EXIT_MONITOR, mon])
    ensures RunM(m, s, 1) == Running(st1)
    ensures Moved(m, st, st1, pc + 2, env, res, Exit(w, Top(st).fid, mon))
  {
    hide RunM, Exit;
    DoExit(m, s, mon);
    st1 := Behind(s, 2).(w := Exit(s.w, Top(s).fid, mon));
  }

  /** The exit at the end of a protected statement; a return has done it already. */
  lemma SimLeave(m: Sys, st: State, n1: nat, s: State, pc: nat, c: Ctx, d: Ctx, r: StmtResult, held: seq<Byte>, mon: Byte,
                 fuel: nat) returns (n: nat, st1: State)
    requires st.frames != [] && StmtOk(m, st, pc, c, r, held + [mon], fuel, n1, s)
    requires r.SNormal? ==> Next(m, s, [OP_EXIT_MONITOR, mon])
    requires d.locals == c.locals && d.pending == c.pending
    ensures StmtOk(m, st, pc + 2, d, Leave(Top(st).fid, mon, r), held, fuel, n, st1)
    ensures r.SNormal? ==> n > n1
  {
    hide RunM, Moved, Gone, Exit, Names;
    n, st1 := n1, s;
    if r.SNormal? {
      st1 := ExitMoved(m, st, s, pc, r.env, r.residue, r.w, mon);
      Then(m, st, n1, s, 1);
      n := n1 + 1;
      NamesGrow(c, d, r.env);
    } else if r.SRet? {
      assert (held + [mon])[..|held|] == held;
    }
  }

  function ProtectedCtx(c: Ctx): Ctx
    requires c.nextMon < 256
  {
    c.(nextMon := c.nextMon + 1, held := c.held + [c.nextMon])
  }

  lemma SyncParts(b: Stmt, c: Ctx) returns (o: Out)
    requires GenStmt(Sync(b), c).Some?
    ensures c.nextMon < MAX_MONITORS_PER_FUNCTION && c.inFun && GenStmt(b, ProtectedCtx(c)) == Some(o)
    ensures GenStmt(Sync(b), c).value
         == Out([OP_ENTER_MONITOR, c.nextMon] + o.code + [OP_EXIT_MONITOR, c.nextMon], o.c.(held := c.held))
  {
    o := GenStmt(b, ProtectedCtx(c)).value;
  }

  lemma ExecSyncIs(src: Source, b: Stmt, h: Here, env: seq<Binding>, w: World, fuel: nat, depth: nat)
    ensures Exec(src, Sync(b), h, env, w, fuel, depth)
         == if (h.fid, h.mon) in w.held then SStop(Deadlock, w)
            else Leave(h.fid, h.mon, Exec(src, b, h.(mon := h.mon + 1), env, Enter(w, h.fid, h.mon), fuel, depth))
  {
  }

  lemma {:induction false} SimSync(m: Sys, s: Stmt, c: Ctx, env: seq<Binding>, st: State, fuel: nat)
    returns (n: nat, st1: State)
    requires s.Sync? && Linked(m) && StmtPre(m, s, c, env, st)
    ensures Sim(m, st, c, GenStmt(s, c).value,
                Exec(m.src, s, HereOf(c, st), env, st.w, fuel, |st.frames|), fuel, n, st1)
    decreases fuel, s, 0
  {
    hide NearStmt, NearLoop, NearDecls, RunM, Moved, Linked, Names, Leave, GenStmt, Exec, Enter, StmtOk, Holds, Fine, At;
    var o := SyncParts(s.s, c);
    var enter, exit := [OP_ENTER_MONITOR, c.nextMon], [OP_EXIT_MONITOR, c.nextMon];
    assert enter + o.code + exit == enter + (o.code + exit);
    ExecSyncIs(m.src, s.s, HereOf(c, st), env, st.w, fuel, |st.frames|);
    if (Top(st).fid, c.nextMon) in st.w.held {
      n, st1 := 1, st;
      SimDeadlock(m, st, c.nextMon, o.code + exit, Top(st).pc + |GenStmt(s, c).value.code|, GenStmt(s, c).value.c, c.held, fuel);
    } else {
      NearInner(s, c);
      n, st1 := SimProtected(m, s.s, c, o, env, st, fuel);
    }
  }

  lemma SimDeadlock(m: Sys, st: State, mon: Byte, rest: seq<Byte>, pc: nat, c: Ctx, held: seq<Byte>, fuel: nat)
    requires Valid(st) && Next(m, st, [OP_ENTER_MONITOR, mon] + rest) && (Top(st).fid, mon as nat) in st.w.held
    ensures StmtOk(m, st, pc, c, SStop(Deadlock, st.w), held, fuel, 1, st)
  {
    hide RunM;
    NextSplit(m, st, [OP_ENTER_MONITOR, mon], rest);
    DoEnter(m, st, mon);
  }

  lemma {:induction false} SimProtected(m: Sys, b: Stmt, c: Ctx, o: Out, env: seq<Binding>, st: State, fuel: nat)
    returns (n: nat, st1: State)
    requires Linked(m) && Placed(b) && Fits(m, c, env, st) && c.inFun && c.nextMon < MAX_MONITORS_PER_FUNCTION
    requires NearStmt(b, ProtectedCtx(c))
    requires GenStmt(b, ProtectedCtx(c)) == Some(o)
    requires Next(m, st, [OP_ENTER_MONITOR, c.nextMon] + (o.code + [OP_EXIT_MONITOR, c.nextMon]))
    requires o.c.consts <= Current(m, st).consts && o.c.maxLocals <= Current(m, st).nLocals
    requires (Top(st).fid, c.nextMon) !in st.w.held
    ensures var h := HereOf(c, st);
            StmtOk(m, st, Top(st).pc + 2 + |o.code| + 2, o.c.(held := c.held),
                   Leave(h.fid, h.mon, Exec(m.src, b, h.(mon := h.mon + 1), env, Enter(st.w, h.fid, h.mon), fuel, |st.frames|)),
                   c.held, fuel, n, st1)
    decreases fuel, b, 2
  {
    hide NearStmt, NearLoop, NearDecls, RunM, Moved, Linked, Ready, Leave, GenStmt, GenFun, Exec, Enter, StmtOk;
    var mon: Byte := c.nextMon;
    var c1 := ProtectedCtx(c);
    var enter, exit := [OP_ENTER_MONITOR, mon], [OP_EXIT_MONITOR, mon];
    NextSplit(m, st, enter, o.code + exit);
    var s1 := EnterMoved(m, st, mon, env);
    var w1 := Enter(st.w, Top(st).fid, mon);
    var pc := Top(st).pc + 2;
    Rest(m, st, s1, c, c1, env, [], w1, enter, o.code + exit);
    NextSplit(m, s1, o.code, exit);
    n, st1 := SimStmt(m, b, c1, env, s1, fuel);
    var x := Exec(m.src, b, HereOf(c1, s1), env, w1, fuel, |st.frames|);
    Compose(m, st, 1, s1, pc, env, [], w1, pc + |o.code|, o.c, x, c1.held, fuel, fuel, n, st1);
    n := 1 + n;
    PrependNothing(x);
    if x.SNormal? {
      NormalNext(m, st, s1, st1, pc, env, w1, o, x, c1.held, fuel, n, exit);
    }
    n, st1 := SimLeave(m, st, n, st1, pc + |o.code|, o.c, o.c.(held := c.held), x, c.held, mon, fuel);
  }

  lemma NormalNext(m: Sys, st: State, s1: State, s2: State, pc: nat, env: seq<Binding>, w: World, o: Out, x: StmtResult,
                   held: seq<Byte>, fuel: nat, n: nat, rest: seq<Byte>)
    requires Moved(m, st, s1, pc, env, [], w) && Next(m, s1, o.code + rest) && x.SNormal?
    requires StmtOk(m, st, pc + |o.code|, o.c, x, held, fuel, n, s2)
    ensures Next(m, s2, rest)
  {
    hide RunM, Moved;
    NextMoved(m, st, s1, s2, pc, env, x.env, [], x.residue, w, x.w, o.code, rest);
  }

  // ----- functions -----

  lemma {:induction false} SimFun(m: Sys, k: nat, vs: seq<Value>, st: State, fuel: nat) returns (n: nat, st1: State)
    requires Linked(m) && k < |m.src.funs| && |m.src.funs[k].params| == |vs|
    requires Valid(st) && |st.frames| >= 2 && Top(st) == Frame(k + 1, 0, Top(st).slots) && Top(st).slots >= 0
    requires st.esp == Base(m, st) && Top(st).slots + 1 + |vs| <= |st.mem|
    requires forall i | 0 <= i < |vs| :: st.mem[Top(st).slots + 1 + i] == vs[i]
    ensures match CallFun(m.src, k, vs, st.w, fuel, |st.frames|)
            case EVal(v, w) => RunM(m, st, n) == Running(st1) && Gone(st, st1, v, w)
            case EStop(why, w) => RunM(m, st, n) == Stopped(why, w)
            case EFuel(w) => n >= fuel && RunM(m, st, n).Running? && RunM(m, st, n).st.w == w
    decreases fuel, m.src.funs[k], 1
  {
    hide RunM, Moved, Linked, Gone, GenDecls, GenParams, ExecDecls, PlacedDecls, Enter, Leave;
    var f := m.src.funs[k];
    var c, o := FunTables(m, k);
    var env := Bind(f.params, vs);
    var code := m.p.funs[k].code;
    var tail := [OP_NIL, OP_RETURN, OP_EOF];
    CompiledFun(m, k);
    FunFits(m, k, vs, st, c, o);
    assert At(code, 0, code) by { assert code[0..0 + |code|] == code; }
    if !f.synced {
      assert code == o.code + tail by { assert [] + o.code + [] + tail == o.code + tail; }
      n, st1 := SimBody(m, f, c, o, env, st, tail, fuel);
    } else {
      var enter, exit := [OP_ENTER_MONITOR, 0], [OP_EXIT_MONITOR, 0];
      assert code == enter + (o.code + (exit + tail)) by {
        assert enter + o.code + exit + tail == enter + (o.code + (exit + tail));
      }
      NextSplit(m, st, enter, o.code + (exit + tail));
      DoEnter(m, st, 0);
      n, st1 := 1, st;
      if (k + 1, 0) !in st.w.held {
        var s1 := EnterMoved(m, st, 0, env);
        var w1 := Enter(st.w, k + 1, 0);
        Rest(m, st, s1, c, c, env, [], w1, enter, o.code + (exit + tail));
        n, st1 := SimSyncBody(m, f, c, o, env, st, s1, exit, tail, fuel);
      }
    }
  }

  lemma FunTables(m: Sys, k: nat) returns (c: Ctx, o: Out)
    requires Linked(m) && k < |m.src.funs|
    ensures var f := m.src.funs[k];
            var p := GenParams(f.params, StartCtx(true, []));
            p.Some? && c == EnterMain(f.synced, p.value) && GenDecls(f.body, c) == Some(o)
            && k < |m.p.funs|
            && m.p.funs[k] == FunObj(FunCode(f.synced, o.code), o.c.consts, |f.params|, o.c.maxLocals)
  {
    hide GenDecls, GenParams, PlacedDecls;
    var f := m.src.funs[k];
    c := EnterMain(f.synced, GenParams(f.params, StartCtx(true, [])).value);
    o := GenDecls(f.body, c).value;
  }

  /** A function starts with its arguments bound to its parameters. */
  lemma FunFits(m: Sys, k: nat, vs: seq<Value>, st: State, c: Ctx, o: Out)
    requires Linked(m) && k < |m.src.funs| && k < |m.p.funs| && |m.src.funs[k].params| == |vs|
    requires Valid(st) && |st.frames| >= 2 && Top(st) == Frame(k + 1, 0, Top(st).slots) && Top(st).slots >= 0
    requires st.esp == Base(m, st) && Top(st).slots + 1 + |vs| <= |st.mem|
    requires forall i | 0 <= i < |vs| :: st.mem[Top(st).slots + 1 + i] == vs[i]
    requires GenParams(m.src.funs[k].params, StartCtx(true, [])).Some?
    requires c == EnterMain(m.src.funs[k].synced, GenParams(m.src.funs[k].params, StartCtx(true, [])).value)
    requires GenDecls(m.src.funs[k].body, c) == Some(o) && m.p.funs[k].nLocals == o.c.maxLocals
    ensures Fits(m, c, Bind(m.src.funs[k].params, vs), st) && c.inFun && c.depth == 1 && c.funs == []
    ensures c.nextMon == (if m.src.funs[k].synced then 1 else 0) && c.held == (if m.src.funs[k].synced then [0] else [])
  {
    hide GenDecls, GenFun, PlacedDecls;
    ParamsShape(m.src.funs[k].params, StartCtx(true, []));
    assert m.p.funs[k].nLocals >= |vs| by { CompiledFun(m, k); }
  }

  /** The body of a function and the return of nil behind it. */
  lemma {:induction false} SimBody(m: Sys, f: Fun, c: Ctx, o: Out, env: seq<Binding>, st: State, tail: seq<Byte>, fuel: nat)
    returns (n: nat, st1: State)
    requires Linked(m) && PlacedDecls(f.body) && NearDecls(f.body, c) && GenDecls(f.body, c) == Some(o) && Fits(m, c, env, st)
    requires c.inFun && c.held == [] && tail == [OP_NIL, OP_RETURN, OP_EOF]
    requires Next(m, st, o.code + tail) && o.c.consts <= Current(m, st).consts && o.c.maxLocals <= Current(m, st).nLocals
    ensures match Returned(ExecDecls(m.src, f.body, HereOf(c, st), env, st.w, fuel, |st.frames|))
            case EVal(v, w) => RunM(m, st, n) == Running(st1) && Gone(st, st1, v, w)
            case EStop(why, w) => RunM(m, st, n) == Stopped(why, w)
            case EFuel(w) => n >= fuel && RunM(m, st, n).Running? && RunM(m, st, n).st.w == w
    decreases fuel, f, 0
  {
    hide NearStmt, NearLoop, NearDecls, RunM, Moved, Linked, Gone, GenDecls, ExecDecls, PlacedDecls, Ready;
    NextSplit(m, st, o.code, tail);
    n, st1 := SimDecls(m, f.body, c, env, st, fuel);
    var x := ExecDecls(m.src, f.body, HereOf(c, st), env, st.w, fuel, |st.frames|);
    if x.SNormal? {
      MovedNext(m, st, st1, x.env, x.residue, x.w, o.code, tail);
    }
    n, st1 := SimTail(m, st, n, st1, Top(st).pc + |o.code|, o.c, x, fuel, tail);
  }

  /** What follows a function's body returns nil, whatever is left on the stack. */
  lemma SimTail(m: Sys, st: State, n1: nat, s: State, pc: nat, c: Ctx, r: StmtResult, fuel: nat, tail: seq<Byte>)
    returns (n: nat, st1: State)
    requires StmtOk(m, st, pc, c, r, [], fuel, n1, s) && st.frames != [] && tail == [OP_NIL, OP_RETURN, OP_EOF]
    requires r.SNormal? ==> Next(m, s, tail) && |st.frames| >= 2 && Top(st).slots >= 0
    ensures match Returned(r)
            case EVal(v, w) => RunM(m, st, n) == Running(st1) && Gone(st, st1, v, w)
            case EStop(why, w) => RunM(m, st, n) == Stopped(why, w)
            case EFuel(w) => n >= fuel && RunM(m, st, n).Running? && RunM(m, st, n).st.w == w
  {
    hide RunM, Moved, Gone;
    n, st1 := n1, s;
    if r.SNormal? {
      var rest := [OP_RETURN] + [OP_EOF];
      assert tail == [OP_NIL] + rest;
      MovedWorld(m, st, s, pc, r.env, r.residue, r.w);
      Settle(m, st, s, pc, r.env, r.residue, r.w);
      var s1 := SimNil(m, s, s, pc, r.env, r.w, rest);
      Then(m, st, n1, s, 1);
      NextSplit(m, s1, [OP_RETURN], [OP_EOF]);
      st1 := ReturnMoved(m, s, s1, pc + 1, r.env, VNil, r.w);
      Then(m, st, n1 + 1, s1, 1);
      n := n1 + 2;
      GoneTrans(m, st, s, st1, pc, r.env, r.residue, r.w, VNil, r.w);
    }
  }

  lemma Settle(m: Sys, st: State, s: State, pc: nat, env: seq<Binding>, res: seq<Value>, w: World)
    requires Moved(m, st, s, pc, env, res, w)
    ensures Moved(m, s, s, pc, env, [], w) && |s.frames| == |st.frames| && Top(s).slots == Top(st).slots
  {
    assert s.frames == Goto(s, Top(s).pc).frames;
  }

  lemma GoneTrans(m: Sys, st: State, s: State, t: State, pc: nat, env: seq<Binding>, res: seq<Value>, w: World, v: Value, w1: World)
    requires Moved(m, st, s, pc, env, res, w) && Gone(s, t, v, w1)
    ensures Gone(st, t, v, w1)
  {
  }

  lemma AfterExit(m: Sys, st: State, n1: nat, s: State, n: nat, st1: State, pc: nat, c: Ctx, x: StmtResult, held: seq<Byte>,
                  fuel: nat, exit: seq<Byte>, tail: seq<Byte>)
    requires st.frames != [] && x.SNormal? && |exit| == 2 && Next(m, s, exit + tail)
    requires StmtOk(m, st, pc, c, x, held, fuel, n1, s)
    requires StmtOk(m, st, pc + 2, c, Leave(Top(st).fid, 0, x), [], fuel, n, st1)
    ensures Next(m, st1, tail)
  {
    hide RunM, Moved;
    NextMoved(m, st, s, st1, pc, x.env, x.env, x.residue, x.residue, x.w, Exit(x.w, Top(st).fid, 0), exit, tail);
  }

  lemma {:induction false} SimSyncBody(m: Sys, f: Fun, c: Ctx, o: Out, env: seq<Binding>, st: State, s1: State,
                                       exit: seq<Byte>, tail: seq<Byte>, fuel: nat) returns (n: nat, st1: State)
    requires Linked(m) && PlacedDecls(f.body) && NearDecls(f.body, c) && GenDecls(f.body, c) == Some(o) && st.frames != []
    requires RunM(m, st, 1) == Running(s1) && Moved(m, st, s1, Top(st).pc + 2, env, [], s1.w) && Fits(m, c, env, s1)
    requires |st.frames| >= 2 && Top(st).slots >= 0
    requires c.inFun && c.held == [0] && exit == [OP_EXIT_MONITOR, 0] && tail == [OP_NIL, OP_RETURN, OP_EOF]
    requires Next(m, s1, o.code + (exit + tail))
    requires o.c.consts <= Current(m, s1).consts && o.c.maxLocals <= Current(m, s1).nLocals
    ensures match Returned(Leave(Top(st).fid, 0, ExecDecls(m.src, f.body, HereOf(c, s1), env, s1.w, fuel, |st.frames|)))
            case EVal(v, w) => RunM(m, st, n) == Running(st1) && Gone(st, st1, v, w)
            case EStop(why, w) => RunM(m, st, n) == Stopped(why, w)
            case EFuel(w) => n >= fuel && RunM(m, st, n).Running? && RunM(m, st, n).st.w == w
    decreases fuel, f, 0
  {
    hide NearStmt, NearLoop, NearDecls, NearStmt, NearLoop, NearDecls, RunM, Moved, Linked, Gone, GenDecls, ExecDecls, PlacedDecls, Ready, StmtOk, Names, Fine;
    assert [] + [0] == c.held;
    var pc := Top(st).pc + 2;
    MovedFrames(m, st, s1, pc, env, [], s1.w);
    NextSplit(m, s1, o.code, exit + tail);
    n, st1 := SimDecls(m, f.body, c, env, s1, fuel);
    var x := ExecDecls(m.src, f.body, HereOf(c, s1), env, s1.w, fuel, |st.frames|);
    Compose(m, st, 1, s1, pc, env, [], s1.w, pc + |o.code|, o.c, x, c.held, fuel, fuel, n, st1);
    n := 1 + n;
    PrependNothing(x);
    var s2, n2 := st1, n;
    if x.SNormal? {
      NormalNext(m, st, s1, s2, pc, env, s1.w, o, x, c.held, fuel, n, exit + tail);
      NextSplit(m, s2, exit, tail);
    }
    n, st1 := SimLeave(m, st, n, s2, pc + |o.code|, o.c, o.c, x, [], 0, fuel);
    if x.SNormal? {
      AfterExit(m, st, n2, s2, n, st1, pc + |o.code|, o.c, x, c.held, fuel, exit, tail);
    }
    n, st1 := SimTail(m, st, n, st1, pc + |o.code| + 2, o.c, Leave(Top(st).fid, 0, x), fuel, tail);
  }
}
