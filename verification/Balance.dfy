// Monitors are entered and left like brackets, on every path and in every run.
module Balance {
  import opened Wrappers
  import opened Bytecode
  import opened Syntax
  import opened CodeGen
  import opened Semantics
  import opened Machine
  import opened Shape
  import opened SimBase
  import opened Correctness

  type Mon = (nat, nat)

  /** The monitors open after a trace, outermost first; None if one was left out
      of turn or entered while it was open. */
  function Open(trace: seq<Event>): Option<seq<Mon>>
    decreases |trace|
  {
    if trace == [] then Some([])
    else
      var open :- Open(trace[..|trace| - 1]);
      match trace[|trace| - 1]
      case Printed(_) => Some(open)
      case Entered(f, m) => if (f, m) in open then None else Some(open + [(f, m)])
      case Exited(f, m) => if open != [] && open[|open| - 1] == (f, m) then Some(open[..|open| - 1]) else None
  }

  /** The trace left exactly `open` open, and these are the monitors held. */
  ghost predicate Lifo(w: World, open: seq<Mon>) {
    && Open(w.trace) == Some(open)
    && (forall x :: x in w.held <==> x in open)
    && forall i, j | 0 <= i < j < |open| :: open[i] != open[j]
  }

  ghost predicate Above(w: World, open: seq<Mon>) {
    exists more: seq<Mon> :: Lifo(w, open + more)
  }

  lemma SameAbove(w: World, open: seq<Mon>)
    requires Lifo(w, open)
    ensures Above(w, open)
  {
    assert open + [] == open;
  }

  lemma AboveInner(w: World, open: seq<Mon>, x: Mon)
    requires Above(w, open + [x])
    ensures Above(w, open)
  {
    var more :| Lifo(w, open + [x] + more);
    assert open + [x] + more == open + ([x] + more);
  }

  lemma EmitLifo(w: World, v: Value, open: seq<Mon>)
    requires Lifo(w, open)
    ensures Lifo(Emit(w, v), open)
  {
    assert Emit(w, v).trace[..|w.trace|] == w.trace;
  }

  lemma EnterLifo(w: World, f: nat, m: nat, open: seq<Mon>)
    requires Lifo(w, open) && (f, m) !in w.held
    ensures Lifo(Enter(w, f, m), open + [(f, m)])
  {
    assert Enter(w, f, m).trace[..|w.trace|] == w.trace;
  }

  lemma ExitLifo(w: World, f: nat, m: nat, open: seq<Mon>)
    requires Lifo(w, open + [(f, m)])
    ensures Lifo(Exit(w, f, m), open)
  {
    var all := open + [(f, m)];
    assert Exit(w, f, m).trace[..|w.trace|] == w.trace;
    assert all[..|all| - 1] == open;
    forall x ensures x in Exit(w, f, m).held <==> x in open {
      if x in open {
        var i :| 0 <= i < |open| && open[i] == x;
        assert all[i] == x && all[|open|] == (f, m);
      }
    }
  }

  ghost predicate ExprBalanced(r: ExprResult, open: seq<Mon>) {
    match r
    case EVal(_, w) => Lifo(w, open)
    case EStop(_, w) => Above(w, open)
    case EFuel(w) => Above(w, open)
  }

  ghost predicate StmtBalanced(r: StmtResult, open: seq<Mon>) {
    match r
    case SNormal(_, _, w) => Lifo(w, open)
    case SRet(_, w) => Lifo(w, open)
    case SStop(_, w) => Above(w, open)
    case SFuel(w) => Above(w, open)
  }

  lemma {:induction false} BalEval(p: Source, e: Expr, env: seq<Binding>, w: World, fuel: nat, depth: nat, open: seq<Mon>)
    requires Lifo(w, open)
    ensures ExprBalanced(Eval(p, e, env, w, fuel, depth), open)
    decreases fuel, e, 1
  {
    hide Lifo, Above, Apply, ApplyUnary, CallFun;
    SameAbove(w, open);
    match e
    case Unary(_, a) =>
      BalEval(p, a, env, w, fuel, depth, open);
      var r := Eval(p, a, env, w, fuel, depth);
      if r.EVal? { SameAbove(r.w, open); }
    case Binary(_, l, r) =>
      BalEval(p, l, env, w, fuel, depth, open);
      var a := Eval(p, l, env, w, fuel, depth);
      if a.EVal? {
        BalEval(p, r, env, a.w, fuel, depth, open);
        var b := Eval(p, r, env, a.w, fuel, depth);
        if b.EVal? { SameAbove(b.w, open); }
      }
    case Call(f, args) =>
      BalEval(p, f, env, w, fuel, depth, open);
      var a := Eval(p, f, env, w, fuel, depth);
      if a.EVal? {
        BalArgs(p, args, env, a.w, fuel, depth, open);
        var (vs, o) := EvalArgs(p, args, env, a.w, fuel, depth);
        if o.EVal? {
          SameAbove(o.w, open);
          if a.v.VFun? && a.v.index < |p.funs| && |p.funs[a.v.index].params| == |vs| && fuel > 0 {
            BalCall(p, a.v.index, vs, o.w, fuel - 1, depth + 1, open);
          }
        }
      }
    case _ =>
  }

  lemma {:induction false} BalArgs(p: Source, args: seq<Expr>, env: seq<Binding>, w: World, fuel: nat, depth: nat, open: seq<Mon>)
    requires Lifo(w, open)
    ensures ExprBalanced(EvalArgs(p, args, env, w, fuel, depth).1, open)
    decreases fuel, args, 0
  {
    hide Lifo, Above, Eval;
    if args != [] {
      BalEval(p, args[0], env, w, fuel, depth, open);
      var r := Eval(p, args[0], env, w, fuel, depth);
      if r.EVal? { BalArgs(p, args[1..], env, r.w, fuel, depth, open); }
    }
  }

  lemma LeaveBalanced(f: nat, m: nat, r: StmtResult, open: seq<Mon>)
    requires StmtBalanced(r, open + [(f, m)])
    ensures StmtBalanced(Leave(f, m, r), open)
  {
    hide Lifo, Above, Exit;
    match r
    case SNormal(_, _, w) => ExitLifo(w, f, m, open);
    case SRet(_, w) => ExitLifo(w, f, m, open);
    case SStop(_, w) => AboveInner(w, open, (f, m));
    case SFuel(w) => AboveInner(w, open, (f, m));
  }

  /** A call leaves no monitor of its frame held. */
  lemma {:induction false} BalCall(p: Source, k: nat, vs: seq<Value>, w: World, fuel: nat, depth: nat, open: seq<Mon>)
    requires Lifo(w, open) && k < |p.funs| && |p.funs[k].params| == |vs|
    ensures ExprBalanced(CallFun(p, k, vs, w, fuel, depth), open)
    decreases fuel, p.funs[k], 1
  {
    hide Lifo, Above, ExecDecls, Leave, Enter;
    var f := p.funs[k];
    var env := Bind(f.params, vs);
    SameAbove(w, open);
    if !f.synced {
      BalDecls(p, f.body, Here(k + 1, 0, 0, false), env, w, fuel, depth, open);
    } else if (k + 1, 0) !in w.held {
      var w1 := Enter(w, k + 1, 0);
      EnterLifo(w, k + 1, 0, open);
      BalDecls(p, f.body, Here(k + 1, 1, 0, false), env, w1, fuel, depth, open + [(k + 1, 0)]);
      LeaveBalanced(k + 1, 0, ExecDecls(p, f.body, Here(k + 1, 1, 0, false), env, w1, fuel, depth), open);
    }
  }

  lemma BalStore(env: seq<Binding>, w: World, x: Name, v: Value, open: seq<Mon>)
    requires Lifo(w, open)
    ensures StmtBalanced(Store(env, w, x, v), open)
  {
    SameAbove(w, open);
  }

  lemma {:induction false} BalEffect(p: Source, e: Expr, keep: bool, env: seq<Binding>, w: World, fuel: nat, depth: nat, open: seq<Mon>)
    requires Lifo(w, open)
    ensures StmtBalanced(ExecEffect(p, e, keep, env, w, fuel, depth), open)
    decreases fuel, e, 2
  {
    hide Lifo, Above, Eval, Store;
    var a := if e.Assign? then e.rhs else e;
    BalEval(p, a, env, w, fuel, depth, open);
    var r := Eval(p, a, env, w, fuel, depth);
    if r.EVal? && e.Assign? { BalStore(env, r.w, e.x, r.v, open); }
  }

  lemma {:induction false} BalOpt(p: Source, e: Option<Expr>, env: seq<Binding>, w: World, fuel: nat, depth: nat, open: seq<Mon>)
    requires Lifo(w, open)
    ensures ExprBalanced(EvalOpt(p, e, env, w, fuel, depth), open)
    decreases fuel, e, 1
  {
    hide Lifo, Above, Eval;
    if e.Some? { BalEval(p, e.value, env, w, fuel, depth, open); }
  }

  lemma {:induction false} BalVarDecl(p: Source, x: Name, init: Option<Expr>, h: Here, env: seq<Binding>, w: World, fuel: nat,
                                      depth: nat, open: seq<Mon>)
    requires Lifo(w, open)
    ensures StmtBalanced(ExecVarDecl(p, x, init, h, env, w, fuel, depth), open)
    decreases fuel, init, 2
  {
    hide EvalOpt, Open;
    BalOpt(p, init, env, w, fuel, depth, open);
  }

  lemma {:induction false} BalInit(p: Source, i: Init, h: Here, env: seq<Binding>, w: World, fuel: nat, depth: nat, open: seq<Mon>)
    requires Lifo(w, open)
    ensures StmtBalanced(ExecInit(p, i, h, env, w, fuel, depth), open)
    decreases fuel, i, 1
  {
    hide Lifo, Above, ExecVarDecl, ExecEffect;
    match i
    case NoInit =>
    case VarInit(x, e) => BalVarDecl(p, x, e, h, env, w, fuel, depth, open);
    case ExprInit(e) => BalEffect(p, e, false, env, w, fuel, depth, open);
  }

  lemma {:induction false} BalExec(p: Source, s: Stmt, h: Here, env: seq<Binding>, w: World, fuel: nat, depth: nat, open: seq<Mon>)
    requires Lifo(w, open)
    ensures StmtBalanced(Exec(p, s, h, env, w, fuel, depth), open)
    decreases fuel, s, 1
  {
    hide Lifo, Above, Eval, ExecEffect, ExecInit, ExecLoop, ExecDecls, Enter, Emit, Leave;
    SameAbove(w, open);
    match s
    case Print(e) =>
      BalEval(p, e, env, w, fuel, depth, open);
      var r := Eval(p, e, env, w, fuel, depth);
      if r.EVal? { EmitLifo(r.w, r.v, open); }
    case ExprStmt(e) => BalEffect(p, e, false, env, w, fuel, depth, open);
    case Block(ds) => BalDecls(p, ds, h.(top := false), env, w, fuel, depth, open);
    case If(c, t, e) =>
      BalEval(p, c, env, w, fuel, depth, open);
      var r := Eval(p, c, env, w, fuel, depth);
      if r.EVal? {
        BalExec(p, t, h, env, r.w, fuel, depth, open);
        if e.Some? {
          BalExec(p, e.value, h.(mon := h.mon + Syncs(t), fun := h.fun + |Funs(t)|), env, r.w, fuel, depth, open);
        }
      }
    case While(_, _) => BalLoop(p, s, h, env, w, fuel, depth, open);
    case For(i, _, _, _) =>
      BalInit(p, i, h.(top := false), env, w, fuel, depth, open);
      var r := ExecInit(p, i, h.(top := false), env, w, fuel, depth);
      if r.SNormal? { BalLoop(p, s, h.(top := false), r.env, r.w, fuel, depth, open); }
    case Return(e) => BalOpt(p, e, env, w, fuel, depth, open);
    case Sync(b) =>
      if (h.fid, h.mon) !in w.held {
        var w1 := Enter(w, h.fid, h.mon);
        EnterLifo(w, h.fid, h.mon, open);
        BalExec(p, b, h.(mon := h.mon + 1), env, w1, fuel, depth, open + [(h.fid, h.mon)]);
        LeaveBalanced(h.fid, h.mon, Exec(p, b, h.(mon := h.mon + 1), env, w1, fuel, depth), open);
      }
  }

  lemma {:induction false} BalRound(p: Source, s: Stmt, h: Here, env: seq<Binding>, w: World, fuel: nat, depth: nat, open: seq<Mon>)
    requires Lifo(w, open) && (s.While? || s.For?)
    ensures StmtBalanced(ExecRound(p, s, h, env, w, fuel, depth), open)
    decreases fuel, s, 0, 0
  {
    hide Lifo, Above, Exec, ExecEffect;
    BalExec(p, s.loopBody, h, env, w, fuel, depth, open);
    var r := Exec(p, s.loopBody, h, env, w, fuel, depth);
    if r.SNormal? && s.For? { BalEffect(p, s.incr, true, r.env, r.w, fuel, depth, open); }
  }

  lemma {:induction false} BalLoop(p: Source, s: Stmt, h: Here, env: seq<Binding>, w: World, fuel: nat, depth: nat, open: seq<Mon>)
    requires Lifo(w, open) && (s.While? || s.For?)
    ensures StmtBalanced(ExecLoop(p, s, h, env, w, fuel, depth), open)
    decreases fuel, s, 0, 1
  {
    hide Lifo, Above, Eval, ExecRound;
    BalEval(p, s.cond, env, w, fuel, depth, open);
    var r := Eval(p, s.cond, env, w, fuel, depth);
    if r.EVal? {
      BalRound(p, s, h, env, r.w, fuel, depth, open);
      var q := ExecRound(p, s, h, env, r.w, fuel, depth);
      if q.SNormal? {
        SameAbove(q.w, open);
        if fuel > 0 { BalLoop(p, s, h, q.env, q.w, fuel - 1, depth, open); }
      }
    }
  }

  lemma {:induction false} BalDecl(p: Source, d: Decl, h: Here, env: seq<Binding>, w: World, fuel: nat, depth: nat, open: seq<Mon>)
    requires Lifo(w, open)
    ensures StmtBalanced(ExecDecl(p, d, h, env, w, fuel, depth), open)
    decreases fuel, d, 1
  {
    hide Open, Exec, ExecVarDecl;
    match d
    case StmtDecl(s) => BalExec(p, s, h, env, w, fuel, depth, open);
    case VarDecl(x, e) => BalVarDecl(p, x, e, h, env, w, fuel, depth, open);
    case FunDecl(_) =>
  }

  lemma {:induction false} BalDecls(p: Source, ds: seq<Decl>, h: Here, env: seq<Binding>, w: World, fuel: nat, depth: nat, open: seq<Mon>)
    requires Lifo(w, open)
    ensures StmtBalanced(ExecDecls(p, ds, h, env, w, fuel, depth), open)
    decreases fuel, ds, 0
  {
    hide Lifo, Above, ExecDecl, Semantics.After;
    if ds != [] {
      BalDecl(p, ds[0], h, env, w, fuel, depth, open);
      var r := ExecDecl(p, ds[0], h, env, w, fuel, depth);
      if r.SNormal? { BalDecls(p, ds[1..], Semantics.After(h, ds[0]), r.env, r.w, fuel, depth, open); }
    }
  }

  // ----- the machine -----

  function WorldOf(o: Status, w: World): World {
    match o
    case Running(st) => st.w
    case Halted(w1) => w1
    case Stopped(_, w1) => w1
    case Stuck => w
  }

  lemma Plain0Trace(ops: Ops, op: Byte, st: State)
    requires Valid(st) && st.frames != []
    ensures st.w.trace <= WorldOf(Plain0(ops, op, st), st.w).trace
  {
    hide Apply, ApplyUnary;
  }

  lemma Plain1Trace(p: Program, op: Byte, a: Byte, st: State)
    requires Valid(st) && st.frames != []
    ensures st.w.trace <= WorldOf(Plain1(p, op, a, st), st.w).trace
  {
  }

  lemma StepTrace(p: Program, ops: Ops, st: State)
    ensures st.w.trace <= WorldOf(Step(p, ops, st), st.w).trace
  {
    hide Plain0, Plain1;
    if st.frames != [] && Valid(st) && Top(st).pc < |FunOf(p, Top(st).fid).code| {
      var code, pc := FunOf(p, Top(st).fid).code, Top(st).pc;
      var st1 := Goto(st, pc + Width(code[pc]));
      Plain0Trace(ops, code[pc], st1);
      if pc + 1 < |code| { Plain1Trace(p, code[pc], code[pc + 1], st1); }
    }
  }

  lemma {:induction false} RunTrace(p: Program, ops: Ops, st: State, n: nat)
    ensures st.w.trace <= WorldOf(Run(p, ops, st, n), st.w).trace
    decreases n
  {
    hide Step;
    if n > 0 {
      StepTrace(p, ops, st);
      var o := Step(p, ops, st);
      if o.Running? { RunTrace(p, ops, o.st, n - 1); }
    }
  }

  lemma {:induction false} OpenPrefix(t: seq<Event>, u: seq<Event>)
    requires t <= u && Open(u).Some?
    ensures Open(t).Some?
    decreases |u|
  {
    if |t| < |u| {
      OpenPrefix(t, u[..|u| - 1]);
    } else {
      assert t == u;
    }
  }

  /** In every state the machine reaches, monitors have been left last in, first
      out, and none was entered while it was held; when the package ends, none is
      held. */
  lemma MonitorsBalanced(ds: seq<Decl>, p: Program, ops: Ops, mem: seq<Value>, n: nat)
    requires GenProgram(ds) == Some(p) && PlacedDecls(ds) && Near(ds)
    ensures var o := Rounds(p, ops, mem, n);
            Open(WorldOf(o, Start(p, mem).w).trace).Some?
            && (o.Halted? ==> Open(o.w.trace) == Some([]) && o.w.held == {})
  {
    hide GenProgram, PlacedDecls, Near, ExecDecls, Step, Run;
    var w0 := World(map[], [], {});
    var o := Rounds(p, ops, mem, n);
    BalDecls(Source(FunsIn(ds), ops), ds, Here(0, 0, 0, true), [], w0, n + 1, 1, []);
    var r := RunSource(ds, ops, n + 1);
    var k := ProgramSim(ds, p, ops, mem, n + 1);
    if o.Running? {
      if k <= n {
        if !Rounds(p, ops, mem, k).Running? { RunDetermined(p, ops, mem, k, n); }
      } else {
        RunAdd(p, ops, Start(p, mem), n, k - n);
        RunTrace(p, ops, o.st, k - n);
        OpenPrefix(o.st.w.trace, WorldOf(Rounds(p, ops, mem, k), w0).trace);
      }
    } else {
      Decided(ds, p, ops, mem, n);
    }
  }
}
