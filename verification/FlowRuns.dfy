// The labels of the code in every run: what a frame holds is the label of the
// instruction it is at, and a thread waits for itself only because of an outer frame.
module MonitorRuns {
  import opened Wrappers
  import opened Bytecode
  import opened Syntax
  import opened CodeGen
  import opened Semantics
  import opened Machine
  import opened Shape
  import opened Correctness
  import opened Balance
  import opened MonitorFlow

  // ----- the functions of a package, compiled -----

  /** The functions `fs` were compiled between c and d. */
  ghost predicate Adds(c: Ctx, d: Ctx, fs: seq<Fun>) {
    c.funs <= d.funs && Compiled(fs, d.funs[|c.funs|..])
  }

  lemma AddsTwice(c: Ctx, d: Ctx, e: Ctx, fs: seq<Fun>, gs: seq<Fun>)
    requires Adds(c, d, fs) && Adds(d, e, gs)
    ensures Adds(c, e, fs + gs)
  {
    hide GenFun;
    assert e.funs[|c.funs|..] == d.funs[|c.funs|..] + e.funs[|d.funs|..];
  }

  lemma AddsNone(c: Ctx, d: Ctx)
    requires d.funs == c.funs
    ensures Adds(c, d, [])
  {
  }

  lemma InitAdds(i: Init, c: Ctx)
    requires GenInit(i, c).Some?
    ensures GenInit(i, c).value.c.funs == c.funs
  {
    hide GenExpr;
  }

  lemma {:induction false} StmtAdds(s: Stmt, c: Ctx)
    requires GenStmt(s, c).Some?
    ensures Adds(c, GenStmt(s, c).value.c, Funs(s))
    decreases s, 1
  {
    hide GenExpr, Adds, GenFun;
    match s
    case Block(ds) =>
      DeclsAdd(ds, BeginScope(c));
      SameAdds(BeginScope(c), GenDecls(ds, BeginScope(c)).value.c, c, GenStmt(s, c).value.c, FunsIn(ds));
    case If(cond, t, e) =>
      var o := GenExpr(cond, c).value;
      var p := GenStmt(t, o.c).value;
      StmtAdds(t, o.c);
      SameAdds(o.c, p.c, c, p.c, Funs(t));
      if e.Some? {
        StmtAdds(e.value, p.c);
        AddsTwice(c, p.c, GenStmt(e.value, p.c).value.c, Funs(t), Funs(e.value));
      } else {
        assert Funs(t) + [] == Funs(t);
      }
    case While(_, _) => LoopAdds(s, c);
    case For(i, _, _, _) =>
      var o := GenInit(i, BeginScope(c)).value;
      InitAdds(i, BeginScope(c));
      LoopAdds(s, o.c);
      SameAdds(o.c, GenLoop(s, o.c).value.c, c, GenStmt(s, c).value.c, Funs(s));
    case Sync(b) =>
      StmtAdds(b, Inner(c));
      SameAdds(Inner(c), GenStmt(b, Inner(c)).value.c, c, GenStmt(s, c).value.c, Funs(s));
    case _ => AddsNone(c, GenStmt(s, c).value.c);
  }

  lemma SameAdds(c: Ctx, d: Ctx, c1: Ctx, d1: Ctx, fs: seq<Fun>)
    requires Adds(c, d, fs) && c1.funs == c.funs && d1.funs == d.funs
    ensures Adds(c1, d1, fs)
  {
  }

  lemma {:induction false} LoopAdds(s: Stmt, c: Ctx)
    requires (s.While? || s.For?) && GenLoop(s, c).Some?
    ensures Adds(c, GenLoop(s, c).value.c, Funs(s.loopBody))
    decreases s, 0
  {
    hide GenExpr, Adds, GenFun;
    var o := GenExpr(s.cond, c).value;
    var q := if s.For? then GenIncr(s.incr, o.c).value else Out([], o.c);
    StmtAdds(s.loopBody, q.c);
    SameAdds(q.c, GenStmt(s.loopBody, q.c).value.c, c, GenLoop(s, c).value.c, Funs(s.loopBody));
  }

  lemma {:induction false} DeclAdds(d: Decl, c: Ctx)
    requires GenDecl(d, c).Some?
    ensures Adds(c, GenDecl(d, c).value.c, FunsOf(d))
    decreases d, 1
  {
    match d
    case StmtDecl(s) => StmtAdds(s, c);
    case VarDecl(x, e) => VarDeclAdds(x, e, c);
    case FunDecl(f) => hide GenFun;
  }

  lemma VarDeclAdds(x: Name, e: Option<Expr>, c: Ctx)
    requires GenVarDecl(x, e, c).Some?
    ensures Adds(c, GenVarDecl(x, e, c).value.c, [])
  {
    hide GenExpr;
    AddsNone(c, GenVarDecl(x, e, c).value.c);
  }

  lemma {:induction false} DeclsAdd(ds: seq<Decl>, c: Ctx)
    requires GenDecls(ds, c).Some?
    ensures Adds(c, GenDecls(ds, c).value.c, FunsIn(ds))
    decreases ds, 0
  {
    hide Adds, GenDecl;
    if ds == [] {
      AddsNone(c, c);
    } else {
      var d := GenDecl(ds[0], c).value.c;
      DeclAdds(ds[0], c);
      DeclsAdd(ds[1..], d);
      AddsTwice(c, d, GenDecls(ds, c).value.c, FunsOf(ds[0]), FunsIn(ds[1..]));
    }
  }

  // ----- what the frames hold -----

  /** The labels of the package's code and of its functions, by the number a frame
      has for them. */
  ghost predicate AllLabelled(p: Program, ls: seq<Labels>) {
    |ls| == |p.funs| + 1 && forall i: nat | i < |ls| :: Labelled(FunOf(p, i).code, ls[i])
  }

  ghost predicate FrameOk(ls: seq<Labels>, f: Frame) {
    f.fid < |ls| && f.pc < |ls[f.fid]| && ls[f.fid][f.pc].Some?
  }

  /** The monitors a frame holds, told by where it is. */
  ghost function HeldIn(ls: seq<Labels>, f: Frame): seq<Byte>
    requires FrameOk(ls, f)
  {
    ls[f.fid][f.pc].value
  }

  function Tagged(fid: nat, h: seq<Byte>): seq<Mon> {
    if h == [] then [] else Tagged(fid, h[..|h| - 1]) + [(fid, h[|h| - 1] as nat)]
  }

  ghost predicate FramesOk(ls: seq<Labels>, frames: seq<Frame>) {
    forall i: nat | i < |frames| :: FrameOk(ls, frames[i])
  }

  /** The monitors all frames hold, those of the outermost frame first. */
  ghost function HeldByAll(ls: seq<Labels>, frames: seq<Frame>): seq<Mon>
    requires FramesOk(ls, frames)
  {
    if frames == [] then []
    else
      var f := frames[|frames| - 1];
      HeldByAll(ls, frames[..|frames| - 1]) + Tagged(f.fid, HeldIn(ls, f))
  }

  lemma {:induction false} InTagged(fid: nat, h: seq<Byte>, x: Mon)
    ensures x in Tagged(fid, h) <==> x.0 == fid && x.1 in h
  {
    if h != [] {
      var init, last := h[..|h| - 1], h[|h| - 1];
      InTagged(fid, init, x);
      assert h == init + [last];
    }
  }

  lemma {:induction false} InAll(ls: seq<Labels>, frames: seq<Frame>, x: Mon)
    requires FramesOk(ls, frames) && x in HeldByAll(ls, frames)
    ensures exists i: nat :: i < |frames| && HoldsIn(ls, frames[i], x)
  {
    var n := |frames| - 1;
    InTagged(frames[n].fid, HeldIn(ls, frames[n]), x);
    if x in HeldByAll(ls, frames[..n]) {
      InAll(ls, frames[..n], x);
      var i: nat :| i < n && HoldsIn(ls, frames[..n][i], x);
      assert HoldsIn(ls, frames[i], x);
    } else {
      assert HoldsIn(ls, frames[n], x);
    }
  }

  ghost predicate HoldsIn(ls: seq<Labels>, f: Frame, x: Mon) {
    FrameOk(ls, f) && f.fid == x.0 && x.1 in HeldIn(ls, f)
  }

  lemma TopHeld(ls: seq<Labels>, callers: seq<Frame>, f: Frame)
    requires FramesOk(ls, callers) && FrameOk(ls, f)
    ensures FramesOk(ls, callers + [f]) && HeldByAll(ls, callers + [f]) == HeldByAll(ls, callers) + Tagged(f.fid, HeldIn(ls, f))
  {
    assert (callers + [f])[..|callers|] == callers;
  }

  // ----- one step -----

  /** What is held is what the frames hold, entered in that order. */
  ghost predicate Inv(p: Program, ls: seq<Labels>, st: State) {
    AllLabelled(p, ls) && FramesOk(ls, st.frames) && Lifo(st.w, HeldByAll(ls, st.frames))
  }

  /** The monitor that the next instruction enters is held by a frame further out. */
  ghost predicate HeldOutside(p: Program, ls: seq<Labels>, st: State) {
    st.frames != [] && var f := Top(st);
    var code := FunOf(p, f.fid).code;
    && Whole(code, f.pc) && code[f.pc] == OP_ENTER_MONITOR
    && HeldByOuter(ls, st.frames, (f.fid, code[f.pc + 1] as nat))
  }

  ghost predicate HeldByOuter(ls: seq<Labels>, frames: seq<Frame>, x: Mon) {
    exists i: nat :: i < |frames| - 1 && HoldsIn(ls, frames[i], x)
  }

  /** The world as far as monitors go. */
  ghost predicate SameMonitors(w: World, w1: World) {
    w1.held == w.held && (w1.trace == w.trace || exists v :: w1.trace == w.trace + [Printed(v)])
  }

  lemma SameLifo(w: World, w1: World, open: seq<Mon>)
    requires Lifo(w, open) && SameMonitors(w, w1)
    ensures Lifo(w1, open)
  {
    if w1.trace != w.trace {
      var v :| w1.trace == w.trace + [Printed(v)];
      assert w1.trace[..|w.trace|] == w.trace;
    }
  }

  /** An instruction that is not about monitors or calls: the frame goes along an
      edge. */
  ghost predicate Moves(st: State, succs: set<int>, o: Status)
    requires st.frames != []
  {
    match o
    case Running(s) =>
      SameMonitors(st.w, s.w) && exists t: nat :: t in succs && s.frames == Callers(st) + [Top(st).(pc := t)]
    case Stopped(why, _) => why != Deadlock
    case _ => true
  }

  lemma Moves0(ops: Ops, op: Byte, st: State, pc: nat)
    requires Valid(st) && st.frames != [] && op != OP_RETURN
    ensures Moves(st, {pc as int}, Plain0(ops, op, Goto(st, pc)))
  {
    hide Apply, ApplyUnary;
    var s := Goto(st, pc);
    assert Emit(st.w, if st.esp > 0 then st.mem[st.esp - 1] else VNil).trace == st.w.trace + [Printed(if st.esp > 0 then st.mem[st.esp - 1] else VNil)];
  }

  lemma Moves1(p: Program, op: Byte, a: Byte, st: State, pc: nat)
    requires Valid(st) && st.frames != [] && op != OP_ENTER_MONITOR && op != OP_EXIT_MONITOR
    ensures Moves(st, {pc as int}, Plain1(p, op, a, Goto(st, pc)))
  {
  }

  lemma Moves2(p: Program, code: seq<Byte>, st: State)
    requires Valid(st) && st.frames != [] && Whole(code, Top(st).pc) && Width(code[Top(st).pc]) == 3 && code[Top(st).pc] != OP_CALL
    ensures var pc := Top(st).pc;
            Moves(st, Succs(code, pc), Plain2(p, code[pc], code[pc + 1], code[pc + 2], pc + 3, Goto(st, pc + 3)))
  {
    var pc := Top(st).pc;
    var n := U16(code[pc + 1], code[pc + 2]);
    hide U16;
    assert pc + 3 + n in Succs(code, pc) || code[pc] !in {OP_JUMP, OP_JUMP_IF_FALSE};
  }

  /** A frame further along its code, with the same label. */
  lemma Along(p: Program, ls: seq<Labels>, st: State, s: State, t: nat)
    requires Inv(p, ls, st) && st.frames != [] && SameMonitors(st.w, s.w)
    requires s.frames == Callers(st) + [Top(st).(pc := t)]
    requires FrameOk(ls, Top(s)) && HeldIn(ls, Top(s)) == HeldIn(ls, Top(st))
    ensures Inv(p, ls, s)
  {
    hide AllLabelled, Lifo, SameMonitors;
    FramesSplit(ls, st.frames);
    TopHeld(ls, Callers(st), Top(s));
    SameLifo(st.w, s.w, HeldByAll(ls, st.frames));
  }

  lemma FramesSplit(ls: seq<Labels>, frames: seq<Frame>)
    requires FramesOk(ls, frames) && frames != []
    ensures var n := |frames| - 1;
            && FramesOk(ls, frames[..n]) && FrameOk(ls, frames[n])
            && HeldByAll(ls, frames) == HeldByAll(ls, frames[..n]) + Tagged(frames[n].fid, HeldIn(ls, frames[n]))
  {
  }

  /** The code of a frame and its labels. */
  lemma FrameEdges(p: Program, ls: seq<Labels>, f: Frame)
    requires AllLabelled(p, ls) && FrameOk(ls, f)
    ensures var code := FunOf(p, f.fid).code; |ls[f.fid]| == |code| && f.pc < |code| && EdgesOk(code, ls[f.fid], f.pc)
  {
    assert Labelled(FunOf(p, f.fid).code, ls[f.fid]);
  }

  ghost predicate StepOk(p: Program, ls: seq<Labels>, st: State, o: Status) {
    match o
    case Running(s) => Inv(p, ls, s)
    case Stopped(Deadlock, _) => HeldOutside(p, ls, st)
    case _ => true
  }

  lemma MovesOk(p: Program, ls: seq<Labels>, st: State, o: Status)
    requires Inv(p, ls, st) && st.frames != []
    requires var code, pc := FunOf(p, Top(st).fid).code, Top(st).pc;
             Whole(code, pc) && Moves(st, Succs(code, pc), o) && HeldAfter(code, pc, HeldIn(ls, Top(st))) == Some(HeldIn(ls, Top(st)))
    ensures StepOk(p, ls, st, o)
  {
    hide AllLabelled, Lifo, SameMonitors, Succs;
    FramesSplit(ls, st.frames);
    FrameEdges(p, ls, Top(st));
    if o.Running? {
      var code, pc := FunOf(p, Top(st).fid).code, Top(st).pc;
      var t: nat :| t in Succs(code, pc) && o.st.frames == Callers(st) + [Top(st).(pc := t)];
      Along(p, ls, st, o.st, t);
    }
  }

  /** The label behind an enter or an exit. */
  lemma LabelBehind(p: Program, ls: seq<Labels>, f: Frame)
    requires AllLabelled(p, ls) && FrameOk(ls, f)
    ensures var code := FunOf(p, f.fid).code;
            Whole(code, f.pc) &&
            var h, g := HeldIn(ls, f), f.(pc := f.pc + 2);
            && (code[f.pc] == OP_ENTER_MONITOR ==>
                  FrameOk(ls, g) && code[f.pc + 1] !in h && HeldIn(ls, g) == h + [code[f.pc + 1]])
            && (code[f.pc] == OP_EXIT_MONITOR ==> FrameOk(ls, g) && h == HeldIn(ls, g) + [code[f.pc + 1]])
  {
    FrameEdges(p, ls, f);
    MonitorEdges(FunOf(p, f.fid).code, ls[f.fid], f.pc);
    hide EdgesOk, Succs;
  }

  lemma MonitorEdges(code: seq<Byte>, labels: Labels, pc: nat)
    requires |labels| == |code| && pc < |code| && labels[pc].Some? && EdgesOk(code, labels, pc)
    ensures var op, h := code[pc], labels[pc].value;
            op == OP_ENTER_MONITOR || op == OP_EXIT_MONITOR ==>
              && pc + 2 < |code| && labels[pc + 2].Some?
              && if op == OP_ENTER_MONITOR then code[pc + 1] !in h && labels[pc + 2].value == h + [code[pc + 1]]
                 else h == labels[pc + 2].value + [code[pc + 1]]
  {
    hide InLine;
    if code[pc] == OP_ENTER_MONITOR || code[pc] == OP_EXIT_MONITOR {
      assert Width(code[pc]) == 2;
      assert pc + 2 in Succs(code, pc);
    }
  }

  lemma EnterOk(p: Program, ls: seq<Labels>, st: State)
    requires Inv(p, ls, st) && st.frames != []
    requires var code, pc := FunOf(p, Top(st).fid).code, Top(st).pc; Whole(code, pc) && code[pc] == OP_ENTER_MONITOR
    ensures var pc := Top(st).pc; StepOk(p, ls, st, EnterStep(FunOf(p, Top(st).fid).code[pc + 1], Goto(st, pc + 2)))
  {
    hide AllLabelled, Lifo, HeldByAll, HeldIn, FrameOk, HeldByOuter;
    var f, code := Top(st), FunOf(p, Top(st).fid).code;
    var m := code[f.pc + 1];
    var x: Mon := (f.fid, m as nat);
    FramesSplit(ls, st.frames);
    LabelBehind(p, ls, f);
    var h, g := HeldIn(ls, f), f.(pc := f.pc + 2);
    if x in st.w.held {
      EnterBlocks(ls, st, x);
    } else {
      TaggedMore(f.fid, h, m);
      TopHeld(ls, Callers(st), g);
      EnterLifo(st.w, f.fid, m, HeldByAll(ls, st.frames));
      assert HeldByAll(ls, Callers(st)) + (Tagged(f.fid, h) + [x]) == HeldByAll(ls, st.frames) + [x];
    }
  }

  /** A monitor that is held and not by the frame itself is held further out. */
  lemma EnterBlocks(ls: seq<Labels>, st: State, x: Mon)
    requires FramesOk(ls, st.frames) && st.frames != [] && FrameOk(ls, Top(st)) && Lifo(st.w, HeldByAll(ls, st.frames))
    requires x in st.w.held && x.1 !in HeldIn(ls, Top(st))
    ensures HeldByOuter(ls, st.frames, x)
  {
    hide Lifo, HeldByAll, FrameOk, HeldIn, HoldsIn;
    FramesSplit(ls, st.frames);
    InTagged(Top(st).fid, HeldIn(ls, Top(st)), x);
    InOpen(st.w, HeldByAll(ls, st.frames), x);
    InAll(ls, Callers(st), x);
    var i: nat :| i < |Callers(st)| && HoldsIn(ls, Callers(st)[i], x);
    assert HoldsIn(ls, st.frames[i], x);
  }

  lemma InOpen(w: World, open: seq<Mon>, x: Mon)
    requires Lifo(w, open) && x in w.held
    ensures x in open
  {
  }

  lemma TaggedMore(fid: nat, h: seq<Byte>, m: Byte)
    ensures Tagged(fid, h + [m]) == Tagged(fid, h) + [(fid, m as nat)]
  {
    assert (h + [m])[..|h|] == h;
  }

  lemma ExitOk(p: Program, ls: seq<Labels>, st: State)
    requires Inv(p, ls, st) && st.frames != []
    requires var code, pc := FunOf(p, Top(st).fid).code, Top(st).pc; Whole(code, pc) && code[pc] == OP_EXIT_MONITOR
    ensures var f := Top(st);
            var m := FunOf(p, f.fid).code[f.pc + 1];
            StepOk(p, ls, st, Running(Goto(st, f.pc + 2).(w := Exit(st.w, f.fid, m))))
  {
    hide AllLabelled, Lifo, HeldByAll, HeldIn, FrameOk, Exit;
    var f, code := Top(st), FunOf(p, Top(st).fid).code;
    var m := code[f.pc + 1];
    FramesSplit(ls, st.frames);
    LabelBehind(p, ls, f);
    var g := f.(pc := f.pc + 2);
    var rest := HeldIn(ls, g);
    TaggedMore(f.fid, rest, m);
    TopHeld(ls, Callers(st), g);
    var open := HeldByAll(ls, Callers(st)) + Tagged(f.fid, rest);
    assert HeldByAll(ls, st.frames) == open + [(f.fid, m as nat)];
    ExitLifo(st.w, f.fid, m, open);
  }

  lemma ReturnOk(p: Program, ls: seq<Labels>, st: State)
    requires Inv(p, ls, st) && Valid(st) && st.frames != []
    requires var code, pc := FunOf(p, Top(st).fid).code, Top(st).pc; Whole(code, pc) && code[pc] == OP_RETURN
    ensures StepOk(p, ls, st, ReturnStep(Goto(st, Top(st).pc + 1)))
  {
    FramesSplit(ls, st.frames);
    FrameEdges(p, ls, Top(st));
    hide AllLabelled, Lifo;
    assert HeldByAll(ls, Callers(st)) + [] == HeldByAll(ls, Callers(st));
  }

  lemma CallOk(p: Program, ls: seq<Labels>, st: State, n: nat)
    requires Inv(p, ls, st) && Valid(st) && st.frames != []
    requires var code, pc := FunOf(p, Top(st).fid).code, Top(st).pc; Whole(code, pc) && code[pc] == OP_CALL
    ensures StepOk(p, ls, st, CallStep(p, n, Goto(st, Top(st).pc + 3)))
  {
    FramesSplit(ls, st.frames);
    FrameEdges(p, ls, Top(st));
    var f := Top(st);
    var s := Goto(st, f.pc + 3);
    assert f.pc + 3 in Succs(FunOf(p, f.fid).code, f.pc);
    hide Lifo;
    Along(p, ls, st, s, f.pc + 3);
    var o := CallStep(p, n, s);
    if o.Running? {
      var g := o.st.frames[|o.st.frames| - 1];
      assert Labelled(FunOf(p, g.fid).code, ls[g.fid]);
      TopHeld(ls, s.frames, g);
      assert HeldByAll(ls, s.frames) + [] == HeldByAll(ls, s.frames);
    }
  }

  /** Every step keeps it, and blocks only on a monitor of an outer frame. */
  lemma StepKeeps(p: Program, ops: Ops, ls: seq<Labels>, st: State)
    requires Inv(p, ls, st)
    ensures StepOk(p, ls, st, Step(p, ops, st))
  {
    if st.frames != [] && Valid(st) {
      FramesSplit(ls, st.frames);
      FrameEdges(p, ls, Top(st));
      hide Inv, Plain0, Plain1, Plain2, CallStep, ReturnStep, EnterStep, StepOk, EdgesOk, Labelled, Moves, HeldIn;
      StepOne(p, ops, ls, st);
    }
  }

  lemma StepOne(p: Program, ops: Ops, ls: seq<Labels>, st: State)
    requires Inv(p, ls, st) && st.frames != [] && Valid(st) && Whole(FunOf(p, Top(st).fid).code, Top(st).pc)
    ensures StepOk(p, ls, st, Step(p, ops, st))
  {
    var code, pc := FunOf(p, Top(st).fid).code, Top(st).pc;
    var op := code[pc];
    hide Inv, StepOk, EdgesOk, Labelled, Moves, HeldIn, Succs, HeldAfter;
    hide Step;
    if op == OP_ENTER_MONITOR || op == OP_EXIT_MONITOR || op == OP_RETURN || op == OP_CALL || op == OP_EOF {
      StepSpecial(p, ops, ls, st);
    } else {
      StepMoves(p, ops, st);
      Unchanged(p, ls, st);
      MovesOk(p, ls, st, Step(p, ops, st));
    }
  }

  lemma StepMoves(p: Program, ops: Ops, st: State)
    requires st.frames != [] && Valid(st) && Whole(FunOf(p, Top(st).fid).code, Top(st).pc)
    requires FunOf(p, Top(st).fid).code[Top(st).pc] !in {OP_ENTER_MONITOR, OP_EXIT_MONITOR, OP_RETURN, OP_CALL, OP_EOF}
    ensures Moves(st, Succs(FunOf(p, Top(st).fid).code, Top(st).pc), Step(p, ops, st))
  {
    hide Moves, Plain0, Plain1, Plain2;
    var code, pc := FunOf(p, Top(st).fid).code, Top(st).pc;
    if Width(code[pc]) == 1 {
      Moves0(ops, code[pc], st, pc + 1);
    } else if Width(code[pc]) == 2 {
      Moves1(p, code[pc], code[pc + 1], st, pc + 2);
    } else {
      Moves2(p, code, st);
    }
  }

  lemma Unchanged(p: Program, ls: seq<Labels>, st: State)
    requires Inv(p, ls, st) && st.frames != [] && Whole(FunOf(p, Top(st).fid).code, Top(st).pc)
    ensures FrameOk(ls, Top(st))
    ensures var code, pc := FunOf(p, Top(st).fid).code, Top(st).pc;
            code[pc] !in {OP_ENTER_MONITOR, OP_EXIT_MONITOR, OP_RETURN} ==>
              && HeldAfter(code, pc, HeldIn(ls, Top(st))) == Some(HeldIn(ls, Top(st)))
              && (Width(code[pc]) < 3 ==> Succs(code, pc) <= {pc + Width(code[pc])})
  {
    hide Succs, HeldAfter, Lifo, AllLabelled;
    FramesSplit(ls, st.frames);
    var code, pc := FunOf(p, Top(st).fid).code, Top(st).pc;
    if code[pc] !in {OP_ENTER_MONITOR, OP_EXIT_MONITOR, OP_RETURN} { PlainEdges(code, pc, HeldIn(ls, Top(st))); }
  }

  lemma PlainEdges(code: seq<Byte>, pc: nat, h: seq<Byte>)
    requires Whole(code, pc) && code[pc] !in {OP_ENTER_MONITOR, OP_EXIT_MONITOR, OP_RETURN}
    ensures HeldAfter(code, pc, h) == Some(h) && (Width(code[pc]) < 3 ==> Succs(code, pc) <= {pc + Width(code[pc])})
  {
  }

  lemma StepSpecial(p: Program, ops: Ops, ls: seq<Labels>, st: State)
    requires Inv(p, ls, st) && st.frames != [] && Valid(st) && Whole(FunOf(p, Top(st).fid).code, Top(st).pc)
    requires FunOf(p, Top(st).fid).code[Top(st).pc] in {OP_ENTER_MONITOR, OP_EXIT_MONITOR, OP_RETURN, OP_CALL, OP_EOF}
    ensures StepOk(p, ls, st, Step(p, ops, st))
  {
    var code, pc := FunOf(p, Top(st).fid).code, Top(st).pc;
    var op := code[pc];
    hide Inv, StepOk, HeldOutside, Step, CallStep, ReturnStep, EnterStep;
    StepIs(p, ops, st);
    if op == OP_ENTER_MONITOR {
      EnterOk(p, ls, st);
    } else if op == OP_EXIT_MONITOR {
      ExitOk(p, ls, st);
    } else if op == OP_RETURN {
      ReturnOk(p, ls, st);
    } else if op == OP_CALL {
      CallOk(p, ls, st, code[pc + 1]);
      EndOk(p, ls, st);
    } else {
      EndOk(p, ls, st);
    }
  }

  lemma EndOk(p: Program, ls: seq<Labels>, st: State)
    ensures StepOk(p, ls, st, Stuck) && StepOk(p, ls, st, Halted(st.w))
  {
  }

  /** The instructions that change what is held, or the frames, or end the run. */
  lemma StepIs(p: Program, ops: Ops, st: State)
    requires st.frames != [] && Valid(st) && Whole(FunOf(p, Top(st).fid).code, Top(st).pc)
    ensures var code, pc := FunOf(p, Top(st).fid).code, Top(st).pc;
            && (code[pc] == OP_ENTER_MONITOR ==> Step(p, ops, st) == EnterStep(code[pc + 1], Goto(st, pc + 2)))
            && (code[pc] == OP_EXIT_MONITOR ==> Step(p, ops, st) == Running(Goto(st, pc + 2).(w := Exit(st.w, Top(st).fid, code[pc + 1]))))
            && (code[pc] == OP_RETURN ==> Step(p, ops, st) == ReturnStep(Goto(st, pc + 1)))
            && (code[pc] == OP_CALL ==> Step(p, ops, st) == if code[pc + 2] == 0 then CallStep(p, code[pc + 1], Goto(st, pc + 3)) else Stuck)
            && (code[pc] == OP_EOF ==> Step(p, ops, st) == Halted(st.w))
  {
    hide CallStep, ReturnStep, EnterStep, Exit;
  }

  lemma {:induction false} RunKeeps(p: Program, ops: Ops, ls: seq<Labels>, st: State, n: nat)
    requires Inv(p, ls, st)
    ensures match Run(p, ops, st, n)
            case Running(s) => Inv(p, ls, s)
            case Stopped(Deadlock, _) => exists s, k: nat :: k < n && Run(p, ops, st, k) == Running(s) && Inv(p, ls, s) && HeldOutside(p, ls, s)
            case _ => true
    decreases n
  {
    hide Inv, Step, HeldOutside;
    if n > 0 {
      StepKeeps(p, ops, ls, st);
      var o := Step(p, ops, st);
      assert Run(p, ops, st, 0) == Running(st);
      if o.Running? {
        RunKeeps(p, ops, ls, o.st, n - 1);
        if Run(p, ops, o.st, n - 1).Stopped? && Run(p, ops, o.st, n - 1).why == Deadlock {
          var s, k: nat :| k < n - 1 && Run(p, ops, o.st, k) == Running(s) && Inv(p, ls, s) && HeldOutside(p, ls, s);
          assert Run(p, ops, st, k + 1) == Running(s);
        }
      }
    }
  }

  // ----- packages -----

  ghost function PackageLabels(ds: seq<Decl>): seq<Labels>
    requires GenProgram(ds).Some? && forall f | f in FunsIn(ds) :: GenFun(f).Some?
  {
    [LabMain(ds)] + seq(|FunsIn(ds)|, i requires 0 <= i < |FunsIn(ds)| => LabFun(FunsIn(ds)[i]))
  }

  lemma PackageLabelled(ds: seq<Decl>, p: Program)
    requires GenProgram(ds) == Some(p) && Near(ds)
    ensures (forall f | f in FunsIn(ds) :: GenFun(f).Some?) && AllLabelled(p, PackageLabels(ds))
  {
    hide GenDecls, GenFun, NearFun, NearDecls, Labelled, FunsIn, LabMain, LabFun;
    var c, fs := StartCtx(false, []), FunsIn(ds);
    var o := GenDecls(ds, c).value;
    DeclsAdd(ds, c);
    assert o.c.funs[0..] == p.funs;
    MainLabelled(ds);
    assert forall i | 0 <= i < |fs| :: GenFun(fs[i]) == Some(p.funs[i]);
    var ls := PackageLabels(ds);
    forall i: nat | i < |ls|
      ensures Labelled(FunOf(p, i).code, ls[i])
    {
      if i > 0 { FunLabelled(fs[i - 1]); }
    }
  }

  /** In every run of a compiled package whose jumps fit: the monitors held, in the
      order they were entered, are those that the labels say the frames hold; and a
      thread waits for itself only at an enter of a monitor that a frame further out,
      of the same function, holds. */
  lemma HeldInRuns(ds: seq<Decl>, p: Program, ops: Ops, mem: seq<Value>, n: nat)
    requires GenProgram(ds) == Some(p) && Near(ds)
    ensures forall f | f in FunsIn(ds) :: GenFun(f).Some?
    ensures var ls := PackageLabels(ds);
            match Rounds(p, ops, mem, n)
            case Running(st) =>
              FramesOk(ls, st.frames) && Open(st.w.trace) == Some(HeldByAll(ls, st.frames))
              && forall x :: x in st.w.held <==> x in HeldByAll(ls, st.frames)
            case Stopped(Deadlock, _) => exists st, k: nat :: k < n && Rounds(p, ops, mem, k) == Running(st) && HeldOutside(p, ls, st)
            case _ => true
  {
    hide GenProgram, Near, GenFun, PackageLabels, HeldOutside, AllLabelled, Run;
    PackageLabelled(ds, p);
    var ls := PackageLabels(ds);
    var st := Start(p, mem);
    StartOk(p, ls, mem);
    RunKeeps(p, ops, ls, st, n);
    var o := Run(p, ops, st, n);
    if o.Stopped? && o.why == Deadlock {
      var s, k: nat :| k < n && Run(p, ops, st, k) == Running(s) && Inv(p, ls, s) && HeldOutside(p, ls, s);
      assert Rounds(p, ops, mem, k) == Running(s);
    }
  }

  lemma StartOk(p: Program, ls: seq<Labels>, mem: seq<Value>)
    requires AllLabelled(p, ls)
    ensures Inv(p, ls, Start(p, mem))
  {
    assert Labelled(FunOf(p, 0).code, ls[0]);
    TopHeld(ls, [], Frame(0, 0, -1));
  }
}
