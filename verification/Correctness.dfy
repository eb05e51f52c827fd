// Compiling and running agree with the meaning of the program.
module Correctness {
  import opened Wrappers
  import opened Bytecode
  import opened Syntax
  import opened CodeGen
  import opened Semantics
  import opened Machine
  import opened Shape
  import opened SimBase
  import opened SimSteps
  import opened Simulation

  lemma {:induction false} PlacedIn(ds: seq<Decl>)
    requires PlacedDecls(ds)
    ensures forall f | f in FunsIn(ds) :: PlacedDecls(f.body)
    decreases ds, 0
  {
    if ds != [] {
      PlacedInDecl(ds[0]);
      PlacedIn(ds[1..]);
    }
  }

  lemma {:induction false} PlacedInDecl(d: Decl)
    requires PlacedDecl(d)
    ensures forall f | f in FunsOf(d) :: PlacedDecls(f.body)
    decreases d, 1
  {
    if d.StmtDecl? { PlacedInStmt(d.s); }
  }

  lemma {:induction false} PlacedInStmt(s: Stmt)
    requires Placed(s)
    ensures forall f | f in Funs(s) :: PlacedDecls(f.body)
    decreases s, 1
  {
    match s
    case Block(ds) => PlacedIn(ds);
    case For(_, _, _, b) => PlacedInStmt(b);
    case While(_, b) => PlacedInStmt(b);
    case If(_, t, e) => PlacedInStmt(t); if e.Some? { PlacedInStmt(e.value); }
    case Sync(b) => PlacedInStmt(b);
    case _ =>
  }

  /** Outcome of running the compiled package from memory `mem` for n rounds. */
  ghost function Rounds(p: Program, ops: Ops, mem: seq<Value>, n: nat): Status {
    Run(p, ops, Start(p, mem), n)
  }

  /** With fuel f the source ends, stops or is still going, and after some n
      rounds, at least f in the last case, the machine has done the same. */
  lemma ProgramSim(ds: seq<Decl>, p: Program, ops: Ops, mem: seq<Value>, fuel: nat) returns (n: nat)
    requires GenProgram(ds) == Some(p) && PlacedDecls(ds) && Near(ds)
    ensures match RunSource(ds, ops, fuel)
            case SNormal(_, _, w) => Rounds(p, ops, mem, n) == Halted(w)
            case SStop(why, w) => Rounds(p, ops, mem, n) == Stopped(why, w)
            case SFuel(w) => n >= fuel && Rounds(p, ops, mem, n).Running? && Rounds(p, ops, mem, n).st.w == w
            case SRet(_, _) => false
  {
    hide GenFun, GenDecls, Placed, FunsIn, Moved, Run, ExecDecls, NearFun, NearDecls;
    var m := Sys(p, Source(FunsIn(ds), ops));
    var c := StartCtx(false, []);
    var o := GenDecls(ds, c).value;
    var st := Start(p, mem);
    var tail := [OP_EOF] + [OP_NIL, OP_RETURN];
    assert p.main.code == o.code + tail;
    DeclsShape(ds, c);
    assert o.c.funs[|c.funs|..] == p.funs;
    PlacedIn(ds);
    assert At(p.main.code, 0, p.main.code) by { assert p.main.code[0..|p.main.code|] == p.main.code; }
    NextSplit(m, st, o.code, tail);
    var st1;
    n, st1 := SimDecls(m, ds, c, [], st, fuel);
    var r := RunSource(ds, ops, fuel);
    if r.SNormal? {
      MovedNext(m, st, st1, r.env, r.residue, r.w, o.code, tail);
      MovedWorld(m, st, st1, Top(st).pc + |o.code|, r.env, r.residue, r.w);
      NextSplit(m, st1, [OP_EOF], [OP_NIL, OP_RETURN]);
      DoEof(m, st1);
      Then(m, st, n, st1, 1);
      n := n + 1;
    }
  }

  // ----- one meaning -----

  ghost predicate MachineEnds(p: Program, ops: Ops, mem: seq<Value>, o: Status) {
    exists n: nat :: Rounds(p, ops, mem, n) == o
  }

  /** What the machine is to report for a result of the source program. */
  function Report(r: StmtResult): Status {
    match r
    case SNormal(_, _, w) => Halted(w)
    case SStop(why, w) => Stopped(why, w)
    case _ => Stuck
  }

  predicate Final(r: StmtResult) {
    r.SNormal? || r.SStop?
  }

  ghost predicate SourceEnds(ds: seq<Decl>, ops: Ops, o: Status) {
    exists fuel: nat :: Final(RunSource(ds, ops, fuel)) && Report(RunSource(ds, ops, fuel)) == o
  }

  lemma RunDetermined(p: Program, ops: Ops, mem: seq<Value>, n: nat, k: nat)
    requires n <= k && !Rounds(p, ops, mem, n).Running?
    ensures Rounds(p, ops, mem, k) == Rounds(p, ops, mem, n)
  {
    hide Step;
    RunAdd(p, ops, Start(p, mem), n, k - n);
  }

  /** For every package the compiler accepts whose assignments are statements and
      whose code is short enough: the machine halts, panics or blocks, with given
      globals, output and monitors, exactly when the source program does; it runs
      on for ever exactly when the source program does; it never gets stuck. */
  lemma CompilerCorrect(ds: seq<Decl>, p: Program, ops: Ops, mem: seq<Value>, o: Status)
    requires GenProgram(ds) == Some(p) && PlacedDecls(ds) && Near(ds)
    ensures !o.Running? ==> (MachineEnds(p, ops, mem, o) <==> SourceEnds(ds, ops, o))
    ensures (forall n: nat :: Rounds(p, ops, mem, n).Running?) <==> (forall fuel: nat :: RunSource(ds, ops, fuel).SFuel?)
    ensures !MachineEnds(p, ops, mem, Stuck)
  {
    hide GenProgram, PlacedDecls, Near, RunSource, Rounds;
    forall n: nat | !Rounds(p, ops, mem, n).Running?
      ensures Final(RunSource(ds, ops, n + 1)) && Report(RunSource(ds, ops, n + 1)) == Rounds(p, ops, mem, n)
    {
      Decided(ds, p, ops, mem, n);
    }
    forall fuel: nat | !RunSource(ds, ops, fuel).SFuel?
      ensures Final(RunSource(ds, ops, fuel)) && MachineEnds(p, ops, mem, Report(RunSource(ds, ops, fuel)))
    {
      var k := ProgramSim(ds, p, ops, mem, fuel);
    }
  }

  lemma Decided(ds: seq<Decl>, p: Program, ops: Ops, mem: seq<Value>, n: nat)
    requires GenProgram(ds) == Some(p) && PlacedDecls(ds) && Near(ds) && !Rounds(p, ops, mem, n).Running?
    ensures Final(RunSource(ds, ops, n + 1)) && Report(RunSource(ds, ops, n + 1)) == Rounds(p, ops, mem, n)
  {
    hide GenProgram, PlacedDecls, Near, RunSource, Rounds;
    var k := ProgramSim(ds, p, ops, mem, n + 1);
    if k <= n {
      if !Rounds(p, ops, mem, k).Running? { RunDetermined(p, ops, mem, k, n); }
    } else {
      RunDetermined(p, ops, mem, n, k);
    }
  }
}
