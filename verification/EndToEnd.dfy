// From text to behaviour: printing, compiling and running a package does what the
// package means.
module EndToEnd {
  import opened Wrappers
  import opened Bytecode
  import opened Syntax
  import opened CodeGen
  import opened Parser
  import opened Printer
  import opened Semantics
  import opened Machine
  import opened Correctness
  import opened CompilerSpec
  import opened SimBase
  import Compiler
  import Vm

  /** The text of a package, compiled in one pass and run from any stack memory,
      ends as the package does, and runs on when it does. */
  lemma TextRuns(ds: seq<Decl>, p: Program, ops: Ops, mem: seq<Value>, o: Status)
    requires ClearAll(ds) && PlacedDecls(ds)
    requires CProgram(PrDecls(ds)) == Some(p) && Near(ds)
    ensures !o.Running? ==> (MachineEnds(p, ops, mem, o) <==> SourceEnds(ds, ops, o))
    ensures (forall n: nat :: Rounds(p, ops, mem, n).Running?) <==> (forall fuel: nat :: RunSource(ds, ops, fuel).SFuel?)
    ensures !MachineEnds(p, ops, mem, Stuck)
  {
    hide GenProgram, PlacedDecls, Near, RunSource, Rounds, ClearAll, PrDecls, PProgram;
    ParseProgram(ds);
    CompilerCorrect(ds, p, ops, mem, o);
  }

  datatype Verdict = CompileError | Ok(w: World) | Failed(why: Why, w: World) | OutOfTime | StackOverflow

  /** interpret_vm on the result of compile_bytecode, given up after `limit`
      rounds.  A text whose assignments are statements and whose jumps fit is
      rejected, or ends as it means, or overflows the stack, or takes longer. */
  method Interpret(source: Tokens, ops: Ops, limit: nat) returns (r: Verdict)
    ensures r.CompileError? <==> CProgram(source).None?
    ensures CProgram(source).Some? && PlacedDecls(PProgram(source).value) && Near(PProgram(source).value) ==>
              var ds, p := PProgram(source).value, CProgram(source).value;
              match r
              case Ok(w) => SourceEnds(ds, ops, Halted(w))
              case Failed(why, w) => SourceEnds(ds, ops, Stopped(why, w))
              case StackOverflow => exists mem, n: nat :: |mem| == Vm.STACK_MAX && n <= limit && Overflows(Rounds(p, ops, mem, n))
              case OutOfTime => exists mem :: |mem| == Vm.STACK_MAX && Rounds(p, ops, mem, limit).Running?
              case CompileError => false
  {
    hide PProgram, PlacedDecls, Near, SourceEnds, Run, MachineEnds;
    var compiled := Compiler.CompileBytecode(source);
    if compiled.None? {
      return CompileError;
    }
    var p := compiled.value;
    Slots(source);
    var thread := new Vm.VmThread(p, ops);
    ghost var mem := thread.stack[..];
    var o := thread.RunRounds(limit);
    ghost var s := Rounds(p, ops, mem, limit);
    if PlacedDecls(PProgram(source).value) && Near(PProgram(source).value) {
      Meant(PProgram(source).value, p, ops, mem, limit);
    }
    match o
    case GoOn => r := OutOfTime;
    case Ends => r := Ok(World(thread.globals, thread.log, thread.held));
    case Fails(why) => r := Failed(why, World(thread.globals, thread.log, thread.held));
    case Undefined =>
      r := StackOverflow;
      ghost var n: nat :| n <= limit && Vm.Undef(Run(p, ops, Start(p, mem), n));
      if PlacedDecls(PProgram(source).value) && Near(PProgram(source).value) {
        Meant(PProgram(source).value, p, ops, mem, n);
        assert Overflows(Rounds(p, ops, mem, n));
      }
  }

  ghost predicate Overflows(s: Status) {
    s.Running? && |s.st.mem| > Vm.STACK_MAX
  }

  /** What is reached when the machine ends is what the source means. */
  lemma Meant(ds: seq<Decl>, p: Program, ops: Ops, mem: seq<Value>, n: nat)
    requires GenProgram(ds) == Some(p) && PlacedDecls(ds) && Near(ds)
    ensures !Rounds(p, ops, mem, n).Running? ==> SourceEnds(ds, ops, Rounds(p, ops, mem, n))
    ensures Rounds(p, ops, mem, n) != Stuck
  {
    hide GenProgram, PlacedDecls, Near, RunSource, Run, SourceEnds;
    var o := Rounds(p, ops, mem, n);
    assert MachineEnds(p, ops, mem, o);
    CompilerCorrect(ds, p, ops, mem, o);
  }

  /** The locals of the package fit the stack. */
  lemma Slots(source: Tokens)
    requires CProgram(source).Some?
    ensures CProgram(source).value.main.nLocals <= MAX_LOCALS
  {
    hide PProgram, GenDecls;
    KeptByDecls(PProgram(source).value, StartCtx(false, []));
  }

  const MISPLACED: seq<Decl> :=
    [VarDecl("a", None), StmtDecl(Print(Assign("a", Number(1, false))))]

  /** `var a; print a = 1;` is accepted, but its assignment takes the value that
      print then looks for below the stack: why assignments must be statements. */
  lemma MisplacedAssignment(ops: Ops)
    ensures !PlacedDecls(MISPLACED) && GenProgram(MISPLACED).Some?
    ensures MachineEnds(GenProgram(MISPLACED).value, ops, [], Stuck)
  {
    MisplacedCode();
    assert !PlacedDecl(MISPLACED[1]);
    var p := GenProgram(MISPLACED).value;
    hide GenProgram, Rounds;
    MisplacedRun(p, ops);
  }

  lemma MisplacedCode()
    ensures GenProgram(MISPLACED).Some?
    ensures var main := GenProgram(MISPLACED).value.main;
            && main.code == [OP_NIL, OP_DEFINE_GLOBAL, 0, OP_CONST_1, OP_SET_GLOBAL, 1, OP_PRINT, OP_EOF, OP_NIL, OP_RETURN]
            && main.consts == [VStr("a"), VStr("a")] && main.nLocals == 0
  {
    var c := StartCtx(false, []);
    var d0, d1: Decl := MISPLACED[0], MISPLACED[1];
    MisplacedVar(c);
    var o0 := GenDecl(d0, c).value;
    MisplacedPrint(o0.c);
    var o1 := GenDecl(d1, o0.c).value;
    hide GenDecl;
    assert MISPLACED[1..] == [d1] && [d1][1..] == [];
    assert o1.code + [] == o1.code;
    assert GenDecls([d1], o0.c) == Some(o1);
    assert GenDecls(MISPLACED, c) == Some(Out(o0.code + o1.code, o1.c));
  }

  /** No local but the callee at the top of a package. */
  ghost predicate TopLevel(c: Ctx) {
    c.depth == 0 && c.locals == [CALLEE] && c.maxLocals == 0 && c.pending == -2
  }

  lemma MisplacedVar(c: Ctx)
    requires TopLevel(c) && !c.setOp && c.consts == []
    ensures var o := GenDecl(MISPLACED[0], c);
            && o.Some? && o.value.code == [OP_NIL, OP_DEFINE_GLOBAL, 0]
            && o.value.c.consts == [VStr("a")] && TopLevel(o.value.c) && !o.value.c.setOp
  {
  }

  lemma MisplacedPrint(c: Ctx)
    requires TopLevel(c) && !c.setOp && c.consts == [VStr("a")]
    ensures var o := GenDecl(MISPLACED[1], c);
            && o.Some? && o.value.code == [OP_CONST_1, OP_SET_GLOBAL, 1, OP_PRINT]
            && o.value.c.consts == [VStr("a"), VStr("a")] && TopLevel(o.value.c)
  {
    var one := Number(1, false);
    assert Resolve(c.locals, "a") == -1;
    var c1 := AddConst(c, VStr("a")).value.1.(setOp := true);
    assert GenExpr(one, c1) == Some(Out([OP_CONST_1], c1));
    assert [OP_CONST_1] + [OP_SET_GLOBAL, 1] == [OP_CONST_1, OP_SET_GLOBAL, 1];
    assert GenExpr(Assign("a", one), c) == Some(Out([OP_CONST_1, OP_SET_GLOBAL, 1], c1));
    assert [OP_CONST_1, OP_SET_GLOBAL, 1] + [OP_PRINT] == [OP_CONST_1, OP_SET_GLOBAL, 1, OP_PRINT];
    assert MISPLACED[1] == StmtDecl(Print(Assign("a", one)));
  }

  lemma MisplacedRun(p: Program, ops: Ops)
    requires p.main.code == [OP_NIL, OP_DEFINE_GLOBAL, 0, OP_CONST_1, OP_SET_GLOBAL, 1, OP_PRINT, OP_EOF, OP_NIL, OP_RETURN]
    requires p.main.consts == [VStr("a"), VStr("a")] && p.main.nLocals == 0
    ensures Rounds(p, ops, [], 5) == Stuck
  {
    var m := Sys(p, Source([], ops));
    var w := World(map[], [], {});
    var s0 := State([Frame(0, 0, -1)], [], 0, w);
    assert Start(p, []) == s0;
    hide Define, Run, RunM, Step, Start, At, FunOf;
    var s2 := MisplacedStart(m, s0);
    MisplacedEnd(m, s2);
    Then(m, s0, 2, s2, 3);
    Unfold(m, s0);
  }

  /** The variable is declared. */
  lemma MisplacedStart(m: Sys, s0: State) returns (s2: State)
    requires m.p.main.code == [OP_NIL, OP_DEFINE_GLOBAL, 0, OP_CONST_1, OP_SET_GLOBAL, 1, OP_PRINT, OP_EOF, OP_NIL, OP_RETURN]
    requires m.p.main.consts == [VStr("a"), VStr("a")] && m.p.main.nLocals == 0
    requires s0 == State([Frame(0, 0, -1)], [], 0, World(map[], [], {}))
    ensures RunM(m, s0, 2) == Running(s2)
    ensures s2.frames == [Frame(0, 3, -1)] && s2.mem == [VNil] && s2.esp == 0 && "a" in s2.w.globals
  {
    var s1 := State([Frame(0, 1, -1)], [VNil], 1, s0.w);
    s2 := State([Frame(0, 3, -1)], [VNil], 0, Define(s0.w, "a", VNil));
    assert "a" in s2.w.globals;
    MisplacedPieces(m.p);
    assert Current(m, s0) == Current(m, s1) == m.p.main;
    hide Define, Run, RunM, Step, At, FunOf, Current;
    assert RunM(m, s0, 1) == Running(s1) by { DoLit(m, s0, LNil); }
    assert RunM(m, s1, 1) == Running(s2) by { DoDefineGlobal(m, s1, 0, "a"); }
    Then(m, s0, 1, s1, 1);
  }

  /** The assignment leaves nothing to print. */
  lemma MisplacedEnd(m: Sys, s2: State)
    requires m.p.main.code == [OP_NIL, OP_DEFINE_GLOBAL, 0, OP_CONST_1, OP_SET_GLOBAL, 1, OP_PRINT, OP_EOF, OP_NIL, OP_RETURN]
    requires m.p.main.consts == [VStr("a"), VStr("a")] && m.p.main.nLocals == 0
    requires s2.frames == [Frame(0, 3, -1)] && s2.mem == [VNil] && s2.esp == 0 && "a" in s2.w.globals
    ensures RunM(m, s2, 3) == Stuck
  {
    var s3 := State([Frame(0, 4, -1)], [VNum(1)], 1, s2.w);
    var s4 := State([Frame(0, 6, -1)], [VNum(1)], 0, Define(s2.w, "a", VNum(1)));
    MisplacedPieces(m.p);
    assert Current(m, s2) == Current(m, s3) == Current(m, s4) == m.p.main;
    hide Define, Run, RunM, Step, At, FunOf, Current;
    assert RunM(m, s2, 1) == Running(s3) by { DoSmallConst(m, s2, 1); }
    assert RunM(m, s3, 1) == Running(s4) by { DoSetGlobal(m, s3, 1, "a"); }
    assert RunM(m, s4, 1) == Stuck by { PrintUnderflow(m, s4); }
    Then(m, s2, 1, s3, 2);
    Then(m, s3, 1, s4, 1);
  }

  lemma MisplacedPieces(p: Program)
    requires p.main.code == [OP_NIL, OP_DEFINE_GLOBAL, 0, OP_CONST_1, OP_SET_GLOBAL, 1, OP_PRINT, OP_EOF, OP_NIL, OP_RETURN]
    ensures At(p.main.code, 0, [OP_NIL]) && At(p.main.code, 1, [OP_DEFINE_GLOBAL, 0]) && At(p.main.code, 3, [OP_CONST_1])
    ensures At(p.main.code, 4, [OP_SET_GLOBAL, 1]) && At(p.main.code, 6, [OP_PRINT])
  {
    var code := p.main.code;
    assert code[0..1] == [code[0]] && code[1..3] == [code[1], code[2]] && code[3..4] == [code[3]];
    assert code[4..6] == [code[4], code[5]] && code[6..7] == [code[6]];
  }

  lemma PrintUnderflow(m: Sys, st: State)
    requires Valid(st) && Next(m, st, [OP_PRINT]) && st.esp == 0
    ensures RunM(m, st, 1) == Stuck
  {
    hide RunM;
    Do0(m, st, OP_PRINT);
  }

  lemma Unfold(m: Sys, st: State)
    ensures RunM(m, st, 5) == Run(m.p, m.src.ops, st, 5)
  {
  }
}
