// Relations between the state of the interpreter and the environment of the
// source program, and the small steps the simulation proof is made of.
module SimBase {
  import opened Wrappers
  import opened Bytecode
  import opened Syntax
  import opened CodeGen
  import opened Semantics
  import opened Machine
  import opened Shape

  /** A compiled program and what it was compiled from. */
  datatype Sys = Sys(p: Program, src: Source)

  ghost predicate Linked(m: Sys) {
    && Compiled(m.src.funs, m.p.funs)
    && (forall i | 0 <= i < |m.src.funs| :: PlacedDecls(m.src.funs[i].body))
    && (forall i | 0 <= i < |m.src.funs| :: NearFun(m.src.funs[i]))
  }

  ghost function RunM(m: Sys, st: State, n: nat): Status {
    Run(m.p, m.src.ops, st, n)
  }

  function Current(m: Sys, st: State): FunObj
    requires st.frames != []
  {
    FunOf(m.p, Top(st).fid)
  }

  /** `seg` comes next. */
  ghost predicate Next(m: Sys, st: State, seg: seq<Byte>) {
    st.frames != [] && At(Current(m, st).code, Top(st).pc, seg)
  }

  // ----- what the machine does with one instruction -----

  lemma One(m: Sys, st: State)
    ensures match Step(m.p, m.src.ops, st)
            case Running(st1) => RunM(m, st, 1) == Running(st1)
            case o => RunM(m, st, 1) == o
  {
    hide Step;
    var s := Step(m.p, m.src.ops, st);
    if s.Running? {
      assert Run(m.p, m.src.ops, s.st, 0) == Running(s.st);
    }
  }

  lemma Do0(m: Sys, st: State, op: Byte)
    requires Valid(st) && Next(m, st, [op]) && Width(op) == 1
    ensures RunM(m, st, 1) == Plain0(m.src.ops, op, Goto(st, Top(st).pc + 1))
  {
    hide Plain0, Run;
    assert Current(m, st).code[Top(st).pc] == Current(m, st).code[Top(st).pc..Top(st).pc + 1][0] == op;
    One(m, st);
  }

  lemma Do1(m: Sys, st: State, op: Byte, a: Byte)
    requires Valid(st) && Next(m, st, [op, a]) && Width(op) == 2
    ensures RunM(m, st, 1) == Plain1(m.p, op, a, Goto(st, Top(st).pc + 2))
  {
    hide Plain1, Run;
    var s := Current(m, st).code[Top(st).pc..Top(st).pc + 2];
    assert s[0] == op && s[1] == a;
    One(m, st);
  }

  lemma Do2(m: Sys, st: State, op: Byte, a: Byte, b: Byte)
    requires Valid(st) && Next(m, st, [op, a, b]) && Width(op) == 3
    ensures RunM(m, st, 1) == Plain2(m.p, op, a, b, Top(st).pc + 3, Goto(st, Top(st).pc + 3))
  {
    hide Plain2, Run;
    var s := Current(m, st).code[Top(st).pc..Top(st).pc + 3];
    assert s[0] == op && s[1] == a && s[2] == b;
    One(m, st);
  }

  /** Continue a run that is still going. */
  lemma Then(m: Sys, st: State, n: nat, st1: State, k: nat)
    requires RunM(m, st, n) == Running(st1)
    ensures RunM(m, st, n + k) == RunM(m, st1, k)
  {
    hide Run;
    RunAdd(m.p, m.src.ops, st, n, k);
  }

  // ----- the instructions one by one -----

  function Behind(st: State, k: nat): State
    requires st.frames != []
  {
    Goto(st, Top(st).pc + k)
  }

  lemma DoLit(m: Sys, st: State, l: Literal)
    requires Valid(st) && Next(m, st, LitCode(l))
    ensures RunM(m, st, 1) == Running(Push(Behind(st, 1), LitValue(l)))
  {
    hide RunM, Push, Valid;
    Do0(m, st, LitCode(l)[0]);
  }

  lemma DoSmallConst(m: Sys, st: State, k: nat)
    requires Valid(st) && (k == 1 || k == 2) && Next(m, st, [if k == 1 then OP_CONST_1 else OP_CONST_2])
    ensures RunM(m, st, 1) == Running(Push(Behind(st, 1), VNum(k)))
  {
    hide RunM, Push, Valid;
    Do0(m, st, if k == 1 then OP_CONST_1 else OP_CONST_2);
  }

  lemma DoByteConst(m: Sys, st: State, a: Byte)
    requires Valid(st) && Next(m, st, [OP_FAST_CONST_8, a])
    ensures RunM(m, st, 1) == Running(Push(Behind(st, 2), VNum(a)))
  {
    hide RunM, Push, Valid;
    Do1(m, st, OP_FAST_CONST_8, a);
  }

  lemma DoWordConst(m: Sys, st: State, k: nat)
    requires Valid(st) && k < U16_LIMIT && Next(m, st, [OP_FAST_CONST_16, Lo(k), Hi(k)])
    ensures RunM(m, st, 1) == Running(Push(Behind(st, 3), VNum(k)))
  {
    hide RunM, Push, Valid, Lo, Hi, U16;
    U16RoundTrip(k);
    Do2(m, st, OP_FAST_CONST_16, Lo(k), Hi(k));
  }

  lemma DoConstant(m: Sys, st: State, k: Byte)
    requires Valid(st) && Next(m, st, [OP_CONSTANT, k]) && k < |Current(m, st).consts|
    ensures RunM(m, st, 1) == Running(Push(Behind(st, 2), Current(m, st).consts[k]))
  {
    hide RunM, Push, Valid;
    Do1(m, st, OP_CONSTANT, k);
  }

  lemma DoGetLocal(m: Sys, st: State, slot: Byte)
    requires Valid(st) && Next(m, st, [OP_GET_LOCAL, slot]) && 0 <= Top(st).slots + slot < |st.mem|
    ensures RunM(m, st, 1) == Running(Push(Behind(st, 2), st.mem[Top(st).slots + slot]))
  {
    hide RunM, Push, Valid;
    Do1(m, st, OP_GET_LOCAL, slot);
  }

  lemma DoGetGlobal(m: Sys, st: State, k: Byte, x: string)
    requires Valid(st) && Next(m, st, [OP_GET_GLOBAL, k])
    requires k < |Current(m, st).consts| && Current(m, st).consts[k] == VStr(x)
    ensures RunM(m, st, 1) == Running(Push(Behind(st, 2), Global(st.w, x)))
  {
    hide RunM, Push, Valid, Global;
    Do1(m, st, OP_GET_GLOBAL, k);
  }

  lemma DoSetLocal(m: Sys, st: State, slot: Byte)
    requires Valid(st) && Next(m, st, [OP_SET_LOCAL, slot]) && 0 <= Top(st).slots + slot < |st.mem| && st.esp > 0
    ensures RunM(m, st, 1) ==
            Running(Behind(st, 2).(esp := st.esp - 1, mem := st.mem[Top(st).slots + slot := st.mem[st.esp - 1]]))
  {
    hide RunM, Push;
    Do1(m, st, OP_SET_LOCAL, slot);
  }

  lemma DoSetGlobal(m: Sys, st: State, k: Byte, x: string)
    requires Valid(st) && Next(m, st, [OP_SET_GLOBAL, k]) && st.esp > 0
    requires k < |Current(m, st).consts| && Current(m, st).consts[k] == VStr(x)
    ensures RunM(m, st, 1) ==
            if x in st.w.globals then Running(Behind(st, 2).(esp := st.esp - 1, w := Define(st.w, x, st.mem[st.esp - 1])))
            else Stopped(Panic, st.w)
  {
    hide RunM, Push, Define;
    Do1(m, st, OP_SET_GLOBAL, k);
  }

  lemma DoDefineGlobal(m: Sys, st: State, k: Byte, x: string)
    requires Valid(st) && Next(m, st, [OP_DEFINE_GLOBAL, k]) && st.esp > 0
    requires k < |Current(m, st).consts| && Current(m, st).consts[k] == VStr(x)
    ensures RunM(m, st, 1) == Running(Behind(st, 2).(esp := st.esp - 1, w := Define(st.w, x, st.mem[st.esp - 1])))
  {
    hide RunM, Push, Define;
    Do1(m, st, OP_DEFINE_GLOBAL, k);
  }

  lemma DoEnter(m: Sys, st: State, mon: Byte)
    requires Valid(st) && Next(m, st, [OP_ENTER_MONITOR, mon])
    ensures RunM(m, st, 1) ==
            if (Top(st).fid, mon as nat) in st.w.held then Stopped(Deadlock, st.w)
            else Running(Behind(st, 2).(w := Enter(st.w, Top(st).fid, mon)))
  {
    hide RunM, Push, Valid, Enter;
    Do1(m, st, OP_ENTER_MONITOR, mon);
  }

  lemma DoExit(m: Sys, st: State, mon: Byte)
    requires Valid(st) && Next(m, st, [OP_EXIT_MONITOR, mon])
    ensures RunM(m, st, 1) == Running(Behind(st, 2).(w := Exit(st.w, Top(st).fid, mon)))
  {
    hide RunM, Push, Valid, Exit;
    Do1(m, st, OP_EXIT_MONITOR, mon);
  }

  function UnaryCode(op: UnOp): Byte {
    if op == Minus then OP_NEGATE else OP_NOT
  }

  lemma DoUnary(m: Sys, st: State, op: UnOp)
    requires Valid(st) && Next(m, st, [UnaryCode(op)]) && st.esp > 0
    ensures RunM(m, st, 1) ==
            PushOrPanic(Behind(st, 1).(esp := st.esp - 1), ApplyUnary(m.src.ops, op, st.mem[st.esp - 1]))
  {
    hide RunM, Push, ApplyUnary, PushOrPanic;
    Do0(m, st, UnaryCode(op));
  }

  /** The operators with an instruction of their own. */
  function FirstOp(op: BinOp): BinOp {
    match op
    case NotEq => Eq
    case GreaterEq => Less
    case LessEq => Greater
    case _ => op
  }

  lemma BinaryOfCode(op: BinOp)
    requires FirstOp(op) == op
    ensures BinaryOf(OpCode(op)[0]) == Some(op)
  {
  }

  lemma DoBinary(m: Sys, st: State, op: BinOp)
    requires Valid(st) && FirstOp(op) == op && Next(m, st, [OpCode(op)[0]]) && st.esp > 1
    ensures RunM(m, st, 1) == PushOrPanic(Behind(st, 1).(esp := st.esp - 2),
                                          Apply(m.src.ops, op, st.mem[st.esp - 2], st.mem[st.esp - 1]))
  {
    hide RunM, Push, Apply, PushOrPanic, BinaryOf;
    var code := OpCode(op)[0];
    assert code !in {OP_NIL, OP_TRUE, OP_FALSE, OP_CONST_1, OP_CONST_2, OP_NO_OP, OP_EOF, OP_RETURN} && Width(code) == 1;
    BinaryOfCode(op);
    Do0(m, st, code);
  }

  lemma DoPrint(m: Sys, st: State)
    requires Valid(st) && Next(m, st, [OP_PRINT]) && st.esp > 0
    ensures RunM(m, st, 1) == Running(Behind(st, 1).(esp := st.esp - 1, w := Emit(st.w, st.mem[st.esp - 1])))
  {
    hide RunM, Push, Emit;
    Do0(m, st, OP_PRINT);
  }

  lemma DoPop(m: Sys, st: State)
    requires Valid(st) && Next(m, st, [OP_POP]) && st.esp > 0
    ensures RunM(m, st, 1) == Running(Behind(st, 1).(esp := st.esp - 1))
  {
    hide RunM, Push;
    Do0(m, st, OP_POP);
  }

  lemma DoReturn(m: Sys, st: State)
    requires Valid(st) && Next(m, st, [OP_RETURN])
    ensures RunM(m, st, 1) == ReturnStep(Behind(st, 1))
  {
    hide RunM, Push, ReturnStep, Valid;
    Do0(m, st, OP_RETURN);
  }

  lemma DoEof(m: Sys, st: State)
    requires Valid(st) && Next(m, st, [OP_EOF])
    ensures RunM(m, st, 1) == Halted(st.w)
  {
    hide RunM, Push, Valid;
    Do0(m, st, OP_EOF);
  }

  lemma DoJump(m: Sys, st: State, d: nat)
    requires Valid(st) && Next(m, st, Jump(OP_JUMP, d)) && d < U16_LIMIT
    ensures RunM(m, st, 1) == Running(Behind(st, 3 + d))
  {
    hide RunM, Push, Lo, Hi, U16;
    U16RoundTrip(d);
    Do2(m, st, OP_JUMP, Lo(d), Hi(d));
  }

  lemma DoLoop(m: Sys, st: State, d: nat)
    requires Valid(st) && Next(m, st, Jump(OP_LOOP, d)) && d < U16_LIMIT && d <= Top(st).pc + 3
    ensures RunM(m, st, 1) == Running(Goto(st, Top(st).pc + 3 - d))
  {
    hide RunM, Push, Lo, Hi, U16;
    U16RoundTrip(d);
    Do2(m, st, OP_LOOP, Lo(d), Hi(d));
  }

  lemma DoBranch(m: Sys, st: State, d: nat)
    requires Valid(st) && Next(m, st, Jump(OP_JUMP_IF_FALSE, d)) && d < U16_LIMIT && st.esp > 0
    ensures RunM(m, st, 1) ==
            Running(Behind(st, if Truthy(st.mem[st.esp - 1]) then 3 else 3 + d).(esp := st.esp - 1))
  {
    hide RunM, Push, Lo, Hi, U16;
    U16RoundTrip(d);
    Do2(m, st, OP_JUMP_IF_FALSE, Lo(d), Hi(d));
  }

  lemma DoCall(m: Sys, st: State, n: Byte)
    requires Valid(st) && Next(m, st, [OP_CALL, n, 0])
    ensures RunM(m, st, 1) == CallStep(m.p, n, Behind(st, 3))
  {
    hide RunM, Push, CallStep, Valid;
    Do2(m, st, OP_CALL, n, 0);
  }

  // ----- the environment in the machine -----

  /** Index of the first operand of the current frame: the locals lie below. */
  function Base(m: Sys, st: State): int
    requires st.frames != []
  {
    Top(st).slots + 1 + Current(m, st).nLocals
  }

  ghost predicate Holds(mem: seq<Value>, at: int, env: seq<Binding>) {
    0 <= at && at + |env| <= |mem| && forall i | 0 <= i < |env| :: mem[at + i] == env[i].v
  }

  /** The current frame holds the values of `env` in its slots. */
  ghost predicate Ready(m: Sys, st: State, env: seq<Binding>) {
    && Valid(st) && st.frames != []
    && Top(st).slots >= -1
    && |env| <= Current(m, st).nLocals
    && Base(m, st) <= st.esp
    && Holds(st.mem, Top(st).slots + 1, env)
  }

  /** The visible locals are the bindings of `env`, and one more while its
      initializer is compiled. */
  ghost predicate Names(c: Ctx, env: seq<Binding>) {
    && |env| + 1 <= |c.locals| <= MAX_LOCALS && c.locals[0] == CALLEE
    && (forall i | 0 <= i < |env| :: c.locals[i + 1].name == env[i].name)
    && ((|c.locals| == |env| + 1 && c.pending == -2) || (|c.locals| == |env| + 2 && c.pending == |env| + 1))
  }

  lemma {:induction false} ResolveIndex(locals: seq<Local>, env: seq<Binding>, x: Name)
    requires |locals| == |env| + 1 && locals[0] == CALLEE
    requires forall i | 0 <= i < |env| :: locals[i + 1].name == env[i].name
    ensures Resolve(locals, x) == if Index(env, x) >= 0 then Index(env, x) + 1 else -1
    decreases |env|
  {
    if env != [] && env[|env| - 1].name != x {
      ResolveIndex(locals[..|locals| - 1], env[..|env| - 1], x);
    } else if env == [] {
      assert Resolve(locals[..0], x) == -1;
    }
  }

  /** A name the compiler accepts resolves to the slot of its binding. */
  lemma NamesResolve(c: Ctx, env: seq<Binding>, x: Name)
    requires Names(c, env) && Resolve(c.locals, x) != c.pending
    ensures Resolve(c.locals, x) == if Index(env, x) >= 0 then Index(env, x) + 1 else -1
  {
    if |c.locals| == |env| + 1 {
      ResolveIndex(c.locals, env, x);
    } else {
      ResolveIndex(c.locals[..|env| + 1], env, x);
    }
  }

  /** From `st` to `st1` the current frame went on to `pc`, pushed `res` and may
      have changed its locals, nothing else. */
  ghost predicate Moved(m: Sys, st: State, st1: State, pc: nat, env: seq<Binding>, res: seq<Value>, w: World) {
    && st.frames != [] && st1.frames == Goto(st, pc).frames
    && Ready(m, st1, env)
    && st.esp + |res| == st1.esp
    && Base(m, st) <= st.esp <= |st.mem|
    && (forall i | 0 <= i <= Top(st).slots :: i < |st.mem| ==> st1.mem[i] == st.mem[i])
    && (forall i | 0 <= i && Base(m, st) <= i < st.esp :: st1.mem[i] == st.mem[i])
    && (forall i | 0 <= i < |res| :: st1.mem[st.esp + i] == res[i])
    && st1.w == w
  }

  /** From `st` the current frame returned `v` to its caller. */
  ghost predicate Gone(st: State, st1: State, v: Value, w: World) {
    && |st.frames| >= 2 && Valid(st1)
    && 0 <= Top(st).slots < |st.mem|
    && st1.frames == Callers(st) && st1.esp == Top(st).slots + 1
    && (forall i | 0 <= i < Top(st).slots :: st1.mem[i] == st.mem[i])
    && st1.mem[Top(st).slots] == v
    && st1.w == w
  }

  /** Exit the monitors `held`, the last entered first. */
  function ExitWorld(w: World, fid: nat, held: seq<Byte>): World
    decreases held
  {
    if held == [] then w else ExitWorld(Exit(w, fid, held[|held| - 1]), fid, held[..|held| - 1])
  }

  // ----- what it means that a run does what the source does -----

  ghost predicate ExprOk(m: Sys, st: State, pc: nat, env: seq<Binding>, r: ExprResult, fuel: nat, n: nat, st1: State) {
    match r
    case EVal(v, w) => RunM(m, st, n) == Running(st1) && Moved(m, st, st1, pc, env, [v], w)
    case EStop(why, w) => RunM(m, st, n) == Stopped(why, w)
    case EFuel(w) => n >= fuel && RunM(m, st, n).Running? && RunM(m, st, n).st.w == w
  }

  ghost predicate StmtOk(m: Sys, st: State, pc: nat, c: Ctx, r: StmtResult, held: seq<Byte>, fuel: nat, n: nat, st1: State) {
    match r
    case SNormal(env, res, w) => RunM(m, st, n) == Running(st1) && Moved(m, st, st1, pc, env, res, w) && Names(c, env)
    case SRet(v, w) =>
      st.frames != [] && RunM(m, st, n) == Running(st1) && Gone(st, st1, v, ExitWorld(w, Top(st).fid, held))
    case SStop(why, w) => RunM(m, st, n) == Stopped(why, w)
    case SFuel(w) => n >= fuel && RunM(m, st, n).Running? && RunM(m, st, n).st.w == w
  }

  lemma MovedTrans(m: Sys, st: State, st1: State, st2: State, pc1: nat, pc2: nat, env1: seq<Binding>, env2: seq<Binding>,
                   res1: seq<Value>, res2: seq<Value>, w1: World, w2: World)
    requires Moved(m, st, st1, pc1, env1, res1, w1)
    requires Moved(m, st1, st2, pc2, env2, res2, w2)
    ensures Moved(m, st, st2, pc2, env2, res1 + res2, w2)
  {
    forall i | 0 <= i < |res1 + res2| ensures st2.mem[st.esp + i] == (res1 + res2)[i] {
      if i < |res1| {
        assert st1.mem[st.esp + i] == res1[i];
      } else {
        assert st2.mem[st1.esp + (i - |res1|)] == res2[i - |res1|];
      }
    }
  }

  /** A statement that ran to its end, then the rest. */
  lemma Compose(m: Sys, st: State, n1: nat, st1: State, pc1: nat, env1: seq<Binding>, res1: seq<Value>, w1: World,
                pc: nat, c: Ctx, r: StmtResult, held: seq<Byte>, fuel: nat, fuel2: nat, n2: nat, st2: State)
    requires RunM(m, st, n1) == Running(st1) && Moved(m, st, st1, pc1, env1, res1, w1)
    requires StmtOk(m, st1, pc, c, r, held, fuel2, n2, st2) && fuel <= n1 + fuel2
    ensures StmtOk(m, st, pc, c, Prepend(res1, r), held, fuel, n1 + n2, st2)
  {
    Then(m, st, n1, st1, n2);
    if r.SNormal? {
      hide RunM;
      MovedTrans(m, st, st1, st2, pc1, pc, env1, r.env, res1, r.residue, w1, r.w);
    }
  }

  /** Likewise for an expression; what was pushed so far is lost on a panic. */
  lemma ComposeExpr(m: Sys, st: State, n1: nat, st1: State, pc1: nat, env: seq<Binding>, res1: seq<Value>, w1: World,
                    pc: nat, r: ExprResult, fuel: nat, n2: nat, st2: State)
    requires RunM(m, st, n1) == Running(st1) && Moved(m, st, st1, pc1, env, res1, w1)
    requires ExprOk(m, st1, pc, env, r, fuel, n2, st2)
    ensures match r
            case EVal(v, w) => RunM(m, st, n1 + n2) == Running(st2) && Moved(m, st, st2, pc, env, res1 + [v], w)
            case EStop(why, w) => RunM(m, st, n1 + n2) == Stopped(why, w)
            case EFuel(w) => n1 + n2 >= fuel && RunM(m, st, n1 + n2).Running? && RunM(m, st, n1 + n2).st.w == w
  {
    Then(m, st, n1, st1, n2);
    if r.EVal? {
      hide RunM;
      MovedTrans(m, st, st1, st2, pc1, pc, env, env, res1, [r.v], w1, r.w);
    }
  }

  lemma MovedNext(m: Sys, st: State, st1: State, env: seq<Binding>, res: seq<Value>, w: World, a: seq<Byte>, b: seq<Byte>)
    requires Next(m, st, a + b)
    requires Moved(m, st, st1, Top(st).pc + |a|, env, res, w)
    ensures Next(m, st, a) && Next(m, st1, b) && Current(m, st1) == Current(m, st) && Base(m, st1) == Base(m, st)
    ensures Top(st1) == Top(st).(pc := Top(st).pc + |a|) && |st1.frames| == |st.frames|
  {
    AtSplit(Current(m, st).code, Top(st).pc, a, b);
  }

  lemma NextSplit(m: Sys, st: State, a: seq<Byte>, b: seq<Byte>)
    requires Next(m, st, a + b)
    ensures Next(m, st, a)
  {
    AtSplit(Current(m, st).code, Top(st).pc, a, b);
  }

  lemma PushMoved(m: Sys, st: State, pc: nat, env: seq<Binding>, v: Value)
    requires Ready(m, st, env)
    ensures Moved(m, st, Push(Goto(st, pc), v), pc, env, [v], st.w)
  {
  }

  /** Operands are replaced by one value. */
  lemma MovedReplace(m: Sys, st: State, st1: State, pc1: nat, pc: nat, env: seq<Binding>, res: seq<Value>, w: World, v: Value)
    requires Moved(m, st, st1, pc1, env, res, w)
    ensures Moved(m, st, Push(Goto(st1, pc).(esp := st.esp), v), pc, env, [v], w)
  {
  }
}
