// What programs mean, told construct by construct without the functions that meaning
// and machine share: which values count as true, what operators give, what a statement
// leaves in the world.
module MeaningLaws {
  import opened Wrappers
  import opened Bytecode
  import opened Syntax
  import opened CodeGen
  import opened Semantics
  import opened Machine

  // ----- conditions -----

  /** An `if` takes its first branch for `true` and for no other value. */
  lemma IfTakes(p: Source, c: Expr, t: Stmt, e: Option<Stmt>, h: Here, env: seq<Binding>, w: World, fuel: nat, depth: nat,
                v: Value, w1: World)
    requires Eval(p, c, env, w, fuel, depth) == EVal(v, w1)
    ensures v == VBool(true) ==> Exec(p, If(c, t, e), h, env, w, fuel, depth) == Exec(p, t, h, env, w1, fuel, depth)
    ensures v != VBool(true) ==>
              Exec(p, If(c, t, e), h, env, w, fuel, depth) ==
              if e.None? then SNormal(env, [], w1)
              else Exec(p, e.value, h.(mon := h.mon + Syncs(t), fun := h.fun + |Funs(t)|), env, w1, fuel, depth)
  {
  }

  lemma IfLiteral(p: Source, t: Stmt, e: Stmt, h: Here, env: seq<Binding>, w: World, fuel: nat, depth: nat)
    ensures Exec(p, If(Lit(LTrue), t, Some(e)), h, env, w, fuel, depth) == Exec(p, t, h, env, w, fuel, depth)
    ensures Exec(p, If(Lit(LTrue), t, None), h, env, w, fuel, depth) == Exec(p, t, h, env, w, fuel, depth)
    ensures Exec(p, If(Lit(LFalse), t, Some(e)), h, env, w, fuel, depth) ==
            Exec(p, e, h.(mon := h.mon + Syncs(t), fun := h.fun + |Funs(t)|), env, w, fuel, depth)
    ensures Exec(p, If(Lit(LFalse), t, None), h, env, w, fuel, depth) == SNormal(env, [], w)
  {
    hide Syncs, Funs;
    IfTakes(p, Lit(LTrue), t, Some(e), h, env, w, fuel, depth, VBool(true), w);
    IfTakes(p, Lit(LTrue), t, None, h, env, w, fuel, depth, VBool(true), w);
    IfTakes(p, Lit(LFalse), t, Some(e), h, env, w, fuel, depth, VBool(false), w);
    IfTakes(p, Lit(LFalse), t, None, h, env, w, fuel, depth, VBool(false), w);
  }

  /** A loop is over when its condition is anything but `true`. */
  lemma LoopOver(p: Source, s: Stmt, h: Here, env: seq<Binding>, w: World, fuel: nat, depth: nat, v: Value, w1: World)
    requires s.While? && Eval(p, s.cond, env, w, fuel, depth) == EVal(v, w1) && v != VBool(true)
    ensures Exec(p, s, h, env, w, fuel, depth) == SNormal(env, [], w1)
  {
  }

  lemma WhileFalse(p: Source, b: Stmt, h: Here, env: seq<Binding>, w: World, fuel: nat, depth: nat)
    ensures Exec(p, While(Lit(LFalse), b), h, env, w, fuel, depth) == SNormal(env, [], w)
  {
    LoopOver(p, While(Lit(LFalse), b), h, env, w, fuel, depth, VBool(false), w);
  }

  /** While it is `true`, the body is done and then the loop once more; what rounds
      leave on the operand stack is put one behind the other. */
  lemma LoopAgain(p: Source, c: Expr, b: Stmt, h: Here, env: seq<Binding>, w: World, fuel: nat, depth: nat, w1: World)
    requires Eval(p, c, env, w, fuel, depth) == EVal(VBool(true), w1)
    ensures Exec(p, While(c, b), h, env, w, fuel, depth) ==
            match Exec(p, b, h, env, w1, fuel, depth)
            case SNormal(env2, res, w2) =>
              if fuel == 0 then SFuel(w2)
              else
                (match Exec(p, While(c, b), h, env2, w2, fuel - 1, depth)
                 case SNormal(env3, res3, w3) => SNormal(env3, res + res3, w3)
                 case o => o)
            case o => o
  {
    hide Eval;
    var s := While(c, b);
    assert ExecRound(p, s, h, env, w1, fuel, depth) == Exec(p, b, h, env, w1, fuel, depth);
    assert Exec(p, s, h, env, w, fuel, depth) == ExecLoop(p, s, h, env, w, fuel, depth);
    var r := Exec(p, b, h, env, w1, fuel, depth);
    if r.SNormal? && fuel > 0 {
      assert Exec(p, s, h, r.env, r.w, fuel - 1, depth) == ExecLoop(p, s, h, r.env, r.w, fuel - 1, depth);
    }
  }

  /** The conditional jump, number 22, stays for `true` and jumps for every other
      value. */
  lemma JumpsUnlessTrue(p: Program, ops: Ops, st: State)
    requires st.frames != [] && Valid(st) && st.esp > 0
    requires var code, pc := FunOf(p, Top(st).fid).code, Top(st).pc; pc + 3 <= |code| && code[pc] == 22
    ensures var code, pc := FunOf(p, Top(st).fid).code, Top(st).pc;
            var low: nat, high: nat := code[pc + 1], code[pc + 2];
            var to := if st.mem[st.esp - 1] == VBool(true) then pc + 3 else pc + 3 + low + 256 * high;
            Step(p, ops, st) == Running(State(Callers(st) + [Frame(Top(st).fid, to, Top(st).slots)], st.mem, st.esp - 1, st.w))
  {
    var pc := Top(st).pc;
    assert Callers(Goto(st, pc + 3)) == Callers(st);
  }

  // ----- operators -----

  /** Equality is that of values, addition and the operations on numbers are those
      given, comparisons are made of two of them, and anything but numbers under them
      is a panic. */
  lemma OperatorGives(p: Source, op: BinOp, l: Expr, r: Expr, env: seq<Binding>, w: World, fuel: nat, depth: nat,
                      a: Value, w1: World, b: Value, w2: World)
    requires Eval(p, l, env, w, fuel, depth) == EVal(a, w1) && Eval(p, r, env, w1, fuel, depth) == EVal(b, w2)
    ensures var result := Eval(p, Binary(op, l, r), env, w, fuel, depth);
            && (op == Eq ==> result == EVal(VBool(a == b), w2))
            && (op == NotEq ==> result == EVal(VBool(a != b), w2))
            && (op == Add ==> result == if p.ops.add(a, b).Some? then EVal(p.ops.add(a, b).value, w2) else EStop(Panic, w2))
            && (op !in {Eq, NotEq, Add} && !(a.VNum? && b.VNum?) ==> result == EStop(Panic, w2))
            && (a.VNum? && b.VNum? ==>
                  && (op in {Sub, Mul, Div, Mod, BitAnd, BitOr, Shl, Shr} ==> result == EVal(VNum(p.ops.arith(op, a.n, b.n)), w2))
                  && (op == Less ==> result == EVal(VBool(p.ops.less(a.n, b.n)), w2))
                  && (op == GreaterEq ==> result == EVal(VBool(!p.ops.less(a.n, b.n)), w2))
                  && (op == Greater ==> result == EVal(VBool(p.ops.greater(a.n, b.n)), w2))
                  && (op == LessEq ==> result == EVal(VBool(!p.ops.greater(a.n, b.n)), w2)))
  {
    Applied(p.ops, op, a, b);
    assert Eval(p, Binary(op, l, r), env, w, fuel, depth) == OrPanic(Apply(p.ops, op, a, b), w2);
    hide Eval, Apply;
  }

  lemma Applied(ops: Ops, op: BinOp, a: Value, b: Value)
    ensures op == Eq ==> Apply(ops, op, a, b) == Some(VBool(a == b))
    ensures op == NotEq ==> Apply(ops, op, a, b) == Some(VBool(a != b))
    ensures op == Add ==> Apply(ops, op, a, b) == ops.add(a, b)
    ensures op !in {Eq, NotEq, Add} && !(a.VNum? && b.VNum?) ==> Apply(ops, op, a, b) == None
    ensures a.VNum? && b.VNum? ==>
              && (op in {Sub, Mul, Div, Mod, BitAnd, BitOr, Shl, Shr} ==> Apply(ops, op, a, b) == Some(VNum(ops.arith(op, a.n, b.n))))
              && (op == Less ==> Apply(ops, op, a, b) == Some(VBool(ops.less(a.n, b.n))))
              && (op == GreaterEq ==> Apply(ops, op, a, b) == Some(VBool(!ops.less(a.n, b.n))))
              && (op == Greater ==> Apply(ops, op, a, b) == Some(VBool(ops.greater(a.n, b.n))))
              && (op == LessEq ==> Apply(ops, op, a, b) == Some(VBool(!ops.greater(a.n, b.n))))
  {
  }

  lemma OnNumbers(p: Source, a: nat, b: nat, env: seq<Binding>, w: World, fuel: nat, depth: nat)
    ensures forall op | op in {Sub, Mul, Div, Mod, BitAnd, BitOr, Shl, Shr} ::
              Eval(p, Binary(op, Number(a, false), Number(b, false)), env, w, fuel, depth) == EVal(VNum(p.ops.arith(op, a, b)), w)
    ensures Eval(p, Binary(Less, Number(a, false), Number(b, false)), env, w, fuel, depth) == EVal(VBool(p.ops.less(a, b)), w)
    ensures Eval(p, Binary(GreaterEq, Number(a, false), Number(b, false)), env, w, fuel, depth) == EVal(VBool(!p.ops.less(a, b)), w)
    ensures Eval(p, Binary(Greater, Number(a, false), Number(b, false)), env, w, fuel, depth) == EVal(VBool(p.ops.greater(a, b)), w)
    ensures Eval(p, Binary(LessEq, Number(a, false), Number(b, false)), env, w, fuel, depth) == EVal(VBool(!p.ops.greater(a, b)), w)
    ensures Eval(p, Binary(Eq, Number(a, false), Number(b, false)), env, w, fuel, depth) == EVal(VBool(a == b), w)
  {
    var x, y := Number(a, false), Number(b, false);
    assert Eval(p, x, env, w, fuel, depth) == EVal(VNum(a), w) && Eval(p, y, env, w, fuel, depth) == EVal(VNum(b), w);
    hide Eval;
    forall op: BinOp
      ensures op in {Sub, Mul, Div, Mod, BitAnd, BitOr, Shl, Shr} ==>
                Eval(p, Binary(op, x, y), env, w, fuel, depth) == EVal(VNum(p.ops.arith(op, a, b)), w)
    {
      OperatorGives(p, op, x, y, env, w, fuel, depth, VNum(a), w, VNum(b), w);
    }
    OperatorGives(p, Less, x, y, env, w, fuel, depth, VNum(a), w, VNum(b), w);
    OperatorGives(p, GreaterEq, x, y, env, w, fuel, depth, VNum(a), w, VNum(b), w);
    OperatorGives(p, Greater, x, y, env, w, fuel, depth, VNum(a), w, VNum(b), w);
    OperatorGives(p, LessEq, x, y, env, w, fuel, depth, VNum(a), w, VNum(b), w);
    OperatorGives(p, Eq, x, y, env, w, fuel, depth, VNum(a), w, VNum(b), w);
  }

  /** Only numbers are negated, and only `true` and `false` have an opposite. */
  lemma PrefixGives(p: Source, e: Expr, env: seq<Binding>, w: World, fuel: nat, depth: nat, v: Value, w1: World)
    requires Eval(p, e, env, w, fuel, depth) == EVal(v, w1)
    ensures Eval(p, Unary(Minus, e), env, w, fuel, depth) == if v.VNum? then EVal(VNum(p.ops.neg(v.n)), w1) else EStop(Panic, w1)
    ensures Eval(p, Unary(Bang, e), env, w, fuel, depth) == if v.VBool? then EVal(VBool(!v.b), w1) else EStop(Panic, w1)
  {
  }

  // ----- variables and the world -----

  /** The i-th variable is the last of its name. */
  predicate LastNamed(env: seq<Binding>, x: string, i: nat) {
    i < |env| && env[i].name == x && forall j: nat | i < j < |env| :: env[j].name != x
  }

  predicate NoneNamed(env: seq<Binding>, x: string) {
    forall i: nat | i < |env| :: env[i].name != x
  }

  lemma {:induction false} LastOf(env: seq<Binding>, x: string, i: nat)
    requires LastNamed(env, x, i)
    ensures Index(env, x) == i
    decreases |env|
  {
    var n := |env| - 1;
    if env[n].name != x { LastOf(env[..n], x, i); }
  }

  lemma {:induction false} NoneOf(env: seq<Binding>, x: string)
    requires NoneNamed(env, x)
    ensures Index(env, x) == -1
    decreases |env|
  {
    if env != [] { NoneOf(env[..|env| - 1], x); }
  }

  /** A name means the last local that has it, or else the global, or else nil. */
  lemma NameMeans(p: Source, env: seq<Binding>, x: Name, w: World, fuel: nat, depth: nat)
    ensures forall i: nat | LastNamed(env, x, i) :: Eval(p, Var(x), env, w, fuel, depth) == EVal(env[i].v, w)
    ensures NoneNamed(env, x) ==> Eval(p, Var(x), env, w, fuel, depth) == EVal(if x in w.globals then w.globals[x] else VNil, w)
  {
    if NoneNamed(env, x) { NoneOf(env, x); }
    forall i: nat | LastNamed(env, x, i)
      ensures Index(env, x) == i
    {
      LastOf(env, x, i);
    }
  }

  /** An assignment changes the variable that its name means and nothing else; there
      has to be one. */
  lemma AssignChanges(p: Source, x: Name, e: Expr, env: seq<Binding>, h: Here, w: World, fuel: nat, depth: nat, v: Value, w1: World)
    requires Eval(p, e, env, w, fuel, depth) == EVal(v, w1)
    ensures forall i: nat | LastNamed(env, x, i) ::
              Exec(p, ExprStmt(Assign(x, e)), h, env, w, fuel, depth) == SNormal(env[i := Binding(x, v)], [], w1)
    ensures NoneNamed(env, x) ==>
              Exec(p, ExprStmt(Assign(x, e)), h, env, w, fuel, depth) ==
              if x in w1.globals then SNormal(env, [], World(w1.globals[x := v], w1.trace, w1.held)) else SStop(Panic, w1)
  {
    hide LastNamed, NoneNamed;
    if NoneNamed(env, x) { NoneOf(env, x); }
    forall i: nat | LastNamed(env, x, i)
      ensures Index(env, x) == i < |env| && env[i].name == x
    {
      LastOf(env, x, i);
      NamedAt(env, x, i);
    }
  }

  lemma NamedAt(env: seq<Binding>, x: string, i: nat)
    requires LastNamed(env, x, i)
    ensures i < |env| && env[i].name == x
  {
  }

  /** `print` writes the value behind what was written. */
  lemma PrintWrites(p: Source, e: Expr, h: Here, env: seq<Binding>, w: World, fuel: nat, depth: nat, v: Value, w1: World)
    requires Eval(p, e, env, w, fuel, depth) == EVal(v, w1)
    ensures Exec(p, Print(e), h, env, w, fuel, depth) == SNormal(env, [], World(w1.globals, w1.trace + [Printed(v)], w1.held))
  {
  }

  /** A monitor is held exactly while its statement is carried out: for nothing else
      is changed, and whoever holds it already waits for ever. */
  lemma SyncHolds(p: Source, b: Stmt, h: Here, env: seq<Binding>, w: World, fuel: nat, depth: nat)
    ensures (h.fid, h.mon) in w.held ==> Exec(p, Sync(b), h, env, w, fuel, depth) == SStop(Deadlock, w)
    ensures (h.fid, h.mon) !in w.held ==>
              var inside := World(w.globals, w.trace + [Entered(h.fid, h.mon)], w.held + {(h.fid, h.mon)});
              Exec(p, Sync(b), h, env, w, fuel, depth) ==
              match Exec(p, b, h.(mon := h.mon + 1), env, inside, fuel, depth)
              case SNormal(env1, res, w1) =>
                SNormal(env1, res, World(w1.globals, w1.trace + [Exited(h.fid, h.mon)], w1.held - {(h.fid, h.mon)}))
              case SRet(v, w1) => SRet(v, World(w1.globals, w1.trace + [Exited(h.fid, h.mon)], w1.held - {(h.fid, h.mon)}))
              case o => o
  {
  }

  // ----- the instruction set by its numbers -----

  /** The frame behind an instruction of n bytes. */
  function Next(st: State, n: nat): State
    requires st.frames != []
  {
    State(Callers(st) + [Frame(Top(st).fid, Top(st).pc + n, Top(st).slots)], st.mem, st.esp, st.w)
  }

  ghost predicate Stands(p: Program, st: State, n: nat) {
    st.frames != [] && Valid(st) && Top(st).pc + n <= |FunOf(p, Top(st).fid).code|
  }

  /** Constants, printing, dropping, and the end. */
  lemma PlainByNumber(p: Program, ops: Ops, st: State)
    requires Stands(p, st, 1)
    ensures var op, next := FunOf(p, Top(st).fid).code[Top(st).pc], Next(st, 1);
            && (op == 1 ==> Step(p, ops, st) == Running(Push(next, VNil)))
            && (op == 2 ==> Step(p, ops, st) == Running(Push(next, VBool(true))))
            && (op == 3 ==> Step(p, ops, st) == Running(Push(next, VBool(false))))
            && (op == 38 ==> Step(p, ops, st) == Running(Push(next, VNum(1))))
            && (op == 39 ==> Step(p, ops, st) == Running(Push(next, VNum(2))))
            && (op == 40 ==> Step(p, ops, st) == Running(next))
            && (op == 11 ==> Step(p, ops, st) == Halted(st.w))
            && (op == 8 ==> Step(p, ops, st) == ReturnStep(next))
            && (op == 4 && st.esp > 0 ==> Step(p, ops, st) == Running(next.(esp := st.esp - 1)))
            && (op == 10 && st.esp > 0 ==>
                  Step(p, ops, st) ==
                  Running(State(next.frames, st.mem, st.esp - 1,
                                World(st.w.globals, st.w.trace + [Printed(st.mem[st.esp - 1])], st.w.held))))
  {
    hide Push, ReturnStep;
    assert Goto(st, Top(st).pc + 1) == Next(st, 1);
  }

  /** What an operation on numbers leaves instead of its operands. */
  function Result(below: State, numbers: bool, v: Value): Status
    requires Valid(below)
  {
    if numbers then Running(Push(below, v)) else Stopped(Panic, below.w)
  }

  lemma BinaryByNumber(p: Program, ops: Ops, st: State)
    requires Stands(p, st, 1) && st.esp >= 2
    ensures var op, below := FunOf(p, Top(st).fid).code[Top(st).pc], Next(st, 1).(esp := st.esp - 2);
            var a, b := st.mem[st.esp - 2], st.mem[st.esp - 1];
            var ok := a.VNum? && b.VNum?;
            var x, y := if ok then a.n else 0, if ok then b.n else 0;
            && (op == 5 ==> Step(p, ops, st) == Running(Push(below, VBool(a == b))))
            && (op == 12 ==> Step(p, ops, st) == if ops.add(a, b).Some? then Running(Push(below, ops.add(a, b).value)) else Stopped(Panic, st.w))
            && (op == 6 ==> Step(p, ops, st) == Result(below, ok, VBool(ops.greater(x, y))))
            && (op == 7 ==> Step(p, ops, st) == Result(below, ok, VBool(ops.less(x, y))))
            && (op == 13 ==> Step(p, ops, st) == Result(below, ok, VNum(ops.arith(Sub, x, y))))
            && (op == 19 ==> Step(p, ops, st) == Result(below, ok, VNum(ops.arith(Mul, x, y))))
            && (op == 20 ==> Step(p, ops, st) == Result(below, ok, VNum(ops.arith(Div, x, y))))
            && (op == 44 ==> Step(p, ops, st) == Result(below, ok, VNum(ops.arith(BitAnd, x, y))))
            && (op == 45 ==> Step(p, ops, st) == Result(below, ok, VNum(ops.arith(BitOr, x, y))))
            && (op == 46 ==> Step(p, ops, st) == Result(below, ok, VNum(ops.arith(Shl, x, y))))
            && (op == 47 ==> Step(p, ops, st) == Result(below, ok, VNum(ops.arith(Shr, x, y))))
            && (op == 48 ==> Step(p, ops, st) == Result(below, ok, VNum(ops.arith(Mod, x, y))))
  {
    var op := FunOf(p, Top(st).fid).code[Top(st).pc];
    BinaryNumbers(op);
    if BinaryOf(op).Some? {
      StepsBinary(p, ops, st);
      Applied(ops, BinaryOf(op).value, st.mem[st.esp - 2], st.mem[st.esp - 1]);
    }
    hide Apply, Push, Step, Next, FunOf, BinaryOf;
  }

  lemma BinaryNumbers(op: Byte)
    ensures op in {5, 6, 7, 12, 13, 19, 20, 44, 45, 46, 47, 48} ==> BinaryOf(op).Some?
    ensures op == 5 ==> BinaryOf(op) == Some(Eq)
    ensures op == 6 ==> BinaryOf(op) == Some(Greater)
    ensures op == 7 ==> BinaryOf(op) == Some(Less)
    ensures op == 12 ==> BinaryOf(op) == Some(Add)
    ensures op == 13 ==> BinaryOf(op) == Some(Sub)
    ensures op == 19 ==> BinaryOf(op) == Some(Mul)
    ensures op == 20 ==> BinaryOf(op) == Some(Div)
    ensures op == 44 ==> BinaryOf(op) == Some(BitAnd)
    ensures op == 45 ==> BinaryOf(op) == Some(BitOr)
    ensures op == 46 ==> BinaryOf(op) == Some(Shl)
    ensures op == 47 ==> BinaryOf(op) == Some(Shr)
    ensures op == 48 ==> BinaryOf(op) == Some(Mod)
  {
  }

  lemma StepsBinary(p: Program, ops: Ops, st: State)
    requires Stands(p, st, 1) && st.esp >= 2
    requires BinaryOf(FunOf(p, Top(st).fid).code[Top(st).pc]).Some?
    ensures var op, below := FunOf(p, Top(st).fid).code[Top(st).pc], Next(st, 1).(esp := st.esp - 2);
            Step(p, ops, st) == PushOrPanic(below, Apply(ops, BinaryOf(op).value, st.mem[st.esp - 2], st.mem[st.esp - 1]))
            && below.w == st.w
  {
    hide Apply, Push;
    assert Goto(st, Top(st).pc + 1) == Next(st, 1);
  }

  lemma PrefixByNumber(p: Program, ops: Ops, st: State)
    requires Stands(p, st, 1) && st.esp >= 1
    ensures var op, below, a := FunOf(p, Top(st).fid).code[Top(st).pc], Next(st, 1).(esp := st.esp - 1), st.mem[st.esp - 1];
            && (op == 9 ==> Step(p, ops, st) == Result(below, a.VNum?, VNum(if a.VNum? then ops.neg(a.n) else 0)))
            && (op == 21 ==> Step(p, ops, st) == Result(below, a.VBool?, VBool(a != VBool(true))))
  {
    hide Push;
    assert Goto(st, Top(st).pc + 1) == Next(st, 1);
  }

  /** Instructions with one operand byte: constants, locals and globals. */
  lemma OperandByNumber(p: Program, ops: Ops, st: State)
    requires Stands(p, st, 2)
    ensures var f := FunOf(p, Top(st).fid);
            var op, a: nat, next := f.code[Top(st).pc], f.code[Top(st).pc + 1], Next(st, 2);
            var at := Top(st).slots + a;
            && (op == 36 ==> Step(p, ops, st) == Running(Push(next, VNum(a))))
            && (op == 0 && a < |f.consts| ==> Step(p, ops, st) == Running(Push(next, f.consts[a])))
            && (op == 17 && 0 <= at < |st.mem| ==> Step(p, ops, st) == Running(Push(next, st.mem[at])))
            && (op == 18 && 0 <= at < |st.mem| && st.esp > 0 ==>
                  Step(p, ops, st) == Running(State(next.frames, st.mem[at := st.mem[st.esp - 1]], st.esp - 1, st.w)))
            && (op == 15 && a < |f.consts| && f.consts[a].VStr? ==>
                  var x := f.consts[a].s;
                  Step(p, ops, st) == Running(Push(next, if x in st.w.globals then st.w.globals[x] else VNil)))
            && (op in {14, 16} && a < |f.consts| && f.consts[a].VStr? && st.esp > 0 ==>
                  var x := f.consts[a].s;
                  Step(p, ops, st) ==
                  if op == 16 && x !in st.w.globals then Stopped(Panic, st.w)
                  else Running(State(next.frames, st.mem, st.esp - 1,
                                     World(st.w.globals[x := st.mem[st.esp - 1]], st.w.trace, st.w.held))))
  {
    hide Push;
    assert Goto(st, Top(st).pc + 2) == Next(st, 2);
  }

  /** Monitors, and the instructions with two operand bytes, the low one first. */
  lemma JumpByNumber(p: Program, ops: Ops, st: State)
    requires Stands(p, st, 3)
    ensures var f := FunOf(p, Top(st).fid);
            var op, low: nat, high: nat := f.code[Top(st).pc], f.code[Top(st).pc + 1], f.code[Top(st).pc + 2];
            var d := low + 256 * high;
            && (op == 37 ==> Step(p, ops, st) == Running(Push(Next(st, 3), VNum(d))))
            && (op == 23 ==> Step(p, ops, st) == Running(Next(st, 3 + d)))
            && (op == 24 && d <= Top(st).pc + 3 ==>
                  Step(p, ops, st) == Running(st.(frames := Callers(st) + [Top(st).(pc := Top(st).pc + 3 - d)])))
            && (op == 25 && high == 0 ==> Step(p, ops, st) == CallStep(p, low, Next(st, 3)))
            && (op == 31 ==>
                  var m := (Top(st).fid, low);
                  Step(p, ops, st) ==
                  if m in st.w.held then Stopped(Deadlock, st.w)
                  else Running(Next(st, 2).(w := World(st.w.globals, st.w.trace + [Entered(m.0, m.1)], st.w.held + {m}))))
            && (op == 32 ==>
                  var m := (Top(st).fid, low);
                  Step(p, ops, st) ==
                  Running(Next(st, 2).(w := World(st.w.globals, st.w.trace + [Exited(m.0, m.1)], st.w.held - {m}))))
  {
    hide Push, CallStep;
    var pc := Top(st).pc;
    assert Goto(st, pc + 3) == Next(st, 3) && Goto(st, pc + 2) == Next(st, 2);
    assert forall to: nat :: Goto(Next(st, 3), to).frames == Callers(st) + [Top(st).(pc := to)];
  }

  // ----- limits -----

  /** A function has eight monitors, 255 constants and 255 locals, and 65536 calls can
      be under way. */
  lemma Limits(c: Ctx, s: Stmt, v: Value, x: Name)
    ensures GenStmt(Sync(s), c).Some? ==> c.inFun && c.nextMon < 8
    ensures c.inFun && c.nextMon < 8 ==>
              (GenStmt(Sync(s), c).Some? <==> GenStmt(s, c.(nextMon := c.nextMon + 1, held := c.held + [c.nextMon])).Some?)
    ensures AddConst(c, v).Some? <==> |c.consts| < 255
    ensures AddLocal(c, x).Some? <==> |c.locals| < 255 && Resolve(c.locals, x) == -1
  {
    hide GenExpr, GenDecls;
  }

  lemma TooDeep(p: Source, f: Expr, args: seq<Expr>, env: seq<Binding>, w: World, fuel: nat, depth: nat)
    requires depth >= 65536
    ensures !Eval(p, Call(f, args), env, w, fuel, depth).EVal?
  {
  }
}
