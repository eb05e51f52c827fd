// The stack interpreter as a step function on its state.
module Machine {
  import opened Wrappers
  import opened Bytecode
  import opened Syntax
  import opened CodeGen
  import opened Semantics

  /** `fid` is 0 for the package's code and k + 1 for function k; `slots` is the
      stack index of slot 0, which for the package is one below the stack. */
  datatype Frame = Frame(fid: nat, pc: nat, slots: int)

  /** `mem` is the stack memory, of which `mem[..esp]` is in use.  What lies above
      is left over and may be read once esp is raised. */
  datatype State = State(frames: seq<Frame>, mem: seq<Value>, esp: nat, w: World)

  /** Stuck stands for behaviour the C code leaves undefined, or an instruction
      outside this model. */
  datatype Status = Running(st: State) | Halted(w: World) | Stopped(why: Why, w: World) | Stuck

  predicate Valid(st: State) {
    st.esp <= |st.mem|
  }

  function FunOf(p: Program, fid: nat): FunObj {
    if 0 < fid <= |p.funs| then p.funs[fid - 1] else p.main
  }

  function Push(st: State, v: Value): State
    requires Valid(st)
    ensures Valid(Push(st, v)) && Push(st, v).esp == st.esp + 1
  {
    st.(mem := if st.esp < |st.mem| then st.mem[st.esp := v] else st.mem + [v], esp := st.esp + 1)
  }

  /** Raise esp over `n` cells without writing them. */
  function Reserve(st: State, n: nat): State
    ensures Valid(st) ==> Valid(Reserve(st, n))
  {
    st.(mem := if st.esp + n <= |st.mem| then st.mem else st.mem + seq(st.esp + n - |st.mem|, _ => VNil),
        esp := st.esp + n)
  }

  function Top(st: State): Frame
    requires st.frames != []
  {
    st.frames[|st.frames| - 1]
  }

  function Callers(st: State): seq<Frame>
    requires st.frames != []
  {
    st.frames[..|st.frames| - 1]
  }

  function Goto(st: State, pc: nat): State
    requires st.frames != []
  {
    st.(frames := Callers(st) + [Top(st).(pc := pc)])
  }

  function PushOrPanic(st: State, v: Option<Value>): Status
    requires Valid(st)
  {
    if v.Some? then Running(Push(st, v.value)) else Stopped(Panic, st.w)
  }

  function BinaryOf(op: Byte): Option<BinOp> {
    if op == OP_ADD then Some(Add)
    else if op == OP_SUB then Some(Sub)
    else if op == OP_MUL then Some(Mul)
    else if op == OP_DIV then Some(Div)
    else if op == OP_MODULO then Some(Mod)
    else if op == OP_BINARY_OP_AND then Some(BitAnd)
    else if op == OP_BINARY_OP_OR then Some(BitOr)
    else if op == OP_LEFT_SHIFT then Some(Shl)
    else if op == OP_RIGHT_SHIFT then Some(Shr)
    else if op == OP_GREATER then Some(Greater)
    else if op == OP_LESS then Some(Less)
    else if op == OP_EQUAL then Some(Eq)
    else None
  }

  function BinaryStep(ops: Ops, op: BinOp, st: State): Status
    requires Valid(st)
  {
    if st.esp < 2 then Stuck
    else PushOrPanic(st.(esp := st.esp - 2), Apply(ops, op, st.mem[st.esp - 2], st.mem[st.esp - 1]))
  }

  function CallStep(p: Program, n: nat, st: State): Status
    requires Valid(st)
  {
    if st.esp < n + 1 then Stuck
    else
      var callee := st.mem[st.esp - 1 - n];
      if !callee.VFun? || callee.index >= |p.funs| then Stopped(Panic, st.w)
      else
        var f := p.funs[callee.index];
        if n != f.nArgs || |st.frames| >= FRAME_MAX then Stopped(Panic, st.w)
        else
          var frame := Frame(callee.index + 1, 0, st.esp - n - 1);
          Running(Reserve(st.(frames := st.frames + [frame]), if f.nLocals >= n then f.nLocals - n else 0))
  }

  /** The last frame returns to an end-of-file instruction. */
  function ReturnStep(st: State): Status
    requires Valid(st) && st.frames != []
  {
    if st.esp < 1 then Stuck
    else
      var v := st.mem[st.esp - 1];
      var slots := Top(st).slots;
      if |st.frames| == 1 then Running(Push(st.(frames := [], esp := st.esp - 1), v))
      else if 0 <= slots <= |st.mem| then Running(Push(st.(frames := Callers(st), esp := slots), v))
      else Stuck
  }

  function EnterStep(mon: nat, st: State): Status
    requires st.frames != []
  {
    var fid := Top(st).fid;
    // a thread that enters a monitor it holds waits for itself
    if (fid, mon) in st.w.held then Stopped(Deadlock, st.w) else Running(st.(w := Enter(st.w, fid, mon)))
  }

  function LocalIndex(slot: nat, st: State): int
    requires st.frames != []
  {
    Top(st).slots + slot
  }

  /** An instruction without operand; pc is already behind it. */
  function Plain0(ops: Ops, op: Byte, st: State): Status
    requires Valid(st) && st.frames != []
  {
    if op == OP_NIL then Running(Push(st, VNil))
    else if op == OP_TRUE then Running(Push(st, VBool(true)))
    else if op == OP_FALSE then Running(Push(st, VBool(false)))
    else if op == OP_CONST_1 then Running(Push(st, VNum(1)))
    else if op == OP_CONST_2 then Running(Push(st, VNum(2)))
    else if op == OP_NO_OP then Running(st)
    else if op == OP_EOF then Halted(st.w)
    else if op == OP_RETURN then ReturnStep(st)
    else if BinaryOf(op).Some? then BinaryStep(ops, BinaryOf(op).value, st)
    else if st.esp < 1 then Stuck
    else
      var v := st.mem[st.esp - 1];
      var st1 := st.(esp := st.esp - 1);
      if op == OP_NEGATE then PushOrPanic(st1, ApplyUnary(ops, Minus, v))
      else if op == OP_NOT then PushOrPanic(st1, ApplyUnary(ops, Bang, v))
      else if op == OP_PRINT then Running(st1.(w := Emit(st.w, v)))
      else if op == OP_POP then Running(st1)
      else Stuck
  }

  /** An instruction with a one-byte operand. */
  function Plain1(p: Program, op: Byte, a: Byte, st: State): Status
    requires Valid(st) && st.frames != []
  {
    var consts := FunOf(p, Top(st).fid).consts;
    if op == OP_FAST_CONST_8 then Running(Push(st, VNum(a)))
    else if op == OP_CONSTANT then if a < |consts| then Running(Push(st, consts[a])) else Stuck
    else if op == OP_ENTER_MONITOR then EnterStep(a, st)
    else if op == OP_EXIT_MONITOR then Running(st.(w := Exit(st.w, Top(st).fid, a)))
    else if op == OP_GET_LOCAL then
      if 0 <= LocalIndex(a, st) < |st.mem| then Running(Push(st, st.mem[LocalIndex(a, st)])) else Stuck
    else if op == OP_GET_GLOBAL then
      if a < |consts| && consts[a].VStr? then Running(Push(st, Global(st.w, consts[a].s))) else Stuck
    else if st.esp < 1 then Stuck
    else
      var v := st.mem[st.esp - 1];
      var st1 := st.(esp := st.esp - 1);
      if op == OP_SET_LOCAL then
        if 0 <= LocalIndex(a, st) < |st.mem| then Running(st1.(mem := st.mem[LocalIndex(a, st) := v])) else Stuck
      else if a >= |consts| || !consts[a].VStr? then Stuck
      else if op == OP_SET_GLOBAL then
        if consts[a].s in st.w.globals then Running(st1.(w := Define(st.w, consts[a].s, v))) else Stopped(Panic, st.w)
      else if op == OP_DEFINE_GLOBAL then Running(st1.(w := Define(st.w, consts[a].s, v)))
      else Stuck
  }

  /** An instruction with two operand bytes; `pc` is behind it. */
  function Plain2(p: Program, op: Byte, a: Byte, b: Byte, pc: nat, st: State): Status
    requires Valid(st) && st.frames != []
  {
    var n := U16(a, b);
    if op == OP_FAST_CONST_16 then Running(Push(st, VNum(n)))
    else if op == OP_JUMP then Running(Goto(st, pc + n))
    else if op == OP_LOOP then if n <= pc then Running(Goto(st, pc - n)) else Stuck
    else if op == OP_CALL then if b == 0 then CallStep(p, a, st) else Stuck
    else if op == OP_JUMP_IF_FALSE then
      if st.esp < 1 then Stuck
      else
        var st1 := st.(esp := st.esp - 1);
        Running(if Truthy(st.mem[st.esp - 1]) then st1 else Goto(st1, pc + n))
    else Stuck
  }

  /** Bytes of an instruction, for those in this model. */
  function Width(op: Byte): nat {
    if op in {OP_CONSTANT, OP_DEFINE_GLOBAL, OP_GET_GLOBAL, OP_SET_GLOBAL, OP_GET_LOCAL, OP_SET_LOCAL,
              OP_FAST_CONST_8, OP_ENTER_MONITOR, OP_EXIT_MONITOR} then 2
    else if op in {OP_FAST_CONST_16, OP_JUMP, OP_LOOP, OP_JUMP_IF_FALSE, OP_CALL} then 3
    else 1
  }

  /** One round of the interpreter's loop. */
  function Step(p: Program, ops: Ops, st: State): Status {
    if st.frames == [] then Halted(st.w)
    else if !Valid(st) then Stuck
    else
      var code := FunOf(p, Top(st).fid).code;
      var pc := Top(st).pc;
      if pc >= |code| || pc + Width(code[pc]) > |code| then Stuck
      else
        var op := code[pc];
        var st1 := Goto(st, pc + Width(op));
        if Width(op) == 1 then Plain0(ops, op, st1)
        else if Width(op) == 2 then Plain1(p, op, code[pc + 1], st1)
        else Plain2(p, op, code[pc + 1], code[pc + 2], pc + 3, st1)
  }

  /** `n` rounds, or fewer if the run ends before. */
  function Run(p: Program, ops: Ops, st: State, n: nat): Status
    decreases n
  {
    if n == 0 then Running(st)
    else
      match Step(p, ops, st)
      case Running(st1) => Run(p, ops, st1, n - 1)
      case o => o
  }

  lemma {:induction false} RunAdd(p: Program, ops: Ops, st: State, n: nat, m: nat)
    ensures match Run(p, ops, st, n)
            case Running(st1) => Run(p, ops, st, n + m) == Run(p, ops, st1, m)
            case o => Run(p, ops, st, n + m) == o
    decreases n
  {
    hide Step;
    if n > 0 && Step(p, ops, st).Running? {
      RunAdd(p, ops, Step(p, ops, st).st, n - 1, m);
    }
  }

  /** How the root thread starts: create_root_thread, setup_call_frame_function. */
  function Start(p: Program, mem: seq<Value>): State {
    Reserve(State([Frame(0, 0, -1)], mem, 0, World(map[], [], {})), p.main.nLocals)
  }
}
