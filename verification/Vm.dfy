// The interpreter as it is written: a thread with a fixed stack and a fixed
// array of call frames, changed in place by one handler per instruction.
module Vm {
  import opened Wrappers
  import opened Bytecode
  import opened Syntax
  import opened CodeGen
  import opened Semantics
  import opened Machine

  const STACK_MAX: nat := 256

  /** How an instruction ends: go on, the end of the code, a panic or a wait for a
      monitor the thread holds itself, or behaviour C does not define. */
  datatype Outcome = GoOn | Ends | Fails(why: Why) | Undefined

  /** The step is undefined in C when it is in the abstract machine, or when it
      leaves the stack. */
  ghost predicate Undef(s: Status) {
    s == Stuck || (s.Running? && |s.st.mem| > STACK_MAX)
  }

  class VmThread {
    const program: Program
    const ops: Ops
    const stack: array<Value>
    const frames: array<Frame>
    var esp: nat
    var framesInUse: nat
    var globals: map<string, Value>
    var log: seq<Event>
    var held: set<(nat, nat)>

    ghost predicate Valid()
      reads this
    {
      esp <= stack.Length == STACK_MAX && framesInUse <= frames.Length == FRAME_MAX
    }

    ghost function Shared(): World
      reads this
    {
      World(globals, log, held)
    }

    ghost function Now(): State
      requires framesInUse <= frames.Length
      reads this, stack, frames
    {
      State(frames[..framesInUse], stack[..], esp, Shared())
    }

    /** The thread does what the machine does. */
    ghost predicate Agrees(o: Outcome, s: Status)
      requires framesInUse <= frames.Length
      reads this, stack, frames
    {
      match o
      case GoOn => s == Running(Now())
      case Ends => s == Halted(Shared())
      case Fails(why) => s == Stopped(why, Shared())
      case Undefined => Undef(s)
    }

    /** create_root_thread and setup_call_frame_function; what the stack holds is
        arbitrary. */
    constructor (program: Program, ops: Ops)
      requires program.main.nLocals <= STACK_MAX
      ensures this.program == program && this.ops == ops && fresh(stack) && fresh(frames)
      ensures Valid() && Now() == Start(program, stack[..]) && stack.Length == 256 && frames.Length == 65536
    {
      this.program, this.ops := program, ops;
      stack := new Value[STACK_MAX];
      frames := new Frame[FRAME_MAX];
      framesInUse, esp := 1, program.main.nLocals;
      globals, log, held := map[], [], {};
      new;
      frames[0] := Frame(0, 0, -1);
      assert frames[..1] == [Frame(0, 0, -1)];
    }

    // ----- stack -----

    method PushStack(v: Value) returns (o: Outcome)
      requires Valid()
      modifies this`esp, stack
      ensures Valid() && Agrees(o, Running(Push(old(Now()), v)))
    {
      if esp == stack.Length {
        return Undefined;
      }
      stack[esp] := v;
      esp := esp + 1;
      o := GoOn;
    }

    method PopStack() returns (v: Value)
      requires Valid() && esp > 0
      modifies this`esp
      ensures Valid() && v == old(Now()).mem[old(esp) - 1] && Now() == old(Now()).(esp := old(esp) - 1)
    {
      esp := esp - 1;
      v := stack[esp];
    }

    method PushResult(v: Option<Value>) returns (o: Outcome)
      requires Valid()
      modifies this`esp, stack
      ensures Valid() && Agrees(o, PushOrPanic(old(Now()), v))
    {
      if v.None? {
        return Fails(Panic);
      }
      o := PushStack(v.value);
    }

    // ----- frames -----

    method SetPc(pc: nat)
      requires Valid() && framesInUse > 0
      modifies frames
      ensures Valid() && Now() == Goto(old(Now()), pc) && Pc() == pc
    {
      frames[framesInUse - 1] := frames[framesInUse - 1].(pc := pc);
      assert frames[..framesInUse - 1] == old(frames[..framesInUse])[..framesInUse - 1];
      assert frames[..framesInUse] == frames[..framesInUse - 1] + [frames[framesInUse - 1]];
    }

    function Code(): seq<Byte>
      requires Valid() && framesInUse > 0
      reads this, frames
    {
      FunOf(program, frames[framesInUse - 1].fid).code
    }

    function Pc(): nat
      requires Valid() && framesInUse > 0
      reads this, frames
    {
      frames[framesInUse - 1].pc
    }

    method ReadBytecode() returns (b: Byte)
      requires Valid() && framesInUse > 0 && Pc() < |Code()|
      modifies frames
      ensures Valid() && Now() == Goto(old(Now()), old(Pc()) + 1)
      ensures b == old(Code())[old(Pc())] && Code() == old(Code()) && Pc() == old(Pc()) + 1
    {
      b := Code()[Pc()];
      SetPc(Pc() + 1);
    }

    method ReadU16() returns (n: nat)
      requires Valid() && framesInUse > 0 && Pc() + 2 <= |Code()|
      modifies frames
      ensures Valid() && Now() == Goto(old(Now()), old(Pc()) + 2)
      ensures n == U16(old(Code())[old(Pc())], old(Code())[old(Pc()) + 1]) && Pc() == old(Pc()) + 2
    {
      var lo := ReadBytecode();
      var hi := ReadBytecode();
      n := U16(lo, hi);
    }

    // ----- calls -----

    /** setup_call_frame_function, with the checks of call_function before it. */
    method CallFunction(k: nat, n: nat) returns (o: Outcome)
      requires Valid() && k < |program.funs| && esp >= n + 1
      requires stack[esp - 1 - n] == VFun(k)
      modifies this`esp, this`framesInUse, frames
      ensures Valid() && Agrees(o, CallStep(program, n, old(Now())))
    {
      var f := program.funs[k];
      if n != f.nArgs || framesInUse >= FRAME_MAX {
        return Fails(Panic);
      }
      var extra := if f.nLocals >= n then f.nLocals - n else 0;
      if esp + extra > stack.Length {
        return Undefined;
      }
      frames[framesInUse] := Frame(k + 1, 0, esp - n - 1);
      framesInUse := framesInUse + 1;
      esp := esp + extra;
      assert frames[..framesInUse] == old(frames[..framesInUse]) + [frames[framesInUse - 1]];
      o := GoOn;
    }

    method Call(n: nat) returns (o: Outcome)
      requires Valid()
      modifies this`esp, this`framesInUse, frames
      ensures Valid() && Agrees(o, CallStep(program, n, old(Now())))
    {
      if esp < n + 1 {
        return Undefined;
      }
      var callee := stack[esp - 1 - n];
      if !callee.VFun? || callee.index >= |program.funs| {
        return Fails(Panic);
      }
      o := CallFunction(callee.index, n);
    }

    /** The result goes where the callee stood; the last frame gives way to an
        end-of-file instruction. */
    method ReturnFunction() returns (o: Outcome)
      requires Valid() && framesInUse > 0
      modifies this`esp, this`framesInUse, stack
      ensures Valid() && Agrees(o, ReturnStep(old(Now())))
    {
      if esp < 1 {
        return Undefined;
      }
      ghost var st := Now();
      var v := PopStack();
      var slots := frames[framesInUse - 1].slots;
      framesInUse := framesInUse - 1;
      assert frames[..framesInUse] == Callers(st);
      if framesInUse > 0 {
        if !(0 <= slots <= stack.Length) {
          return Undefined;
        }
        esp := slots;
      }
      o := PushStack(v);
    }

    // ----- variables -----

    method GetLocal(slot: Byte) returns (o: Outcome)
      requires Valid() && framesInUse > 0
      modifies this`esp, stack
      ensures Valid() && Agrees(o, Plain1(program, OP_GET_LOCAL, slot, old(Now())))
    {
      var at := frames[framesInUse - 1].slots + slot;
      if !(0 <= at < stack.Length) {
        return Undefined;
      }
      o := PushStack(stack[at]);
    }

    method SetLocal(slot: Byte) returns (o: Outcome)
      requires Valid() && framesInUse > 0
      modifies this`esp, stack
      ensures Valid() && Agrees(o, Plain1(program, OP_SET_LOCAL, slot, old(Now())))
    {
      var at := frames[framesInUse - 1].slots + slot;
      if esp < 1 || !(0 <= at < stack.Length) {
        return Undefined;
      }
      var v := PopStack();
      stack[at] := v;
      o := GoOn;
    }

    function Consts(): seq<Value>
      requires Valid() && framesInUse > 0
      reads this, frames
    {
      FunOf(program, frames[framesInUse - 1].fid).consts
    }

    method Constant(k: Byte) returns (o: Outcome)
      requires Valid() && framesInUse > 0
      modifies this`esp, stack
      ensures Valid() && Agrees(o, Plain1(program, OP_CONSTANT, k, old(Now())))
    {
      if k >= |Consts()| {
        return Undefined;
      }
      o := PushStack(Consts()[k]);
    }

    method GetGlobal(k: Byte) returns (o: Outcome)
      requires Valid() && framesInUse > 0
      modifies this`esp, stack
      ensures Valid() && Agrees(o, Plain1(program, OP_GET_GLOBAL, k, old(Now())))
    {
      if k >= |Consts()| || !Consts()[k].VStr? {
        return Undefined;
      }
      var x := Consts()[k].s;
      o := PushStack(if x in globals then globals[x] else VNil);
    }

    method DefineGlobal(k: Byte) returns (o: Outcome)
      requires Valid() && framesInUse > 0
      modifies this`esp, this`globals
      ensures Valid() && Agrees(o, Plain1(program, OP_DEFINE_GLOBAL, k, old(Now())))
    {
      if esp < 1 || k >= |Consts()| || !Consts()[k].VStr? {
        return Undefined;
      }
      var x := Consts()[k].s;
      var v := PopStack();
      globals := globals[x := v];
      o := GoOn;
    }

    method SetGlobal(k: Byte) returns (o: Outcome)
      requires Valid() && framesInUse > 0
      modifies this`esp, this`globals
      ensures Valid() && Agrees(o, Plain1(program, OP_SET_GLOBAL, k, old(Now())))
    {
      if esp < 1 || k >= |Consts()| || !Consts()[k].VStr? {
        return Undefined;
      }
      var x := Consts()[k].s;
      var v := PopStack();
      if x !in globals {
        return Fails(Panic);
      }
      globals := globals[x := v];
      o := GoOn;
    }

    // ----- operators -----

    method BinaryOp(op: BinOp) returns (o: Outcome)
      requires Valid()
      modifies this`esp, stack
      ensures Valid() && Agrees(o, BinaryStep(ops, op, old(Now())))
    {
      hide Apply, Push;
      if esp < 2 {
        return Undefined;
      }
      var b := PopStack();
      var a := PopStack();
      o := PushResult(Apply(ops, op, a, b));
    }

    method UnaryOperator(op: UnOp) returns (o: Outcome)
      requires Valid()
      modifies this`esp, stack
      ensures Valid() && Agrees(o, if old(esp) < 1 then Stuck
                                   else PushOrPanic(old(Now()).(esp := old(esp) - 1),
                                                    ApplyUnary(ops, op, old(stack[esp - 1]))))
    {
      hide ApplyUnary, Push;
      if esp < 1 {
        return Undefined;
      }
      var v := PopStack();
      o := PushResult(ApplyUnary(ops, op, v));
    }

    method Print() returns (o: Outcome)
      requires Valid()
      modifies this`esp, this`log
      ensures Valid() && Agrees(o, if old(esp) < 1 then Stuck
                                   else Running(old(Now()).(esp := old(esp) - 1, w := Emit(old(Shared()), old(stack[esp - 1])))))
    {
      if esp < 1 {
        return Undefined;
      }
      var v := PopStack();
      log := log + [Printed(v)];
      o := GoOn;
    }

    method Pop() returns (o: Outcome)
      requires Valid()
      modifies this`esp
      ensures Valid() && Agrees(o, if old(esp) < 1 then Stuck else Running(old(Now()).(esp := old(esp) - 1)))
    {
      if esp < 1 {
        return Undefined;
      }
      var v := PopStack();
      o := GoOn;
    }

    // ----- monitors -----

    method EnterMonitor(mon: Byte) returns (o: Outcome)
      requires Valid() && framesInUse > 0
      modifies this`log, this`held
      ensures Valid() && Agrees(o, EnterStep(mon, old(Now())))
    {
      var fid := frames[framesInUse - 1].fid;
      if (fid, mon as nat) in held {
        return Fails(Deadlock);
      }
      log, held := log + [Entered(fid, mon)], held + {(fid, mon as nat)};
      o := GoOn;
    }

    method ExitMonitor(mon: Byte) returns (o: Outcome)
      requires Valid() && framesInUse > 0
      modifies this`log, this`held
      ensures Valid() && Agrees(o, Plain1(program, OP_EXIT_MONITOR, mon, old(Now())))
    {
      var fid := frames[framesInUse - 1].fid;
      log, held := log + [Exited(fid, mon)], held - {(fid, mon as nat)};
      o := GoOn;
    }

    // ----- jumps -----

    method JumpForward() returns (o: Outcome)
      requires Valid() && framesInUse > 0 && Pc() + 2 <= |Code()|
      modifies frames
      ensures Valid() && Agrees(o, Running(Goto(old(Now()), old(Pc()) + 2 + U16(old(Code())[old(Pc())], old(Code())[old(Pc()) + 1]))))
    {
      var n := ReadU16();
      SetPc(Pc() + n);
      o := GoOn;
    }

    method JumpIfFalse() returns (o: Outcome)
      requires Valid() && framesInUse > 0 && Pc() + 2 <= |Code()|
      modifies this`esp, frames
      ensures Valid()
      ensures var pc := old(Pc()) + 2;
              Agrees(o, Plain2(program, OP_JUMP_IF_FALSE, old(Code())[pc - 2], old(Code())[pc - 1], pc, Goto(old(Now()), pc)))
      ensures var low: nat, high: nat := old(Code())[old(Pc())], old(Code())[old(Pc()) + 1];
              old(esp) >= 1 ==>
                && o == GoOn && esp == old(esp) - 1
                && Pc() == old(Pc()) + 2 + if old(stack[esp - 1]) == VBool(true) then 0 else low + 256 * high
    {
      if esp < 1 {
        return Undefined;
      }
      ghost var st, a, b := Now(), Code()[Pc()], Code()[Pc() + 1];
      OnlyTrue(stack[esp - 1], a, b);
      Branches(program, a, b, Pc() + 2, st);
      assert st.mem[st.esp - 1] == stack[esp - 1];
      hide Goto, Plain2, Truthy, U16, FunOf, Code, Pc, Now;
      PopAndSkip();
      o := GoOn;
    }

    method PopAndSkip()
      requires Valid() && framesInUse > 0 && Pc() + 2 <= |Code()| && esp > 0
      modifies this`esp, frames
      ensures Valid() && esp == old(esp) - 1
      ensures var pc, stay := old(Pc()) + 2, Truthy(old(stack[esp - 1]));
              var n, st1 := U16(old(Code())[pc - 2], old(Code())[pc - 1]), old(Now()).(esp := esp);
              && Now() == (if stay then Goto(st1, pc) else Goto(Goto(st1, pc), pc + n))
              && Pc() == (if stay then pc else pc + n)
    {
      hide Goto, Truthy, U16, FunOf;
      var v := PopStack();
      SkipUnless(Truthy(v));
    }

    /** Read the distance of a conditional jump, and take it unless `stay`. */
    method SkipUnless(stay: bool)
      requires Valid() && framesInUse > 0 && Pc() + 2 <= |Code()|
      modifies frames
      ensures Valid()
      ensures var pc := old(Pc()) + 2;
              var n := U16(old(Code())[pc - 2], old(Code())[pc - 1]);
              && Now() == (if stay then Goto(old(Now()), pc) else Goto(Goto(old(Now()), pc), pc + n))
              && Pc() == (if stay then pc else pc + n)
    {
      hide Goto;
      ghost var st, pc := Now(), Pc() + 2;
      GotoMoves(st, st.esp, pc);
      if !stay {
        var n := ReadU16();
        SetPc(Pc() + n);
      } else {
        SetPc(Pc() + 2);
      }
    }

    method JumpBack() returns (o: Outcome)
      requires Valid() && framesInUse > 0 && Pc() + 2 <= |Code()|
      modifies frames
      ensures Valid()
      ensures var pc := old(Pc()) + 2;
              Agrees(o, Plain2(program, OP_LOOP, old(Code())[pc - 2], old(Code())[pc - 1], pc, Goto(old(Now()), pc)))
    {
      var n := ReadU16();
      if n > Pc() {
        return Undefined;
      }
      SetPc(Pc() - n);
      o := GoOn;
    }

    // ----- the loop -----

    /** Instructions without operand. */
    method Execute0(op: Byte) returns (o: Outcome)
      requires Valid() && framesInUse > 0
      modifies this, stack
      ensures Valid() && Agrees(o, Plain0(ops, op, old(Now())))
    {
      hide Apply, ApplyUnary, Push, PushOrPanic, ReturnStep, BinaryStep;
      if op == OP_RETURN { o := ReturnFunction(); }
      else if op == OP_NIL { o := PushStack(VNil); }
      else if op == OP_TRUE { o := PushStack(VBool(true)); }
      else if op == OP_FALSE { o := PushStack(VBool(false)); }
      else if op == OP_CONST_1 { o := PushStack(VNum(1)); }
      else if op == OP_CONST_2 { o := PushStack(VNum(2)); }
      else if op == OP_NO_OP { o := GoOn; }
      else if op == OP_EOF { o := Ends; }
      else if BinaryOf(op).Some? { o := BinaryOp(BinaryOf(op).value); }
      else if op == OP_NEGATE { o := UnaryOperator(Minus); }
      else if op == OP_NOT { o := UnaryOperator(Bang); }
      else if op == OP_PRINT { o := Print(); }
      else if op == OP_POP { o := Pop(); }
      else { o := Undefined; }
    }

    /** Instructions with a one-byte operand. */
    method Execute1(op: Byte, a: Byte) returns (o: Outcome)
      requires Valid() && framesInUse > 0
      modifies this, stack
      ensures Valid() && Agrees(o, Plain1(program, op, a, old(Now())))
    {
      if op == OP_FAST_CONST_8 { o := PushStack(VNum(a)); }
      else if op == OP_CONSTANT { o := Constant(a); }
      else if op == OP_ENTER_MONITOR { o := EnterMonitor(a); }
      else if op == OP_EXIT_MONITOR { o := ExitMonitor(a); }
      else if op == OP_GET_LOCAL { o := GetLocal(a); }
      else if op == OP_SET_LOCAL { o := SetLocal(a); }
      else if op == OP_GET_GLOBAL { o := GetGlobal(a); }
      else if op == OP_SET_GLOBAL { o := SetGlobal(a); }
      else if op == OP_DEFINE_GLOBAL { o := DefineGlobal(a); }
      else { o := Undefined; }
    }

    /** Instructions with two operand bytes, which are still to be read. */
    method Execute2(op: Byte) returns (o: Outcome)
      requires Valid() && framesInUse > 0 && Pc() + 2 <= |Code()|
      modifies this, stack, frames
      ensures Valid()
      ensures var pc := old(Pc()) + 2;
              Agrees(o, Plain2(program, op, old(Code())[pc - 2], old(Code())[pc - 1], pc, Goto(old(Now()), pc)))
    {
      if op == OP_JUMP { o := JumpForward(); }
      else if op == OP_LOOP { o := JumpBack(); }
      else if op == OP_JUMP_IF_FALSE { o := JumpIfFalse(); }
      else if op == OP_FAST_CONST_16 {
        var n := ReadU16();
        o := PushStack(VNum(n));
      } else if op == OP_CALL {
        var n := ReadBytecode();
        var isParallel := ReadBytecode();
        if isParallel != 0 {
          return Undefined;
        }
        o := Call(n);
      } else {
        o := Undefined;
      }
    }

    /** One round of run. */
    method Round() returns (o: Outcome)
      requires Valid()
      modifies this, stack, frames
      ensures Valid() && Agrees(o, Step(program, ops, old(Now())))
    {
      hide Plain0, Plain1, Plain2;
      if framesInUse == 0 {
        return Ends;
      }
      if Pc() >= |Code()| || Pc() + Width(Code()[Pc()]) > |Code()| {
        return Undefined;
      }
      var op := ReadBytecode();
      if Width(op) == 1 {
        o := Execute0(op);
      } else if Width(op) == 2 {
        var a := ReadBytecode();
        o := Execute1(op, a);
      } else {
        o := Execute2(op);
      }
    }

    /** `limit` rounds, or fewer when the code ends before. */
    method RunRounds(limit: nat) returns (o: Outcome)
      requires Valid()
      modifies this, stack, frames
      ensures Valid()
      ensures o.Undefined? ==> exists n: nat :: n <= limit && Undef(Run(program, ops, old(Now()), n))
      ensures !o.Undefined? ==> Agrees(o, Run(program, ops, old(Now()), limit))
    {
      hide Step;
      ghost var start := Now();
      var n := 0;
      o := GoOn;
      while n < limit
        invariant n <= limit && Valid() && Run(program, ops, start, n) == Running(Now())
      {
        ghost var st := Now();
        o := Round();
        RunAdd(program, ops, start, n, 1);
        OneStep(program, ops, st);
        if o != GoOn {
          RunAdd(program, ops, start, n + 1, limit - n - 1);
          return;
        }
        n := n + 1;
      }
      o := GoOn;
    }
  }

  lemma OnlyTrue(v: Value, low: Byte, high: Byte)
    ensures Truthy(v) <==> v == VBool(true)
    ensures U16(low, high) == low + 256 * high
  {
  }

  lemma Branches(p: Program, a: Byte, b: Byte, pc: nat, st: State)
    requires Machine.Valid(st) && st.frames != [] && st.esp > 0
    ensures var st1 := st.(esp := st.esp - 1);
            Goto(st, pc).frames != [] && Machine.Valid(Goto(st, pc)) && Goto(st1, pc).frames != []
            && Plain2(p, OP_JUMP_IF_FALSE, a, b, pc, Goto(st, pc)) ==
               Running(if Truthy(st.mem[st.esp - 1]) then Goto(st1, pc) else Goto(Goto(st1, pc), pc + U16(a, b)))
  {
    GotoMoves(st, st.esp - 1, pc);
  }

  lemma GotoMoves(st: State, esp: nat, pc: nat)
    requires st.frames != []
    ensures Goto(st.(esp := esp), pc) == Goto(st, pc).(esp := esp) && Goto(st, pc).frames != []
    ensures Goto(st, pc).mem == st.mem && Goto(st, pc).esp == st.esp
  {
  }

  lemma OneStep(p: Program, ops: Ops, st: State)
    ensures Run(p, ops, st, 1) == Step(p, ops, st)
  {
    hide Step;
    var s := Step(p, ops, st);
    if s.Running? {
      assert Run(p, ops, s.st, 0) == s;
    }
  }
}
