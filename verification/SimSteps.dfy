// Steps of the simulation that need no induction.
module SimSteps {
  import opened Wrappers
  import opened Bytecode
  import opened Syntax
  import opened CodeGen
  import opened Semantics
  import opened Machine
  import opened Shape
  import opened SimBase

  /** An instruction pushed `v`. */
  lemma Pushed(m: Sys, st: State, k: nat, env: seq<Binding>, v: Value, fuel: nat)
    requires Ready(m, st, env) && RunM(m, st, 1) == Running(Push(Behind(st, k), v))
    ensures ExprOk(m, st, Top(st).pc + k, env, EVal(v, st.w), fuel, 1, Push(Behind(st, k), v))
  {
    hide RunM;
    PushMoved(m, st, Top(st).pc + k, env, v);
  }

  lemma SimConst(m: Sys, v: Value, c: Ctx, env: seq<Binding>, st: State, fuel: nat) returns (st1: State)
    requires GenConst(v, c).Some? && Ready(m, st, env)
    requires Next(m, st, GenConst(v, c).value.code) && GenConst(v, c).value.c.consts <= Current(m, st).consts
    ensures ExprOk(m, st, Top(st).pc + 2, env, EVal(v, st.w), fuel, 1, st1)
  {
    hide RunM, Moved;
    st1 := Push(Behind(st, 2), v);
    DoConstant(m, st, |c.consts|);
    Pushed(m, st, 2, env, v, fuel);
  }

  lemma SimNumber(m: Sys, v: nat, decimal: bool, c: Ctx, env: seq<Binding>, st: State, fuel: nat) returns (st1: State)
    requires GenNumber(v, decimal, c).Some? && Ready(m, st, env)
    requires Next(m, st, GenNumber(v, decimal, c).value.code)
    requires GenNumber(v, decimal, c).value.c.consts <= Current(m, st).consts
    ensures ExprOk(m, st, Top(st).pc + |GenNumber(v, decimal, c).value.code|, env, EVal(VNum(v), st.w), fuel, 1, st1)
  {
    hide RunM, Moved, ExprOk;
    if decimal || v > 32767 {
      st1 := SimConst(m, VNum(v), c, env, st, fuel);
    } else {
      var k := |GenNumber(v, decimal, c).value.code|;
      st1 := Push(Behind(st, k), VNum(v));
      if k == 1 {
        DoSmallConst(m, st, v);
      } else if k == 2 {
        DoByteConst(m, st, v);
      } else {
        DoWordConst(m, st, v);
      }
      Pushed(m, st, k, env, VNum(v), fuel);
    }
  }

  lemma SimVar(m: Sys, x: Name, c: Ctx, env: seq<Binding>, st: State, fuel: nat) returns (st1: State)
    requires GenVar(x, c).Some? && Names(c, env) && Ready(m, st, env)
    requires Next(m, st, GenVar(x, c).value.code) && GenVar(x, c).value.c.consts <= Current(m, st).consts
    ensures ExprOk(m, st, Top(st).pc + 2, env,
                   EVal(if Index(env, x) >= 0 then env[Index(env, x)].v else Global(st.w, x), st.w), fuel, 1, st1)
  {
    hide RunM, Moved, ExprOk, Index;
    NamesResolve(c, env, x);
    var i := Index(env, x);
    var v := if i >= 0 then env[i].v else Global(st.w, x);
    st1 := Push(Behind(st, 2), v);
    if i >= 0 {
      DoGetLocal(m, st, i + 1);
    } else {
      DoGetGlobal(m, st, |c.consts|, x);
    }
    Pushed(m, st, 2, env, v, fuel);
  }

  lemma SimUnary(m: Sys, op: UnOp, st: State, n1: nat, s: State, pc: nat, env: seq<Binding>, v: Value, w: World, fuel: nat)
    returns (n: nat, st1: State)
    requires RunM(m, st, n1) == Running(s) && Moved(m, st, s, pc, env, [v], w)
    requires Next(m, s, [UnaryCode(op)])
    ensures ExprOk(m, st, pc + 1, env, OrPanic(ApplyUnary(m.src.ops, op, v), w), fuel, n, st1)
  {
    hide RunM, ApplyUnary;
    n := n1 + 1;
    Then(m, st, n1, s, 1);
    DoUnary(m, s, op);
    assert s.mem[st.esp] == [v][0];
    var u := ApplyUnary(m.src.ops, op, v);
    st1 := s;
    if u.Some? {
      MovedReplace(m, st, s, pc, pc + 1, env, [v], w, u.value);
      st1 := Push(Goto(s, pc + 1).(esp := st.esp), u.value);
    }
  }

  lemma SimBinary1(m: Sys, op: BinOp, st: State, n1: nat, s: State, pc: nat, env: seq<Binding>, a: Value, b: Value,
                   w: World, fuel: nat) returns (n: nat, st1: State)
    requires FirstOp(op) == op
    requires RunM(m, st, n1) == Running(s) && Moved(m, st, s, pc, env, [a, b], w)
    requires Next(m, s, [OpCode(op)[0]])
    ensures ExprOk(m, st, pc + 1, env, OrPanic(Apply(m.src.ops, op, a, b), w), fuel, n, st1)
  {
    hide RunM, Apply, OpCode, FirstOp;
    n := n1 + 1;
    Then(m, st, n1, s, 1);
    DoBinary(m, s, op);
    assert s.mem[st.esp] == [a, b][0] && s.mem[st.esp + 1] == [a, b][1];
    var u := Apply(m.src.ops, op, a, b);
    st1 := s;
    if u.Some? {
      MovedReplace(m, st, s, pc, pc + 1, env, [a, b], w, u.value);
      st1 := Push(Goto(s, pc + 1).(esp := st.esp), u.value);
    }
  }

  /** Three comparisons are the negation of another one. */
  lemma Negated(ops: Ops, op: BinOp, a: Value, b: Value)
    ensures FirstOp(FirstOp(op)) == FirstOp(op) && |OpCode(op)| > 0 && |OpCode(FirstOp(op))| > 0
    ensures OpCode(op) == [OpCode(FirstOp(op))[0]] + if FirstOp(op) == op then [] else [OP_NOT]
    ensures FirstOp(op) != op ==>
              var u := Apply(ops, FirstOp(op), a, b);
              Apply(ops, op, a, b) == if u.Some? then ApplyUnary(ops, Bang, u.value) else None
  {
  }

  lemma SimBinary(m: Sys, op: BinOp, st: State, n1: nat, s: State, pc: nat, env: seq<Binding>, a: Value, b: Value,
                  w: World, fuel: nat) returns (n: nat, st1: State)
    requires RunM(m, st, n1) == Running(s) && Moved(m, st, s, pc, env, [a, b], w)
    requires Next(m, s, OpCode(op))
    ensures ExprOk(m, st, pc + |OpCode(op)|, env, OrPanic(Apply(m.src.ops, op, a, b), w), fuel, n, st1)
  {
    hide RunM, Moved, Ready, OpCode, FirstOp, Apply, ApplyUnary, Next;
    Negated(m.src.ops, op, a, b);
    var first := FirstOp(op);
    if first == op {
      assert [OpCode(op)[0]] + [] == [OpCode(op)[0]];
      n, st1 := SimBinary1(m, op, st, n1, s, pc, env, a, b, w, fuel);
    } else {
      NextSplit(m, s, [OpCode(first)[0]], [OP_NOT]);
      n, st1 := SimBinary1(m, first, st, n1, s, pc, env, a, b, w, fuel);
      var u := Apply(m.src.ops, first, a, b);
      if u.Some? {
        NotNext(m, st, s, st1, pc, env, [a, b], [u.value], w, [OpCode(first)[0]], [OP_NOT]);
        n, st1 := SimUnary(m, Bang, st, n, st1, pc + 1, env, u.value, w, fuel);
      }
    }
  }

  lemma NotNext(m: Sys, st: State, s: State, st1: State, pc: nat, env: seq<Binding>, res: seq<Value>, res1: seq<Value>,
                w: World, x: seq<Byte>, y: seq<Byte>)
    requires Moved(m, st, s, pc, env, res, w) && Moved(m, st, st1, pc + |x|, env, res1, w)
    requires Next(m, s, x + y)
    ensures Next(m, st1, y)
  {
    AtSplit(Current(m, s).code, pc, x, y);
  }

  lemma Zero(m: Sys, st: State)
    ensures RunM(m, st, 0) == Running(st)
  {
  }

  /** Running ExitAll exits the monitors entered last first. */
  lemma {:induction false} SimExitAll(m: Sys, st: State, held: seq<Byte>, env: seq<Binding>) returns (n: nat, st1: State)
    requires Next(m, st, ExitAll(held)) && Ready(m, st, env)
    ensures RunM(m, st, n) == Running(st1)
    ensures Moved(m, st, st1, Top(st).pc + |ExitAll(held)|, env, [], ExitWorld(st.w, Top(st).fid, held))
    decreases held
  {
    hide RunM;
    if held == [] {
      n, st1 := 0, st;
      Zero(m, st);
    } else {
      var x, rest := held[|held| - 1], held[..|held| - 1];
      AtSplit(Current(m, st).code, Top(st).pc, [OP_EXIT_MONITOR, x], ExitAll(rest));
      DoExit(m, st, x);
      var s := Goto(st, Top(st).pc + 2).(w := Exit(st.w, Top(st).fid, x));
      n, st1 := SimExitAll(m, s, rest, env);
      Then(m, st, 1, s, n);
      MovedTrans(m, st, s, st1, Top(st).pc + 2, Top(st).pc + |ExitAll(held)|, env, env, [], [], s.w, st1.w);
      n := n + 1;
    }
  }

  /** SET_LOCAL of slot i + 1 stores the operand on top in binding i. */
  lemma StoreMoved(m: Sys, st: State, s: State, pc: nat, env: seq<Binding>, v: Value, w: World, slot: Byte, env1: seq<Binding>)
    requires Moved(m, st, s, pc, env, [v], w) && Next(m, s, [OP_SET_LOCAL, slot])
    requires 0 < slot <= |env1| && |env1| <= Current(m, st).nLocals
    requires env1[slot - 1].v == v && |env1| >= |env|
    requires forall j | 0 <= j < |env1| && j + 1 != slot :: j < |env| && env1[j].v == env[j].v
    ensures var st1 := Goto(s, pc + 2).(esp := st.esp, mem := s.mem[Top(s).slots + slot := v]);
            RunM(m, s, 1) == Running(st1) && Moved(m, st, st1, pc + 2, env1, [], w)
  {
    hide RunM;
    DoSetLocal(m, s, slot);
    assert s.mem[st.esp] == [v][0];
  }
}
