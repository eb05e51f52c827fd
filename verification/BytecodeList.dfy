// Byte code as a list of instructions whose jumps refer to instructions instead of
// offsets: what decoding and encoding compute.
module Instructions {
  import opened Wrappers
  import opened Bytecode

  const MAX_JUMPS_TO_ONE: nat := 32

  /** The size table.  The two monitor instructions with 8-byte operands are left
      out. */
  predicate Known(op: Byte) {
    op <= OP_GET_ARRAY_LENGTH && op != OP_ENTER_MONITOR_EXPLICIT && op != OP_EXIT_MONITOR_EXPLICIT
  }

  function Size(op: Byte): (n: nat)
    ensures 1 <= n <= 4
  {
    if op in {OP_CONSTANT, OP_DEFINE_GLOBAL, OP_GET_GLOBAL, OP_SET_GLOBAL, OP_GET_LOCAL, OP_SET_LOCAL,
              OP_INITIALIZE_STRUCT, OP_GET_STRUCT_FIELD, OP_SET_STRUCT_FIELD, OP_ENTER_MONITOR, OP_EXIT_MONITOR,
              OP_FAST_CONST_8, OP_PACKAGE_CONST} then 2
    else if op in {OP_JUMP_IF_FALSE, OP_JUMP, OP_LOOP, OP_CALL, OP_FAST_CONST_16} then 3
    else if op == OP_INITIALIZE_ARRAY then 4
    else 1
  }

  predicate IsForward(op: Byte) {
    op == OP_JUMP_IF_FALSE || op == OP_JUMP
  }

  predicate IsJump(op: Byte) {
    IsForward(op) || op == OP_LOOP
  }

  /** `Target` is the position in the list of the instruction a jump leads to. */
  datatype Operand =
    | NoOperand
    | U8(a: Byte)
    | Pair(a: Byte, b: Byte)
    | ArrayInit(n: nat, empty: bool)
    | Target(t: Option<nat>)

  datatype Instr = Instr(op: Byte, arg: Operand)

  predicate Shaped(i: Instr) {
    && Known(i.op)
    && if IsJump(i.op) then i.arg.Target?
       else if Size(i.op) == 2 then i.arg.U8?
       else if Size(i.op) == 3 then i.arg.Pair?
       else if Size(i.op) == 4 then i.arg.ArrayInit? && i.arg.n < U16_LIMIT
       else i.arg.NoOperand?
  }

  /** A list: instructions up to the end of file, jumps within the list. */
  predicate Listed(il: seq<Instr>) {
    && il != []
    && (forall k: nat | k < |il| :: Shaped(il[k]) && (il[k].op == OP_EOF <==> k == |il| - 1))
    && forall k: nat | k < |il| && IsJump(il[k].op) :: il[k].arg.t.Some? && il[k].arg.t.value < |il|
  }

  // ----- encoding -----

  /** Where instruction n begins. */
  function Offset(il: seq<Instr>, n: nat): nat
    requires n <= |il|
  {
    if n == 0 then 0 else Offset(il, n - 1) + Size(il[n - 1].op)
  }

  function Abs(x: int): nat {
    if x < 0 then -x else x
  }

  /** The distance written for the jump at k. */
  function Distance(il: seq<Instr>, k: nat): nat
    requires Listed(il) && k < |il| && IsJump(il[k].op)
  {
    Abs(Offset(il, il[k].arg.t.value) - Offset(il, k) - 3)
  }

  function OperandBytes(il: seq<Instr>, k: nat): (s: seq<Byte>)
    requires Listed(il) && k < |il|
    ensures |s| == Size(il[k].op) - 1
  {
    match il[k].arg
    case NoOperand => []
    case U8(a) => [a]
    case Pair(a, b) => [a, b]
    case ArrayInit(n, empty) => [Lo(n), Hi(n), if empty then 1 else 0]
    case Target(_) => [Lo(Distance(il, k)), Hi(Distance(il, k))]
  }

  function InstrBytes(il: seq<Instr>, k: nat): (s: seq<Byte>)
    requires Listed(il) && k < |il|
    ensures |s| == Size(il[k].op)
  {
    [il[k].op] + OperandBytes(il, k)
  }

  /** The code of the first n instructions. */
  function EncodeTo(il: seq<Instr>, n: nat): (s: seq<Byte>)
    requires Listed(il) && n <= |il|
    ensures |s| == Offset(il, n)
  {
    if n == 0 then [] else EncodeTo(il, n - 1) + InstrBytes(il, n - 1)
  }

  function Encode(il: seq<Instr>): seq<Byte>
    requires Listed(il)
  {
    EncodeTo(il, |il|)
  }

  // ----- decoding -----

  /** Where the instructions from pc to the first end of file begin. */
  function Scan(code: seq<Byte>, pc: nat): Option<seq<nat>>
    decreases |code| - pc
  {
    if pc >= |code| || !Known(code[pc]) || pc + Size(code[pc]) > |code| then None
    else if code[pc] == OP_EOF then Some([pc])
    else
      var rest :- Scan(code, pc + Size(code[pc]));
      Some([pc] + rest)
  }

  /** The offset a jump leads to. */
  function JumpTo(code: seq<Byte>, at: nat): int
    requires at + 3 <= |code|
  {
    var d := U16(code[at + 1], code[at + 2]);
    if IsForward(code[at]) then at + 3 + d else at + 3 - d
  }

  function IndexOf(starts: seq<nat>, x: int): Option<nat> {
    if starts == [] then None
    else if starts[|starts| - 1] == x then Some(|starts| - 1)
    else IndexOf(starts[..|starts| - 1], x)
  }

  /** The instructions lie one behind the other in the code. */
  ghost predicate InCode(code: seq<Byte>, starts: seq<nat>) {
    && (forall k: nat | k < |starts| :: starts[k] < |code| && starts[k] + Size(code[starts[k]]) <= |code| && Known(code[starts[k]]))
    && (forall k: nat | k + 1 < |starts| :: starts[k + 1] == starts[k] + Size(code[starts[k]]))
    && (forall k: nat | k < |starts| :: code[starts[k]] == OP_EOF <==> k == |starts| - 1)
  }

  /** How many forward jumps before the k-th instruction lead to x. */
  function Rank(code: seq<Byte>, starts: seq<nat>, k: nat, x: int): nat
    requires InCode(code, starts) && k <= |starts|
  {
    if k == 0 then 0
    else
      var at := starts[k - 1];
      Rank(code, starts, k - 1, x) + (if IsForward(code[at]) && JumpTo(code, at) == x then 1 else 0)
  }

  /** Only 32 forward jumps to one instruction are remembered. */
  function Resolve(code: seq<Byte>, starts: seq<nat>, k: nat): Option<nat>
    requires InCode(code, starts) && k < |starts| && IsJump(code[starts[k]])
  {
    var x := JumpTo(code, starts[k]);
    if !IsForward(code[starts[k]]) then IndexOf(starts[..k + 1], x)
    else if Rank(code, starts, k, x) < MAX_JUMPS_TO_ONE then IndexOf(starts, x)
    else None
  }

  function Operands(code: seq<Byte>, starts: seq<nat>, k: nat): Operand
    requires InCode(code, starts) && k < |starts|
  {
    var at := starts[k];
    var op := code[at];
    if IsJump(op) then Target(Resolve(code, starts, k))
    else if Size(op) == 2 then U8(code[at + 1])
    else if Size(op) == 3 then Pair(code[at + 1], code[at + 2])
    else if Size(op) == 4 then ArrayInit(U16(code[at + 1], code[at + 2]), code[at + 3] != 0)
    else NoOperand
  }

  function DecodeAt(code: seq<Byte>, starts: seq<nat>): (il: seq<Instr>)
    requires InCode(code, starts)
    ensures |il| == |starts|
  {
    seq(|starts|, k requires 0 <= k < |starts| => Instr(code[starts[k]], Operands(code, starts, k)))
  }

  lemma {:induction false} ScanInCode(code: seq<Byte>, pc: nat)
    requires Scan(code, pc).Some?
    ensures Scan(code, pc).value != [] && Scan(code, pc).value[0] == pc && InCode(code, Scan(code, pc).value)
    decreases |code| - pc
  {
    if code[pc] != OP_EOF {
      ScanInCode(code, pc + Size(code[pc]));
    }
  }

  function Decode(code: seq<Byte>): Option<seq<Instr>> {
    var starts :- Scan(code, 0);
    ScanInCode(code, 0);
    Some(DecodeAt(code, starts))
  }

  // ----- offsets -----

  function Starts(il: seq<Instr>): (s: seq<nat>)
    ensures |s| == |il|
  {
    seq(|il|, k requires 0 <= k < |il| => Offset(il, k))
  }

  lemma {:induction false} Rising(il: seq<Instr>, i: nat, j: nat)
    requires i < j <= |il|
    ensures Offset(il, i) + Size(il[i].op) <= Offset(il, j)
    decreases j
  {
    if i < j - 1 {
      Rising(il, i, j - 1);
    }
  }

  lemma SameOffset(il: seq<Instr>, i: nat, j: nat)
    requires i <= |il| && j <= |il| && Offset(il, i) == Offset(il, j)
    ensures i == j
  {
    if i < j { Rising(il, i, j); }
    if j < i { Rising(il, j, i); }
  }

  /** Looking an instruction up by its offset. */
  lemma {:induction false} IndexOfStart(il: seq<Instr>, n: nat, x: int)
    requires n <= |il|
    ensures forall t: nat :: IndexOf(Starts(il)[..n], x) == Some(t) <==> t < n && Offset(il, t) == x
    decreases n
  {
    var s := Starts(il)[..n];
    if n > 0 {
      assert s[..n - 1] == Starts(il)[..n - 1];
      IndexOfStart(il, n - 1, x);
      forall t: nat | t < n && Offset(il, t) == x && Offset(il, n - 1) == x
        ensures t == n - 1
      {
        SameOffset(il, t, n - 1);
      }
    }
  }

  // ----- decoding what was encoded -----

  lemma SliceLeft(a: seq<Byte>, b: seq<Byte>, i: nat, j: nat)
    requires i <= j <= |a|
    ensures (a + b)[i..j] == a[i..j]
  {
  }

  lemma SliceRight(a: seq<Byte>, b: seq<Byte>)
    ensures (a + b)[|a|..|a| + |b|] == b
  {
  }

  lemma {:induction false} EncodedAt(il: seq<Instr>, n: nat, k: nat)
    requires Listed(il) && k < n <= |il|
    ensures Offset(il, k) + Size(il[k].op) <= Offset(il, n)
    ensures EncodeTo(il, n)[Offset(il, k)..Offset(il, k) + Size(il[k].op)] == InstrBytes(il, k)
    decreases n
  {
    hide InstrBytes, Listed, Size;
    Rising(il, k, n);
    var a, b := EncodeTo(il, n - 1), InstrBytes(il, n - 1);
    assert EncodeTo(il, n) == a + b;
    if k < n - 1 {
      EncodedAt(il, n - 1, k);
      hide EncodeTo, Offset;
      SliceLeft(a, b, Offset(il, k), Offset(il, k) + Size(il[k].op));
    } else {
      hide EncodeTo, Offset;
      SliceRight(a, b);
    }
  }

  /** The bytes of the k-th instruction in the code. */
  lemma ByteAt(il: seq<Instr>, k: nat, j: nat)
    requires Listed(il) && k < |il| && j < Size(il[k].op)
    ensures Offset(il, k) + j < |Encode(il)| && Encode(il)[Offset(il, k) + j] == InstrBytes(il, k)[j]
  {
    hide InstrBytes, Listed;
    EncodedAt(il, |il|, k);
    var at := Offset(il, k);
    assert Encode(il)[at..at + Size(il[k].op)][j] == Encode(il)[at + j];
  }

  lemma ScanStep(code: seq<Byte>, pc: nat)
    requires pc < |code| && Known(code[pc]) && pc + Size(code[pc]) <= |code|
    ensures code[pc] == OP_EOF ==> Scan(code, pc) == Some([pc] + [])
    ensures var next := pc + Size(code[pc]);
            code[pc] != OP_EOF && Scan(code, next).Some? ==> Scan(code, pc) == Some([pc] + Scan(code, next).value)
  {
    hide Size, Known;
    assert [pc] + [] == [pc];
  }

  lemma HeadEncoded(il: seq<Instr>, k: nat)
    requires Listed(il) && k < |il|
    ensures var at, code := Offset(il, k), Encode(il);
            && at + Size(il[k].op) <= |code| && code[at] == il[k].op && Known(il[k].op)
    ensures il[k].op == OP_EOF <==> k == |il| - 1
    ensures Offset(il, k + 1) == Offset(il, k) + Size(il[k].op)
  {
    hide Encode;
    ByteAt(il, k, 0);
    ByteAt(il, k, Size(il[k].op) - 1);
    assert Shaped(il[k]) && InstrBytes(il, k)[0] == il[k].op;
  }

  lemma {:induction false} ScanEncoded(il: seq<Instr>, k: nat)
    requires Listed(il) && k < |il|
    ensures Scan(Encode(il), Offset(il, k)) == Some(Starts(il)[k..])
    decreases |il| - k
  {
    HeadEncoded(il, k);
    StartsFrom(il, k);
    hide Encode, Scan, Size, Known, Listed, Offset, Starts;
    ScanStep(Encode(il), Offset(il, k));
    if k < |il| - 1 {
      ScanEncoded(il, k + 1);
    }
  }

  lemma StartsFrom(il: seq<Instr>, k: nat)
    requires k < |il|
    ensures Starts(il)[k..] == [Offset(il, k)] + Starts(il)[k + 1..]
    ensures k == |il| - 1 ==> Starts(il)[k + 1..] == []
  {
    hide Offset;
  }

  /** What the list must keep to for its code to mean the same: forward jumps lead
      forward, loops back, over distances of 16 bits, and at most 32 forward jumps
      to one instruction. */
  ghost predicate Fits(il: seq<Instr>)
    requires Listed(il)
  {
    forall k: nat | k < |il| && IsJump(il[k].op) :: JumpFits(il, k)
  }

  ghost predicate JumpFits(il: seq<Instr>, k: nat)
    requires Listed(il) && k < |il| && IsJump(il[k].op)
  {
    Reaches(il, k) && (IsForward(il[k].op) ==> JumpsTo(il, k, il[k].arg.t.value) < MAX_JUMPS_TO_ONE)
  }

  predicate Reaches(il: seq<Instr>, k: nat)
    requires Listed(il) && k < |il| && IsJump(il[k].op)
  {
    && Distance(il, k) < U16_LIMIT
    && if IsForward(il[k].op) then k < il[k].arg.t.value else il[k].arg.t.value <= k
  }

  /** How many forward jumps before k lead to t. */
  function JumpsTo(il: seq<Instr>, k: nat, t: nat): nat
    requires Listed(il) && k <= |il|
  {
    if k == 0 then 0
    else JumpsTo(il, k - 1, t) + (if IsForward(il[k - 1].op) && il[k - 1].arg.t.value == t then 1 else 0)
  }

  lemma Decoded(il: seq<Instr>)
    requires Listed(il)
    ensures Scan(Encode(il), 0) == Some(Starts(il)) && InCode(Encode(il), Starts(il))
    ensures forall k: nat | k < |il| :: Offset(il, k) < |Encode(il)| && Encode(il)[Offset(il, k)] == il[k].op
  {
    ScanEncoded(il, 0);
    assert Starts(il)[0..] == Starts(il);
    ScanInCode(Encode(il), 0);
    hide Encode, Listed, InCode, Scan;
    forall k: nat | k < |il|
      ensures Offset(il, k) < |Encode(il)| && Encode(il)[Offset(il, k)] == il[k].op
    {
      ByteAt(il, k, 0);
    }
  }

  /** A distance cut to 16 bits. */
  function Cut(d: nat): nat {
    d % U16_LIMIT
  }

  /** Where the encoded jump leads. */
  lemma EncodedJump(il: seq<Instr>, k: nat)
    requires Listed(il) && k < |il| && IsJump(il[k].op)
    ensures Offset(il, k) + 3 <= |Encode(il)| && Encode(il)[Offset(il, k)] == il[k].op
    ensures var x := JumpTo(Encode(il), Offset(il, k));
            var d := Cut(Distance(il, k));
            x == if IsForward(il[k].op) then Offset(il, k) + 3 + d else Offset(il, k) + 3 - d
  {
    hide Encode;
    ByteAt(il, k, 0);
    ByteAt(il, k, 1);
    ByteAt(il, k, 2);
    assert Shaped(il[k]);
    U16RoundTrip(Distance(il, k));
  }

  /** The offset is the target's exactly when the distance fits and has the right
      sign. */
  lemma JumpExact(il: seq<Instr>, k: nat)
    requires Listed(il) && k < |il| && IsJump(il[k].op)
    ensures Offset(il, k) + 3 <= |Encode(il)|
    ensures Reaches(il, k) <==>
              JumpTo(Encode(il), Offset(il, k)) == Offset(il, il[k].arg.t.value)
              && (IsForward(il[k].op) || il[k].arg.t.value <= k)
  {
    hide Encode, Listed, Offset, JumpTo, Size, Shaped, IsForward, Cut, Abs;
    var t, forward := TargetOf(il, k), IsForward(il[k].op);
    var at: int, to: int, d := Offset(il, k), Offset(il, t), Distance(il, k);
    assert d == Abs(to - at - 3);
    assert Reaches(il, k) <==> d < U16_LIMIT && (if forward then k < t else t <= k);
    hide Distance, Reaches;
    EncodedJump(il, k);
    Shape(il, k);
    if t < k { Rising(il, t, k); }
    if t > k { Rising(il, k, t); }
    Exact(at, to, forward, t > k);
  }

  lemma Shape(il: seq<Instr>, k: nat)
    requires Listed(il) && k < |il|
    ensures Shaped(il[k]) && (IsJump(il[k].op) ==> Size(il[k].op) == 3)
  {
  }

  lemma Exact(at: nat, to: nat, forward: bool, ahead: bool)
    requires if ahead then to >= at + 3 else to <= at
    ensures var d := Abs(to - at - 3);
            var x := if forward then at + 3 + Cut(d) else at + 3 - Cut(d);
            d < U16_LIMIT && forward == ahead <==> x == to && (forward || !ahead)
  {
  }

  /** When all jumps before k are exact, equal offsets are equal targets. */
  lemma {:induction false} RankIs(il: seq<Instr>, k: nat, t: nat)
    requires Listed(il) && k <= |il| && t < |il| && InCode(Encode(il), Starts(il))
    requires forall i: nat | i < k && IsJump(il[i].op) :: Reaches(il, i)
    ensures Rank(Encode(il), Starts(il), k, Offset(il, t)) == JumpsTo(il, k, t)
    decreases k
  {
    hide Encode, Listed, InCode, Reaches, JumpTo, Offset, Size;
    if k > 0 {
      RankIs(il, k - 1, t);
      Decoded(il);
      assert Starts(il)[k - 1] == Offset(il, k - 1);
      if IsJump(il[k - 1].op) {
        JumpExact(il, k - 1);
        var u := TargetOf(il, k - 1);
        if Offset(il, u) == Offset(il, t) { SameOffset(il, u, t); }
      }
    }
  }

  function TargetOf(il: seq<Instr>, k: nat): (t: nat)
    requires Listed(il) && k < |il| && IsJump(il[k].op)
    ensures t < |il| && il[k].arg == Target(Some(t))
  {
    il[k].arg.t.value
  }

  /** A jump is decoded as it was exactly when it fits, given the ones before. */
  lemma ResolvedJump(il: seq<Instr>, k: nat)
    requires Listed(il) && k < |il| && IsJump(il[k].op) && InCode(Encode(il), Starts(il))
    requires Encode(il)[Starts(il)[k]] == il[k].op
    requires forall i: nat | i < k && IsJump(il[i].op) :: Reaches(il, i)
    ensures Resolve(Encode(il), Starts(il), k) == il[k].arg.t <==> JumpFits(il, k)
  {
    var t := TargetOf(il, k);
    var x := JumpTo(Encode(il), Offset(il, k));
    JumpExact(il, k);
    IndexOfStart(il, |il|, x);
    IndexOfStart(il, k + 1, x);
    assert Starts(il)[..|il|] == Starts(il) && Starts(il)[k] == Offset(il, k);
    RankIs(il, k, t);
    hide Encode, Listed, InCode, JumpTo, Offset, Size, Reaches, IndexOf, Rank, JumpsTo;
  }

  lemma OperandEncoded(il: seq<Instr>, k: nat)
    requires Listed(il) && k < |il| && !IsJump(il[k].op) && InCode(Encode(il), Starts(il))
    requires Encode(il)[Starts(il)[k]] == il[k].op
    ensures Operands(Encode(il), Starts(il), k) == il[k].arg
  {
    hide Encode, InCode;
    Shape(il, k);
    var n := Size(il[k].op);
    if n > 1 { ByteAt(il, k, 1); }
    if n > 2 { ByteAt(il, k, 2); }
    if n > 3 { ByteAt(il, k, 3); }
    if n == 4 { U16RoundTrip(il[k].arg.n); }
  }

  /** Decoding the code of a list gives the list back exactly when its jumps fit. */
  lemma ListRoundTrip(il: seq<Instr>)
    requires Listed(il)
    ensures Decode(Encode(il)) == Some(il) <==> Fits(il)
  {
    Decoded(il);
    var back := DecodeAt(Encode(il), Starts(il));
    assert Decode(Encode(il)) == Some(back);
    hide Encode, Listed, InCode, Scan, DecodeAt, JumpFits, Decode, Starts, Offset;
    if Fits(il) {
      forall k: nat | k < |il|
        ensures back[k] == il[k]
      {
        FitsBefore(il, k);
        BackAt(il, k);
      }
      assert back == il;
    } else if back == il {
      var k := FirstMisfit(il, |il|);
      FitReaches(il, k);
      BackAt(il, k);
    }
  }

  lemma FitsBefore(il: seq<Instr>, k: nat)
    requires Listed(il) && Fits(il) && k <= |il|
    ensures forall i: nat | i < k && IsJump(il[i].op) :: Reaches(il, i)
  {
    FitReaches(il, k);
  }

  lemma FitReaches(il: seq<Instr>, k: nat)
    requires Listed(il) && k <= |il| && forall i: nat | i < k && IsJump(il[i].op) :: JumpFits(il, i)
    ensures forall i: nat | i < k && IsJump(il[i].op) :: Reaches(il, i)
  {
    hide Reaches, JumpsTo, Listed;
    assert forall i: nat | i < k && IsJump(il[i].op) :: JumpFits(il, i);
  }

  lemma BackAt(il: seq<Instr>, k: nat)
    requires Listed(il) && k < |il| && InCode(Encode(il), Starts(il))
    requires Offset(il, k) < |Encode(il)| && Encode(il)[Offset(il, k)] == il[k].op
    requires forall i: nat | i < k && IsJump(il[i].op) :: Reaches(il, i)
    ensures DecodeAt(Encode(il), Starts(il))[k] == il[k] <==> (IsJump(il[k].op) ==> JumpFits(il, k))
  {
    hide Encode, Listed, InCode, Resolve, JumpFits;
    assert Starts(il)[k] == Offset(il, k);
    if IsJump(il[k].op) {
      ResolvedJump(il, k);
      var t := TargetOf(il, k);
    } else {
      OperandEncoded(il, k);
    }
  }

  lemma {:induction false} FirstMisfit(il: seq<Instr>, n: nat) returns (k: nat)
    requires Listed(il) && n <= |il| && exists i: nat :: i < n && IsJump(il[i].op) && !JumpFits(il, i)
    ensures k < n && IsJump(il[k].op) && !JumpFits(il, k)
    ensures forall i: nat | i < k && IsJump(il[i].op) :: JumpFits(il, i)
    decreases n
  {
    hide Listed, JumpFits;
    if exists i: nat :: i < n - 1 && IsJump(il[i].op) && !JumpFits(il, i) {
      k := FirstMisfit(il, n - 1);
    } else {
      k := n - 1;
    }
  }

  // ----- encoding what was decoded -----

  lemma {:induction false} IndexOfHas(starts: seq<nat>, x: int)
    ensures IndexOf(starts, x).Some? ==> IndexOf(starts, x).value < |starts| && starts[IndexOf(starts, x).value] == x
  {
    if starts != [] && starts[|starts| - 1] != x {
      IndexOfHas(starts[..|starts| - 1], x);
    }
  }

  lemma {:induction false} OffsetIs(code: seq<Byte>, starts: seq<nat>, k: nat)
    requires InCode(code, starts) && k < |starts| && starts[0] == 0
    ensures Offset(DecodeAt(code, starts), k) == starts[k]
    decreases k
  {
    hide Operands;
    if k > 0 {
      OffsetIs(code, starts, k - 1);
      assert starts[k - 1 + 1] == starts[k - 1] + Size(code[starts[k - 1]]);
    }
  }

  lemma BytesOf(lo: Byte, hi: Byte)
    ensures Lo(U16(lo, hi)) == lo && Hi(U16(lo, hi)) == hi && U16(lo, hi) < U16_LIMIT
  {
  }

  /** Every jump leads to an instruction, and array flags are 0 or 1. */
  ghost predicate WellFormed(code: seq<Byte>) {
    var starts := Scan(code, 0);
    starts.Some? && InCode(code, starts.value)
    && (forall k: nat | k < |starts.value| && IsJump(code[starts.value[k]]) :: Resolve(code, starts.value, k).Some?)
    && forall k: nat | k < |starts.value| && code[starts.value[k]] == OP_INITIALIZE_ARRAY :: code[starts.value[k] + 3] <= 1
  }

  lemma DecodedListed(code: seq<Byte>)
    requires WellFormed(code)
    ensures Decode(code).Some? && Listed(Decode(code).value)
  {
    ScanInCode(code, 0);
    var starts := Scan(code, 0).value;
    var il := DecodeAt(code, starts);
    hide Scan, Resolve;
    forall k: nat | k < |il|
      ensures Shaped(il[k]) && (il[k].op == OP_EOF <==> k == |il| - 1)
      ensures IsJump(il[k].op) ==> il[k].arg.t.Some? && il[k].arg.t.value < |il|
    {
      if IsJump(il[k].op) {
        ResolvedIn(code, starts, k);
      } else if Size(il[k].op) == 4 {
        BytesOf(code[starts[k] + 1], code[starts[k] + 2]);
      }
    }
  }

  lemma ResolvedIn(code: seq<Byte>, starts: seq<nat>, k: nat)
    requires InCode(code, starts) && k < |starts| && IsJump(code[starts[k]]) && Resolve(code, starts, k).Some?
    ensures var t := Resolve(code, starts, k).value; t < |starts| && starts[t] == JumpTo(code, starts[k])
  {
    hide IndexOf, JumpTo, Rank;
    var x := JumpTo(code, starts[k]);
    IndexOfHas(starts, x);
    IndexOfHas(starts[..k + 1], x);
  }

  /** The distance read is the distance written. */
  lemma SameDistance(code: seq<Byte>, k: nat)
    requires WellFormed(code) && k < |Scan(code, 0).value| && Listed(Decode(code).value)
    requires IsJump(code[Scan(code, 0).value[k]])
    ensures var at := Scan(code, 0).value[k];
            Distance(Decode(code).value, k) == U16(code[at + 1], code[at + 2])
  {
    ScanInCode(code, 0);
    var starts := Scan(code, 0).value;
    assert Resolve(code, starts, k).Some?;
    ResolvedIn(code, starts, k);
    OffsetIs(code, starts, k);
    OffsetIs(code, starts, Resolve(code, starts, k).value);
    hide Scan, Resolve, Listed, Offset, WellFormed, InCode;
  }

  /** The bytes of an operand that was read at `at`. */
  lemma OperandRead(il: seq<Instr>, k: nat, code: seq<Byte>, at: nat)
    requires Listed(il) && k < |il| && at < |code| && il[k].op == code[at] && at + Size(code[at]) <= |code|
    requires var n := Size(code[at]);
             if IsJump(code[at]) then Distance(il, k) == U16(code[at + 1], code[at + 2])
             else il[k].arg == if n == 2 then U8(code[at + 1])
                               else if n == 3 then Pair(code[at + 1], code[at + 2])
                               else if n == 4 then ArrayInit(U16(code[at + 1], code[at + 2]), code[at + 3] != 0)
                               else NoOperand
    requires Size(code[at]) == 4 ==> code[at + 3] <= 1
    ensures OperandBytes(il, k) == code[at + 1..at + Size(code[at])]
  {
    Shape(il, k);
    if Size(code[at]) > 2 { BytesOf(code[at + 1], code[at + 2]); }
    var n := Size(code[at]);
    assert n == 1 ==> code[at + 1..at + n] == [];
    assert n == 2 ==> code[at + 1..at + n] == [code[at + 1]];
    assert n == 3 ==> code[at + 1..at + n] == [code[at + 1], code[at + 2]];
    assert n == 4 ==> code[at + 1..at + n] == [code[at + 1], code[at + 2], code[at + 3]];
    hide Listed, Lo, Hi, U16, Size, Distance, Offset, Known;
  }

  lemma SameOperand(code: seq<Byte>, k: nat)
    requires WellFormed(code) && k < |Scan(code, 0).value| && Listed(Decode(code).value)
    ensures var at := Scan(code, 0).value[k];
            OperandBytes(Decode(code).value, k) == code[at + 1..at + Size(code[at])]
  {
    ScanInCode(code, 0);
    var starts := Scan(code, 0).value;
    var at := starts[k];
    if IsJump(code[at]) { SameDistance(code, k); }
    assert Size(code[at]) == 4 ==> code[at] == OP_INITIALIZE_ARRAY;
    hide Scan, Resolve, Listed, Distance, Size, IsJump, Offset, Lo, Hi, U16;
    OperandRead(Decode(code).value, k, code, at);
  }

  lemma SameBytes(code: seq<Byte>, k: nat)
    requires WellFormed(code) && k < |Scan(code, 0).value| && Listed(Decode(code).value)
    ensures var at := Scan(code, 0).value[k];
            at + Size(code[at]) <= |code| && InstrBytes(Decode(code).value, k) == code[at..at + Size(code[at])]
  {
    SameOperand(code, k);
    ScanInCode(code, 0);
    var at := Scan(code, 0).value[k];
    assert Decode(code).value[k].op == code[at];
    hide Scan, Resolve, Listed, OperandBytes, Decode, WellFormed;
    assert [code[at]] + code[at + 1..at + Size(code[at])] == code[at..at + Size(code[at])];
  }

  lemma SliceJoin(code: seq<Byte>, a: nat, b: nat)
    requires a <= b <= |code|
    ensures code[..a] + code[a..b] == code[..b]
  {
  }

  /** Code that holds the bytes of the instructions one by one holds them all. */
  lemma {:induction false} PrefixOf(il: seq<Instr>, code: seq<Byte>, n: nat)
    requires Listed(il) && n <= |il|
    requires forall k: nat | k < |il| :: HasInstr(il, code, k)
    ensures Offset(il, n) <= |code| && EncodeTo(il, n) == code[..Offset(il, n)]
    decreases n
  {
    hide Listed, InstrBytes, Size;
    if n > 0 {
      PrefixOf(il, code, n - 1);
      assert HasInstr(il, code, n - 1);
      assert EncodeTo(il, n) == EncodeTo(il, n - 1) + InstrBytes(il, n - 1);
      assert Offset(il, n) == Offset(il, n - 1) + Size(il[n - 1].op);
      hide EncodeTo, Offset;
      SliceJoin(code, Offset(il, n - 1), Offset(il, n));
    }
  }

  ghost predicate HasInstr(il: seq<Instr>, code: seq<Byte>, k: nat)
    requires Listed(il) && k < |il|
  {
    var at, n := Offset(il, k), Size(il[k].op);
    at + n <= |code| && code[at..at + n] == InstrBytes(il, k)
  }

  lemma StartIs(code: seq<Byte>, k: nat)
    requires WellFormed(code) && k < |Scan(code, 0).value|
    ensures var il, at := Decode(code).value, Scan(code, 0).value[k];
            k < |il| == |Scan(code, 0).value| && Offset(il, k) == at < |code| && il[k].op == code[at]
  {
    ScanInCode(code, 0);
    OffsetIs(code, Scan(code, 0).value, k);
    hide Scan, Offset;
  }

  lemma HasBytes(code: seq<Byte>, k: nat)
    requires WellFormed(code) && k < |Scan(code, 0).value| && Listed(Decode(code).value)
    ensures k < |Decode(code).value| && HasInstr(Decode(code).value, code, k)
  {
    SameBytes(code, k);
    StartIs(code, k);
    hide Scan, Listed, InstrBytes, Decode, WellFormed, Size;
  }

  /** Encoding a decoded chunk returns its bytes up to the first end of file. */
  lemma CodeRoundTrip(code: seq<Byte>)
    requires WellFormed(code)
    ensures Decode(code).Some? && Listed(Decode(code).value)
    ensures var starts := Scan(code, 0).value;
            var end := starts[|starts| - 1] + 1;
            end <= |code| && Encode(Decode(code).value) == code[..end] && code[end - 1] == OP_EOF
  {
    hide Scan, Listed, WellFormed, HasInstr, Encode, DecodeAt, InCode;
    DecodedListed(code);
    var starts := ScannedStarts(code);
    var n := |starts|;
    forall k: nat | k < n
      ensures HasInstr(DecodeAt(code, starts), code, k)
    {
      HasBytes(code, k);
    }
    PrefixOf(DecodeAt(code, starts), code, n);
    OffsetIs(code, starts, n - 1);
    EndsAt(DecodeAt(code, starts));
  }

  lemma EndsAt(il: seq<Instr>)
    requires Listed(il)
    ensures il != [] && Encode(il) == EncodeTo(il, |il|) && Offset(il, |il|) == Offset(il, |il| - 1) + 1
  {
    assert il[|il| - 1].op == OP_EOF;
  }

  lemma ScannedStarts(code: seq<Byte>) returns (starts: seq<nat>)
    requires WellFormed(code)
    ensures Scan(code, 0) == Some(starts) && starts != [] && starts[0] == 0 && InCode(code, starts)
    ensures Decode(code) == Some(DecodeAt(code, starts)) && |DecodeAt(code, starts)| == |starts|
    ensures starts[|starts| - 1] < |code| && code[starts[|starts| - 1]] == OP_EOF
  {
    ScanInCode(code, 0);
    starts := Scan(code, 0).value;
    hide DecodeAt, Scan;
  }

  // ----- the instructions one by one -----

  /** One instruction that is no jump, its operand bytes, and the end of file. */
  lemma OneInstruction(op: Byte, a: Byte, b: Byte, c: Byte)
    ensures op in {OP_NIL, OP_TRUE, OP_FALSE, OP_POP, OP_EQUAL, OP_GREATER, OP_LESS, OP_RETURN, OP_NEGATE, OP_PRINT, OP_ADD, OP_SUB,
                   OP_MUL, OP_DIV, OP_NOT, OP_ENTER_PACKAGE, OP_EXIT_PACKAGE, OP_GET_ARRAY_ELEMENT, OP_SET_ARRAY_ELEMENT,
                   OP_CONST_1, OP_CONST_2, OP_NO_OP, OP_BINARY_OP_AND, OP_BINARY_OP_OR, OP_LEFT_SHIFT, OP_RIGHT_SHIFT, OP_MODULO,
                   OP_GET_ARRAY_LENGTH} ==>
              Decode([op, OP_EOF]) == Some([Instr(op, NoOperand), EOF])
    ensures op in {OP_CONSTANT, OP_DEFINE_GLOBAL, OP_GET_GLOBAL, OP_SET_GLOBAL, OP_GET_LOCAL, OP_SET_LOCAL, OP_INITIALIZE_STRUCT,
                   OP_GET_STRUCT_FIELD, OP_SET_STRUCT_FIELD, OP_ENTER_MONITOR, OP_EXIT_MONITOR, OP_FAST_CONST_8,
                   OP_PACKAGE_CONST} ==>
              Decode([op, a, OP_EOF]) == Some([Instr(op, U8(a)), EOF])
    ensures op in {OP_CALL, OP_FAST_CONST_16} ==> Decode([op, a, b, OP_EOF]) == Some([Instr(op, Pair(a, b)), EOF])
    ensures op == OP_INITIALIZE_ARRAY ==>
              Decode([op, a, b, c, OP_EOF]) == Some([Instr(op, ArrayInit((a as nat) + 256 * (b as nat), c != 0)), EOF])
  {
    if !Known(op) || op == OP_EOF {
      // in none of the groups
    } else if Size(op) == 1 {
      FirstOf([op, OP_EOF], 1);
    } else if Size(op) == 2 {
      FirstOf([op, a, OP_EOF], 2);
    } else if Size(op) == 3 {
      FirstOf([op, a, b, OP_EOF], 3);
    } else {
      FirstOf([op, a, b, c, OP_EOF], 4);
    }
  }

  lemma FirstOf(code: seq<Byte>, n: nat)
    requires code != [] && Known(code[0]) && code[0] != OP_EOF && n == Size(code[0]) && |code| == n + 1 && code[n] == OP_EOF
    ensures Scan(code, 0) == Some([0, n]) && InCode(code, [0, n])
    ensures Decode(code) == Some([Instr(code[0], Operands(code, [0, n], 0)), EOF])
  {
    assert Size(OP_EOF) == 1;
    assert Scan(code, n) == Some([n]);
    assert [0] + [n] == [0, n];
    ScanInCode(code, 0);
    hide Size, Known, Scan, InCode, Resolve;
    var il := DecodeAt(code, [0, n]);
    assert il == [il[0], il[1]];
  }

  // ----- splicing -----

  const EOF: Instr := Instr(OP_EOF, NoOperand)

  /** Instructions to be put into a list: jumps among themselves, no end of file. */
  ghost predicate Part(src: seq<Instr>) {
    && src != [] && Listed(src + [EOF])
    && forall k: nat | k < |src| && IsJump(src[k].op) ::
         src[k].arg.Target? && src[k].arg.t.Some? && src[k].arg.t.value < |src|
  }

  /** The position, after n instructions were put behind the i-th, of the one that
      was at t. */
  function Moved(i: nat, n: nat, t: nat): nat {
    if t <= i then t else t + n
  }

  /** An instruction of the list, with its jump moved. */
  function MoveJump(x: Instr, i: nat, n: nat): Instr {
    if x.arg.Target? && x.arg.t.Some? then Instr(x.op, Target(Some(Moved(i, n, x.arg.t.value)))) else x
  }

  /** One of those put behind the i-th. */
  function Enter(x: Instr, i: nat): Instr {
    if x.arg.Target? && x.arg.t.Some? then Instr(x.op, Target(Some(i + 1 + x.arg.t.value))) else x
  }

  /** `src` behind the i-th instruction of `dst`: every jump leads to the
      instruction it led to. */
  function Splice(dst: seq<Instr>, i: nat, src: seq<Instr>): (r: seq<Instr>)
    requires i < |dst|
    ensures |r| == |dst| + |src|
  {
    var n := |src|;
    seq(|dst| + n, p requires 0 <= p < |dst| + n =>
      if p <= i then MoveJump(dst[p], i, n)
      else if p <= i + n then Enter(src[p - i - 1], i)
      else MoveJump(dst[p - n], i, n))
  }

  /** Which instruction stands at p after the splice. */
  lemma SplicedFrom(dst: seq<Instr>, i: nat, src: seq<Instr>, p: nat)
    requires i < |dst| && p < |dst| + |src|
    ensures Splice(dst, i, src)[p] == if p <= i then MoveJump(dst[p], i, |src|)
                                      else if p <= i + |src| then Enter(src[p - i - 1], i)
                                      else MoveJump(dst[p - |src|], i, |src|)
  {
  }

  /** What Listed says of one instruction. */
  ghost predicate Fine(il: seq<Instr>, k: nat)
    requires k < |il|
  {
    && Shaped(il[k]) && (il[k].op == OP_EOF <==> k == |il| - 1)
    && (IsJump(il[k].op) ==> il[k].arg.Target? && il[k].arg.t.Some? && il[k].arg.t.value < |il|)
  }

  lemma ListedAt(il: seq<Instr>, k: nat)
    requires Listed(il) && k < |il|
    ensures Fine(il, k)
  {
    hide Known, Size;
  }

  lemma AllFine(il: seq<Instr>)
    requires il != [] && forall k: nat | k < |il| :: Fine(il, k)
    ensures Listed(il)
  {
    hide Known, Size;
    forall k: nat | k < |il|
      ensures Shaped(il[k]) && (il[k].op == OP_EOF <==> k == |il| - 1)
      ensures IsJump(il[k].op) ==> il[k].arg.Target? && il[k].arg.t.Some? && il[k].arg.t.value < |il|
    {
      assert Fine(il, k);
    }
  }

  lemma MovedShape(x: Instr, i: nat, n: nat)
    requires Shaped(x)
    ensures Shaped(MoveJump(x, i, n)) && Shaped(Enter(x, i)) && MoveJump(x, i, n).op == x.op == Enter(x, i).op
  {
    hide Known;
  }

  lemma PieceFine(dst: seq<Instr>, i: nat, src: seq<Instr>, p: nat)
    requires Listed(dst) && Part(src) && i < |dst| - 1 && p < |dst| + |src|
    ensures Fine(Splice(dst, i, src), p)
  {
    var n := |src|;
    SplicedFrom(dst, i, src, p);
    if i < p <= i + n {
      var k := p - i - 1;
      assert (src + [EOF])[k] == src[k];
      assert IsJump(src[k].op) ==> src[k].arg.Target? && src[k].arg.t.Some? && src[k].arg.t.value < |src|;
      ListedAt(src + [EOF], k);
      MovedShape(src[k], i, n);
    } else {
      var k := if p <= i then p else p - n;
      ListedAt(dst, k);
      MovedShape(dst[k], i, n);
    }
    hide Known, Size, Splice, Listed, Shaped, Part;
  }

  lemma SpliceListed(dst: seq<Instr>, i: nat, src: seq<Instr>)
    requires Listed(dst) && Part(src) && i < |dst| - 1
    ensures Listed(Splice(dst, i, src))
  {
    hide Listed, Fine, Part, Splice;
    var r := Splice(dst, i, src);
    forall p: nat | p < |r|
      ensures Fine(r, p)
    {
      PieceFine(dst, i, src, p);
    }
    AllFine(r);
  }

  /** Jumps of the first part of the list, counted in the spliced one. */
  lemma {:induction false} CountBefore(dst: seq<Instr>, i: nat, src: seq<Instr>, k: nat, u: nat)
    requires Listed(dst) && Part(src) && i < |dst| - 1 && k <= i + 1 && Listed(Splice(dst, i, src))
    ensures JumpsTo(Splice(dst, i, src), k, Moved(i, |src|, u)) == JumpsTo(dst, k, u)
    decreases k
  {
    hide Listed, Part, Splice;
    if k > 0 {
      CountBefore(dst, i, src, k - 1, u);
      SplicedJump(dst, i, src, k - 1);
    }
  }

  /** They do not lead among the new instructions. */
  lemma {:induction false} NoneInto(dst: seq<Instr>, i: nat, src: seq<Instr>, k: nat, t: nat)
    requires Listed(dst) && Part(src) && i < |dst| - 1 && k <= i + 1 && Listed(Splice(dst, i, src)) && i < t <= i + |src|
    ensures JumpsTo(Splice(dst, i, src), k, t) == 0
    decreases k
  {
    hide Listed, Part, Splice;
    if k > 0 {
      NoneInto(dst, i, src, k - 1, t);
      SplicedJump(dst, i, src, k - 1);
    }
  }

  /** Where a jump of the list leads after the splice. */
  lemma SplicedJump(dst: seq<Instr>, i: nat, src: seq<Instr>, k: nat)
    requires i < |dst| && k < |dst| && Listed(dst)
    ensures var x := Splice(dst, i, src)[Moved(i, |src|, k)];
            x.op == dst[k].op && (IsJump(x.op) ==> x.arg == Target(Some(Moved(i, |src|, TargetOf(dst, k)))))
  {
    var n, p := |src|, Moved(i, |src|, k);
    if k > i { assert p > i + n && dst[p - n] == dst[k]; }
    assert Splice(dst, i, src)[p] == MoveJump(dst[k], i, n);
    if IsJump(dst[k].op) { var t := TargetOf(dst, k); }
  }

  lemma InnerJump(dst: seq<Instr>, i: nat, src: seq<Instr>, k: nat)
    requires i < |dst| && k < |src| && Part(src)
    ensures var x := Splice(dst, i, src)[i + 1 + k];
            x.op == src[k].op && (IsJump(x.op) ==> x.arg == Target(Some(i + 1 + TargetOf(src + [EOF], k))))
            && (IsJump(x.op) ==> TargetOf(src + [EOF], k) < |src|)
  {
    assert (src + [EOF])[k] == src[k];
    assert i + 1 + k - i - 1 == k;
    assert Splice(dst, i, src)[i + 1 + k] == Enter(src[k], i);
    if IsJump(src[k].op) { var t := TargetOf(src + [EOF], k); }
  }

  lemma {:induction false} CountInside(dst: seq<Instr>, i: nat, src: seq<Instr>, k: nat, t: nat)
    requires Listed(dst) && Part(src) && i < |dst| - 1 && k <= |src| && Listed(Splice(dst, i, src))
    ensures JumpsTo(Splice(dst, i, src), i + 1 + k, t) ==
            JumpsTo(Splice(dst, i, src), i + 1, t) + (if t >= i + 1 then JumpsTo(src + [EOF], k, t - i - 1) else 0)
    decreases k
  {
    if k == 0 {
      assert t >= i + 1 ==> JumpsTo(src + [EOF], 0, t - i - 1) == 0;
    } else {
      CountInside(dst, i, src, k - 1, t);
      InnerJump(dst, i, src, k - 1);
      assert (src + [EOF])[k - 1] == src[k - 1];
      hide Listed, Part, Splice;
      var r := Splice(dst, i, src);
      assert i + 1 + k - 1 == i + 1 + (k - 1);
    }
  }

  lemma {:induction false} NoneBeyond(src: seq<Instr>, k: nat, t: nat)
    requires Part(src) && k <= |src| <= t
    ensures JumpsTo(src + [EOF], k, t) == 0
    decreases k
  {
    if k > 0 {
      NoneBeyond(src, k - 1, t);
      assert (src + [EOF])[k - 1] == src[k - 1];
      assert IsForward(src[k - 1].op) ==> src[k - 1].arg.t.value < |src|;
    }
  }

  lemma CountMiddle(dst: seq<Instr>, i: nat, src: seq<Instr>, u: nat)
    requires Listed(dst) && Part(src) && i < |dst| - 1 && Listed(Splice(dst, i, src))
    ensures JumpsTo(Splice(dst, i, src), i + 1 + |src|, Moved(i, |src|, u)) == JumpsTo(dst, i + 1, u)
  {
    hide Listed, Part, Splice, JumpsTo;
    var t, n := Moved(i, |src|, u), |src|;
    CountBefore(dst, i, src, i + 1, u);
    CountInside(dst, i, src, n, t);
    if t >= i + 1 { NoneBeyond(src, n, t - i - 1); }
  }

  /** Jumps of the last part of the list. */
  lemma {:induction false} CountAfter(dst: seq<Instr>, i: nat, src: seq<Instr>, k: nat, u: nat)
    requires Listed(dst) && Part(src) && i < |dst| - 1 && i < k <= |dst| && Listed(Splice(dst, i, src))
    ensures JumpsTo(Splice(dst, i, src), k + |src|, Moved(i, |src|, u)) == JumpsTo(dst, k, u)
    decreases k
  {
    hide Listed, Part, Splice, JumpsTo, Moved;
    if k == i + 1 {
      CountMiddle(dst, i, src, u);
    } else {
      CountAfter(dst, i, src, k - 1, u);
      CountStep(dst, i, src, k, u);
    }
  }

  lemma CountStep(dst: seq<Instr>, i: nat, src: seq<Instr>, k: nat, u: nat)
    requires Listed(dst) && i < |dst| && i + 1 < k <= |dst| && Listed(Splice(dst, i, src))
    ensures var r, n, t := Splice(dst, i, src), |src|, Moved(i, |src|, u);
            JumpsTo(r, k + n, t) - JumpsTo(r, k - 1 + n, t) == JumpsTo(dst, k, u) - JumpsTo(dst, k - 1, u)
  {
    hide Listed, Splice, Size;
    SplicedJump(dst, i, src, k - 1);
    var r, n, t := Splice(dst, i, src), |src|, Moved(i, |src|, u);
    assert Moved(i, n, k - 1) == k - 1 + n && k + n - 1 == k - 1 + n;
    assert JumpsTo(r, k + n, t) ==
           JumpsTo(r, k - 1 + n, t) + (if IsForward(r[k - 1 + n].op) && r[k - 1 + n].arg.t.value == t then 1 else 0);
  }

  /** A jump keeps its direction and the number of jumps before it to its target. */
  lemma OuterFits(dst: seq<Instr>, i: nat, src: seq<Instr>, k: nat)
    requires Listed(dst) && Part(src) && i < |dst| - 1 && k < |dst| && Listed(Splice(dst, i, src))
    requires IsJump(dst[k].op) && JumpFits(dst, k)
    ensures var r, p := Splice(dst, i, src), Moved(i, |src|, k);
            r[p].op == dst[k].op && (JumpFits(r, p) <==> Distance(r, p) < U16_LIMIT)
  {
    SplicedJump(dst, i, src, k);
    var u := TargetOf(dst, k);
    if k <= i {
      CountBefore(dst, i, src, k, u);
    } else {
      CountAfter(dst, i, src, k, u);
    }
    hide Listed, Part, Splice, Distance;
  }

  lemma InnerFits(dst: seq<Instr>, i: nat, src: seq<Instr>, k: nat)
    requires Listed(dst) && Part(src) && i < |dst| - 1 && k < |src| && Listed(Splice(dst, i, src))
    requires IsJump(src[k].op) && (src + [EOF])[k] == src[k] && JumpFits(src + [EOF], k)
    ensures var r := Splice(dst, i, src);
            r[i + 1 + k].op == src[k].op && (JumpFits(r, i + 1 + k) <==> Distance(r, i + 1 + k) < U16_LIMIT)
  {
    InnerJump(dst, i, src, k);
    var u := TargetOf(src + [EOF], k);
    CountInside(dst, i, src, k, i + 1 + u);
    NoneInto(dst, i, src, i + 1, i + 1 + u);
    hide Listed, Part, Splice, Distance;
  }

  /** A list spliced from two that fit is encoded and decoded faithfully exactly
      when its distances still take 16 bits. */
  lemma SplicedRoundTrip(dst: seq<Instr>, i: nat, src: seq<Instr>)
    requires Listed(dst) && Part(src) && i < |dst| - 1 && Fits(dst) && Fits(src + [EOF])
    ensures Listed(Splice(dst, i, src))
    ensures var r := Splice(dst, i, src);
            Decode(Encode(r)) == Some(r) <==> forall p: nat | p < |r| && IsJump(r[p].op) :: Distance(r, p) < U16_LIMIT
  {
    SpliceListed(dst, i, src);
    var r, n := Splice(dst, i, src), |src|;
    ListRoundTrip(r);
    hide Listed, Part, Splice, Distance, JumpFits, Decode, Encode;
    forall p: nat | p < |r| && IsJump(r[p].op)
      ensures JumpFits(r, p) <==> Distance(r, p) < U16_LIMIT
    {
      PieceFits(dst, i, src, p);
    }
  }

  lemma PieceFits(dst: seq<Instr>, i: nat, src: seq<Instr>, p: nat)
    requires Listed(dst) && Part(src) && i < |dst| - 1 && Fits(dst) && Fits(src + [EOF]) && Listed(Splice(dst, i, src))
    requires var r := Splice(dst, i, src); p < |r| && IsJump(r[p].op)
    ensures var r := Splice(dst, i, src); JumpFits(r, p) <==> Distance(r, p) < U16_LIMIT
  {
    var n := |src|;
    hide Listed, Part, Distance, JumpFits, Splice;
    if p <= i {
      SplicedJump(dst, i, src, p);
      OuterFits(dst, i, src, p);
    } else if p <= i + n {
      InnerJump(dst, i, src, p - i - 1);
      assert (src + [EOF])[p - i - 1] == src[p - i - 1];
      InnerFits(dst, i, src, p - i - 1);
    } else {
      SplicedJump(dst, i, src, p - n);
      OuterFits(dst, i, src, p - n);
    }
  }
}
