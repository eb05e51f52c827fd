// Decoding a chunk into a list of nodes: an iterator over the code, and a table of
// forward jumps that wait for the instruction they lead to.
module BytecodeDecoder {
  import opened Wrappers
  import opened Bytecode
  import opened Chunks
  import opened Instructions
  import opened BytecodeLists

  class ChunkIterator {
    const chunk: Chunk
    var pc: nat
    var lastInstruction: Byte
    var eofAlreadyHit: bool

    constructor (chunk: Chunk)
      ensures this.chunk == chunk && pc == 0 && !eofAlreadyHit
    {
      this.chunk, pc, lastInstruction, eofAlreadyHit := chunk, 0, OP_NO_OP, false;
    }

    /** False once the end of file has been returned. */
    method HasNext() returns (yes: bool)
      requires chunk.Valid() && (eofAlreadyHit || pc < chunk.inUse)
      modifies this`eofAlreadyHit
      ensures yes == !old(eofAlreadyHit)
      ensures eofAlreadyHit == (old(eofAlreadyHit) || chunk.Contents[pc] == OP_EOF)
    {
      if eofAlreadyHit {
        return false;
      }
      if chunk.code[pc] == OP_EOF {
        eofAlreadyHit := true;
      }
      yes := true;
    }

    method Next() returns (op: Byte)
      requires chunk.Valid() && pc < chunk.inUse
      modifies this`pc, this`lastInstruction
      ensures op == chunk.Contents[old(pc)] == lastInstruction && pc == old(pc) + Size(op)
    {
      op := chunk.code[pc];
      pc := pc + Size(op);
      lastInstruction := op;
    }

    method CurrentIndex() returns (i: nat)
      requires pc >= Size(lastInstruction)
      ensures i == pc - Size(lastInstruction)
    {
      i := pc - Size(lastInstruction);
    }

    method ReadU8At(offset: nat) returns (b: Byte)
      requires chunk.Valid() && pc >= Size(lastInstruction) && pc - Size(lastInstruction) + offset + 1 < chunk.inUse
      ensures b == chunk.Contents[pc - Size(lastInstruction) + offset + 1]
    {
      b := chunk.code[pc - Size(lastInstruction) + offset + 1];
    }

    method ReadU8() returns (b: Byte)
      requires chunk.Valid() && 1 <= pc <= chunk.inUse
      ensures b == chunk.Contents[pc - 1]
    {
      b := chunk.code[pc - 1];
    }

    method ReadU16(back: nat) returns (n: nat)
      requires chunk.Valid() && 2 <= back <= pc <= chunk.inUse
      ensures n == U16(chunk.Contents[pc - back], chunk.Contents[pc - back + 1])
    {
      n := U16(chunk.code[pc - back], chunk.code[pc - back + 1]);
    }
  }

  class PendingJumps {
    var pending: map<nat, seq<Node>>

    constructor ()
      ensures pending == map[]
    {
      pending := map[];
    }

    method Get(index: nat) returns (list: seq<Node>)
      ensures list == LookUp(pending, index)
    {
      list := if index in pending then pending[index] else [];
    }

    /** False when the instruction has as many jumps as are remembered. */
    method Add(index: nat, node: Node) returns (added: bool)
      modifies this
      ensures added == (|LookUp(old(pending), index)| < 32)
      ensures pending == if added then old(pending)[index := LookUp(old(pending), index) + [node]] else old(pending)
    {
      var list := if index in pending then pending[index] else [];
      added := |list| < MAX_JUMPS_TO_ONE;
      if added {
        pending := pending[index := list + [node]];
      }
    }
  }

  function LookUp(pending: map<nat, seq<Node>>, index: nat): seq<Node> {
    if index in pending then pending[index] else []
  }

  // ----- which jumps wait for an offset -----

  /** The forward jumps among the first n instructions that wait for x. */
  function Waiting(code: seq<Byte>, starts: seq<nat>, n: nat, x: int): (s: seq<nat>)
    requires InCode(code, starts) && n <= |starts|
    ensures |s| == (if Rank(code, starts, n, x) < MAX_JUMPS_TO_ONE then Rank(code, starts, n, x) else MAX_JUMPS_TO_ONE)
    ensures forall k | k in s :: k < n
  {
    if n == 0 then []
    else
      var s, at := Waiting(code, starts, n - 1, x), starts[n - 1];
      if IsForward(code[at]) && JumpTo(code, at) == x && |s| < MAX_JUMPS_TO_ONE then s + [n - 1] else s
  }

  lemma {:induction false} WaitingIff(code: seq<Byte>, starts: seq<nat>, n: nat, x: int, k: nat)
    requires InCode(code, starts) && k < n <= |starts|
    ensures k in Waiting(code, starts, n, x) <==>
              IsForward(code[starts[k]]) && JumpTo(code, starts[k]) == x && Rank(code, starts, k, x) < MAX_JUMPS_TO_ONE
    decreases n
  {
    hide JumpTo, InCode;
    var s := Waiting(code, starts, n - 1, x);
    if k < n - 1 {
      WaitingIff(code, starts, n - 1, x, k);
    } else {
      assert k !in s;
    }
  }

  lemma {:induction false} StartsRise(code: seq<Byte>, starts: seq<nat>, i: nat, j: nat)
    requires InCode(code, starts) && i < j < |starts|
    ensures starts[i] < starts[j]
    decreases j
  {
    assert starts[j - 1 + 1] == starts[j - 1] + Size(code[starts[j - 1]]);
    if i < j - 1 {
      StartsRise(code, starts, i, j - 1);
    }
  }

  lemma IndexOfExact(code: seq<Byte>, starts: seq<nat>, t: nat)
    requires InCode(code, starts) && t < |starts|
    ensures IndexOf(starts, starts[t]) == Some(t)
  {
    IndexOfHas(starts, starts[t]);
    IndexOfFinds(starts, t);
    var u := IndexOf(starts, starts[t]).value;
    if u < t { StartsRise(code, starts, u, t); }
    if t < u { StartsRise(code, starts, t, u); }
  }

  lemma {:induction false} IndexOfFinds(starts: seq<nat>, t: nat)
    requires t < |starts|
    ensures IndexOf(starts, starts[t]).Some?
  {
    if t < |starts| - 1 {
      IndexOfFinds(starts[..|starts| - 1], t);
    }
  }

  /** A jump is resolved to the n-th instruction exactly when it waits for it. */
  lemma WaitsFor(code: seq<Byte>, starts: seq<nat>, n: nat, k: nat)
    requires InCode(code, starts) && k < n < |starts| && IsJump(code[starts[k]])
    ensures Resolve(code, starts, k) == Some(n) <==> k in Waiting(code, starts, n, starts[n])
  {
    WaitingIff(code, starts, n, starts[n], k);
    var x := JumpTo(code, starts[k]);
    hide JumpTo, Rank, Waiting;
    IndexOfHas(starts, x);
    IndexOfExact(code, starts, n);
    IndexOfHas(starts[..k + 1], x);
  }

  // ----- what has been built -----

  /** The nodes hold the instructions of the code, but for their jumps. */
  ghost predicate FieldsOk(code: seq<Byte>, starts: seq<nat>, nodes: seq<Node>)
    requires InCode(code, starts) && |nodes| <= |starts|
    reads nodes`op, nodes`u8_1, nodes`u8_2, nodes`nElements, nodes`isEmpty
  {
    forall k: nat | k < |nodes| :: FieldOk(code, starts, k, nodes[k])
  }

  ghost predicate FieldOk(code: seq<Byte>, starts: seq<nat>, k: nat, x: Node)
    requires InCode(code, starts) && k < |starts|
    reads x`op, x`u8_1, x`u8_2, x`nElements, x`isEmpty
  {
    var at := starts[k];
    && x.op == code[at]
    && (!IsJump(x.op) && Size(x.op) in {2, 3} ==> x.u8_1 == code[at + 1])
    && (!IsJump(x.op) && Size(x.op) == 3 ==> x.u8_2 == code[at + 2])
    && (Size(x.op) == 4 ==> x.nElements == U16(code[at + 1], code[at + 2]) && x.isEmpty == (code[at + 3] != 0))
  }

  ghost predicate OpsOk(code: seq<Byte>, starts: seq<nat>, nodes: seq<Node>)
    requires InCode(code, starts) && |nodes| <= |starts|
    reads nodes`op
  {
    forall k: nat | k < |nodes| :: nodes[k].op == code[starts[k]]
  }

  /** Jumps that can be resolved so far, are. */
  ghost predicate JumpsOk(code: seq<Byte>, starts: seq<nat>, nodes: seq<Node>)
    requires InCode(code, starts) && |nodes| <= |starts|
    reads nodes`jump
  {
    JumpsIn(code, starts, nodes, nodes)
  }

  /** The jumps of `nodes` are those resolved within `all`. */
  ghost predicate JumpsIn(code: seq<Byte>, starts: seq<nat>, nodes: seq<Node>, all: seq<Node>)
    requires InCode(code, starts) && |nodes| <= |starts|
    reads nodes`jump
  {
    forall k: nat | k < |nodes| && IsJump(code[starts[k]]) :: nodes[k].jump == Resolved(code, starts, all, k)
  }

  function Resolved(code: seq<Byte>, starts: seq<nat>, nodes: seq<Node>, k: nat): Node?
    requires InCode(code, starts) && k < |starts| && IsJump(code[starts[k]])
  {
    match Resolve(code, starts, k)
    case None => null
    case Some(t) => NodeAt(nodes, t)
  }

  ghost predicate PendingOk(pending: map<nat, seq<Node>>, code: seq<Byte>, starts: seq<nat>, nodes: seq<Node>)
    requires InCode(code, starts) && |nodes| <= |starts|
  {
    forall x: nat :: Matches(LookUp(pending, x), Waiting(code, starts, |nodes|, x), nodes)
  }

  ghost predicate Matches(list: seq<Node>, waiting: seq<nat>, nodes: seq<Node>) {
    |list| == |waiting| && forall j: nat | j < |list| :: waiting[j] < |nodes| && list[j] == nodes[waiting[j]]
  }

  /** Loops lead back to an instruction, or, which gives no reference, to the one
      behind. */
  ghost predicate LoopsOk(code: seq<Byte>, starts: seq<nat>)
    requires InCode(code, starts)
  {
    forall k: nat | k < |starts| && code[starts[k]] == OP_LOOP ::
      Resolve(code, starts, k).Some? || JumpTo(code, starts[k]) == starts[k] + 3
  }

  lemma {:induction false} OffsetsMatch(code: seq<Byte>, starts: seq<nat>, nodes: seq<Node>, k: nat)
    requires InCode(code, starts) && |nodes| <= |starts| && k <= |nodes| && (starts != [] ==> starts[0] == 0)
    requires OpsOk(code, starts, nodes)
    ensures Offset(Value(nodes), k) == if k == 0 then 0 else starts[k - 1] + Size(code[starts[k - 1]])
    ensures k < |starts| ==> Offset(Value(nodes), k) == starts[k]
    decreases k
  {
    hide Value, Known;
    if k == 0 {
      AtStart(Value(nodes));
    } else {
      OffsetsMatch(code, starts, nodes, k - 1);
      OpAt(nodes, k - 1);
      Step(Value(nodes), k - 1);
      assert k < |starts| ==> starts[k - 1 + 1] == starts[k - 1] + Size(code[starts[k - 1]]);
    }
  }

  /** The finished list is what decoding is to give. */
  lemma BuiltValue(code: seq<Byte>, starts: seq<nat>, nodes: seq<Node>)
    requires InCode(code, starts) && |nodes| == |starts| && Distinct(nodes)
    requires FieldsOk(code, starts, nodes) && JumpsOk(code, starts, nodes)
    ensures Value(nodes) == DecodeAt(code, starts)
  {
    hide Value, Distinct, DecodeAt, Resolve;
    var il := DecodeAt(code, starts);
    forall k: nat | k < |nodes|
      ensures Value(nodes)[k] == il[k]
    {
      ValueAt(nodes, k);
      BuiltAt(code, starts, nodes, k);
    }
  }

  lemma BuiltAt(code: seq<Byte>, starts: seq<nat>, nodes: seq<Node>, k: nat)
    requires InCode(code, starts) && |nodes| == |starts| && Distinct(nodes) && k < |nodes|
    requires FieldsOk(code, starts, nodes) && JumpsOk(code, starts, nodes)
    ensures InstrOf(nodes, nodes[k]) == DecodeAt(code, starts)[k]
  {
    assert FieldOk(code, starts, k, nodes[k]);
    if IsJump(code[starts[k]]) {
      var r := Resolve(code, starts, k);
      if r.Some? {
        ResolvedIn(code, starts, k);
        PlaceIs(nodes, r.value);
      }
    }
    hide InCode, Resolve, Distinct, FieldsOk, JumpsOk, Known, U16;
  }

  // ----- building -----

  /** check_pending_jumps_to_resolve: jumps that waited for this instruction. */
  method ResolvePending(list: seq<Node>, node: Node)
    modifies list`jump
    ensures forall m | m in list :: m.jump == node
  {
    for i := 0 to |list|
      invariant forall j | 0 <= j < i :: list[j].jump == node
    {
      list[i].jump := node;
    }
  }

  lemma InList(list: seq<Node>, waiting: seq<nat>, nodes: seq<Node>, k: nat)
    requires Matches(list, waiting, nodes) && Distinct(nodes) && k < |nodes|
    ensures nodes[k] in list <==> k in waiting
  {
    if k in waiting {
      var j: nat :| j < |waiting| && waiting[j] == k;
      assert list[j] == nodes[k];
    }
    if nodes[k] in list {
      var j: nat :| j < |list| && list[j] == nodes[k];
      assert nodes[waiting[j]] == nodes[k];
    }
  }

  /** A new instruction arrives: all jumps before it are right again. */
  method Arrive(pending: PendingJumps, node: Node, ghost code: seq<Byte>, ghost starts: seq<nat>, ghost nodes: seq<Node>,
                index: nat)
    requires InCode(code, starts) && |nodes| < |starts| && index == starts[|nodes|] && Distinct(nodes) && node !in nodes
    requires JumpsOk(code, starts, nodes) && PendingOk(pending.pending, code, starts, nodes)
    modifies nodes`jump
    ensures JumpsIn(code, starts, nodes, nodes + [node])
  {
    var list := pending.Get(index);
    ghost var waiting := Waiting(code, starts, |nodes|, index);
    assert Matches(list, waiting, nodes);
    hide PendingOk, Resolve, InCode, Waiting, Resolved, JumpsOk, JumpsIn;
    InNodes(list, waiting, nodes);
    ResolvePending(list, node);
    ArrivedJumps(code, starts, nodes, node, list, waiting, index);
  }

  lemma InNodes(list: seq<Node>, waiting: seq<nat>, nodes: seq<Node>)
    requires Matches(list, waiting, nodes)
    ensures forall m | m in list :: m in nodes
  {
  }

  /** The jumps of the nodes once those in `list` lead to `node`. */
  lemma ArrivedJumps(code: seq<Byte>, starts: seq<nat>, nodes: seq<Node>, node: Node, list: seq<Node>, waiting: seq<nat>, index: nat)
    requires InCode(code, starts) && |nodes| < |starts| && index == starts[|nodes|] && Distinct(nodes) && node !in nodes
    requires waiting == Waiting(code, starts, |nodes|, index) && Matches(list, waiting, nodes)
    requires forall m | m in list :: m.jump == node
    requires forall k: nat | k < |nodes| && IsJump(code[starts[k]]) && nodes[k] !in list :: nodes[k].jump == Resolved(code, starts, nodes, k)
    ensures JumpsIn(code, starts, nodes, nodes + [node])
  {
    assert forall k: nat | k < |starts| :: starts[k] < |code|;
    hide Resolve, InCode, Waiting, Matches;
    forall k: nat | k < |nodes| && IsJump(code[starts[k]])
      ensures nodes[k].jump == Resolved(code, starts, nodes + [node], k)
    {
      WaitsFor(code, starts, |nodes|, k);
      InList(list, waiting, nodes, k);
    }
  }

  lemma WaitingStep(code: seq<Byte>, starts: seq<nat>, n: nat, x: int)
    requires InCode(code, starts) && n < |starts|
    ensures var s, at := Waiting(code, starts, n, x), starts[n];
            Waiting(code, starts, n + 1, x) ==
            if IsForward(code[at]) && JumpTo(code, at) == x && |s| < MAX_JUMPS_TO_ONE then s + [n] else s
  {
    hide JumpTo, InCode;
  }

  lemma MatchesMore(list: seq<Node>, waiting: seq<nat>, nodes: seq<Node>, node: Node)
    requires Matches(list, waiting, nodes)
    ensures |list| == |waiting|
    ensures Matches(list, waiting, nodes + [node]) && Matches(list + [node], waiting + [|nodes|], nodes + [node])
  {
  }

  lemma NotForward(pending: map<nat, seq<Node>>, code: seq<Byte>, starts: seq<nat>, nodes: seq<Node>, node: Node)
    requires InCode(code, starts) && |nodes| < |starts| && PendingOk(pending, code, starts, nodes)
    requires !IsForward(code[starts[|nodes|]])
    ensures PendingOk(pending, code, starts, nodes + [node])
  {
    hide InCode, Matches, JumpTo, Waiting, LookUp;
    forall x: nat
      ensures Matches(LookUp(pending, x), Waiting(code, starts, |nodes + [node]|, x), nodes + [node])
    {
      WaitingStep(code, starts, |nodes|, x);
      MatchesMore(LookUp(pending, x), Waiting(code, starts, |nodes|, x), nodes, node);
    }
  }

  /** What waits for one offset after a forward jump to `to`. */
  lemma ForwardAt(pending: map<nat, seq<Node>>, code: seq<Byte>, starts: seq<nat>, nodes: seq<Node>, node: Node, to: nat, x: nat)
    requires InCode(code, starts) && |nodes| < |starts| && PendingOk(pending, code, starts, nodes)
    requires IsForward(code[starts[|nodes|]]) && JumpTo(code, starts[|nodes|]) == to
    ensures var list := LookUp(pending, to);
            Matches(LookUp(if |list| < MAX_JUMPS_TO_ONE then pending[to := list + [node]] else pending, x),
                    Waiting(code, starts, |nodes + [node]|, x), nodes + [node])
  {
    assert Matches(LookUp(pending, x), Waiting(code, starts, |nodes|, x), nodes);
    hide InCode, JumpTo, Waiting, IsForward, PendingOk, Matches;
    WaitingStep(code, starts, |nodes|, x);
    MatchesMore(LookUp(pending, x), Waiting(code, starts, |nodes|, x), nodes, node);
  }

  lemma AllMatch(pending: map<nat, seq<Node>>, code: seq<Byte>, starts: seq<nat>, nodes: seq<Node>)
    requires InCode(code, starts) && |nodes| <= |starts|
    requires forall x: nat :: Matches(LookUp(pending, x), Waiting(code, starts, |nodes|, x), nodes)
    ensures PendingOk(pending, code, starts, nodes)
  {
  }

  /** A forward jump is noted, unless too many wait for its target. */
  lemma Forward(pending: map<nat, seq<Node>>, code: seq<Byte>, starts: seq<nat>, nodes: seq<Node>, node: Node, to: nat)
    requires InCode(code, starts) && |nodes| < |starts| && PendingOk(pending, code, starts, nodes)
    requires IsForward(code[starts[|nodes|]]) && JumpTo(code, starts[|nodes|]) == to
    ensures var list := LookUp(pending, to);
            PendingOk(if |list| < MAX_JUMPS_TO_ONE then pending[to := list + [node]] else pending, code, starts, nodes + [node])
  {
    hide InCode, JumpTo, Waiting, IsForward, PendingOk, Matches;
    forall x: nat
      ensures var list := LookUp(pending, to);
              Matches(LookUp(if |list| < MAX_JUMPS_TO_ONE then pending[to := list + [node]] else pending, x),
                      Waiting(code, starts, |nodes + [node]|, x), nodes + [node])
    {
      ForwardAt(pending, code, starts, nodes, node, to, x);
    }
    AllMatch(if |LookUp(pending, to)| < MAX_JUMPS_TO_ONE then pending[to := LookUp(pending, to) + [node]] else pending,
             code, starts, nodes + [node]);
  }

  method ReadForward(it: ChunkIterator, pending: PendingJumps, node: Node, index: nat, ghost starts: seq<nat>, ghost nodes: seq<Node>)
    requires it.chunk.Valid() && InCode(it.chunk.Contents, starts) && |nodes| < |starts| && index == starts[|nodes|]
    requires IsForward(it.chunk.Contents[index]) && it.pc == index + 3 <= it.chunk.inUse
    requires PendingOk(pending.pending, it.chunk.Contents, starts, nodes)
    modifies pending
    ensures PendingOk(pending.pending, it.chunk.Contents, starts, nodes + [node])
  {
    var offset := it.ReadU16(2);
    var toJumpIndex := index + 3 + offset;
    Forward(pending.pending, it.chunk.Contents, starts, nodes, node, toJumpIndex);
    hide InCode, PendingOk;
    var added := pending.Add(toJumpIndex, node);
  }

  lemma BackTo(code: seq<Byte>, starts: seq<nat>, k: nat)
    requires InCode(code, starts) && k < |starts| && code[starts[k]] == OP_LOOP && Resolve(code, starts, k).Some?
    ensures Resolve(code, starts, k).value <= k
  {
    IndexOfHas(starts[..k + 1], JumpTo(code, starts[k]));
  }

  /** Where the k-th instruction, a loop, leads back to; the one behind it, if it
      leads to none. */
  function LoopStart(code: seq<Byte>, starts: seq<nat>, k: nat): nat
    requires InCode(code, starts) && k < |starts| && code[starts[k]] == OP_LOOP
  {
    match Resolve(code, starts, k)
    case Some(t) => t
    case None => k + 1
  }

  /** The k-th instruction is a loop, and the j-th belongs to its condition: no exit
      jump lies between its start and the j-th. */
  ghost predicate Marks(code: seq<Byte>, starts: seq<nat>, k: nat, j: nat)
    requires InCode(code, starts) && j <= k < |starts|
  {
    && code[starts[k]] == OP_LOOP && LoopStart(code, starts, k) <= j
    && forall m: nat | LoopStart(code, starts, k) <= m < j :: code[starts[m]] != OP_JUMP_IF_FALSE
  }

  /** Which nodes are marked as parts of a loop condition. */
  ghost function Flags(nodes: seq<Node>): (flags: seq<bool>)
    reads nodes`loopCondition
    ensures |flags| == |nodes|
  {
    if nodes == [] then [] else Flags(nodes[..|nodes| - 1]) + [nodes[|nodes| - 1].loopCondition]
  }

  lemma {:induction false} FlagAt(nodes: seq<Node>, j: nat)
    requires j < |nodes|
    ensures Flags(nodes)[j] == nodes[j].loopCondition
    decreases |nodes|
  {
    if j < |nodes| - 1 { FlagAt(nodes[..|nodes| - 1], j); }
  }

  lemma FlagsPush(nodes: seq<Node>, node: Node)
    ensures Flags(nodes + [node]) == Flags(nodes) + [node.loopCondition]
  {
    assert (nodes + [node])[..|nodes|] == nodes;
  }

  /** The instructions of loop conditions are marked, and no others. */
  ghost predicate FlagsOk(code: seq<Byte>, starts: seq<nat>, flags: seq<bool>)
    requires InCode(code, starts) && |flags| <= |starts|
  {
    forall j: nat | j < |flags| :: flags[j] <==> exists k: nat :: j <= k < |flags| && Marks(code, starts, k, j)
  }

  /** What the last instruction adds to the marks. */
  ghost predicate MarksMore(code: seq<Byte>, starts: seq<nat>, was: seq<bool>, flags: seq<bool>)
    requires InCode(code, starts) && 0 < |flags| <= |starts|
  {
    |was| == |flags| && forall j: nat | j < |flags| :: flags[j] == (was[j] || Marks(code, starts, |flags| - 1, j))
  }

  /** A loop marks the nodes from its start to the next exit jump. */
  lemma LoopMarks(code: seq<Byte>, starts: seq<nat>, nodes: seq<Node>, was: seq<bool>, t: nat)
    requires InCode(code, starts) && 0 < |nodes| <= |starts| && |was| == |nodes| && OpsOk(code, starts, nodes)
    requires code[starts[|nodes| - 1]] == OP_LOOP && t == LoopStart(code, starts, |nodes| - 1)
    requires forall j: nat | j < |nodes| ::
               nodes[j].loopCondition == (was[j] || (t <= j && forall m: nat | t <= m < j :: nodes[m].op != OP_JUMP_IF_FALSE))
    ensures MarksMore(code, starts, was, Flags(nodes))
  {
    hide InCode, LoopStart, OpsOk, Marks, Flags;
    forall j: nat | j < |nodes|
      ensures Flags(nodes)[j] == (was[j] || Marks(code, starts, |nodes| - 1, j))
    {
      FlagAt(nodes, j);
      MarksAt(code, starts, nodes, t, j);
    }
  }

  lemma MarksAt(code: seq<Byte>, starts: seq<nat>, nodes: seq<Node>, t: nat, j: nat)
    requires InCode(code, starts) && j < |nodes| <= |starts| && OpsOk(code, starts, nodes)
    requires code[starts[|nodes| - 1]] == OP_LOOP && t == LoopStart(code, starts, |nodes| - 1)
    ensures Marks(code, starts, |nodes| - 1, j) <==> t <= j && forall m: nat | t <= m < j :: nodes[m].op != OP_JUMP_IF_FALSE
  {
    assert forall k: nat | k < |nodes| :: nodes[k].op == code[starts[k]];
    hide InCode, LoopStart, OpsOk;
  }

  lemma FlagsMore(code: seq<Byte>, starts: seq<nat>, before: seq<bool>, flags: seq<bool>)
    requires InCode(code, starts) && 0 < |flags| <= |starts| && |before| == |flags| - 1
    requires FlagsOk(code, starts, before) && MarksMore(code, starts, before + [false], flags)
    ensures FlagsOk(code, starts, flags)
  {
    hide InCode, Marks;
    forall j: nat | j < |flags|
      ensures flags[j] <==> exists k: nat :: j <= k < |flags| && Marks(code, starts, k, j)
    {
      var n := |before|;
      if flags[j] && j < n && before[j] {
        var k: nat :| j <= k < n && Marks(code, starts, k, j);
        assert k < |flags|;
      }
    }
  }

  /** The instruction a loop leads to stands in the list, or is the one behind. */
  lemma LoopLeads(code: seq<Byte>, starts: seq<nat>, nodes: seq<Node>) returns (t: nat)
    requires InCode(code, starts) && LoopsOk(code, starts) && 0 < |nodes| <= |starts| && starts[0] == 0
    requires OpsOk(code, starts, nodes)
    requires code[starts[|nodes| - 1]] == OP_LOOP
    ensures t <= |nodes| && JumpTo(code, starts[|nodes| - 1]) == Offset(Value(nodes), t)
    ensures NodeAt(nodes, t) == Resolved(code, starts, nodes, |nodes| - 1)
    ensures t == LoopStart(code, starts, |nodes| - 1)
  {
    var n := |nodes| - 1;
    var r := Resolve(code, starts, n);
    assert r.Some? || JumpTo(code, starts[n]) == starts[n] + 3;
    t := if r.Some? then r.value else n + 1;
    if r.Some? {
      ResolvedIn(code, starts, n);
      BackTo(code, starts, n);
    }
    assert Size(OP_LOOP) == 3;
    OffsetsMatch(code, starts, nodes, t);
    hide InCode, Resolve, JumpTo, Value, Offset, Size;
  }

  /** The jump of a loop, which has been decoded up to its start. */
  method ReadLoop(it: ChunkIterator, head: Node, node: Node, index: nat, ghost starts: seq<nat>, ghost nodes: seq<Node>)
    requires it.chunk.Valid() && InCode(it.chunk.Contents, starts) && LoopsOk(it.chunk.Contents, starts)
    requires 0 < |nodes| <= |starts| && starts[0] == 0 && nodes[|nodes| - 1] == node && head == nodes[0]
    requires index == starts[|nodes| - 1]
    requires it.chunk.Contents[index] == OP_LOOP && it.pc == index + 3 <= it.chunk.inUse
    requires Chain(nodes) && OpsOk(it.chunk.Contents, starts, nodes)
    modifies node`jump, nodes`loopCondition
    ensures node.jump == Resolved(it.chunk.Contents, starts, nodes, |nodes| - 1)
    ensures MarksMore(it.chunk.Contents, starts, old(Flags(nodes)), Flags(nodes))
  {
    hide InCode, Chain, LoopsOk, Resolved, LoopStart, OpsOk, MarksMore, Flags;
    ghost var code, was := it.chunk.Contents, Flags(nodes);
    forall j: nat | j < |nodes|
      ensures was[j] == nodes[j].loopCondition
    {
      FlagAt(nodes, j);
    }
    var offset := it.ReadU16(2);
    var toJump; ghost var t;
    toJump, t := LoopTarget(code, head, index, offset, starts, nodes);
    node.jump := toJump;
    MarkAsLoopCondition(toJump, nodes, t);
    LoopMarks(code, starts, nodes, was, t);
  }

  method LoopTarget(ghost code: seq<Byte>, head: Node, index: nat, offset: nat, ghost starts: seq<nat>, ghost nodes: seq<Node>)
    returns (toJump: Node?, ghost t: nat)
    requires InCode(code, starts) && LoopsOk(code, starts) && 0 < |nodes| <= |starts| && starts[0] == 0
    requires head == nodes[0] && Chain(nodes) && index == starts[|nodes| - 1] && code[index] == OP_LOOP
    requires offset == U16(code[index + 1], code[index + 2])
    requires OpsOk(code, starts, nodes)
    ensures toJump == Resolved(code, starts, nodes, |nodes| - 1)
    ensures t <= |nodes| && toJump == NodeAt(nodes, t) && t == LoopStart(code, starts, |nodes| - 1)
  {
    hide InCode, Chain, Value, LoopsOk, Offset, Resolved, OpsOk, LoopStart;
    t := LoopLeads(code, starts, nodes);
    StartAt(code, starts, |nodes| - 1);
    assert JumpTo(code, index) == index + 3 - offset;
    toJump := GetByIndex(head, index + 3 - offset, nodes, t);
  }

  /** The iterator stands behind the last of `nodes`. */
  ghost predicate Behind(it: ChunkIterator, starts: seq<nat>, n: nat)
    requires it.chunk.Valid() && InCode(it.chunk.Contents, starts) && 0 < n <= |starts|
    reads it, it.chunk, it.chunk.code
  {
    var at := starts[n - 1];
    it.lastInstruction == it.chunk.Contents[at] && it.pc == at + Size(it.lastInstruction) <= it.chunk.inUse
  }

  /** Operands that are not jumps. */
  method ReadPlain(it: ChunkIterator, node: Node, ghost starts: seq<nat>, ghost k: nat)
    requires it.chunk.Valid() && InCode(it.chunk.Contents, starts) && k < |starts| && Behind(it, starts, k + 1)
    requires node.op == it.lastInstruction && !IsJump(node.op)
    modifies node`u8_1, node`u8_2, node`nElements, node`isEmpty
    ensures FieldOk(it.chunk.Contents, starts, k, node)
  {
    hide InCode, U16, Lo, Hi;
    var op := node.op;
    if op in {OP_INITIALIZE_STRUCT, OP_SET_STRUCT_FIELD, OP_GET_STRUCT_FIELD, OP_DEFINE_GLOBAL, OP_ENTER_MONITOR,
              OP_GET_GLOBAL, OP_SET_GLOBAL, OP_GET_LOCAL, OP_SET_LOCAL, OP_FAST_CONST_8, OP_EXIT_MONITOR, OP_CONSTANT,
              OP_GET_ARRAY_ELEMENT, OP_SET_ARRAY_ELEMENT, OP_PACKAGE_CONST} {
      node.u8_1 := it.ReadU8();
    } else if op == OP_CALL {
      node.u8_1 := it.ReadU8At(0);
      node.u8_2 := it.ReadU8At(1);
    } else if op == OP_INITIALIZE_ARRAY {
      node.nElements := it.ReadU16(3);
      var flag := it.ReadU8();
      node.isEmpty := flag != 0;
    } else if op == OP_FAST_CONST_16 {
      var n := it.ReadU16(2);
      node.u8_1, node.u8_2 := Lo(n), Hi(n);
      ghost var at := it.pc - 2;
      BytesOf(it.chunk.Contents[at], it.chunk.Contents[at + 1]);
    }
  }

  /** The operand of the last node. */
  method ReadOperand(it: ChunkIterator, pending: PendingJumps, head: Node, node: Node, ghost starts: seq<nat>,
                     ghost nodes: seq<Node>, ghost all: seq<Node>)
    requires it.chunk.Valid() && InCode(it.chunk.Contents, starts) && LoopsOk(it.chunk.Contents, starts)
    requires all == nodes + [node] && |all| <= |starts| && starts[0] == 0 && Behind(it, starts, |all|)
    requires Chain(all) && head == all[0] && OpsOk(it.chunk.Contents, starts, all)
    requires PendingOk(pending.pending, it.chunk.Contents, starts, nodes) && node.jump == null
    modifies node`u8_1, node`u8_2, node`nElements, node`isEmpty, node`jump, all`loopCondition, pending
    ensures FieldOk(it.chunk.Contents, starts, |nodes|, node)
    ensures IsJump(it.chunk.Contents[starts[|nodes|]]) ==> node.jump == Resolved(it.chunk.Contents, starts, all, |nodes|)
    ensures PendingOk(pending.pending, it.chunk.Contents, starts, all)
    ensures MarksMore(it.chunk.Contents, starts, old(Flags(all)), Flags(all))
  {
    hide InCode, Chain, LoopsOk, PendingOk, Resolved, FieldOk, Behind, OpsOk, Resolve, LoopStart;
    ghost var code, n := it.chunk.Contents, |nodes|;
    LastRead(it, starts, all);
    assert node == all[n];
    var op := it.lastInstruction;
    var index := it.CurrentIndex();
    if IsForward(op) {
      JumpField(code, starts, n, node);
      ReadForward(it, pending, node, index, starts, nodes);
      Ahead(code, starts, nodes, node);
    } else {
      NotForward(pending.pending, code, starts, nodes, node);
      ReadOther(it, head, node, starts, all);
    }
  }

  /** The operand of an instruction that is no forward jump. */
  method ReadOther(it: ChunkIterator, head: Node, node: Node, ghost starts: seq<nat>, ghost all: seq<Node>)
    requires it.chunk.Valid() && InCode(it.chunk.Contents, starts) && LoopsOk(it.chunk.Contents, starts)
    requires 0 < |all| <= |starts| && node == all[|all| - 1] && starts[0] == 0 && Behind(it, starts, |all|)
    requires Chain(all) && head == all[0] && OpsOk(it.chunk.Contents, starts, all) && !IsForward(it.lastInstruction)
    modifies node`u8_1, node`u8_2, node`nElements, node`isEmpty, node`jump, all`loopCondition
    ensures FieldOk(it.chunk.Contents, starts, |all| - 1, node)
    ensures IsJump(it.chunk.Contents[starts[|all| - 1]]) ==> node.jump == Resolved(it.chunk.Contents, starts, all, |all| - 1)
    ensures MarksMore(it.chunk.Contents, starts, old(Flags(all)), Flags(all))
  {
    hide InCode, Chain, LoopsOk, Resolved, FieldOk, Resolve, Behind, OpsOk, LoopStart;
    ghost var code, n := it.chunk.Contents, |all| - 1;
    LastRead(it, starts, all);
    var op := it.lastInstruction;
    var index := it.CurrentIndex();
    if op == OP_LOOP {
      JumpField(code, starts, n, node);
      ReadLoop(it, head, node, index, starts, all);
    } else {
      ReadPlain(it, node, starts, n);
    }
  }

  /** What the iterator stands behind. */
  lemma LastRead(it: ChunkIterator, starts: seq<nat>, all: seq<Node>)
    requires it.chunk.Valid() && InCode(it.chunk.Contents, starts) && 0 < |all| <= |starts|
    requires Behind(it, starts, |all|) && OpsOk(it.chunk.Contents, starts, all)
    ensures var code, n := it.chunk.Contents, |all| - 1;
            && starts[n] < |code| && all[n].op == code[starts[n]] == it.lastInstruction
            && it.pc == starts[n] + Size(it.lastInstruction) <= it.chunk.inUse
  {
  }

  lemma JumpField(code: seq<Byte>, starts: seq<nat>, k: nat, x: Node)
    requires InCode(code, starts) && k < |starts| && x.op == code[starts[k]] && IsJump(x.op)
    ensures FieldOk(code, starts, k, x)
  {
  }

  /** A forward jump leads to an instruction that is not there yet. */
  lemma Ahead(code: seq<Byte>, starts: seq<nat>, nodes: seq<Node>, node: Node)
    requires InCode(code, starts) && |nodes| < |starts| && IsForward(code[starts[|nodes|]])
    ensures Resolved(code, starts, nodes + [node], |nodes|) == null
  {
    var n := |nodes|;
    var r := Resolve(code, starts, n);
    if r.Some? {
      ResolvedIn(code, starts, n);
      if r.value < n { StartsRise(code, starts, r.value, n); }
    }
    hide InCode, Resolve;
  }

  /** One instruction becomes a node behind the others. */
  method DecodeNext(it: ChunkIterator, pending: PendingJumps, head: Node?, last: Node?, ghost starts: seq<nat>, ghost nodes: seq<Node>)
    returns (first: Node, node: Node)
    requires it.chunk.Valid() && InCode(it.chunk.Contents, starts) && LoopsOk(it.chunk.Contents, starts)
    requires |nodes| < |starts| && starts[0] == 0 && head == NodeAt(nodes, 0) && last == NodeAt(nodes, |nodes| - 1)
    requires Chain(nodes) && (if nodes == [] then it.pc == 0 else Behind(it, starts, |nodes|))
    requires FieldsOk(it.chunk.Contents, starts, nodes) && JumpsOk(it.chunk.Contents, starts, nodes)
    requires PendingOk(pending.pending, it.chunk.Contents, starts, nodes)
    requires FlagsOk(it.chunk.Contents, starts, Flags(nodes))
    modifies it`pc, it`lastInstruction, pending, nodes`next, nodes`jump, nodes`loopCondition
    ensures fresh(node) && Chain(nodes + [node]) && first == (nodes + [node])[0] && Behind(it, starts, |nodes| + 1)
    ensures FieldsOk(it.chunk.Contents, starts, nodes + [node]) && JumpsOk(it.chunk.Contents, starts, nodes + [node])
    ensures PendingOk(pending.pending, it.chunk.Contents, starts, nodes + [node])
    ensures FlagsOk(it.chunk.Contents, starts, Flags(nodes + [node]))
  {
    ghost var n := |nodes|;
    hide InCode, LoopsOk, FieldsOk, JumpsOk, PendingOk, Chain, Flags, FlagsOk;
    StartAt(it.chunk.Contents, starts, n);
    var op := it.Next();
    var index := it.CurrentIndex();
    hide Behind;
    first, node := AddNode(it, pending, head, last, op, index, starts, nodes);
  }

  lemma StartAt(code: seq<Byte>, starts: seq<nat>, n: nat)
    requires InCode(code, starts) && n < |starts|
    ensures starts[n] < |code| && starts[n] + Size(code[starts[n]]) <= |code|
    ensures n > 0 ==> starts[n - 1] < |code| && starts[n] == starts[n - 1] + Size(code[starts[n - 1]])
  {
    if n > 0 { assert starts[n - 1 + 1] == starts[n - 1] + Size(code[starts[n - 1]]); }
  }

  method AddNode(it: ChunkIterator, pending: PendingJumps, head: Node?, last: Node?, op: Byte, index: nat,
                 ghost starts: seq<nat>, ghost nodes: seq<Node>) returns (first: Node, node: Node)
    requires it.chunk.Valid() && InCode(it.chunk.Contents, starts) && LoopsOk(it.chunk.Contents, starts)
    requires |nodes| < |starts| && starts[0] == 0 && head == NodeAt(nodes, 0) && last == NodeAt(nodes, |nodes| - 1)
    requires index == starts[|nodes|] && op == it.chunk.Contents[index] && Chain(nodes) && Behind(it, starts, |nodes| + 1)
    requires FieldsOk(it.chunk.Contents, starts, nodes) && JumpsOk(it.chunk.Contents, starts, nodes)
    requires PendingOk(pending.pending, it.chunk.Contents, starts, nodes)
    requires FlagsOk(it.chunk.Contents, starts, Flags(nodes))
    modifies pending, nodes`next, nodes`jump, nodes`loopCondition
    ensures fresh(node) && Chain(nodes + [node]) && first == (nodes + [node])[0]
    ensures FieldsOk(it.chunk.Contents, starts, nodes + [node]) && JumpsOk(it.chunk.Contents, starts, nodes + [node])
    ensures PendingOk(pending.pending, it.chunk.Contents, starts, nodes + [node])
    ensures FlagsOk(it.chunk.Contents, starts, Flags(nodes + [node]))
  {
    hide InCode, LoopsOk, FieldsOk, FieldOk, JumpsOk, JumpsIn, PendingOk, Behind, OpsOk, Resolved, Flags, FlagsOk;
    ghost var code := it.chunk.Contents;
    assert Distinct(nodes);
    ghost var before := Flags(nodes);
    node := Append(op, head, last, nodes);
    assert Flags(nodes) == before;
    hide Chain, Distinct;
    first := if head == null then node else head;
    Complete(it, pending, first, node, index, starts, nodes, nodes + [node]);
  }

  /** Jumps to the new node, and its operand. */
  method Complete(it: ChunkIterator, pending: PendingJumps, head: Node, node: Node, index: nat, ghost starts: seq<nat>,
                  ghost nodes: seq<Node>, ghost all: seq<Node>)
    requires it.chunk.Valid() && InCode(it.chunk.Contents, starts) && LoopsOk(it.chunk.Contents, starts)
    requires all == nodes + [node] && |all| <= |starts| && starts[0] == 0 && Behind(it, starts, |all|)
    requires index == starts[|nodes|] && node.op == it.chunk.Contents[index] && node.jump == null && node !in nodes
    requires Chain(all) && head == all[0] && Distinct(nodes)
    requires FieldsOk(it.chunk.Contents, starts, nodes) && JumpsOk(it.chunk.Contents, starts, nodes)
    requires PendingOk(pending.pending, it.chunk.Contents, starts, nodes)
    requires FlagsOk(it.chunk.Contents, starts, Flags(nodes)) && !node.loopCondition
    modifies node`u8_1, node`u8_2, node`nElements, node`isEmpty, node`jump, nodes`jump, all`loopCondition, pending
    ensures FieldsOk(it.chunk.Contents, starts, all) && JumpsOk(it.chunk.Contents, starts, all)
    ensures FlagsOk(it.chunk.Contents, starts, Flags(all))
    ensures PendingOk(pending.pending, it.chunk.Contents, starts, all)
  {
    hide InCode, LoopsOk, FieldsOk, FieldOk, JumpsOk, JumpsIn, PendingOk, Behind, OpsOk, Resolved, Chain, Distinct, Flags, FlagsOk, MarksMore;
    ghost var code, before := it.chunk.Contents, Flags(nodes);
    FlagsPush(nodes, node);
    Arrive(pending, node, code, starts, nodes, index);
    OpsOfAll(code, starts, nodes, node);
    ReadOperand(it, pending, head, node, starts, nodes, all);
    FieldsOfAll(code, starts, nodes, node);
    JumpsOfAll(code, starts, nodes, node);
    FlagsMore(code, starts, before, Flags(all));
  }

  lemma OpsOfAll(code: seq<Byte>, starts: seq<nat>, nodes: seq<Node>, node: Node)
    requires InCode(code, starts) && |nodes| < |starts| && FieldsOk(code, starts, nodes) && node.op == code[starts[|nodes|]]
    ensures OpsOk(code, starts, nodes + [node])
  {
    forall k: nat | k < |nodes|
      ensures nodes[k].op == code[starts[k]]
    {
      assert FieldOk(code, starts, k, nodes[k]);
    }
  }

  lemma FieldsOfAll(code: seq<Byte>, starts: seq<nat>, nodes: seq<Node>, node: Node)
    requires InCode(code, starts) && |nodes| < |starts| && FieldsOk(code, starts, nodes)
    requires FieldOk(code, starts, |nodes|, node)
    ensures FieldsOk(code, starts, nodes + [node])
  {
    hide FieldOk, InCode;
  }

  lemma JumpsOfAll(code: seq<Byte>, starts: seq<nat>, nodes: seq<Node>, node: Node)
    requires InCode(code, starts) && |nodes| < |starts| && JumpsIn(code, starts, nodes, nodes + [node])
    requires IsJump(code[starts[|nodes|]]) ==> node.jump == Resolved(code, starts, nodes + [node], |nodes|)
    ensures JumpsOk(code, starts, nodes + [node])
  {
    hide Resolved, InCode;
  }

  /** Link a new node behind the last. */
  method Append(op: Byte, head: Node?, last: Node?, ghost nodes: seq<Node>) returns (node: Node)
    requires Chain(nodes) && head == NodeAt(nodes, 0) && last == NodeAt(nodes, |nodes| - 1)
    modifies nodes`next
    ensures fresh(node) && node.op == op && node.jump == null && !node.loopCondition && Chain(nodes + [node])
  {
    node := new Node(op);
    node.prev := last;
    if last != null {
      last.next := node;
    }
  }

  /** What create_bytecode_list needs of a chunk: known instructions up to an end of
      file, and loops that lead back to one. */
  ghost predicate Decodable(code: seq<Byte>) {
    var starts := Scan(code, 0);
    starts.Some? && InCode(code, starts.value) && LoopsOk(code, starts.value)
  }

  /** The j-th instruction belongs to the condition of a loop: it lies between where
      some later jump back leads to and the loop's exit. */
  ghost predicate InCondition(il: seq<Instr>, j: nat) {
    exists k: nat, t: nat :: t <= j <= k < |il| && LoopFrom(il, k, t) && NoExit(il, t, j)
  }

  ghost predicate LoopFrom(il: seq<Instr>, k: nat, t: nat)
    requires k < |il|
  {
    il[k].op == OP_LOOP && il[k].arg == Target(Some(t))
  }

  ghost predicate NoExit(il: seq<Instr>, t: nat, j: nat)
    requires j < |il|
  {
    forall m: nat | t <= m < j :: il[m].op != OP_JUMP_IF_FALSE
  }

  lemma MarksIff(code: seq<Byte>, starts: seq<nat>, il: seq<Instr>, k: nat, j: nat)
    requires InCode(code, starts) && il == DecodeAt(code, starts) && j <= k < |starts|
    ensures Marks(code, starts, k, j) <==> exists t: nat :: t <= j && LoopFrom(il, k, t) && NoExit(il, t, j)
  {
    assert il[k].op == code[starts[k]] && il[k].arg == Operands(code, starts, k);
    assert forall m: nat | m < |il| :: il[m].op == code[starts[m]];
    hide InCode, DecodeAt;
    if Marks(code, starts, k, j) {
      var t := LoopStart(code, starts, k);
      assert LoopFrom(il, k, t) && NoExit(il, t, j);
    }
    hide Resolve;
  }

  lemma ConditionAt(code: seq<Byte>, starts: seq<nat>, flags: seq<bool>, il: seq<Instr>, j: nat)
    requires InCode(code, starts) && il == DecodeAt(code, starts) && |flags| == |starts| && j < |flags|
    requires FlagsOk(code, starts, flags)
    ensures flags[j] <==> InCondition(il, j)
  {
    hide InCode, DecodeAt, Marks, LoopFrom, NoExit;
    if flags[j] {
      var k: nat :| j <= k < |flags| && Marks(code, starts, k, j);
      MarksIff(code, starts, il, k, j);
    }
    if InCondition(il, j) {
      var k: nat, t: nat :| t <= j <= k < |il| && LoopFrom(il, k, t) && NoExit(il, t, j);
      MarksIff(code, starts, il, k, j);
    }
  }

  lemma Conditions(code: seq<Byte>, starts: seq<nat>, nodes: seq<Node>)
    requires InCode(code, starts) && Value(nodes) == DecodeAt(code, starts) && |nodes| == |starts|
    requires FlagsOk(code, starts, Flags(nodes))
    ensures forall j: nat | j < |nodes| :: nodes[j].loopCondition <==> InCondition(Value(nodes), j)
  {
    hide InCode, Value, DecodeAt, FlagsOk, Flags, InCondition;
    forall j: nat | j < |nodes|
      ensures nodes[j].loopCondition <==> InCondition(Value(nodes), j)
    {
      FlagAt(nodes, j);
      ConditionAt(code, starts, Flags(nodes), Value(nodes), j);
    }
  }

  /** The nodes stand for the list that the code decodes to, and those of loop
      conditions are marked. */
  method CreateBytecodeList(chunk: Chunk) returns (head: Node, ghost nodes: seq<Node>)
    requires chunk.Valid() && Decodable(chunk.Contents)
    ensures fresh(nodes) && nodes != [] && head == nodes[0] && Chain(nodes)
    ensures Decode(chunk.Contents) == Some(Value(nodes))
    ensures forall j: nat | j < |nodes| :: nodes[j].loopCondition <==> InCondition(Value(nodes), j)
  {
    ghost var code, starts := chunk.Contents, Scan(chunk.Contents, 0).value;
    ScanInCode(code, 0);
    var it := new ChunkIterator(chunk);
    var pending := new PendingJumps();
    NothingBuilt(code, starts);
    hide Scan, InCode, LoopsOk, FieldsOk, JumpsOk, PendingOk, Chain, Value, Decode;
    head, nodes := DecodeAll(it, pending, starts);
    Built(code, starts, nodes);
    hide FlagsOk, InCondition, Flags;
    Conditions(code, starts, nodes);
  }

  /** What holds of the nodes built so far. */
  ghost predicate Progress(pending: map<nat, seq<Node>>, code: seq<Byte>, starts: seq<nat>, nodes: seq<Node>)
    requires InCode(code, starts) && |nodes| <= |starts|
    reads nodes
  {
    && Chain(nodes) && FieldsOk(code, starts, nodes) && JumpsOk(code, starts, nodes)
    && PendingOk(pending, code, starts, nodes) && FlagsOk(code, starts, Flags(nodes))
  }

  /** One round of the decoding loop, with the test behind it. */
  method DecodeRound(it: ChunkIterator, pending: PendingJumps, head: Node?, last: Node?, ghost starts: seq<nat>, ghost nodes: seq<Node>)
    returns (first: Node, node: Node, more: bool)
    requires it.chunk.Valid() && InCode(it.chunk.Contents, starts) && LoopsOk(it.chunk.Contents, starts)
    requires |nodes| < |starts| && starts[0] == 0 && head == NodeAt(nodes, 0) && last == NodeAt(nodes, |nodes| - 1)
    requires if nodes == [] then it.pc == 0 else Behind(it, starts, |nodes|)
    requires it.eofAlreadyHit <==> |nodes| + 1 >= |starts|
    requires Progress(pending.pending, it.chunk.Contents, starts, nodes)
    modifies it`pc, it`lastInstruction, it`eofAlreadyHit, pending, nodes`next, nodes`jump, nodes`loopCondition
    ensures fresh(node) && first == (nodes + [node])[0] && Behind(it, starts, |nodes| + 1)
    ensures more == (|nodes| + 1 < |starts|) && (it.eofAlreadyHit <==> |nodes| + 2 >= |starts|)
    ensures Progress(pending.pending, it.chunk.Contents, starts, nodes + [node])
  {
    hide InCode, LoopsOk, FieldsOk, JumpsOk, PendingOk, Chain, Behind, Flags, FlagsOk;
    first, node := DecodeNext(it, pending, head, last, starts, nodes);
    more := More(it, starts, |nodes| + 1);
  }

  method DecodeAll(it: ChunkIterator, pending: PendingJumps, ghost starts: seq<nat>) returns (head: Node, ghost nodes: seq<Node>)
    requires it.chunk.Valid() && InCode(it.chunk.Contents, starts) && LoopsOk(it.chunk.Contents, starts)
    requires starts != [] && starts[0] == 0 && it.pc == 0 && !it.eofAlreadyHit
    requires Progress(pending.pending, it.chunk.Contents, starts, [])
    modifies it, pending
    ensures fresh(nodes) && |nodes| == |starts| && head == nodes[0]
    ensures Progress(pending.pending, it.chunk.Contents, starts, nodes)
  {
    hide InCode, LoopsOk, Progress, Behind;
    var first: Node?, last: Node? := null, null;
    nodes := [];
    var more := More(it, starts, 0);
    while more
      invariant |nodes| <= |starts| && fresh(nodes) && more == (|nodes| < |starts|)
      invariant first == NodeAt(nodes, 0) && last == NodeAt(nodes, |nodes| - 1)
      invariant if nodes == [] then it.pc == 0 else Behind(it, starts, |nodes|)
      invariant it.eofAlreadyHit <==> |nodes| + 1 >= |starts|
      invariant Progress(pending.pending, it.chunk.Contents, starts, nodes)
      decreases |starts| - |nodes|
    {
      var node;
      first, node, more := DecodeRound(it, pending, first, last, starts, nodes);
      nodes, last := nodes + [node], node;
    }
    head := first;
  }

  /** has_next_chunk_iterator after n instructions. */
  method More(it: ChunkIterator, ghost starts: seq<nat>, ghost n: nat) returns (more: bool)
    requires it.chunk.Valid() && InCode(it.chunk.Contents, starts) && n <= |starts| && starts != [] && starts[0] == 0
    requires if n == 0 then it.pc == 0 else Behind(it, starts, n)
    requires it.eofAlreadyHit <==> n >= |starts|
    modifies it`eofAlreadyHit
    ensures more == (n < |starts|) && (it.eofAlreadyHit <==> n + 1 >= |starts|)
    ensures n > 0 ==> Behind(it, starts, n)
  {
    if n < |starts| { StartAt(it.chunk.Contents, starts, n); }
    more := it.HasNext();
  }

  lemma NothingBuilt(code: seq<Byte>, starts: seq<nat>)
    requires InCode(code, starts)
    ensures Progress(map[], code, starts, [])
  {
  }

  lemma Built(code: seq<Byte>, starts: seq<nat>, nodes: seq<Node>)
    requires Scan(code, 0) == Some(starts) && InCode(code, starts) && |nodes| == |starts| && Chain(nodes)
    requires FieldsOk(code, starts, nodes) && JumpsOk(code, starts, nodes)
    ensures Decode(code) == Some(Value(nodes)) && Value(nodes) == DecodeAt(code, starts)
  {
    hide FieldsOk, JumpsOk, Value, InCode;
    BuiltValue(code, starts, nodes);
  }

  /** Decoding a well-formed chunk and writing the nodes out again returns its bytes
      up to the first end of file. */
  method DecodeAndEncode(chunk: Chunk) returns (written: Chunk)
    requires chunk.Valid() && WellFormed(chunk.Contents)
    ensures written.Valid() && fresh(written)
    ensures Scan(chunk.Contents, 0).Some? && Scan(chunk.Contents, 0).value != []
    ensures var starts := Scan(chunk.Contents, 0).value;
            var end := starts[|starts| - 1] + 1;
            end <= |chunk.Contents| && written.Contents == chunk.Contents[..end]
  {
    hide Scan, Value, Chain, Listed, EncodeTo, Decode;
    CodeRoundTrip(chunk.Contents);
    Loops(chunk.Contents);
    var head; ghost var nodes;
    head, nodes := CreateBytecodeList(chunk);
    written := ToChunk(head, nodes);
  }

  lemma Loops(code: seq<Byte>)
    requires WellFormed(code)
    ensures Decodable(code) && Scan(code, 0).value != []
  {
    ScanInCode(code, 0);
    hide Scan;
  }
}
