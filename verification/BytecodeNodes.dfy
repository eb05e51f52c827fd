// The doubly linked list of instructions: decoding a chunk into nodes whose jumps
// are references, splicing lists, and writing them out again.
module BytecodeLists {
  import opened Wrappers
  import opened Bytecode
  import opened Chunks
  import opened Instructions

  class Node {
    var op: Byte
    var u8_1: Byte                   // also the low byte of a 16-bit operand
    var u8_2: Byte
    var nElements: nat
    var isEmpty: bool
    var jump: Node?
    var next: Node?
    var prev: Node?
    var loopCondition: bool
    var toChunkIndex: nat

    constructor (op: Byte)
      ensures this.op == op && jump == null && next == null && prev == null && !loopCondition
    {
      this.op, u8_1, u8_2, nElements, isEmpty := op, 0, 0, 0, false;
      jump, next, prev, loopCondition, toChunkIndex := null, null, null, false, 0;
    }
  }

  // ----- what a list is and means -----

  function NodeAt(nodes: seq<Node>, i: int): Node? {
    if 0 <= i < |nodes| then nodes[i] else null
  }

  ghost predicate Distinct(nodes: seq<Node>) {
    forall i, j | 0 <= i < j < |nodes| :: nodes[i] != nodes[j]
  }

  /** The nodes are linked in this order, both ways. */
  ghost predicate Chain(nodes: seq<Node>)
    reads nodes`next, nodes`prev
  {
    && Distinct(nodes)
    && forall i: nat | i < |nodes| :: nodes[i].next == NodeAt(nodes, i + 1) && nodes[i].prev == NodeAt(nodes, i - 1)
  }

  function PlaceOf(nodes: seq<Node>, x: Node?): Option<nat> {
    if nodes == [] || x == null then None
    else if nodes[|nodes| - 1] == x then Some(|nodes| - 1)
    else PlaceOf(nodes[..|nodes| - 1], x)
  }

  lemma {:induction false} PlaceIs(nodes: seq<Node>, i: nat)
    requires Distinct(nodes) && i < |nodes|
    ensures PlaceOf(nodes, nodes[i]) == Some(i)
  {
    if i < |nodes| - 1 {
      PlaceIs(nodes[..|nodes| - 1], i);
    }
  }

  lemma {:induction false} PlaceHas(nodes: seq<Node>, x: Node?)
    ensures match PlaceOf(nodes, x) case None => x == null || x !in nodes case Some(i) => i < |nodes| && nodes[i] == x
  {
    if nodes != [] && x != null && nodes[|nodes| - 1] != x {
      PlaceHas(nodes[..|nodes| - 1], x);
      assert nodes == nodes[..|nodes| - 1] + [nodes[|nodes| - 1]];
    }
  }

  function InstrOf(nodes: seq<Node>, x: Node): Instr
    reads x`op, x`u8_1, x`u8_2, x`nElements, x`isEmpty, x`jump
  {
    Instr(x.op, if IsJump(x.op) then Target(PlaceOf(nodes, x.jump))
                else if Size(x.op) == 2 then U8(x.u8_1)
                else if Size(x.op) == 3 then Pair(x.u8_1, x.u8_2)
                else if Size(x.op) == 4 then ArrayInit(x.nElements, x.isEmpty)
                else NoOperand)
  }

  function ValueTo(nodes: seq<Node>, n: nat): (il: seq<Instr>)
    requires n <= |nodes|
    reads nodes`op, nodes`u8_1, nodes`u8_2, nodes`nElements, nodes`isEmpty, nodes`jump
    ensures |il| == n
  {
    if n == 0 then [] else ValueTo(nodes, n - 1) + [InstrOf(nodes, nodes[n - 1])]
  }

  /** The list the nodes stand for. */
  function Value(nodes: seq<Node>): (il: seq<Instr>)
    reads nodes`op, nodes`u8_1, nodes`u8_2, nodes`nElements, nodes`isEmpty, nodes`jump
    ensures |il| == |nodes|
  {
    ValueTo(nodes, |nodes|)
  }

  lemma {:induction false} ValueToAt(nodes: seq<Node>, n: nat, k: nat)
    requires k < n <= |nodes|
    ensures ValueTo(nodes, n)[k] == InstrOf(nodes, nodes[k])
  {
    hide InstrOf;
    if k < n - 1 {
      ValueToAt(nodes, n - 1, k);
    }
  }

  lemma ValueAt(nodes: seq<Node>, k: nat)
    requires k < |nodes|
    ensures Value(nodes)[k] == InstrOf(nodes, nodes[k])
  {
    ValueToAt(nodes, |nodes|, k);
  }

  // ----- writing a list out -----

  /** calculate_to_chunk_index: where each instruction will stand. */
  method CalculateToChunkIndex(head: Node?, ghost nodes: seq<Node>)
    requires Chain(nodes) && head == NodeAt(nodes, 0)
    modifies nodes`toChunkIndex
    ensures Value(nodes) == old(Value(nodes)) && Chain(nodes)
    ensures forall k: nat | k < |nodes| :: nodes[k].toChunkIndex == Offset(Value(nodes), k)
  {
    var node, nextIndex := head, 0;
    ghost var k, il := 0, Value(nodes);
    hide Value, Distinct;
    while node != null
      invariant k <= |nodes| && node == NodeAt(nodes, k) && Chain(nodes) && Value(nodes) == il
      invariant nextIndex == Offset(il, k)
      invariant forall j: nat | j < k :: nodes[j].toChunkIndex == Offset(il, j)
      decreases |nodes| - k
    {
      hide Offset, Value, InstrOf;
      OpAt(nodes, k);
      Differ(nodes, k);
      node.toChunkIndex := nextIndex;
      Step(il, k);
      nextIndex := nextIndex + Size(node.op);
      node := node.next;
      k := k + 1;
    }
  }

  lemma Differ(nodes: seq<Node>, k: nat)
    requires Distinct(nodes) && k < |nodes|
    ensures forall j: nat | j < |nodes| && j != k :: nodes[j] != nodes[k]
  {
  }

  lemma OpAt(nodes: seq<Node>, k: nat)
    requires k < |nodes|
    ensures Value(nodes)[k].op == nodes[k].op
  {
    ValueAt(nodes, k);
  }

  lemma Step(il: seq<Instr>, k: nat)
    requires k < |il|
    ensures Offset(il, k + 1) == Offset(il, k) + Size(il[k].op)
  {
  }

  /** Every node knows its place in the code. */
  ghost predicate Placed(nodes: seq<Node>, il: seq<Instr>)
    requires |il| == |nodes|
    reads nodes`toChunkIndex
  {
    forall j: nat | j < |nodes| :: nodes[j].toChunkIndex == Offset(il, j)
  }

  /** Write the instruction at k; jumps are written as distances. */
  method WriteInstruction(chunk: Chunk, node: Node, ghost nodes: seq<Node>, ghost il: seq<Instr>, ghost k: nat)
    requires chunk.Valid() && |il| == |nodes| && Listed(il) && k < |il| && InstrOf(nodes, node) == il[k]
    requires chunk.Contents == EncodeTo(il, k) && Placed(nodes, il)
    modifies chunk, chunk.code
    ensures chunk.Valid() && (chunk.code == old(chunk.code) || fresh(chunk.code))
    ensures chunk.Contents == EncodeTo(il, k + 1)
  {
    hide EncodeTo, Listed, Known, Placed, OperandBytes, InstrOf;
    EncodeStep(il, k);
    ghost var a := chunk.Contents;
    assert node.op == il[k].op by { SameOp(nodes, node, il[k]); }
    chunk.Write(node.op);
    WriteOperand(chunk, node, nodes, il, k);
    assert chunk.Contents == a + ([node.op] + OperandBytes(il, k));
  }

  lemma SameOp(nodes: seq<Node>, node: Node, i: Instr)
    requires InstrOf(nodes, node) == i
    ensures node.op == i.op
  {
  }

  method WriteOperand(chunk: Chunk, node: Node, ghost nodes: seq<Node>, ghost il: seq<Instr>, ghost k: nat)
    requires chunk.Valid() && |il| == |nodes| && Listed(il) && k < |il| && InstrOf(nodes, node) == il[k]
    requires chunk.Contents == EncodeTo(il, k) + [node.op] && Placed(nodes, il)
    modifies chunk, chunk.code
    ensures chunk.Valid() && (chunk.code == old(chunk.code) || fresh(chunk.code))
    ensures chunk.Contents == old(chunk.Contents) + OperandBytes(il, k)
  {
    hide EncodeTo, Listed, Known, Placed;
    Shape(il, k);
    var size := Size(node.op);
    if IsJump(node.op) {
      WriteJump(chunk, node, nodes, il, k);
    } else if size == 2 {
      chunk.Write(node.u8_1);
    } else if size == 3 {
      chunk.Write(node.u8_1);
      chunk.Write(node.u8_2);
    } else if size == 4 {
      chunk.WriteU16(node.nElements);
      chunk.Write(if node.isEmpty then 1 else 0);
    }
  }

  /** The distance behind the opcode of a jump. */
  method WriteJump(chunk: Chunk, node: Node, ghost nodes: seq<Node>, ghost il: seq<Instr>, ghost k: nat)
    requires chunk.Valid() && |il| == |nodes| && Listed(il) && k < |il| && InstrOf(nodes, node) == il[k]
    requires chunk.Contents == EncodeTo(il, k) + [node.op] && Placed(nodes, il) && IsJump(node.op)
    modifies chunk, chunk.code
    ensures chunk.Valid() && (chunk.code == old(chunk.code) || fresh(chunk.code))
    ensures chunk.Contents == old(chunk.Contents) + OperandBytes(il, k)
  {
    hide EncodeTo, Listed, Known, Offset;
    ghost var t := Instructions.TargetOf(il, k);
    PlaceHas(nodes, node.jump);
    var toJumpIndex: int := node.jump.toChunkIndex;
    var currentIndex: int := chunk.inUse - 1;
    chunk.WriteU16(Instructions.Abs(toJumpIndex - currentIndex - 3));
  }

  lemma EncodeStep(il: seq<Instr>, k: nat)
    requires Listed(il) && k < |il|
    ensures EncodeTo(il, k + 1) == EncodeTo(il, k) + ([il[k].op] + OperandBytes(il, k))
  {
  }

  method ToChunk(head: Node, ghost nodes: seq<Node>) returns (chunk: Chunk)
    requires Chain(nodes) && head == NodeAt(nodes, 0) && Listed(Value(nodes))
    modifies nodes`toChunkIndex
    ensures fresh(chunk) && chunk.Valid() && Value(nodes) == old(Value(nodes)) && Chain(nodes)
    ensures chunk.Contents == Encode(Value(nodes))
  {
    hide EncodeTo, Listed, Value, InstrOf, Distinct, Offset;
    chunk := new Chunk();
    CalculateToChunkIndex(head, nodes);
    NothingYet(Value(nodes));
    WriteAll(chunk, head, nodes, Value(nodes));
  }

  method WriteAll(chunk: Chunk, head: Node, ghost nodes: seq<Node>, ghost il: seq<Instr>)
    requires Chain(nodes) && head == NodeAt(nodes, 0) && il == Value(nodes) && Listed(il) && Placed(nodes, il)
    requires chunk.Valid() && chunk.Contents == EncodeTo(il, 0)
    modifies chunk, chunk.code
    ensures chunk.Valid() && chunk.Contents == Encode(il)
  {
    hide EncodeTo, Listed, Value, InstrOf, Distinct, Placed, Chain;
    ghost var k := 0;
    var current: Node? := head;
    while current != null
      invariant k <= |nodes| && current == NodeAt(nodes, k)
      invariant chunk.Valid() && (chunk.code == old(chunk.code) || fresh(chunk.code)) && chunk.Contents == EncodeTo(il, k)
      decreases |nodes| - k
    {
      ValueAt(nodes, k);
      NextIs(nodes, k);
      WriteInstruction(chunk, current, nodes, il, k);
      current := current.next;
      k := k + 1;
    }
  }

  lemma NothingYet(il: seq<Instr>)
    requires Listed(il)
    ensures EncodeTo(il, 0) == []
  {
  }

  lemma NextIs(nodes: seq<Node>, k: nat)
    requires Chain(nodes) && k < |nodes|
    ensures nodes[k].next == NodeAt(nodes, k + 1)
  {
  }

  // ----- looking up and splicing -----

  /** get_by_index_bytecode_list; the index behind the last instruction gives no
      node. */
  method GetByIndex(head: Node?, targetIndex: nat, ghost nodes: seq<Node>, ghost k: nat) returns (r: Node?)
    requires Chain(nodes) && head == NodeAt(nodes, 0) && k <= |nodes| && targetIndex == Offset(Value(nodes), k)
    ensures r == NodeAt(nodes, k)
  {
    var current, currentIndex := head, 0;
    ghost var j, il := 0, Value(nodes);
    hide Value, InstrOf, Chain, Offset;
    AtStart(il);
    while currentIndex != targetIndex
      invariant j <= k && current == NodeAt(nodes, j) && currentIndex == Offset(il, j)
      decreases k - j
    {
      OpAt(nodes, j);
      NextIs(nodes, j);
      Step(il, j);
      currentIndex := currentIndex + Size(current.op);
      current := current.next;
      j := j + 1;
    }
    SameOffset(il, j, k);
    r := current;
  }

  lemma AtStart(il: seq<Instr>)
    ensures Offset(il, 0) == 0
  {
  }

  /** mark_as_loop_condition: from the start of a loop to its exit jump. */
  method MarkAsLoopCondition(start: Node?, ghost nodes: seq<Node>, ghost k: nat)
    requires Chain(nodes) && k <= |nodes| && start == NodeAt(nodes, k)
    modifies nodes`loopCondition
    ensures forall j: nat | j < |nodes| ::
              nodes[j].loopCondition == (old(nodes[j].loopCondition)
                || (k <= j && forall m: nat | k <= m < j :: nodes[m].op != OP_JUMP_IF_FALSE))
  {
    var current := start;
    ghost var i := k;
    hide Chain;
    while current != null
      invariant k <= i <= |nodes| && current == NodeAt(nodes, i)
      invariant forall m: nat | k <= m < i :: nodes[m].op != OP_JUMP_IF_FALSE
      invariant forall j: nat | j < |nodes| :: nodes[j].loopCondition == (old(nodes[j].loopCondition) || k <= j < i)
      decreases |nodes| - i
    {
      NextIs(nodes, i);
      ChainDiffers(nodes, i);
      current.loopCondition := true;
      if current.op == OP_JUMP_IF_FALSE {
        return;
      }
      current := current.next;
      i := i + 1;
    }
  }

  /** get_last_instruction */
  method GetLast(first: Node, ghost nodes: seq<Node>) returns (last: Node)
    requires Chain(nodes) && nodes != [] && first == nodes[0]
    ensures last == nodes[|nodes| - 1]
  {
    last := first;
    ghost var k := 0;
    while last.next != null
      invariant k < |nodes| && last == nodes[k]
      decreases |nodes| - k
    {
      last := last.next;
      k := k + 1;
    }
  }

  function Spliced(a: seq<Node>, i: nat, b: seq<Node>): seq<Node>
    requires i < |a|
  {
    a[..i + 1] + b + a[i + 1..]
  }

  /** Jumps lead to nodes of the list, if anywhere. */
  ghost predicate Inside(nodes: seq<Node>)
    reads nodes`op, nodes`jump
  {
    forall x | x in nodes && IsJump(x.op) :: x.jump == null || x.jump in nodes
  }

  /** Put a list behind a node of another one. */
  method AddInstructions(dst: Node, instructions: Node, ghost a: seq<Node>, ghost i: nat, ghost b: seq<Node>)
    requires Chain(a) && Chain(b) && Disjoint(a, b)
    requires i < |a| && a[i] == dst && b != [] && b[0] == instructions
    requires Inside(a) && Inside(b)
    modifies a`next, a`prev, b`next, b`prev
    ensures Chain(Spliced(a, i, b)) && Inside(Spliced(a, i, b))
    ensures Value(Spliced(a, i, b)) == Splice(old(Value(a)), i, old(Value(b)))
  {
    hide Value, Inside, Distinct, Spliced, Chain, Relinked;
    var srcMostNext := GetLast(instructions, b);
    Links(a);
    Links(b);
    Relink(dst, instructions, srcMostNext, a, i, b);
    SplicedChain(a, i, b);
    SplicedValue(a, i, b);
  }

  ghost predicate Disjoint(a: seq<Node>, b: seq<Node>) {
    forall x | x in a :: x !in b
  }

  /** The nodes of b are linked in behind a[i]. */
  ghost predicate Relinked(a: seq<Node>, i: nat, b: seq<Node>)
    requires i < |a| && b != []
    reads a`next, a`prev, b`next, b`prev
  {
    && (forall k: nat | k < |a| :: a[k].next == if k == i then b[0] else NodeAt(a, k + 1))
    && (forall k: nat | k < |a| :: a[k].prev == if k == i + 1 then b[|b| - 1] else NodeAt(a, k - 1))
    && (forall k: nat | k < |b| :: b[k].next == if k == |b| - 1 then NodeAt(a, i + 1) else NodeAt(b, k + 1))
    && forall k: nat | k < |b| :: b[k].prev == if k == 0 then a[i] else NodeAt(b, k - 1)
  }

  method Relink(dst: Node, first: Node, last: Node, ghost a: seq<Node>, ghost i: nat, ghost b: seq<Node>)
    requires Distinct(a) && Distinct(b) && Disjoint(a, b) && i < |a| && b != []
    requires dst == a[i] && first == b[0] && last == b[|b| - 1]
    requires Chain(a) && Chain(b)
    modifies a`next, a`prev, b`next, b`prev
    ensures Relinked(a, i, b)
  {
    Ends(a, i, b);
    Unlike(a, b, i);
    Unlike(b, a, 0);
    Unlike(b, a, |b| - 1);
    if i + 1 < |a| { Unlike(a, b, i + 1); }
    hide Distinct, Disjoint, Chain, NodeAt;
    var nextDst := dst.next;
    dst.next := first;
    first.prev := dst;
    if nextDst != null {
      nextDst.prev := last;
      last.next := nextDst;
    }
  }

  lemma Ends(a: seq<Node>, i: nat, b: seq<Node>)
    requires Chain(a) && Chain(b) && i < |a| && b != []
    ensures a[i].next == NodeAt(a, i + 1) == if i + 1 < |a| then a[i + 1] else null
    ensures b[|b| - 1].next == null && b[0].prev == null
    ensures forall k: nat | k < |a| :: a[k].next == NodeAt(a, k + 1) && a[k].prev == NodeAt(a, k - 1)
    ensures forall k: nat | k < |b| :: b[k].next == NodeAt(b, k + 1) && b[k].prev == NodeAt(b, k - 1)
  {
  }

  lemma Links(nodes: seq<Node>)
    requires Chain(nodes)
    ensures Distinct(nodes)
  {
  }

  lemma Unlike(a: seq<Node>, b: seq<Node>, i: nat)
    requires Distinct(a) && (Disjoint(a, b) || Disjoint(b, a)) && i < |a|
    ensures forall k: nat | k < |a| && k != i :: a[k] != a[i]
    ensures forall k: nat | k < |b| :: b[k] != a[i]
  {
    forall k: nat | k < |b|
      ensures b[k] != a[i]
    {
      assert a[i] in a && b[k] in b;
    }
  }

  /** Where the nodes are after the splice. */
  lemma SplicedNodes(a: seq<Node>, i: nat, b: seq<Node>)
    requires i < |a|
    ensures var r, n := Spliced(a, i, b), |b|;
            && |r| == |a| + n
            && (forall k: nat | k < |a| :: r[Moved(i, n, k)] == a[k])
            && (forall k: nat | k < n :: r[i + 1 + k] == b[k])
  {
  }

  /** The links after a splice, if those at the seams are right and the others as
      they were. */
  lemma SplicedChain(a: seq<Node>, i: nat, b: seq<Node>)
    requires Distinct(a) && Distinct(b) && Disjoint(a, b) && i < |a| && b != []
    requires Relinked(a, i, b)
    ensures Chain(Spliced(a, i, b))
  {
    SplicedDistinct(a, i, b);
    hide Distinct;
    var r, n := Spliced(a, i, b), |b|;
    forall p: nat | p < |r|
      ensures r[p].next == NodeAt(r, p + 1) && r[p].prev == NodeAt(r, p - 1)
    {
      if p <= i {
        assert r[p] == a[p];
      } else if p <= i + n {
        assert r[p] == b[p - i - 1];
      } else {
        assert r[p] == a[p - n];
      }
    }
  }

  lemma SplicedDistinct(a: seq<Node>, i: nat, b: seq<Node>)
    requires Distinct(a) && Distinct(b) && Disjoint(a, b) && i < |a|
    ensures Distinct(Spliced(a, i, b))
  {
    var r, n := Spliced(a, i, b), |b|;
    forall p: nat, q: nat | p < q < |r|
      ensures r[p] != r[q]
    {
      assert r[p] == if p <= i then a[p] else if p <= i + n then b[p - i - 1] else a[p - n];
      assert r[q] == if q <= i then a[q] else if q <= i + n then b[q - i - 1] else a[q - n];
      assert (i < p <= i + n) != (i < q <= i + n) ==> (r[p] in a && r[q] in b) || (r[p] in b && r[q] in a);
    }
  }

  lemma SplicedValue(a: seq<Node>, i: nat, b: seq<Node>)
    requires Distinct(a) && Distinct(b) && Disjoint(a, b) && i < |a| && Inside(a) && Inside(b)
    ensures Inside(Spliced(a, i, b))
    ensures Value(Spliced(a, i, b)) == Splice(Value(a), i, Value(b))
  {
    var r, n := Spliced(a, i, b), |b|;
    SplicedDistinct(a, i, b);
    forall p: nat | p < |r|
      ensures Value(r)[p] == Splice(Value(a), i, Value(b))[p]
    {
      SplicedFrom(Value(a), i, Value(b), p);
      ValueAt(r, p);
      if p <= i {
        ValueAt(a, p);
        OuterValue(a, i, b, p);
      } else if p <= i + n {
        ValueAt(b, p - i - 1);
        InnerValue(a, i, b, p - i - 1);
      } else {
        ValueAt(a, p - n);
        OuterValue(a, i, b, p - n);
      }
    }
    hide Value, Distinct;
    assert forall x | x in r :: x in a || x in b;
    assert forall x | x in a || x in b :: x in r;
  }

  lemma OuterValue(a: seq<Node>, i: nat, b: seq<Node>, k: nat)
    requires Distinct(a) && i < |a| && Inside(a) && k < |a| && Distinct(Spliced(a, i, b))
    ensures InstrOf(Spliced(a, i, b), a[k]) == MoveJump(InstrOf(a, a[k]), i, |b|)
  {
    var r, x := Spliced(a, i, b), a[k];
    if IsJump(x.op) && x.jump != null {
      var t: nat :| t < |a| && a[t] == x.jump;
      hide Distinct, PlaceOf, Spliced, Inside;
      PlaceIs(a, t);
      SplicedNodes(a, i, b);
      assert r[Moved(i, |b|, t)] == a[t];
      PlaceIs(r, Moved(i, |b|, t));
    }
  }

  lemma NewAt(a: seq<Node>, i: nat, b: seq<Node>, k: nat)
    requires i < |a| && k < |b|
    ensures i + 1 + k < |Spliced(a, i, b)| && Spliced(a, i, b)[i + 1 + k] == b[k]
  {
  }

  lemma InnerValue(a: seq<Node>, i: nat, b: seq<Node>, k: nat)
    requires Distinct(b) && i < |a| && Inside(b) && k < |b| && Distinct(Spliced(a, i, b))
    ensures InstrOf(Spliced(a, i, b), b[k]) == Enter(InstrOf(b, b[k]), i)
  {
    var r, x := Spliced(a, i, b), b[k];
    if IsJump(x.op) && x.jump != null {
      var t: nat :| t < |b| && b[t] == x.jump;
      hide Distinct, PlaceOf, Spliced, Inside;
      PlaceIs(b, t);
      NewAt(a, i, b, t);
      PlaceIs(r, i + 1 + t);
    }
  }

  lemma ChainDiffers(nodes: seq<Node>, k: nat)
    requires Chain(nodes) && k < |nodes|
    ensures forall j: nat | j < |nodes| && j != k :: nodes[j] != nodes[k]
  {
  }
}
