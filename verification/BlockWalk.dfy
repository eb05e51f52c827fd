// The walk over the blocks of a function's control flow graph that visits no block
// twice: a stack of pending blocks, and a set of visited ones.
module BlockWalk {
  import opened Collections

  /** How a block ends; the jump back of a loop is not followed. */
  datatype NextBlock = Sequential(next: nat) | Branch(falseBranch: nat, trueBranch: nat) | LoopBack(loop: nat) | Final

  datatype Block = Block(next: NextBlock, predecessors: set<nat>)

  type Graph = map<nat, Block>

  /** What a block pushes, in this order. */
  function Pushed(b: Block): seq<nat> {
    match b.next
    case Sequential(n) => [n]
    case Branch(f, t) => [f, t]
    case _ => []
  }

  ghost predicate Closed(g: Graph) {
    forall b, c | b in g && c in Pushed(g[b]) :: c in g
  }

  /** The predecessors of a block are exactly the blocks that lead to it. */
  ghost predicate Exact(g: Graph) {
    forall b, c | c in g :: b in g[c].predecessors <==> b in g && c in Pushed(g[b])
  }

  /** Every block leads to blocks of higher rank only. */
  ghost predicate Acyclic(g: Graph, rank: map<nat, nat>) {
    g.Keys <= rank.Keys && forall b, c | b in g && c in g && c in Pushed(g[b]) :: rank[b] < rank[c]
  }

  ghost predicate Path(g: Graph, p: seq<nat>) {
    |p| > 0 && (forall i: nat | i < |p| :: p[i] in g) && forall i: nat | i + 1 < |p| :: p[i + 1] in Pushed(g[p[i]])
  }

  ghost predicate ReachableFrom(g: Graph, start: nat, b: nat) {
    exists p :: Path(g, p) && p[0] == start && p[|p| - 1] == b
  }

  // ----- what a walk keeps -----

  /** Blocks are visited once, each after all its predecessors. */
  ghost predicate Ordered(g: Graph, order: seq<nat>) {
    && (forall i: nat | i < |order| :: order[i] in g && g[order[i]].predecessors <= SetOf(order[..i]))
    && forall i: nat, j: nat | i < j < |order| :: order[i] != order[j]
  }

  /** A block that only waits for its turn is pending. */
  ghost predicate Awaited(g: Graph, start: nat, order: seq<nat>, pending: seq<nat>) {
    forall b | b in g && b !in order && g[b].predecessors <= SetOf(order) && (b == start || g[b].predecessors != {}) :: b in pending
  }

  /** Control flows from the end of the block to c; the jump back of a loop does not
      count. */
  predicate LeadsTo(b: Block, c: nat) {
    b.next == Sequential(c) || (b.next.Branch? && (b.next.falseBranch == c || b.next.trueBranch == c))
  }

  /** Predecessors are the blocks that lead to a block. */
  ghost predicate Predecessors(g: Graph) {
    forall b, c | c in g :: b in g[c].predecessors <==> b in g && LeadsTo(g[b], c)
  }

  /** Every one of these blocks but the start comes behind a visited one that the
      consumer went on from. */
  ghost predicate Behind(g: Graph, start: nat, goOn: set<nat>, order: seq<nat>, blocks: seq<nat>) {
    forall c | c in blocks :: c == start || exists b :: b in order && b in goOn && b in g && LeadsTo(g[b], c)
  }

  /** Exactly the blocks are visited all of whose predecessors are, and that have one
      or begin the walk. */
  ghost predicate VisitsExactly(g: Graph, start: nat, order: seq<nat>) {
    forall c | c in g :: c in order <==> g[c].predecessors <= SetOf(order) && (c == start || g[c].predecessors != {})
  }

  lemma PushedIs(b: Block, c: nat)
    ensures c in Pushed(b) <==> LeadsTo(b, c)
  {
  }

  lemma ExactIs(g: Graph)
    ensures Predecessors(g) <==> Exact(g)
  {
    hide Pushed, LeadsTo;
    forall b, c | b in g
      ensures c in Pushed(g[b]) <==> LeadsTo(g[b], c)
    {
      PushedIs(g[b], c);
    }
  }

  lemma BehindMore(g: Graph, start: nat, goOn: set<nat>, order: seq<nat>, rest: seq<nat>, b: nat)
    requires b in g && Behind(g, start, goOn, order, order) && Behind(g, start, goOn, order, rest + [b])
    ensures Behind(g, start, goOn, order, rest)
    ensures Behind(g, start, goOn, order + [b], order + [b]) && Behind(g, start, goOn, order + [b], rest)
    ensures b in goOn ==> Behind(g, start, goOn, order + [b], rest + Pushed(g[b]))
  {
    hide LeadsTo, Pushed;
    assert b in rest + [b] && forall c | c in rest :: c in rest + [b];
    forall c | c in order + [b] || c in rest
      ensures c == start || exists a :: a in order + [b] && a in goOn && a in g && LeadsTo(g[a], c)
    {
      if c != start {
        var a :| a in order && a in goOn && a in g && LeadsTo(g[a], c);
        assert a in order + [b];
      }
    }
    forall c | c in Pushed(g[b])
      ensures LeadsTo(g[b], c)
    {
      PushedIs(g[b], c);
    }
    assert b in order + [b];
  }

  lemma VisitedIff(g: Graph, start: nat, goOn: set<nat>, order: seq<nat>)
    requires Predecessors(g) && Ordered(g, order) && Behind(g, start, goOn, order, order) && Awaited(g, start, order, [])
    ensures VisitsExactly(g, start, order)
  {
    forall c | c in g && c in order
      ensures g[c].predecessors <= SetOf(order) && (c == start || g[c].predecessors != {})
    {
      var i: nat :| i < |order| && order[i] == c;
      assert g[order[i]].predecessors <= SetOf(order[..i]);
      assert forall x | x in order[..i] :: x in order;
      if c != start {
        var b :| b in order && b in goOn && b in g && LeadsTo(g[b], c);
        assert b in g[c].predecessors;
      }
    }
  }

  lemma Visit(g: Graph, order: seq<nat>, b: nat)
    requires Ordered(g, order) && b in g && b !in order && g[b].predecessors <= SetOf(order)
    ensures Ordered(g, order + [b]) && SetOf(order + [b]) == SetOf(order) + {b}
  {
    var more := order + [b];
    forall i: nat | i < |more|
      ensures g[more[i]].predecessors <= SetOf(more[..i])
    {
      assert more[..i] == order[..i];
      if i == |order| { assert order[..i] == order; }
    }
  }

  /** Visiting a block makes none wait that it does not push. */
  lemma AwaitedAfter(g: Graph, start: nat, order: seq<nat>, rest: seq<nat>, b: nat)
    requires Exact(g) && b in g && b !in order && Awaited(g, start, order, rest + [b])
    ensures Awaited(g, start, order + [b], rest + Pushed(g[b]))
  {
    forall c | c in g && c !in order + [b] && g[c].predecessors <= SetOf(order + [b])
               && (c == start || g[c].predecessors != {})
      ensures c in rest + Pushed(g[b])
    {
      assert SetOf(order + [b]) == SetOf(order) + {b};
      if g[c].predecessors <= SetOf(order) {
        assert c in rest + [b] && c != b;
      } else {
        assert b in g[c].predecessors;
      }
    }
  }

  /** A block that cannot be visited now need not be pending. */
  lemma AwaitedStill(g: Graph, start: nat, order: seq<nat>, rest: seq<nat>, b: nat)
    requires Awaited(g, start, order, rest + [b]) && (b in order || (b in g && !(g[b].predecessors <= SetOf(order))))
    ensures Awaited(g, start, order, rest)
  {
  }

  /** The walk with LOX_IR_BLOCK_OPT_NOT_REPEATED; the consumer goes on behind the
      blocks of `goOn`.  `order` are the blocks it was called with. */
  method ForEachBlock(g: Graph, start: nat, goOn: set<nat>) returns (order: seq<nat>)
    requires Closed(g) && start in g
    ensures Ordered(g, order)
    ensures Exact(g) && (forall b | b in g :: ReachableFrom(g, start, b)) && g.Keys <= goOn ==>
              (SetOf(order) == g.Keys <==> exists rank :: Acyclic(g, rank))
    ensures Behind(g, start, goOn, order, order)
    ensures Predecessors(g) && g.Keys <= goOn ==> VisitsExactly(g, start, order)
  {
    hide Ordered, Awaited, SetOf, ReachableFrom, Acyclic, Exact, Pushed, Behind, LeadsTo, Predecessors, VisitsExactly;
    ghost var exact := Exact(g) && g.Keys <= goOn;
    var pending, visited := [start], {};
    order := [];
    NothingVisited(g, start);
    while pending != []
      invariant (forall b | b in pending :: b in g) && visited == SetOf(order) <= g.Keys && Ordered(g, order)
      invariant exact ==> Awaited(g, start, order, pending)
      invariant Behind(g, start, goOn, order, order) && Behind(g, start, goOn, order, pending)
      decreases |g.Keys - visited|, |pending|
    {
      var current, rest := pending[|pending| - 1], pending[..|pending| - 1];
      assert pending == rest + [current];
      InSet(order, current);
      BehindMore(g, start, goOn, order, rest, current);
      pending := rest;
      if current in visited || !(g[current].predecessors <= visited) {
        if exact { AwaitedStill(g, start, order, rest, current); }
      } else {
        Visit(g, order, current);
        if exact { AwaitedAfter(g, start, order, rest, current); }
        Fewer(g.Keys, visited, current);
        order := order + [current];
        visited := visited + {current};
        if current in goOn {
          pending := PushSuccessors(pending, g[current]);
        }
      }
    }
    ExactIs(g);
    if exact { VisitedIff(g, start, goOn, order); }
    if exact && forall b | b in g :: ReachableFrom(g, start, b) {
      if SetOf(order) == g.Keys { VisitedAcyclic(g, order); }
      if rank :| Acyclic(g, rank) { AllVisited(g, start, order, rank); }
    }
  }

  method PushSuccessors(pending: seq<nat>, b: Block) returns (r: seq<nat>)
    ensures r == pending + Pushed(b)
  {
    match b.next
    case Sequential(n) => r := pending + [n];
    case Branch(f, t) => r := pending + [f] + [t];
    case _ => r := pending;
  }

  lemma NothingVisited(g: Graph, start: nat)
    ensures Ordered(g, []) && SetOf([]) == {} && Awaited(g, start, [], [start])
    ensures forall goOn :: Behind(g, start, goOn, [], []) && Behind(g, start, goOn, [], [start])
  {
  }

  lemma InSet(s: seq<nat>, x: nat)
    ensures x in SetOf(s) <==> x in s
  {
  }

  lemma Fewer(all: set<nat>, seen: set<nat>, x: nat)
    requires x in all && x !in seen
    ensures |all - (seen + {x})| < |all - seen|
  {
    assert all - seen == (all - (seen + {x})) + {x};
  }

  /** Every block but the start has a predecessor. */
  lemma HasPredecessor(g: Graph, start: nat, b: nat)
    requires Exact(g) && b in g && b != start && ReachableFrom(g, start, b)
    ensures g[b].predecessors != {}
  {
    var p :| Path(g, p) && p[0] == start && p[|p| - 1] == b;
    var n := |p| - 2;
    assert p[n + 1] in Pushed(g[p[n]]);
    assert p[n] in g[b].predecessors;
  }

  /** With nothing pending, the first block that is not visited would be awaited. */
  lemma AllVisited(g: Graph, start: nat, order: seq<nat>, rank: map<nat, nat>)
    requires Exact(g) && Acyclic(g, rank) && (forall b | b in g :: ReachableFrom(g, start, b))
    requires Awaited(g, start, order, []) && SetOf(order) <= g.Keys
    ensures SetOf(order) == g.Keys
  {
    var left := g.Keys - SetOf(order);
    assert g.Keys == left + SetOf(order);
    assert left == {} ==> g.Keys == SetOf(order);
    if left != {} {
      hide ReachableFrom, Closed, Exact, Acyclic;
      var b := Lowest(left, rank);
      InSet(order, b);
      forall a | a in g[b].predecessors
        ensures a in SetOf(order)
      {
        LowerRank(g, rank, a, b);
      }
      NoneAwaited(g, start, order, b);
      HasPredecessor(g, start, b);
    }
  }

  function IndexOf(order: seq<nat>, b: nat): nat {
    if order == [] || order[0] == b then 0 else 1 + IndexOf(order[1..], b)
  }

  lemma {:induction false} IndexIs(order: seq<nat>, b: nat, i: nat)
    requires i < |order| && order[i] == b && forall j: nat | j < i :: order[j] != b
    ensures IndexOf(order, b) == i
  {
    if i > 0 { IndexIs(order[1..], b, i - 1); }
  }

  /** A walk over all blocks ranks them: by their places in it. */
  lemma VisitedAcyclic(g: Graph, order: seq<nat>)
    requires Exact(g) && Ordered(g, order) && SetOf(order) == g.Keys
    ensures exists rank :: Acyclic(g, rank)
  {
    var rank := map b | b in g :: IndexOf(order, b);
    forall b, c | b in g && c in g && c in Pushed(g[b])
      ensures rank[b] < rank[c]
    {
      PlaceOrdered(g, order, b, c);
    }
    assert Acyclic(g, rank);
  }

  lemma PlaceOrdered(g: Graph, order: seq<nat>, b: nat, c: nat)
    requires Exact(g) && Ordered(g, order) && b in g && c in order && c in g && c in Pushed(g[b])
    ensures IndexOf(order, b) < IndexOf(order, c)
  {
    hide Pushed;
    var k: nat :| k < |order| && order[k] == c;
    assert b in g[c].predecessors;
    var j: nat :| j < |order[..k]| && order[..k][j] == b;
    assert order[j] == b;
    IndexIs(order, b, j);
    IndexIs(order, c, k);
  }

  lemma NoneAwaited(g: Graph, start: nat, order: seq<nat>, b: nat)
    requires Awaited(g, start, order, []) && b in g && b !in order && g[b].predecessors <= SetOf(order)
    ensures b != start && g[b].predecessors == {}
  {
  }

  lemma LowerRank(g: Graph, rank: map<nat, nat>, a: nat, b: nat)
    requires Exact(g) && Acyclic(g, rank) && b in g && a in g[b].predecessors
    ensures a in g && rank[a] < rank[b]
  {
  }

  lemma {:induction false} Lowest(s: set<nat>, rank: map<nat, nat>) returns (b: nat)
    requires s != {} && s <= rank.Keys
    ensures b in s && forall a | a in s :: rank[b] <= rank[a]
    decreases |s|
  {
    var first :| first in s;
    var rest := s - {first};
    assert s == rest + {first};
    b := first;
    if rest != {} {
      var c := Lowest(rest, rank);
      if rank[c] < rank[b] { b := c; }
    }
  }

  /** Blocks that wait for each other are never visited: the coverage needs an
      acyclic graph. */
  lemma {:induction false} NeverVisited(g: Graph, order: seq<nat>, n: nat, circle: set<nat>)
    requires Ordered(g, order) && n <= |order|
    requires forall b | b in circle && b in g :: exists a :: a in circle && a in g[b].predecessors
    ensures SetOf(order[..n]) !! circle
    decreases n
  {
    if n > 0 {
      NeverVisited(g, order, n - 1, circle);
      var b := order[n - 1];
      assert order[..n] == order[..n - 1] + [b];
      assert g[b].predecessors <= SetOf(order[..n - 1]);
    }
  }
}
