// The iterator over a call graph, callees before callers: a stack of functions to
// look at, a stack of callers put off until all else is done, and a set of those
// whose callees have all been returned.
module CallGraph {
  import opened Wrappers
  import opened Collections

  /** Calls of a function in the order of its children; a native function has no
      node. */
  type Graph = map<nat, seq<Option<nat>>>

  function Callees(g: Graph, f: nat): set<nat>
    requires f in g
  {
    set c | c in g[f] && c.Some? :: c.value
  }

  ghost predicate Closed(g: Graph) {
    forall f | f in g :: Callees(g, f) <= g.Keys
  }

  /** Callers rank above their callees. */
  ghost predicate Ranked(g: Graph, rank: map<nat, nat>) {
    g.Keys <= rank.Keys && forall f, c | f in g && c in Callees(g, f) && c in rank :: rank[c] < rank[f]
  }

  /** 1 plus the weights of all calls; calls of native functions count nothing. */
  ghost function Weight(g: Graph, rank: map<nat, nat>, f: nat): nat
    requires Closed(g) && Ranked(g, rank) && f in g
    decreases rank[f], 1, 0
  {
    1 + Weights(g, rank, f, |g[f]|)
  }

  ghost function Weights(g: Graph, rank: map<nat, nat>, f: nat, n: nat): nat
    requires Closed(g) && Ranked(g, rank) && f in g && n <= |g[f]|
    decreases rank[f], 0, n
  {
    if n == 0 then 0
    else
      Weights(g, rank, f, n - 1)
      + (if g[f][n - 1].Some? then CalleeIn(g, f, n - 1); Weight(g, rank, g[f][n - 1].value) else 0)
  }

  lemma CalleeIn(g: Graph, f: nat, k: nat)
    requires Closed(g) && f in g && k < |g[f]| && g[f][k].Some?
    ensures g[f][k].value in Callees(g, f) && g[f][k].value in g
  {
    assert g[f][k] in g[f];
  }

  ghost predicate Path(g: Graph, p: seq<nat>) {
    p != [] && (forall i: nat | i < |p| :: p[i] in g) && forall i: nat | i + 1 < |p| :: p[i + 1] in Callees(g, p[i])
  }

  /** A function that root calls, calls of calls included. */
  ghost predicate CalledFrom(g: Graph, root: nat, f: nat) {
    exists p :: Path(g, p) && p[0] == root && p[|p| - 1] == f
  }

  ghost predicate AllCalled(g: Graph, root: nat, s: seq<nat>) {
    forall f | f in s :: CalledFrom(g, root, f)
  }

  lemma RootCalled(g: Graph, root: nat)
    requires root in g
    ensures CalledFrom(g, root, root)
  {
    assert Path(g, [root]);
  }

  lemma CalleeCalled(g: Graph, root: nat, f: nat, c: nat)
    requires CalledFrom(g, root, f) && f in g && c in g && c in Callees(g, f)
    ensures CalledFrom(g, root, c)
  {
    hide Callees;
    var p :| Path(g, p) && p[0] == root && p[|p| - 1] == f;
    var q := p + [c];
    assert forall i: nat | i < |q| :: q[i] in g;
    forall i: nat | i + 1 < |q|
      ensures q[i + 1] in Callees(g, q[i])
    {
      if i + 1 < |p| { assert p[i + 1] in Callees(g, p[i]); }
    }
    assert Path(g, q);
  }

  lemma PushedCalled(g: Graph, root: nat, rest: seq<nat>, f: nat, pushed: seq<nat>)
    requires Closed(g) && f in g && AllCalled(g, root, rest + [f]) && forall c | c in pushed :: c in Callees(g, f)
    ensures AllCalled(g, root, rest + pushed) && CalledFrom(g, root, f)
  {
    hide CalledFrom, Callees;
    assert f in rest + [f];
    forall c | c in rest + pushed
      ensures CalledFrom(g, root, c)
    {
      if c in rest { assert c in rest + [f]; } else { CalleeCalled(g, root, f, c); }
    }
  }

  lemma AllCalledMore(g: Graph, root: nat, s: seq<nat>, f: nat)
    requires AllCalled(g, root, s) && CalledFrom(g, root, f)
    ensures AllCalled(g, root, s + [f])
  {
    hide CalledFrom;
  }

  lemma AllCalledLast(g: Graph, root: nat, s: seq<nat>)
    requires AllCalled(g, root, s) && s != []
    ensures AllCalled(g, root, s[..|s| - 1]) && CalledFrom(g, root, s[|s| - 1])
  {
    hide CalledFrom;
  }

  ghost predicate AllIn(g: Graph, s: seq<nat>) {
    forall f | f in s :: f in g
  }

  ghost function PendingWeight(g: Graph, rank: map<nat, nat>, pending: seq<nat>): nat
    requires Closed(g) && Ranked(g, rank) && AllIn(g, pending)
  {
    if pending == [] then 0
    else PendingWeight(g, rank, pending[..|pending| - 1]) + Weight(g, rank, pending[|pending| - 1])
  }

  /** A caller that was put off: its callees are done, to be looked at, or put off
      above it. */
  ghost predicate Covered(g: Graph, parents: seq<nat>, pending: seq<nat>, returned: set<nat>) {
    forall i: nat | i < |parents| ::
      parents[i] in g && forall c | c in Callees(g, parents[i]) :: c in returned || c in pending || c in parents[i + 1..]
  }

  /** Every function is returned after all its callees. */
  ghost predicate Ordered(g: Graph, order: seq<nat>) {
    forall i: nat | i < |order| :: order[i] in g && Callees(g, order[i]) <= SetOf(order[..i])
  }

  lemma OrderMore(g: Graph, order: seq<nat>, f: nat)
    requires Ordered(g, order) && f in g && Callees(g, f) <= SetOf(order)
    ensures Ordered(g, order + [f]) && SetOf(order + [f]) == SetOf(order) + {f}
  {
    hide Callees;
    var more := order + [f];
    forall i: nat | i < |more|
      ensures Callees(g, more[i]) <= SetOf(more[..i])
    {
      if i < |order| { assert more[..i] == order[..i]; } else { assert more[..i] == order; }
    }
  }

  lemma PushWeight(g: Graph, rank: map<nat, nat>, pending: seq<nat>, f: nat)
    requires Closed(g) && Ranked(g, rank) && AllIn(g, pending) && f in g
    ensures AllIn(g, pending + [f])
    ensures PendingWeight(g, rank, pending + [f]) == PendingWeight(g, rank, pending) + Weight(g, rank, f)
  {
    assert (pending + [f])[..|pending|] == pending;
  }

  /** Callees of a checked function are checked, and all these are returned. */
  ghost predicate Checked(g: Graph, checked: set<nat>, returned: set<nat>) {
    checked <= returned && forall f | f in checked :: f in g && Callees(g, f) <= checked
  }

  lemma CheckedReturned(g: Graph, checked: set<nat>, returned: set<nat>, f: nat)
    requires Checked(g, checked, returned) && f in checked
    ensures f in returned
  {
  }

  lemma LeafReturned(g: Graph, checked: set<nat>, returned: set<nat>, f: nat)
    requires Checked(g, checked, returned) && f in g && Callees(g, f) <= checked
    ensures Callees(g, f) <= returned
  {
  }

  lemma NowChecked(g: Graph, checked: set<nat>, returned: set<nat>, f: nat)
    requires Checked(g, checked, returned) && f in g && Callees(g, f) <= checked
    ensures Checked(g, checked + {f}, returned + {f})
  {
    hide Callees;
  }

  lemma MoreReturned(g: Graph, checked: set<nat>, returned: set<nat>, f: nat)
    requires Checked(g, checked, returned)
    ensures Checked(g, checked, returned + {f})
  {
  }

  lemma PushedCover(g: Graph, checked: set<nat>, returned: set<nat>, f: nat, pushed: seq<nat>)
    requires Checked(g, checked, returned) && f in g && forall c | c in Callees(g, f) :: c in checked || c in pushed
    ensures forall c | c in Callees(g, f) :: c in returned || c in pushed
  {
  }

  // What the steps keep of Covered.

  lemma SkipKeeps(g: Graph, parents: seq<nat>, rest: seq<nat>, returned: set<nat>, f: nat)
    requires Covered(g, parents, rest + [f], returned) && f in returned
    ensures Covered(g, parents, rest, returned)
  {
    hide Callees;
  }

  lemma ReturnKeeps(g: Graph, parents: seq<nat>, rest: seq<nat>, returned: set<nat>, f: nat)
    requires Covered(g, parents, rest + [f], returned)
    ensures Covered(g, parents, rest, returned + {f})
  {
    hide Callees;
  }

  lemma PutOffKeeps(g: Graph, parents: seq<nat>, rest: seq<nat>, pushed: seq<nat>, returned: set<nat>, f: nat)
    requires Covered(g, parents, rest + [f], returned) && f in g
    requires forall c | c in Callees(g, f) :: c in returned || c in pushed
    ensures Covered(g, parents + [f], rest + pushed, returned)
  {
    hide Callees;
    var more := parents + [f];
    forall i: nat | i < |parents|
      ensures forall c | c in Callees(g, parents[i]) :: c in returned || c in rest + pushed || c in more[i + 1..]
    {
      assert more[i + 1..] == parents[i + 1..] + [f];
      assert forall c | c in Callees(g, parents[i]) :: c in returned || c in rest + [f] || c in parents[i + 1..];
    }
  }

  lemma PopKeeps(g: Graph, parents: seq<nat>, returned: set<nat>)
    requires parents != [] && Covered(g, parents, [], returned)
    ensures var n := |parents| - 1;
            Covered(g, parents[..n], [], returned + {parents[n]}) && parents[n] in g && Callees(g, parents[n]) <= returned
  {
    hide Callees;
    var n := |parents| - 1;
    assert parents[n + 1..] == [];
    forall i: nat | i < n
      ensures forall c | c in Callees(g, parents[i]) :: c in returned + {parents[n]} || c in parents[..n][i + 1..]
    {
      assert parents[i + 1..] == parents[..n][i + 1..] + [parents[n]];
    }
  }

  // ----- the iteration, round by round -----

  /** The fields of the iterator. */
  datatype Walk = Walk(pending: seq<nat>, parents: seq<nat>, checked: set<nat>)

  /** The calls that are not checked yet, in order. */
  function Unchecked(calls: seq<Option<nat>>, checked: set<nat>): seq<nat> {
    if calls == [] then []
    else
      var last := calls[|calls| - 1];
      Unchecked(calls[..|calls| - 1], checked) + (if last.Some? && last.value !in checked then [last.value] else [])
  }

  predicate Done(w: Walk) {
    w.pending == [] && w.parents == []
  }

  /** One round of the loop of next_call_graph, or what is behind it, and what it
      returns. */
  function Round(g: Graph, w: Walk): (Walk, seq<nat>)
    requires AllIn(g, w.pending) && !Done(w)
  {
    if w.pending != [] then
      var node, rest := w.pending[|w.pending| - 1], w.pending[..|w.pending| - 1];
      if node in w.checked then (w.(pending := rest), [])
      else
        var calls := Unchecked(g[node], w.checked);
        if calls == [] then (w.(pending := rest, checked := w.checked + {node}), [node])
        else (w.(pending := rest + calls, parents := w.parents + [node]), [])
    else (w.(parents := w.parents[..|w.parents| - 1]), [w.parents[|w.parents| - 1]])
  }

  /** The iterator after n rounds, or fewer if it is through before, and all that it
      returned. */
  function Rounds(g: Graph, root: nat, n: nat): (r: (Walk, seq<nat>))
    requires Closed(g) && root in g
    ensures AllIn(g, r.0.pending)
  {
    if n == 0 then (Walk([root], [], {}), [])
    else
      var (w, order) := Rounds(g, root, n - 1);
      if Done(w) then (w, order)
      else
        RoundIn(g, w);
        var (w1, more) := Round(g, w);
        (w1, order + more)
  }

  lemma {:induction false} UncheckedIn(calls: seq<Option<nat>>, checked: set<nat>)
    ensures forall c :: c in Unchecked(calls, checked) <==> Some(c) in calls && c !in checked
  {
    if calls != [] {
      UncheckedIn(calls[..|calls| - 1], checked);
    }
  }

  lemma RoundIn(g: Graph, w: Walk)
    requires Closed(g) && AllIn(g, w.pending) && !Done(w)
    ensures AllIn(g, Round(g, w).0.pending)
  {
    if w.pending != [] {
      var node := w.pending[|w.pending| - 1];
      UncheckedIn(g[node], w.checked);
      assert forall c | c in Unchecked(g[node], w.checked) :: c in Callees(g, node);
    }
  }

  // ----- what a round keeps on a graph with ranks -----

  ghost predicate Inv(g: Graph, rank: map<nat, nat>, root: nat, w: Walk, order: seq<nat>) {
    && Closed(g) && Ranked(g, rank) && root in g
    && AllIn(g, w.pending) && Ordered(g, order)
    && Checked(g, w.checked, SetOf(order))
    && Covered(g, w.parents, w.pending, SetOf(order))
    && AllCalled(g, root, w.pending) && AllCalled(g, root, w.parents) && AllCalled(g, root, order)
    && (root in w.pending || root in w.parents || root in SetOf(order))
    && (w.pending != [] && w.parents == [] ==> w.pending == [root] && w.checked == {})
  }

  ghost function WalkMeasure(g: Graph, rank: map<nat, nat>, w: Walk): nat
    requires Closed(g) && Ranked(g, rank) && AllIn(g, w.pending)
  {
    2 * PendingWeight(g, rank, w.pending) + |w.parents|
  }

  lemma Begins(g: Graph, rank: map<nat, nat>, root: nat)
    requires Closed(g) && Ranked(g, rank) && root in g
    ensures Inv(g, rank, root, Walk([root], [], {}), [])
  {
    RootCalled(g, root);
  }

  /** What a function pushes weighs less than the function. */
  lemma {:induction false} PushedLess(g: Graph, rank: map<nat, nat>, rest: seq<nat>, f: nat, checked: set<nat>, n: nat)
    requires Closed(g) && Ranked(g, rank) && AllIn(g, rest) && f in g && n <= |g[f]|
    ensures var all := rest + Unchecked(g[f][..n], checked);
            AllIn(g, all) && PendingWeight(g, rank, all) <= PendingWeight(g, rank, rest) + Weights(g, rank, f, n)
    decreases n
  {
    hide PendingWeight, Ranked, Closed, Callees;
    var calls := Unchecked(g[f][..n], checked);
    if n == 0 {
      assert rest + calls == rest;
    } else {
      PushedLess(g, rank, rest, f, checked, n - 1);
      assert g[f][..n][..n - 1] == g[f][..n - 1];
      var before := rest + Unchecked(g[f][..n - 1], checked);
      if g[f][n - 1].Some? { CalleeIn(g, f, n - 1); }
      if g[f][n - 1].Some? && g[f][n - 1].value !in checked {
        PushWeight(g, rank, before, g[f][n - 1].value);
        assert rest + calls == before + [g[f][n - 1].value];
      } else {
        assert rest + calls == before;
      }
    }
  }

  lemma PushedAll(g: Graph, rank: map<nat, nat>, rest: seq<nat>, f: nat, checked: set<nat>)
    requires Closed(g) && Ranked(g, rank) && AllIn(g, rest) && f in g
    ensures var calls := Unchecked(g[f], checked);
            && AllIn(g, rest + calls)
            && PendingWeight(g, rank, rest + calls) < PendingWeight(g, rank, rest) + Weight(g, rank, f)
            && (forall c | c in Callees(g, f) :: c in checked || c in calls) && (forall c | c in calls :: c in Callees(g, f))
            && (calls == [] ==> Callees(g, f) <= checked)
  {
    hide PendingWeight, Ranked, Closed;
    PushedLess(g, rank, rest, f, checked, |g[f]|);
    assert g[f][..|g[f]|] == g[f];
    UncheckedIn(g[f], checked);
  }

  lemma PendingRound(g: Graph, rank: map<nat, nat>, root: nat, w: Walk, order: seq<nat>)
    requires Inv(g, rank, root, w, order) && w.pending != []
    ensures var (w1, more) := Round(g, w);
            Inv(g, rank, root, w1, order + more) && WalkMeasure(g, rank, w1) < WalkMeasure(g, rank, w)
    ensures !Done(Round(g, w).0) || Round(g, w).1 != []
  {
    hide PendingWeight, Ranked, Covered, Ordered, SetOf, Callees, AllIn, Checked, AllCalled, CalledFrom, Weight;
    var node, rest := w.pending[|w.pending| - 1], w.pending[..|w.pending| - 1];
    assert w.pending == rest + [node];
    Popped(g, rank, rest, node);
    AllCalledLast(g, root, w.pending);
    assert order + [] == order;
    if node in w.checked {
      CheckedReturned(g, w.checked, SetOf(order), node);
      SkipKeeps(g, w.parents, rest, SetOf(order), node);
    } else {
      var calls := Unchecked(g[node], w.checked);
      PushedAll(g, rank, rest, node, w.checked);
      if calls == [] {
        LeafReturned(g, w.checked, SetOf(order), node);
        OrderMore(g, order, node);
        ReturnKeeps(g, w.parents, rest, SetOf(order), node);
        AllCalledMore(g, root, order, node);
        NowChecked(g, w.checked, SetOf(order), node);
      } else {
        PushedCover(g, w.checked, SetOf(order), node, calls);
        PushedCalled(g, root, rest, node, calls);
        AllCalledMore(g, root, w.parents, node);
        PutOffKeeps(g, w.parents, rest, calls, SetOf(order), node);
      }
    }
  }

  lemma ParentsRound(g: Graph, rank: map<nat, nat>, root: nat, w: Walk, order: seq<nat>)
    requires Inv(g, rank, root, w, order) && w.pending == [] && w.parents != []
    ensures var (w1, more) := Round(g, w);
            Inv(g, rank, root, w1, order + more) && WalkMeasure(g, rank, w1) < WalkMeasure(g, rank, w)
  {
    hide PendingWeight, Ranked, Covered, Ordered, SetOf, Callees, AllIn, Checked, AllCalled, CalledFrom, Weight;
    var f := w.parents[|w.parents| - 1];
    AllCalledLast(g, root, w.parents);
    AllCalledMore(g, root, order, f);
    PopKeeps(g, w.parents, SetOf(order));
    OrderMore(g, order, f);
    MoreReturned(g, w.checked, SetOf(order), f);
  }

  // ----- when it ends -----

  /** The part of a graph that the root calls. */
  ghost predicate Part(sub: Graph, g: Graph) {
    sub.Keys <= g.Keys && forall f | f in sub :: sub[f] == g[f]
  }

  lemma SameRound(sub: Graph, g: Graph, w: Walk)
    requires Part(sub, g) && AllIn(sub, w.pending) && AllIn(g, w.pending) && !Done(w)
    ensures Round(g, w) == Round(sub, w)
  {
    if w.pending != [] { assert w.pending[|w.pending| - 1] in w.pending; }
  }

  ghost function CalledPart(g: Graph, root: nat): Graph {
    map f | f in g && CalledFrom(g, root, f) :: g[f]
  }

  lemma PartClosed(g: Graph, root: nat)
    requires Closed(g) && root in g
    ensures var sub := CalledPart(g, root); Part(sub, g) && Closed(sub) && root in sub
  {
    hide CalledFrom;
    RootCalled(g, root);
    var sub := CalledPart(g, root);
    forall f, c | f in sub && c in Callees(sub, f)
      ensures c in sub
    {
      assert Callees(sub, f) == Callees(g, f);
      CalleeCalled(g, root, f, c);
    }
  }

  /** A circle of calls that root calls into. */
  ghost predicate Recursive(g: Graph, root: nat) {
    exists circle, f :: CallsInto(g, root, circle, f)
  }

  ghost predicate CallsInto(g: Graph, root: nat, circle: set<nat>, f: nat) {
    Circle(g, circle) && f in circle && CalledFrom(g, root, f)
  }

  lemma PartCircle(g: Graph, root: nat, circle: set<nat>)
    requires Circle(CalledPart(g, root), circle)
    ensures Recursive(g, root)
  {
    hide CalledFrom;
    var sub := CalledPart(g, root);
    forall f | f in circle
      ensures Callees(g, f) * circle != {}
    {
      assert Callees(sub, f) == Callees(g, f);
    }
    assert Circle(g, circle);
    var f :| f in circle;
    assert f in sub;
    assert CallsInto(g, root, circle, f);
  }

  /** Without one, the part that root calls has ranks. */
  lemma PartRanked(g: Graph, root: nat) returns (rank: map<nat, nat>)
    requires Closed(g) && root in g && !Recursive(g, root)
    ensures Closed(CalledPart(g, root)) && Ranked(CalledPart(g, root), rank)
  {
    hide CalledFrom, Recursive, CalledPart, Circle;
    var sub, circle := CalledPart(g, root), {};
    PartClosed(g, root);
    rank, circle := RanksOrCircle(sub, {}, map[]);
    if !Ranked(sub, rank) { PartCircle(g, root, circle); }
  }

  ghost predicate RankedPart(g: Graph, root: nat, sub: Graph, rank: map<nat, nat>) {
    Closed(g) && Part(sub, g) && Closed(sub) && Ranked(sub, rank) && root in sub
  }

  lemma {:induction false} RoundsKept(g: Graph, sub: Graph, rank: map<nat, nat>, root: nat, n: nat)
    requires RankedPart(g, root, sub, rank)
    ensures var (w, order) := Rounds(g, root, n);
            Inv(sub, rank, root, w, order) && (Done(w) || WalkMeasure(sub, rank, w) + n <= WalkMeasure(sub, rank, Walk([root], [], {})))
    decreases n
  {
    hide WalkMeasure, Inv, Round;
    if n == 0 {
      Begins(sub, rank, root);
    } else {
      RoundsKept(g, sub, rank, root, n - 1);
      var (w, order) := Rounds(g, root, n - 1);
      if !Done(w) { OneRound(g, sub, rank, root, w, order); }
    }
  }

  lemma OneRound(g: Graph, sub: Graph, rank: map<nat, nat>, root: nat, w: Walk, order: seq<nat>)
    requires RankedPart(g, root, sub, rank) && Inv(sub, rank, root, w, order) && !Done(w) && AllIn(g, w.pending)
    ensures var (w1, more) := Round(g, w);
            && Inv(sub, rank, root, w1, order + more) && WalkMeasure(sub, rank, w1) < WalkMeasure(sub, rank, w)
            && AllIn(g, w1.pending) && (Done(w1) ==> more != [])
  {
    assert AllIn(sub, w.pending);
    hide WalkMeasure, Round, Ranked, Covered, Ordered, Checked, AllCalled;
    SameRound(sub, g, w);
    RoundIn(g, w);
    if w.pending != [] { PendingRound(sub, rank, root, w, order); } else { ParentsRound(sub, rank, root, w, order); ParentsReturn(sub, w); }
  }

  lemma ParentsReturn(g: Graph, w: Walk)
    requires AllIn(g, w.pending) && w.pending == [] && w.parents != []
    ensures Round(g, w).1 != []
  {
  }

  /** While one of a circle is pending, one stays pending: it is never a leaf. */
  lemma {:induction false} StaysPending(g: Graph, root: nat, circle: set<nat>, n: nat)
    requires Closed(g) && root in g && Circle(g, circle) && root in circle
    ensures var w := Rounds(g, root, n).0; w.checked !! circle && exists f :: f in circle && f in w.pending
    decreases n
  {
    hide Circle, Round;
    if n == 0 {
      assert root in [root];
    } else {
      StaysPending(g, root, circle, n - 1);
      RoundPending(g, Rounds(g, root, n - 1).0, circle);
    }
  }

  lemma RoundPending(g: Graph, w: Walk, circle: set<nat>)
    requires Closed(g) && AllIn(g, w.pending) && Circle(g, circle) && w.checked !! circle
    requires exists f :: f in circle && f in w.pending
    ensures !Done(w)
    ensures var w1 := Round(g, w).0; w1.checked !! circle && exists f :: f in circle && f in w1.pending
  {
    var f :| f in circle && f in w.pending;
    var node, rest := w.pending[|w.pending| - 1], w.pending[..|w.pending| - 1];
    assert w.pending == rest + [node];
    var w1 := Round(g, w).0;
    if node in circle {
      var c :| c in Callees(g, node) * circle;
      UncheckedIn(g[node], w.checked);
      assert c in Unchecked(g[node], w.checked);
      assert c in w1.pending;
    } else {
      assert f in rest && f in w1.pending;
    }
  }

  /** The way from the root into a circle makes one with the root. */
  lemma CircleWithRoot(g: Graph, root: nat) returns (circle: set<nat>)
    requires Recursive(g, root)
    ensures Circle(g, circle) && root in circle
  {
    var inner, f :| CallsInto(g, root, inner, f);
    var p :| Path(g, p) && p[0] == root && p[|p| - 1] == f;
    circle := inner + SetOf(p);
    forall x | x in circle
      ensures x in g && Callees(g, x) * circle != {}
    {
      if x in inner {
        var c :| c in Callees(g, x) * inner;
        assert c in Callees(g, x) * circle;
      } else {
        var i: nat :| i < |p| && p[i] == x;
        assert p[i + 1] in Callees(g, p[i]) * circle;
      }
    }
  }

  /** The iteration ends if and only if the root does not call into a circle of
      calls. */
  lemma EndsIff(g: Graph, root: nat)
    requires Closed(g) && root in g
    ensures (exists n: nat :: Done(Rounds(g, root, n).0)) <==> !Recursive(g, root)
  {
    if Recursive(g, root) {
      var circle := CircleWithRoot(g, root);
      forall n: nat
        ensures !Done(Rounds(g, root, n).0)
      {
        StaysPending(g, root, circle, n);
      }
    } else {
      hide Recursive, CalledPart, Rounds;
      var rank := PartRanked(g, root);
      var sub := CalledPart(g, root);
      PartClosed(g, root);
      var n := WalkMeasure(sub, rank, Walk([root], [], {}));
      RoundsKept(g, sub, rank, root, n);
      Positive(sub, rank, Rounds(g, root, n).0);
      assert Done(Rounds(g, root, n).0);
    }
  }

  lemma Positive(g: Graph, rank: map<nat, nat>, w: Walk)
    requires Closed(g) && Ranked(g, rank) && AllIn(g, w.pending)
    ensures WalkMeasure(g, rank, w) == 0 ==> Done(w)
  {
    if w.pending != [] {
      assert w.pending[|w.pending| - 1] in w.pending;
    }
  }

  /** A list in callee-first order holds everything that its functions call. */
  lemma {:induction false} CallsReturned(g: Graph, order: seq<nat>, p: seq<nat>, n: nat)
    requires Ordered(g, order) && Path(g, p) && p[0] in SetOf(order) && n < |p|
    ensures p[n] in SetOf(order)
  {
    if n > 0 {
      CallsReturned(g, order, p, n - 1);
      var i: nat :| i < |order| && order[i] == p[n - 1];
      assert p[n - 1 + 1] in Callees(g, p[n - 1]);
      assert p[n] in SetOf(order[..i]);
    }
  }

  /** When it has no more functions, it has returned exactly the root and all that
      it calls. */
  lemma AllReturned(g: Graph, root: nat, order: seq<nat>)
    requires Ordered(g, order) && AllCalled(g, root, order) && root in SetOf(order)
    ensures forall f :: f in SetOf(order) <==> CalledFrom(g, root, f)
  {
    forall f | CalledFrom(g, root, f)
      ensures f in SetOf(order)
    {
      var p :| Path(g, p) && p[0] == root && p[|p| - 1] == f;
      CallsReturned(g, order, p, |p| - 1);
    }
  }

  /** What has been returned when it ends: exactly the functions that root calls, each
      after its callees. */
  lemma AllInOrder(g: Graph, root: nat, n: nat)
    requires Closed(g) && root in g && Done(Rounds(g, root, n).0)
    ensures var order := Rounds(g, root, n).1;
            Ordered(g, order) && forall f :: f in order <==> CalledFrom(g, root, f)
  {
    hide Recursive, CalledFrom, Rounds, Callees, Covered, Checked, Ranked;
    EndsIff(g, root);
    var rank := PartRanked(g, root);
    var sub := CalledPart(g, root);
    PartClosed(g, root);
    RoundsKept(g, sub, rank, root, n);
    var order := Rounds(g, root, n).1;
    PartOrdered(sub, g, order);
    assert forall f | f in order :: f in sub;
    AllReturned(g, root, order);
    assert forall f :: f in SetOf(order) <==> f in order;
  }

  lemma PartOrdered(sub: Graph, g: Graph, order: seq<nat>)
    requires Part(sub, g) && Ordered(sub, order)
    ensures Ordered(g, order) && forall f | f in order :: f in sub
  {
    forall i: nat | i < |order|
      ensures order[i] in sub && Callees(g, order[i]) <= SetOf(order[..i])
    {
      assert Callees(g, order[i]) == Callees(sub, order[i]);
    }
  }

  // ----- the iterator -----

  class CallGraphIterator {
    const graph: Graph
    var pending: seq<nat>
    var parents: seq<nat>
    var alreadyChecked: set<nat>
    ghost const root: nat
    ghost var rounds: nat               // since the iteration began
    ghost var order: seq<nat>           // what was returned so far
    ghost const sub: Graph              // the part that root calls, and its ranks
    ghost const rank: map<nat, nat>

    ghost function Now(): Walk
      reads this
    {
      Walk(pending, parents, alreadyChecked)
    }

    ghost predicate Valid()
      reads this
    {
      RankedPart(graph, root, sub, rank) && root in graph && Rounds(graph, root, rounds) == (Now(), order)
    }

    ghost function Measure(): nat
      requires Valid()
      reads this
    {
      RoundsKept(graph, sub, rank, root, rounds);
      WalkMeasure(sub, rank, Now())
    }

    /** iterate_call_graph */
    constructor (graph: Graph, root: nat)
      requires Closed(graph) && root in graph && !Recursive(graph, root)
      ensures Valid() && this.graph == graph && this.root == root && order == [] && rounds == 0
    {
      PartClosed(graph, root);
      ghost var rank := PartRanked(graph, root);
      this.graph, this.root, this.sub, this.rank := graph, root, CalledPart(graph, root), rank;
      pending, parents, alreadyChecked, order, rounds := [root], [], {}, [], 0;
    }

    /** has_next_call_graph */
    function HasNext(): bool
      reads this
    {
      pending != [] || parents != []
    }

    /** Push the callees of f that are not checked yet. */
    method PushChildren(f: nat, rest: seq<nat>) returns (all: seq<nat>, leaf: bool)
      requires f in graph
      ensures all == rest + Unchecked(graph[f], alreadyChecked) && leaf == (Unchecked(graph[f], alreadyChecked) == [])
    {
      all, leaf := rest, true;
      var children := graph[f];
      for i := 0 to |children|
        invariant all == rest + Unchecked(children[..i], alreadyChecked) && leaf == (Unchecked(children[..i], alreadyChecked) == [])
      {
        assert children[..i + 1][..i] == children[..i];
        if children[i].Some? && children[i].value !in alreadyChecked {
          all := all + [children[i].value];
          leaf := false;
        }
      }
      assert children[..|children|] == children;
    }

    /** next_call_graph: the next function.  The loop ends because the weight of what
        is pending falls, and the error exit behind it is not reached. */
    method Next() returns (f: nat)
      requires Valid() && HasNext()
      modifies this
      ensures Valid() && order == old(order) + [f] && rounds > old(rounds) && Measure() < old(Measure())
    {
      hide RankedPart, Rounds, Inv, Ordered, WalkMeasure, Unchecked, AllIn;
      while pending != []
        invariant Valid() && order == old(order) && HasNext() && rounds >= old(rounds) && Measure() <= old(Measure())
        decreases Measure()
      {
        assert order + [] == order;
        var node, rest := pending[|pending| - 1], pending[..|pending| - 1];
        OneMore();
        if node in alreadyChecked {
          pending := rest;
        } else {
          var all, leaf := PushChildren(node, rest);
          if leaf {
            pending, alreadyChecked := rest, alreadyChecked + {node};
            order, rounds := order + [node], rounds + 1;
            return node;
          }
          pending, parents := all, parents + [node];
        }
        rounds := rounds + 1;
      }
      OneMore();
      f := parents[|parents| - 1];
      parents := parents[..|parents| - 1];
      order, rounds := order + [f], rounds + 1;
    }

    /** The next round keeps what is known and lowers the measure. */
    lemma OneMore()
      requires Valid() && !Done(Now())
      ensures AllIn(graph, Now().pending)
      ensures var (w, more) := Round(graph, Now());
              Rounds(graph, root, rounds + 1) == (w, order + more)
              && (Done(w) ==> more != []) && AllIn(sub, w.pending) && WalkMeasure(sub, rank, w) < Measure()
    {
      RoundsKept(graph, sub, rank, root, rounds);
      OneRound(graph, sub, rank, root, Now(), order);
    }
  }

  /** Every call of a function leads to one that stands before it. */
  ghost predicate CalleesBefore(g: Graph, order: seq<nat>) {
    forall i: nat, k: nat | i < |order| && order[i] in g && k < |g[order[i]]| && g[order[i]][k].Some? ::
      g[order[i]][k].value in order[..i]
  }

  /** Every function but the root is called by another of the list. */
  ghost predicate CallersIn(g: Graph, root: nat, order: seq<nat>) {
    forall f | f in order && f != root :: exists e, k: nat :: e in order && e in g && k < |g[e]| && g[e][k] == Some(f)
  }

  lemma CallsOf(g: Graph, f: nat, c: nat)
    requires f in g
    ensures c in Callees(g, f) <==> exists k: nat :: k < |g[f]| && g[f][k] == Some(c)
  {
    if c in Callees(g, f) {
      var x :| x in g[f] && x.Some? && x.value == c;
      var k: nat :| k < |g[f]| && g[f][k] == x;
    }
  }

  lemma ListedCalls(g: Graph, root: nat, order: seq<nat>)
    requires Ordered(g, order) && forall f :: f in order <==> CalledFrom(g, root, f)
    ensures CalleesBefore(g, order) && CallersIn(g, root, order)
  {
    hide Callees, CalledFrom;
    forall i: nat, k: nat | i < |order| && order[i] in g && k < |g[order[i]]| && g[order[i]][k].Some?
      ensures g[order[i]][k].value in order[..i]
    {
      CallsOf(g, order[i], g[order[i]][k].value);
      assert g[order[i]][k].value in SetOf(order[..i]);
    }
    forall f | f in order && f != root
      ensures exists e, k: nat :: e in order && e in g && k < |g[e]| && g[e][k] == Some(f)
    {
      var e := CallerOf(g, root, f);
      CallsOf(g, e, f);
    }
  }

  lemma CallerOf(g: Graph, root: nat, f: nat) returns (e: nat)
    requires CalledFrom(g, root, f) && f != root
    ensures CalledFrom(g, root, e) && e in g && f in Callees(g, e)
  {
    var p :| Path(g, p) && p[0] == root && p[|p| - 1] == f;
    var n := |p| - 1;
    assert p[n - 1 + 1] in Callees(g, p[n - 1]);
    assert Path(g, p[..n]);
    e := p[n - 1];
  }

  /** Iterate until nothing is left: it ends, having returned what the rounds do. */
  method IterateAll(g: Graph, root: nat) returns (functions: seq<nat>)
    requires Closed(g) && root in g && !Recursive(g, root)
    ensures exists n: nat :: Done(Rounds(g, root, n).0) && functions == Rounds(g, root, n).1
    ensures Ordered(g, functions) && forall f :: f in functions <==> CalledFrom(g, root, f)
    ensures root in functions && CalleesBefore(g, functions) && CallersIn(g, root, functions)
  {
    hide Ordered, CalledFrom, Recursive, Rounds, RankedPart, CalleesBefore, CallersIn;
    var walk := new CallGraphIterator(g, root);
    functions := [];
    while walk.HasNext()
      invariant walk.Valid() && walk.graph == g && walk.root == root && functions == walk.order
      decreases walk.Measure()
    {
      var f := walk.Next();
      functions := functions + [f];
    }
    AllInOrder(g, root, walk.rounds);
    RootCalled(g, root);
    ListedCalls(g, root, functions);
  }

  /** Functions that all call one of themselves are never returned, whatever comes
      out first: the iterator needs a graph without recursion. */
  lemma {:induction false} NeverReturned(g: Graph, order: seq<nat>, n: nat, circle: set<nat>)
    requires Ordered(g, order) && n <= |order| && Circle(g, circle)
    ensures SetOf(order[..n]) !! circle
  {
    if n > 0 {
      NeverReturned(g, order, n - 1, circle);
      assert order[..n] == order[..n - 1] + [order[n - 1]];
      assert Callees(g, order[n - 1]) <= SetOf(order[..n - 1]);
    }
  }

  /** Each of these functions calls one of them. */
  ghost predicate Circle(g: Graph, circle: set<nat>) {
    circle != {} && circle <= g.Keys && forall f | f in circle :: Callees(g, f) * circle != {}
  }

  /** Ranks of the functions of `done`, below |done|. */
  ghost predicate RanksOf(g: Graph, done: set<nat>, rank: map<nat, nat>) {
    && done <= g.Keys && rank.Keys == done
    && forall f | f in done :: rank[f] < |done| && Callees(g, f) <= done && forall c | c in Callees(g, f) && c in done :: rank[c] < rank[f]
  }

  lemma OneMoreRank(g: Graph, done: set<nat>, rank: map<nat, nat>, f: nat)
    requires RanksOf(g, done, rank) && f in g && f !in done && Callees(g, f) <= done
    ensures RanksOf(g, done + {f}, rank[f := |done|])
  {
    hide Callees;
    var more := rank[f := |done|];
    forall x, c | x in done + {f} && c in Callees(g, x)
      ensures c in done && more[c] < more[x]
    {
      assert c in done;
    }
    assert forall x | x in done :: more[x] == rank[x];
  }

  lemma LeftIsCircle(g: Graph, done: set<nat>)
    requires Closed(g) && done < g.Keys && forall f | f in g && f !in done :: !(Callees(g, f) <= done)
    ensures Circle(g, g.Keys - done)
  {
    hide Callees;
    var left := g.Keys - done;
    forall f | f in left
      ensures Callees(g, f) * left != {}
    {
      var c :| c in Callees(g, f) && c !in done;
      assert c in Callees(g, f) * left;
    }
  }

  lemma AllRanked(g: Graph, done: set<nat>, rank: map<nat, nat>)
    requires RanksOf(g, done, rank)
    ensures done <= g.Keys && (done == g.Keys ==> Ranked(g, rank))
  {
    hide Callees;
  }

  lemma FewerLeft(all: set<nat>, done: set<nat>, f: nat)
    requires f in all && f !in done
    ensures |all - (done + {f})| < |all - done|
  {
    assert all - done == (all - (done + {f})) + {f};
  }

  /** A call graph has ranks or a circle: there is no third case. */
  lemma {:induction false} RanksOrCircle(g: Graph, done: set<nat>, ranks: map<nat, nat>) returns (rank: map<nat, nat>, circle: set<nat>)
    requires Closed(g) && RanksOf(g, done, ranks)
    ensures Ranked(g, rank) || Circle(g, circle)
    decreases |g.Keys - done|
  {
    hide RanksOf, Closed, Ranked, Circle, Callees;
    rank, circle := ranks, g.Keys - done;
    AllRanked(g, done, ranks);
    if done == g.Keys {
    } else if f :| f in g && f !in done && Callees(g, f) <= done {
      OneMoreRank(g, done, ranks, f);
      FewerLeft(g.Keys, done, f);
      rank, circle := RanksOrCircle(g, done + {f}, ranks[f := |done|]);
    } else {
      LeftIsCircle(g, done);
    }
  }

  lemma Popped(g: Graph, rank: map<nat, nat>, rest: seq<nat>, f: nat)
    requires Closed(g) && Ranked(g, rank) && AllIn(g, rest + [f])
    ensures AllIn(g, rest) && f in g
    ensures PendingWeight(g, rank, rest + [f]) == PendingWeight(g, rank, rest) + Weight(g, rank, f) && Weight(g, rank, f) > 0
  {
    assert forall x | x in rest :: x in rest + [f];
    assert f in rest + [f];
    PushWeight(g, rank, rest, f);
  }
}
