// The young generation's allocator between two collections: threads claim runs of
// blocks with a compare-and-swap on a shared pointer and bump a pointer of their
// own inside them.
module EdenAllocator {
  import opened Wrappers

  datatype Config = Config(start: nat, end: nat, blockSize: nat)

  /** A claimed run of blocks, and who claimed it. */
  datatype Claim = Claim(start: nat, end: nat, owner: nat)

  datatype Object = Object(start: nat, size: nat, claim: nat)

  /** What a thread is doing for an object of `size` bytes. */
  datatype Pc =
    | Idle
    | Loading(size: nat, nBlocks: nat)              // about to load the shared pointer
    | Swapping(size: nat, nBlocks: nat, seen: nat)  // about to compare and swap
    | Claimed(size: nat, claim: nat)                // about to use the new block
    | Full(size: nat)                               // no room: a collection is due

  /** A thread's block: the claim it is, and the first free byte. */
  datatype Block = Block(claim: nat, current: nat)

  datatype Thread = Thread(pc: Pc, block: Option<Block>)

  datatype State = State(current: nat, threads: seq<Thread>, claims: seq<Claim>, objects: seq<Object>)

  /** ceil(size / blockSize) */
  function Blocks(c: Config, size: nat): nat
    requires c.blockSize > 0
  {
    (size + c.blockSize - 1) / c.blockSize
  }

  ghost predicate Init(c: Config, s: State) {
    s.current == c.start && s.claims == [] && s.objects == [] && forall t | t in s.threads :: t == Thread(Idle, None)
  }

  function End(s: State, b: Block): nat
    requires b.claim < |s.claims|
  {
    s.claims[b.claim].end
  }

  /** can_allocate_object_in_block_eden */
  predicate CanAllocate(s: State, b: Option<Block>, size: nat)
    requires b.Some? ==> b.value.claim < |s.claims|
  {
    b.Some? && b.value.current + size <= End(s, b.value)
  }

  /** allocate_object_in_block_eden */
  function Bump(s: State, t: nat, b: Block, size: nat): State
    requires t < |s.threads|
  {
    s.(threads := s.threads[t := Thread(Idle, Some(b.(current := b.current + size)))],
       objects := s.objects + [Object(b.current, size, b.claim)])
  }

  /** A step of thread t; `size` is what it asks for when it is idle. */
  ghost predicate Step(c: Config, s: State, t: nat, size: nat, r: State)
    requires c.blockSize > 0 && t < |s.threads|
  {
    var b := s.threads[t].block;
    match s.threads[t].pc
    case Idle =>
      size > 0 && (b.Some? ==> b.value.claim < |s.claims|)
      && r == if CanAllocate(s, b, size) then Bump(s, t, b.value, size)
              else s.(threads := s.threads[t := Thread(Loading(size, Blocks(c, size)), b)])
    case Loading(n, k) => r == s.(threads := s.threads[t := Thread(Swapping(n, k, s.current), b)])
    case Swapping(n, k, seen) =>
      var next := seen + k * c.blockSize;
      r == if next > c.end then s.(threads := s.threads[t := Thread(Full(n), b)])
           else if s.current == seen then
             s.(current := next, claims := s.claims + [Claim(seen, next, t)],
                threads := s.threads[t := Thread(Claimed(n, |s.claims|), b)])
           else s.(threads := s.threads[t := Thread(Loading(n, k), b)])
    case Claimed(n, k) => k < |s.claims| && r == Bump(s, t, Block(k, s.claims[k].start), n)
    case Full(_) => false
  }

  ghost predicate IsRun(c: Config, run: seq<State>)
    requires c.blockSize > 0
  {
    && |run| > 0 && Init(c, run[0])
    && forall i: nat | i < |run| - 1 :: Next(c, run[i], run[i + 1])
  }

  ghost predicate Next(c: Config, s: State, r: State)
    requires c.blockSize > 0
  {
    exists t: nat, size: nat :: t < |s.threads| && Step(c, s, t, size, r)
  }

  // ----- invariants -----

  /** Where the claim after the first i begins. */
  function Edge(c: Config, claims: seq<Claim>, i: nat): nat
    requires i <= |claims|
  {
    if i == 0 then c.start else claims[i - 1].end
  }

  /** The claims tile the space up to the shared pointer, in the order of the
      swaps. */
  ghost predicate Tiled(c: Config, s: State) {
    && (forall i: nat | i < |s.claims| :: s.claims[i].start == Edge(c, s.claims, i) < s.claims[i].end)
    && s.current == Edge(c, s.claims, |s.claims|)
    && (s.claims != [] ==> s.current <= c.end)
  }

  /** A thread works in a block it claimed itself. */
  ghost predicate ThreadOk(c: Config, s: State, t: nat)
    requires t < |s.threads| && c.blockSize > 0
  {
    && (s.threads[t].block.Some? ==> BlockOk(s, t, s.threads[t].block.value))
    && match s.threads[t].pc
       case Loading(n, k) => n > 0 && k == Blocks(c, n)
       case Swapping(n, k, _) => n > 0 && k == Blocks(c, n)
       case Claimed(n, k) => ClaimOk(s, t, n, k)
       case _ => true
  }

  ghost predicate BlockOk(s: State, t: nat, b: Block) {
    && b.claim < |s.claims| && s.claims[b.claim].owner == t
    && s.claims[b.claim].start <= b.current <= s.claims[b.claim].end
    && forall o | o in s.objects && o.claim == b.claim :: o.start + o.size <= b.current
  }

  /** A claim that is not used yet: it is large enough, and newer than the thread's
      block. */
  ghost predicate ClaimOk(s: State, t: nat, n: nat, k: nat)
    requires t < |s.threads|
  {
    && n > 0 && k < |s.claims| && s.claims[k].owner == t && s.claims[k].start + n <= s.claims[k].end
    && (forall o | o in s.objects :: o.claim != k)
    && (s.threads[t].block.Some? ==> s.threads[t].block.value.claim != k)
  }

  /** Objects lie in their claims and do not overlap. */
  ghost predicate ObjectsOk(s: State) {
    && (forall i: nat | i < |s.objects| :: InClaim(s, s.objects[i]))
    && forall i: nat, j: nat | i < j < |s.objects| :: Apart(s.objects[i], s.objects[j])
  }

  ghost predicate InClaim(s: State, o: Object) {
    o.size > 0 && o.claim < |s.claims| && s.claims[o.claim].start <= o.start && o.start + o.size <= s.claims[o.claim].end
  }

  predicate Apart(a: Object, b: Object) {
    a.start + a.size <= b.start || b.start + b.size <= a.start
  }

  ghost predicate Inv(c: Config, s: State)
    requires c.blockSize > 0
  {
    Tiled(c, s) && ObjectsOk(s) && forall t: nat | t < |s.threads| :: ThreadOk(c, s, t)
  }

  lemma EdgeIs(c: Config, claims: seq<Claim>, i: nat)
    requires 0 < i <= |claims|
    ensures Edge(c, claims, i) == claims[i - 1].end
  {
  }

  lemma {:induction false} ClaimsOrdered(c: Config, s: State, i: nat, j: nat)
    requires Tiled(c, s) && i < j < |s.claims|
    ensures s.claims[i].end <= s.claims[j].start
    decreases j - i
  {
    hide Edge;
    EdgeIs(c, s.claims, j);
    if i + 1 < j {
      ClaimsOrdered(c, s, i, j - 1);
      assert s.claims[j - 1].start < s.claims[j - 1].end;
    }
  }

  /** n blocks are enough for the object. */
  lemma Enough(c: Config, size: nat)
    requires c.blockSize > 0 && size > 0
    ensures Blocks(c, size) > 0 && size <= Blocks(c, size) * c.blockSize
  {
    var n, b := size + c.blockSize - 1, c.blockSize;
    assert n == n / b * b + n % b;
    Positive(n / b, b);
  }

  lemma Positive(k: int, b: int)
    requires b > 0
    ensures k * b > 0 ==> k > 0
  {
    if k <= 0 { assert k * b <= 0; }
  }

  /** Objects of different claims are apart. */
  lemma ClaimsApart(c: Config, s: State, a: Object, b: Object)
    requires Tiled(c, s) && InClaim(s, a) && InClaim(s, b) && a.claim != b.claim
    ensures Apart(a, b)
  {
    if a.claim < b.claim {
      ClaimsOrdered(c, s, a.claim, b.claim);
    } else {
      ClaimsOrdered(c, s, b.claim, a.claim);
    }
  }

  lemma BumpObjects(c: Config, s: State, t: nat, b: Block, size: nat)
    requires Tiled(c, s) && ObjectsOk(s) && t < |s.threads| && size > 0
    requires BlockOk(s, t, b) && b.current + size <= End(s, b)
    ensures ObjectsOk(Bump(s, t, b, size))
  {
    hide Tiled;
    var r, o := Bump(s, t, b, size), Object(b.current, size, b.claim);
    forall i: nat | i < |s.objects|
      ensures Apart(s.objects[i], o)
    {
      assert InClaim(s, s.objects[i]) && InClaim(s, o);
      if s.objects[i].claim == b.claim {
        assert s.objects[i] in s.objects;
      } else {
        ClaimsApart(c, s, s.objects[i], o);
      }
    }
    forall i: nat | i < |r.objects|
      ensures InClaim(r, r.objects[i])
    {
      assert InClaim(s, r.objects[i]);
    }
  }

  lemma BumpThreads(c: Config, s: State, t: nat, b: Block, size: nat, u: nat)
    requires c.blockSize > 0 && t < |s.threads| && u < |s.threads| && size > 0 && ThreadOk(c, s, u)
    requires BlockOk(s, t, b) && b.current + size <= End(s, b)
    ensures ThreadOk(c, Bump(s, t, b, size), u)
  {
    hide Blocks;
    var r, o := Bump(s, t, b, size), Object(b.current, size, b.claim);
    if u == t {
      forall x | x in r.objects && x.claim == b.claim
        ensures x.start + x.size <= b.current + size
      {
        assert x in s.objects || x == o;
      }
    }
  }

  /** A new object at the free end of the thread's block. */
  lemma BumpKeeps(c: Config, s: State, t: nat, b: Block, size: nat)
    requires c.blockSize > 0 && Inv(c, s) && t < |s.threads| && size > 0
    requires BlockOk(s, t, b) && b.current + size <= End(s, b)
    ensures Inv(c, Bump(s, t, b, size))
  {
    TiledSame(c, s, Bump(s, t, b, size));
    BumpObjects(c, s, t, b, size);
    hide ObjectsOk, ThreadOk, BlockOk, Tiled;
    forall u: nat | u < |s.threads|
      ensures ThreadOk(c, Bump(s, t, b, size), u)
    {
      BumpThreads(c, s, t, b, size, u);
    }
  }

  /** The swap succeeded: a new claim behind the others. */
  lemma SwapKeeps(c: Config, s: State, t: nat, n: nat, k: nat, r: State)
    requires c.blockSize > 0 && Inv(c, s) && t < |s.threads| && s.threads[t].pc.Swapping?
    requires s.threads[t].pc == Swapping(n, k, s.current) && s.current + k * c.blockSize <= c.end
    requires r == s.(current := s.current + k * c.blockSize, claims := s.claims + [Claim(s.current, s.current + k * c.blockSize, t)],
                     threads := s.threads[t := Thread(Claimed(n, |s.claims|), s.threads[t].block)])
    ensures Inv(c, r)
  {
    assert ThreadOk(c, s, t);
    Enough(c, n);
    TiledMore(c, s, r, t);
    ObjectsSame(s, r);
    NoObjectYet(s, |s.claims|);
    hide Tiled, Blocks, ObjectsOk;
    forall u: nat | u < |s.threads|
      ensures ThreadOk(c, r, u)
    {
      assert ThreadOk(c, s, u);
    }
  }

  lemma TiledSame(c: Config, s: State, r: State)
    requires Tiled(c, s) && r.claims == s.claims && r.current == s.current
    ensures Tiled(c, r)
  {
    hide Edge;
  }

  lemma TiledMore(c: Config, s: State, r: State, t: nat)
    requires Tiled(c, s) && s.current < r.current <= c.end && r.claims == s.claims + [Claim(s.current, r.current, t)]
    ensures Tiled(c, r)
  {
    hide Edge;
    forall i: nat | i < |r.claims|
      ensures r.claims[i].start == Edge(c, r.claims, i) < r.claims[i].end
    {
      SameEdge(c, s.claims, r.claims, i);
      if i < |s.claims| { assert r.claims[i] == s.claims[i]; }
    }
    EdgeIs(c, r.claims, |r.claims|);
  }

  lemma SameEdge(c: Config, a: seq<Claim>, b: seq<Claim>, i: nat)
    requires a <= b && i <= |a|
    ensures Edge(c, b, i) == Edge(c, a, i)
  {
  }

  lemma ObjectsSame(s: State, r: State)
    requires ObjectsOk(s) && r.objects == s.objects && s.claims <= r.claims
    ensures ObjectsOk(r)
  {
    forall i: nat | i < |r.objects|
      ensures InClaim(r, r.objects[i])
    {
      assert InClaim(s, r.objects[i]);
    }
  }

  lemma NoObjectYet(s: State, k: nat)
    requires ObjectsOk(s) && k >= |s.claims|
    ensures forall o | o in s.objects :: o.claim != k
  {
    forall o | o in s.objects
      ensures o.claim != k
    {
      var i: nat :| i < |s.objects| && s.objects[i] == o;
      assert InClaim(s, s.objects[i]);
    }
  }

  /** Only the program counter of t moved. */
  lemma MoveKeeps(c: Config, s: State, t: nat, p: Pc)
    requires c.blockSize > 0 && Inv(c, s) && t < |s.threads|
    requires match p
             case Loading(n, k) => n > 0 && k == Blocks(c, n)
             case Swapping(n, k, _) => n > 0 && k == Blocks(c, n)
             case Claimed(_, _) => false
             case _ => true
    ensures Inv(c, s.(threads := s.threads[t := Thread(p, s.threads[t].block)]))
  {
    hide Blocks;
    var r := s.(threads := s.threads[t := Thread(p, s.threads[t].block)]);
    TiledSame(c, s, r);
    ObjectsSame(s, r);
    hide Tiled, ObjectsOk;
    forall u: nat | u < |s.threads|
      ensures ThreadOk(c, r, u)
    {
      assert ThreadOk(c, s, u);
    }
  }

  lemma StepKeeps(c: Config, s: State, t: nat, size: nat, r: State)
    requires c.blockSize > 0 && Inv(c, s) && t < |s.threads| && Step(c, s, t, size, r)
    ensures Inv(c, r)
  {
    assert ThreadOk(c, s, t);
    hide Inv, Blocks, BlockOk, Bump;
    var b := s.threads[t].block;
    match s.threads[t].pc
    case Idle =>
      if CanAllocate(s, b, size) {
        BumpKeeps(c, s, t, b.value, size);
      } else {
        MoveKeeps(c, s, t, Loading(size, Blocks(c, size)));
      }
    case Loading(n, k) => MoveKeeps(c, s, t, Swapping(n, k, s.current));
    case Swapping(n, k, seen) =>
      if seen + k * c.blockSize > c.end {
        MoveKeeps(c, s, t, Full(n));
      } else if s.current == seen {
        SwapKeeps(c, s, t, n, k, r);
      } else {
        MoveKeeps(c, s, t, Loading(n, k));
      }
    case Claimed(n, k) => UseKeeps(c, s, t, n, k);
    case Full(_) =>
  }

  /** The first object of a new block. */
  lemma UseKeeps(c: Config, s: State, t: nat, n: nat, k: nat)
    requires c.blockSize > 0 && Inv(c, s) && t < |s.threads| && ClaimOk(s, t, n, k)
    ensures Inv(c, Bump(s, t, Block(k, s.claims[k].start), n))
  {
    hide Inv;
    BumpKeeps(c, s, t, Block(k, s.claims[k].start), n);
  }

  // ----- every run -----

  lemma InitOk(c: Config, s: State)
    requires c.blockSize > 0 && Init(c, s)
    ensures Inv(c, s)
  {
    forall t: nat | t < |s.threads|
      ensures ThreadOk(c, s, t)
    {
      assert s.threads[t] in s.threads;
    }
  }

  lemma {:induction false} EveryRun(c: Config, run: seq<State>, i: nat)
    requires c.blockSize > 0 && IsRun(c, run) && i < |run|
    ensures Inv(c, run[i])
    decreases i
  {
    hide Step;
    if i == 0 {
      InitOk(c, run[0]);
    } else {
      EveryRun(c, run, i - 1);
      assert Next(c, run[i - 1], run[i - 1 + 1]);
      var t: nat, size: nat :| t < |run[i - 1].threads| && Step(c, run[i - 1], t, size, run[i]);
      StepKeeps(c, run[i - 1], t, size, run[i]);
    }
  }

  /** Under every interleaving claims are disjoint and tile the space that is used,
      and objects are disjoint and lie in a claim of the thread that made them. */
  lemma AllocationSafe(c: Config, run: seq<State>, i: nat)
    requires c.blockSize > 0 && IsRun(c, run) && i < |run|
    ensures Tiled(c, run[i])
    ensures forall j: nat, k: nat | j < k < |run[i].claims| :: run[i].claims[j].end <= run[i].claims[k].start
    ensures forall j: nat, k: nat | j < k < |run[i].objects| :: Apart(run[i].objects[j], run[i].objects[k])
    ensures forall j: nat | j < |run[i].objects| :: InClaim(run[i], run[i].objects[j])
  {
    EveryRun(c, run, i);
    forall j: nat, k: nat | j < k < |run[i].claims|
      ensures run[i].claims[j].end <= run[i].claims[k].start
    {
      ClaimsOrdered(c, run[i], j, k);
    }
  }

  // ----- what an allocation comes to -----

  /** k is the least number of blocks that hold n bytes. */
  ghost predicate Needs(c: Config, n: nat, k: nat) {
    k * c.blockSize >= n && forall j: nat | j * c.blockSize >= n :: k <= j
  }

  lemma BlocksNeeded(c: Config, n: nat, k: nat)
    requires c.blockSize > 0 && n > 0 && Needs(c, n, k)
    ensures k == Blocks(c, n)
  {
    var b, q := c.blockSize, Blocks(c, n);
    Enough(c, n);
    var m := n + b - 1;
    assert m == m / b * b + m % b;
    if k < q {
      Below(k, q, b);
    }
  }

  lemma Below(k: nat, q: nat, b: nat)
    requires k < q
    ensures k * b <= q * b - b
  {
    assert (q - k) * b == q * b - k * b;
    assert (q - k) * b >= 1 * b by { Scaled(1, q - k, b); }
  }

  lemma Scaled(i: nat, j: nat, b: nat)
    requires i <= j
    ensures i * b <= j * b
  {
    if i < j { assert j * b == i * b + (j - i) * b; }
  }

  /** A thread whose own block has room takes it from there, in one step and without a
      claim; any other begins to claim. */
  lemma AllocatesInBlock(c: Config, s: State, t: nat, n: nat, r: State)
    requires c.blockSize > 0 && Inv(c, s) && t < |s.threads| && s.threads[t].pc == Idle && Step(c, s, t, n, r)
    ensures r.claims == s.claims && r.current == s.current && |r.threads| == |s.threads|
    ensures forall u: nat | u < |s.threads| && u != t :: r.threads[u] == s.threads[u]
    ensures var b := s.threads[t].block;
            if b.Some? && b.value.current + n <= s.claims[b.value.claim].end then
              && r.objects == s.objects + [Object(b.value.current, n, b.value.claim)]
              && r.threads[t] == Thread(Idle, Some(Block(b.value.claim, b.value.current + n)))
            else
              r.objects == s.objects && r.threads[t].block == b && r.threads[t].pc.Loading? && r.threads[t].pc.size == n
  {
    assert ThreadOk(c, s, t);
    hide Blocks;
  }

  lemma LoadStep(c: Config, s: State, t: nat, size: nat, r: State)
    requires c.blockSize > 0 && Inv(c, s) && t < |s.threads| && s.threads[t].pc.Loading? && Step(c, s, t, size, r)
    ensures forall k: nat | Needs(c, s.threads[t].pc.size, k) ::
              r == s.(threads := s.threads[t := Thread(Swapping(s.threads[t].pc.size, k, s.current), s.threads[t].block)])
  {
    assert ThreadOk(c, s, t);
    forall k: nat | Needs(c, s.threads[t].pc.size, k)
      ensures k == Blocks(c, s.threads[t].pc.size)
    {
      BlocksNeeded(c, s.threads[t].pc.size, k);
    }
    hide Blocks, Needs, Inv;
  }

  lemma SwapStep(c: Config, s: State, t: nat, n: nat, k: nat, size: nat, r: State)
    requires c.blockSize > 0 && t < |s.threads| && s.threads[t].pc == Swapping(n, k, s.current) && Step(c, s, t, size, r)
    ensures var next, b := s.current + k * c.blockSize, s.threads[t].block;
            r == if next > c.end then s.(threads := s.threads[t := Thread(Full(n), b)])
                 else State(next, s.threads[t := Thread(Claimed(n, |s.claims|), b)], s.claims + [Claim(s.current, next, t)], s.objects)
  {
  }

  lemma UseStep(c: Config, s: State, t: nat, n: nat, k: nat, size: nat, r: State)
    requires c.blockSize > 0 && t < |s.threads| && s.threads[t].pc == Claimed(n, k) && Step(c, s, t, size, r)
    ensures k < |s.claims|
    ensures var from := s.claims[k].start;
            r == State(s.current, s.threads[t := Thread(Idle, Some(Block(k, from + n)))], s.claims, s.objects + [Object(from, n, k)])
  {
  }

  /** As long as the blocks needed fit what is left, a thread that is left alone claims
      them, right behind the others, and has its object three steps later. */
  lemma Claims(c: Config, s: State, t: nat, n: nat, k: nat, size: nat, s1: State, s2: State, s3: State)
    requires c.blockSize > 0 && Inv(c, s) && t < |s.threads| && s.threads[t].pc.Loading? && s.threads[t].pc.size == n
    requires Needs(c, n, k) && s.current + k * c.blockSize <= c.end
    requires Step(c, s, t, size, s1)
    requires t < |s1.threads| && Step(c, s1, t, size, s2)
    requires t < |s2.threads| && Step(c, s2, t, size, s3)
    ensures s3.current == s.current + k * c.blockSize
    ensures s3.claims == s.claims + [Claim(s.current, s.current + k * c.blockSize, t)]
    ensures s3.objects == s.objects + [Object(s.current, n, |s.claims|)]
    ensures s3.threads == s.threads[t := Thread(Idle, Some(Block(|s.claims|, s.current + n)))]
  {
    hide Step, Needs, Inv;
    LoadStep(c, s, t, size, s1);
    SwapStep(c, s1, t, n, k, size, s2);
    UseStep(c, s2, t, n, |s.claims|, size, s3);
  }

  /** If they do not, it knows two steps later, and has changed nothing. */
  lemma Refused(c: Config, s: State, t: nat, n: nat, k: nat, size: nat, s1: State, s2: State)
    requires c.blockSize > 0 && Inv(c, s) && t < |s.threads| && s.threads[t].pc.Loading? && s.threads[t].pc.size == n
    requires Needs(c, n, k) && s.current + k * c.blockSize > c.end
    requires Step(c, s, t, size, s1)
    requires t < |s1.threads| && Step(c, s1, t, size, s2)
    ensures s2 == s.(threads := s.threads[t := Thread(Full(n), s.threads[t].block)])
  {
    hide Step, Needs, Inv;
    LoadStep(c, s, t, size, s1);
    SwapStep(c, s1, t, n, k, size, s2);
  }

  /** Until it is refused, a thread can always take its next step. */
  lemma NeverStuck(c: Config, s: State, t: nat, size: nat) returns (r: State)
    requires c.blockSize > 0 && Inv(c, s) && t < |s.threads| && !s.threads[t].pc.Full? && size > 0
    ensures |r.threads| == |s.threads| && Step(c, s, t, size, r) && Inv(c, r)
  {
    assert ThreadOk(c, s, t);
    hide Blocks, Inv;
    var b := s.threads[t].block;
    match s.threads[t].pc {
      case Idle =>
        r := if CanAllocate(s, b, size) then Bump(s, t, b.value, size)
             else s.(threads := s.threads[t := Thread(Loading(size, Blocks(c, size)), b)]);
      case Loading(n, k) => r := s.(threads := s.threads[t := Thread(Swapping(n, k, s.current), b)]);
      case Swapping(n, k, seen) =>
        var next := seen + k * c.blockSize;
        r := if next > c.end then s.(threads := s.threads[t := Thread(Full(n), b)])
             else if s.current == seen then
             s.(current := next, claims := s.claims + [Claim(seen, next, t)],
                threads := s.threads[t := Thread(Claimed(n, |s.claims|), b)])
             else s.(threads := s.threads[t := Thread(Loading(n, k), b)]);
      case Claimed(n, k) => r := Bump(s, t, Block(k, s.claims[k].start), n);
    }
    StepKeeps(c, s, t, size, r);
  }

  /** What a thread that asks for n bytes comes to after the steps `rest` of its own:
      it has its object in a new claim, or is refused. */
  ghost predicate Decided(c: Config, s: State, t: nat, n: nat, k: nat, rest: seq<State>)
    requires t < |s.threads|
  {
    if s.current + k * c.blockSize <= c.end then
      && |rest| == 3 && rest[2].objects == s.objects + [Object(s.current, n, |s.claims|)]
      && rest[2].claims == s.claims + [Claim(s.current, s.current + k * c.blockSize, t)]
      && rest[2].threads == s.threads[t := Thread(Idle, Some(Block(|s.claims|, s.current + n)))]
    else
      |rest| == 2 && rest[1] == s.(threads := s.threads[t := Thread(Full(n), s.threads[t].block)])
  }

  /** In every reachable state: left alone, a thread that asks for n bytes gets them if
      the blocks they need fit what is left, and is refused if they do not. */
  lemma AllocationDecided(c: Config, run: seq<State>, i: nat, t: nat, n: nat, k: nat) returns (rest: seq<State>)
    requires c.blockSize > 0 && IsRun(c, run) && i < |run| && t < |run[i].threads|
    requires run[i].threads[t].pc.Loading? && run[i].threads[t].pc.size == n && Needs(c, n, k)
    ensures Alone(c, t, [run[i]] + rest) && Decided(c, run[i], t, n, k, rest)
  {
    EveryRun(c, run, i);
    hide Needs, Inv, Alone, Decided, IsRun;
    if run[i].current + k * c.blockSize <= c.end {
      rest := GetsBlock(c, run[i], t, n, k);
    } else {
      rest := IsRefused(c, run[i], t, n, k);
    }
  }

  lemma GetsBlock(c: Config, s: State, t: nat, n: nat, k: nat) returns (rest: seq<State>)
    requires c.blockSize > 0 && Inv(c, s) && t < |s.threads| && s.threads[t].pc.Loading? && s.threads[t].pc.size == n
    requires Needs(c, n, k) && s.current + k * c.blockSize <= c.end
    ensures Alone(c, t, [s] + rest) && Decided(c, s, t, n, k, rest)
  {
    hide Step, Needs, Inv, Alone;
    var s1 := NeverStuck(c, s, t, 1);
    LoadStep(c, s, t, 1, s1);
    var s2 := NeverStuck(c, s1, t, 1);
    SwapStep(c, s1, t, n, k, 1, s2);
    var s3 := NeverStuck(c, s2, t, 1);
    Claims(c, s, t, n, k, 1, s1, s2, s3);
    ThreeAlone(c, t, s, s1, s2, s3);
    rest := [s1, s2, s3];
    assert [s] + rest == [s, s1, s2, s3];
  }

  lemma IsRefused(c: Config, s: State, t: nat, n: nat, k: nat) returns (rest: seq<State>)
    requires c.blockSize > 0 && Inv(c, s) && t < |s.threads| && s.threads[t].pc.Loading? && s.threads[t].pc.size == n
    requires Needs(c, n, k) && s.current + k * c.blockSize > c.end
    ensures Alone(c, t, [s] + rest) && Decided(c, s, t, n, k, rest)
  {
    hide Step, Needs, Inv, Alone;
    var s1 := NeverStuck(c, s, t, 1);
    LoadStep(c, s, t, 1, s1);
    var s2 := NeverStuck(c, s1, t, 1);
    Refused(c, s, t, n, k, 1, s1, s2);
    TwoAlone(c, t, s, s1, s2);
    rest := [s1, s2];
    assert [s] + rest == [s, s1, s2];
  }

  lemma ThreeAlone(c: Config, t: nat, s: State, s1: State, s2: State, s3: State)
    requires c.blockSize > 0 && t < |s.threads| && t < |s1.threads| && t < |s2.threads|
    requires Step(c, s, t, 1, s1) && Step(c, s1, t, 1, s2) && Step(c, s2, t, 1, s3)
    ensures Alone(c, t, [s, s1, s2, s3])
  {
    hide Step;
  }

  lemma TwoAlone(c: Config, t: nat, s: State, s1: State, s2: State)
    requires c.blockSize > 0 && t < |s.threads| && t < |s1.threads| && Step(c, s, t, 1, s1) && Step(c, s1, t, 1, s2)
    ensures Alone(c, t, [s, s1, s2])
  {
    hide Step;
  }

  /** Only thread t takes steps, and it asks for nothing new. */
  ghost predicate Alone(c: Config, t: nat, run: seq<State>)
    requires c.blockSize > 0
  {
    forall i: nat | i + 1 < |run| :: t < |run[i].threads| && Step(c, run[i], t, 1, run[i + 1])
  }

  // ----- the same among other threads -----

  /** What a thread loaded is not ahead of the shared pointer. */
  ghost predicate SeenOk(s: State) {
    forall t: nat | t < |s.threads| && s.threads[t].pc.Swapping? :: s.threads[t].pc.seen <= s.current
  }

  lemma StepSeen(c: Config, s: State, t: nat, size: nat, r: State)
    requires c.blockSize > 0 && t < |s.threads| && SeenOk(s) && Step(c, s, t, size, r)
    ensures SeenOk(r) && s.current <= r.current && s.claims <= r.claims
    ensures r.claims == s.claims ==> r.current == s.current
  {
    hide Blocks, CanAllocate;
    assert s.threads[t].pc.Swapping? ==> s.threads[t].pc.nBlocks * c.blockSize >= 0;
  }

  lemma {:induction false} SeenInRuns(c: Config, run: seq<State>, i: nat)
    requires c.blockSize > 0 && IsRun(c, run) && i < |run|
    ensures SeenOk(run[i])
    decreases i
  {
    hide Step;
    if i == 0 {
      assert forall t: nat | t < |run[0].threads| :: run[0].threads[t] in run[0].threads;
    } else {
      SeenInRuns(c, run, i - 1);
      assert Next(c, run[i - 1], run[i - 1 + 1]);
      var t: nat, size: nat :| t < |run[i - 1].threads| && Step(c, run[i - 1], t, size, run[i]);
      StepSeen(c, run[i - 1], t, size, run[i]);
    }
  }

  /** Under every interleaving an allocation is refused only when the blocks it needs
      do not fit the space that is left. */
  lemma RefusedOnlyWhenFull(c: Config, run: seq<State>, i: nat, t: nat, n: nat, k: nat, size: nat)
    requires c.blockSize > 0 && IsRun(c, run) && i + 1 < |run|
    requires t < |run[i].threads| && t < |run[i + 1].threads| && Step(c, run[i], t, size, run[i + 1])
    requires run[i + 1].threads[t].pc == Full(n) && Needs(c, n, k)
    ensures run[i].current + k * c.blockSize > c.end && run[i + 1].claims == run[i].claims && run[i + 1].objects == run[i].objects
  {
    var s := run[i];
    EveryRun(c, run, i);
    SeenInRuns(c, run, i);
    assert ThreadOk(c, s, t);
    assert s.threads[t].pc.Swapping? && s.threads[t].pc.size == n;
    BlocksNeeded(c, n, k);
    hide Blocks, Needs, Inv;
  }

  lemma {:induction false} ClaimsGrow(c: Config, run: seq<State>, i: nat, j: nat)
    requires c.blockSize > 0 && IsRun(c, run) && i <= j < |run|
    ensures run[i].claims <= run[j].claims && (run[i].claims == run[j].claims ==> run[i].current == run[j].current)
    decreases j
  {
    hide Step;
    if i < j {
      ClaimsGrow(c, run, i, j - 1);
      SeenInRuns(c, run, j - 1);
      assert Next(c, run[j - 1], run[j - 1 + 1]);
      var t: nat, size: nat :| t < |run[j - 1].threads| && Step(c, run[j - 1], t, size, run[j]);
      StepSeen(c, run[j - 1], t, size, run[j]);
    }
  }

  /** A swap that fails does so because another thread claimed blocks meanwhile: some
      thread always gets on. */
  lemma RetriesForAClaim(c: Config, run: seq<State>, i: nat, j: nat, t: nat, size: nat)
    requires c.blockSize > 0 && IsRun(c, run) && i <= j && j + 1 < |run|
    requires t < |run[i].threads| && t < |run[j].threads| && t < |run[j + 1].threads|
    requires run[i].threads[t].pc.Swapping? && run[i].threads[t].pc.seen == run[i].current
    requires run[j].threads[t].pc == run[i].threads[t].pc
    requires Step(c, run[j], t, size, run[j + 1]) && run[j + 1].threads[t].pc.Loading?
    ensures |run[j].claims| > |run[i].claims|
  {
    ClaimsGrow(c, run, i, j);
    assert run[j].current != run[i].current;
  }
}
