// The mark and sweep collector: a gray stack of marked objects whose references
// are still to be followed, and per-thread heap lists threaded through a word
// that also holds the mark.
module MarkSweep {
  import opened Collections

  const MARK: int := 0x8000_0000_0000_0000

  /** A 64-bit word: the highest bit is the mark, the others are an address. */
  type Word = w: int | 0 <= w < 2 * MARK

  /** Addresses leave the highest bit free; 0 is NULL. */
  type Addr = a: int | 0 <= a < MARK

  const NULL: Addr := 0

  // ----- the word: mark bit and next pointer -----

  function SetUnmarked(w: Word): Word {
    w % MARK
  }

  function SetMarked(w: Word): Word {
    w % MARK + MARK
  }

  predicate IsMarked(w: Word) {
    w / MARK != 0
  }

  function SetNext(w: Word, next: Addr): Word {
    next + w / MARK * MARK
  }

  function NextOf(w: Word): Addr {
    w % MARK
  }

  /** Setting one half of the word leaves the other as it was. */
  lemma MarkBit(w: Word)
    ensures IsMarked(SetMarked(w)) && !IsMarked(SetUnmarked(w))
    ensures NextOf(SetMarked(w)) == NextOf(w) && NextOf(SetUnmarked(w)) == NextOf(w)
    ensures !IsMarked(w) ==> SetUnmarked(SetMarked(w)) == w
  {
  }

  lemma LinkNext(w: Word, next: Addr)
    ensures NextOf(SetNext(w, next)) == next && IsMarked(SetNext(w, next)) == IsMarked(w)
  {
  }

  // ----- objects -----

  datatype LoxValue = Immediate | Ref(a: Addr)

  datatype Object =
    | StringObject(size: nat)
    | FunctionObject(name: Addr, constants: seq<LoxValue>, size: nat)
    | StructInstance(fields: seq<LoxValue>, size: nat)
    | ArrayObject(values: seq<LoxValue>, size: nat)
    | OtherObject(size: nat)

  function SizeOf(o: Object): nat {
    o.size
  }

  type Memory = map<Addr, Object>

  function RefsOf(vs: seq<LoxValue>): set<Addr> {
    set v | v in vs && v.Ref? :: v.a
  }

  /** What an object refers to. */
  function Children(o: Object): set<Addr> {
    match o
    case FunctionObject(name, constants, _) => {name} + RefsOf(constants)
    case StructInstance(fields, _) => RefsOf(fields)
    case ArrayObject(values, _) => RefsOf(values)
    case _ => {}
  }

  ghost predicate Path(h: Memory, p: seq<Addr>) {
    |p| > 0 && forall i | 0 <= i < |p| - 1 :: p[i] in h && p[i + 1] in Children(h[p[i]])
  }

  ghost predicate Reachable(h: Memory, roots: set<Addr>, a: Addr) {
    exists p :: Path(h, p) && p[0] in roots && p[|p| - 1] == a
  }

  lemma RootReachable(h: Memory, roots: set<Addr>, a: Addr)
    requires a in roots
    ensures Reachable(h, roots, a)
  {
    assert Path(h, [a]);
  }

  lemma ChildReachable(h: Memory, roots: set<Addr>, a: Addr, c: Addr)
    requires Reachable(h, roots, a) && a in h && c in Children(h[a])
    ensures Reachable(h, roots, c)
  {
    hide Children;
    var p :| Path(h, p) && p[0] in roots && p[|p| - 1] == a;
    assert Path(h, p + [c]);
  }

  /** No reference leads out of the memory. */
  ghost predicate Closed(h: Memory) {
    forall a | a in h :: Children(h[a]) <= h.Keys
  }

  // ----- heap lists -----

  /** The words link `list` from `head` on. */
  ghost predicate Linked(info: map<Addr, Word>, head: Addr, list: seq<Addr>) {
    && (forall a | a in list :: a in info && a != NULL)
    && head == Nth(list, 0)
    && forall i: nat | i < |list| :: NextOf(info[list[i]]) == Nth(list, i + 1)
  }

  function Nth(list: seq<Addr>, i: nat): Addr {
    if i < |list| then list[i] else NULL
  }

  ghost predicate Distinct(list: seq<Addr>) {
    forall i, j | 0 <= i < j < |list| :: list[i] != list[j]
  }

  function Keep(list: seq<Addr>, live: set<Addr>): seq<Addr> {
    if list == [] then []
    else if list[|list| - 1] in live then Keep(list[..|list| - 1], live) + [list[|list| - 1]]
    else Keep(list[..|list| - 1], live)
  }

  /** Bytes of the objects of a list that are not live. */
  function Dead(h: Memory, list: seq<Addr>, live: set<Addr>): nat
    requires forall a | a in list :: a in h
  {
    if list == [] then 0
    else
      var a := list[|list| - 1];
      Dead(h, list[..|list| - 1], live) + (if a in live then 0 else SizeOf(h[a]))
  }

  lemma {:induction false} KeepIn(list: seq<Addr>, live: set<Addr>)
    ensures forall a :: a in Keep(list, live) <==> a in list && a in live
  {
    if list != [] {
      KeepIn(list[..|list| - 1], live);
    }
  }

  lemma {:induction false} KeepDistinct(list: seq<Addr>, live: set<Addr>)
    requires Distinct(list)
    ensures Distinct(Keep(list, live))
  {
    if list != [] {
      KeepDistinct(list[..|list| - 1], live);
      KeepIn(list[..|list| - 1], live);
    }
  }

  lemma {:induction false} SameKept(list: seq<Addr>, live: set<Addr>, other: set<Addr>)
    requires forall a | a in list :: a in live <==> a in other
    ensures Keep(list, live) == Keep(list, other)
  {
    if list != [] {
      SameKept(list[..|list| - 1], live, other);
    }
  }

  /** Bytes on a list are those that stay and those that go. */
  lemma {:induction false} BytesSplit(h: Memory, list: seq<Addr>, live: set<Addr>)
    requires forall a | a in list :: a in h
    ensures forall a | a in Keep(list, live) :: a in h
    ensures Dead(h, list, {}) == Dead(h, list, live) + Dead(h, Keep(list, live), {})
  {
    KeepIn(list, live);
    if list != [] {
      var n := |list| - 1;
      KeepIn(list[..n], live);
      BytesSplit(h, list[..n], live);
      var kept := Keep(list[..n], live);
      if list[n] in live { assert (kept + [list[n]])[..|kept|] == kept; }
    }
  }

  lemma {:induction false} SameBytes(h: Memory, g: Memory, list: seq<Addr>, live: set<Addr>)
    requires forall a | a in list :: a in h && a in g && h[a] == g[a]
    ensures Dead(h, list, live) == Dead(g, list, live)
  {
    if list != [] {
      SameBytes(h, g, list[..|list| - 1], live);
    }
  }

  lemma {:induction false} SameDead(h: Memory, list: seq<Addr>, live: set<Addr>, other: set<Addr>)
    requires forall a | a in list :: a in h && (a in live <==> a in other)
    ensures Dead(h, list, live) == Dead(h, list, other)
  {
    if list != [] {
      SameDead(h, list[..|list| - 1], live, other);
    }
  }

  /** Unmarking leaves the links alone. */
  lemma UnmarkLinked(info: map<Addr, Word>, head: Addr, list: seq<Addr>, a: Addr)
    requires Linked(info, head, list) && a in info
    ensures Linked(info[a := SetUnmarked(info[a])], head, list)
  {
    hide SetUnmarked, NextOf, Nth;
    MarkBit(info[a]);
  }

  /** The list from its first object on. */
  lemma LinkedHere(info: map<Addr, Word>, head: Addr, kept: seq<Addr>, rest: seq<Addr>)
    requires Linked(info, head, kept + rest) && rest != []
    ensures rest[0] in info && rest[0] != NULL && NextOf(info[rest[0]]) == Nth(rest, 1)
  {
    hide NextOf;
    assert (kept + rest)[|kept|] == rest[0];
    assert Nth(kept + rest, |kept| + 1) == Nth(rest, 1);
  }

  lemma LinkFacts(info: map<Addr, Word>, head: Addr, list: seq<Addr>)
    requires Linked(info, head, list)
    ensures forall i: nat | i < |list| :: list[i] in info && list[i] != NULL && NextOf(info[list[i]]) == Nth(list, i + 1)
  {
    hide NextOf;
  }

  lemma DropFirst(info: map<Addr, Word>, head: Addr, rest: seq<Addr>)
    requires Linked(info, head, rest) && rest != [] && Distinct(rest)
    ensures Linked(info - {rest[0]}, Nth(rest, 1), rest[1..])
  {
    LinkFacts(info, head, rest);
    hide NextOf, Linked, Distinct;
    var less, info1 := rest[1..], info - {rest[0]};
    forall i: nat | i < |less|
      ensures less[i] in info1 && less[i] != NULL && NextOf(info1[less[i]]) == Nth(less, i + 1)
    {
      Differ(rest, 0, i + 1);
      assert less[i] == rest[i + 1] && Nth(less, i + 1) == Nth(rest, i + 1 + 1);
    }
    Relinked(info1, Nth(rest, 1), less);
  }

  /** Linking the object before to the one behind takes an object out. */
  lemma DropInner(info: map<Addr, Word>, head: Addr, kept: seq<Addr>, rest: seq<Addr>)
    requires Linked(info, head, kept + rest) && kept != [] && rest != [] && Distinct(kept + rest)
    ensures var p := kept[|kept| - 1];
            p in info && Linked(info[p := SetNext(info[p], Nth(rest, 1))] - {rest[0]}, head, kept + rest[1..])
  {
    hide Linked, SetNext, Distinct;
    var all, less, k := kept + rest, kept + rest[1..], |kept|;
    Skips(kept, rest);
    assert all[k - 1] in info by { InLinked(info, head, all, k - 1); }
    Unlink(info, head, all, k, less);
  }

  lemma InLinked(info: map<Addr, Word>, head: Addr, list: seq<Addr>, i: nat)
    requires Linked(info, head, list) && i < |list|
    ensures list[i] in info && list[i] != NULL
  {
    hide NextOf;
  }

  lemma Skips(kept: seq<Addr>, rest: seq<Addr>)
    requires kept != [] && rest != []
    ensures var all, less, k := kept + rest, kept + rest[1..], |kept|;
            && all[k - 1] == kept[k - 1] && all[k] == rest[0] && Nth(all, k + 1) == Nth(rest, 1)
            && forall i: nat | i < |less| :: less[i] == all[if i < k then i else i + 1]
  {
  }

  lemma Unlink(info: map<Addr, Word>, head: Addr, all: seq<Addr>, k: nat, less: seq<Addr>)
    requires Linked(info, head, all) && Distinct(all) && 0 < k < |all| && all[k - 1] in info
    requires |less| == |all| - 1 && forall i: nat | i < |less| :: less[i] == all[if i < k then i else i + 1]
    ensures Linked(info[all[k - 1] := SetNext(info[all[k - 1]], Nth(all, k + 1))] - {all[k]}, head, less)
  {
    hide NextOf, SetNext, Distinct;
    var p, after := all[k - 1], Nth(all, k + 1);
    var info1 := info[p := SetNext(info[p], after)] - {all[k]};
    assert forall a | a in info && a != all[k] :: a in info1 && info1[a] == if a == p then SetNext(info[p], after) else info[a];
    assert forall i: nat | i < |all| :: all[i] in info && all[i] != NULL && NextOf(info[all[i]]) == Nth(all, i + 1);
    hide Linked;
    forall i: nat | i < |less|
      ensures less[i] in info1 && less[i] != NULL && NextOf(info1[less[i]]) == Nth(less, i + 1)
    {
      UnlinkAt(info, info1, all, k, less, i);
    }
    Relinked(info1, head, less);
  }

  lemma Relinked(info: map<Addr, Word>, head: Addr, list: seq<Addr>)
    requires head == Nth(list, 0)
    requires forall i: nat | i < |list| :: list[i] in info && list[i] != NULL && NextOf(info[list[i]]) == Nth(list, i + 1)
    ensures Linked(info, head, list)
  {
    hide NextOf;
  }

  lemma NthLess(all: seq<Addr>, k: nat, less: seq<Addr>, i: nat)
    requires 0 < k < |all| && |less| == |all| - 1 && i < |less|
    requires forall i: nat | i < |less| :: less[i] == all[if i < k then i else i + 1]
    ensures Nth(less, i + 1) == Nth(all, if i + 1 < k then i + 1 else i + 2)
  {
  }

  lemma UnlinkAt(info: map<Addr, Word>, info1: map<Addr, Word>, all: seq<Addr>, k: nat, less: seq<Addr>, i: nat)
    requires 0 < k < |all| && all[k - 1] in info && Distinct(all)
    requires |less| == |all| - 1 && (forall i: nat | i < |less| :: less[i] == all[if i < k then i else i + 1]) && i < |less|
    requires var p, after := all[k - 1], Nth(all, k + 1);
             forall a | a in info && a != all[k] :: a in info1 && info1[a] == if a == p then SetNext(info[p], after) else info[a]
    requires forall i: nat | i < |all| :: all[i] in info && all[i] != NULL && NextOf(info[all[i]]) == Nth(all, i + 1)
    ensures less[i] in info1 && less[i] != NULL && NextOf(info1[less[i]]) == Nth(less, i + 1)
  {
    hide NextOf, SetNext, Distinct, Nth;
    LinkNext(info[all[k - 1]], Nth(all, k + 1));
    NthLess(all, k, less, i);
    var j := if i < k then i else i + 1;
    Differ(all, j, k);
    Differ(all, j, k - 1);
    assert less[i] == all[j] && all[j] in info && all[j] in info1;
    if j == k - 1 {
      assert NextOf(info1[all[j]]) == Nth(all, k + 1);
    } else {
      assert info1[all[j]] == info[all[j]];
    }
  }

  lemma Differ(list: seq<Addr>, i: nat, j: nat)
    requires Distinct(list) && i < |list| && j < |list|
    ensures list[i] == list[j] <==> i == j
  {
  }

  // ----- marking -----

  /** Everything the mark phase has reached: `entered` are the objects that went
      on the gray stack, each once, in that order. */
  ghost predicate MarkedFrom(h: Memory, base: map<Addr, Word>, info: map<Addr, Word>, entered: seq<Addr>) {
    && info.Keys == base.Keys == h.Keys
    && Distinct(entered)
    && (forall a | a in entered :: a in h && !IsMarked(base[a]))
    && (forall a | a in h :: info[a] == if a in entered then SetMarked(base[a]) else base[a])
  }

  ghost predicate GrayOk(entered: seq<Addr>, gray: seq<Addr>) {
    Distinct(gray) && forall a | a in gray :: a in entered
  }

  /** All references of `a` lead to marked objects. */
  ghost predicate Scanned(h: Memory, info: map<Addr, Word>, a: Addr) {
    a in h && forall c | c in Children(h[a]) :: c in info && IsMarked(info[c])
  }

  /** The invariant of marking, while the references of `scanning` are followed:
      an object that left the gray stack refers to marked objects only. */
  ghost predicate Tri(h: Memory, base: map<Addr, Word>, info: map<Addr, Word>, entered: seq<Addr>, gray: seq<Addr>,
                      roots: set<Addr>, scanning: set<Addr>) {
    && MarkedFrom(h, base, info, entered)
    && GrayOk(entered, gray)
    && (forall a | a in entered :: Reachable(h, roots, a))
    && (forall a | a in entered && a !in gray && a !in scanning :: Scanned(h, info, a))
  }

  lemma DistinctAdd(list: seq<Addr>, a: Addr)
    requires Distinct(list) && a !in list
    ensures Distinct(list + [a])
  {
  }

  lemma MarkOne(h: Memory, base: map<Addr, Word>, info: map<Addr, Word>, entered: seq<Addr>, gray: seq<Addr>,
                roots: set<Addr>, scanning: set<Addr>, a: Addr)
    requires Tri(h, base, info, entered, gray, roots, scanning)
    requires a in h && !IsMarked(info[a]) && Reachable(h, roots, a)
    ensures Tri(h, base, info[a := SetMarked(info[a])], entered + [a], gray + [a], roots, scanning)
  {
    hide SetMarked, IsMarked, Reachable, Children;
    MarkBit(info[a]);
    assert a !in entered by { if a in entered { MarkBit(base[a]); } }
    var info1 := info[a := SetMarked(info[a])];
    DistinctAdd(entered, a);
    DistinctAdd(gray, a);
    assert MarkedFrom(h, base, info1, entered + [a]) by {
      assert info1.Keys == info.Keys;
      assert info[a] == base[a];
      assert info1[a] == SetMarked(base[a]);
      forall b | b in h
        ensures info1[b] == if b in entered + [a] then SetMarked(base[b]) else base[b]
      {
        assert b in entered + [a] <==> b in entered || b == a;
      }
    }
    forall b | b in entered + [a] && b !in gray + [a] && b !in scanning
      ensures Scanned(h, info1, b)
    {
      assert Scanned(h, info, b);
    }
  }

  /** The last gray object is taken off to be scanned. */
  lemma TakeGray(h: Memory, base: map<Addr, Word>, info: map<Addr, Word>, entered: seq<Addr>, gray: seq<Addr>,
                 roots: set<Addr>)
    requires gray != [] && Tri(h, base, info, entered, gray, roots, {})
    ensures var n := |gray| - 1;
            Tri(h, base, info, entered, gray[..n], roots, {gray[n]}) && gray[n] in h && Reachable(h, roots, gray[n])
            && IsMarked(info[gray[n]])
  {
    hide Reachable, Scanned;
    var n := |gray| - 1;
    assert gray == gray[..n] + [gray[n]];
    MarkBit(base[gray[n]]);
  }

  lemma ScanDone(h: Memory, base: map<Addr, Word>, info: map<Addr, Word>, entered: seq<Addr>, gray: seq<Addr>,
                 roots: set<Addr>, a: Addr)
    requires Tri(h, base, info, entered, gray, roots, {a}) && Scanned(h, info, a)
    ensures Tri(h, base, info, entered, gray, roots, {})
  {
    hide Reachable, Scanned, Distinct;
  }

  lemma EnteredFits(h: Memory, base: map<Addr, Word>, info: map<Addr, Word>, entered: seq<Addr>)
    requires MarkedFrom(h, base, info, entered)
    ensures |entered| <= |h.Keys|
  {
    CountDistinct(entered, h.Keys);
  }

  lemma {:induction false} CountDistinct(entered: seq<Addr>, keys: set<Addr>)
    requires Distinct(entered) && forall a | a in entered :: a in keys
    ensures |entered| <= |keys|
    decreases |entered|
  {
    if entered != [] {
      var n := |entered| - 1;
      CountDistinct(entered[..n], keys - {entered[n]});
    }
  }

  /** An object of a heap list is in `entered` when marking ends exactly when the
      roots reach it: objects outside the lists, which may be marked from before,
      do not refer into the lists. */
  lemma MarkedIsReachable(h: Memory, base: map<Addr, Word>, info: map<Addr, Word>, entered: seq<Addr>, roots: set<Addr>,
                          heap: set<Addr>)
    requires Tri(h, base, info, entered, [], roots, {}) && heap <= h.Keys
    requires forall a | a in roots :: a in h && IsMarked(info[a])
    requires forall a | a in heap :: !IsMarked(base[a])
    requires forall a | a in h && a !in heap :: Children(h[a]) !! heap
    ensures forall a | a in heap :: a in entered <==> Reachable(h, roots, a)
  {
    hide Children, SetMarked, Distinct;
    forall a | a in heap && Reachable(h, roots, a)
      ensures a in entered
    {
      var p :| Path(h, p) && p[0] in roots && p[|p| - 1] == a;
      PathMarked(h, base, info, entered, roots, heap, p);
    }
  }

  lemma {:induction false} PathMarked(h: Memory, base: map<Addr, Word>, info: map<Addr, Word>, entered: seq<Addr>,
                                      roots: set<Addr>, heap: set<Addr>, p: seq<Addr>)
    requires Tri(h, base, info, entered, [], roots, {}) && heap <= h.Keys
    requires forall a | a in roots :: a in h && IsMarked(info[a])
    requires forall a | a in heap :: !IsMarked(base[a])
    requires forall a | a in h && a !in heap :: Children(h[a]) !! heap
    requires Path(h, p) && p[0] in roots && p[|p| - 1] in heap
    ensures p[|p| - 1] in entered
    decreases |p|
  {
    hide Children, SetMarked, Distinct;
    var a := p[|p| - 1];
    if |p| > 1 {
      var q := p[..|p| - 1];
      var b := q[|q| - 1];
      assert a in Children(h[b]);
      PathMarked(h, base, info, entered, roots, heap, q);
      assert Scanned(h, info, b);
    }
  }

  // ----- roots and lists of all threads -----

  datatype ThreadStack = ThreadStack(pendingGc: bool, values: seq<LoxValue>)

  datatype Package = Package(pendingCompilation: bool, globals: seq<(LoxValue, Addr)>)

  /** The stack of a thread that has terminated is no longer looked at. */
  function StackRoots(t: ThreadStack): set<Addr> {
    if t.pendingGc then {} else RefsOf(t.values)
  }

  /** Values and names of the global variables. */
  function GlobalRoots(p: Package): set<Addr> {
    if p.pendingCompilation then {}
    else (set g | g in p.globals && g.0.Ref? :: g.0.a) + (set g | g in p.globals :: g.1)
  }

  function Roots(threads: seq<ThreadStack>, packages: seq<Package>): set<Addr> {
    (set t, a | t in threads && a in StackRoots(t) :: a) + (set p, a | p in packages && a in GlobalRoots(p) :: a)
  }

  ghost function Reached(h: Memory, roots: set<Addr>): set<Addr> {
    set a | a in h && Reachable(h, roots, a)
  }

  ghost predicate Apart(lists: seq<seq<Addr>>) {
    forall i, j, a | 0 <= i < j < |lists| && a in lists[i] :: a !in lists[j]
  }

  function Members(lists: seq<seq<Addr>>): set<Addr> {
    set l, a | l in lists && a in l :: a
  }

  /** The lists of all threads, with the bytes counted for each. */
  ghost predicate ListsOk(h: Memory, info: map<Addr, Word>, heads: seq<Addr>, bytes: seq<int>, lists: seq<seq<Addr>>) {
    && |heads| == |bytes| == |lists| && Apart(lists) && info.Keys == h.Keys
    && forall t | 0 <= t < |lists| :: ListOk(h, info, heads[t], bytes[t], lists[t])
  }

  ghost predicate ListOk(h: Memory, info: map<Addr, Word>, head: Addr, bytes: int, list: seq<Addr>) {
    && Linked(info, head, list) && Distinct(list) && info.Keys == h.Keys
    && bytes >= Dead(h, list, {})
  }

  /** Between collections: nothing on a list is marked, and objects outside the
      lists do not refer into them. */
  ghost predicate Settled(h: Memory, info: map<Addr, Word>, lists: seq<seq<Addr>>) {
    && Closed(h) && info.Keys == h.Keys
    && (forall a | a in Members(lists) && a in info :: !IsMarked(info[a]))
    && forall a | a in h && a !in Members(lists) :: Children(h[a]) !! Members(lists)
  }

  // ----- what must not be freed -----

  /** The object refers to a: by a field, an element, its name or a constant. */
  predicate Refers(o: Object, a: Addr) {
    match o
    case FunctionObject(name, constants, _) => a == name || Ref(a) in constants
    case StructInstance(fields, _) => Ref(a) in fields
    case ArrayObject(values, _) => Ref(a) in values
    case _ => false
  }

  /** A stack that is still looked at holds a, or a global variable of a compiled
      package does, or a is its name. */
  ghost predicate HeldOutside(threads: seq<ThreadStack>, packages: seq<Package>, a: Addr) {
    || (exists t :: t in threads && !t.pendingGc && Ref(a) in t.values)
    || exists p, g :: p in packages && !p.pendingCompilation && g in p.globals && (g.0 == Ref(a) || g.1 == a)
  }

  /** What is held is there. */
  ghost predicate NothingLost(threads: seq<ThreadStack>, packages: seq<Package>, h: Memory) {
    && (forall t, a | t in threads && !t.pendingGc && Ref(a) in t.values :: a in h)
    && (forall p, g | p in packages && !p.pendingCompilation && g in p.globals :: g.1 in h && (g.0.Ref? ==> g.0.a in h))
    && forall a, b | a in h && Refers(h[a], b) :: b in h
  }

  /** References lead along p from something that is held to a. */
  ghost predicate Chained(threads: seq<ThreadStack>, packages: seq<Package>, h: Memory, p: seq<Addr>, a: Addr) {
    && p != [] && p[|p| - 1] == a && HeldOutside(threads, packages, p[0])
    && forall i: nat | i + 1 < |p| :: p[i] in h && Refers(h[p[i]], p[i + 1])
  }

  /** Every object on a list is needed. */
  ghost predicate NothingIdle(threads: seq<ThreadStack>, packages: seq<Package>, h: Memory, lists: seq<seq<Addr>>) {
    forall a | a in Members(lists) :: exists p :: Chained(threads, packages, h, p, a)
  }

  lemma ChildrenAre(o: Object, a: Addr)
    ensures a in Children(o) <==> Refers(o, a)
  {
    match o
    case FunctionObject(_, constants, _) => RefsAre(constants, a);
    case StructInstance(fields, _) => RefsAre(fields, a);
    case ArrayObject(values, _) => RefsAre(values, a);
    case _ =>
  }

  lemma RefsAre(vs: seq<LoxValue>, a: Addr)
    ensures a in RefsOf(vs) <==> Ref(a) in vs
  {
    if Ref(a) in vs { assert Ref(a).Ref? && Ref(a).a == a; }
  }

  lemma RootsAre(threads: seq<ThreadStack>, packages: seq<Package>, a: Addr)
    ensures a in Roots(threads, packages) <==> HeldOutside(threads, packages, a)
  {
    hide RefsOf;
    if a in Roots(threads, packages) {
      if t :| t in threads && a in StackRoots(t) {
        RefsAre(t.values, a);
      } else {
        var p :| p in packages && a in GlobalRoots(p);
        GlobalIs(p, a);
      }
    }
    if t :| t in threads && !t.pendingGc && Ref(a) in t.values {
      RefsAre(t.values, a);
      assert a in StackRoots(t);
    }
    if p, g :| p in packages && !p.pendingCompilation && g in p.globals && (g.0 == Ref(a) || g.1 == a) {
      GlobalIs(p, a);
    }
  }

  lemma GlobalIs(p: Package, a: Addr)
    ensures a in GlobalRoots(p) <==> !p.pendingCompilation && exists g :: g in p.globals && (g.0 == Ref(a) || g.1 == a)
  {
    if a in GlobalRoots(p) {
      if g :| g in p.globals && g.0.Ref? && g.0.a == a {
        assert g.0 == Ref(a);
      } else {
        var g :| g in p.globals && g.1 == a;
      }
    }
    if !p.pendingCompilation {
      if g :| g in p.globals && (g.0 == Ref(a) || g.1 == a) {
        assert g.0 == Ref(a) ==> g.0.Ref? && g.0.a == a;
      }
    }
  }

  // ----- the sweep of one list -----

  /** The parts of the state a sweep of one list changes. */
  datatype Part = Part(h: Memory, info: map<Addr, Word>, pool: set<Addr>, head: Addr, bytes: int)

  ghost function Gone(list: seq<Addr>, live: set<Addr>): set<Addr> {
    set a | a in list && a !in live
  }

  ghost function GoneStrings(h: Memory, list: seq<Addr>, live: set<Addr>): set<Addr> {
    set a | a in list && a !in live && a in h && h[a].StringObject?
  }

  function Last(list: seq<Addr>): Addr {
    if list == [] then NULL else list[|list| - 1]
  }

  /** After the first k objects of `list`: the dead ones are gone, and the links
      lead along the kept ones and on to the rest. */
  ghost predicate Sweeping(was: Part, list: seq<Addr>, live: set<Addr>, k: nat, now: Part)
    requires k <= |list| && forall a | a in list :: a in was.h
  {
    SweptWords(was, list, live, k, now) && SweptMemory(was, list, live, k, now)
  }

  ghost predicate SweptWords(was: Part, list: seq<Addr>, live: set<Addr>, k: nat, now: Part)
    requires k <= |list|
  {
    var kept := Keep(list[..k], live);
    && Linked(now.info, now.head, kept + list[k..])
    && (forall a | a in kept && a in now.info :: !IsMarked(now.info[a]))
    && (forall a | a in list[k..] && a in now.info :: IsMarked(now.info[a]) <==> a in live)
    && (forall a | a in was.info && a !in list :: a in now.info && now.info[a] == was.info[a])
  }

  ghost predicate SweptMemory(was: Part, list: seq<Addr>, live: set<Addr>, k: nat, now: Part)
    requires k <= |list| && forall a | a in list :: a in was.h
  {
    && now.info.Keys == now.h.Keys
    && now.h == was.h - Gone(list[..k], live)
    && now.pool == was.pool - GoneStrings(was.h, list[..k], live)
    && now.bytes == was.bytes - Dead(was.h, list[..k], live)
  }

  lemma SweepBegins(was: Part, list: seq<Addr>, live: set<Addr>)
    requires Linked(was.info, was.head, list) && was.info.Keys == was.h.Keys
    requires forall a | a in list :: a in live <==> IsMarked(was.info[a])
    ensures (forall a | a in list :: a in was.h && a != NULL) && Sweeping(was, list, live, 0, was)
    ensures was.head == Nth(list, 0) && Last(Keep(list[..0], live)) == NULL
  {
    hide IsMarked, NextOf;
    assert list[..0] == [] && list[0..] == list && [] + list == list;
    assert Gone([], live) == {} && GoneStrings(was.h, [], live) == {};
  }

  /** One object further. */
  lemma KeepStep(list: seq<Addr>, live: set<Addr>, k: nat)
    requires k < |list| && Distinct(list)
    ensures var a, kept := list[k], Keep(list[..k], live);
            && Keep(list[..k + 1], live) == (if a in live then kept + [a] else kept)
            && a !in kept && a !in list[k + 1..]
            && (forall b :: b in list[k..] <==> b == a || b in list[k + 1..])
            && forall b | b in kept :: b in list && b !in list[k + 1..]
  {
    assert list[..k + 1][..k] == list[..k];
    assert list[k..] == [list[k]] + list[k + 1..];
    KeepIn(list[..k], live);
  }

  lemma GoneStep(h: Memory, list: seq<Addr>, live: set<Addr>, k: nat)
    requires k < |list| && forall a | a in list :: a in h
    ensures var a := list[k];
            if a in live then
              && Gone(list[..k + 1], live) == Gone(list[..k], live)
              && GoneStrings(h, list[..k + 1], live) == GoneStrings(h, list[..k], live)
              && Dead(h, list[..k + 1], live) == Dead(h, list[..k], live)
            else
              && Gone(list[..k + 1], live) == Gone(list[..k], live) + {a}
              && GoneStrings(h, list[..k + 1], live) == GoneStrings(h, list[..k], live) + (if h[a].StringObject? then {a} else {})
              && Dead(h, list[..k + 1], live) == Dead(h, list[..k], live) + SizeOf(h[a])
  {
    assert list[..k + 1] == list[..k] + [list[k]];
    assert list[..k + 1][..k] == list[..k];
  }

  /** A marked object is unmarked and kept. */
  lemma SweepKeeps(was: Part, list: seq<Addr>, live: set<Addr>, k: nat, now: Part)
    requires k < |list| && (forall a | a in list :: a in was.h) && Distinct(list)
    requires Sweeping(was, list, live, k, now) && list[k] in live && list[k] in now.info
    ensures Sweeping(was, list, live, k + 1, now.(info := now.info[list[k] := SetUnmarked(now.info[list[k]])]))
  {
    var a, kept := list[k], Keep(list[..k], live);
    var next := now.(info := now.info[a := SetUnmarked(now.info[a])]);
    hide IsMarked, SetUnmarked, NextOf, Keep, Gone, GoneStrings, Dead, Distinct, Linked, SweptWords, SweptMemory;
    assert SweptMemory(was, list, live, k + 1, next) by { KeepsMemory(was, list, live, k, now, next); }
    assert SweptWords(was, list, live, k + 1, next) by { KeepsWords(was, list, live, k, now, next); }
  }

  lemma KeepsMemory(was: Part, list: seq<Addr>, live: set<Addr>, k: nat, now: Part, next: Part)
    requires k < |list| && (forall a | a in list :: a in was.h)
    requires SweptMemory(was, list, live, k, now) && list[k] in live && next == now.(info := next.info)
    requires next.info.Keys == now.info.Keys
    ensures SweptMemory(was, list, live, k + 1, next)
  {
    hide Gone, GoneStrings, Dead;
    GoneStep(was.h, list, live, k);
  }

  lemma KeepsWords(was: Part, list: seq<Addr>, live: set<Addr>, k: nat, now: Part, next: Part)
    requires k < |list| && Distinct(list) && SweptWords(was, list, live, k, now) && list[k] in live && list[k] in now.info
    requires next == now.(info := now.info[list[k] := SetUnmarked(now.info[list[k]])])
    ensures SweptWords(was, list, live, k + 1, next)
  {
    hide IsMarked, SetUnmarked, NextOf, Keep, Distinct, Linked;
    var a, kept := list[k], Keep(list[..k], live);
    KeepStep(list, live, k);
    assert kept + list[k..] == (kept + [a]) + list[k + 1..];
    MarkBit(now.info[a]);
    UnmarkLinked(now.info, now.head, kept + list[k..], a);
  }

  /** `now` with the object at `list[k]` unlinked and freed. */
  ghost predicate Dropped(list: seq<Addr>, live: set<Addr>, k: nat, now: Part, next: Part)
    requires k < |list| && list[k] in now.info
  {
    var a, p, after := list[k], Last(Keep(list[..k], live)), NextOf(now.info[list[k]]);
    && (p != NULL ==> p in now.info)
    && next.info == (if p != NULL then now.info[p := SetNext(now.info[p], after)] else now.info) - {a}
    && next.head == (if p != NULL then now.head else after)
  }

  ghost predicate Freed(a: Addr, now: Part, next: Part) {
    && a in now.h && next.h == now.h - {a} && next.bytes == now.bytes - SizeOf(now.h[a])
    && next.pool == (if now.h[a].StringObject? then now.pool - {a} else now.pool)
  }

  /** An unmarked object is taken out of the list and freed. */
  lemma SweepDrops(was: Part, list: seq<Addr>, live: set<Addr>, k: nat, now: Part, next: Part)
    requires k < |list| && (forall a | a in list :: a in was.h) && Distinct(list)
    requires Sweeping(was, list, live, k, now) && list[k] !in live && list[k] in now.info
    requires Dropped(list, live, k, now, next) && Freed(list[k], now, next) && now.h[list[k]] == was.h[list[k]]
    ensures Sweeping(was, list, live, k + 1, next)
  {
    assert next.info.Keys == next.h.Keys by { hide SetNext, Keep, Linked; }
    hide IsMarked, SetUnmarked, NextOf, Keep, Gone, GoneStrings, Dead, Distinct, Linked, SweptWords, SweptMemory, Dropped, Freed;
    assert SweptMemory(was, list, live, k + 1, next) by { DropsMemory(was, list, live, k, now, next); }
    assert SweptWords(was, list, live, k + 1, next) by { DropsWords(was, list, live, k, now, next); }
  }

  lemma DropsMemory(was: Part, list: seq<Addr>, live: set<Addr>, k: nat, now: Part, next: Part)
    requires k < |list| && (forall a | a in list :: a in was.h) && Freed(list[k], now, next)
    requires SweptMemory(was, list, live, k, now) && list[k] !in live && now.h[list[k]] == was.h[list[k]]
    requires next.info.Keys == next.h.Keys
    ensures SweptMemory(was, list, live, k + 1, next)
  {
    hide Gone, GoneStrings, Dead;
    GoneStep(was.h, list, live, k);
    MinusTwice(was.h, Gone(list[..k], live), {list[k]});
  }

  lemma MinusTwice(h: Memory, a: set<Addr>, b: set<Addr>)
    ensures h - a - b == h - (a + b)
  {
  }

  lemma DropsWords(was: Part, list: seq<Addr>, live: set<Addr>, k: nat, now: Part, next: Part)
    requires k < |list| && Distinct(list) && SweptWords(was, list, live, k, now) && list[k] !in live && list[k] in now.info
    requires Dropped(list, live, k, now, next)
    ensures SweptWords(was, list, live, k + 1, next)
  {
    KeepStep(list, live, k);
    SweepLinks(list, live, k, now, next);
    hide IsMarked, SetNext, NextOf, Keep, Distinct, Linked, Last;
  }

  lemma SweepLinks(list: seq<Addr>, live: set<Addr>, k: nat, now: Part, next: Part)
    requires k < |list| && Distinct(list) && list[k] in now.info
    requires Linked(now.info, now.head, Keep(list[..k], live) + list[k..]) && Dropped(list, live, k, now, next)
    ensures Linked(next.info, next.head, Keep(list[..k], live) + list[k + 1..])
    ensures var p := Last(Keep(list[..k], live));
            p != NULL ==> p in Keep(list[..k], live) && IsMarked(SetNext(now.info[p], NextOf(now.info[list[k]]))) == IsMarked(now.info[p])
  {
    hide IsMarked, SetNext, NextOf;
    var kept, rest := Keep(list[..k], live), list[k..];
    assert rest[1..] == list[k + 1..];
    LinkedHere(now.info, now.head, kept, rest);
    KeptApart(list, live, k);
    KeepIn(list[..k], live);
    if kept == [] {
      assert [] + rest == rest && [] + rest[1..] == rest[1..];
      DropFirst(now.info, now.head, rest);
    } else {
      assert kept[|kept| - 1] in kept + rest;
      DropInner(now.info, now.head, kept, rest);
      LinkNext(now.info[Last(kept)], NextOf(now.info[list[k]]));
    }
  }

  lemma KeptApart(list: seq<Addr>, live: set<Addr>, k: nat)
    requires k <= |list| && Distinct(list)
    ensures Distinct(Keep(list[..k], live) + list[k..]) && Distinct(list[k..])
  {
    var kept, rest := Keep(list[..k], live), list[k..];
    KeepIn(list[..k], live);
    KeepDistinct(list[..k], live);
    forall i, j | 0 <= i < |kept| && 0 <= j < |rest|
      ensures kept[i] != rest[j]
    {
      assert kept[i] in list[..k] && rest[j] == list[k + j];
    }
  }

  lemma SweepEnds(was: Part, list: seq<Addr>, live: set<Addr>, now: Part)
    requires (forall a | a in list :: a in was.h) && Distinct(list) && Sweeping(was, list, live, |list|, now)
    requires was.bytes >= Dead(was.h, list, {})
    ensures ListOk(now.h, now.info, now.head, now.bytes, Keep(list, live))
    ensures forall a | a in Keep(list, live) && a in now.info :: !IsMarked(now.info[a])
    ensures now.h == was.h - Gone(list, live) && now.pool == was.pool - GoneStrings(was.h, list, live)
    ensures now.bytes == was.bytes - Dead(was.h, list, live)
    ensures forall a | a in was.info && a !in list :: a in now.info && now.info[a] == was.info[a]
  {
    hide IsMarked, SetNext, NextOf, Linked;
    var kept := Keep(list, live);
    assert list[..|list|] == list && list[|list|..] == [] && kept + [] == kept;
    KeepDistinct(list, live);
    KeepIn(list, live);
    BytesSplit(was.h, list, live);
    SameBytes(was.h, now.h, kept, {});
  }

  // ----- the sweep of all lists -----

  datatype Heap = Heap(h: Memory, info: map<Addr, Word>, pool: set<Addr>, heads: seq<Addr>, bytes: seq<int>, lists: seq<seq<Addr>>)

  ghost predicate HeapOk(x: Heap) {
    ListsOk(x.h, x.info, x.heads, x.bytes, x.lists)
  }

  ghost function StringsIn(h: Memory, gone: set<Addr>): set<Addr> {
    set a | a in gone && a in h && h[a].StringObject?
  }

  /** A list as the sweep of its thread found it, and as it left it. */
  ghost predicate Waiting(was: Heap, t: nat, now: Heap)
    requires t < |was.lists| == |was.heads| == |was.bytes| == |now.lists| == |now.heads| == |now.bytes|
  {
    now.lists[t] == was.lists[t] && now.heads[t] == was.heads[t] && now.bytes[t] == was.bytes[t]
    && forall a | a in was.lists[t] :: a in now.info && a in was.info && now.info[a] == was.info[a]
  }

  ghost predicate Done(was: Heap, live: set<Addr>, t: nat, now: Heap)
    requires t < |was.lists| == |was.heads| == |was.bytes| == |now.lists| == |now.heads| == |now.bytes|
  {
    && now.lists[t] == Keep(was.lists[t], live)
    && (forall a | a in was.lists[t] :: a in was.h)
    && now.bytes[t] == was.bytes[t] - Dead(was.h, was.lists[t], live)
    && forall a | a in now.lists[t] :: a in now.info && !IsMarked(now.info[a])
  }

  /** The threads before k have been swept. */
  ghost predicate SweptThreads(was: Heap, live: set<Addr>, k: nat, now: Heap)
    requires HeapOk(was) && k <= |was.lists|
  {
    HeapOk(now) && |now.lists| == |was.lists| && SweptLists(was, live, k, now) && SweptAway(was, live, k, now)
  }

  ghost predicate SweptLists(was: Heap, live: set<Addr>, k: nat, now: Heap)
    requires k <= |was.lists| == |was.heads| == |was.bytes| == |now.lists| == |now.heads| == |now.bytes|
  {
    && (forall t: nat | t < k :: Done(was, live, t, now))
    && (forall t: nat | k <= t < |was.lists| :: Waiting(was, t, now))
    && forall a | a in was.info && a !in Members(was.lists) :: a in now.info && now.info[a] == was.info[a]
  }

  ghost predicate SweptAway(was: Heap, live: set<Addr>, k: nat, now: Heap)
    requires k <= |was.lists|
  {
    && now.h == was.h - (Members(was.lists[..k]) - live)
    && now.pool == was.pool - StringsIn(was.h, Members(was.lists[..k]) - live)
  }

  lemma ThreadsBegin(was: Heap, live: set<Addr>)
    requires HeapOk(was)
    ensures SweptThreads(was, live, 0, was)
  {
    assert Members(was.lists[..0]) == {};
    forall t: nat | t < |was.lists|
      ensures Waiting(was, t, was)
    {
      assert ListOk(was.h, was.info, was.heads[t], was.bytes[t], was.lists[t]);
    }
  }

  /** What sweeping one thread's list does to the whole. */
  ghost predicate SweptOne(now: Heap, live: set<Addr>, k: nat, next: Heap)
    requires k < |now.lists| == |now.heads| == |now.bytes| == |next.heads| == |next.bytes|
    requires forall a | a in now.lists[k] :: a in now.h
  {
    var list := now.lists[k];
    && next.lists == now.lists[k := Keep(list, live)]
    && (forall t | 0 <= t < |now.heads| && t != k :: next.heads[t] == now.heads[t] && next.bytes[t] == now.bytes[t])
    && ListOk(next.h, next.info, next.heads[k], next.bytes[k], next.lists[k])
    && (forall a | a in next.lists[k] && a in next.info :: !IsMarked(next.info[a]))
    && next.bytes[k] == now.bytes[k] - Dead(now.h, list, live)
    && next.h == now.h - Gone(list, live)
    && (forall a | a in now.info && a !in list :: a in next.info && next.info[a] == now.info[a])
    && next.pool == now.pool - GoneStrings(now.h, list, live)
  }

  lemma ListFrame(h: Memory, info: map<Addr, Word>, g: Memory, words: map<Addr, Word>, head: Addr, bytes: int, list: seq<Addr>)
    requires ListOk(h, info, head, bytes, list) && words.Keys == g.Keys
    requires forall a | a in list :: a in words && words[a] == info[a] && g[a] == h[a]
    ensures ListOk(g, words, head, bytes, list)
  {
    hide NextOf, Nth, Distinct;
    SameBytes(h, g, list, {});
  }

  lemma MembersStep(lists: seq<seq<Addr>>, k: nat)
    requires k < |lists|
    ensures Members(lists[..k + 1]) == Members(lists[..k]) + set a | a in lists[k]
  {
    assert lists[..k + 1] == lists[..k] + [lists[k]];
  }

  lemma OtherList(lists: seq<seq<Addr>>, t: nat, k: nat, a: Addr)
    requires Apart(lists) && t < |lists| && k < |lists| && t != k && a in lists[t]
    ensures a !in lists[k]
  {
  }

  /** The objects of another thread's list are as they were. */
  lemma Untouched(now: Heap, live: set<Addr>, k: nat, next: Heap, t: nat)
    requires HeapOk(now) && k < |now.lists| && t < |now.lists| && t != k && |next.heads| == |next.bytes| == |now.lists|
    requires (forall a | a in now.lists[k] :: a in now.h) && SweptOne(now, live, k, next)
    ensures next.lists[t] == now.lists[t] && next.heads[t] == now.heads[t] && next.bytes[t] == now.bytes[t]
    ensures forall a | a in now.lists[t] :: a in now.info && a in next.info && next.info[a] == now.info[a]
    ensures ListOk(next.h, next.info, next.heads[t], next.bytes[t], next.lists[t])
  {
    hide NextOf, Nth, Distinct, IsMarked, Keep, Dead, Gone, GoneStrings;
    assert ListOk(now.h, now.info, now.heads[t], now.bytes[t], now.lists[t]);
    forall a | a in now.lists[t]
      ensures a in now.info && a in next.info && next.info[a] == now.info[a] && a in next.h && next.h[a] == now.h[a]
    {
      OtherList(now.lists, t, k, a);
      assert a in next.info.Keys;
    }
    ListFrame(now.h, now.info, next.h, next.info, now.heads[t], now.bytes[t], now.lists[t]);
  }

  lemma StillApart(lists: seq<seq<Addr>>, k: nat, live: set<Addr>)
    requires Apart(lists) && k < |lists|
    ensures Apart(lists[k := Keep(lists[k], live)])
  {
    KeepIn(lists[k], live);
  }

  lemma StillOk(now: Heap, live: set<Addr>, k: nat, next: Heap)
    requires HeapOk(now) && k < |now.lists| && |next.heads| == |next.bytes| == |now.lists|
    requires (forall a | a in now.lists[k] :: a in now.h) && SweptOne(now, live, k, next)
    ensures HeapOk(next)
  {
    assert next.info.Keys == next.h.Keys;
    hide ListOk, IsMarked, Keep, Dead, Gone, GoneStrings, Apart;
    StillApart(now.lists, k, live);
    forall t: nat | t < |next.lists|
      ensures ListOk(next.h, next.info, next.heads[t], next.bytes[t], next.lists[t])
    {
      if t != k { Untouched(now, live, k, next, t); }
    }
  }

  lemma StringsSplit(h: Memory, x: set<Addr>, list: seq<Addr>, live: set<Addr>)
    requires forall a | a in list :: a in h && a !in x
    ensures StringsIn(h, x + Gone(list, live)) == StringsIn(h, x) + GoneStrings(h - x, list, live)
  {
  }

  lemma MembersGone(lists: seq<seq<Addr>>, k: nat, live: set<Addr>)
    requires k < |lists|
    ensures Members(lists[..k + 1]) - live == (Members(lists[..k]) - live) + Gone(lists[k], live)
  {
    MembersStep(lists, k);
  }

  lemma StepAway(was: Heap, live: set<Addr>, k: nat, now: Heap, next: Heap)
    requires k < |was.lists| && SweptAway(was, live, k, now)
    requires forall a | a in was.lists[k] :: a in now.h
    requires next.h == now.h - Gone(was.lists[k], live) && next.pool == now.pool - GoneStrings(now.h, was.lists[k], live)
    ensures SweptAway(was, live, k + 1, next)
  {
    var list, before := was.lists[k], Members(was.lists[..k]) - live;
    MembersGone(was.lists, k, live);
    MinusTwice(was.h, before, Gone(list, live));
    StringsSplit(was.h, before, list, live);
    hide Members, Gone, StringsIn, GoneStrings;
    PoolTwice(was.pool, StringsIn(was.h, before), GoneStrings(now.h, list, live));
  }

  lemma PoolTwice(p: set<Addr>, a: set<Addr>, b: set<Addr>)
    ensures p - a - b == p - (a + b)
  {
  }

  lemma StepLists(was: Heap, live: set<Addr>, k: nat, now: Heap, next: Heap)
    requires HeapOk(was) && k < |was.lists| && SweptThreads(was, live, k, now)
    requires |next.heads| == |next.bytes| == |now.lists|
    requires (forall a | a in now.lists[k] :: a in now.h) && SweptOne(now, live, k, next)
    ensures SweptLists(was, live, k + 1, next)
  {
    assert |next.lists| == |now.lists|;
    assert |was.lists| == |was.heads| == |was.bytes|;
    DoneNow(was, live, k, now, next);
    OutsideStays(was, live, k, now, next);
    hide SweptOne, HeapOk, SweptAway, SweptThreads, Members, IsMarked, Keep, Dead, Done, Waiting;
    forall t: nat | t < |was.lists| && t != k
      ensures if t < k then Done(was, live, t, next) else Waiting(was, t, next)
    {
      OtherStays(was, live, k, now, next, t);
    }
  }

  lemma OtherStays(was: Heap, live: set<Addr>, k: nat, now: Heap, next: Heap, t: nat)
    requires HeapOk(was) && k < |was.lists| && SweptThreads(was, live, k, now)
    requires |next.heads| == |next.bytes| == |now.lists| == |next.lists|
    requires (forall a | a in now.lists[k] :: a in now.h) && SweptOne(now, live, k, next)
    requires t < |was.lists| && t != k
    ensures if t < k then Done(was, live, t, next) else Waiting(was, t, next)
  {
    assert if t < k then Done(was, live, t, now) else Waiting(was, t, now);
    assert HeapOk(now);
    hide SweptOne, HeapOk, SweptThreads, SweptLists, SweptAway, Members, IsMarked, Keep, Dead;
    Untouched(now, live, k, next, t);
  }

  /** The words of objects on no list do not change. */
  lemma OutsideStays(was: Heap, live: set<Addr>, k: nat, now: Heap, next: Heap)
    requires HeapOk(was) && k < |was.lists| && SweptThreads(was, live, k, now)
    requires |next.heads| == |next.bytes| == |now.lists|
    requires (forall a | a in now.lists[k] :: a in now.h) && SweptOne(now, live, k, next)
    ensures forall a | a in was.info && a !in Members(was.lists) :: a in next.info && next.info[a] == was.info[a]
  {
    assert Waiting(was, k, now);
    hide HeapOk, Members, IsMarked, Keep, Dead, Done, Waiting, SweptAway;
    forall a | a in was.info && a !in Members(was.lists)
      ensures a in next.info && next.info[a] == was.info[a]
    {
      NotMember(was.lists, k, a);
      assert a in now.info && now.info[a] == was.info[a] && now.lists[k] == was.lists[k] by { WaitingList(was, k, now); }
    }
  }

  lemma WaitingList(was: Heap, t: nat, now: Heap)
    requires t < |was.lists| == |was.heads| == |was.bytes| == |now.lists| == |now.heads| == |now.bytes| && Waiting(was, t, now)
    ensures now.lists[t] == was.lists[t]
  {
  }

  lemma NotMember(lists: seq<seq<Addr>>, k: nat, a: Addr)
    requires k < |lists| && a !in Members(lists)
    ensures a !in lists[k]
  {
  }

  lemma ThreadsStep(was: Heap, live: set<Addr>, k: nat, now: Heap, next: Heap)
    requires HeapOk(was) && k < |was.lists| && SweptThreads(was, live, k, now)
    requires |next.heads| == |next.bytes| == |now.lists|
    requires (forall a | a in now.lists[k] :: a in now.h) && SweptOne(now, live, k, next)
    ensures SweptThreads(was, live, k + 1, next)
  {
    assert Waiting(was, k, now);
    StillOk(now, live, k, next);
    StepLists(was, live, k, now, next);
    assert next.h == now.h - Gone(was.lists[k], live) && next.pool == now.pool - GoneStrings(now.h, was.lists[k], live);
    hide SweptLists, SweptAway, HeapOk, SweptOne, Gone, GoneStrings;
    StepAway(was, live, k, now, next);
  }

  lemma DoneNow(was: Heap, live: set<Addr>, k: nat, now: Heap, next: Heap)
    requires HeapOk(was) && k < |was.lists| && SweptThreads(was, live, k, now)
    requires |next.heads| == |next.bytes| == |now.lists|
    requires (forall a | a in now.lists[k] :: a in now.h) && SweptOne(now, live, k, next)
    ensures Done(was, live, k, next)
  {
    hide IsMarked, Distinct, Keep, Dead, Gone, GoneStrings, StringsIn, Members;
    assert Waiting(was, k, now);
    var list := now.lists[k];
    assert ListOk(was.h, was.info, was.heads[k], was.bytes[k], list);
    assert forall a | a in list :: a in was.h && a in now.h && now.h[a] == was.h[a];
    SameBytes(was.h, now.h, list, live);
  }

  class Collector {
    var objects: Memory
    var info: map<Addr, Word>
    var gray: array<Addr>
    var grayCount: nat
    ghost var entered: seq<Addr>     // since the collection began
    var heads: seq<Addr>             // the heap list of each thread
    var bytes: seq<int>
    ghost var lists: seq<seq<Addr>>
    var stringPool: set<Addr>

    ghost predicate Valid()
      reads this, gray
    {
      grayCount <= gray.Length && info.Keys == objects.Keys && Closed(objects)
    }

    ghost function Gray(): seq<Addr>
      requires grayCount <= gray.Length
      reads this, gray
    {
      gray[..grayCount]
    }

    /** What the compiler allocated belongs to no list. */
    constructor (compiled: Memory, pool: set<Addr>, threads: nat)
      requires Closed(compiled)
      ensures Valid() && grayCount == 0 && HeapOk(All()) && Settled(objects, info, lists) && fresh(gray)
      ensures objects == compiled && stringPool == pool && |lists| == threads && Members(lists) == {}
    {
      objects, stringPool := compiled, pool;
      info := map a | a in compiled :: 0;
      gray, grayCount, entered := new Addr[0], 0, [];
      heads, bytes, lists := seq(threads, _ => NULL), seq(threads, _ => 0), seq(threads, _ => []);
    }

    /** add_object_to_heap_gc_alg, up to the question whether to collect: the object
        becomes the first of its thread's list, and its size is counted twice. */
    method AddObjectToHeap(t: nat, a: Addr, o: Object)
      requires Valid() && grayCount == 0 && HeapOk(All()) && Settled(objects, info, lists) && t < |lists|
      requires a != NULL && a !in objects && Children(o) <= objects.Keys
      modifies this`objects, this`info, this`heads, this`bytes, this`lists
      ensures Valid() && HeapOk(All()) && Settled(objects, info, lists)
      ensures objects == old(objects)[a := o] && lists == old(lists)[t := [a] + old(lists[t])]
      ensures |old(bytes)| == |old(lists)| && bytes == old(bytes)[t := old(bytes)[t] + 2 * o.size]
    {
      hide SetNext, NextOf, IsMarked, Children;
      Sizes(All());
      ghost var was := All();
      Allocated(was, t, a, o);
      objects := objects[a := o];
      bytes := bytes[t := bytes[t] + SizeOf(o)];
      info := info[a := SetNext(0, heads[t])];
      heads := heads[t := a];
      bytes := bytes[t := bytes[t] + SizeOf(o)];
      lists := lists[t := [a] + lists[t]];
      assert All() == Grown(was, t, a, o);
    }

    /** What a program does to the heap between collections: set_array_element, and
        set_struct_field with the place of the field.  False is a panic. */
    method SetElement(a: Addr, i: int, v: LoxValue) returns (ok: bool)
      requires Valid() && HeapOk(All()) && Settled(objects, info, lists) && a in Members(lists) && a in objects
      requires v.Ref? ==> v.a in objects
      modifies this`objects
      ensures Valid() && HeapOk(All()) && Settled(objects, info, lists)
      ensures ok <==> 0 <= i < |Elements(old(objects)[a])|
      ensures objects.Keys == old(objects).Keys && forall b | b in objects && b != a :: objects[b] == old(objects)[b]
      ensures Elements(objects[a]) == if ok then Elements(old(objects)[a])[i := v] else Elements(old(objects)[a])
    {
      var o := objects[a];
      ok := 0 <= i < |Elements(o)|;
      if ok {
        var r := if o.ArrayObject? then o.(values := o.values[i := v]) else o.(fields := o.fields[i := v]);
        ElementChildren(o, r, i, v);
        Written(All(), a, r);
        objects := objects[a := r];
      }
    }

    /** add_value_gc_info */
    method AddGray(a: Addr)
      requires Valid()
      modifies this`gray, this`grayCount, this`entered, gray
      ensures Valid() && Gray() == old(Gray()) + [a] && entered == old(entered) + [a]
      ensures gray == old(gray) || fresh(gray)
    {
      if gray.Length < grayCount + 1 {
        var grown := new Addr[GrowCapacity(gray.Length)];
        for i := 0 to grayCount
          invariant gray == old(gray) && gray[..] == old(gray[..]) && grayCount == old(grayCount) && entered == old(entered)
          invariant grown[..i] == gray[..i]
        {
          grown[i] := gray[i];
        }
        gray := grown;
      }
      gray[grayCount] := a;
      grayCount := grayCount + 1;
      entered := entered + [a];
    }

    method MarkObject(a: Addr, ghost base: map<Addr, Word>, ghost roots: set<Addr>, ghost scanning: set<Addr>)
      requires Valid() && a in objects && Reachable(objects, roots, a)
      requires Marking(base, roots, scanning)
      modifies this`info, this`gray, this`grayCount, this`entered, gray
      ensures Valid() && Marking(base, roots, scanning) && (gray == old(gray) || fresh(gray))
      ensures a in info && IsMarked(info[a]) && MarksGrow(old(info))
      ensures old(entered) <= entered && (entered == old(entered) ==> Gray() == old(Gray()))
    {
      hide Tri, Reachable, SetMarked, IsMarked;
      if !IsMarked(info[a]) {
        MarkOne(objects, base, info, entered, Gray(), roots, scanning, a);
        ghost var w := info[a];
        MarkBit(w);
        info := info[a := SetMarked(info[a])];
        assert info[a] == SetMarked(w);
        AddGray(a);
      }
    }

    /** mark_value, for a stack, an array list or the values of a table. */
    method MarkValues(vs: seq<LoxValue>, ghost base: map<Addr, Word>, ghost roots: set<Addr>, ghost scanning: set<Addr>)
      requires Valid() && Marking(base, roots, scanning)
      requires forall a | a in RefsOf(vs) :: a in objects && Reachable(objects, roots, a)
      modifies this`info, this`gray, this`grayCount, this`entered, gray
      ensures Valid() && Marking(base, roots, scanning) && (gray == old(gray) || fresh(gray))
      ensures MarksGrow(old(info)) && forall a | a in RefsOf(vs) :: a in info && IsMarked(info[a])
      ensures old(entered) <= entered && (entered == old(entered) ==> Gray() == old(Gray()))
    {
      hide Tri, Reachable, IsMarked, Closed;
      for i := 0 to |vs|
        invariant Valid() && Marking(base, roots, scanning) && (gray == old(gray) || fresh(gray))
        invariant MarksGrow(old(info)) && forall j | 0 <= j < i && vs[j].Ref? :: vs[j].a in info && IsMarked(info[vs[j].a])
        invariant old(entered) <= entered && (entered == old(entered) ==> Gray() == old(Gray()))
      {
        if vs[i].Ref? {
          assert vs[i].a in RefsOf(vs);
          MarkObject(vs[i].a, base, roots, scanning);
        }
      }
    }

    /** mark_stack: the values on the stacks of all threads but those that wait to
        be freed. */
    method MarkStack(threads: seq<ThreadStack>, ghost base: map<Addr, Word>, ghost roots: set<Addr>)
      requires Valid() && Marking(base, roots, {})
      requires forall t, a | t in threads && a in StackRoots(t) :: a in objects && Reachable(objects, roots, a)
      modifies this`info, this`gray, this`grayCount, this`entered, gray
      ensures Valid() && Marking(base, roots, {}) && (gray == old(gray) || fresh(gray)) && MarksGrow(old(info))
      ensures forall t, a | t in threads && a in StackRoots(t) :: a in info && IsMarked(info[a])
    {
      hide Tri, Reachable, IsMarked, Closed, RefsOf;
      for i := 0 to |threads|
        invariant Valid() && Marking(base, roots, {}) && (gray == old(gray) || fresh(gray)) && MarksGrow(old(info))
        invariant forall j, a | 0 <= j < i && a in StackRoots(threads[j]) :: a in info && IsMarked(info[a])
      {
        if !threads[i].pendingGc {
          assert forall a | a in RefsOf(threads[i].values) :: a in StackRoots(threads[i]);
          MarkValues(threads[i].values, base, roots, {});
        }
      }
    }

    /** mark_globals: values and names of the variables of all packages. */
    method MarkGlobals(packages: seq<Package>, ghost base: map<Addr, Word>, ghost roots: set<Addr>)
      requires Valid() && Marking(base, roots, {})
      requires forall p, a | p in packages && a in GlobalRoots(p) :: a in objects && Reachable(objects, roots, a)
      modifies this`info, this`gray, this`grayCount, this`entered, gray
      ensures Valid() && Marking(base, roots, {}) && (gray == old(gray) || fresh(gray)) && MarksGrow(old(info))
      ensures forall p, a | p in packages && a in GlobalRoots(p) :: a in info && IsMarked(info[a])
    {
      hide Tri, Reachable, IsMarked, Closed, GlobalRoots;
      for i := 0 to |packages|
        invariant Valid() && Marking(base, roots, {}) && (gray == old(gray) || fresh(gray)) && MarksGrow(old(info))
        invariant forall j, a | 0 <= j < i && a in GlobalRoots(packages[j]) :: a in info && IsMarked(info[a])
      {
        MarkPackage(packages[i], base, roots);
      }
    }

    method MarkPackage(p: Package, ghost base: map<Addr, Word>, ghost roots: set<Addr>)
      requires Valid() && Marking(base, roots, {})
      requires forall a | a in GlobalRoots(p) :: a in objects && Reachable(objects, roots, a)
      modifies this`info, this`gray, this`grayCount, this`entered, gray
      ensures Valid() && Marking(base, roots, {}) && (gray == old(gray) || fresh(gray)) && MarksGrow(old(info))
      ensures forall a | a in GlobalRoots(p) :: a in info && IsMarked(info[a])
    {
      hide Tri, Reachable, IsMarked, Closed, GlobalRoots, Children;
      if p.pendingCompilation {
        NoGlobals(p);
        return;
      }
      for i := 0 to |p.globals|
        invariant Valid() && Marking(base, roots, {}) && (gray == old(gray) || fresh(gray)) && MarksGrow(old(info))
        invariant forall j | 0 <= j < i && p.globals[j].0.Ref? :: p.globals[j].0.a in info && IsMarked(info[p.globals[j].0.a])
        invariant forall j | 0 <= j < i :: p.globals[j].1 in info && IsMarked(info[p.globals[j].1])
      {
        var (value, key) := p.globals[i];
        GlobalAt(p, i);
        if value.Ref? {
          MarkObject(value.a, base, roots, {});
        }
        MarkObject(key, base, roots, {});
      }
      GlobalsMarked(p, info);
    }

    /** mark_root_dependences: follow the references of gray objects until none is
        left.  Every round lets an object enter the gray stack, which each does at
        most once, or shortens the stack. */
    method MarkRootDependences(ghost base: map<Addr, Word>, ghost roots: set<Addr>)
      requires Valid() && Marking(base, roots, {})
      modifies this`info, this`gray, this`grayCount, this`entered, gray
      ensures Valid() && Marking(base, roots, {}) && grayCount == 0 && MarksGrow(old(info))
      ensures gray == old(gray) || fresh(gray)
    {
      hide Tri, Reachable, IsMarked, SetMarked, Closed;
      while grayCount > 0
        invariant Valid() && Marking(base, roots, {}) && (gray == old(gray) || fresh(gray))
        invariant MarksGrow(old(info))
        decreases |objects.Keys| - |entered|, grayCount
      {
        ghost var g, n := Gray(), |entered|;
        assert n <= |objects.Keys| by { Bounded(base, roots); }
        TakeGray(objects, base, info, entered, g, roots);
        grayCount := grayCount - 1;
        var a := gray[grayCount];
        assert Gray() == g[..|g| - 1] && a == g[|g| - 1];
        ScanObject(a, base, roots);
        ScanDone(objects, base, info, entered, Gray(), roots, a);
        assert |entered| <= |objects.Keys| by { Bounded(base, roots); }
      }
    }

    lemma Bounded(base: map<Addr, Word>, roots: set<Addr>)
      requires grayCount <= gray.Length && Marking(base, roots, {})
      ensures |entered| <= |objects.Keys|
    {
      EnteredFits(objects, base, info, entered);
    }

    /** Mark what the object refers to. */
    method ScanObject(a: Addr, ghost base: map<Addr, Word>, ghost roots: set<Addr>)
      requires Valid() && Marking(base, roots, {a}) && a in objects && Reachable(objects, roots, a) && IsMarked(info[a])
      modifies this`info, this`gray, this`grayCount, this`entered, gray
      ensures Valid() && Marking(base, roots, {a}) && (gray == old(gray) || fresh(gray))
      ensures Scanned(objects, info, a) && MarksGrow(old(info))
      ensures old(entered) <= entered && (entered == old(entered) ==> Gray() == old(Gray()))
    {
      hide Tri, Reachable, IsMarked, SetMarked;
      forall c | c in Children(objects[a])
        ensures c in objects && Reachable(objects, roots, c)
      {
        ChildReachable(objects, roots, a, c);
      }
      match objects[a]
      case StructInstance(fields, _) =>
        MarkValues(fields, base, roots, {a});
        MarkObject(a, base, roots, {a});
      case FunctionObject(name, constants, _) =>
        MarkObject(name, base, roots, {a});
        MarkValues(constants, base, roots, {a});
      case ArrayObject(values, _) =>
        MarkValues(values, base, roots, {a});
      case _ =>
    }

    /** What was marked still is. */
    ghost predicate MarksGrow(before: map<Addr, Word>)
      reads this
    {
      forall a | a in before && IsMarked(before[a]) :: a in info && IsMarked(info[a])
    }

    ghost predicate Marking(base: map<Addr, Word>, roots: set<Addr>, scanning: set<Addr>)
      requires grayCount <= gray.Length
      reads this, gray
    {
      Tri(objects, base, info, entered, Gray(), roots, scanning)
    }

    // ----- a collection -----

    /** Marking and sweeping while all other threads wait.  Exactly the objects that
        the roots reach stay on their lists, in their order; the state is again as
        the next collection needs it. */
    method Collect(threads: seq<ThreadStack>, packages: seq<Package>) returns (before: int, after: int)
      requires Valid() && grayCount == 0 && HeapOk(All()) && Settled(objects, info, lists)
      requires Roots(threads, packages) <= objects.Keys
      modifies this, gray
      ensures Valid() && grayCount == 0 && HeapOk(All()) && Settled(objects, info, lists) && fresh(gray)
      ensures HeapOk(old(All())) && Collected(old(All()), Reached(old(objects), Roots(threads, packages)), All())
      ensures NothingLost(threads, packages, objects) && NothingIdle(threads, packages, objects, lists)
      ensures forall a | a in objects :: a in old(objects) && objects[a] == old(objects[a])
      ensures before == Sum(old(bytes)) && after == Sum(bytes)
    {
      hide IsMarked, Closed, HeapOk, Settled, Collected, Reached, Roots, SweptThreads, NothingLost, NothingIdle;
      ghost var was, roots := All(), Roots(threads, packages);
      MarkAll(threads, packages);
      ghost var marked, live := All(), set a | a in entered;
      before, after := SweepHeap(live);
      Finished(was, marked, live, roots, All());
      Needed(was, threads, packages, All());
      // finish_gc
      gray := new Addr[0];
      grayCount := 0;
    }

    /** The three phases of marking. */
    method MarkAll(threads: seq<ThreadStack>, packages: seq<Package>)
      requires Valid() && grayCount == 0 && HeapOk(All()) && Settled(objects, info, lists)
      requires Roots(threads, packages) <= objects.Keys
      modifies this`info, this`gray, this`grayCount, this`entered, gray
      ensures HeapOk(All())
      ensures forall a | a in Members(lists) && a in info :: a in entered <==> IsMarked(info[a])
      ensures forall a | a in Members(lists) :: a in entered <==> a in Reached(objects, Roots(threads, packages))
      ensures forall a | a in Members(lists) ::
                a in entered <==> exists p :: Chained(threads, packages, objects, p, a)
    {
      hide Chained;
      hide Tri, Reachable, IsMarked, Closed, HeapOk, Settled, RefsOf, Children, Reached, StackRoots, GlobalRoots, Members;
      ghost var was, roots := All(), Roots(threads, packages);
      entered := [];
      MarkBegins(objects, info, roots);
      assert Gray() == [];
      RootsReachable(objects, threads, packages);
      MarkStack(threads, was.info, roots);
      MarkGlobals(packages, was.info, roots);
      MarkRootDependences(was.info, roots);
      assert Gray() == [];
      MarksRight(was, All(), entered, threads, packages);
      MembersIn(All());
      ChainsReach(objects, threads, packages, lists);
    }

    // ----- sweeping -----

    /** Take `a` out of memory, and out of the string pool. */
    method FreeObject(a: Addr)
      requires a in objects
      modifies this`objects, this`info, this`stringPool
      ensures objects == old(objects) - {a} && info == old(info) - {a}
      ensures stringPool == if old(objects)[a].StringObject? then old(stringPool) - {a} else old(stringPool)
    {
      if objects[a].StringObject? {
        stringPool := stringPool - {a};
      }
      objects := objects - {a};
      info := info - {a};
    }

    /** sweep_heap_thread: drop the unmarked objects of a list in place, and unmark
        the others. */
    method SweepHeapThread(t: nat, ghost live: set<Addr>)
      requires t < |heads| == |bytes| == |lists| && ListOk(objects, info, heads[t], bytes[t], lists[t])
      requires forall a | a in lists[t] :: a in live <==> IsMarked(info[a])
      modifies this`objects, this`info, this`stringPool, this`heads, this`bytes, this`lists
      ensures |heads| == |bytes| == |lists| && lists == old(lists)[t := Keep(old(lists[t]), live)]
      ensures forall s | 0 <= s < |heads| && s != t :: heads[s] == old(heads[s]) && bytes[s] == old(bytes[s])
      ensures ListOk(objects, info, heads[t], bytes[t], lists[t])
      ensures forall a | a in lists[t] && a in info :: !IsMarked(info[a])
      ensures bytes[t] == old(bytes[t]) - Dead(old(objects), old(lists[t]), live)
      ensures objects == old(objects) - Gone(old(lists[t]), live)
      ensures forall a | a in old(info) && a !in old(lists[t]) :: a in info && info[a] == old(info[a])
      ensures stringPool == old(stringPool) - GoneStrings(old(objects), old(lists[t]), live)
    {
      hide IsMarked, SetUnmarked, SetNext, NextOf, Sweeping, Linked, Keep, Distinct, Gone, GoneStrings;
      ghost var was, list := Here(t), lists[t];
      SweepBegins(was, list, live);
      var current, previous := heads[t], NULL;
      ghost var k := 0;
      while current != NULL
        invariant k <= |list| && |heads| == |bytes| == |old(heads)| && lists == old(lists)
        invariant forall s | 0 <= s < |heads| && s != t :: heads[s] == old(heads[s]) && bytes[s] == old(bytes[s])
        invariant Sweeping(was, list, live, k, Here(t))
        invariant current == Nth(list, k) && previous == Last(Keep(list[..k], live))
        decreases |list| - k
      {
        SweepAt(was, list, live, k, Here(t));
        if IsMarked(info[current]) {
          SweepKeeps(was, list, live, k, Here(t));
          var next := NextOf(info[current]);
          MarkBit(info[current]);
          info := info[current := SetUnmarked(info[current])];
          previous := current;
          current := NextOf(info[current]);
        } else {
          ghost var now := Here(t);
          var unreached := current;
          current := NextOf(info[current]);
          if previous != NULL {
            info := info[previous := SetNext(info[previous], current)];
          } else {
            heads := heads[t := current];
          }
          bytes := bytes[t := bytes[t] - SizeOf(objects[unreached])];
          FreeObject(unreached);
          SweepDrops(was, list, live, k, now, Here(t));
        }
        k := k + 1;
      }
      SweepStops(list, k);
      SweepEnds(was, list, live, Here(t));
      lists := lists[t := Keep(list, live)];
    }

    /** sweep_heap: all threads; the results are the bytes counted before and
        after. */
    method SweepHeap(ghost live: set<Addr>) returns (before: int, after: int)
      requires HeapOk(All())
      requires forall a | a in Members(lists) && a in info :: a in live <==> IsMarked(info[a])
      modifies this`objects, this`info, this`stringPool, this`heads, this`bytes, this`lists
      ensures HeapOk(old(All())) && SweptThreads(old(All()), live, |old(lists)|, All())
      ensures before == Sum(old(bytes)) && after == Sum(bytes)
    {
      hide IsMarked, SweptThreads, HeapOk, Members, Gone, GoneStrings, ListOk, Keep;
      ghost var was := All();
      ThreadsBegin(was, live);
      before, after := 0, 0;
      var t := 0;
      assert |heads| == |bytes| == |lists| by { Sizes(was); }
      while t < |heads|
        invariant t <= |heads| == |bytes| == |lists| == |was.lists| == |was.bytes| && SweptThreads(was, live, t, All())
        invariant before == Sum(was.bytes[..t]) && after == Sum(bytes[..t])
      {
        ghost var now := All();
        ThreadAt(was, live, t, now);
        before := before + bytes[t];
        SweepHeapThread(t, live);
        ThreadsStep(was, live, t, now, All());
        SumStep(was.bytes, t);
        SumStep(bytes, t);
        assert bytes[..t] == now.bytes[..t];
        after := after + bytes[t];
        t := t + 1;
      }
      assert was.bytes[..t] == was.bytes && bytes[..t] == bytes;
    }

    ghost function All(): Heap
      reads this
    {
      Heap(objects, info, stringPool, heads, bytes, lists)
    }

    ghost function Here(t: nat): Part
      requires t < |heads| && t < |bytes|
      reads this
    {
      Part(objects, info, stringPool, heads[t], bytes[t])
    }
  }

  function Sum(xs: seq<int>): int {
    if xs == [] then 0 else Sum(xs[..|xs| - 1]) + xs[|xs| - 1]
  }

  lemma SumStep(xs: seq<int>, k: nat)
    requires k < |xs|
    ensures Sum(xs[..k + 1]) == Sum(xs[..k]) + xs[k]
  {
    assert xs[..k + 1][..k] == xs[..k];
  }

  lemma Sizes(x: Heap)
    requires HeapOk(x)
    ensures |x.heads| == |x.bytes| == |x.lists|
  {
  }

  /** The list of the next thread is as it was before the sweep. */
  lemma ThreadAt(was: Heap, live: set<Addr>, k: nat, now: Heap)
    requires HeapOk(was) && k < |was.lists| && SweptThreads(was, live, k, now)
    requires forall a | a in Members(was.lists) && a in was.info :: a in live <==> IsMarked(was.info[a])
    ensures |now.heads| == |now.bytes| == |now.lists| == |was.lists| == |was.bytes| && was.bytes[k] == now.bytes[k]
    ensures ListOk(now.h, now.info, now.heads[k], now.bytes[k], now.lists[k]) && now.lists[k] == was.lists[k]
    ensures forall a | a in now.lists[k] :: a in now.h && a in now.info && (a in live <==> IsMarked(now.info[a]))
  {
    hide IsMarked;
    assert Waiting(was, k, now);
    assert ListOk(now.h, now.info, now.heads[k], now.bytes[k], now.lists[k]);
    assert forall a | a in was.lists[k] :: a in Members(was.lists);
  }

  /** A whole collection: every list keeps its live objects, the others are gone. */
  ghost predicate Collected(was: Heap, live: set<Addr>, now: Heap)
    requires HeapOk(was)
  {
    && |now.lists| == |was.lists| == |was.bytes| == |now.bytes|
    && (forall t: nat | t < |was.lists| ::
          && now.lists[t] == Keep(was.lists[t], live)
          && (forall a | a in was.lists[t] :: a in was.h)
          && now.bytes[t] == was.bytes[t] - Dead(was.h, was.lists[t], live))
    && now.h == was.h - (Members(was.lists) - live)
    && now.pool == was.pool - StringsIn(was.h, Members(was.lists) - live)
  }

  lemma NoGlobals(p: Package)
    requires p.pendingCompilation
    ensures GlobalRoots(p) == {}
  {
  }

  lemma GlobalAt(p: Package, i: nat)
    requires !p.pendingCompilation && i < |p.globals|
    ensures p.globals[i].1 in GlobalRoots(p) && (p.globals[i].0.Ref? ==> p.globals[i].0.a in GlobalRoots(p))
  {
    assert p.globals[i] in p.globals;
  }

  lemma GlobalsMarked(p: Package, info: map<Addr, Word>)
    requires forall j | 0 <= j < |p.globals| && p.globals[j].0.Ref? :: p.globals[j].0.a in info && IsMarked(info[p.globals[j].0.a])
    requires forall j | 0 <= j < |p.globals| :: p.globals[j].1 in info && IsMarked(info[p.globals[j].1])
    ensures forall a | a in GlobalRoots(p) :: a in info && IsMarked(info[a])
  {
    hide IsMarked;
  }

  function FreedBytes(h: Memory, lists: seq<seq<Addr>>, live: set<Addr>): nat
    requires forall l, a | l in lists && a in l :: a in h
  {
    if lists == [] then 0
    else FreedBytes(h, lists[..|lists| - 1], live) + Dead(h, lists[|lists| - 1], live)
  }

  /** The byte counts before and after differ by the sizes of what was freed. */
  lemma {:induction false} BytesFreed(was: Heap, live: set<Addr>, now: Heap, k: nat)
    requires HeapOk(was) && Collected(was, live, now) && k <= |was.lists|
    ensures forall l, a | l in was.lists[..k] && a in l :: a in was.h
    ensures Sum(was.bytes[..k]) - Sum(now.bytes[..k]) == FreedBytes(was.h, was.lists[..k], live)
    decreases k
  {
    ListsInHeap(was, k);
    assert |was.bytes| == |was.lists| == |now.bytes|;
    hide HeapOk, Dead, Collected, Sum, FreedBytes;
    if k > 0 {
      BytesFreed(was, live, now, k - 1);
      ListCollected(was, live, now, k - 1);
      SumStep(was.bytes, k - 1);
      SumStep(now.bytes, k - 1);
      FreedStep(was.h, was.lists, live, k - 1);
    } else {
      NothingFreed(was.h, live);
      assert was.bytes[..k] == [] && now.bytes[..k] == [] && was.lists[..k] == [];
    }
  }

  lemma NothingFreed(h: Memory, live: set<Addr>)
    ensures Sum([]) == 0 && FreedBytes(h, [], live) == 0
  {
  }

  lemma FreedStep(h: Memory, lists: seq<seq<Addr>>, live: set<Addr>, k: nat)
    requires k < |lists| && forall l, a | l in lists[..k + 1] && a in l :: a in h
    ensures forall l, a | l in lists[..k] && a in l :: a in h
    ensures forall a | a in lists[k] :: a in h
    ensures FreedBytes(h, lists[..k + 1], live) == FreedBytes(h, lists[..k], live) + Dead(h, lists[k], live)
  {
    hide Dead;
    assert lists[..k + 1][..k] == lists[..k] && lists[..k + 1][k] == lists[k];
    assert forall l | l in lists[..k] :: l in lists[..k + 1];
  }

  lemma ListsInHeap(x: Heap, k: nat)
    requires HeapOk(x) && k <= |x.lists|
    ensures forall l, a | l in x.lists[..k] && a in l :: a in x.h
  {
    MembersIn(x);
    hide HeapOk;
    forall l, a | l in x.lists[..k] && a in l
      ensures a in x.h
    {
      assert l in x.lists && a in Members(x.lists);
    }
  }

  lemma ListCollected(was: Heap, live: set<Addr>, now: Heap, t: nat)
    requires HeapOk(was) && Collected(was, live, now) && t < |was.lists|
    ensures t < |was.bytes| == |now.bytes| && forall a | a in was.lists[t] :: a in was.h
    ensures now.bytes[t] == was.bytes[t] - Dead(was.h, was.lists[t], live)
  {
    hide HeapOk, Keep, Dead, Members, StringsIn;
  }

  // ----- allocation -----

  ghost function Grown(was: Heap, t: nat, a: Addr, o: Object): Heap
    requires t < |was.lists| == |was.heads| == |was.bytes|
  {
    Heap(was.h[a := o], was.info[a := SetNext(0, was.heads[t])], was.pool, was.heads[t := a],
         was.bytes[t := was.bytes[t] + 2 * SizeOf(o)], was.lists[t := [a] + was.lists[t]])
  }

  lemma Allocated(was: Heap, t: nat, a: Addr, o: Object)
    requires HeapOk(was) && Settled(was.h, was.info, was.lists) && t < |was.lists|
    requires a != NULL && a !in was.h && Children(o) <= was.h.Keys
    ensures HeapOk(Grown(was, t, a, o)) && Closed(Grown(was, t, a, o).h)
    ensures Settled(Grown(was, t, a, o).h, Grown(was, t, a, o).info, Grown(was, t, a, o).lists)
  {
    AllocatedOk(was, t, a, o);
    MembersIn(was);
    MembersGrow(was.lists, t, a);
    hide SetNext, NextOf, IsMarked, Children, Members, HeapOk;
    LinkNext(0, was.heads[t]);
    assert !IsMarked(0) by { Unmarked(); }
  }

  lemma AllocatedOk(was: Heap, t: nat, a: Addr, o: Object)
    requires HeapOk(was) && t < |was.lists| && a != NULL && a !in was.h
    ensures HeapOk(Grown(was, t, a, o))
  {
    var now := Grown(was, t, a, o);
    MembersIn(was);
    AddApart(was.lists, t, a);
    hide ListOk, Members, Apart;
    forall s: nat | s < |now.lists|
      ensures ListOk(now.h, now.info, now.heads[s], now.bytes[s], now.lists[s])
    {
      if s == t {
        Pushed(was, t, a, o);
      } else {
        NotPushed(was, t, a, o, s);
      }
    }
  }

  /** The places of an object that a program can write. */
  function Elements(o: Object): seq<LoxValue> {
    match o
    case StructInstance(fields, _) => fields
    case ArrayObject(values, _) => values
    case _ => []
  }

  lemma ElementChildren(o: Object, r: Object, i: nat, v: LoxValue)
    requires i < |Elements(o)| && Elements(r) == Elements(o)[i := v]
    ensures Children(r) <= Children(o) + RefsOf([v])
  {
    forall x | x in Elements(r) && x.Ref?
      ensures x in Elements(o) || x in [v]
    {
    }
  }

  /** Writing to an object on a list keeps what a collection asks for. */
  lemma Written(was: Heap, a: Addr, o: Object)
    requires HeapOk(was) && Settled(was.h, was.info, was.lists) && a in Members(was.lists) && a in was.h
    requires SizeOf(o) == SizeOf(was.h[a]) && Children(o) <= was.h.Keys
    ensures HeapOk(was.(h := was.h[a := o])) && Closed(was.h[a := o]) && Settled(was.h[a := o], was.info, was.lists)
  {
    hide Children, Linked, Distinct, Members, IsMarked;
    var h := was.h[a := o];
    forall t: nat | t < |was.lists|
      ensures ListOk(h, was.info, was.heads[t], was.bytes[t], was.lists[t])
    {
      assert ListOk(was.h, was.info, was.heads[t], was.bytes[t], was.lists[t]);
      forall b | b in was.lists[t]
        ensures b in was.h
      {
        InList(was.h, was.info, was.heads[t], was.bytes[t], was.lists[t], b);
      }
      SameSizes(was.h, h, was.lists[t]);
    }
  }

  lemma {:induction false} SameSizes(h: Memory, g: Memory, list: seq<Addr>)
    requires forall a | a in list :: a in h && a in g && SizeOf(h[a]) == SizeOf(g[a])
    ensures Dead(h, list, {}) == Dead(g, list, {})
  {
    if list != [] {
      SameSizes(h, g, list[..|list| - 1]);
    }
  }

  lemma AddApart(lists: seq<seq<Addr>>, t: nat, a: Addr)
    requires Apart(lists) && t < |lists| && a !in Members(lists)
    ensures Apart(lists[t := [a] + lists[t]])
  {
  }

  lemma NotPushed(was: Heap, t: nat, a: Addr, o: Object, s: nat)
    requires HeapOk(was) && t < |was.lists| && a !in was.h && s < |was.lists| && s != t
    ensures var now := Grown(was, t, a, o); ListOk(now.h, now.info, now.heads[s], now.bytes[s], now.lists[s])
  {
    var now := Grown(was, t, a, o);
    assert ListOk(was.h, was.info, was.heads[s], was.bytes[s], was.lists[s]);
    forall b | b in was.lists[s]
      ensures b in was.h && b != a
    {
      InList(was.h, was.info, was.heads[s], was.bytes[s], was.lists[s], b);
    }
    hide ListOk, SetNext;
    ListFrame(was.h, was.info, now.h, now.info, was.heads[s], was.bytes[s], was.lists[s]);
  }

  lemma Unmarked()
    ensures !IsMarked(0)
  {
  }

  lemma MembersGrow(lists: seq<seq<Addr>>, t: nat, a: Addr)
    requires t < |lists|
    ensures Members(lists[t := [a] + lists[t]]) == Members(lists) + {a}
  {
    var more := lists[t := [a] + lists[t]];
    forall b | b in Members(lists) + {a}
      ensures b in Members(more)
    {
      var s := t;
      if b in Members(lists) { s := MemberAt(lists, b); }
      assert more[s] in more && b in more[s];
    }
    forall b | b in Members(more)
      ensures b in Members(lists) + {a}
    {
      var s := MemberAt(more, b);
      assert lists[s] in lists;
    }
  }

  lemma {:induction false} DeadFront(h: Memory, a: Addr, list: seq<Addr>)
    requires forall b | b in [a] + list :: b in h
    ensures Dead(h, [a] + list, {}) == SizeOf(h[a]) + Dead(h, list, {})
  {
    if list == [] {
      assert [a] + list == [a];
    } else {
      var n := |list| - 1;
      assert ([a] + list)[..n + 1] == [a] + list[..n];
      DeadFront(h, a, list[..n]);
    }
  }

  lemma Pushed(was: Heap, t: nat, a: Addr, o: Object)
    requires HeapOk(was) && t < |was.lists| && a != NULL && a !in was.h
    ensures var now := Grown(was, t, a, o); ListOk(now.h, now.info, now.heads[t], now.bytes[t], now.lists[t])
  {
    var now, list := Grown(was, t, a, o), was.lists[t];
    assert ListOk(was.h, was.info, was.heads[t], was.bytes[t], list);
    assert a !in list;
    assert Distinct([a] + list);
    DeadFront(now.h, a, list);
    SameBytes(was.h, now.h, list, {});
    PushLinked(was.info, was.heads[t], list, a);
    hide Linked, Distinct, Dead, SetNext, HeapOk;
  }

  lemma PushLinked(info: map<Addr, Word>, head: Addr, list: seq<Addr>, a: Addr)
    requires Linked(info, head, list) && a != NULL && a !in info
    ensures Linked(info[a := SetNext(0, head)], a, [a] + list)
  {
    hide NextOf, SetNext;
    LinkNext(0, head);
    var more, info1 := [a] + list, info[a := SetNext(0, head)];
    assert forall b | b in info :: b in info1 && info1[b] == info[b];
    LinkFacts(info, head, list);
    hide Linked;
    forall i: nat | i < |more|
      ensures more[i] in info1 && more[i] != NULL && NextOf(info1[more[i]]) == Nth(more, i + 1)
    {
      if i > 0 { assert more[i] == list[i - 1] && Nth(more, i + 1) == Nth(list, i - 1 + 1); }
    }
    Relinked(info1, a, more);
  }

  lemma MarkBegins(h: Memory, info: map<Addr, Word>, roots: set<Addr>)
    requires info.Keys == h.Keys
    ensures Tri(h, info, info, [], [], roots, {})
  {
  }

  lemma RootsReachable(h: Memory, threads: seq<ThreadStack>, packages: seq<Package>)
    ensures forall t, a | t in threads && a in StackRoots(t) ::
              a in Roots(threads, packages) && Reachable(h, Roots(threads, packages), a)
    ensures forall p, a | p in packages && a in GlobalRoots(p) ::
              a in Roots(threads, packages) && Reachable(h, Roots(threads, packages), a)
  {
    hide Reachable, StackRoots, GlobalRoots;
    forall a | a in Roots(threads, packages)
      ensures Reachable(h, Roots(threads, packages), a)
    {
      RootReachable(h, Roots(threads, packages), a);
    }
  }

  /** Marks do not touch the links. */
  lemma ListMarked(h: Memory, base: map<Addr, Word>, info: map<Addr, Word>, entered: seq<Addr>, head: Addr, bytes: int,
                   list: seq<Addr>)
    requires MarkedFrom(h, base, info, entered) && ListOk(h, base, head, bytes, list)
    ensures ListOk(h, info, head, bytes, list)
  {
    hide SetMarked, NextOf, IsMarked, Distinct, Dead, Nth;
    forall a | a in list
      ensures NextOf(info[a]) == NextOf(base[a])
    {
      MarkBit(base[a]);
    }
  }

  lemma MarkedOk(was: Heap, marked: Heap, entered: seq<Addr>)
    requires HeapOk(was) && marked == was.(info := marked.info) && MarkedFrom(was.h, was.info, marked.info, entered)
    ensures HeapOk(marked)
  {
    assert marked.info.Keys == marked.h.Keys;
    hide MarkedFrom, ListOk, Apart;
    forall t: nat | t < |was.lists|
      ensures ListOk(marked.h, marked.info, marked.heads[t], marked.bytes[t], marked.lists[t])
    {
      ListMarked(was.h, was.info, marked.info, entered, was.heads[t], was.bytes[t], was.lists[t]);
    }
  }

  lemma MembersIn(x: Heap)
    requires HeapOk(x)
    ensures Members(x.lists) <= x.h.Keys
  {
    hide Linked;
    forall l, a | l in x.lists && a in l
      ensures a in x.h
    {
      var t :| 0 <= t < |x.lists| && x.lists[t] == l;
      assert ListOk(x.h, x.info, x.heads[t], x.bytes[t], x.lists[t]);
      InList(x.h, x.info, x.heads[t], x.bytes[t], x.lists[t], a);
    }
  }

  lemma InList(h: Memory, info: map<Addr, Word>, head: Addr, bytes: int, list: seq<Addr>, a: Addr)
    requires ListOk(h, info, head, bytes, list) && a in list
    ensures a in h
  {
    assert a in info.Keys;
  }

  /** After marking, the marks on the lists tell what the roots reach. */
  lemma MarksRight(was: Heap, marked: Heap, entered: seq<Addr>, threads: seq<ThreadStack>, packages: seq<Package>)
    requires HeapOk(was) && Settled(was.h, was.info, was.lists)
    requires marked == was.(info := marked.info)
    requires Tri(was.h, was.info, marked.info, entered, [], Roots(threads, packages), {})
    requires Roots(threads, packages) <= was.h.Keys
    requires forall t, a | t in threads && a in StackRoots(t) :: a in marked.info && IsMarked(marked.info[a])
    requires forall p, a | p in packages && a in GlobalRoots(p) :: a in marked.info && IsMarked(marked.info[a])
    ensures HeapOk(marked)
    ensures forall a | a in Members(was.lists) && a in marked.info :: a in entered <==> IsMarked(marked.info[a])
    ensures forall a | a in Members(was.lists) :: a in entered <==> a in Reached(was.h, Roots(threads, packages))
  {
    hide StackRoots, GlobalRoots, Children, SetMarked, IsMarked, Members, HeapOk, Closed, Reachable;
    var roots := Roots(threads, packages);
    MarkedOk(was, marked, entered);
    MembersIn(was);
    assert forall a | a in roots :: a in was.h && IsMarked(marked.info[a]);
    MarkedIsReachable(was.h, was.info, marked.info, entered, roots, Members(was.lists));
    forall a | a in Members(was.lists)
      ensures a in entered <==> IsMarked(marked.info[a])
    {
      MarkBit(was.info[a]);
    }
  }

  /** What stays refers only to what stays. */
  lemma StaysClosed(h: Memory, roots: set<Addr>, heap: set<Addr>, left: Memory)
    requires Closed(h) && heap <= h.Keys && (forall a | a in h && a !in heap :: Children(h[a]) !! heap)
    requires left == h - (heap - Reached(h, roots))
    ensures Closed(left)
  {
    hide Children, Reachable;
    forall a, c | a in left && c in Children(left[a])
      ensures c in left
    {
      assert c in h;
      if a in heap && c in heap { ChildReachable(h, roots, a, c); }
    }
  }

  lemma SweptAll(was: Heap, marked: Heap, live: set<Addr>, reached: set<Addr>, now: Heap)
    requires HeapOk(was) && HeapOk(marked) && marked == was.(info := marked.info)
    requires SweptThreads(marked, live, |marked.lists|, now)
    requires forall a | a in Members(was.lists) :: a in live <==> a in reached
    ensures Collected(was, reached, now)
    ensures forall t: nat, a | t < |was.lists| && a in now.lists[t] :: a in was.lists[t] && a in now.info && !IsMarked(now.info[a])
  {
    hide IsMarked, HeapOk, Keep, Dead, Waiting;
    assert was.lists[..|was.lists|] == was.lists;
    assert Members(was.lists) - live == Members(was.lists) - reached;
    Sizes(was);
    Sizes(now);
    forall t: nat | t < |was.lists|
      ensures Done(was, reached, t, now)
      ensures forall a | a in now.lists[t] :: a in was.lists[t]
    {
      assert Done(marked, live, t, now);
      assert forall a | a in was.lists[t] :: a in Members(was.lists);
      SameKept(was.lists[t], live, reached);
      SameDead(was.h, was.lists[t], live, reached);
      KeepIn(was.lists[t], live);
    }
  }

  lemma Finished(was: Heap, marked: Heap, live: set<Addr>, roots: set<Addr>, now: Heap)
    requires HeapOk(was) && Settled(was.h, was.info, was.lists) && HeapOk(marked) && marked == was.(info := marked.info)
    requires SweptThreads(marked, live, |marked.lists|, now)
    requires forall a | a in Members(was.lists) :: a in live <==> a in Reached(was.h, roots)
    ensures Collected(was, Reached(was.h, roots), now) && HeapOk(now) && Settled(now.h, now.info, now.lists)
    ensures now.info.Keys == now.h.Keys
  {
    SweptAll(was, marked, live, Reached(was.h, roots), now);
    MembersIn(was);
    StaysClosed(was.h, roots, Members(was.lists), now.h);
    StillSettled(was, roots, now);
  }

  /** What is left is what is needed. */
  lemma Needed(was: Heap, threads: seq<ThreadStack>, packages: seq<Package>, now: Heap)
    requires HeapOk(was) && Settled(was.h, was.info, was.lists) && Roots(threads, packages) <= was.h.Keys
    requires Collected(was, Reached(was.h, Roots(threads, packages)), now) && Closed(now.h)
    ensures NothingLost(threads, packages, now.h) && NothingIdle(threads, packages, now.h, now.lists)
    ensures forall a | a in now.h :: a in was.h && now.h[a] == was.h[a]
  {
    hide HeapOk, Settled, Children, Roots, Reachable, Closed, NothingLost, HeldOutside, Refers;
    var roots := Roots(threads, packages);
    var live := Reached(was.h, roots);
    assert now.h == was.h - (Members(was.lists) - live);
    forall a | a in roots
      ensures a in now.h
    {
      RootReachable(was.h, roots, a);
    }
    NotLost(threads, packages, now.h);
    SameMembers(was, live, now);
    forall a | a in Members(now.lists)
      ensures exists p :: Chained(threads, packages, now.h, p, a)
    {
      var p := ReachedChain(was.h, threads, packages, now.h, a);
    }
  }

  lemma NotLost(threads: seq<ThreadStack>, packages: seq<Package>, h: Memory)
    requires Roots(threads, packages) <= h.Keys && Closed(h)
    ensures NothingLost(threads, packages, h)
  {
    hide Roots, Children, Refers;
    forall t, a | t in threads && !t.pendingGc && Ref(a) in t.values
      ensures a in h
    {
      RootsAre(threads, packages, a);
    }
    forall p, g | p in packages && !p.pendingCompilation && g in p.globals
      ensures g.1 in h && (g.0.Ref? ==> g.0.a in h)
    {
      RootsAre(threads, packages, g.1);
      if g.0.Ref? { RootsAre(threads, packages, g.0.a); }
    }
    forall a, b | a in h && Refers(h[a], b)
      ensures b in h
    {
      ChildrenAre(h[a], b);
    }
  }

  /** The path that reaches an object is still there. */
  lemma ReachedChain(h: Memory, threads: seq<ThreadStack>, packages: seq<Package>, left: Memory, a: Addr) returns (p: seq<Addr>)
    requires Reachable(h, Roots(threads, packages), a)
    requires forall b | b in h && Reachable(h, Roots(threads, packages), b) :: b in left && left[b] == h[b]
    ensures Chained(threads, packages, left, p, a)
  {
    var roots := Roots(threads, packages);
    p :| Path(h, p) && p[0] in roots && p[|p| - 1] == a;
    RootsAre(threads, packages, p[0]);
    hide Roots, HeldOutside, Children, Refers, Reachable;
    forall i: nat | i + 1 < |p|
      ensures p[i] in left && Refers(left[p[i]], p[i + 1])
    {
      OnPath(h, roots, p, i);
      ChildrenAre(h[p[i]], p[i + 1]);
    }
  }

  lemma ChainsReach(h: Memory, threads: seq<ThreadStack>, packages: seq<Package>, lists: seq<seq<Addr>>)
    requires Members(lists) <= h.Keys
    ensures forall a | a in Members(lists) ::
              a in Reached(h, Roots(threads, packages)) <==> exists p :: Chained(threads, packages, h, p, a)
  {
    hide Members, Roots, Reachable, Chained;
    forall a | a in Members(lists)
      ensures a in Reached(h, Roots(threads, packages)) <==> exists p :: Chained(threads, packages, h, p, a)
    {
      if Reachable(h, Roots(threads, packages), a) {
        var p := ReachedChain(h, threads, packages, h, a);
      }
      if p :| Chained(threads, packages, h, p, a) {
        ChainReached(h, threads, packages, p, a);
      }
    }
  }

  lemma ChainReached(h: Memory, threads: seq<ThreadStack>, packages: seq<Package>, p: seq<Addr>, a: Addr)
    requires Chained(threads, packages, h, p, a)
    ensures Reachable(h, Roots(threads, packages), a)
  {
    RootsAre(threads, packages, p[0]);
    hide Roots, HeldOutside, Children, Refers;
    forall i | 0 <= i < |p| - 1
      ensures p[i] in h && p[i + 1] in Children(h[p[i]])
    {
      ChildrenAre(h[p[i]], p[i + 1]);
    }
    assert Path(h, p);
  }

  lemma OnPath(h: Memory, roots: set<Addr>, p: seq<Addr>, i: nat)
    requires Path(h, p) && p[0] in roots && i < |p|
    ensures Reachable(h, roots, p[i])
  {
    assert Path(h, p[..i + 1]);
  }

  lemma StillSettled(was: Heap, roots: set<Addr>, now: Heap)
    requires HeapOk(was) && Settled(was.h, was.info, was.lists) && HeapOk(now) && Closed(now.h)
    requires Collected(was, Reached(was.h, roots), now)
    requires forall t: nat, a | t < |was.lists| && a in now.lists[t] :: a in was.lists[t] && a in now.info && !IsMarked(now.info[a])
    ensures Settled(now.h, now.info, now.lists)
  {
    SameMembers(was, Reached(was.h, roots), now);
    assert now.info.Keys == now.h.Keys;
    OffListsStay(was.h, Members(was.lists), Reached(was.h, roots), now.h);
    hide Children, Closed, HeapOk, IsMarked, Reached, Members, Keep, Dead;
    forall a | a in Members(now.lists)
      ensures !IsMarked(now.info[a])
    {
      var t := MemberAt(now.lists, a);
    }
  }

  lemma MemberAt(lists: seq<seq<Addr>>, a: Addr) returns (t: nat)
    requires a in Members(lists)
    ensures t < |lists| && a in lists[t]
  {
    var l :| l in lists && a in l;
    t :| 0 <= t < |lists| && lists[t] == l;
  }

  lemma OffListsStay(h: Memory, heap: set<Addr>, live: set<Addr>, left: Memory)
    requires forall a | a in h && a !in heap :: Children(h[a]) !! heap
    requires left == h - (heap - live)
    ensures forall a | a in left && a !in heap * live :: Children(left[a]) !! heap * live
  {
    hide Children;
    forall a | a in left && a !in heap * live
      ensures Children(left[a]) !! heap * live
    {
      assert a !in heap && left[a] == h[a];
    }
  }

  lemma SameMembers(was: Heap, live: set<Addr>, now: Heap)
    requires HeapOk(was) && Collected(was, live, now)
    ensures Members(now.lists) == Members(was.lists) * live && Members(now.lists) <= Members(was.lists)
  {
    hide HeapOk, Dead, Keep;
    forall l, a | l in now.lists && a in l
      ensures a in Members(was.lists) && a in live
    {
      var t :| 0 <= t < |now.lists| && now.lists[t] == l;
      KeepIn(was.lists[t], live);
      assert was.lists[t] in was.lists;
    }
    forall l, a | l in was.lists && a in l && a in live
      ensures a in Members(now.lists)
    {
      var t :| 0 <= t < |was.lists| && was.lists[t] == l;
      KeepIn(was.lists[t], live);
      assert now.lists[t] in now.lists;
    }
  }

  /** Where the loop of the sweep stands. */
  lemma SweepAt(was: Part, list: seq<Addr>, live: set<Addr>, k: nat, now: Part)
    requires k <= |list| && (forall a | a in list :: a in was.h) && Sweeping(was, list, live, k, now)
    requires Nth(list, k) != NULL && Distinct(list)
    ensures k < |list| && Nth(list, k) == list[k] && list[k] in now.info && list[k] in now.h && now.h[list[k]] == was.h[list[k]]
    ensures (list[k] in live <==> IsMarked(now.info[list[k]])) && NextOf(now.info[list[k]]) == Nth(list, k + 1)
    ensures var p := Last(Keep(list[..k], live));
            (p != NULL ==> p in now.info && p != list[k])
            && Last(Keep(list[..k + 1], live)) == if list[k] in live then list[k] else p
  {
    hide IsMarked, NextOf;
    var kept := Keep(list[..k], live);
    assert list[k..][0] == list[k] && list[k..][1..] == list[k + 1..];
    LinkedHere(now.info, now.head, kept, list[k..]);
    KeptApart(list, live, k);
    assert list[..k + 1][..k] == list[..k];
    if kept != [] { assert (kept + list[k..])[|kept| - 1] == Last(kept); }
  }

  lemma SweepStops(list: seq<Addr>, k: nat)
    requires k <= |list| && forall a | a in list :: a != NULL
    ensures Nth(list, k) == NULL ==> k == |list|
  {
    if k < |list| { assert list[k] in list; }
  }
}
