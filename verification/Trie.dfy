// A trie over case-folded keys of letters and underscores: linked nodes on the heap,
// with the key, its length and the data in the node where the key ends.
module Trie {
  import opened Wrappers

  const TRIE_CHARS := 31

  function Upper(c: char): char {
    if 'a' <= c <= 'z' then (c as int - 32) as char else c
  }

  /** The characters a node has children for: upper case ones from 'A' to '_'. */
  predicate InAlphabet(c: char) {
    'A' <= Upper(c) <= '_'
  }

  predicate IsKey(key: string) {
    forall c | c in key :: InAlphabet(c)
  }

  function Index(c: char): (i: nat)
    requires InAlphabet(c)
    ensures i < TRIE_CHARS
  {
    Upper(c) as int - 65
  }

  /** The way from the head to the node of a key. */
  function Path(key: string): (path: seq<nat>)
    requires IsKey(key)
    ensures |path| == |key|
  {
    if key == "" then [] else Path(key[..|key| - 1]) + [Index(key[|key| - 1])]
  }

  function UpperCase(key: string): (r: string)
    ensures |r| == |key|
  {
    if key == "" then "" else UpperCase(key[..|key| - 1]) + [Upper(key[|key| - 1])]
  }

  lemma {:induction false} PathAt(key: string, i: nat)
    requires IsKey(key) && i < |key|
    ensures Path(key)[i] == Index(key[i]) && UpperCase(key)[i] == Upper(key[i])
  {
    if i < |key| - 1 { PathAt(key[..|key| - 1], i); }
  }

  /** The same character, or the same letter in the other case. */
  predicate SameLetter(c: char, d: char) {
    c == d || ('a' <= c <= 'z' && c as int == d as int + 32) || ('a' <= d <= 'z' && d as int == c as int + 32)
  }

  lemma LetterIs(c: char, d: char)
    requires InAlphabet(c) && InAlphabet(d)
    ensures Index(c) == Index(d) <==> SameLetter(c, d)
  {
  }

  /** Two keys share their way exactly when they differ in case only. */
  lemma SamePath(a: string, b: string)
    requires IsKey(a) && IsKey(b)
    ensures Path(a) == Path(b) <==> UpperCase(a) == UpperCase(b)
  {
    if |a| == |b| {
      forall i: nat | i < |a|
        ensures (Path(a)[i] == Path(b)[i]) == (UpperCase(a)[i] == UpperCase(b)[i])
      {
        PathAt(a, i);
        PathAt(b, i);
      }
      assert Path(a) == Path(b) <==> forall i: nat | i < |a| :: Path(a)[i] == Path(b)[i];
      assert UpperCase(a) == UpperCase(b) <==> forall i: nat | i < |a| :: UpperCase(a)[i] == UpperCase(b)[i];
    }
  }

  /** Keys are made of letters and the characters between 'Z' and 'a', up to '_'. */
  lemma KeyIs(key: string)
    ensures IsKey(key) <==> forall i: nat | i < |key| :: 'A' <= key[i] <= '_' || 'a' <= key[i] <= 'z'
  {
    forall i: nat | i < |key|
      ensures InAlphabet(key[i]) <==> 'A' <= key[i] <= '_' || 'a' <= key[i] <= 'z'
    {
    }
    if IsKey(key) {
      assert forall i: nat | i < |key| :: key[i] in key;
    }
  }

  /** Letter by letter: in every place the same character, or the same letter in the
      other case. */
  lemma SameButCase(a: string, b: string)
    requires IsKey(a) && IsKey(b)
    ensures Path(a) == Path(b) <==> |a| == |b| && forall i: nat | i < |a| :: SameLetter(a[i], b[i])
  {
    hide Path, SameLetter, Index;
    if |a| == |b| {
      forall i: nat | i < |a|
        ensures Path(a)[i] == Path(b)[i] <==> SameLetter(a[i], b[i])
      {
        PathAt(a, i);
        PathAt(b, i);
        LetterIs(a[i], b[i]);
      }
      EqualAt(Path(a), Path(b));
    }
  }

  lemma EqualAt(p: seq<nat>, q: seq<nat>)
    requires |p| == |q|
    ensures p == q <==> forall i: nat | i < |p| :: p[i] == q[i]
  {
  }

  lemma {:induction false} UpperIsKey(key: string)
    requires IsKey(key)
    ensures IsKey(UpperCase(key)) && Path(UpperCase(key)) == Path(key)
  {
    if key != "" {
      UpperIsKey(key[..|key| - 1]);
    }
  }

  class TrieNode {
    var nodes: seq<TrieNode?>
    var key: Option<string>
    var keyLength: nat
    var depth: nat
    var data: Option<nat>

    constructor ()
      ensures nodes == seq(TRIE_CHARS, i => null) && key == None && data == None && keyLength == 0 && depth == 0
    {
      nodes, key, data, keyLength, depth := seq(TRIE_CHARS, i => null), None, None, 0, 0;
    }

    /** What a node at the end of a path holds. */
    ghost predicate Fits(path: seq<nat>)
      reads `key, `keyLength, `depth, `data
    {
      && depth == (if path == [] then 0 else |path| - 1)
      && (key == None ==> data == None && keyLength == 0)
      && (key != None ==> IsKey(key.value) && Path(key.value) == path && keyLength == |path|)
    }
  }

  // Every node by the way to it.
  type Nodes = map<seq<nat>, TrieNode>

  /** One way to every node, and every node on the way. */
  ghost predicate Tree(at: Nodes, head: TrieNode) {
    && [] in at && at[[]] == head
    && (forall p, q | p in at && q in at :: p != q ==> at[p] != at[q])
    && (forall p | p in at && p != [] :: p[..|p| - 1] in at && p[|p| - 1] < TRIE_CHARS)
  }

  /** The children of every node. */
  ghost predicate Linked(at: Nodes, rows: map<seq<nat>, seq<TrieNode?>>) {
    && rows.Keys == at.Keys
    && (forall p | p in at :: |rows[p]| == TRIE_CHARS)
    && forall p, i: nat | p in at && i < TRIE_CHARS :: rows[p][i] == (if p + [i] in at then at[p + [i]] else null)
  }

  ghost function Rows(at: Nodes): map<seq<nat>, seq<TrieNode?>>
    reads at.Values`nodes
  {
    map p | p in at :: at[p].nodes
  }

  ghost predicate AllFit(at: Nodes)
    reads at.Values`key, at.Values`keyLength, at.Values`depth, at.Values`data
  {
    forall p | p in at :: at[p].Fits(p)
  }

  /** The table that the nodes stand for. */
  ghost function Table(at: Nodes): map<seq<nat>, Option<nat>>
    reads at.Values`key, at.Values`data
  {
    map p | p in at && at[p].key != None :: at[p].data
  }

  // What a new node keeps.

  lemma OneNode(node: TrieNode)
    requires node.Fits([]) && node.key == None && node.nodes == seq(TRIE_CHARS, i => null)
    ensures var at: Nodes := map[[] := node]; Tree(at, node) && AllFit(at) && Linked(at, Rows(at)) && Table(at) == map[]
  {
    var at: Nodes := map[[] := node];
    assert Rows(at) == map[[] := node.nodes];
    assert forall p: seq<nat>, i: nat :: p + [i] != [];
  }

  lemma TreeMore(at: Nodes, head: TrieNode, path: seq<nat>, c: nat, child: TrieNode)
    requires Tree(at, head) && path in at && c < TRIE_CHARS && child !in at.Values && path + [c] !in at
    ensures Tree(at[path + [c] := child], head)
  {
    assert (path + [c])[..|path|] == path;
    assert forall p | p in at :: at[p] in at.Values;
  }

  lemma LinkedMore(at: Nodes, rows: map<seq<nat>, seq<TrieNode?>>, path: seq<nat>, c: nat, child: TrieNode, none: seq<TrieNode?>)
    requires Linked(at, rows) && path in at && c < TRIE_CHARS && path + [c] !in at && none == seq(TRIE_CHARS, i => null)
    requires forall i: nat | i < TRIE_CHARS :: path + [c] + [i] !in at
    ensures Linked(at[path + [c] := child], rows[path := rows[path][c := child]][path + [c] := none])
  {
    var q := path + [c];
    var more, wider := at[q := child], rows[path := rows[path][c := child]][q := none];
    forall p, i: nat | p in more && i < TRIE_CHARS
      ensures wider[p][i] == (if p + [i] in more then more[p + [i]] else null)
    {
      assert |p + [i]| == |p| + 1;
      assert p + [i] == q ==> p == q[..|path|] == path && i == q[|path|] == c;
      if p == q { assert q + [i] !in at; }
    }
  }

  lemma TableMore(at: Nodes, q: seq<nat>, child: TrieNode)
    requires q !in at && child.key == None
    ensures Table(at[q := child]) == Table(at)
  {
  }

  lemma AllFitMore(at: Nodes, q: seq<nat>, child: TrieNode)
    requires AllFit(at) && child.Fits(q)
    ensures AllFit(at[q := child])
  {
  }

  lemma RowsMore(at: Nodes, rows: map<seq<nat>, seq<TrieNode?>>, path: seq<nat>, q: seq<nat>, child: TrieNode)
    requires path in at && q !in at && rows.Keys == at.Keys
    requires forall p | p in at && p != path :: at[p].nodes == rows[p]
    ensures Rows(at[q := child]) == rows[path := at[path].nodes][q := child.nodes]
  {
  }

  /** The rows before a change, of all nodes but one. */
  lemma OtherRows(at: Nodes, head: TrieNode, path: seq<nat>)
    requires Tree(at, head) && path in at
    ensures Rows(at).Keys == at.Keys && Rows(at)[path] == at[path].nodes
    ensures forall p | p in at && p != path :: at[p] != at[path] && Rows(at)[p] == at[p].nodes
  {
  }

  // What the end of a key changes.

  lemma Others(at: Nodes, head: TrieNode, path: seq<nat>)
    requires Tree(at, head) && AllFit(at) && path in at
    ensures Table(at).Keys <= at.Keys
    ensures forall p | p in at && p != path :: at[p] != at[path] && at[p].Fits(p) && SameEntry(at[p], Table(at), p)
  {
  }

  ghost predicate SameEntry(node: TrieNode, table: map<seq<nat>, Option<nat>>, p: seq<nat>)
    reads node`key, node`data
  {
    (p in table <==> node.key != None) && (p in table ==> table[p] == node.data)
  }

  lemma AllFitNow(at: Nodes, path: seq<nat>)
    requires path in at && at[path].Fits(path) && forall p | p in at && p != path :: at[p].Fits(p)
    ensures AllFit(at)
  {
  }

  lemma TableNow(at: Nodes, path: seq<nat>, table: map<seq<nat>, Option<nat>>)
    requires path in at && at[path].key != None && table.Keys <= at.Keys
    requires forall p | p in at && p != path :: SameEntry(at[p], table, p)
    ensures Table(at) == table[path := at[path].data]
  {
  }

  lemma NothingBelow(at: Nodes, head: TrieNode, path: seq<nat>)
    requires Tree(at, head) && path !in at
    ensures forall i: nat | i < TRIE_CHARS :: path + [i] !in at
  {
    forall i: nat | i < TRIE_CHARS
      ensures path + [i] !in at
    {
      assert (path + [i])[..|path|] == path;
    }
  }

  lemma {:induction false} NotBelow(at: Nodes, head: TrieNode, path: seq<nat>, i: nat)
    requires Tree(at, head) && i <= |path| && path[..i] !in at
    ensures path !in at
    decreases |path| - i
  {
    if i < |path| {
      assert path[..i + 1][..i] == path[..i];
      NotBelow(at, head, path, i + 1);
    } else {
      assert path[..i] == path;
    }
  }

  lemma ChildAt(at: Nodes, path: seq<nat>, i: nat)
    requires path in at && Linked(at, Rows(at)) && i < TRIE_CHARS
    ensures |at[path].nodes| == TRIE_CHARS && at[path].nodes[i] == (if path + [i] in at then at[path + [i]] else null)
  {
    assert Rows(at)[path] == at[path].nodes;
  }

  lemma FitsAt(at: Nodes, path: seq<nat>)
    requires path in at && AllFit(at)
    ensures at[path].Fits(path) && at[path] in at.Values
  {
  }

  lemma AtHead(at: Nodes, head: TrieNode)
    requires Tree(at, head)
    ensures [] in at && at[[]] == head
  {
  }

  lemma InTable(at: Nodes, path: seq<nat>)
    requires path in at
    ensures path in Table(at) <==> at[path].key != None
    ensures path in Table(at) ==> Table(at)[path] == at[path].data
  {
  }

  lemma NotInTable(at: Nodes, path: seq<nat>)
    requires path !in at
    ensures path !in Table(at)
  {
  }

  lemma InKey(key: string, i: nat)
    requires IsKey(key) && i < |key|
    ensures InAlphabet(key[i])
  {
    assert key[i] in key;
  }

  lemma PathMore(key: string, i: nat)
    requires IsKey(key) && i < |key|
    ensures InAlphabet(key[i]) && Path(key)[..i + 1] == Path(key)[..i] + [Index(key[i])]
  {
    hide Path, IsKey, Index, InAlphabet, UpperCase;
    InKey(key, i);
    PathAt(key, i);
    var path := Path(key);
    assert path[..i + 1] == path[..i] + [path[i]];
  }

  // The walk over the nodes with data.

  ghost predicate HasData(at: Nodes, q: seq<nat>)
    reads at.Values`data
  {
    q in at && at[q].data != None
  }

  /** The node of q is that of p or below it. */
  ghost predicate Leads(p: seq<nat>, q: seq<nat>) {
    p <= q
  }

  /** q leads through a child before the i-th. */
  ghost predicate Below(path: seq<nat>, q: seq<nat>, i: nat) {
    path < q && q[|path|] < i
  }

  ghost function Under(at: Nodes, path: seq<nat>): set<seq<nat>> {
    set q | q in at && path <= q
  }

  /** What a consumer was called with: the nodes at the ends of `ways`, none twice,
      and none that follows a key of `stop`. */
  ghost predicate Visited(at: Nodes, stop: set<string>, visited: seq<TrieNode>, ways: seq<seq<nat>>, goOn: bool)
    reads at.Values`data, at.Values`key
  {
    && |ways| == |visited|
    && (forall i: nat | i < |ways| :: HasData(at, ways[i]) && visited[i] == at[ways[i]] && at[ways[i]].key != None)
    && (forall i: nat, j: nat | i < j < |ways| :: ways[i] != ways[j])
    && (forall i: nat | i < |ways| :: at[ways[i]].key.value in stop <==> !goOn && i == |ways| - 1)
    && (!goOn ==> ways != [])
  }

  lemma DataAt(at: Nodes, q: seq<nat>)
    requires q in at
    ensures HasData(at, q) <==> at[q].data != None
  {
  }

  /** The way to a node that ends a key. */
  ghost function WayOf(node: TrieNode): seq<nat>
    reads node`key
  {
    if node.key != None && IsKey(node.key.value) then Path(node.key.value) else []
  }

  ghost predicate IsEntry(node: TrieNode, table: map<seq<nat>, Option<nat>>)
    reads node`key, node`data
  {
    node.key != None && WayOf(node) != [] && WayOf(node) in table && table[WayOf(node)] == node.data != None
  }

  ghost predicate EndsWalk(node: TrieNode, stop: set<string>)
    reads node`key
  {
    node.key != None && node.key.value in stop
  }

  lemma FromHead()
    ensures forall q :: Leads([], q)
  {
  }

  /** What was visited, said of the table. */
  lemma Entries(at: Nodes, stop: set<string>, visited: seq<TrieNode>, ways: seq<seq<nat>>, goOn: bool)
    requires AllFit(at) && Visited(at, stop, visited, ways, goOn) && forall q | q in ways :: q != []
    ensures |visited| == |ways|
    ensures forall i: nat | i < |visited| :: WayOf(visited[i]) == ways[i] && IsEntry(visited[i], Table(at))
    ensures forall i: nat, j: nat | i < j < |visited| :: WayOf(visited[i]) != WayOf(visited[j])
    ensures forall i: nat | i < |visited| :: EndsWalk(visited[i], stop) <==> !goOn && i == |visited| - 1
    ensures forall q | q in Table(at) && Table(at)[q] != None :: HasData(at, q)
  {
    forall i: nat | i < |visited|
      ensures WayOf(visited[i]) == ways[i] && IsEntry(visited[i], Table(at))
    {
      assert HasData(at, ways[i]) && at[ways[i]].key != None && ways[i] in ways;
      assert at[ways[i]].Fits(ways[i]);
    }
  }

  lemma VisitedNone(at: Nodes, stop: set<string>)
    ensures Visited(at, stop, [], [], true)
  {
  }

  lemma VisitedBoth(at: Nodes, stop: set<string>, visited: seq<TrieNode>, ways: seq<seq<nat>>,
                    more: seq<TrieNode>, moreWays: seq<seq<nat>>, goOn: bool)
    requires Visited(at, stop, visited, ways, true) && Visited(at, stop, more, moreWays, goOn)
    requires forall q | q in ways :: q !in moreWays
    ensures Visited(at, stop, visited + more, ways + moreWays, goOn)
  {
    hide HasData;
    var all := ways + moreWays;
    forall i: nat, j: nat | i < j < |all|
      ensures all[i] != all[j]
    {
      if i < |ways| <= j { assert all[i] in ways && all[j] in moreWays; }
    }
  }

  lemma VisitedOne(at: Nodes, stop: set<string>, q: seq<nat>)
    requires q in at && at[q].data != None && at[q].key != None
    ensures Visited(at, stop, [at[q]], [q], at[q].key.value !in stop)
  {
  }

  lemma Prefix(at: Nodes, head: TrieNode, q: seq<nat>, n: nat)
    requires Tree(at, head) && q in at && n <= |q|
    ensures q[..n] in at && (n > 0 ==> q[n - 1] < TRIE_CHARS)
  {
    if q[..n] !in at { NotBelow(at, head, q, n); }
    if n > 0 { assert q[..n] != [] && q[..n][n - 1] == q[n - 1]; }
  }

  /** What comes after the first i children: what is below the i-th. */
  lemma NextChild(at: Nodes, head: TrieNode, path: seq<nat>, i: nat)
    requires Tree(at, head)
    ensures forall q | HasData(at, q) && Below(path, q, i + 1) :: Below(path, q, i) || (path + [i] in at && Leads(path + [i], q))
    ensures forall q | Leads(path + [i], q) :: Below(path, q, i + 1) && !Below(path, q, i)
    ensures forall q | Below(path, q, i) :: Below(path, q, i + 1)
  {
    hide Tree;
    forall q | HasData(at, q) && Below(path, q, i + 1) && !Below(path, q, i)
      ensures path + [i] in at && Leads(path + [i], q)
    {
      assert q[..|path| + 1] == path + [i];
      Prefix(at, head, q, |path| + 1);
    }
    forall q | Leads(path + [i], q)
      ensures Below(path, q, i + 1) && !Below(path, q, i)
    {
      ThroughChild(path, q, i);
    }
  }

  lemma ThroughChild(path: seq<nat>, q: seq<nat>, i: nat)
    requires path + [i] <= q
    ensures path < q && q[|path|] == i
  {
    var p := path + [i];
    assert forall k: nat | k < |p| :: p[k] == q[k];
    assert forall k: nat | k < |path| :: path[k] == p[k] == q[k];
    assert p[|path|] == i;
  }

  lemma NoChildLeft(at: Nodes, head: TrieNode, path: seq<nat>)
    requires Tree(at, head)
    ensures forall q | HasData(at, q) && Leads(path, q) :: q == path || Below(path, q, TRIE_CHARS)
    ensures forall q, i | Below(path, q, i) :: Leads(path, q) && q != path
    ensures Leads(path, path) && forall q :: !Below(path, q, 0)
  {
    hide Tree;
    forall q | HasData(at, q) && Leads(path, q)
      ensures q == path || Below(path, q, TRIE_CHARS)
    {
      if q != path { Prefix(at, head, q, |path| + 1); }
    }
  }

  lemma FewerUnder(at: Nodes, path: seq<nat>, i: nat)
    requires path in at
    ensures Under(at, path + [i]) < Under(at, path)
  {
    assert path in Under(at, path) && path !in Under(at, path + [i]);
    forall q | q in Under(at, path + [i])
      ensures q in Under(at, path)
    {
      ThroughChild(path, q, i);
    }
  }

  class TrieList {
    var head: TrieNode
    var size: nat
    ghost var at: Nodes

    ghost predicate Shape()
      reads this, at.Values
    {
      Tree(at, head) && AllFit(at) && Linked(at, Rows(at))
    }

    ghost predicate Valid()
      reads this, at.Values
    {
      Shape() && size == |Table(at)|
    }

    constructor ()
      ensures Valid() && Table(at) == map[] && fresh(at.Values)
    {
      hide Tree, AllFit, Linked, Rows, Table;
      var node := new TrieNode();
      head, size, at := node, 0, map[[] := node];
      OneNode(node);
    }

    /** The node as deep on the way of a key as there is one. */
    method FindNode(key: string) returns (node: TrieNode, ghost n: nat)
      requires Shape() && IsKey(key)
      ensures n <= |key| && Path(key)[..n] in at && node == at[Path(key)[..n]]
      ensures n < |key| ==> Path(key) !in at
      ensures Path(key) in at ==> node == at[Path(key)]
    {
      hide Tree, Linked, AllFit, Path, IsKey, InAlphabet;
      ghost var path := Path(key);
      AtHead(at, head);
      node, n := head, 0;
      assert path[..0] == [];
      for i := 0 to |key|
        invariant n == i && path[..i] in at && node == at[path[..i]]
      {
        PathMore(key, i);
        ChildAt(at, path[..i], Index(key[i]));
        var next := node.nodes[Index(key[i])];
        if next == null {
          NotBelow(at, head, path, i + 1);
          return;
        }
        node, n := next, i + 1;
      }
      assert path[..|key|] == path;
    }

    /** The data of a key, whatever its case. */
    method Find(key: string) returns (data: Option<nat>)
      requires Valid() && IsKey(key)
      ensures data == if Path(key) in Table(at) then Table(at)[Path(key)] else None
    {
      hide Tree, Linked, AllFit, Path, IsKey, UpperCase, Table;
      ghost var path := Path(key);
      var node, n := FindNode(key);
      FitsAt(at, path[..n]);
      assert n == |key| ==> path[..n] == path;
      if path in at { InTable(at, path); } else { NotInTable(at, path); }
      if node.key != None { SamePath(node.key.value, key); }
      if node.keyLength == |key| && (node.key == None || UpperCase(node.key.value) == UpperCase(key)) {
        data := node.data;
      } else {
        data := None;
      }
    }

    method Contains(key: string) returns (r: bool)
      requires Valid() && IsKey(key)
      ensures r <==> Path(key) in Table(at) && Table(at)[Path(key)] != None
    {
      var data := Find(key);
      r := data != None;
    }

    /** Hang a new node below one, where none was. */
    method AddNode(node: TrieNode, c: nat, depth: nat, ghost path: seq<nat>) returns (child: TrieNode)
      requires Shape() && path in at && node == at[path] && c < TRIE_CHARS && path + [c] !in at && depth == |path|
      modifies this`at, node`nodes
      ensures Shape() && fresh(child) && at == old(at)[path + [c] := child] && Table(at) == old(Table(at))
      ensures child.key == None && forall i: nat | i < TRIE_CHARS :: path + [c] + [i] !in at
    {
      hide Tree, Linked, AllFit, Path, IsKey, Table, Rows;
      NothingBelow(at, head, path + [c]);
      ChildAt(at, path, c);
      ghost var rows := Rows(at);
      child := new TrieNode();
      child.depth := depth;
      ghost var none := child.nodes;
      TreeMore(at, head, path, c, child);
      LinkedMore(at, rows, path, c, child, none);
      OtherRows(at, head, path);
      node.nodes := node.nodes[c := child];
      AllFitMore(at, path + [c], child);
      TableMore(at, path + [c], child);
      RowsMore(at, rows, path, path + [c], child);
      at := at[path + [c] := child];
    }

    /** Put a key that is not there; a key that is there keeps its data. */
    method Put(newKey: string, newData: Option<nat>) returns (ok: bool)
      requires Valid() && IsKey(newKey)
      modifies this, at.Values
      ensures Valid() && fresh(at.Values - old(at.Values))
      ensures ok <==> Path(newKey) !in old(Table(at))
      ensures Table(at) == if ok then old(Table(at))[Path(newKey) := newData] else old(Table(at))
    {
      hide Tree, Linked, AllFit, Path, IsKey, Table, Rows, InAlphabet;
      ghost var path := Path(newKey);
      var prev, created := head, false;
      AtHead(at, head);
      assert path[..0] == [];
      for i := 0 to |newKey|
        invariant Shape() && path[..i] in at && prev == at[path[..i]]
        invariant Table(at) == old(Table(at)) && size == old(size) && fresh(at.Values - old(at.Values))
        invariant created ==> prev.key == None && forall j: nat | j < TRIE_CHARS :: path[..i] + [j] !in at
      {
        PathMore(newKey, i);
        ChildAt(at, path[..i], Index(newKey[i]));
        var current := prev.nodes[Index(newKey[i])];
        if current == null {
          current := AddNode(prev, Index(newKey[i]), i, path[..i]);
          created := true;
        }
        prev := current;
      }
      assert path[..|newKey|] == path;
      InTable(at, path);
      ok := created || prev.key == None;
      if ok {
        SetKey(prev, newKey, newData, path);
        size := size + 1;
      }
    }

    /** Make a node the end of a key. */
    method SetKey(node: TrieNode, newKey: string, newData: Option<nat>, ghost path: seq<nat>)
      requires Shape() && IsKey(newKey) && path == Path(newKey) && path in at && node == at[path]
      modifies node`key, node`keyLength, node`data
      ensures Shape() && Table(at) == old(Table(at))[path := newData]
    {
      hide Tree, Linked, AllFit, Path, IsKey, Table, Rows, InAlphabet;
      Others(at, head, path);
      FitsAt(at, path);
      ghost var table := Table(at);
      UpperIsKey(newKey);
      node.key, node.keyLength, node.data := Some(UpperCase(newKey)), |newKey|, newData;
      AllFitNow(at, path);
      TableNow(at, path, table);
    }

    /** The walk through all children of a node. */
    method ForEachBelow(node: TrieNode, stop: set<string>, ghost path: seq<nat>)
      returns (visited: seq<TrieNode>, goOn: bool, ghost ways: seq<seq<nat>>)
      requires Shape() && path in at && node == at[path]
      ensures Visited(at, stop, visited, ways, goOn)
      ensures forall q | q in ways :: Leads(path, q) && q != path
      ensures goOn ==> forall q | HasData(at, q) && Leads(path, q) && q != path :: q in ways
      decreases Under(at, path), 0
    {
      hide Tree, Linked, AllFit, Rows, HasData, Visited, Under, Below, Leads;
      visited, goOn, ways := [], true, [];
      VisitedNone(at, stop);
      NoChildLeft(at, head, path);
      for i := 0 to TRIE_CHARS
        invariant goOn && Visited(at, stop, visited, ways, true)
        invariant forall q | q in ways :: Below(path, q, i)
        invariant forall q | HasData(at, q) && Below(path, q, i) :: q in ways
      {
        ChildAt(at, path, i);
        NextChild(at, head, path, i);
        if node.nodes[i] != null {
          FewerUnder(at, path, i);
          var more, go, moreWays := ForEachFrom(node.nodes[i], stop, path + [i]);
          VisitedBoth(at, stop, visited, ways, more, moreWays, go);
          visited, ways, goOn := visited + more, ways + moreWays, go;
          if !goOn { return; }
        }
      }
    }

    /** The walk from a node, the children before it; the consumer ends it behind the
        keys of `stop`.  `visited` is what it was called with, `ways` leads there. */
    method ForEachFrom(node: TrieNode, stop: set<string>, ghost path: seq<nat>)
      returns (visited: seq<TrieNode>, goOn: bool, ghost ways: seq<seq<nat>>)
      requires Shape() && path in at && node == at[path]
      ensures Visited(at, stop, visited, ways, goOn)
      ensures forall q | q in ways :: Leads(path, q)
      ensures goOn ==> forall q | HasData(at, q) && Leads(path, q) :: q in ways
      decreases Under(at, path), 1
    {
      hide Tree, Linked, AllFit, Rows, HasData, Visited, Under, Below, Leads;
      visited, goOn, ways := ForEachBelow(node, stop, path);
      FitsAt(at, path);
      DataAt(at, path);
      NoChildLeft(at, head, path);
      if goOn && node.data != None {
        VisitedOne(at, stop, path);
        VisitedBoth(at, stop, visited, ways, [node], [path], node.key.value !in stop);
        visited, goOn, ways := visited + [node], node.key.value !in stop, ways + [path];
      }
    }

    /** The walk over the trie: if nothing stops it, every key but the empty one
        that has data, once. */
    method ForEachNode(stop: set<string>) returns (visited: seq<TrieNode>, goOn: bool)
      requires Valid()
      ensures forall i: nat | i < |visited| :: IsEntry(visited[i], Table(at))
      ensures forall i: nat, j: nat | i < j < |visited| :: WayOf(visited[i]) != WayOf(visited[j])
      ensures goOn ==> forall q | q != [] && q in Table(at) && Table(at)[q] != None ::
                exists i: nat :: i < |visited| && WayOf(visited[i]) == q
      ensures forall i: nat | i < |visited| :: EndsWalk(visited[i], stop) <==> !goOn && i == |visited| - 1
    {
      hide Tree, Linked, AllFit, Rows, HasData, Visited, Under, Below, Leads, WayOf, IsEntry, EndsWalk;
      AtHead(at, head);
      ghost var ways;
      visited, goOn, ways := ForEachBelow(head, stop, []);
      FromHead();
      Entries(at, stop, visited, ways, goOn);
      forall q | goOn && q != [] && q in Table(at) && Table(at)[q] != None
        ensures exists i: nat :: i < |visited| && WayOf(visited[i]) == q
      {
        var i: nat :| i < |ways| && ways[i] == q;
        assert WayOf(visited[i]) == q;
      }
    }
  }
}
