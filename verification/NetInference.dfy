/** Electrical nets: the union-find of `inferNets` and what its answer means. */
module NetInference {
  import opened Common
  import opened HardwareProfile

  /** Two endpoints are wired when some edge joins them, in either direction. */
  predicate Wired(edges: seq<GraphEdge>, x: nat, y: nat) {
    GraphEdge(x, y) in edges || GraphEdge(y, x) in edges
  }

  ghost predicate IsPath(edges: seq<GraphEdge>, p: seq<nat>) {
    |p| > 0 && forall k :: 0 <= k < |p| - 1 ==> Wired(edges, p[k], p[k + 1])
  }

  ghost predicate PathFromTo(edges: seq<GraphEdge>, p: seq<nat>, x: nat, y: nat) {
    IsPath(edges, p) && p[0] == x && p[|p| - 1] == y
  }

  /** x and y lie in the same connected component. */
  ghost predicate Connected(edges: seq<GraphEdge>, x: nat, y: nat) {
    exists p :: PathFromTo(edges, p, x, y)
  }

  lemma {:induction false} ConnectedReflexive(edges: seq<GraphEdge>, x: nat)
    ensures Connected(edges, x, x)
  {
    assert PathFromTo(edges, [x], x, x);
  }

  lemma {:induction false} ConnectedSymmetric(edges: seq<GraphEdge>, x: nat, y: nat)
    requires Connected(edges, x, y)
    ensures Connected(edges, y, x)
  {
    var p :| PathFromTo(edges, p, x, y);
    var q := seq(|p|, i requires 0 <= i < |p| => p[|p| - 1 - i]);
    forall k | 0 <= k < |q| - 1 ensures Wired(edges, q[k], q[k + 1]) {
      assert Wired(edges, p[|p| - 2 - k], p[|p| - 2 - k + 1]);
    }
    assert PathFromTo(edges, q, y, x);
  }

  lemma {:induction false} ConnectedTransitive(edges: seq<GraphEdge>, x: nat, y: nat, z: nat)
    requires Connected(edges, x, y) && Connected(edges, y, z)
    ensures Connected(edges, x, z)
  {
    var p :| PathFromTo(edges, p, x, y);
    var q :| PathFromTo(edges, q, y, z);
    var r := p + q[1..];
    forall k | 0 <= k < |r| - 1 ensures Wired(edges, r[k], r[k + 1]) {
      if k < |p| - 1 {
        assert Wired(edges, p[k], p[k + 1]);
      } else {
        var j := k - (|p| - 1);
        assert r[k] == q[j] && r[k + 1] == q[j + 1];
        assert Wired(edges, q[j], q[j + 1]);
      }
    }
    assert PathFromTo(edges, r, x, z);
  }

  lemma {:induction false} ConnectedMonotone(edges: seq<GraphEdge>, more: seq<GraphEdge>, x: nat, y: nat)
    requires Connected(edges, x, y)
    requires forall u: nat, v: nat :: Wired(edges, u, v) ==> Wired(more, u, v)
    ensures Connected(more, x, y)
  {
    var p :| PathFromTo(edges, p, x, y);
    assert PathFromTo(more, p, x, y);
  }

  /** What one more edge adds to the relation: the classes of its two ends merge. */
  ghost predicate Merged(edges: seq<GraphEdge>, e: GraphEdge, x: nat, y: nat) {
    Connected(edges, x, y) ||
    (Connected(edges, x, e.a) && Connected(edges, e.b, y)) ||
    (Connected(edges, x, e.b) && Connected(edges, e.a, y))
  }

  lemma {:induction false} PathAfterEdge(edges: seq<GraphEdge>, e: GraphEdge, p: seq<nat>, x: nat, y: nat)
    requires PathFromTo(edges + [e], p, x, y)
    ensures Merged(edges, e, x, y)
    decreases |p|
  {
    if |p| == 1 {
      ConnectedReflexive(edges, x);
    } else {
      var z := p[1];
      var q := p[1..];
      forall k | 0 <= k < |q| - 1 ensures Wired(edges + [e], q[k], q[k + 1]) {
        assert Wired(edges + [e], p[k + 1], p[k + 1 + 1]);
      }
      PathAfterEdge(edges, e, q, z, y);
      assert Wired(edges + [e], p[0], p[0 + 1]);
      if Wired(edges, x, z) {
        assert PathFromTo(edges, [x, z], x, z);
        PrependStep(edges, e, x, z, y);
      } else {
        ConnectedReflexive(edges, e.a);
        ConnectedReflexive(edges, e.b);
        if Connected(edges, z, y) {
        } else if Connected(edges, z, e.a) && Connected(edges, e.b, y) {
          ConnectedSymmetric(edges, z, e.a);
        } else {
          ConnectedSymmetric(edges, z, e.b);
        }
        ThroughEdge(edges, e, x, z, y);
      }
    }
  }

  lemma {:induction false} PrependStep(edges: seq<GraphEdge>, e: GraphEdge, x: nat, z: nat, y: nat)
    requires Connected(edges, x, z) && Merged(edges, e, z, y)
    ensures Merged(edges, e, x, y)
  {
    if Connected(edges, z, y) {
      ConnectedTransitive(edges, x, z, y);
    } else if Connected(edges, z, e.a) && Connected(edges, e.b, y) {
      ConnectedTransitive(edges, x, z, e.a);
    } else {
      ConnectedTransitive(edges, x, z, e.b);
    }
  }

  lemma {:induction false} ThroughEdge(edges: seq<GraphEdge>, e: GraphEdge, x: nat, z: nat, y: nat)
    requires (x == e.a && z == e.b) || (x == e.b && z == e.a)
    requires Merged(edges, e, z, y)
    ensures Merged(edges, e, x, y)
  {
    ConnectedReflexive(edges, x);
    ConnectedReflexive(edges, z);
    if Connected(edges, z, y) {
    } else if Connected(edges, z, e.a) && Connected(edges, e.b, y) {
      if x == e.b {
      } else {
        ConnectedSymmetric(edges, z, e.a);
        ConnectedTransitive(edges, x, z, y);
      }
    } else {
      if x == e.a {
      } else {
        ConnectedSymmetric(edges, z, e.b);
        ConnectedTransitive(edges, x, z, y);
      }
    }
  }

  lemma {:induction false} AddEdge(edges: seq<GraphEdge>, e: GraphEdge, x: nat, y: nat)
    ensures Connected(edges + [e], x, y) <==> Merged(edges, e, x, y)
  {
    var more := edges + [e];
    if Connected(more, x, y) {
      var p :| PathFromTo(more, p, x, y);
      PathAfterEdge(edges, e, p, x, y);
    }
    if Merged(edges, e, x, y) {
      assert PathFromTo(more, [e.a, e.b], e.a, e.b);
      assert PathFromTo(more, [e.b, e.a], e.b, e.a);
      if Connected(edges, x, y) {
        ConnectedMonotone(edges, more, x, y);
      } else if Connected(edges, x, e.a) && Connected(edges, e.b, y) {
        ConnectedMonotone(edges, more, x, e.a);
        ConnectedMonotone(edges, more, e.b, y);
        ConnectedTransitive(more, x, e.a, e.b);
        ConnectedTransitive(more, x, e.b, y);
      } else {
        ConnectedMonotone(edges, more, x, e.b);
        ConnectedMonotone(edges, more, e.a, y);
        ConnectedTransitive(more, x, e.b, e.a);
        ConnectedTransitive(more, x, e.a, y);
      }
    }
  }

  lemma {:induction false} NoEdges(x: nat, y: nat)
    ensures Connected([], x, y) <==> x == y
  {
    ConnectedReflexive([], x);
    if Connected([], x, y) {
      var p :| PathFromTo([], p, x, y);
      assert |p| == 1 || Wired([], p[0], p[0 + 1]);
    }
  }

  // ----- the forest

  /** Node i is a root, or its parent is closer to the same root. */
  ghost predicate Climbs(parent: seq<nat>, root: seq<nat>, rank: seq<nat>, i: nat)
    requires i < |parent| == |root| == |rank|
  {
    var up, top := parent[i], root[i];
    && up < |parent| && top < |parent|
    && root[up] == top && root[top] == top && parent[top] == top
    && (if up == i then top == i else rank[up] < rank[i])
  }

  /** `root` and `rank` witness that `parent` is a forest: every chase climbs to one root. */
  ghost predicate Forest(parent: seq<nat>, root: seq<nat>, rank: seq<nat>) {
    && |root| == |rank| == |parent|
    && forall i: nat {:trigger Climbs(parent, root, rank, i)} :: i < |parent| ==> Climbs(parent, root, rank, i)
  }

  ghost predicate RootsAreComponents(root: seq<nat>, edges: seq<GraphEdge>) {
    forall x: nat, y: nat :: x < |root| && y < |root| ==> (root[x] == root[y] <==> Connected(edges, x, y))
  }

  method Chase(parent: array<nat>, start: nat, ghost root: seq<nat>, ghost rank: seq<nat>) returns (r: nat)
    requires start < parent.Length
    requires Forest(parent[..], root, rank)
    ensures r < parent.Length && r == root[start] && parent[r] == r
  {
    r := start;
    while parent[r] != r
      invariant r < parent.Length && root[r] == root[start]
      decreases rank[r]
    {
      assert Climbs(parent[..], root, rank, r);
      r := parent[r];
    }
    assert Climbs(parent[..], root, rank, r);
  }

  ghost function HangRoot(root: seq<nat>, a: nat, b: nat): seq<nat> {
    seq(|root|, i requires 0 <= i < |root| => if root[i] == b then a else root[i])
  }

  ghost function HangRank(root: seq<nat>, rank: seq<nat>, a: nat, b: nat): seq<nat>
    requires |rank| == |root| && a < |root|
  {
    seq(|root|, i requires 0 <= i < |root| => if root[i] == b then rank[i] + rank[a] + 1 else rank[i])
  }

  /** Hanging one root under another keeps the forest and merges exactly the two trees. */
  lemma {:induction false} HangKeepsForest(parent: seq<nat>, root: seq<nat>, rank: seq<nat>, a: nat, b: nat)
    requires Forest(parent, root, rank)
    requires a < |parent| && b < |parent| && a != b && parent[a] == a && parent[b] == b
    ensures Forest(parent[b := a], HangRoot(root, a, b), HangRank(root, rank, a, b))
  {
    var p, o, k := parent[b := a], HangRoot(root, a, b), HangRank(root, rank, a, b);
    assert Climbs(parent, root, rank, a) && Climbs(parent, root, rank, b);
    forall i: nat | i < |p| ensures Climbs(p, o, k, i) {
      assert Climbs(parent, root, rank, i);
    }
  }

  lemma {:induction false} HangMergesComponents(root: seq<nat>, edges: seq<GraphEdge>, e: GraphEdge)
    requires RootsAreComponents(root, edges)
    requires e.a < |root| && e.b < |root|
    ensures RootsAreComponents(if root[e.a] == root[e.b] then root else HangRoot(root, root[e.a], root[e.b]),
                               edges + [e])
  {
    forall x: nat, y: nat | x < |root| && y < |root|
      ensures var after := if root[e.a] == root[e.b] then root else HangRoot(root, root[e.a], root[e.b]);
              after[x] == after[y] <==> Connected(edges + [e], x, y)
    {
      AddEdge(edges, e, x, y);
    }
  }

  method UniteEdge(parent: array<nat>, e: GraphEdge, ghost root: seq<nat>, ghost rank: seq<nat>,
                   ghost edges: seq<GraphEdge>)
    returns (ghost root': seq<nat>, ghost rank': seq<nat>)
    requires e.a < parent.Length && e.b < parent.Length
    requires Forest(parent[..], root, rank) && RootsAreComponents(root, edges)
    modifies parent
    ensures Forest(parent[..], root', rank') && RootsAreComponents(root', edges + [e])
  {
    var a := Chase(parent, e.a, root, rank);
    var b := Chase(parent, e.b, root, rank);
    HangMergesComponents(root, edges, e);
    root', rank' := root, rank;
    if a != b {
      ghost var was := parent[..];
      HangKeepsForest(was, root, rank, a, b);
      parent[b] := a;
      assert parent[..] == was[b := a];
      root', rank' := HangRoot(root, a, b), HangRank(root, rank, a, b);
    }
  }

  method UniteEdges(graph: TopologyGraph) returns (parent: array<nat>, ghost root: seq<nat>, ghost rank: seq<nat>)
    requires graph.Bounded()
    ensures fresh(parent) && parent.Length == |graph.nodes|
    ensures Forest(parent[..], root, rank)
    ensures RootsAreComponents(root, graph.edges)
  {
    var n := |graph.nodes|;
    parent := new nat[n](i => i);
    root := seq(n, i requires 0 <= i < n => i);
    rank := seq(n, i => 0);
    SingletonForest(parent[..], root, rank);
    for edge := 0 to |graph.edges|
      invariant Forest(parent[..], root, rank)
      invariant RootsAreComponents(root, graph.edges[..edge])
    {
      root, rank := UniteEdge(parent, graph.edges[edge], root, rank, graph.edges[..edge]);
      assert graph.edges[..edge + 1] == graph.edges[..edge] + [graph.edges[edge]];
    }
    assert graph.edges[..|graph.edges|] == graph.edges;
  }

  lemma {:induction false} SingletonForest(parent: seq<nat>, root: seq<nat>, rank: seq<nat>)
    requires |parent| == |root| == |rank|
    requires forall i :: 0 <= i < |parent| ==> parent[i] == root[i] == i
    ensures Forest(parent, root, rank) && RootsAreComponents(root, [])
  {
    forall x: nat, y: nat | x < |root| && y < |root| ensures root[x] == root[y] <==> Connected([], x, y) {
      NoEdges(x, y);
    }
  }

  // ----- numbering

  /** The first node of each component, among the first n nodes. */
  ghost function Leaders(edges: seq<GraphEdge>, n: nat): set<nat> {
    set i: nat | i < n && Leads(edges, i)
  }

  /** No earlier node is connected to i. */
  ghost predicate Leads(edges: seq<GraphEdge>, i: nat) {
    forall j: nat :: j < i ==> !Connected(edges, j, i)
  }

  /** A net number identifies a component; components are numbered by their first node. */
  ghost predicate NumbersComponents(edges: seq<GraphEdge>, n: nat, netByNode: seq<nat>, netCount: nat) {
    && n <= |netByNode|
    && netCount == |Leaders(edges, n)|
    && (forall i: nat :: i < n ==> netByNode[i] < netCount)
    && (forall i: nat, j: nat :: i < n && j < n ==> (netByNode[i] == netByNode[j] <==> Connected(edges, i, j)))
    && (forall i: nat :: i < n && i in Leaders(edges, n) ==> netByNode[i] == |Leaders(edges, i)|)
  }

  /** Two of the first n nodes on net k carry different canonical identities. */
  ghost predicate Conflicting(nodes: seq<GraphNode>, n: nat, netByNode: seq<nat>, k: nat) {
    exists i: nat, j: nat :: i < n && j < n && n <= |nodes| && n <= |netByNode| &&
      netByNode[i] == k && netByNode[j] == k &&
      nodes[i].canonicalNet != NET_NONE && nodes[j].canonicalNet != NET_NONE &&
      nodes[i].canonicalNet != nodes[j].canonicalNet
  }

  /** Node i is the first on its net that names a canonical identity. */
  ghost predicate FirstNamed(nodes: seq<GraphNode>, netByNode: seq<nat>, i: nat)
    requires i < |nodes| && i < |netByNode|
  {
    nodes[i].canonicalNet != NET_NONE &&
    forall j: nat :: j < i && netByNode[j] == netByNode[i] ==> nodes[j].canonicalNet == NET_NONE
  }

  ghost predicate NamesNets(nodes: seq<GraphNode>, n: nat, netByNode: seq<nat>, canonicalByNet: seq<uint8>) {
    && n <= |nodes| && n <= |netByNode|
    && (forall i: nat :: i < n ==> netByNode[i] < |canonicalByNet|)
    && (forall i: nat :: i < n && FirstNamed(nodes, netByNode, i) ==>
          canonicalByNet[netByNode[i]] == nodes[i].canonicalNet)
    && (forall k: nat :: k < |canonicalByNet| && canonicalByNet[k] != NET_NONE ==>
          exists i: nat :: i < n && netByNode[i] == k && FirstNamed(nodes, netByNode, i))
  }

  ghost predicate FlagsConflicts(nodes: seq<GraphNode>, n: nat, netByNode: seq<nat>, conflictByNet: seq<bool>) {
    forall k: nat :: k < |conflictByNet| ==> (conflictByNet[k] <==> Conflicting(nodes, n, netByNode, k))
  }

  /** The whole answer for the first n nodes, said in terms of connectivity alone. */
  ghost predicate IsInference(nodes: seq<GraphNode>, edges: seq<GraphEdge>, n: nat, netByNode: seq<nat>,
                              canonicalByNet: seq<uint8>, conflictByNet: seq<bool>, netCount: nat)
  {
    && |netByNode| == |canonicalByNet| == |conflictByNet| == MAX_GRAPH_ENDPOINTS
    && NumbersComponents(edges, n, netByNode, netCount)
    && NamesNets(nodes, n, netByNode, canonicalByNet)
    && FlagsConflicts(nodes, n, netByNode, conflictByNet)
    && (forall i: nat :: n <= i < |netByNode| ==> netByNode[i] == 0)
  }

  lemma {:induction false} LeadersBounded(edges: seq<GraphEdge>, n: nat)
    ensures |Leaders(edges, n)| <= n
    ensures Leaders(edges, n + 1) == Leaders(edges, n) + (if Leads(edges, n) then {n} else {})
  {
    if n == 0 {
      assert Leaders(edges, 0) == {};
    } else {
      LeadersBounded(edges, n - 1);
    }
  }

  /** A node connected to none before it opens the next net. */
  lemma {:induction false} NumberFresh(edges: seq<GraphEdge>, i: nat, net: seq<nat>, count: nat)
    requires NumbersComponents(edges, i, net, count) && i < |net| && Leads(edges, i)
    ensures NumbersComponents(edges, i + 1, net[i := count], count + 1)
  {
    LeadersBounded(edges, i);
    var after := net[i := count];
    forall x: nat, y: nat | x < i + 1 && y < i + 1
      ensures after[x] == after[y] <==> Connected(edges, x, y)
    {
      ConnectedReflexive(edges, i);
      if Connected(edges, i, y) { ConnectedSymmetric(edges, i, y); }
    }
  }

  /** A node connected to an earlier one takes that one's net. */
  lemma {:induction false} NumberShared(edges: seq<GraphEdge>, i: nat, net: seq<nat>, count: nat, j: nat)
    requires NumbersComponents(edges, i, net, count) && i < |net|
    requires j < i && Connected(edges, j, i)
    ensures NumbersComponents(edges, i + 1, net[i := net[j]], count)
  {
    LeadersBounded(edges, i);
    var after := net[i := net[j]];
    ConnectedReflexive(edges, i);
    ConnectedSymmetric(edges, j, i);
    forall x: nat | x < i ensures Connected(edges, x, j) <==> Connected(edges, x, i)
                          ensures Connected(edges, j, x) <==> Connected(edges, i, x)
    {
      if Connected(edges, x, j) { ConnectedTransitive(edges, x, j, i); }
      if Connected(edges, x, i) { ConnectedTransitive(edges, x, i, j); }
      if Connected(edges, j, x) { ConnectedTransitive(edges, i, j, x); }
      if Connected(edges, i, x) { ConnectedTransitive(edges, j, i, x); }
    }
  }

  /** The canonical name and conflict flag of a net after one more node, as the loop computes them. */
  function NameAfter(named: uint8, canonical: uint8): uint8 {
    if named == NET_NONE then canonical else named
  }

  function ConflictAfter(flagged: bool, named: uint8, canonical: uint8): bool {
    flagged || (canonical != NET_NONE && named != NET_NONE && named != canonical)
  }

  lemma {:induction false} NameStep(nodes: seq<GraphNode>, i: nat, net: seq<nat>, names: seq<uint8>, flags: seq<bool>)
    requires i < |nodes| && i < |net| && net[i] < |names| == |flags|
    requires NamesNets(nodes, i, net, names) && FlagsConflicts(nodes, i, net, flags)
    ensures var k := net[i]; var c := nodes[i].canonicalNet;
            && NamesNets(nodes, i + 1, net, names[k := NameAfter(names[k], c)])
            && FlagsConflicts(nodes, i + 1, net, flags[k := ConflictAfter(flags[k], names[k], c)])
  {
    var k := net[i];
    NamedBefore(nodes, i, net, names, k);
    NamesAfter(nodes, i, net, names);
    FlagsAfter(nodes, i, net, names, flags);
  }

  lemma {:induction false} NamedBefore(nodes: seq<GraphNode>, i: nat, net: seq<nat>, names: seq<uint8>, k: nat)
    requires NamesNets(nodes, i, net, names) && k < |names|
    ensures names[k] == NET_NONE <==> forall j: nat :: j < i && net[j] == k ==> nodes[j].canonicalNet == NET_NONE
  {
    if j: nat :| j < i && net[j] == k && nodes[j].canonicalNet != NET_NONE {
      var f := LeastNamed(nodes, net, j);
      assert FirstNamed(nodes, net, f);
    }
  }

  lemma {:induction false} LeastNamed(nodes: seq<GraphNode>, net: seq<nat>, j: nat) returns (f: nat)
    requires j < |nodes| && j < |net| && nodes[j].canonicalNet != NET_NONE
    ensures f <= j && net[f] == net[j] && FirstNamed(nodes, net, f)
    decreases j
  {
    if FirstNamed(nodes, net, j) {
      f := j;
    } else {
      var e: nat :| e < j && net[e] == net[j] && nodes[e].canonicalNet != NET_NONE;
      f := LeastNamed(nodes, net, e);
    }
  }

  lemma {:induction false} NamesAfter(nodes: seq<GraphNode>, i: nat, net: seq<nat>, names: seq<uint8>)
    requires i < |nodes| && i < |net| && net[i] < |names|
    requires NamesNets(nodes, i, net, names)
    ensures NamesNets(nodes, i + 1, net, names[net[i] := NameAfter(names[net[i]], nodes[i].canonicalNet)])
  {
    var k := net[i];
    NamedBefore(nodes, i, net, names, k);
    var after := names[k := NameAfter(names[k], nodes[i].canonicalNet)];
    forall k': nat | k' < |after| && after[k'] != NET_NONE
      ensures exists j: nat :: j < i + 1 && net[j] == k' && FirstNamed(nodes, net, j)
    {
      if k' == k && names[k] == NET_NONE {
        assert FirstNamed(nodes, net, i);
      } else {
        assert names[k'] != NET_NONE;
      }
    }
  }

  lemma {:induction false} FlagsAfter(nodes: seq<GraphNode>, i: nat, net: seq<nat>, names: seq<uint8>, flags: seq<bool>)
    requires i < |nodes| && i < |net| && net[i] < |names| == |flags|
    requires NamesNets(nodes, i, net, names) && FlagsConflicts(nodes, i, net, flags)
    ensures FlagsConflicts(nodes, i + 1, net,
                           flags[net[i] := ConflictAfter(flags[net[i]], names[net[i]], nodes[i].canonicalNet)])
  {
    var k, c := net[i], nodes[i].canonicalNet;
    NamedBefore(nodes, i, net, names, k);
    forall k': nat | k' < |flags|
      ensures Conflicting(nodes, i + 1, net, k') <==>
              Conflicting(nodes, i, net, k') || (k' == k && c != NET_NONE && names[k] != NET_NONE && names[k] != c)
    {
      ConflictGrows(nodes, i, net, names, k');
    }
  }

  lemma {:induction false} ConflictGrows(nodes: seq<GraphNode>, i: nat, net: seq<nat>, names: seq<uint8>, k: nat)
    requires i < |nodes| && i < |net| && net[i] < |names| && k < |names|
    requires NamesNets(nodes, i, net, names)
    ensures Conflicting(nodes, i + 1, net, k) <==>
            Conflicting(nodes, i, net, k) ||
            (k == net[i] && nodes[i].canonicalNet != NET_NONE && names[k] != NET_NONE && names[k] != nodes[i].canonicalNet)
  {
    var c := nodes[i].canonicalNet;
    NamedBefore(nodes, i, net, names, k);
    if Conflicting(nodes, i + 1, net, k) && !Conflicting(nodes, i, net, k) {
      var x: nat, y: nat :| x < i + 1 && y < i + 1 && net[x] == k && net[y] == k &&
        nodes[x].canonicalNet != NET_NONE && nodes[y].canonicalNet != NET_NONE &&
        nodes[x].canonicalNet != nodes[y].canonicalNet;
      var f: nat :| f < i && net[f] == k && FirstNamed(nodes, net, f);
      assert nodes[f].canonicalNet == names[k];
    }
    if k == net[i] && c != NET_NONE && names[k] != NET_NONE && names[k] != c {
      var f: nat :| f < i && net[f] == k && FirstNamed(nodes, net, f);
      assert nodes[f].canonicalNet != nodes[i].canonicalNet;
    }
  }

  /** Which net a root was given, while the first i nodes have been numbered. */
  ghost predicate RootTable(root: seq<nat>, i: nat, net: seq<nat>, rootToNet: seq<nat>) {
    && i <= |root| && i <= |net|
    && (forall j: nat :: j < i ==> root[j] < |rootToNet| && rootToNet[root[j]] == net[j])
    && (forall r: nat :: r < |rootToNet| && rootToNet[r] != UINT16_MAX ==> exists j: nat :: j < i && root[j] == r)
  }

  /** A node no numbered node shares a root with opens a net. */
  lemma {:induction false} FreshRoot(edges: seq<GraphEdge>, i: nat, r: nat, root: seq<nat>, net: seq<nat>,
                                     rootToNet: seq<nat>, count: nat)
    requires i < |root| && i < |net| && r == root[i] < |rootToNet| && rootToNet[r] == UINT16_MAX && count < UINT16_MAX
    requires RootsAreComponents(root, edges) && RootTable(root, i, net, rootToNet)
    requires NumbersComponents(edges, i, net, count)
    ensures NumbersComponents(edges, i + 1, net[i := count], count + 1)
    ensures RootTable(root, i + 1, net[i := count], rootToNet[r := count])
  {
    forall j: nat | j < i ensures !Connected(edges, j, i) {
      assert rootToNet[root[j]] == net[j] < count;
    }
    NumberFresh(edges, i, net, count);
    var after, table := net[i := count], rootToNet[r := count];
    forall q: nat | q < |table| && table[q] != UINT16_MAX ensures exists j: nat :: j < i + 1 && root[j] == q {
      if q == r { assert i < i + 1 && root[i] == q; } else { assert rootToNet[q] != UINT16_MAX; }
    }
  }

  /** A node whose root already has a net joins it. */
  lemma {:induction false} KnownRoot(edges: seq<GraphEdge>, i: nat, r: nat, root: seq<nat>, net: seq<nat>,
                                     rootToNet: seq<nat>, count: nat)
    requires i < |root| && i < |net| && r == root[i] < |rootToNet| && rootToNet[r] != UINT16_MAX
    requires RootsAreComponents(root, edges) && RootTable(root, i, net, rootToNet)
    requires NumbersComponents(edges, i, net, count)
    ensures NumbersComponents(edges, i + 1, net[i := rootToNet[r]], count)
    ensures RootTable(root, i + 1, net[i := rootToNet[r]], rootToNet)
  {
    var j: nat :| j < i && root[j] == r;
    assert rootToNet[root[j]] == net[j];
    NumberShared(edges, i, net, count, j);
    assert net[i := net[j]] == net[i := rootToNet[r]];
  }

  /** Names and flags of the first i nodes do not look at the numbers of later nodes. */
  lemma {:induction false} LaterNumbersIrrelevant(nodes: seq<GraphNode>, i: nat, net: seq<nat>, v: nat,
                                                  names: seq<uint8>, flags: seq<bool>)
    requires i < |net| && NamesNets(nodes, i, net, names) && FlagsConflicts(nodes, i, net, flags)
    ensures NamesNets(nodes, i, net[i := v], names) && FlagsConflicts(nodes, i, net[i := v], flags)
  {
    var after := net[i := v];
    forall j: nat | j < i ensures FirstNamed(nodes, after, j) <==> FirstNamed(nodes, net, j) {}
    forall k: nat | k < |flags| ensures Conflicting(nodes, i, after, k) <==> Conflicting(nodes, i, net, k) {}
  }

  /** Gives node i the net of its root, opening a new net for a root seen first. */
  method NumberNode(graph: TopologyGraph, i: nat, r: nat, ghost root: seq<nat>, netByNode: array<nat>,
                    rootToNet: array<nat>, netCount: nat)
    returns (count: nat)
    requires i < |root| && r == root[i] && i < netByNode.Length && r < rootToNet.Length && netCount < UINT16_MAX
    requires netByNode != rootToNet
    requires RootsAreComponents(root, graph.edges)
    requires RootTable(root, i, netByNode[..], rootToNet[..])
    requires NumbersComponents(graph.edges, i, netByNode[..], netCount)
    modifies netByNode, rootToNet
    ensures netCount <= count <= netCount + 1
    ensures NumbersComponents(graph.edges, i + 1, netByNode[..], count)
    ensures RootTable(root, i + 1, netByNode[..], rootToNet[..])
    ensures netByNode[..] == old(netByNode[..])[i := netByNode[i]]
  {
    count := netCount;
    ghost var was, table := netByNode[..], rootToNet[..];
    if rootToNet[r] == UINT16_MAX {
      FreshRoot(graph.edges, i, r, root, was, table, count);
      rootToNet[r] := count;
      assert rootToNet[..] == table[r := netCount];
      count := count + 1;
    } else {
      KnownRoot(graph.edges, i, r, root, was, table, count);
    }
    netByNode[i] := rootToNet[r];
    assert netByNode[..] == was[i := rootToNet[r]];
  }

  /** Records node i's canonical identity on its net. */
  method NameNode(graph: TopologyGraph, i: nat, net: nat, ghost netByNode: seq<nat>,
                  canonicalByNet: array<uint8>, conflictByNet: array<bool>)
    requires i < |graph.nodes| && i < |netByNode| && netByNode[i] == net < canonicalByNet.Length == conflictByNet.Length
    requires NamesNets(graph.nodes, i, netByNode, canonicalByNet[..])
    requires FlagsConflicts(graph.nodes, i, netByNode, conflictByNet[..])
    modifies canonicalByNet, conflictByNet
    ensures NamesNets(graph.nodes, i + 1, netByNode, canonicalByNet[..])
    ensures FlagsConflicts(graph.nodes, i + 1, netByNode, conflictByNet[..])
  {
    var canonical := graph.nodes[i].canonicalNet;
    ghost var names, flags := canonicalByNet[..], conflictByNet[..];
    NameStep(graph.nodes, i, netByNode, names, flags);
    if canonical != NET_NONE {
      if canonicalByNet[net] == NET_NONE {
        canonicalByNet[net] := canonical;
      } else if canonicalByNet[net] != canonical {
        conflictByNet[net] := true;
      }
    }
    assert canonicalByNet[..] == names[net := NameAfter(names[net], canonical)];
    assert conflictByNet[..] == flags[net := ConflictAfter(flags[net], names[net], canonical)];
  }

  /** The state of the numbering loop after i nodes. */
  ghost predicate Placed(graph: TopologyGraph, i: nat, root: seq<nat>, net: seq<nat>, rootToNet: seq<nat>,
                         names: seq<uint8>, flags: seq<bool>, count: nat)
    reads graph
  {
    && |net| == |rootToNet| == |names| == |flags| == MAX_GRAPH_ENDPOINTS
    && i <= |graph.nodes| <= MAX_GRAPH_ENDPOINTS
    && count <= i
    && RootTable(root, i, net, rootToNet)
    && NumbersComponents(graph.edges, i, net, count)
    && NamesNets(graph.nodes, i, net, names)
    && FlagsConflicts(graph.nodes, i, net, flags)
    && (forall k: nat :: i <= k < |net| ==> net[k] == 0)
  }

  lemma {:induction false} NothingPlaced(graph: TopologyGraph, root: seq<nat>, net: seq<nat>, rootToNet: seq<nat>,
                                         names: seq<uint8>, flags: seq<bool>)
    requires graph.Bounded()
    requires |net| == |rootToNet| == |names| == |flags| == MAX_GRAPH_ENDPOINTS
    requires forall k: nat :: k < MAX_GRAPH_ENDPOINTS ==>
      net[k] == 0 && rootToNet[k] == UINT16_MAX && names[k] == NET_NONE && !flags[k]
    ensures Placed(graph, 0, root, net, rootToNet, names, flags, 0)
  {
    LeadersBounded(graph.edges, 0);
  }

  method PlaceNode(graph: TopologyGraph, i: nat, parent: array<nat>, ghost root: seq<nat>, ghost rank: seq<nat>,
                   netByNode: array<nat>, rootToNet: array<nat>, canonicalByNet: array<uint8>,
                   conflictByNet: array<bool>, netCount: nat)
    returns (count: nat)
    requires i < |graph.nodes| == parent.Length
    requires netByNode != rootToNet && parent != netByNode && parent != rootToNet
    requires Forest(parent[..], root, rank) && RootsAreComponents(root, graph.edges)
    requires Placed(graph, i, root, netByNode[..], rootToNet[..], canonicalByNet[..], conflictByNet[..], netCount)
    modifies netByNode, rootToNet, canonicalByNet, conflictByNet
    ensures Placed(graph, i + 1, root, netByNode[..], rootToNet[..], canonicalByNet[..], conflictByNet[..], count)
  {
    var r := Chase(parent, i, root, rank);
    ghost var was, names, flags := netByNode[..], canonicalByNet[..], conflictByNet[..];
    count := NumberNode(graph, i, r, root, netByNode, rootToNet, netCount);
    LaterNumbersIrrelevant(graph.nodes, i, was, netByNode[i], names, flags);
    ghost var net, table := netByNode[..], rootToNet[..];
    assert net == was[i := net[i]];
    assert canonicalByNet[..] == names && conflictByNet[..] == flags;
    NameNode(graph, i, netByNode[i], net, canonicalByNet, conflictByNet);
    assert netByNode[..] == net && rootToNet[..] == table;
  }

  method PlaceNodes(graph: TopologyGraph, parent: array<nat>, ghost root: seq<nat>, ghost rank: seq<nat>,
                    netByNode: array<nat>, rootToNet: array<nat>, canonicalByNet: array<uint8>,
                    conflictByNet: array<bool>)
    returns (netCount: nat)
    requires |graph.nodes| == parent.Length
    requires netByNode != rootToNet && parent != netByNode && parent != rootToNet
    requires Forest(parent[..], root, rank) && RootsAreComponents(root, graph.edges)
    requires Placed(graph, 0, root, netByNode[..], rootToNet[..], canonicalByNet[..], conflictByNet[..], 0)
    modifies netByNode, rootToNet, canonicalByNet, conflictByNet
    ensures Placed(graph, |graph.nodes|, root, netByNode[..], rootToNet[..], canonicalByNet[..], conflictByNet[..], netCount)
  {
    netCount := 0;
    ghost var forest := parent[..];
    for i := 0 to |graph.nodes|
      invariant parent[..] == forest
      invariant Placed(graph, i, root, netByNode[..], rootToNet[..], canonicalByNet[..], conflictByNet[..], netCount)
    {
      netCount := PlaceNode(graph, i, parent, root, rank, netByNode, rootToNet, canonicalByNet, conflictByNet, netCount);
    }
  }

  lemma {:induction false} PlacedAll(graph: TopologyGraph, root: seq<nat>, net: seq<nat>, rootToNet: seq<nat>,
                                     names: seq<uint8>, flags: seq<bool>, count: nat)
    requires Placed(graph, |graph.nodes|, root, net, rootToNet, names, flags, count)
    ensures IsInference(graph.nodes, graph.edges, |graph.nodes|, net, names, flags, count)
  {
  }

  /** Numbers, names and flags all nodes of a graph whose components are known, in tables of their own. */
  method NumberNodes(graph: TopologyGraph, parent: array<nat>, ghost root: seq<nat>, ghost rank: seq<nat>)
    returns (netByNode: array<nat>, canonicalByNet: array<uint8>, conflictByNet: array<bool>, netCount: nat)
    requires graph.Bounded() && parent.Length == |graph.nodes|
    requires Forest(parent[..], root, rank) && RootsAreComponents(root, graph.edges)
    ensures fresh(netByNode) && fresh(canonicalByNet) && fresh(conflictByNet)
    ensures IsInference(graph.nodes, graph.edges, |graph.nodes|, netByNode[..], canonicalByNet[..], conflictByNet[..],
                        netCount)
  {
    netByNode := new nat[MAX_GRAPH_ENDPOINTS](_ => 0);
    canonicalByNet := new uint8[MAX_GRAPH_ENDPOINTS](_ => NET_NONE);
    conflictByNet := new bool[MAX_GRAPH_ENDPOINTS](_ => false);
    var rootToNet := new nat[MAX_GRAPH_ENDPOINTS](_ => UINT16_MAX);
    NothingPlaced(graph, root, netByNode[..], rootToNet[..], canonicalByNet[..], conflictByNet[..]);
    netCount := PlaceNodes(graph, parent, root, rank, netByNode, rootToNet, canonicalByNet, conflictByNet);
    PlacedAll(graph, root, netByNode[..], rootToNet[..], canonicalByNet[..], conflictByNet[..], netCount);
  }

  method InferNets(graph: TopologyGraph, nets: InferredNets) returns (ok: bool)
    requires graph.Bounded()
    modifies nets
    ensures ok
    ensures fresh(nets.netByNode) && fresh(nets.canonicalByNet) && fresh(nets.conflictByNet)
    ensures IsInference(graph.nodes, graph.edges, |graph.nodes|, nets.netByNode[..],
                        nets.canonicalByNet[..], nets.conflictByNet[..], nets.netCount)
  {
    var parent, root, rank := UniteEdges(graph);
    var netByNode, canonicalByNet, conflictByNet, netCount := NumberNodes(graph, parent, root, rank);
    nets.netByNode, nets.canonicalByNet, nets.conflictByNet := netByNode, canonicalByNet, conflictByNet;
    nets.netCount := netCount;
    ok := true;
  }

  // ----- what the answer depends on

  /** The same undirected edges, in any order, either way round. */
  ghost predicate SameWires(edges: seq<GraphEdge>, other: seq<GraphEdge>) {
    forall e :: e in edges ==> e in other || GraphEdge(e.b, e.a) in other
  }

  lemma {:induction false} SameWiresConnect(edges: seq<GraphEdge>, other: seq<GraphEdge>, x: nat, y: nat)
    requires SameWires(edges, other) && Connected(edges, x, y)
    ensures Connected(other, x, y)
  {
    ConnectedMonotone(edges, other, x, y);
  }

  /** Reordering edges or swapping their ends changes nothing in the answer. */
  lemma {:induction false} EdgeOrderIsIrrelevant(nodes: seq<GraphNode>, edges: seq<GraphEdge>, other: seq<GraphEdge>,
                                                 net: seq<nat>, names: seq<uint8>, flags: seq<bool>, count: nat,
                                                 net': seq<nat>, names': seq<uint8>, flags': seq<bool>, count': nat)
    requires SameWires(edges, other) && SameWires(other, edges)
    requires IsInference(nodes, edges, |nodes|, net, names, flags, count)
    requires IsInference(nodes, other, |nodes|, net', names', flags', count')
    ensures net == net' && names == names' && flags == flags' && count == count'
  {
    forall x: nat, y: nat ensures Connected(edges, x, y) <==> Connected(other, x, y) {
      if Connected(edges, x, y) { SameWiresConnect(edges, other, x, y); }
      if Connected(other, x, y) { SameWiresConnect(other, edges, x, y); }
    }
    forall n: nat ensures Leaders(edges, n) == Leaders(other, n) {}
    forall i: nat | i < |nodes| ensures net[i] == net'[i] {
      var l := LeaderOf(edges, i);
      assert net[l] == net[i] && net'[l] == net'[i];
    }
    assert net == net';
    forall k: nat | k < |names| ensures names[k] == names'[k] {
      assert names[k] != NET_NONE ==> exists i: nat :: i < |nodes| && net[i] == k && FirstNamed(nodes, net, i);
      assert names'[k] != NET_NONE ==> exists i: nat :: i < |nodes| && net'[i] == k && FirstNamed(nodes, net', i);
    }
  }

  lemma {:induction false} LeaderOf(edges: seq<GraphEdge>, i: nat) returns (l: nat)
    ensures l <= i && Leads(edges, l) && Connected(edges, l, i)
    decreases i
  {
    ConnectedReflexive(edges, i);
    if Leads(edges, i) {
      l := i;
    } else {
      var j: nat :| j < i && Connected(edges, j, i);
      l := LeaderOf(edges, j);
      ConnectedTransitive(edges, l, j, i);
    }
  }

  predicate Clash(one: uint8, other: uint8) {
    one != NET_NONE && other != NET_NONE && one != other
  }

  /** Two connected nodes carry different canonical identities. */
  ghost predicate HasConflict(nodes: seq<GraphNode>, edges: seq<GraphEdge>) {
    exists i: nat, j: nat :: i < |nodes| && j < |nodes| && Clash(nodes[i].canonicalNet, nodes[j].canonicalNet)
                             && Connected(edges, i, j)
  }

  /** Some net is flagged exactly when two connected nodes clash. */
  lemma {:induction false} FlagsSayConflict(nodes: seq<GraphNode>, edges: seq<GraphEdge>, net: seq<nat>,
                                            names: seq<uint8>, flags: seq<bool>,
                                            count: nat)
    requires IsInference(nodes, edges, |nodes|, net, names, flags, count) && count <= |flags|
    ensures HasConflict(nodes, edges) <==> exists k :: 0 <= k < count && flags[k]
  {
    if HasConflict(nodes, edges) {
      var i: nat, j: nat :| i < |nodes| && j < |nodes| && Clash(nodes[i].canonicalNet, nodes[j].canonicalNet)
                            && Connected(edges, i, j);
      assert net[i] == net[j];
      assert Conflicting(nodes, |nodes|, net, net[i]);
      assert flags[net[i]];
    }
    if k :| 0 <= k < count && flags[k] {
      assert Conflicting(nodes, |nodes|, net, k);
      var i: nat, j: nat :| i < |nodes| && j < |nodes| && net[i] == k && net[j] == k
                            && Clash(nodes[i].canonicalNet, nodes[j].canonicalNet);
      assert Connected(edges, i, j);
    }
  }
}
