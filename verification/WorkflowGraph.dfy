/**
 Validation of a workflow definition: duplicate and unknown ids, then Kahn's
 algorithm.  The graph maps every node id to the set of ids it depends on.
 */
module WorkflowGraph {
  import KeySort
  import TextOrder

  datatype Node = Node(id: string, handler: string, dependencies: seq<string>, maxAttempts: int)

  datatype GraphError = DuplicateIds | UnknownDependency | CycleFound
  datatype Result<+T> = Ok(value: T) | Err(error: GraphError)

  type Graph = map<string, set<string>>

  ghost predicate UniqueIds(nodes: seq<Node>) {
    forall i, j | 0 <= i < j < |nodes| :: nodes[i].id != nodes[j].id
  }

  function IdsOf(nodes: seq<Node>): set<string> {
    set n | n in nodes :: n.id
  }

  ghost predicate KnownDependencies(nodes: seq<Node>) {
    forall n, d | n in nodes && d in n.dependencies :: d in IdsOf(nodes)
  }

  function SetOf(ids: seq<string>): set<string> {
    set d | d in ids
  }

  /** The dependency graph; a later node wins over an earlier one with the same id. */
  function GraphOf(nodes: seq<Node>): (g: Graph)
    ensures g.Keys == IdsOf(nodes)
  {
    if nodes == [] then map[]
    else
      var last := nodes[|nodes| - 1];
      assert nodes == nodes[..|nodes| - 1] + [last];
      GraphOf(nodes[..|nodes| - 1])[last.id := SetOf(last.dependencies)]
  }

  lemma {:induction false} GraphOfNode(nodes: seq<Node>, n: Node)
    requires UniqueIds(nodes) && n in nodes
    ensures GraphOf(nodes)[n.id] == SetOf(n.dependencies)
  {
    var front, last := nodes[..|nodes| - 1], nodes[|nodes| - 1];
    assert nodes == front + [last];
    if n != last {
      GraphOfNode(front, n);
    }
  }

  // ---------- walks and cycles ----------

  /** Every element of `w` depends on the element after it. */
  ghost predicate IsWalk(g: Graph, w: seq<string>) {
    forall i | 0 <= i < |w| - 1 :: w[i] in g && w[i + 1] in g[w[i]]
  }

  ghost predicate IsCycle(g: Graph, w: seq<string>) {
    |w| >= 2 && IsWalk(g, w) && w[0] == w[|w| - 1]
  }

  ghost predicate Acyclic(g: Graph) {
    forall w :: !IsCycle(g, w)
  }

  ghost predicate NoRepeats<T>(s: seq<T>) {
    forall i, j | 0 <= i < j < |s| :: s[i] != s[j]
  }

  lemma {:induction false} NoRepeatsFits(w: seq<string>, s: set<string>)
    requires NoRepeats(w) && forall x | x in w :: x in s
    ensures |w| <= |s|
  {
    if w != [] {
      var front, last := w[..|w| - 1], w[|w| - 1];
      assert last !in front;
      NoRepeatsFits(front, s - {last});
    }
  }

  ghost predicate DependsInto(g: Graph, x: string, s: set<string>) {
    x in g && exists d :: d in g[x] && d in s
  }

  /** A closed subset: each member depends on some member. */
  ghost predicate Stuck(g: Graph, s: set<string>) {
    forall x {:trigger DependsInto(g, x, s)} | x in s :: DependsInto(g, x, s)
  }

  lemma {:induction false} StuckWalk(g: Graph, s: set<string>, n: nat) returns (w: seq<string>)
    requires Stuck(g, s) && s != {}
    ensures |w| == n + 1 && IsWalk(g, w) && forall x | x in w :: x in s
  {
    if n == 0 {
      var x :| x in s;
      w := [x];
    } else {
      var v := StuckWalk(g, s, n - 1);
      assert DependsInto(g, v[n - 1], s);
      var d :| d in g[v[n - 1]] && d in s;
      w := v + [d];
    }
  }

  /** Pigeonhole: a non-empty closed subset contains an actual cycle. */
  lemma StuckHasCycle(g: Graph, s: set<string>)
    requires Stuck(g, s) && s != {}
    ensures !Acyclic(g)
    ensures exists w :: IsCycle(g, w) && forall x | x in w :: x in s
  {
    var w := StuckWalk(g, s, |s|);
    assert !NoRepeats(w) by {
      if NoRepeats(w) {
        NoRepeatsFits(w, s);
      }
    }
    var i, j :| 0 <= i < j < |w| && w[i] == w[j];
    var c := w[i..j + 1];
    assert IsCycle(g, c);
  }

  // ---------- orders and depths ----------

  /** `order` lists exactly the node ids, each once, dependencies first. */
  ghost predicate IsTopological(g: Graph, order: seq<string>) {
    && NoRepeats(order)
    && (forall x :: x in order <==> x in g)
    && (forall i, d | 0 <= i < |order| && order[i] in g && d in g[order[i]] :: d in order[..i])
  }

  lemma {:induction false} WalkGoesBack(g: Graph, order: seq<string>, w: seq<string>, i: nat, n: nat) returns (j: nat)
    requires IsTopological(g, order) && IsWalk(g, w) && n < |w|
    requires i < |order| && w[0] == order[i]
    ensures j < |order| && order[j] == w[n] && j + n <= i
  {
    if n == 0 {
      j := i;
    } else {
      var k := WalkGoesBack(g, order, w, i, n - 1);
      assert w[n] in g[w[n - 1]];
      assert w[n] in order[..k];
      j :| 0 <= j < k && order[..k][j] == w[n];
    }
  }

  lemma TopologicalIsAcyclic(g: Graph, order: seq<string>)
    requires IsTopological(g, order)
    ensures Acyclic(g)
  {
    forall w ensures !IsCycle(g, w) {
      if IsCycle(g, w) {
        assert w[0] in g;
        var i :| 0 <= i < |order| && order[i] == w[0];
        var j := WalkGoesBack(g, order, w, i, |w| - 1);
        assert false;
      }
    }
  }

  /** `depth[x]` is the length of the longest dependency chain below `x`. */
  ghost predicate IsDepth(g: Graph, depth: map<string, nat>) {
    && depth.Keys == g.Keys
    && (forall x, d | x in g && d in g[x] :: d in depth && depth[d] < depth[x])
    && (forall x {:trigger RestsOn(g, depth, x)} | x in g && depth[x] > 0 :: RestsOn(g, depth, x))
  }

  /** Some dependency of `x` is exactly one level below it. */
  ghost predicate RestsOn(g: Graph, depth: map<string, nat>, x: string) {
    x in g && x in depth && exists d :: d in g[x] && d in depth && depth[d] + 1 == depth[x]
  }

  ghost predicate Before(depth: map<string, nat>, a: string, b: string) {
    a in depth && b in depth && (depth[a] < depth[b] || (depth[a] == depth[b] && TextOrder.Less(a, b)))
  }

  ghost predicate OrderedByDepth(order: seq<string>, depth: map<string, nat>) {
    forall i, j | 0 <= i < j < |order| :: Before(depth, order[i], order[j])
  }

  lemma {:induction false} DepthsAgree(g: Graph, a: map<string, nat>, b: map<string, nat>, x: string)
    requires IsDepth(g, a) && IsDepth(g, b) && x in g
    ensures a[x] == b[x]
    decreases a[x]
  {
    if a[x] > 0 {
      assert RestsOn(g, a, x);
      var d :| d in g[x] && d in a && a[d] == a[x] - 1;
      DepthsAgree(g, a, b, d);
    }
    if b[x] > a[x] {
      assert RestsOn(g, b, x);
      var e :| e in g[x] && e in b && b[e] == b[x] - 1;
      DepthsAgree(g, a, b, e);
    }
  }

  /** Depth-then-id leaves no freedom: there is only one such order. */
  lemma {:induction false} DepthOrderUnique(p: seq<string>, q: seq<string>, depth: map<string, nat>)
    requires OrderedByDepth(p, depth) && OrderedByDepth(q, depth)
    requires forall x :: x in p <==> x in q
    ensures p == q
  {
    assert forall i | 0 <= i < |p| :: p[i] in q;
    assert forall i | 0 <= i < |q| :: q[i] in p;
    if p != [] && q != [] {
      assert p[0] in q && q[0] in p;
      if p[0] != q[0] {
        var i :| 0 <= i < |p| && p[i] == q[0];
        var j :| 0 <= j < |q| && q[j] == p[0];
        assert Before(depth, p[0], q[0]) && Before(depth, q[0], p[0]);
        TextOrder.Antisymmetric(p[0], q[0]);
      }
      BeforeIrreflexive(p, depth);
      BeforeIrreflexive(q, depth);
      forall x ensures x in p[1..] <==> x in q[1..] {
        assert x in p <==> x == p[0] || x in p[1..];
        assert x in q <==> x == q[0] || x in q[1..];
      }
      DepthOrderUnique(p[1..], q[1..], depth);
      assert p == [p[0]] + p[1..] && q == [q[0]] + q[1..];
    }
  }

  lemma BeforeIrreflexive(p: seq<string>, depth: map<string, nat>)
    requires OrderedByDepth(p, depth)
    ensures NoRepeats(p)
  {
    forall i, j | 0 <= i < j < |p| ensures p[i] != p[j] {
      assert Before(depth, p[i], p[j]);
    }
  }

  // ---------- the algorithm ----------

  /** Ids of the pending nodes without open dependencies, in definition order. */
  function FreeIds(nodes: seq<Node>, pending: Graph): (free: seq<string>)
    ensures forall x :: x in free ==> x in pending && pending[x] == {}
    ensures forall n | n in nodes && n.id in pending && pending[n.id] == {} :: n.id in free
  {
    if nodes == [] then []
    else if nodes[0].id in pending && pending[nodes[0].id] == {} then
      [nodes[0].id] + FreeIds(nodes[1..], pending)
    else FreeIds(nodes[1..], pending)
  }

  lemma {:induction false} FreeIdsUnique(nodes: seq<Node>, pending: Graph)
    requires UniqueIds(nodes)
    ensures NoRepeats(FreeIds(nodes, pending))
    ensures forall x | x in FreeIds(nodes, pending) :: x in IdsOf(nodes)
  {
    if nodes != [] {
      FreeIdsUnique(nodes[1..], pending);
      assert nodes[0].id !in IdsOf(nodes[1..]) by {
        forall n | n in nodes[1..] ensures n.id != nodes[0].id {
          var k :| 0 <= k < |nodes| - 1 && nodes[1..][k] == n;
          assert nodes[k + 1] == n;
        }
      }
      var rest := FreeIds(nodes[1..], pending);
      assert NoRepeats([nodes[0].id] + rest);
    }
  }

  lemma SortedNoRepeats(s: seq<string>)
    requires NoRepeats(s)
    ensures NoRepeats(TextOrder.Sorted(s))
    ensures forall x :: x in s <==> x in TextOrder.Sorted(s)
  {
    TextOrder.SortedIsSorted(s);
    var t := TextOrder.Sorted(s);
    forall x ensures x in s <==> x in t {
      assert x in s <==> x in multiset(s);
      assert x in t <==> x in multiset(t);
    }
    MultisetNoRepeats(s);
    forall i, j | 0 <= i < j < |t| ensures t[i] != t[j] {
      KeySort.TwiceInMultiset(t, i, j);
    }
  }

  lemma {:induction false} MultisetNoRepeats(s: seq<string>)
    requires NoRepeats(s)
    ensures forall x :: multiset(s)[x] <= 1
  {
    if s != [] {
      assert s == [s[0]] + s[1..];
      assert s[0] !in s[1..];
      MultisetNoRepeats(s[1..]);
      assert s[0] !in multiset(s[1..]);
    }
  }

  /** What `pending` must hold: the unplaced nodes with their unplaced dependencies. */
  ghost predicate PendingIs(g: Graph, order: seq<string>, pending: Graph) {
    && (forall x :: x in pending <==> x in g && x !in order)
    && (forall x | x in pending && x in g :: pending[x] == g[x] - SetOf(order))
  }

  /** Invariant of the rounds: `order` is finished up to depth `round`. */
  ghost predicate RoundInv(g: Graph, order: seq<string>, pending: Graph, depth: map<string, nat>, round: nat) {
    && PendingIs(g, order, pending)
    && depth.Keys == SetOf(order)
    && (forall x | x in order :: x in g && depth[x] < round)
    && OrderedByDepth(order, depth)
    && DepsPlacedBefore(g, order, depth)
    && (forall x {:trigger RestsOn(g, depth, x)} | x in order && depth[x] > 0 :: RestsOn(g, depth, x))
    && (round > 0 ==> forall x {:trigger HeldBack(g, depth, x, round)} | x in pending :: HeldBack(g, depth, x, round))
  }

  /** Some dependency of `x` is still open or was placed in the last round. */
  ghost predicate HeldBack(g: Graph, depth: map<string, nat>, x: string, round: nat) {
    x in g && exists d :: d in g[x] && (d in depth ==> depth[d] == round - 1)
  }

  ghost predicate ClosedGraph(g: Graph) {
    forall x, d | x in g && d in g[x] :: d in g
  }

  lemma GraphIsClosed(nodes: seq<Node>)
    requires UniqueIds(nodes) && KnownDependencies(nodes)
    ensures ClosedGraph(GraphOf(nodes))
  {
    var g := GraphOf(nodes);
    forall x, d | x in g && d in g[x] ensures d in g {
      var n :| n in nodes && n.id == x;
      GraphOfNode(nodes, n);
    }
  }

  /** When no pending node is free, the pending nodes are stuck on each other. */
  lemma NothingFree(nodes: seq<Node>, order: seq<string>, pending: Graph)
    requires UniqueIds(nodes) && KnownDependencies(nodes)
    requires PendingIs(GraphOf(nodes), order, pending) && pending != map[]
    requires FreeIds(nodes, pending) == []
    ensures !Acyclic(GraphOf(nodes))
    ensures exists w :: IsCycle(GraphOf(nodes), w) && forall x | x in w :: x in pending
  {
    var g := GraphOf(nodes);
    GraphIsClosed(nodes);
    forall x | x in pending.Keys ensures DependsInto(g, x, pending.Keys) {
      var n :| n in nodes && n.id == x;
      assert pending[x] != {};
      var d :| d in pending[x];
    }
    assert pending.Keys != {};
    StuckHasCycle(g, pending.Keys);
  }

  /** `pending.pop(id)`, then `discard(id)` in every remaining set. */
  function Without(pending: Graph, id: string): Graph {
    map x | x in pending && x != id :: pending[x] - {id}
  }

  lemma PlaceOne(g: Graph, order: seq<string>, pending: Graph, id: string)
    requires PendingIs(g, order, pending)
    ensures PendingIs(g, order + [id], Without(pending, id))
  {
    var o, p := order + [id], Without(pending, id);
    assert SetOf(o) == SetOf(order) + {id};
    forall x ensures x in p <==> x in g && x !in o {
      assert x in o <==> x in order || x == id;
    }
  }

  ghost predicate IsRoundOf(pending: Graph, ready: seq<string>) {
    && NoRepeats(ready)
    && TextOrder.Ascending(ready)
    && forall x :: x in ready <==> x in pending && pending[x] == {}
  }

  lemma RoundIs(nodes: seq<Node>, pending: Graph)
    requires UniqueIds(nodes) && pending.Keys <= IdsOf(nodes)
    ensures IsRoundOf(pending, TextOrder.Sorted(FreeIds(nodes, pending)))
  {
    FreeIdsUnique(nodes, pending);
    SortedNoRepeats(FreeIds(nodes, pending));
    TextOrder.SortedIsSorted(FreeIds(nodes, pending));
    forall x | x in pending && pending[x] == {} ensures x in FreeIds(nodes, pending) {
      var n :| n in nodes && n.id == x;
    }
  }

  function RoundDepth(depth: map<string, nat>, ready: seq<string>, round: nat): map<string, nat> {
    depth + map x | x in ready :: round
  }

  lemma RoundKeepsOrder(order: seq<string>, depth: map<string, nat>, ready: seq<string>, round: nat)
    requires OrderedByDepth(order, depth) && depth.Keys == SetOf(order)
    requires forall x | x in order :: depth[x] < round
    requires NoRepeats(ready) && TextOrder.Ascending(ready)
    requires forall x | x in ready :: x !in order
    ensures OrderedByDepth(order + ready, RoundDepth(depth, ready, round))
  {
    var o, m := order + ready, RoundDepth(depth, ready, round);
    forall i, j | 0 <= i < j < |o| ensures Before(m, o[i], o[j]) {
      if j < |order| {
        assert Before(depth, order[i], order[j]);
        assert order[i] in order && order[j] in order;
      } else if i < |order| {
        assert order[i] in order && ready[j - |order|] in ready;
      } else {
        assert ready[i - |order|] in ready && ready[j - |order|] in ready;
      }
    }
  }

  ghost predicate DepsPlacedBefore(g: Graph, order: seq<string>, depth: map<string, nat>) {
    forall i, d | 0 <= i < |order| && order[i] in g && d in g[order[i]] :: d in order[..i] && Below(depth, d, order[i])
  }

  ghost predicate Below(depth: map<string, nat>, d: string, x: string) {
    d in depth && x in depth && depth[d] < depth[x]
  }

  lemma ReadyRestOnPlaced(g: Graph, order: seq<string>, pending: Graph, ready: seq<string>, x: string)
    requires PendingIs(g, order, pending) && IsRoundOf(pending, ready) && x in ready
    ensures x in g && x !in order && forall d | d in g[x] :: d in order
  {
    assert pending[x] == {} && x in g;
    assert forall d | d in g[x] :: d in pending[x] || d in SetOf(order);
  }

  lemma RoundKeepsDeps(g: Graph, order: seq<string>, pending: Graph, depth: map<string, nat>, round: nat, ready: seq<string>)
    requires PendingIs(g, order, pending) && IsRoundOf(pending, ready)
    requires depth.Keys == SetOf(order) && forall x | x in order :: depth[x] < round
    requires DepsPlacedBefore(g, order, depth)
    ensures DepsPlacedBefore(g, order + ready, RoundDepth(depth, ready, round))
  {
    var o, m := order + ready, RoundDepth(depth, ready, round);
    forall x | x in ready ensures x in g && x !in order && forall d | d in g[x] :: d in order {
      ReadyRestOnPlaced(g, order, pending, ready, x);
    }
    forall i, d | 0 <= i < |o| && o[i] in g && d in g[o[i]] ensures d in o[..i] && Below(m, d, o[i]) {
      if i < |order| {
        assert o[i] == order[i] && o[..i] == order[..i];
        assert Below(depth, d, order[i]) && order[i] in order && d in order;
      } else {
        assert o[i] == ready[i - |order|] && o[i] in ready;
        assert d in order;
        assert o[..i] == order + ready[..i - |order|];
      }
    }
  }

  lemma RoundRests(g: Graph, order: seq<string>, pending: Graph, depth: map<string, nat>, round: nat, ready: seq<string>, x: string)
    requires RoundInv(g, order, pending, depth, round) && IsRoundOf(pending, ready)
    requires x in order + ready && RoundDepth(depth, ready, round)[x] > 0
    ensures RestsOn(g, RoundDepth(depth, ready, round), x)
  {
    var m := RoundDepth(depth, ready, round);
    if x in ready {
      ReadyRestOnPlaced(g, order, pending, ready, x);
      assert HeldBack(g, depth, x, round);
      var d :| d in g[x] && (d in depth ==> depth[d] == round - 1);
      assert d in order && d in SetOf(order);
      if d in ready { ReadyRestOnPlaced(g, order, pending, ready, d); }
      assert m[d] + 1 == m[x];
    } else {
      assert x in order && RestsOn(g, depth, x);
      var d :| d in g[x] && d in depth && depth[d] + 1 == depth[x];
      assert d in SetOf(order);
      if d in ready { ReadyRestOnPlaced(g, order, pending, ready, d); }
      assert m[d] + 1 == m[x];
    }
  }

  lemma RoundHoldsBack(g: Graph, order: seq<string>, pending: Graph, depth: map<string, nat>, round: nat, ready: seq<string>, x: string)
    requires PendingIs(g, order, pending) && IsRoundOf(pending, ready) && depth.Keys == SetOf(order)
    requires x in pending && x !in ready
    ensures HeldBack(g, RoundDepth(depth, ready, round), x, round + 1)
  {
    assert pending[x] != {};
    var d :| d in pending[x];
    assert d in g[x] && d !in SetOf(order);
  }

  /** One round of the algorithm finishes one more depth. */
  lemma RoundStep(g: Graph, order: seq<string>, pending: Graph, depth: map<string, nat>, round: nat,
                  ready: seq<string>, rest: Graph)
    requires RoundInv(g, order, pending, depth, round)
    requires IsRoundOf(pending, ready) && PendingIs(g, order + ready, rest)
    ensures RoundInv(g, order + ready, rest, RoundDepth(depth, ready, round), round + 1)
  {
    hide RestsOn, HeldBack, DepsPlacedBefore, OrderedByDepth;
    var o, m := order + ready, RoundDepth(depth, ready, round);
    RoundKeepsOrder(order, depth, ready, round);
    RoundKeepsDeps(g, order, pending, depth, round, ready);
    assert SetOf(o) == SetOf(order) + SetOf(ready);
    assert forall x | x in o :: x in order || x in ready;
    forall x | x in o ensures x in g && m[x] < round + 1 {
      assert x in order || x in pending;
    }
    forall x | x in o && m[x] > 0 ensures RestsOn(g, m, x) {
      RoundRests(g, order, pending, depth, round, ready, x);
    }
    forall x | x in rest ensures HeldBack(g, m, x, round + 1) {
      assert x !in o;
      RoundHoldsBack(g, order, pending, depth, round, ready, x);
    }
  }

  lemma RoundsDone(g: Graph, order: seq<string>, depth: map<string, nat>, round: nat)
    requires RoundInv(g, order, map[], depth, round)
    ensures IsTopological(g, order) && IsDepth(g, depth)
  {
    BeforeIrreflexive(order, depth);
    var none: Graph := map[];
    forall x | x in g ensures x in order {
      assert x !in none;
    }
    forall x, d | x in g && d in g[x] ensures d in depth && depth[d] < depth[x] {
      var i :| 0 <= i < |order| && order[i] == x;
      assert d in order[..i] && Below(depth, d, order[i]);
    }
  }

  /** The inner loop: append the round's ids and strike them from every pending set. */
  method PlaceRound(ghost g: Graph, order0: seq<string>, pending0: Graph, ready: seq<string>)
    returns (order: seq<string>, pending: Graph)
    requires PendingIs(g, order0, pending0) && ready != [] && forall x | x in ready :: x in pending0
    ensures order == order0 + ready
    ensures PendingIs(g, order, pending)
    ensures pending.Keys < pending0.Keys
  {
    order, pending := order0, pending0;
    for k := 0 to |ready|
      invariant order == order0 + ready[..k]
      invariant PendingIs(g, order, pending)
      invariant pending.Keys <= pending0.Keys
      invariant k > 0 ==> ready[0] !in pending
    {
      PlaceOne(g, order, pending, ready[k]);
      order := order + [ready[k]];
      pending := Without(pending, ready[k]);
      assert order == order0 + ready[..k + 1];
    }
    assert ready[0] in ready && ready[0] in pending0;
  }

  method TopologicalOrder(nodes: seq<Node>) returns (r: Result<seq<string>>, ghost depth: map<string, nat>)
    requires UniqueIds(nodes) && KnownDependencies(nodes)
    ensures r.Ok? <==> Acyclic(GraphOf(nodes))
    ensures r.Err? ==> r.error == CycleFound
    ensures r.Ok? ==> IsTopological(GraphOf(nodes), r.value)
    ensures r.Ok? ==> IsDepth(GraphOf(nodes), depth) && OrderedByDepth(r.value, depth)
  {
    var g := GraphOf(nodes);
    GraphIsClosed(nodes);
    var pending := g;
    var order: seq<string> := [];
    depth := map[];
    ghost var round := 0;
    while pending != map[]
      invariant RoundInv(g, order, pending, depth, round)
      decreases pending.Keys
    {
      var ready := TextOrder.Sorted(FreeIds(nodes, pending));
      RoundIs(nodes, pending);
      if ready == [] {
        assert FreeIds(nodes, pending) == [] by {
          TextOrder.SortedIsSorted(FreeIds(nodes, pending));
          assert |multiset(ready)| == |multiset(FreeIds(nodes, pending))|;
        }
        NothingFree(nodes, order, pending);
        return Err(CycleFound), depth;
      }
      ghost var order0, pending0 := order, pending;
      order, pending := PlaceRound(g, order, pending, ready);
      RoundStep(g, order0, pending0, depth, round, ready, pending);
      depth := RoundDepth(depth, ready, round);
      round := round + 1;
    }
    r := Ok(order);
    RoundsDone(g, order, depth, round);
    TopologicalIsAcyclic(g, order);
  }

  /** `ids.count(node_id) > 1` */
  function Count(ids: seq<string>, x: string): nat {
    if ids == [] then 0 else (if ids[0] == x then 1 else 0) + Count(ids[1..], x)
  }

  lemma {:induction false} CountPositive(ids: seq<string>, x: string)
    ensures Count(ids, x) > 0 <==> x in ids
  {
    if ids != [] {
      CountPositive(ids[1..], x);
    }
  }

  lemma {:induction false} CountOfUnique(ids: seq<string>, x: string)
    requires NoRepeats(ids)
    ensures Count(ids, x) <= 1
  {
    if ids != [] {
      CountOfUnique(ids[1..], x);
      CountPositive(ids[1..], ids[0]);
    }
  }

  lemma {:induction false} CountsMeanUnique(ids: seq<string>)
    ensures NoRepeats(ids) <==> forall x :: Count(ids, x) <= 1
  {
    if NoRepeats(ids) {
      forall x { CountOfUnique(ids, x); }
    } else {
      var i, j :| 0 <= i < j < |ids| && ids[i] == ids[j];
      CountOfRepeat(ids, i, j);
      assert Count(ids, ids[i]) > 1;
    }
  }

  lemma {:induction false} CountOfRepeat(ids: seq<string>, i: nat, j: nat)
    requires i < j < |ids| && ids[i] == ids[j]
    ensures Count(ids, ids[i]) > 1
  {
    if i == 0 {
      assert ids[1..][j - 1] == ids[0];
      CountPositive(ids[1..], ids[0]);
    } else {
      CountOfRepeat(ids[1..], i - 1, j - 1);
    }
  }

  /** The model validator: the three failures in the order the source checks them. */
  method ValidateGraph(nodes: seq<Node>) returns (r: Result<()>)
    ensures r.Ok? <==> ValidDefinition(nodes)
    ensures r == Err(DuplicateIds) <==> !UniqueIds(nodes)
    ensures r == Err(UnknownDependency) <==> UniqueIds(nodes) && !KnownDependencies(nodes)
    ensures r == Err(CycleFound) <==> UniqueIds(nodes) && KnownDependencies(nodes) && !Acyclic(GraphOf(nodes))
  {
    var ids := seq(|nodes|, i requires 0 <= i < |nodes| => nodes[i].id);
    var duplicates := set x | x in ids && Count(ids, x) > 1;
    CountsMeanUnique(ids);
    assert NoRepeats(ids) <==> UniqueIds(nodes) by {
      assert forall i, j | 0 <= i < j < |nodes| :: (ids[i] != ids[j] <==> nodes[i].id != nodes[j].id);
    }
    if duplicates != {} {
      ghost var x :| x in duplicates;
      assert Count(ids, x) > 1;
      return Err(DuplicateIds);
    }
    assert UniqueIds(nodes) by {
      forall x ensures Count(ids, x) <= 1 {
        CountPositive(ids, x);
        assert x !in duplicates;
      }
    }
    var known := IdsOf(nodes);
    for i := 0 to |nodes|
      invariant forall n, d | n in nodes[..i] && d in n.dependencies :: d in known
    {
      var unknown := set d | d in nodes[i].dependencies && d !in known;
      if unknown != {} {
        ghost var d :| d in unknown;
        assert nodes[i] in nodes;
        return Err(UnknownDependency);
      }
      forall d | d in nodes[i].dependencies ensures d in known {
        assert d !in unknown;
      }
      assert nodes[..i + 1] == nodes[..i] + [nodes[i]];
    }
    assert nodes[..|nodes|] == nodes;
    var order, _ := TopologicalOrder(nodes);
    r := if order.Ok? then Ok(()) else Err(order.error);
  }

  ghost predicate ValidDefinition(nodes: seq<Node>) {
    UniqueIds(nodes) && KnownDependencies(nodes) && Acyclic(GraphOf(nodes))
  }
}
