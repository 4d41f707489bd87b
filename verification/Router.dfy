/** The route search (`navigate`): Dijkstra's algorithm with a lazily cleaned heap
    that stops when the goal is first seen, and the reconstruction of the path
    through parent pointers. */
module Router {
  import opened RailGraph
  import opened Labelling
  import opened Options
  import opened SettleOrder

  datatype Parent = Parent(id: NodeId, way: Link)

  datatype LightNode = LightNode(dist: Metres, parent: Option<Parent>)

  datatype State = State(cost: Metres, id: NodeId)
  {
    /** The heap pops its greatest state: least cost first, then greatest id. */
    predicate Above(other: State) {
      cost < other.cost || (cost == other.cost && id.number >= other.id.number)
    }
  }

  type Nodes = map<NodeId, LightNode>
  type Heap = multiset<State>

  /** `BinaryHeap::pop`. */
  method Pop(heap: Heap) returns (top: State, rest: Heap)
    requires heap != multiset{}
    ensures top in heap && rest == heap - multiset{top}
    ensures forall s :: s in heap ==> top.Above(s)
  {
    var left := heap;
    top :| top in left;
    left := left - multiset{top};
    while left != multiset{}
      invariant top in heap && left <= heap
      invariant forall s :: s in heap ==> s in left || top.Above(s)
      decreases |left|
    {
      var s :| s in left;
      if !top.Above(s) {
        assert s.Above(top) && forall x: State :: top.Above(x) ==> s.Above(x);
        top := s;
      }
      left := left - multiset{s};
    }
    rest := heap - multiset{top};
  }

  /** The ghost walk recorded for each node follows its parent pointers, so the
      pointers form a tree rooted at the start: every parent is a settled node
      whose own walk is a strict part of the child's. */
  type Tree = map<NodeId, Walk>

  ghost predicate InTree(links: seq<Link>, start: NodeId, nodes: Nodes, tree: Tree, settled: set<NodeId>, n: NodeId)
    requires nodes.Keys == tree.Keys && settled <= nodes.Keys && n in nodes
  {
    && Joins(links, start, tree[n], n)
    && Length(tree[n]) == nodes[n].dist
    && match nodes[n].parent
       case None => n == start && tree[n] == Origin
       case Some(p) => p.id in settled && p.way in links && Touches(p.way, n) && OtherEnd(p.way, n) == p.id
                       && tree[n] == Step(tree[p.id], p.way)
  }

  ghost predicate TreeOk(links: seq<Link>, start: NodeId, nodes: Nodes, tree: Tree, settled: set<NodeId>) {
    && nodes.Keys == tree.Keys && settled <= nodes.Keys
    && start in nodes && nodes[start] == LightNode(0.0, None)
    && forall n :: n in nodes ==> InTree(links, start, nodes, tree, settled, n)
  }

  /** The link has been taken into account: its far end is known at no more than
      the distance through `n`. */
  ghost predicate Relaxed(nodes: Nodes, n: NodeId, link: Link)
    requires n in nodes
  {
    OtherEnd(link, n) in nodes && nodes[OtherEnd(link, n)].dist <= nodes[n].dist + link.distance
  }

  ghost predicate RelaxedAt(links: seq<Link>, nodes: Nodes, n: NodeId)
    requires n in nodes
  {
    forall l :: l in links && Touches(l, n) ==> Relaxed(nodes, n, l)
  }

  ghost predicate AllRelaxed(links: seq<Link>, nodes: Nodes, settled: set<NodeId>)
    requires settled <= nodes.Keys
  {
    forall n :: n in settled ==> RelaxedAt(links, nodes, n)
  }

  /** Heap entries are never better than the recorded distance; an unsettled node has
      exactly one current entry, a settled node none. */
  ghost predicate HeapOk(nodes: Nodes, heap: Heap, settled: set<NodeId>) {
    && (forall s :: s in heap ==> s.id in nodes && s.cost >= nodes[s.id].dist)
    && (forall n :: n in nodes ==> heap[State(nodes[n].dist, n)] == if n in settled then 0 else 1)
  }

  /** Settled nodes have final distances, no greater than any other node's. */
  ghost predicate SettledOk(links: seq<Link>, start: NodeId, nodes: Nodes, settled: set<NodeId>)
    requires settled <= nodes.Keys
  {
    && (forall n :: n in settled ==> AtLeast(links, start, n, nodes[n].dist))
    && (forall n, m :: n in settled && m in nodes && m !in settled ==> nodes[n].dist <= nodes[m].dist)
  }

  ghost predicate SearchOk(links: seq<Link>, start: NodeId, nodes: Nodes, tree: Tree, heap: Heap,
                           settled: set<NodeId>) {
    TreeOk(links, start, nodes, tree, settled) && HeapOk(nodes, heap, settled)
        && SettledOk(links, start, nodes, settled)
  }

  /** Every walk to a node outside the settled set costs at least as much as the
      cheapest node on its rim. */
  lemma {:induction false} RimBound(links: seq<Link>, start: NodeId, nodes: Nodes, settled: set<NodeId>,
                                    d: real, w: Walk, x: NodeId)
    requires settled <= nodes.Keys && SettledOk(links, start, nodes, settled)
    requires start in nodes && nodes[start].dist == 0.0
    requires AllRelaxed(links, nodes, settled)
    requires forall n :: n in nodes && n !in settled ==> d <= nodes[n].dist
    requires x !in settled && Joins(links, start, w, x)
    ensures d <= Length(w)
    decreases w
  {
    match w
    case Origin =>
    case Step(before, via) =>
      var y := OtherEnd(via, x);
      if y in settled {
        assert Touches(via, y) && OtherEnd(via, y) == x;
        assert Relaxed(nodes, y, via);
      } else {
        RimBound(links, start, nodes, settled, d, before, y);
      }
  }

  /** Once the heap is empty every reachable node is settled. */
  lemma ExhaustedMeansUnreachable(links: seq<Link>, start: NodeId, nodes: Nodes, tree: Tree, settled: set<NodeId>,
                                  goal: NodeId)
    requires SearchOk(links, start, nodes, tree, multiset{}, settled)
    requires AllRelaxed(links, nodes, settled)
    requires goal !in nodes
    ensures !Connected(links, start, goal)
  {
    forall n | n in nodes ensures n in settled {
      assert State(nodes[n].dist, n) !in multiset{};
    }
    forall n, l | n in settled && l in links && Touches(l, n) ensures OtherEnd(l, n) in settled {
      assert Relaxed(nodes, n, l);
    }
    forall w | Joins(links, start, w, goal) ensures false {
      ClosedKeepsWalks(links, settled, start, w, goal);
    }
  }

  lemma DropStale(links: seq<Link>, start: NodeId, nodes: Nodes, tree: Tree, heap: Heap, settled: set<NodeId>,
                  top: State)
    requires SearchOk(links, start, nodes, tree, heap + multiset{top}, settled)
    requires top.id in nodes && nodes[top.id].dist < top.cost
    ensures SearchOk(links, start, nodes, tree, heap, settled)
  {
    forall s | s in heap ensures s.id in nodes && s.cost >= nodes[s.id].dist {
      assert s in heap + multiset{top};
    }
  }

  /** Popping a current entry settles its node. */
  lemma SettleKeeps(links: seq<Link>, start: NodeId, nodes: Nodes, tree: Tree, heap: Heap, settled: set<NodeId>,
                    top: State)
    requires SearchOk(links, start, nodes, tree, heap, settled)
    requires AllRelaxed(links, nodes, settled)
    requires top in heap && nodes[top.id].dist == top.cost
    requires forall s :: s in heap ==> top.Above(s)
    ensures top.id !in settled
    ensures SearchOk(links, start, nodes, tree, heap - multiset{top}, settled + {top.id})
    ensures forall x :: x !in settled ==> AtLeast(links, start, x, top.cost)
    ensures forall n :: n in settled ==> nodes[n].dist <= top.cost
  {
    forall n | n in nodes && n !in settled ensures top.cost <= nodes[n].dist {
      assert State(nodes[n].dist, n) in heap;
    }
    forall x, w | x !in settled && Joins(links, start, w, x) ensures top.cost <= Length(w) {
      RimBound(links, start, nodes, settled, top.cost, w, x);
    }
    forall n | n in nodes ensures InTree(links, start, nodes, tree, settled + {top.id}, n) {
      assert InTree(links, start, nodes, tree, settled, n);
    }
  }

  /** It is the next node of the settling order: the heap's order among the states is the
      order among the walks that enter the open nodes. */
  lemma TopIsNext(links: seq<Link>, start: NodeId, nodes: Nodes, tree: Tree, heap: Heap, settled: set<NodeId>,
                  top: State)
    requires SearchOk(links, start, nodes, tree, heap, settled) && AllRelaxed(links, nodes, settled)
    requires top in heap && nodes[top.id].dist == top.cost && top.id !in settled
    requires forall s :: s in heap ==> top.Above(s)
    ensures IsNext(links, start, settled, top.id)
  {
    assert InTree(links, start, nodes, tree, settled, top.id);
    var u := tree[top.id];
    assert Enters(links, start, settled, u, top.id);
    forall m, v | m !in settled && Enters(links, start, settled, v, m)
      ensures Length(u) < Length(v) || (Length(u) == Length(v) && m.number <= top.id.number)
    {
      EntryKnown(links, start, nodes, settled, v, m);
      assert State(nodes[m].dist, m) in heap;
    }
    assert EntersFirst(links, start, settled, u, top.id);
  }

  lemma EntryKnown(links: seq<Link>, start: NodeId, nodes: Nodes, settled: set<NodeId>, v: Walk, m: NodeId)
    requires start in nodes && nodes[start].dist == 0.0
    requires settled <= nodes.Keys && SettledOk(links, start, nodes, settled) && AllRelaxed(links, nodes, settled)
    requires Enters(links, start, settled, v, m)
    ensures m in nodes && nodes[m].dist <= Length(v)
  {
    if v.Step? {
      var c := OtherEnd(v.via, m);
      assert Touches(v.via, c) && OtherEnd(v.via, c) == m;
      assert Relaxed(nodes, c, v.via);
    }
  }

  /** Recording a better (or first) distance for the far end of a link keeps the tree. */
  lemma ImproveKeepsTree(links: seq<Link>, start: NodeId, nodes: Nodes, tree: Tree, settled: set<NodeId>,
                         id: NodeId, link: Link, other: NodeId, dist: Metres)
    requires TreeOk(links, start, nodes, tree, settled)
    requires id in settled && link in links && Touches(link, id) && other == OtherEnd(link, id)
    requires other !in settled && dist == nodes[id].dist + link.distance
    requires other in nodes ==> dist < nodes[other].dist
    ensures TreeOk(links, start, nodes[other := LightNode(dist, Some(Parent(id, link)))],
                   tree[other := Step(tree[id], link)], settled)
  {
    var nodes' := nodes[other := LightNode(dist, Some(Parent(id, link)))];
    var tree' := tree[other := Step(tree[id], link)];
    assert InTree(links, start, nodes, tree, settled, id);
    assert other != id;
    forall n | n in nodes' ensures InTree(links, start, nodes', tree', settled, n) {
      if n != other {
        assert InTree(links, start, nodes, tree, settled, n);
      }
    }
  }

  lemma ImproveGrows(nodes: Nodes, settled: set<NodeId>, other: NodeId, node: LightNode)
    requires settled <= nodes.Keys && other !in settled
    requires other in nodes ==> node.dist <= nodes[other].dist
    ensures Grown(nodes, nodes[other := node], settled)
  {
  }

  lemma ImproveKeepsHeap(nodes: Nodes, heap: Heap, settled: set<NodeId>, other: NodeId, dist: Metres,
                         parent: Option<Parent>)
    requires HeapOk(nodes, heap, settled)
    requires other !in settled && (other in nodes ==> dist < nodes[other].dist)
    ensures HeapOk(nodes[other := LightNode(dist, parent)], heap + multiset{State(dist, other)}, settled)
  {
    assert State(dist, other) !in heap;
  }

  lemma ImproveKeepsSettled(links: seq<Link>, start: NodeId, nodes: Nodes, settled: set<NodeId>, other: NodeId,
                            dist: Metres, parent: Option<Parent>)
    requires settled <= nodes.Keys && SettledOk(links, start, nodes, settled)
    requires other !in settled
    requires forall n :: n in settled ==> nodes[n].dist <= dist
    ensures SettledOk(links, start, nodes[other := LightNode(dist, parent)], settled)
  {
  }

  /** What stopping on first discovery guarantees of the walk found: its last link is
      taken from a neighbour of the goal that no walk to any neighbour undercuts. */
  ghost predicate StopsFromNearest(links: seq<Link>, start: NodeId, goal: NodeId, w: Walk) {
    && w.Step? && Joins(links, start, w, goal)
    && forall l :: l in links && Touches(l, goal) ==> AtLeast(links, start, OtherEnd(l, goal), Length(w.before))
  }

  lemma DiscoveryStopsFromNearest(links: seq<Link>, start: NodeId, goal: NodeId, closed: set<NodeId>, known: Nodes,
                                  nodes: Nodes, tree: Tree, settled: set<NodeId>, id: NodeId)
    requires TreeOk(links, start, nodes, tree, settled)
    requires goal in nodes && goal !in known && closed <= known.Keys
    requires id in settled && nodes[goal].parent.Some? && nodes[goal].parent.value.id == id
    requires AllRelaxed(links, known, closed)
    requires forall x :: x !in closed ==> AtLeast(links, start, x, nodes[id].dist)
    ensures StopsFromNearest(links, start, goal, tree[goal])
    ensures Connected(links, start, goal)
  {
    assert InTree(links, start, nodes, tree, settled, goal);
    assert InTree(links, start, nodes, tree, settled, id);
    forall l | l in links && Touches(l, goal) ensures OtherEnd(l, goal) !in closed {
      var x := OtherEnd(l, goal);
      assert OtherEnd(l, x) == goal && Touches(l, x);
      assert x in known ==> !Relaxed(known, x, l);
    }
  }

  /** The node that finds the goal, after those already closed, and the link it finds it by. */
  ghost predicate FoundBy(links: seq<Link>, goal: NodeId, closed: set<NodeId>, x: NodeId, way: Link) {
    && FirstLeading(LinksAt(links, x), x, goal) == Some(way)
    && forall n :: n in closed ==> !NearGoal(links, goal, n)
  }

  lemma NoneClosedNearGoal(links: seq<Link>, goal: NodeId, known: Nodes, closed: set<NodeId>)
    requires goal !in known && closed <= known.Keys && AllRelaxed(links, known, closed)
    ensures forall n :: n in closed ==> !NearGoal(links, goal, n)
  {
    forall n, l | n in closed && l in links && Touches(l, n) ensures OtherEnd(l, n) != goal {
      assert Relaxed(known, n, l);
    }
  }

  /** What the search guarantees of the walk it returns: besides stopping from a nearest
      neighbour of the goal, that this is the first neighbour in settling order, and that the
      last link is the first row there which leads to the goal. */
  ghost predicate Returns(links: seq<Link>, start: NodeId, goal: NodeId, w: Walk) {
    && StopsFromNearest(links, start, goal, w)
    && (exists order :: Finds(links, start, goal, order, OtherEnd(w.via, goal)))
    && FirstLeading(LinksAt(links, OtherEnd(w.via, goal)), OtherEnd(w.via, goal), goal) == Some(w.via)
  }

  lemma FoundReturns(links: seq<Link>, start: NodeId, goal: NodeId, order: seq<NodeId>, x: NodeId, w: Walk)
    requires StopsFromNearest(links, start, goal, w) && OtherEnd(w.via, goal) == x
    requires Settles(links, start, order) && IsNext(links, start, Elements(order), x)
    requires FoundBy(links, goal, Elements(order), x, w.via)
    ensures Returns(links, start, goal, w)
  {
    SettlesNext(links, start, order, x);
    assert w.via in links && Touches(w.via, x) && OtherEnd(w.via, x) == goal;
    assert NearGoal(links, goal, x);
    assert Finds(links, start, goal, order, x);
  }

  /** What expanding a settled node keeps. The heap is not part of it: once the goal
      is found the heap is abandoned. */
  ghost predicate Expanding(links: seq<Link>, start: NodeId, nodes: Nodes, tree: Tree, settled: set<NodeId>,
                            id: NodeId) {
    && TreeOk(links, start, nodes, tree, settled) && SettledOk(links, start, nodes, settled)
    && id in settled
    && forall n :: n in settled ==> nodes[n].dist <= nodes[id].dist
  }

  /** Nodes are only added, distances only fall, and settled nodes stay as they are. */
  ghost predicate Grown(nodes: Nodes, nodes': Nodes, settled: set<NodeId>)
    requires settled <= nodes.Keys
  {
    && nodes.Keys <= nodes'.Keys
    && (forall n :: n in nodes ==> nodes'[n].dist <= nodes[n].dist)
    && (forall n :: n in settled ==> nodes'[n] == nodes[n])
  }

  lemma RoundKeepsRelaxed(links: seq<Link>, nodes: Nodes, nodes': Nodes, settled: set<NodeId>, id: NodeId)
    requires settled + {id} <= nodes.Keys && Grown(nodes, nodes', settled + {id})
    requires AllRelaxed(links, nodes, settled) && RelaxedAt(links, nodes', id)
    ensures AllRelaxed(links, nodes', settled + {id})
  {
    forall n | n in settled ensures RelaxedAt(links, nodes', n) {
      assert RelaxedAt(links, nodes, n);
      forall l | l in links && Touches(l, n) ensures Relaxed(nodes', n, l) {
        assert Relaxed(nodes, n, l);
      }
    }
  }

  ghost predicate RelaxedUpTo(nodes: Nodes, id: NodeId, rows: seq<Link>, i: nat)
    requires i <= |rows|
  {
    id in nodes && forall k :: 0 <= k < i ==> Relaxed(nodes, id, rows[k])
  }

  /** Once link i is relaxed, links 0..i are: distances only fell meanwhile. */
  lemma NextRelaxed(first: Nodes, nodes: Nodes, nodes': Nodes, settled: set<NodeId>, id: NodeId, rows: seq<Link>,
                    i: nat)
    requires id in settled && settled <= first.Keys && i < |rows|
    requires Grown(first, nodes, settled) && RelaxedUpTo(nodes, id, rows, i)
    requires settled <= nodes.Keys && Grown(nodes, nodes', settled)
    requires Relaxed(nodes', id, rows[i])
    ensures Grown(first, nodes', settled) && RelaxedUpTo(nodes', id, rows, i + 1)
  {
    forall k | 0 <= k < i ensures Relaxed(nodes', id, rows[k]) {
      assert Relaxed(nodes, id, rows[k]);
    }
  }

  lemma InitialSearch(links: seq<Link>, start: NodeId)
    ensures SearchOk(links, start, map[start := LightNode(0.0, None)], map[start := Origin],
                     multiset{State(0.0, start)}, {})
    ensures AllRelaxed(links, map[start := LightNode(0.0, None)], {})
  {
    var nodes: Nodes := map[start := LightNode(0.0, None)];
    assert Joins(links, start, Origin, start);
    assert InTree(links, start, nodes, map[start := Origin], {}, start);
  }

  /** One link of a node just settled: the far end is inserted, improved or left alone. */
  method RelaxLink(links: seq<Link>, start: NodeId, goal: NodeId, id: NodeId, link: Link, nodes: Nodes, heap: Heap,
                   ghost tree: Tree, ghost settled: set<NodeId>, ghost stored: set<NodeId>)
    returns (found: bool, nodes': Nodes, heap': Heap, ghost tree': Tree)
    requires Expanding(links, start, nodes, tree, settled, id) && HeapOk(nodes, heap, settled)
    requires goal !in nodes && nodes.Keys <= stored && EndsStored(links, stored)
    requires link in links && Touches(link, id)
    ensures Expanding(links, start, nodes', tree', settled, id) && Grown(nodes, nodes', settled)
    ensures nodes'.Keys <= stored && Relaxed(nodes', id, link)
    ensures found <==> goal in nodes'
    ensures found ==> nodes'[goal].parent == Some(Parent(id, link)) && OtherEnd(link, id) == goal
    ensures !found ==> HeapOk(nodes', heap', settled)
  {
    found, nodes', heap', tree' := false, nodes, heap, tree;
    var tentDist := link.distance + nodes[id].dist;
    var otherEnd := if link.p1 == id then link.p2 else link.p1;
    if otherEnd !in nodes || nodes[otherEnd].dist > tentDist {
      var node := LightNode(tentDist, Some(Parent(id, link)));
      ImproveKeepsTree(links, start, nodes, tree, settled, id, link, otherEnd, tentDist);
      ImproveKeepsSettled(links, start, nodes, settled, otherEnd, tentDist, node.parent);
      ImproveKeepsHeap(nodes, heap, settled, otherEnd, tentDist, node.parent);
      ImproveGrows(nodes, settled, otherEnd, node);
      nodes', tree' := nodes[otherEnd := node], tree[otherEnd := Step(tree[id], link)];
      if otherEnd == goal {
        found := true;
      } else {
        heap' := heap + multiset{State(tentDist, otherEnd)};
      }
    }
  }

  /** The row by which the goal was found is the first that leads to it. */
  lemma FirstFound(links: seq<Link>, goal: NodeId, id: NodeId, rows: seq<Link>, i: nat, before: Nodes, after: Nodes)
    requires rows == LinksAt(links, id) && i < |rows|
    requires goal !in before && RelaxedUpTo(before, id, rows, i)
    requires goal in after && after[goal].parent == Some(Parent(id, rows[i])) && OtherEnd(rows[i], id) == goal
    ensures FirstLeading(rows, id, goal) == Some(rows[i])
  {
    forall k | 0 <= k < i ensures OtherEnd(rows[k], id) != goal {
      assert Relaxed(before, id, rows[k]);
    }
    FirstLeadingAt(rows, id, goal, i);
  }

  /** The loop over the links of a node just settled. */
  method ExpandNode(links: seq<Link>, start: NodeId, goal: NodeId, id: NodeId, nodes: Nodes, heap: Heap,
                    ghost tree: Tree, ghost settled: set<NodeId>, ghost stored: set<NodeId>)
    returns (found: bool, nodes': Nodes, heap': Heap, ghost tree': Tree)
    requires Expanding(links, start, nodes, tree, settled, id) && HeapOk(nodes, heap, settled)
    requires goal !in nodes && nodes.Keys <= stored && EndsStored(links, stored)
    ensures Expanding(links, start, nodes', tree', settled, id) && Grown(nodes, nodes', settled)
    ensures nodes'.Keys <= stored
    ensures found <==> goal in nodes'
    ensures found ==> nodes'[goal].parent.Some? && nodes'[goal].parent.value.id == id
    ensures found ==> FirstLeading(LinksAt(links, id), id, goal) == Some(nodes'[goal].parent.value.way)
    ensures !found ==> HeapOk(nodes', heap', settled) && RelaxedAt(links, nodes', id)
  {
    found, nodes', heap', tree' := false, nodes, heap, tree;
    var rows := LinksAt(links, id);
    for i := 0 to |rows|
      invariant Expanding(links, start, nodes', tree', settled, id) && Grown(nodes, nodes', settled)
      invariant HeapOk(nodes', heap', settled) && RelaxedUpTo(nodes', id, rows, i)
      invariant nodes'.Keys <= stored && goal !in nodes'
    {
      assert rows[i] in rows;
      ghost var unrelaxed := nodes';
      found, nodes', heap', tree' :=
        RelaxLink(links, start, goal, id, rows[i], nodes', heap', tree', settled, stored);
      NextRelaxed(nodes, unrelaxed, nodes', settled, id, rows, i);
      if found {
        FirstFound(links, goal, id, rows, i, unrelaxed, nodes');
        return;
      }
    }
    forall l | l in links && Touches(l, id) ensures Relaxed(nodes', id, l) {
      var k :| 0 <= k < |rows| && rows[k] == l;
    }
  }

  /** One round of the search: the node of a current heap entry is settled and expanded. */
  method SettleNode(links: seq<Link>, start: NodeId, goal: NodeId, top: State, nodes: Nodes, heap: Heap,
                    ghost tree: Tree, ghost settled: set<NodeId>, ghost stored: set<NodeId>)
    returns (found: bool, nodes': Nodes, heap': Heap, ghost tree': Tree)
    requires SearchOk(links, start, nodes, tree, heap + multiset{top}, settled) && AllRelaxed(links, nodes, settled)
    requires top.id in nodes && nodes[top.id].dist == top.cost
    requires forall s :: s in heap ==> top.Above(s)
    requires goal !in nodes && nodes.Keys <= stored && EndsStored(links, stored)
    ensures top.id !in settled && top.id in nodes'
    ensures TreeOk(links, start, nodes', tree', settled + {top.id})
    ensures found <==> goal in nodes'
    ensures IsNext(links, start, settled, top.id)
    ensures found ==> StopsFromNearest(links, start, goal, tree'[goal]) && Connected(links, start, goal)
    ensures found ==>
            OtherEnd(tree'[goal].via, goal) == top.id && FoundBy(links, goal, settled, top.id, tree'[goal].via)
    ensures !found ==> SearchOk(links, start, nodes', tree', heap', settled + {top.id})
    ensures !found ==> AllRelaxed(links, nodes', settled + {top.id}) && nodes'.Keys <= stored
  {
    SettleKeeps(links, start, nodes, tree, heap + multiset{top}, settled, top);
    TopIsNext(links, start, nodes, tree, heap + multiset{top}, settled, top);
    assert heap + multiset{top} - multiset{top} == heap;
    found, nodes', heap', tree' :=
        ExpandNode(links, start, goal, top.id, nodes, heap, tree, settled + {top.id}, stored);
    if found {
      DiscoveryStopsFromNearest(links, start, goal, settled, nodes, nodes', tree', settled + {top.id}, top.id);
      NoneClosedNearGoal(links, goal, nodes, settled);
      assert InTree(links, start, nodes', tree', settled + {top.id}, goal);
    } else {
      RoundKeepsRelaxed(links, nodes, nodes', settled, top.id);
    }
  }

  /** `order` lists the settled nodes as they were settled. */
  ghost predicate SettledInOrder(links: seq<Link>, start: NodeId, settled: set<NodeId>, order: seq<NodeId>) {
    settled == Elements(order) && Settles(links, start, order)
  }

  lemma OrderGrows(links: seq<Link>, start: NodeId, settled: set<NodeId>, order: seq<NodeId>, n: NodeId)
    requires SettledInOrder(links, start, settled, order) && IsNext(links, start, settled, n)
    ensures SettledInOrder(links, start, settled + {n}, order + [n])
  {
    SettlesNext(links, start, order, n);
  }

  /** One round of the search loop on the state popped: a stale entry is dropped, a current
      one settles its node. */
  method TakeState(links: seq<Link>, start: NodeId, goal: NodeId, top: State, nodes: Nodes, heap: Heap,
                   ghost tree: Tree, ghost settled: set<NodeId>, ghost order: seq<NodeId>, ghost stored: set<NodeId>)
    returns (found: bool, nodes': Nodes, heap': Heap, ghost tree': Tree,
             ghost settled': set<NodeId>, ghost order': seq<NodeId>)
    requires SearchOk(links, start, nodes, tree, heap + multiset{top}, settled) && AllRelaxed(links, nodes, settled)
    requires SettledInOrder(links, start, settled, order)
    requires forall s :: s in heap ==> top.Above(s)
    requires goal !in nodes && nodes.Keys <= stored && EndsStored(links, stored)
    ensures TreeOk(links, start, nodes', tree', settled')
    ensures found <==> goal in nodes'
    ensures found ==> Returns(links, start, goal, tree'[goal]) && Connected(links, start, goal)
    ensures !found ==> SearchOk(links, start, nodes', tree', heap', settled') && AllRelaxed(links, nodes', settled')
    ensures !found ==> SettledInOrder(links, start, settled', order') && nodes'.Keys <= stored
    ensures if settled' == settled then heap' == heap
            else top.id !in settled && top.id in stored && settled' == settled + {top.id}
  {
    found, nodes', heap', tree' := false, nodes, heap, tree;
    settled', order' := settled, order;
    assert top in heap + multiset{top};
    assert top.id != goal;
    var dist := nodes[top.id].dist;
    if top.cost > dist {
      DropStale(links, start, nodes, tree, heap, settled, top);
      return;
    }
    assert top.cost == dist;
    found, nodes', heap', tree' := SettleNode(links, start, goal, top, nodes, heap, tree, settled, stored);
    settled', order' := settled + {top.id}, order + [top.id];
    OrderGrows(links, start, settled, order, top.id);
    if found {
      FoundReturns(links, start, goal, order, top.id, tree'[goal]);
    }
  }

  /** The search proper, `navigate` up to line 113. */
  method Search(links: seq<Link>, start: NodeId, goal: NodeId, ghost stored: set<NodeId>)
    returns (nodes: Nodes, ghost tree: Tree, ghost settled: set<NodeId>)
    requires EndsStored(links, stored) && start in stored && start != goal
    ensures TreeOk(links, start, nodes, tree, settled)
    ensures goal in nodes <==> Connected(links, start, goal)
    ensures goal in nodes ==> Returns(links, start, goal, tree[goal])
  {
    nodes := map[start := LightNode(0.0, None)];
    var heap := multiset{State(0.0, start)};
    tree, settled := map[start := Origin], {};
    InitialSearch(links, start);
    ghost var order: seq<NodeId> := [];
    while heap != multiset{}
      invariant SearchOk(links, start, nodes, tree, heap, settled) && AllRelaxed(links, nodes, settled)
      invariant SettledInOrder(links, start, settled, order)
      invariant nodes.Keys <= stored && goal !in nodes
      decreases stored - settled, |heap|
    {
      ghost var unpopped := heap;
      var top;
      top, heap := Pop(heap);
      assert unpopped == heap + multiset{top};
      var found;
      found, nodes, heap, tree, settled, order :=
        TakeState(links, start, goal, top, nodes, heap, tree, settled, order, stored);
      if found {
        return;
      }
    }
    ExhaustedMeansUnreachable(links, start, nodes, tree, settled, goal);
  }

  /** The stored geometry of a link, possibly reversed. */
  datatype Segment = Segment(link: Link, reversed: bool)
  {
    function From(): NodeId { if reversed then link.p2 else link.p1 }
    function To(): NodeId { if reversed then link.p1 else link.p2 }
  }

  ghost function WalkOf(way: seq<Segment>): Walk {
    if way == [] then Origin
    else Step(WalkOf(way[..|way| - 1]), way[|way| - 1].link)
  }

  /** `way` runs through existing links from the last of `nodes` back to the first,
      each segment ending where the next begins. */
  ghost predicate Traces(links: seq<Link>, nodes: seq<NodeId>, way: seq<Segment>) {
    && |nodes| == |way| + 1
    && forall i :: 0 <= i < |way| ==>
         way[i].link in links && way[i].From() == nodes[|way| - i] && way[i].To() == nodes[|way| - 1 - i]
  }

  lemma {:induction false} TracesJoins(links: seq<Link>, nodes: seq<NodeId>, way: seq<Segment>)
    requires Traces(links, nodes, way)
    ensures Joins(links, nodes[|way|], WalkOf(way), nodes[0])
    decreases |way|
  {
    if way != [] {
      assert Traces(links, nodes[1..], way[..|way| - 1]) by {
        forall i | 0 <= i < |way| - 1
          ensures way[i].From() == nodes[1..][|way| - 1 - i] && way[i].To() == nodes[1..][|way| - 2 - i]
        {
          assert way[i].From() == nodes[|way| - i];
        }
      }
      TracesJoins(links, nodes[1..], way[..|way| - 1]);
      var last := way[|way| - 1];
      assert last.From() == nodes[1];
    }
  }

  /** Putting a segment in front of a way. */
  lemma {:induction false} ConcatFront(v: Walk, seg: Segment, way: seq<Segment>)
    ensures Concat(v, WalkOf([seg] + way)) == Concat(Step(v, seg.link), WalkOf(way))
    decreases |way|
  {
    if way == [] {
      assert [seg] + way == [seg];
      assert [seg][..0] == [];
    } else {
      assert ([seg] + way)[..|way|] == [seg] + way[..|way| - 1];
      ConcatFront(v, seg, way[..|way| - 1]);
    }
  }

  lemma {:induction false} ConcatOrigin(w: Walk)
    ensures Concat(Origin, w) == w
  {
    match w
    case Origin =>
    case Step(before, via) => ConcatOrigin(before);
  }

  /** One step back along a parent pointer, the geometry turned to end at the child. */
  lemma TraceBack(links: seq<Link>, nodes: seq<NodeId>, way: seq<Segment>, link: Link)
    requires Traces(links, nodes, way)
    requires link in links && Touches(link, nodes[|way|])
    ensures Traces(links, nodes + [OtherEnd(link, nodes[|way|])], [Segment(link, link.p2 != nodes[|way|])] + way)
  {
    var seg := Segment(link, link.p2 != nodes[|way|]);
    var nodes', way' := nodes + [OtherEnd(link, nodes[|way|])], [seg] + way;
    forall i | 0 <= i < |way'|
      ensures way'[i].link in links && way'[i].From() == nodes'[|way'| - i] && way'[i].To() == nodes'[|way'| - 1 - i]
    {
      if i > 0 {
        assert way'[i] == way[i - 1];
      }
    }
  }

  /** The backward loop over parent pointers. */
  method Backtrack(links: seq<Link>, start: NodeId, goal: NodeId, nodes: Nodes,
                   ghost tree: Tree, ghost settled: set<NodeId>)
    returns (pathNodes: seq<NodeId>, path: seq<Segment>)
    requires TreeOk(links, start, nodes, tree, settled) && goal in nodes
    ensures Traces(links, pathNodes, path)
    ensures pathNodes[0] == goal && pathNodes[|path|] == start
    ensures WalkOf(path) == tree[goal] && Length(WalkOf(path)) == nodes[goal].dist
  {
    pathNodes, path := [goal], [];
    var curNode := goal;
    assert InTree(links, start, nodes, tree, settled, goal);
    while nodes[curNode].parent.Some?
      invariant curNode in nodes && InTree(links, start, nodes, tree, settled, curNode)
      invariant Traces(links, pathNodes, path)
      invariant pathNodes[0] == goal && pathNodes[|path|] == curNode
      invariant Concat(tree[curNode], WalkOf(path)) == tree[goal]
      decreases tree[curNode]
    {
      var parent := nodes[curNode].parent.value;
      var geom := Segment(parent.way, parent.way.p2 != pathNodes[|pathNodes| - 1]);
      ConcatFront(tree[parent.id], geom, path);
      TraceBack(links, pathNodes, path, parent.way);
      pathNodes := pathNodes + [parent.id];
      path := [geom] + path;
      curNode := parent.id;
      assert InTree(links, start, nodes, tree, settled, curNode);
    }
    ConcatOrigin(WalkOf(path));
  }

  datatype StationId = StationId(number: int)

  datatype PathId = PathId(number: int)

  /** One row of `station_paths`. */
  datatype StationPath = StationPath(id: PathId, s1: StationId, s2: StationId, way: seq<Segment>, nodes: seq<NodeId>)

  datatype NavError =
    | StationNotFound(station: StationId)
    | StationNodeMissing
    | IncorrectGraphPart(from: StationId, to: StationId)

  /** `Panicked` is a failed assertion or unwrap. */
  datatype NavOutcome = Routed(path: StationPath) | Failed(error: NavError) | Panicked

  type Stations = map<StationId, NodeId>

  /** `path` is a walk between the two stations' nodes. */
  ghost predicate ServesPair(stations: Stations, links: seq<Link>, path: StationPath) {
    && path.s1 in stations && path.s2 in stations
    && Traces(links, path.nodes, path.way)
    && path.nodes[0] == stations[path.s2] && path.nodes[|path.way|] == stations[path.s1]
  }

  /** The checks before the search, in the code's order. */
  function EarlyError(stations: Stations, parts: Parts, from: StationId, to: StationId): Option<NavError> {
    if from !in stations then Some(StationNotFound(from))
    else if to !in stations then Some(StationNotFound(to))
    else if stations[from] !in parts then Some(StationNodeMissing)
    else if stations[to] !in parts || parts[stations[to]] != parts[stations[from]]
    then Some(IncorrectGraphPart(from, to))
    else None
  }

  /** Which station or pair an early error names: the first station missing, the start's node,
      or a goal node that is missing or labelled otherwise. */
  lemma EarlyErrorNames(stations: Stations, parts: Parts, from: StationId, to: StationId)
    ensures EarlyError(stations, parts, from, to) == Some(StationNotFound(from)) <==>
            from !in stations
    ensures from != to ==>
              (EarlyError(stations, parts, from, to) == Some(StationNotFound(to)) <==>
               from in stations && to !in stations)
    ensures EarlyError(stations, parts, from, to) == Some(StationNodeMissing) <==>
            from in stations && to in stations && stations[from] !in parts
    ensures EarlyError(stations, parts, from, to) == Some(IncorrectGraphPart(from, to)) <==>
            && from in stations && to in stations && stations[from] in parts
            && (stations[to] in parts ==> parts[stations[to]] != parts[stations[from]])
    ensures EarlyError(stations, parts, from, to) == None <==>
            && from in stations && to in stations && stations[from] in parts && stations[to] in parts
            && parts[stations[from]] == parts[stations[to]]
  {
  }

  method Navigate(stations: Stations, parts: Parts, links: seq<Link>, from: StationId, to: StationId)
    returns (r: NavOutcome)
    requires EndsStored(links, parts.Keys)
    ensures EarlyError(stations, parts, from, to).Some? <==> r.Failed?
    ensures r.Failed? ==> r.error == EarlyError(stations, parts, from, to).value
    ensures !r.Failed? ==>
            (r.Panicked? <==> stations[from] == stations[to] || !Connected(links, stations[from], stations[to]))
    ensures r.Routed? ==> r.path.s1 == from && r.path.s2 == to && ServesPair(stations, links, r.path)
    ensures r.Routed? ==> Returns(links, stations[from], stations[to], WalkOf(r.path.way))
  {
    if from !in stations {
      return Failed(StationNotFound(from));
    }
    var startingNode := stations[from];
    if to !in stations {
      return Failed(StationNotFound(to));
    }
    var goalNode := stations[to];
    if startingNode !in parts {
      return Failed(StationNodeMissing);
    }
    if goalNode !in parts || parts[goalNode] != parts[startingNode] {
      return Failed(IncorrectGraphPart(from, to));
    }
    if startingNode == goalNode {
      // the first state popped is the goal itself
      return Panicked;
    }
    var nodes;
    ghost var tree, settled;
    nodes, tree, settled := Search(links, startingNode, goalNode, parts.Keys);
    if goalNode !in nodes {
      return Panicked;
    }
    var pathNodes, path := Backtrack(links, startingNode, goalNode, nodes, tree, settled);
    r := Routed(StationPath(PathId(-1), from, to, path, pathNodes));
  }

  /** Labels computed on the current graph make the search total: once the checks are
      passed it can only panic when both stations stand on one node. */
  lemma LabelsMakeRoutingTotal(stations: Stations, before: Parts, after: Parts, k: nat, links: seq<Link>,
                               from: StationId, to: StationId)
    requires Relabelled(links, before, after, k) && forall v :: v in before ==> before[v] == 0
    requires from in stations && to in stations && stations[from] in after && stations[to] in after
    ensures EarlyError(stations, after, from, to).None? <==> Connected(links, stations[from], stations[to])
  {
    FreshRunIsExact(links, before, after, k);
  }

  /** The walk found is at most its own last link longer than any other, and up to the
      last link it is a shortest walk. */
  lemma NearlyShortest(links: seq<Link>, start: NodeId, goal: NodeId, w: Walk, any: Walk)
    requires start != goal && StopsFromNearest(links, start, goal, w) && Joins(links, start, any, goal)
    ensures Length(w) <= Length(any) + w.via.distance
    ensures AtLeast(links, start, OtherEnd(w.via, goal), Length(w.before))
  {
    assert Length(w.before) <= Length(any.before);
  }

  /** The link by which the first neighbour `x` in settling order leads to the goal exceeds
      `m`, another link into the goal, by no more than `m`'s far end is farther away: `u` is a
      shortest walk to `x`, `v` any walk to that far end. */
  ghost predicate UncutBy(links: seq<Link>, start: NodeId, goal: NodeId,
                          order: seq<NodeId>, x: NodeId, u: Walk, m: Link, v: Walk) {
    && Finds(links, start, goal, order, x) && Joins(links, start, u, x) && AtLeast(links, start, x, Length(u))
    && m in links && Touches(m, goal) && Joins(links, start, v, OtherEnd(m, goal))
    && FirstLeading(LinksAt(links, x), x, goal).Some?
    ==> FirstLeading(LinksAt(links, x), x, goal).value.distance - m.distance <= Length(v) - Length(u)
  }

  /** A condition on the graph: no link into the goal undercuts the one it is found by. */
  ghost predicate NoLinkUndercuts(links: seq<Link>, start: NodeId, goal: NodeId) {
    forall order, x, u, m, v :: UncutBy(links, start, goal, order, x, u, m, v)
  }

  lemma SameFinder(links: seq<Link>, start: NodeId, goal: NodeId, w: Walk, order: seq<NodeId>, x: NodeId)
    requires Returns(links, start, goal, w) && Finds(links, start, goal, order, x)
    ensures x == OtherEnd(w.via, goal)
  {
    var found :| Finds(links, start, goal, found, OtherEnd(w.via, goal));
    FinderUnique(links, start, goal, order, x, found, OtherEnd(w.via, goal));
  }

  lemma ShortestMeansUncut(links: seq<Link>, start: NodeId, goal: NodeId, w: Walk,
                           order: seq<NodeId>, x: NodeId, u: Walk, m: Link, v: Walk)
    requires Returns(links, start, goal, w) && AtLeast(links, start, goal, Length(w))
    ensures UncutBy(links, start, goal, order, x, u, m, v)
  {
    if Finds(links, start, goal, order, x) && Joins(links, start, u, x) && AtLeast(links, start, x, Length(u))
       && m in links && Touches(m, goal) && Joins(links, start, v, OtherEnd(m, goal)) {
      SameFinder(links, start, goal, w, order, x);
      assert Length(u) <= Length(w.before);
      assert AtLeast(links, start, x, Length(w.before));
      assert Joins(links, start, Step(v, m), goal);
    }
  }

  lemma UncutMeansShortest(links: seq<Link>, start: NodeId, goal: NodeId, w: Walk)
    requires start != goal && NoLinkUndercuts(links, start, goal) && Returns(links, start, goal, w)
    ensures AtLeast(links, start, goal, Length(w))
  {
    var order :| Finds(links, start, goal, order, OtherEnd(w.via, goal));
    assert AtLeast(links, start, OtherEnd(w.via, goal), Length(w.before));
    forall any | Joins(links, start, any, goal) ensures Length(w) <= Length(any) {
      assert any.Step? && Joins(links, start, any.before, OtherEnd(any.via, goal));
      assert UncutBy(links, start, goal, order, OtherEnd(w.via, goal), w.before, any.via, any.before);
    }
  }

  /** The walk the search returns is a shortest one exactly on the graphs where no link into
      the goal undercuts the one it is found by. */
  lemma ShortestIff(links: seq<Link>, start: NodeId, goal: NodeId, w: Walk)
    requires start != goal && Returns(links, start, goal, w)
    ensures AtLeast(links, start, goal, Length(w)) <==> NoLinkUndercuts(links, start, goal)
  {
    if NoLinkUndercuts(links, start, goal) {
      UncutMeansShortest(links, start, goal, w);
    }
    if AtLeast(links, start, goal, Length(w)) {
      forall order, x, u, m, v ensures UncutBy(links, start, goal, order, x, u, m, v) {
        ShortestMeansUncut(links, start, goal, w, order, x, u, m, v);
      }
    }
  }

  /** Where every link has a positive length, the walk returned comes from the nearest
      neighbour of the goal with the greatest id. */
  lemma ReturnsFromGreatest(links: seq<Link>, start: NodeId, goal: NodeId, w: Walk)
    requires Returns(links, start, goal, w) && forall l :: l in links ==> l.distance > 0.0
    ensures Greatest(links, start, goal, w.before, OtherEnd(w.via, goal))
  {
    var order :| Finds(links, start, goal, order, OtherEnd(w.via, goal));
    FinderIsGreatest(links, start, goal, order, w.before, OtherEnd(w.via, goal));
  }

  /** The same in terms of distances and ids: `l` is the first row that leads from the greatest
      nearest neighbour to the goal. */
  ghost predicate UncutByIds(links: seq<Link>, start: NodeId, goal: NodeId, l: Link, u: Walk, m: Link, v: Walk) {
    && l in links && Touches(l, goal) && Greatest(links, start, goal, u, OtherEnd(l, goal))
    && FirstLeading(LinksAt(links, OtherEnd(l, goal)), OtherEnd(l, goal), goal) == Some(l)
    && m in links && Touches(m, goal) && Joins(links, start, v, OtherEnd(m, goal))
    ==> l.distance - m.distance <= Length(v) - Length(u)
  }

  ghost predicate GreatestUncut(links: seq<Link>, start: NodeId, goal: NodeId) {
    forall l, u, m, v :: UncutByIds(links, start, goal, l, u, m, v)
  }

  /** For positive lengths the condition needs no more than distances and ids. */
  lemma ShortestIffByIds(links: seq<Link>, start: NodeId, goal: NodeId, w: Walk)
    requires start != goal && Returns(links, start, goal, w) && forall l :: l in links ==> l.distance > 0.0
    ensures AtLeast(links, start, goal, Length(w)) <==> GreatestUncut(links, start, goal)
  {
    ReturnsFromGreatest(links, start, goal, w);
    if GreatestUncut(links, start, goal) {
      forall any | Joins(links, start, any, goal) ensures Length(w) <= Length(any) {
        assert any.Step? && Joins(links, start, any.before, OtherEnd(any.via, goal));
        assert UncutByIds(links, start, goal, w.via, w.before, any.via, any.before);
      }
    }
    if AtLeast(links, start, goal, Length(w)) {
      forall l, u, m, v ensures UncutByIds(links, start, goal, l, u, m, v) {
        ShortestMeansGreatestUncut(links, start, goal, w, l, u, m, v);
      }
    }
  }

  lemma ShortestMeansGreatestUncut(links: seq<Link>, start: NodeId, goal: NodeId, w: Walk,
                                   l: Link, u: Walk, m: Link, v: Walk)
    requires AtLeast(links, start, goal, Length(w)) && Returns(links, start, goal, w)
    requires Greatest(links, start, goal, w.before, OtherEnd(w.via, goal))
    ensures UncutByIds(links, start, goal, l, u, m, v)
  {
    if Greatest(links, start, goal, u, OtherEnd(l, goal))
       && m in links && Touches(m, goal) && Joins(links, start, v, OtherEnd(m, goal)) {
      GreatestUnique(links, start, goal, u, OtherEnd(l, goal), w.before, OtherEnd(w.via, goal));
      assert Joins(links, start, Step(v, m), goal);
    }
  }

  lemma GreatestUnique(links: seq<Link>, start: NodeId, goal: NodeId, u: Walk, x: NodeId, v: Walk, y: NodeId)
    requires Greatest(links, start, goal, u, x) && Greatest(links, start, goal, v, y)
    ensures x == y && Length(u) == Length(v)
  {
    var l := NearGoalTouches(links, goal, x);
    var m := NearGoalTouches(links, goal, y);
  }

  /** In particular it is a shortest one whenever the goal's links are equally long. */
  lemma ShortestWhenGoalLinksEqual(links: seq<Link>, start: NodeId, goal: NodeId, w: Walk)
    requires start != goal && StopsFromNearest(links, start, goal, w)
    requires forall l, m :: l in links && m in links && Touches(l, goal) && Touches(m, goal) ==>
             l.distance == m.distance
    ensures AtLeast(links, start, goal, Length(w))
  {
    forall any | Joins(links, start, any, goal) ensures Length(w) <= Length(any) {
      assert any.Step? && Joins(links, start, any.before, OtherEnd(any.via, goal));
      assert Length(w.before) <= Length(any.before);
    }
  }

  /** A goal with a long link from the nearer neighbour and a short one from the farther. */
  const DETOUR: seq<Link> := [
    Link(NodeId(0), NodeId(1), 1.0), Link(NodeId(1), NodeId(3), 10.0),
    Link(NodeId(0), NodeId(2), 2.0), Link(NodeId(2), NodeId(3), 1.0)]

  lemma {:induction false} DetourDistances(w: Walk, n: NodeId)
    requires Joins(DETOUR, NodeId(0), w, n)
    ensures 0.0 <= Length(w)
    ensures n == NodeId(1) ==> 1.0 <= Length(w)
    ensures n == NodeId(2) ==> 2.0 <= Length(w)
    ensures n == NodeId(3) ==> 3.0 <= Length(w)
    decreases w
  {
    match w
    case Origin =>
    case Step(before, via) => DetourDistances(before, OtherEnd(via, n));
  }

  /** Stopping on first discovery is not shortest in general: here any walk the search
      can return takes 11, while 3 is possible. */
  lemma NotAlwaysShortest(w: Walk)
    requires StopsFromNearest(DETOUR, NodeId(0), NodeId(3), w)
    ensures Length(w) >= 11.0
    ensures exists v :: Joins(DETOUR, NodeId(0), v, NodeId(3)) && Length(v) == 3.0
  {
    var near := Step(Origin, DETOUR[0]);
    var far := Step(Origin, DETOUR[2]);
    assert DETOUR[0] in DETOUR && DETOUR[1] in DETOUR && DETOUR[2] in DETOUR && DETOUR[3] in DETOUR;
    assert Joins(DETOUR, NodeId(0), Origin, NodeId(0));
    assert Joins(DETOUR, NodeId(0), near, NodeId(1));
    assert Joins(DETOUR, NodeId(0), far, NodeId(2));
    assert Joins(DETOUR, NodeId(0), Step(far, DETOUR[3]), NodeId(3));
    assert Length(Step(far, DETOUR[3])) == 3.0;
    assert OtherEnd(DETOUR[1], NodeId(3)) == NodeId(1);
    assert Length(w.before) <= Length(near);
    DetourDistances(w.before, OtherEnd(w.via, NodeId(3)));
  }
}
