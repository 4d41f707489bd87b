/** Labelling of the connected components of the railway graph (`separate_nodes`).
    Every node row carries a `graph_part`; 0 means not labelled yet. */
module Labelling {
  import opened RailGraph

  /** The foreign keys of the `links` table. */
  ghost predicate EndsStored(links: seq<Link>, nodes: set<NodeId>) {
    forall l :: l in links ==> l.p1 in nodes && l.p2 in nodes
  }

  /** Every link at `n` leads into `part`. */
  ghost predicate Expanded(links: seq<Link>, part: set<NodeId>, n: NodeId) {
    forall l :: l in links && Touches(l, n) ==> OtherEnd(l, n) in part
  }

  ghost predicate AllReachable(links: seq<Link>, start: NodeId, part: set<NodeId>) {
    forall n :: n in part ==> Connected(links, start, n)
  }

  /** Follows the links of one root; nodes not seen before join both sets. */
  method ExpandRoot(links: seq<Link>, start: NodeId, root: NodeId, part: set<NodeId>, roots: set<NodeId>,
                    ghost nodes: set<NodeId>)
    returns (part': set<NodeId>, roots': set<NodeId>)
    requires EndsStored(links, nodes) && part <= nodes
    requires root in part && roots <= part && AllReachable(links, start, part)
    ensures part <= part' <= nodes && roots' == roots + (part' - part)
    ensures AllReachable(links, start, part')
    ensures Expanded(links, part', root)
  {
    part', roots' := part, roots;
    var found := LinksAt(links, root);
    for i := 0 to |found|
      invariant part <= part' <= nodes && roots' == roots + (part' - part)
      invariant AllReachable(links, start, part')
      invariant forall k :: 0 <= k < i ==> OtherEnd(found[k], root) in part'
    {
      var link := found[i];
      assert link in found;
      var otherEnd := if link.p1 == root then link.p2 else link.p1;
      if otherEnd != root && otherEnd !in part' {
        ConnectedByLink(links, link, root);
        ConnectedTransitive(links, start, root, otherEnd);
        part', roots' := part' + {otherEnd}, roots' + {otherEnd};
      }
    }
  }

  /** Breadth-first search: the nodes connected to `start`, and nothing else. */
  method FloodFill(links: seq<Link>, start: NodeId, ghost nodes: set<NodeId>) returns (part: set<NodeId>)
    requires EndsStored(links, nodes) && start in nodes
    ensures part <= nodes
    ensures forall n :: n in part <==> Connected(links, start, n)
  {
    part := {start};
    var roots := {start};
    ConnectedReflexive(links, start);
    while roots != {}
      invariant start in part && part <= nodes && roots <= part
      invariant AllReachable(links, start, part)
      invariant forall n :: n in part - roots ==> Expanded(links, part, n)
      decreases nodes - part, roots
    {
      var batch := roots;
      ghost var before := part;
      roots := {};
      while batch != {}
        invariant before <= part <= nodes && batch <= before
        invariant roots == part - before
        invariant AllReachable(links, start, part)
        invariant forall n :: n in before - batch ==> Expanded(links, part, n)
        decreases batch
      {
        var root :| root in batch;
        batch := batch - {root};
        ghost var smaller := part;
        part, roots := ExpandRoot(links, start, root, part, roots, nodes);
        forall n | n in before - batch ensures Expanded(links, part, n) {
          assert n != root ==> Expanded(links, smaller, n);
        }
      }
      assert part == before ==> roots == {};
    }
    assert Closed(links, part) by {
      forall n, l | n in part && l in links && Touches(l, n) ensures OtherEnd(l, n) in part {
        assert Expanded(links, part, n);
      }
    }
    forall n | Connected(links, start, n) ensures n in part {
      var w :| Joins(links, start, w, n);
      ClosedKeepsWalks(links, part, start, w, n);
    }
  }

  type Parts = map<NodeId, int>

  function Unlabelled(parts: Parts): set<NodeId> {
    set v | v in parts && parts[v] == 0
  }

  /** `UPDATE nodes SET graph_part = value WHERE id = ANY(part)`. */
  function SetPart(parts: Parts, part: set<NodeId>, value: int): (r: Parts)
    ensures r.Keys == parts.Keys
    ensures forall v :: v in parts ==> r[v] == if v in part then value else parts[v]
  {
    map v | v in parts :: if v in part then value else parts[v]
  }

  /** Labels agree with connectedness. */
  ghost predicate Exact(links: seq<Link>, parts: Parts) {
    forall u, v :: u in parts && v in parts ==> (parts[u] == parts[v] <==> Connected(links, u, v))
  }

  /** `v` shares a component with some unlabelled node, so the labelling visits it. */
  ghost predicate Visited(links: seq<Link>, parts: Parts, v: NodeId) {
    exists z :: z in parts && parts[z] == 0 && Connected(links, z, v)
  }

  ghost predicate Used(parts: Parts, among: set<NodeId>, c: int) {
    exists v :: v in among && v in parts && parts[v] == c
  }

  ghost function VisitedNodes(links: seq<Link>, parts: Parts): set<NodeId> {
    set v | v in parts && Visited(links, parts, v)
  }

  /** What one run of the labelling does to the node table, whatever labels it finds there. */
  ghost predicate Relabelled(links: seq<Link>, before: Parts, after: Parts, k: nat) {
    && after.Keys == before.Keys
    && (forall v :: v in before && !Visited(links, before, v) ==> after[v] == before[v])
    && (forall v :: v in before && Visited(links, before, v) ==> 1 <= after[v] <= k)
    && (forall c :: 1 <= c <= k ==> Used(after, VisitedNodes(links, before), c))
    && (forall u, v :: u in before && v in before && Visited(links, before, u) && Visited(links, before, v) ==>
          (after[u] == after[v] <==> Connected(links, u, v)))
  }

  /** The labelling loop's state: `done` is the union of the components labelled so far. */
  ghost predicate Progress(links: seq<Link>, before: Parts, now: Parts, done: set<NodeId>, next: int) {
    && 1 <= next
    && now.Keys == before.Keys && done <= before.Keys
    && (forall v :: v in before && v !in done ==> now[v] == before[v])
    && (forall v :: v in done ==> 1 <= now[v] < next && Visited(links, before, v))
    && (forall c :: 1 <= c < next ==> Used(now, done, c))
    && (forall u, v :: u in done && v in before && Connected(links, u, v) ==> v in done)
    && (forall u, v :: u in done && v in done ==> (now[u] == now[v] <==> Connected(links, u, v)))
  }

  lemma RoundKeepsProgress(links: seq<Link>, before: Parts, now: Parts, done: set<NodeId>, next: int,
                           root: NodeId, part: set<NodeId>)
    requires Progress(links, before, now, done, next)
    requires root in Unlabelled(now) && part <= before.Keys
    requires forall n :: n in part <==> Connected(links, root, n)
    ensures Progress(links, before, SetPart(now, part, next), done + part, next + 1)
    ensures done !! part
    ensures Unlabelled(SetPart(now, part, next)) < Unlabelled(now)
  {
    var now' := SetPart(now, part, next);
    ConnectedReflexive(links, root);
    forall u, v | u in part && v in before && Connected(links, u, v) ensures v in part {
      ConnectedTransitive(links, root, u, v);
    }
    forall u | u in part ensures u !in done {
      ConnectedSymmetric(links, root, u);
    }
    forall u, v | u in part && v in part ensures Connected(links, u, v) {
      ConnectedSymmetric(links, root, u);
      ConnectedTransitive(links, u, root, v);
    }
    forall u, v | u in part && v in done ensures !Connected(links, u, v) && !Connected(links, v, u) {
      ConnectedSymmetric(links, u, v);
    }
    forall c | 1 <= c < next + 1 ensures Used(now', done + part, c) {
      if c == next {
        assert now'[root] == c;
      } else {
        assert Used(now, done, c);
        var v :| v in done && v in now && now[v] == c;
        assert now'[v] == c;
      }
    }
  }

  lemma ProgressDone(links: seq<Link>, before: Parts, now: Parts, done: set<NodeId>, next: int)
    requires Progress(links, before, now, done, next)
    requires Unlabelled(now) == {}
    ensures done == VisitedNodes(links, before)
    ensures Relabelled(links, before, now, next - 1)
  {
    assert forall v :: v in now && v !in Unlabelled(now) ==> now[v] != 0;
    forall v | v in before && Visited(links, before, v) ensures v in done {
      var z :| z in before && before[z] == 0 && Connected(links, z, v);
      assert z in done;
    }
    assert done == VisitedNodes(links, before);
  }

  /** On a table with no label yet, a run leaves exact labels 1..k, each of them used. */
  lemma FreshRunIsExact(links: seq<Link>, before: Parts, after: Parts, k: nat)
    requires Relabelled(links, before, after, k)
    requires forall v :: v in before ==> before[v] == 0
    ensures Exact(links, after)
    ensures forall c :: Used(after, after.Keys, c) <==> 1 <= c <= k
    ensures VisitedNodes(links, before) == Unlabelled(before) == before.Keys
  {
    assert VisitedNodes(links, before) == before.Keys by {
      forall v | v in before ensures Visited(links, before, v) {
        ConnectedReflexive(links, v);
      }
    }
  }

  // ---- how many labels a run hands out ----

  /** One node for each of the components of `among`. */
  ghost predicate Represent(links: seq<Link>, reps: set<NodeId>, among: set<NodeId>) {
    && reps <= among
    && (forall r, q :: r in reps && q in reps && r != q ==> !Connected(links, r, q))
    && (forall v :: v in among ==> exists r :: r in reps && Connected(links, r, v))
  }

  lemma {:induction false} RepresentativesExist(links: seq<Link>, among: set<NodeId>)
    ensures exists reps :: Represent(links, reps, among)
    decreases |among|
  {
    if among == {} {
      assert Represent(links, {}, {});
    } else {
      var x :| x in among;
      var rest := among - {x};
      assert rest + {x} == among;
      RepresentativesExist(links, rest);
      var reps :| Represent(links, reps, rest);
      AddNode(links, reps, rest, x);
    }
  }

  lemma AddNode(links: seq<Link>, reps: set<NodeId>, among: set<NodeId>, x: NodeId)
    requires Represent(links, reps, among) && x !in among
    ensures exists more :: Represent(links, more, among + {x})
  {
    var all := among + {x};
    if exists r :: r in reps && Connected(links, r, x) {
      assert Represent(links, reps, all);
    } else {
      var more := reps + {x};
      ConnectedReflexive(links, x);
      forall r, q | r in more && q in more && r != q ensures !Connected(links, r, q) {
        ConnectedSymmetric(links, r, q);
      }
      forall v | v in all ensures exists r :: r in more && Connected(links, r, v) {
        if v in among {
          var r :| r in reps && Connected(links, r, v);
          assert r in more;
        } else {
          assert x in more;
        }
      }
      assert Represent(links, more, all);
    }
  }

  /** The labels 1..k are matched one to one with the nodes of `reps`. */
  lemma {:induction false} CountByLabels(reps: set<NodeId>, labels: Parts, k: nat)
    requires reps <= labels.Keys
    requires forall r :: r in reps ==> 1 <= labels[r] <= k
    requires forall r, q :: r in reps && q in reps && labels[r] == labels[q] ==> r == q
    requires forall c :: 1 <= c <= k ==> Used(labels, reps, c)
    ensures |reps| == k
    decreases k
  {
    if k == 0 {
      assert reps == {};
    } else {
      assert Used(labels, reps, k);
      var last :| last in reps && labels[last] == k;
      var rest := reps - {last};
      forall c | 1 <= c <= k - 1 ensures Used(labels, rest, c) {
        assert Used(labels, reps, c);
        var v :| v in reps && v in labels && labels[v] == c;
        assert v in rest;
      }
      CountByLabels(rest, labels, k - 1);
    }
  }

  /** The components that hold an unlabelled node. */
  ghost function FreshComponents(links: seq<Link>, before: Parts): nat {
    RepresentativesExist(links, VisitedNodes(links, before));
    var reps :| Represent(links, reps, VisitedNodes(links, before));
    |reps|
  }

  /** However the run goes, it hands out one label for each component that holds an
      unlabelled node. */
  lemma LabelsHandedOut(links: seq<Link>, before: Parts, after: Parts, k: nat, reps: set<NodeId>)
    requires Relabelled(links, before, after, k) && Represent(links, reps, VisitedNodes(links, before))
    ensures k == |reps|
  {
    forall c | 1 <= c <= k ensures Used(after, reps, c) {
      assert Used(after, VisitedNodes(links, before), c);
      var v :| v in VisitedNodes(links, before) && after[v] == c;
      var r :| r in reps && Connected(links, r, v);
      assert r in VisitedNodes(links, before) && after[r] == after[v];
    }
    CountByLabels(reps, after, k);
  }

  /** The labels a run would keep fit with those it will hand out: a condition on the tables
      as the run finds them. */
  ghost predicate KeptLabelsFit(links: seq<Link>, before: Parts) {
    && (forall v :: v in before && !Visited(links, before, v) ==> !(1 <= before[v] <= FreshComponents(links, before)))
    && (forall u, v :: u in before && v in before && !Visited(links, before, u) && !Visited(links, before, v) ==>
          (before[u] == before[v] <==> Connected(links, u, v)))
  }

  lemma VisitedSpreads(links: seq<Link>, before: Parts, u: NodeId, v: NodeId)
    requires Visited(links, before, u) && Connected(links, u, v)
    ensures Visited(links, before, v)
  {
    var z :| z in before && before[z] == 0 && Connected(links, z, u);
    ConnectedTransitive(links, z, u, v);
  }

  /** A run on a partly labelled table restarts at label 1, so it leaves exact labels
      exactly when the labels it keeps were exact among themselves and none is in 1..k, where
      k is the number of components holding an unlabelled node. */
  lemma RerunExactIff(links: seq<Link>, before: Parts, after: Parts, k: nat)
    requires Relabelled(links, before, after, k)
    ensures k == FreshComponents(links, before)
    ensures Exact(links, after) <==> KeptLabelsFit(links, before)
  {
    RepresentativesExist(links, VisitedNodes(links, before));
    forall reps | Represent(links, reps, VisitedNodes(links, before)) ensures |reps| == k {
      LabelsHandedOut(links, before, after, k, reps);
    }
    if KeptLabelsFit(links, before) {
      FitMeansExact(links, before, after, k);
    }
    ExactMeansFit(links, before, after, k);
  }

  lemma FitMeansExact(links: seq<Link>, before: Parts, after: Parts, k: nat)
    requires Relabelled(links, before, after, k) && k == FreshComponents(links, before)
    requires KeptLabelsFit(links, before)
    ensures Exact(links, after)
  {
    forall u, v | u in after && v in after ensures after[u] == after[v] <==> Connected(links, u, v) {
      ConnectedSymmetric(links, u, v);
      if Visited(links, before, u) && Connected(links, u, v) {
        VisitedSpreads(links, before, u, v);
      }
      if Visited(links, before, v) && Connected(links, u, v) {
        VisitedSpreads(links, before, v, u);
      }
    }
  }

  /** A label that is kept and handed out again ends up on two components. */
  lemma LabelTwice(links: seq<Link>, before: Parts, after: Parts, k: nat, v: NodeId)
    requires Relabelled(links, before, after, k)
    requires v in before && !Visited(links, before, v) && 1 <= before[v] <= k
    ensures !Exact(links, after)
  {
    assert Used(after, VisitedNodes(links, before), before[v]);
    var u :| u in VisitedNodes(links, before) && after[u] == before[v];
    if Connected(links, u, v) {
      VisitedSpreads(links, before, u, v);
    }
    assert !Connected(links, u, v);
  }

  lemma ExactMeansFit(links: seq<Link>, before: Parts, after: Parts, k: nat)
    requires Relabelled(links, before, after, k) && k == FreshComponents(links, before)
    ensures Exact(links, after) ==> KeptLabelsFit(links, before)
  {
    forall v | v in before && !Visited(links, before, v) && 1 <= before[v] <= k ensures !Exact(links, after) {
      LabelTwice(links, before, after, k, v);
    }
  }

  /** Adding one node to a labelled graph and running again gives two unconnected
      nodes the same label. */
  lemma RerunCollides(after: Parts, k: nat)
    requires Relabelled([], map[NodeId(7) := 1, NodeId(8) := 0], after, k)
    ensures after[NodeId(7)] == after[NodeId(8)] && !Connected([], NodeId(7), NodeId(8))
  {
    var before: Parts := map[NodeId(7) := 1, NodeId(8) := 0];
    ConnectedReflexive([], NodeId(8));
    assert Visited([], before, NodeId(8));
    forall a, w, b | Joins([], a, w, b) ensures a == b {
      assert w == Origin;
    }
    assert NodeId(8) in before && 1 <= after[NodeId(8)] <= k;
    assert Used(after, VisitedNodes([], before), 1);
    var c :| c in VisitedNodes([], before) && after[c] == 1;
    assert c == NodeId(8);
  }

  /** The node and link tables, as `separate_nodes` sees them. */
  class GraphTables {
    var parts: Parts
    var links: seq<Link>

    constructor (parts: Parts, links: seq<Link>)
      ensures this.parts == parts && this.links == links
    {
      this.parts, this.links := parts, links;
    }

    /** `todo` and `done` are the counts the progress messages report. */
    method SeparateNodes() returns (k: nat, todo: nat, done: nat)
      requires EndsStored(links, parts.Keys)
      modifies this`parts
      ensures Relabelled(links, old(parts), parts, k)
      ensures todo == |Unlabelled(old(parts))|
      ensures done == |VisitedNodes(links, old(parts))|
      ensures (forall v :: v in old(parts) ==> old(parts)[v] == 0) ==> Exact(links, parts) && done == todo
    {
      todo, done := |Unlabelled(parts)|, 0;
      var curGraphPart := 1;
      ghost var before, labelled := parts, {};
      while Unlabelled(parts) != {}
        invariant Progress(links, before, parts, labelled, curGraphPart)
        invariant done == |labelled|
        decreases Unlabelled(parts)
      {
        var root :| root in Unlabelled(parts);
        var part := FloodFill(links, root, parts.Keys);
        ghost var now := parts;
        parts := SetPart(parts, part, curGraphPart);
        RoundKeepsProgress(links, before, now, labelled, curGraphPart, root, part);
        curGraphPart, done := curGraphPart + 1, done + |part|;
        labelled := labelled + part;
      }
      k := curGraphPart - 1;
      ProgressDone(links, before, parts, labelled, curGraphPart);
      if forall v :: v in before ==> before[v] == 0 {
        FreshRunIsExact(links, before, parts, k);
      }
    }
  }
}
