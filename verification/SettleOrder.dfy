/** The order in which Dijkstra's algorithm settles nodes, ties going to the greater id,
    defined on the graph alone. */
module SettleOrder {
  import opened Options
  import opened RailGraph

  /** `v` leads to `m` and arrives straight from a node of `closed`, or is at the start. */
  ghost predicate Enters(links: seq<Link>, start: NodeId, closed: set<NodeId>, v: Walk, m: NodeId) {
    Joins(links, start, v, m) && (v.Step? ==> OtherEnd(v.via, m) in closed)
  }

  /** `n` lies outside `closed`, and some walk enters it that is shorter than every walk
      entering another node outside, or as short where the other has the smaller id. */
  ghost predicate IsNext(links: seq<Link>, start: NodeId, closed: set<NodeId>, n: NodeId) {
    n !in closed && exists u :: Enters(links, start, closed, u, n) && EntersFirst(links, start, closed, u, n)
  }

  ghost predicate EntersFirst(links: seq<Link>, start: NodeId, closed: set<NodeId>, u: Walk, n: NodeId) {
    forall m, v :: m !in closed && Enters(links, start, closed, v, m) ==>
      Length(u) < Length(v) || (Length(u) == Length(v) && m.number <= n.number)
  }

  lemma NextUnique(links: seq<Link>, start: NodeId, closed: set<NodeId>, n: NodeId, m: NodeId)
    requires IsNext(links, start, closed, n) && IsNext(links, start, closed, m)
    ensures n == m
  {
    var u :| Enters(links, start, closed, u, n) && EntersFirst(links, start, closed, u, n);
    var v :| Enters(links, start, closed, v, m) && EntersFirst(links, start, closed, v, m);
    assert n.number <= m.number && m.number <= n.number;
  }

  function Elements(order: seq<NodeId>): set<NodeId> {
    set n | n in order
  }

  ghost predicate Settles(links: seq<Link>, start: NodeId, order: seq<NodeId>) {
    forall i :: 0 <= i < |order| ==> IsNext(links, start, Elements(order[..i]), order[i])
  }

  lemma SettlesNext(links: seq<Link>, start: NodeId, order: seq<NodeId>, n: NodeId)
    requires Settles(links, start, order) && IsNext(links, start, Elements(order), n)
    ensures Settles(links, start, order + [n]) && Elements(order + [n]) == Elements(order) + {n}
  {
    var more := order + [n];
    forall i | 0 <= i < |more| ensures IsNext(links, start, Elements(more[..i]), more[i]) {
      assert more[..i] == order[..i];
      assert i == |order| ==> order[..i] == order;
    }
  }

  lemma SettlesAt(links: seq<Link>, start: NodeId, order: seq<NodeId>, i: nat, closed: set<NodeId>)
    requires Settles(links, start, order) && i < |order| && closed == Elements(order[..i])
    ensures IsNext(links, start, closed, order[i])
  {
  }

  lemma SettlesAlike(links: seq<Link>, start: NodeId, a: seq<NodeId>, b: seq<NodeId>, i: nat)
    requires Settles(links, start, a) && Settles(links, start, b)
    requires i < |a| && i < |b| && a[..i] == b[..i]
    ensures a[i] == b[i]
  {
    var closed := Elements(a[..i]);
    assert closed == Elements(b[..i]);
    SettlesAt(links, start, a, i, closed);
    SettlesAt(links, start, b, i, closed);
    NextUnique(links, start, closed, a[i], b[i]);
  }

  lemma LastOfPrefix(a: seq<NodeId>, b: seq<NodeId>, n: nat)
    requires 0 < n <= |a| && n <= |b| && a[..n - 1] == b[..n - 1] && a[n - 1] == b[n - 1]
    ensures a[..n] == b[..n]
  {
    assert a[..n] == a[..n - 1] + [a[n - 1]] && b[..n] == b[..n - 1] + [b[n - 1]];
  }

  lemma {:induction false} SettlesUnique(links: seq<Link>, start: NodeId, a: seq<NodeId>, b: seq<NodeId>, n: nat)
    requires Settles(links, start, a) && Settles(links, start, b) && n <= |a| && n <= |b|
    ensures a[..n] == b[..n]
    decreases n
  {
    if n > 0 {
      SettlesUnique(links, start, a, b, n - 1);
      SettlesAlike(links, start, a, b, n - 1);
      LastOfPrefix(a, b, n);
    }
  }

  /** A link joins the node to the goal. */
  ghost predicate NearGoal(links: seq<Link>, goal: NodeId, n: NodeId) {
    exists l :: l in links && Touches(l, n) && OtherEnd(l, n) == goal
  }

  /** `x` is the first node settled that has a link to the goal, after those of `order`. */
  ghost predicate Finds(links: seq<Link>, start: NodeId, goal: NodeId, order: seq<NodeId>, x: NodeId) {
    && Settles(links, start, order + [x]) && NearGoal(links, goal, x)
    && forall n :: n in order ==> !NearGoal(links, goal, n)
  }

  /** The graph decides which node that is. */
  lemma FinderUnique(links: seq<Link>, start: NodeId, goal: NodeId,
                     a: seq<NodeId>, x: NodeId, b: seq<NodeId>, y: NodeId)
    requires Finds(links, start, goal, a, x) && Finds(links, start, goal, b, y)
    ensures x == y
  {
    var n := if |a| <= |b| then |a| + 1 else |b| + 1;
    SettlesUnique(links, start, a + [x], b + [y], n);
    assert (a + [x])[..n][n - 1] == (b + [y])[..n][n - 1];
  }

  /** The first of the rows at `x` that leads to the goal. */
  function FirstLeading(rows: seq<Link>, x: NodeId, goal: NodeId): (r: Option<Link>)
    ensures r.Some? ==> r.value in rows && OtherEnd(r.value, x) == goal
    ensures r.None? <==> forall l :: l in rows ==> OtherEnd(l, x) != goal
  {
    if rows == [] then None
    else if OtherEnd(rows[0], x) == goal then Some(rows[0])
    else FirstLeading(rows[1..], x, goal)
  }

  lemma {:induction false} FirstLeadingAt(rows: seq<Link>, x: NodeId, goal: NodeId, i: nat)
    requires i < |rows| && OtherEnd(rows[i], x) == goal
    requires forall k :: 0 <= k < i ==> OtherEnd(rows[k], x) != goal
    ensures FirstLeading(rows, x, goal) == Some(rows[i])
    decreases i
  {
    if i > 0 {
      FirstLeadingAt(rows[1..], x, goal, i - 1);
    }
  }

  // ---- with positive lengths ----

  /** A walk out of `closed` enters some node outside no later than it ends. */
  lemma {:induction false} EntersOnTheWay(links: seq<Link>, start: NodeId, closed: set<NodeId>, w: Walk, x: NodeId)
    returns (v: Walk, m: NodeId)
    requires Joins(links, start, w, x) && x !in closed
    ensures m !in closed && Enters(links, start, closed, v, m) && Length(v) <= Length(w)
    ensures (v, m) == (w, x) || (w.Step? && Length(v) <= Length(w.before))
    decreases w
  {
    if w.Step? && OtherEnd(w.via, x) !in closed {
      v, m := EntersOnTheWay(links, start, closed, w.before, OtherEnd(w.via, x));
    } else {
      v, m := w, x;
    }
  }

  /** `u` leads to `x`, and no walk to any neighbour of the goal is shorter. */
  ghost predicate Nearest(links: seq<Link>, start: NodeId, goal: NodeId, u: Walk, x: NodeId) {
    && Joins(links, start, u, x)
    && forall l :: l in links && Touches(l, goal) ==> AtLeast(links, start, OtherEnd(l, goal), Length(u))
  }

  /** A nearest neighbour of the goal, and the one with the greatest id. */
  ghost predicate Greatest(links: seq<Link>, start: NodeId, goal: NodeId, u: Walk, x: NodeId) {
    && NearGoal(links, goal, x) && Nearest(links, start, goal, u, x)
    && forall y, v :: NearGoal(links, goal, y) && Nearest(links, start, goal, v, y) ==> y.number <= x.number
  }

  /** Where every link has a positive length, the node that finds the goal, if nearest, is the
      nearest neighbour with the greatest id. */
  lemma FinderIsGreatest(links: seq<Link>, start: NodeId, goal: NodeId, order: seq<NodeId>, u: Walk, x: NodeId)
    requires forall l :: l in links ==> l.distance > 0.0
    requires Finds(links, start, goal, order, x) && Nearest(links, start, goal, u, x)
    ensures Greatest(links, start, goal, u, x)
  {
    forall y, v | NearGoal(links, goal, y) && Nearest(links, start, goal, v, y) ensures y.number <= x.number {
      NotPassedOver(links, start, goal, order, u, x, v, y);
    }
  }

  lemma NearGoalTouches(links: seq<Link>, goal: NodeId, n: NodeId) returns (l: Link)
    requires NearGoal(links, goal, n)
    ensures l in links && Touches(l, goal) && OtherEnd(l, goal) == n
  {
    l :| l in links && Touches(l, n) && OtherEnd(l, n) == goal;
  }

  lemma NotPassedOver(links: seq<Link>, start: NodeId, goal: NodeId, order: seq<NodeId>,
                      u: Walk, x: NodeId, v: Walk, y: NodeId)
    requires forall l :: l in links ==> l.distance > 0.0
    requires Finds(links, start, goal, order, x) && Nearest(links, start, goal, u, x)
    requires NearGoal(links, goal, y) && Nearest(links, start, goal, v, y)
    ensures y.number <= x.number
  {
    var closed := Elements(order);
    assert (order + [x])[..|order|] == order && (order + [x])[|order|] == x;
    var e :| Enters(links, start, closed, e, x) && EntersFirst(links, start, closed, e, x);
    var l := NearGoalTouches(links, goal, x);
    var k := NearGoalTouches(links, goal, y);
    assert Length(u) <= Length(e) && Length(v) <= Length(e);
    var w, m := EntersOnTheWay(links, start, closed, v, y);
    assert (w, m) != (v, y) ==> Length(w) < Length(v);
  }
}
