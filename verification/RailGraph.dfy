/** The railway graph: nodes joined by undirected links of non-negative length,
    and the walks through it. */
module RailGraph {
  datatype NodeId = NodeId(number: int)

  type Metres = d: real | 0.0 <= d

  /** One row of the `links` table. The row also stands for the geometry (`way`)
      it stores, which runs from p1 to p2. */
  datatype Link = Link(p1: NodeId, p2: NodeId, distance: Metres)

  predicate Touches(link: Link, n: NodeId) {
    link.p1 == n || link.p2 == n
  }

  /** The end reached by following `link` from `n`. */
  function OtherEnd(link: Link, n: NodeId): NodeId {
    if link.p1 == n then link.p2 else link.p1
  }

  /** The rows selected by `p1 = n OR p2 = n`, in table order. */
  function LinksAt(links: seq<Link>, n: NodeId): (found: seq<Link>)
    ensures forall l :: l in found <==> l in links && Touches(l, n)
  {
    if links == [] then []
    else (if Touches(links[0], n) then [links[0]] else []) + LinksAt(links[1..], n)
  }

  /** A walk, named by the links it follows from its first node on. */
  datatype Walk = Origin | Step(before: Walk, via: Link)

  /** `w` leads from `a` to `b` along existing links. */
  ghost predicate Joins(links: seq<Link>, a: NodeId, w: Walk, b: NodeId) {
    match w
    case Origin => a == b
    case Step(before, via) =>
      via in links && Touches(via, b) && Joins(links, a, before, OtherEnd(via, b))
  }

  ghost function Length(w: Walk): real {
    match w
    case Origin => 0.0
    case Step(before, via) => Length(before) + via.distance
  }

  ghost predicate Connected(links: seq<Link>, a: NodeId, b: NodeId) {
    exists w :: Joins(links, a, w, b)
  }

  /** `d` is a lower bound on every walk from `a` to `b`. */
  ghost predicate AtLeast(links: seq<Link>, a: NodeId, b: NodeId, d: real) {
    forall w :: Joins(links, a, w, b) ==> d <= Length(w)
  }

  ghost function Concat(v: Walk, w: Walk): Walk {
    match w
    case Origin => v
    case Step(before, via) => Step(Concat(v, before), via)
  }

  lemma {:induction false} ConcatJoins(links: seq<Link>, a: NodeId, v: Walk, b: NodeId, w: Walk, c: NodeId)
    requires Joins(links, a, v, b) && Joins(links, b, w, c)
    ensures Joins(links, a, Concat(v, w), c)
    ensures Length(Concat(v, w)) == Length(v) + Length(w)
  {
    match w
    case Origin =>
    case Step(before, via) => ConcatJoins(links, a, v, b, before, OtherEnd(via, c));
  }

  lemma ConnectedTransitive(links: seq<Link>, a: NodeId, b: NodeId, c: NodeId)
    requires Connected(links, a, b) && Connected(links, b, c)
    ensures Connected(links, a, c)
  {
    var v :| Joins(links, a, v, b);
    var w :| Joins(links, b, w, c);
    ConcatJoins(links, a, v, b, w, c);
  }

  lemma ConnectedByLink(links: seq<Link>, link: Link, a: NodeId)
    requires link in links && Touches(link, a)
    ensures Connected(links, a, OtherEnd(link, a))
    ensures Connected(links, OtherEnd(link, a), a)
  {
    assert Joins(links, a, Step(Origin, link), OtherEnd(link, a));
    assert Joins(links, OtherEnd(link, a), Step(Origin, link), a);
  }

  lemma {:induction false} WalkBack(links: seq<Link>, a: NodeId, w: Walk, b: NodeId)
    requires Joins(links, a, w, b)
    ensures Connected(links, b, a)
    decreases w
  {
    match w
    case Origin =>
      assert Joins(links, b, Origin, a);
    case Step(before, via) =>
      var c := OtherEnd(via, b);
      WalkBack(links, a, before, c);
      ConnectedByLink(links, via, b);
      ConnectedTransitive(links, b, c, a);
  }

  lemma ConnectedSymmetric(links: seq<Link>, a: NodeId, b: NodeId)
    ensures Connected(links, a, b) <==> Connected(links, b, a)
  {
    if Connected(links, a, b) {
      var w :| Joins(links, a, w, b);
      WalkBack(links, a, w, b);
    }
    if Connected(links, b, a) {
      var w :| Joins(links, b, w, a);
      WalkBack(links, b, w, a);
    }
  }

  lemma ConnectedReflexive(links: seq<Link>, a: NodeId)
    ensures Connected(links, a, a)
  {
    assert Joins(links, a, Origin, a);
  }

  /** No link leads out of `part`. */
  ghost predicate Closed(links: seq<Link>, part: set<NodeId>) {
    forall n, l :: n in part && l in links && Touches(l, n) ==> OtherEnd(l, n) in part
  }

  lemma {:induction false} ClosedKeepsWalks(links: seq<Link>, part: set<NodeId>, a: NodeId, w: Walk, b: NodeId)
    requires Closed(links, part) && a in part && Joins(links, a, w, b)
    ensures b in part
    decreases w
  {
    match w
    case Origin =>
    case Step(before, via) =>
      var c := OtherEnd(via, b);
      ClosedKeepsWalks(links, part, a, before, c);
      assert Touches(via, c) && OtherEnd(via, c) == b;
  }

  /** Adding links keeps every walk. */
  lemma {:induction false} JoinsMonotone(links: seq<Link>, more: seq<Link>, a: NodeId, w: Walk, b: NodeId)
    requires Joins(links, a, w, b)
    requires forall l :: l in links ==> l in more
    ensures Joins(more, a, w, b)
    decreases w
  {
    match w
    case Origin =>
    case Step(before, via) => JoinsMonotone(links, more, a, before, OtherEnd(via, b));
  }
}
