/** Adding a station to the graph (`process_railway_location`): which of the links crossed by
    its area are tied to the new node, and what that does to connectedness. */
module StationLinks {
  import opened RailGraph

  predicate IsLoop(link: Link) { link.p1 == link.p2 }

  /** The `connected` set after a link: its second end is inserted only when the first was
      new, and neither insertion is undone when the link is passed over. */
  function Mark(link: Link, marked: set<NodeId>): set<NodeId> {
    if IsLoop(link) || link.p1 in marked then marked else marked + {link.p1, link.p2}
  }

  function MarkAll(links: seq<Link>): set<NodeId> {
    if links == [] then {} else Mark(links[|links| - 1], MarkAll(links[..|links| - 1]))
  }

  /** The links tied to the station: those with neither end marked so far. */
  function Chosen(links: seq<Link>): seq<Link> {
    if links == [] then []
    else
      var last, marked := links[|links| - 1], MarkAll(links[..|links| - 1]);
      Chosen(links[..|links| - 1]) +
      if !IsLoop(last) && last.p1 !in marked && last.p2 !in marked then [last] else []
  }

  predicate ShareEnd(l: Link, m: Link) {
    Touches(m, l.p1) || Touches(m, l.p2)
  }

  lemma {:induction false} MarkedEnds(links: seq<Link>, n: NodeId)
    requires n in MarkAll(links)
    ensures exists i :: 0 <= i < |links| && Touches(links[i], n)
    decreases |links|
  {
    var front := links[..|links| - 1];
    if n in MarkAll(front) {
      MarkedEnds(front, n);
      var i :| 0 <= i < |front| && Touches(front[i], n);
      assert Touches(links[i], n);
    } else {
      assert Touches(links[|links| - 1], n);
    }
  }

  lemma {:induction false} ChosenAreMarked(links: seq<Link>)
    ensures forall l :: l in Chosen(links) ==>
            l in links && !IsLoop(l) && l.p1 in MarkAll(links) && l.p2 in MarkAll(links)
    decreases |links|
  {
    if links != [] {
      ChosenAreMarked(links[..|links| - 1]);
    }
  }

  /** No two chosen links share a node, so no inserted link repeats the ends of another. */
  lemma {:induction false} ChosenDisjoint(links: seq<Link>)
    ensures forall i, j :: 0 <= i < j < |Chosen(links)| ==> !ShareEnd(Chosen(links)[i], Chosen(links)[j])
    decreases |links|
  {
    if links != [] {
      var front := links[..|links| - 1];
      ChosenDisjoint(front);
      ChosenAreMarked(front);
      forall i, j | 0 <= i < j < |Chosen(links)| ensures !ShareEnd(Chosen(links)[i], Chosen(links)[j]) {
        assert i < |Chosen(front)| && Chosen(links)[i] == Chosen(front)[i];
        assert Chosen(front)[i] in Chosen(front);
      }
    }
  }

  /** A link that is passed over shares a node with an earlier one, or is a loop. */
  lemma PassedOverSharesEnd(links: seq<Link>, k: nat)
    requires k < |links| && Chosen(links[..k + 1]) == Chosen(links[..k])
    ensures IsLoop(links[k]) || exists i :: 0 <= i < k && ShareEnd(links[i], links[k])
  {
    assert links[..k + 1][..k] == links[..k];
    if !IsLoop(links[k]) {
      var n := if links[k].p1 in MarkAll(links[..k]) then links[k].p1 else links[k].p2;
      MarkedEnds(links[..k], n);
      var i :| 0 <= i < k && Touches(links[..k][i], n);
      assert ShareEnd(links[i], links[k]);
    }
  }

  // ---- what the marking blocks ----

  /** The nodes some of the links touch. */
  function EndsOf(links: seq<Link>): (r: set<NodeId>)
    ensures forall l :: l in links ==> l.p1 in r && l.p2 in r
  {
    if links == [] then {} else EndsOf(links[..|links| - 1]) + {links[|links| - 1].p1, links[|links| - 1].p2}
  }

  /** The first ends marked by links that were then passed over for their second. */
  function Stray(links: seq<Link>): set<NodeId> {
    if links == [] then {}
    else
      var last, marked := links[|links| - 1], MarkAll(links[..|links| - 1]);
      Stray(links[..|links| - 1]) + if !IsLoop(last) && last.p1 !in marked && last.p2 in marked then {last.p1} else {}
  }

  lemma EndsStep(links: seq<Link>, last: Link)
    ensures EndsOf(links + [last]) == EndsOf(links) + {last.p1, last.p2}
  {
    assert (links + [last])[..|links|] == links;
  }

  /** Marked are the ends of the chosen links and the stray ends, and no node is both. */
  lemma {:induction false} MarkedAre(links: seq<Link>)
    ensures MarkAll(links) == EndsOf(Chosen(links)) + Stray(links)
    ensures EndsOf(Chosen(links)) !! Stray(links)
    decreases |links|
  {
    if links != [] {
      var front, last := links[..|links| - 1], links[|links| - 1];
      MarkedAre(front);
      var marked := MarkAll(front);
      if IsLoop(last) || last.p1 in marked {
        assert MarkAll(links) == marked && Chosen(links) == Chosen(front) && Stray(links) == Stray(front);
      } else if last.p2 in marked {
        assert MarkAll(links) == marked + {last.p1} && Chosen(links) == Chosen(front);
        assert Stray(links) == Stray(front) + {last.p1};
      } else {
        EndsStep(Chosen(front), last);
        assert MarkAll(links) == marked + {last.p1, last.p2} && Chosen(links) == Chosen(front) + [last];
        assert Stray(links) == Stray(front);
      }
    }
  }

  /** Link k is passed over although it is no loop and touches no link chosen before it. */
  predicate Blocked(links: seq<Link>, k: nat)
    requires k < |links|
  {
    && Chosen(links[..k + 1]) == Chosen(links[..k])
    && !IsLoop(links[k]) && links[k].p1 !in EndsOf(Chosen(links[..k])) && links[k].p2 !in EndsOf(Chosen(links[..k]))
  }

  /** That happens exactly to the links that touch a stray end and no chosen link. */
  lemma BlockedIff(links: seq<Link>, k: nat)
    requires k < |links|
    ensures Blocked(links, k) <==>
            && !IsLoop(links[k]) && links[k].p1 !in EndsOf(Chosen(links[..k]))
            && links[k].p2 !in EndsOf(Chosen(links[..k]))
            && (links[k].p1 in Stray(links[..k]) || links[k].p2 in Stray(links[..k]))
  {
    MarkedAre(links[..k]);
    assert links[..k + 1][..k] == links[..k];
  }

  // ---- the greedy choice ----

  /** The choice the marking aims at: every link that is no loop and touches no link chosen
      before it. */
  function Greedy(links: seq<Link>): seq<Link> {
    if links == [] then []
    else
      var front := Greedy(links[..|links| - 1]);
      if Fits(front, links[|links| - 1]) then front + [links[|links| - 1]] else front
  }

  predicate Fits(chosen: seq<Link>, link: Link) {
    !IsLoop(link) && link.p1 !in EndsOf(chosen) && link.p2 !in EndsOf(chosen)
  }

  /** The greedy choice passes over the link for its second end only. */
  predicate SecondEndTaken(chosen: seq<Link>, link: Link) {
    !IsLoop(link) && link.p1 !in EndsOf(chosen) && link.p2 in EndsOf(chosen)
  }

  /** Link k, which the greedy choice takes, touches the first end of such a link j. */
  predicate Obstructs(links: seq<Link>, j: nat, k: nat)
    requires j < k < |links|
  {
    && SecondEndTaken(Greedy(links[..j]), links[j])
    && Fits(Greedy(links[..k]), links[k]) && Touches(links[k], links[j].p1)
  }

  ghost predicate Unobstructed(links: seq<Link>, n: nat)
    requires n <= |links|
  {
    forall j, k :: 0 <= j < k < n ==> !Obstructs(links, j, k)
  }

  /** The first ends of the first n links that the greedy choice passes over for their second. */
  function FirstEnds(links: seq<Link>, n: nat): set<NodeId>
    requires n <= |links|
  {
    if n == 0 then {}
    else
      FirstEnds(links, n - 1) +
      if SecondEndTaken(Greedy(links[..n - 1]), links[n - 1]) then {links[n - 1].p1} else {}
  }

  lemma {:induction false} FirstEndOf(links: seq<Link>, n: nat, x: NodeId)
    requires n <= |links|
    ensures x in FirstEnds(links, n) <==>
            exists j :: 0 <= j < n && SecondEndTaken(Greedy(links[..j]), links[j]) && links[j].p1 == x
    decreases n
  {
    if n > 0 {
      FirstEndOf(links, n - 1, x);
      if j :| 0 <= j < n - 1 && SecondEndTaken(Greedy(links[..j]), links[j]) && links[j].p1 == x {
        assert x in FirstEnds(links, n);
      }
    }
  }

  /** Without obstruction the marked nodes are the ends of the greedy choice and those first ends. */
  ghost predicate InStep(links: seq<Link>, n: nat)
    requires n <= |links|
  {
    && Chosen(links[..n]) == Greedy(links[..n])
    && MarkAll(links[..n]) == EndsOf(Greedy(links[..n])) + FirstEnds(links, n)
  }

  lemma InStepNext(links: seq<Link>, n: nat)
    requires n < |links| && InStep(links, n)
    requires Fits(Greedy(links[..n]), links[n]) ==>
               links[n].p1 !in FirstEnds(links, n) && links[n].p2 !in FirstEnds(links, n)
    ensures InStep(links, n + 1)
  {
    var front, more, last := links[..n], links[..n + 1], links[n];
    assert more[..n] == front && more[n] == last;
    var marked := MarkAll(front);
    if IsLoop(last) || last.p1 in marked {
      assert MarkAll(more) == marked && Chosen(more) == Chosen(front) && Greedy(more) == Greedy(front);
    } else if last.p2 in marked {
      assert MarkAll(more) == marked + {last.p1} && Chosen(more) == Chosen(front) && Greedy(more) == Greedy(front);
    } else {
      EndsStep(Greedy(front), last);
      assert MarkAll(more) == marked + {last.p1, last.p2};
      assert Chosen(more) == Chosen(front) + [last] == Greedy(more);
    }
  }

  lemma {:induction false} UnobstructedInStep(links: seq<Link>, n: nat)
    requires n <= |links| && Unobstructed(links, n)
    ensures InStep(links, n)
    decreases n
  {
    if n > 0 {
      UnobstructedInStep(links, n - 1);
      NoneTouches(links, n - 1);
      InStepNext(links, n - 1);
    }
  }

  lemma NoneTouches(links: seq<Link>, k: nat)
    requires k < |links|
    ensures (exists j :: 0 <= j < k && Obstructs(links, j, k)) <==>
            && Fits(Greedy(links[..k]), links[k])
            && (links[k].p1 in FirstEnds(links, k) || links[k].p2 in FirstEnds(links, k))
  {
    FirstEndOf(links, k, links[k].p1);
    FirstEndOf(links, k, links[k].p2);
    if Fits(Greedy(links[..k]), links[k]) && links[k].p1 in FirstEnds(links, k) {
      var j :| 0 <= j < k && SecondEndTaken(Greedy(links[..j]), links[j]) && links[j].p1 == links[k].p1;
      assert Obstructs(links, j, k);
    }
    if Fits(Greedy(links[..k]), links[k]) && links[k].p2 in FirstEnds(links, k) {
      var j :| 0 <= j < k && SecondEndTaken(Greedy(links[..j]), links[j]) && links[j].p1 == links[k].p2;
      assert Obstructs(links, j, k);
    }
  }

  lemma {:induction false} GreedyKeeps(links: seq<Link>, k: nat, n: nat)
    requires k < n <= |links| && Fits(Greedy(links[..k]), links[k])
    ensures links[k] in Greedy(links[..n])
    decreases n
  {
    assert links[..n][..n - 1] == links[..n - 1];
    if k < n - 1 {
      GreedyKeeps(links, k, n - 1);
    }
  }

  lemma {:induction false} MarkedNeverChosen(links: seq<Link>, k: nat, n: nat)
    requires k < n <= |links|
    requires links[k].p1 in MarkAll(links[..k]) || links[k].p2 in MarkAll(links[..k])
    requires links[k] !in Chosen(links[..k])
    ensures links[k] !in Chosen(links[..n])
    ensures links[k].p1 in MarkAll(links[..n]) || links[k].p2 in MarkAll(links[..n])
    decreases n
  {
    assert links[..n][..n - 1] == links[..n - 1];
    if k < n - 1 {
      MarkedNeverChosen(links, k, n - 1);
    }
  }

  /** The links chosen are the greedy ones exactly when none of these touches the first end
      of a link passed over, before it, for its second end only. */
  lemma GreedyIff(links: seq<Link>)
    ensures Chosen(links) == Greedy(links) <==> Unobstructed(links, |links|)
  {
    assert links[..|links|] == links;
    if Unobstructed(links, |links|) {
      UnobstructedInStep(links, |links|);
    } else {
      var k := FirstObstruction(links, |links|);
      UnobstructedInStep(links, k);
      NoneTouches(links, k);
      GreedyKeeps(links, k, |links|);
      MarkedNeverChosen(links, k, |links|);
    }
  }

  lemma {:induction false} FirstObstruction(links: seq<Link>, n: nat) returns (k: nat)
    requires n <= |links| && !Unobstructed(links, n)
    ensures k < n && Unobstructed(links, k) && exists j :: 0 <= j < k && Obstructs(links, j, k)
    decreases n
  {
    if Unobstructed(links, n - 1) {
      k := n - 1;
    } else {
      k := FirstObstruction(links, n - 1);
    }
  }

  /** An example: the second link is passed over for its second end only, and its first end
      blocks a third link that touches no chosen link at all. */
  lemma BlockedByPassedOver(a: NodeId, b: NodeId, c: NodeId, d: NodeId, x: Metres)
    requires a != b && c != b && c != d && a != c && a != d && b != d
    ensures var links := [Link(a, b, x), Link(c, b, x), Link(c, d, x)];
            Obstructs(links, 1, 2) && Chosen(links) == [links[0]] && Greedy(links) == [links[0], links[2]]
  {
    var links := [Link(a, b, x), Link(c, b, x), Link(c, d, x)];
    var first, second := [links[0]], [links[0], links[1]];
    assert first[..0] == [] && second[..1] == first && links[..2] == second && links[..1] == first;
    assert MarkAll(first) == {a, b} && Chosen(first) == first;
    assert MarkAll(second) == {a, b, c} && Chosen(second) == first + [];
    assert Chosen(links) == Chosen(second) + [];
    EndsStep([], links[0]);
    assert [] + first == first && EndsOf(first) == {a, b};
    assert Greedy(first) == first && Greedy(second) == first;
  }

  /** The two rows inserted for one chosen link; `dist` gives lengths from the new node. */
  function Spokes(link: Link, station: NodeId, dist: NodeId -> Metres): seq<Link> {
    [Link(link.p1, station, dist(link.p1)), Link(station, link.p2, dist(link.p2))]
  }

  function AllSpokes(chosen: seq<Link>, station: NodeId, dist: NodeId -> Metres): seq<Link> {
    if chosen == [] then []
    else AllSpokes(chosen[..|chosen| - 1], station, dist) + Spokes(chosen[|chosen| - 1], station, dist)
  }

  /** Row 2k leads from the k-th link's first end to the station, row 2k + 1 from there to its
      second, each as long as the station is away from that end. */
  lemma {:induction false} SpokesAt(chosen: seq<Link>, station: NodeId, dist: NodeId -> Metres, k: nat)
    requires k < |chosen|
    ensures var rows := AllSpokes(chosen, station, dist);
            && |rows| == 2 * |chosen|
            && rows[2 * k].p1 == chosen[k].p1 && rows[2 * k].p2 == station
            && rows[2 * k].distance == dist(chosen[k].p1)
            && rows[2 * k + 1].p1 == station && rows[2 * k + 1].p2 == chosen[k].p2
            && rows[2 * k + 1].distance == dist(chosen[k].p2)
    decreases |chosen|
  {
    var front := chosen[..|chosen| - 1];
    SpokesCount(front, station, dist);
    if k < |front| {
      SpokesAt(front, station, dist, k);
    }
  }

  lemma {:induction false} SpokesCount(chosen: seq<Link>, station: NodeId, dist: NodeId -> Metres)
    ensures |AllSpokes(chosen, station, dist)| == 2 * |chosen|
    decreases |chosen|
  {
    if chosen != [] {
      SpokesCount(chosen[..|chosen| - 1], station, dist);
    }
  }

  lemma {:induction false} SpokesAre(chosen: seq<Link>, station: NodeId, dist: NodeId -> Metres)
    ensures forall s :: s in AllSpokes(chosen, station, dist) <==>
            exists l :: l in chosen && s in Spokes(l, station, dist)
    decreases |chosen|
  {
    if chosen != [] {
      var front, last := chosen[..|chosen| - 1], chosen[|chosen| - 1];
      SpokesAre(front, station, dist);
      assert chosen == front + [last];
      forall s ensures s in AllSpokes(chosen, station, dist) <==>
          exists l :: l in chosen && s in Spokes(l, station, dist) {
        if s in AllSpokes(front, station, dist) {
          var l :| l in front && s in Spokes(l, station, dist);
          assert l in chosen;
        }
        if s in Spokes(last, station, dist) {
          assert last in chosen;
        }
      }
    }
  }

  /** `process_railway_location`, up to the insertion of the location row. */
  method ConnectStation(lks: seq<Link>, station: NodeId, dist: NodeId -> Metres) returns (inserted: seq<Link>)
    ensures inserted == AllSpokes(Chosen(lks), station, dist)
  {
    inserted := [];
    var connected: set<NodeId> := {};
    for i := 0 to |lks|
      invariant connected == MarkAll(lks[..i])
      invariant inserted == AllSpokes(Chosen(lks[..i]), station, dist)
    {
      var link := lks[i];
      ChosenStep(lks, i, station, dist);
      if link.p1 == link.p2 {
        continue;
      }
      if link.p1 in connected {
        continue;
      }
      connected := connected + {link.p1};
      if link.p2 in connected {
        continue;
      }
      connected := connected + {link.p2};
      inserted := inserted + [Link(link.p1, station, dist(link.p1)), Link(station, link.p2, dist(link.p2))];
    }
    assert lks[..|lks|] == lks;
  }

  lemma ChosenStep(lks: seq<Link>, i: nat, station: NodeId, dist: NodeId -> Metres)
    requires i < |lks|
    ensures MarkAll(lks[..i + 1]) == Mark(lks[i], MarkAll(lks[..i]))
    ensures AllSpokes(Chosen(lks[..i + 1]), station, dist) ==
            if !IsLoop(lks[i]) && lks[i].p1 !in MarkAll(lks[..i]) && lks[i].p2 !in MarkAll(lks[..i])
            then AllSpokes(Chosen(lks[..i]), station, dist) + Spokes(lks[i], station, dist)
            else AllSpokes(Chosen(lks[..i]), station, dist)
  {
    assert lks[..i + 1][..i] == lks[..i];
    var chosen := Chosen(lks[..i]);
    assert (chosen + [lks[i]])[..|chosen|] == chosen;
    assert chosen + [] == chosen;
  }

  // ---- connectedness ----

  /** The node is connected to a chosen link. */
  ghost predicate Reaches(links: seq<Link>, chosen: seq<Link>, v: NodeId) {
    exists l :: l in chosen && Connected(links, v, l.p1)
  }

  lemma ReachesAlong(links: seq<Link>, chosen: seq<Link>, via: Link, v: NodeId)
    requires via in links && Touches(via, v) && Reaches(links, chosen, OtherEnd(via, v))
    ensures Reaches(links, chosen, v)
  {
    var l :| l in chosen && Connected(links, OtherEnd(via, v), l.p1);
    ConnectedByLink(links, via, v);
    ConnectedTransitive(links, v, OtherEnd(via, v), l.p1);
  }

  lemma ReachesFromEnd(links: seq<Link>, chosen: seq<Link>, l: Link, u: NodeId, c: NodeId)
    requires l in chosen && l in links && Touches(l, c) && Connected(links, u, c)
    ensures Reaches(links, chosen, u)
  {
    if c != l.p1 {
      ConnectedByLink(links, l, c);
      ConnectedTransitive(links, u, c, l.p1);
    }
  }

  /** Where a walk through the enlarged graph can lead. */
  lemma {:induction false} WalkInEnlarged(links: seq<Link>, chosen: seq<Link>, station: NodeId, dist: NodeId -> Metres,
                                          u: NodeId, w: Walk, v: NodeId)
    requires forall l :: l in links ==> !Touches(l, station)
    requires forall l :: l in chosen ==> l in links
    requires u != station && Joins(links + AllSpokes(chosen, station, dist), u, w, v)
    ensures if v == station then Reaches(links, chosen, u)
            else Connected(links, u, v) || (Reaches(links, chosen, u) && Reaches(links, chosen, v))
    decreases w
  {
    match w
    case Origin => ConnectedReflexive(links, u);
    case Step(before, via) =>
      var c := OtherEnd(via, v);
      WalkInEnlarged(links, chosen, station, dist, u, before, c);
      if via in links {
        assert Touches(via, c);
        if Connected(links, u, c) {
          ConnectedByLink(links, via, v);
          ConnectedTransitive(links, u, c, v);
        } else {
          ReachesAlong(links, chosen, via, v);
        }
      } else {
        SpokesAre(chosen, station, dist);
        var l :| l in chosen && via in Spokes(l, station, dist);
        assert !Touches(l, station);
        if v == station {
          if Connected(links, u, c) {
            ReachesFromEnd(links, chosen, l, u, c);
          }
        } else {
          ConnectedReflexive(links, v);
          ReachesFromEnd(links, chosen, l, v, v);
        }
      }
  }

  lemma StationReached(links: seq<Link>, chosen: seq<Link>, station: NodeId, dist: NodeId -> Metres, v: NodeId)
    requires Reaches(links, chosen, v)
    ensures Connected(links + AllSpokes(chosen, station, dist), v, station)
  {
    var more := links + AllSpokes(chosen, station, dist);
    var l :| l in chosen && Connected(links, v, l.p1);
    var w :| Joins(links, v, w, l.p1);
    JoinsMonotone(links, more, v, w, l.p1);
    SpokesAre(chosen, station, dist);
    var spoke := Link(l.p1, station, dist(l.p1));
    assert spoke in Spokes(l, station, dist);
    ConnectedByLink(more, spoke, l.p1);
    ConnectedTransitive(more, v, l.p1, station);
  }

  /** Adding a station ties together exactly the components of its chosen links: other nodes
      stay connected or unconnected as they were, and the station joins that component. */
  lemma StationMergesComponents(links: seq<Link>, chosen: seq<Link>, station: NodeId, dist: NodeId -> Metres,
                                u: NodeId, v: NodeId)
    requires forall l :: l in links ==> !Touches(l, station)
    requires forall l :: l in chosen ==> l in links
    requires u != station && v != station
    ensures Connected(links + AllSpokes(chosen, station, dist), u, station) <==> Reaches(links, chosen, u)
    ensures Connected(links + AllSpokes(chosen, station, dist), u, v) <==>
            Connected(links, u, v) || (Reaches(links, chosen, u) && Reaches(links, chosen, v))
  {
    var more := links + AllSpokes(chosen, station, dist);
    if w :| Joins(more, u, w, station) {
      WalkInEnlarged(links, chosen, station, dist, u, w, station);
    }
    if w :| Joins(more, u, w, v) {
      WalkInEnlarged(links, chosen, station, dist, u, w, v);
    }
    if w :| Joins(links, u, w, v) {
      JoinsMonotone(links, more, u, w, v);
    }
    if Reaches(links, chosen, u) {
      StationReached(links, chosen, station, dist, u);
      if Reaches(links, chosen, v) {
        StationReached(links, chosen, station, dist, v);
        ConnectedSymmetric(more, v, station);
        ConnectedTransitive(more, u, station, v);
      }
    }
  }
}
