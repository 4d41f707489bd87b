/** The memoised router (`navigate_cached`) over growing railway tables. */
module RouteCache {
  import opened Options
  import opened RailGraph
  import opened Labelling
  import opened Router

  /** The tables the router reads, and the `station_paths` table it fills. */
  datatype Tables = Tables(parts: Parts, links: seq<Link>, stations: Stations, paths: seq<StationPath>, nextPath: int)

  ghost predicate StoredPair(paths: seq<StationPath>, from: StationId, to: StationId) {
    exists p :: p in paths && p.s1 == from && p.s2 == to
  }

  /** UNIQUE(s1, s2), serial ids, and every stored path a walk between its stations' nodes. */
  ghost predicate CacheSound(t: Tables) {
    && (forall i, j :: 0 <= i < j < |t.paths| ==> (t.paths[i].s1, t.paths[i].s2) != (t.paths[j].s1, t.paths[j].s2))
    && (forall i, j :: 0 <= i < j < |t.paths| ==> t.paths[i].id != t.paths[j].id)
    && (forall p :: p in t.paths ==> p.id.number < t.nextPath && ServesPair(t.stations, t.links, p))
  }

  ghost predicate TablesOk(t: Tables) {
    EndsStored(t.links, t.parts.Keys) && CacheSound(t)
  }

  /** The pair is stored already, or the search can route it. */
  ghost predicate Routable(t: Tables, from: StationId, to: StationId) {
    || StoredPair(t.paths, from, to)
    || (EarlyError(t.stations, t.parts, from, to).None? && t.stations[from] != t.stations[to]
        && Connected(t.links, t.stations[from], t.stations[to]))
  }

  /** The checks pass but the search fails: the two stations stand on one node, or their
      parts carry one label without being connected. */
  ghost predicate Panics(t: Tables, from: StationId, to: StationId) {
    EarlyError(t.stations, t.parts, from, to).None? && !Routable(t, from, to)
  }

  /** Labels computed on the current links, and a node of its own for every station. */
  ghost predicate ReadyToRoute(t: Tables) {
    && Exact(t.links, t.parts)
    && forall a, b :: a in t.stations && b in t.stations && a != b ==> t.stations[a] != t.stations[b]
  }

  lemma ReadyNeverPanics(t: Tables, from: StationId, to: StationId)
    requires ReadyToRoute(t) && from != to
    ensures !Panics(t, from, to)
    ensures Routable(t, from, to) <==> StoredPair(t.paths, from, to) || EarlyError(t.stations, t.parts, from, to).None?
  {
  }

  /** Rows are only added; the cache grows at its end. */
  ghost predicate Grows(t: Tables, u: Tables) {
    && t.parts.Keys <= u.parts.Keys
    && (forall l :: l in t.links ==> l in u.links)
    && (forall s :: s in t.stations ==> s in u.stations && u.stations[s] == t.stations[s])
    && t.paths <= u.paths && t.nextPath <= u.nextPath
  }

  /** One operation on the tables, as far as the cache is concerned. */
  ghost predicate CacheStep(t: Tables, u: Tables) {
    && Grows(t, u)
    && (u.paths == t.paths
        || (exists p :: u.paths == t.paths + [p] && p.id.number == t.nextPath < u.nextPath
                        && !StoredPair(t.paths, p.s1, p.s2) && ServesPair(u.stations, u.links, p)))
  }

  lemma ServesPairMonotone(t: Tables, u: Tables, p: StationPath)
    requires Grows(t, u) && ServesPair(t.stations, t.links, p)
    ensures ServesPair(u.stations, u.links, p)
  {
  }

  lemma CacheStepKeepsSound(t: Tables, u: Tables)
    requires CacheSound(t) && CacheStep(t, u)
    ensures CacheSound(u)
  {
    forall p | p in t.paths ensures ServesPair(u.stations, u.links, p) {
      ServesPairMonotone(t, u, p);
    }
    if u.paths != t.paths {
      var p :| u.paths == t.paths + [p] && p.id.number == t.nextPath < u.nextPath
               && !StoredPair(t.paths, p.s1, p.s2) && ServesPair(u.stations, u.links, p);
      forall q | q in t.paths ensures (q.s1, q.s2) != (p.s1, p.s2) && q.id != p.id {
      }
    }
  }

  /** Over any run of such operations the cache stays sound, and a path handed out at
      any point is still stored, unchanged, at every later one. */
  lemma {:induction false} CacheRunSound(run: seq<Tables>, i: nat, k: nat)
    requires i <= k < |run| && CacheSound(run[i])
    requires forall n :: 0 <= n < |run| - 1 ==> CacheStep(run[n], run[n + 1])
    ensures CacheSound(run[k]) && run[i].paths <= run[k].paths
    ensures forall p :: p in run[i].paths ==>
              p in run[k].paths && Joins(run[k].links, run[k].stations[p.s1], WalkOf(p.way), run[k].stations[p.s2])
    decreases k - i
  {
    if i < k {
      CacheRunSound(run, i, k - 1);
      var t, u := run[k - 1], run[k - 1 + 1];
      assert CacheStep(t, u);
      CacheStepKeepsSound(t, u);
    }
    forall p | p in run[i].paths
      ensures p in run[k].paths
      ensures Joins(run[k].links, run[k].stations[p.s1], WalkOf(p.way), run[k].stations[p.s2])
    {
      assert p in run[k].paths;
      TracesJoins(run[k].links, p.nodes, p.way);
    }
  }

  /** Storing a routable pair does not change what is routable. */
  lemma RoutableStable(t: Tables, u: Tables, from: StationId, to: StationId)
    requires u.parts == t.parts && u.links == t.links && u.stations == t.stations
    requires t.paths <= u.paths
    requires forall p :: p in u.paths && p !in t.paths ==> Routable(t, p.s1, p.s2)
    ensures Routable(u, from, to) <==> Routable(t, from, to)
  {
    if StoredPair(t.paths, from, to) {
      var p :| p in t.paths && p.s1 == from && p.s2 == to;
      assert p in u.paths;
    }
  }

  function FindPath(paths: seq<StationPath>, from: StationId, to: StationId): (r: Option<StationPath>)
    ensures r.Some? ==> r.value in paths && r.value.s1 == from && r.value.s2 == to
    ensures r.None? <==> !StoredPair(paths, from, to)
  {
    if paths == [] then None
    else if paths[0].s1 == from && paths[0].s2 == to then Some(paths[0])
    else FindPath(paths[1..], from, to)
  }

  lemma {:induction false} FindAppended(paths: seq<StationPath>, row: StationPath, from: StationId, to: StationId)
    requires FindPath(paths, from, to).None? && row.s1 == from && row.s2 == to
    ensures FindPath(paths + [row], from, to) == Some(row)
    decreases |paths|
  {
    if paths == [] {
      assert paths + [row] == [row];
    } else {
      assert (paths + [row])[1..] == paths[1..] + [row];
      FindAppended(paths[1..], row, from, to);
    }
  }

  datatype CacheOutcome = Stored(id: PathId) | NotRouted(error: NavError) | Crashed

  class RailwayDb {
    var parts: Parts
    var links: seq<Link>
    var stations: Stations
    var paths: seq<StationPath>
    var nextPath: int

    constructor ()
      ensures Contents() == Tables(map[], [], map[], [], 1) && TablesOk(Contents())
    {
      parts, links, stations, paths, nextPath := map[], [], map[], [], 1;
    }

    ghost function Contents(): Tables
      reads this
    {
      Tables(parts, links, stations, paths, nextPath)
    }

    /** `INSERT INTO nodes`: a new node is not labelled. */
    method InsertNode(id: NodeId)
      requires TablesOk(Contents()) && id !in parts
      modifies this`parts
      ensures parts == old(parts)[id := 0]
      ensures TablesOk(Contents()) && CacheStep(old(Contents()), Contents())
    {
      parts := parts[id := 0];
    }

    /** `Link::insert`: a second link with the same ends is dropped. */
    method InsertLink(link: Link)
      requires TablesOk(Contents()) && link.p1 in parts && link.p2 in parts
      modifies this`links
      ensures links == if exists l :: l in old(links) && l.p1 == link.p1 && l.p2 == link.p2
                       then old(links) else old(links) + [link]
      ensures TablesOk(Contents()) && CacheStep(old(Contents()), Contents())
    {
      if !exists l :: l in links && l.p1 == link.p1 && l.p2 == link.p2 {
        links := links + [link];
      }
      CacheStepKeepsSound(old(Contents()), Contents());
    }

    /** `RailwayLocation::insert_self`. */
    method InsertStation(id: StationId, point: NodeId)
      requires TablesOk(Contents()) && id !in stations && point in parts
      modifies this`stations
      ensures stations == old(stations)[id := point]
      ensures TablesOk(Contents()) && CacheStep(old(Contents()), Contents())
    {
      stations := stations[id := point];
      CacheStepKeepsSound(old(Contents()), Contents());
    }

    /** `StationPath::insert_self` for a pair not stored yet. */
    method StorePath(path: StationPath) returns (row: StationPath)
      requires TablesOk(Contents())
      requires !StoredPair(paths, path.s1, path.s2) && ServesPair(stations, links, path)
      modifies this`paths, this`nextPath
      ensures TablesOk(Contents()) && CacheStep(old(Contents()), Contents())
      ensures row == path.(id := PathId(old(nextPath))) && paths == old(paths) + [row]
    {
      row := path.(id := PathId(nextPath));
      paths, nextPath := paths + [row], nextPath + 1;
      CacheStepKeepsSound(old(Contents()), Contents());
    }

    method NavigateCached(from: StationId, to: StationId) returns (r: CacheOutcome)
      requires TablesOk(Contents())
      modifies this`paths, this`nextPath
      ensures TablesOk(Contents()) && CacheStep(old(Contents()), Contents())
      ensures r.Stored? <==> Routable(old(Contents()), from, to)
      ensures r.Stored? ==> FindPath(paths, from, to).Some? && r.id == FindPath(paths, from, to).value.id
      ensures r.Stored? && !StoredPair(old(paths), from, to) ==>
                |paths| == |old(paths)| + 1 && paths[|old(paths)|].s1 == from && paths[|old(paths)|].s2 == to
                && Returns(links, stations[from], stations[to], WalkOf(paths[|old(paths)|].way))
      ensures !r.Stored? || StoredPair(old(paths), from, to) ==> paths == old(paths)
      ensures r.NotRouted? ==> EarlyError(stations, parts, from, to) == Some(r.error)
      ensures r.Crashed? <==> Panics(old(Contents()), from, to)
    {
      var known := FindPath(paths, from, to);
      if known.Some? {
        return Stored(known.value.id);
      }
      var route := Navigate(stations, parts, links, from, to);
      match route
      case Failed(error) => r := NotRouted(error);
      case Panicked => r := Crashed;
      case Routed(path) =>
        ghost var before := paths;
        var row := StorePath(path);
        FindAppended(before, row, from, to);
        r := Stored(row.id);
    }
  }
}
