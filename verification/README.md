# Verified model of trainsplorer's core

This project models, in Dafny, the parts of trainsplorer that hold its hardest logic, and proves
properties of the model over every input, every run and every interleaving. `dafny verify
dfyconfig.toml` checks all of it.

| files | what they model |
|---|---|
| `RailGraph`, `SettleOrder`, `Labelling`, `Router`, `RouteCache`, `ScheduleRouting`, `StationLinks` | the railway graph of `osms-db`: labelling of components, the route search with its early exit, the path table, routing of a whole schedule, adding a station |
| `ScheduleTimes`, `ScheduleImport`, `LegacyCreate` | import of schedule records: lifting of times past midnight, Create and Delete, the older patch-in-place import |
| `Authority`, `AuthorityJoin` | the three ways to find which schedule counts on a day |
| `LiveTrains`, `LiveInvariants`, `LiveRuns`, `LiveUpdates`, `LiveDb` | live trains of `tspl-zugfuhrer`: activations and movement updates as exclusive transactions |
| `Deduplication` | from join rows to one movement each, through `tspl-zugfuhrer` and `tspl-verknupfen` |
| `Broadcast` | the live broadcaster, its subscribers and the callers that commit and then send |
| `Migrations` | schema migrations and their restarts |
| `Options`, `Seqs` | an option type; selections from tables kept as sequences |

How the model is built:

* A table is a sequence of rows in rowid order, or a map where only look-ups matter. A transaction is
  one atomic step, and a failed one changes nothing. Because the transactions of `tspl-zugfuhrer` take
  an exclusive lock, every interleaving of its callers is a sequence of transactions.
* Code that updates tables or local variables in place is a method of a class, or a method with a
  loop, proved against a function or a predicate; the theorems are about those. Failed assertions and
  unwraps are outcomes, and a contract says exactly when they happen.
* Graph distances are non-negative reals. The binary heap is a multiset from which the greatest state
  of the source's ordering is taken.

What the proofs found, beyond the intended behaviour:

* `navigate` stops when the goal is first seen, so its path can be longer than the shortest one.
  `Router.ShortestIff` says on exactly which graphs the path returned is shortest, the heap's rule
  for ties and the order of the link rows included; `Router.NearlyShortest` by how much it can
  miss; and `Router.NotAlwaysShortest` shows a graph where it does.
* `separate_nodes` restarts at label 1, so a second run on a graph with new nodes can give unconnected
  nodes one label (`Labelling.RerunCollides`; `Labelling.RerunExactIff` says exactly when it does
  not). Its last message also reports one part more than there are; the code is followed, the
  message is not part of the model.
* `process_railway_location` marks a link's first end even when it then passes the link over, so
  that link can block a third one which touches no link that was tied to the station.
  `StationLinks.BlockedIff` and `StationLinks.GreedyIff` say exactly when.
* The two authority scans order an absent STP indicator differently (`Authority.ScansAgreeIff` says
  exactly when they agree), and the self-join lets schedules of another source supersede
  (`AuthorityJoin.JoinMixesSources`, and exactly when: `AuthorityJoin.JoinAgreesWithScan`). Where
  schedules of two sources carry the same indicator, the join keeps the one its rows bring first
  (`AuthorityJoin.EntryIffFirst`).
* A repeated Create that changes only platforms or public times is not stored:
  `ScheduleImport.StoredInFullIff`.
* A caller of `activate_train_darwin` whose second statement fails leaves an activation that no
  connected subscriber hears of, and a train activated for tomorrow is unknown, after midnight, to a
  subscriber that connected after the message was sent: `Broadcast.FailedCallerLosesActivation`,
  `Broadcast.MidnightLosesTomorrow`. A second, successful call makes up for a failed one;
  `Broadcast.UnknownIff` says exactly when a train stays unknown.
* The older Create fails on the unique index over positions when a stored position is in the way
  of one it fills in: `LegacyCreate.MovementTable.PatchInPlace`, `LegacyCreate.PatchedInOrderIff`.
* A migration list that is not strictly increasing silently loses migrations:
  `Migrations.NewDatabaseGetsAllIff`.

## Model

| member | source | states |
|---|---|---|
| Labelling.ExpandRoot | osms-db/src/osm/org.rs:33-40 | after a root is expanded every link at it leads into the part, the part grew only by nodes connected to the start, and the new roots are exactly the added nodes |
| Labelling.FloodFill | osms-db/src/osm/org.rs:24-41 | the search terminates with exactly the nodes that a chain of links joins to the start |
| Labelling.RoundKeepsProgress | osms-db/src/osm/org.rs:18-47 | labelling one more component keeps the labelled part a union of whole components with exact labels, is disjoint from it, and leaves strictly fewer unlabelled nodes |
| Labelling.ProgressDone | osms-db/src/osm/org.rs:19-21 | when no unlabelled node is left, what was touched is exactly every node that shares a component with a node unlabelled at the start |
| Labelling.GraphTables.SeparateNodes | osms-db/src/osm/org.rs:8-57 | one run, whatever labels it finds; on a fresh table labels agree with connectedness and the touched total equals the initial count |
| Labelling.FreshRunIsExact | osms-db-setup/src/make.rs:672-720 | starting with every label 0, two nodes share a label iff a chain of links joins them, and the labels used are exactly 1..k |
| Labelling.LabelsHandedOut | osms-db/src/osm/org.rs:14-47 | however the run goes, the number of labels it hands out is the number of components that hold an unlabelled node |
| Labelling.RerunExactIff | osms-db/src/osm/org.rs:14-21 | on a partly labelled table the labels end up exact iff, in the table as found, the labels that are kept are exact among themselves and none is in 1..k for the k components that hold an unlabelled node |
| Labelling.RerunCollides | osms-db/src/osm/org.rs:14 | a concrete table on which a second run gives two unconnected nodes the same label |
| Router.Pop | osms-db/src/osm/navigate.rs:13-30 | the state taken is a least-cost one, ties going to the greater id, and only it is removed |
| Router.RimBound | osms-db/src/osm/navigate.rs:74-113 | every walk that leaves the settled nodes costs at least as much as the cheapest known unsettled node |
| Router.SettleKeeps | osms-db/src/osm/navigate.rs:74-78 | popping a current heap entry settles a node for the first time, at its final distance, which bounds every walk to any node still open |
| Router.TopIsNext | osms-db/src/osm/navigate.rs:19-24 | the state popped is the next node of the settling order: no walk enters another open node that is shorter, or as short with a greater id |
| Router.ExhaustedMeansUnreachable | osms-db/src/osm/navigate.rs:74 | if the heap empties without the goal, no walk leads to the goal |
| Router.RelaxLink | osms-db/src/osm/navigate.rs:83-108 | a link is relaxed, parents stay settled nodes even with zero-length links, settled nodes do not change, and the goal is found iff it was inserted |
| Router.FirstFound | osms-db/src/osm/navigate.rs:82-104 | the row by which the goal is found is the first one at the node that leads to it |
| Router.ExpandNode | osms-db/src/osm/navigate.rs:82-108 | all links of the settled node are relaxed unless the goal is found first, from this node and by its first row that leads there |
| Router.SettleNode | osms-db/src/osm/navigate.rs:74-108 | one round keeps the search invariant, or finds the goal from a nearest neighbour, and settles the next node of the settling order |
| Router.TakeState | osms-db/src/osm/navigate.rs:74-113 | a stale entry is dropped, a current one settles its node after those settled before; what is found is the walk the search returns |
| SettleOrder.FinderUnique | osms-db/src/osm/navigate.rs:74-108 | the graph alone decides which neighbour of the goal is settled first |
| SettleOrder.FinderIsGreatest | osms-db/src/osm/navigate.rs:19-24 | where every link has a positive length, that is the nearest neighbour of the goal with the greatest id |
| Router.Search | osms-db/src/osm/navigate.rs:53-113 | the search terminates, never pops the goal, and finds it iff it is connected to the start, by a walk from the first neighbour settled over the first row there that leads to the goal |
| Router.DiscoveryStopsFromNearest | osms-db/src/osm/navigate.rs:98-104 | on first discovery no walk to any neighbour of the goal is shorter than the one to its parent |
| Router.TracesJoins | osms-db/src/osm/navigate.rs:114-136 | a stored node list and geometry form a walk from the last node to the first, each segment beginning where the one before it ends |
| Router.TraceBack | osms-db/src/osm/navigate.rs:118-130 | one step back puts a segment, turned to end at the child, in front of a valid path |
| Router.Backtrack | osms-db/src/osm/navigate.rs:114-134 | following parents terminates with a real walk from start to goal over existing links, one node more than segments, as long as the recorded distance |
| Router.Navigate | osms-db/src/osm/navigate.rs:41-143 | which error is returned and when, that it panics iff the two nodes are equal or unconnected, and that a returned path serves the pair and is the walk the search returns |
| Router.EarlyErrorNames | osms-db/src/osm/navigate.rs:42-69 | which error is returned before the search and exactly when, and which station it names |
| Router.LabelsMakeRoutingTotal | osms-db/src/osm/navigate.rs:63-116 | on labels computed from scratch for these links the label check lets a pair pass iff its nodes are connected, so the search always succeeds for distinct nodes |
| Router.NearlyShortest | osms-db/src/osm/navigate.rs:98-113 | the path is at most its last link longer than any other, and it is a shortest path up to its last node but one |
| Router.ShortestIff | osms-db/src/osm/navigate.rs:98-113 | the path returned is shortest iff, on the graph, no link into the goal is shorter than the one the first neighbour settled leads by, by more than its own far end is farther away |
| Router.ReturnsFromGreatest | osms-db/src/osm/navigate.rs:19-24 | with positive lengths the path comes from the nearest neighbour of the goal with the greatest id |
| Router.ShortestIffByIds | osms-db/src/osm/navigate.rs:98-113 | with positive lengths the condition is one on distances, ids and the order of that neighbour's rows |
| Router.ShortestWhenGoalLinksEqual | osms-db/src/osm/navigate.rs:98-113 | the path is shortest whenever the goal's links are equally long |
| Router.NotAlwaysShortest | osms-db/src/osm/navigate.rs:102-104 | a graph on which every path the search can return is at least 11 long although one of length 3 exists |
| RouteCache.CacheStepKeepsSound | osms-db/src/osm/navigate.rs:31-40 | adding rows or memoising one path keeps one path per pair, distinct ids, and every stored path a walk between its stations' nodes |
| RouteCache.CacheRunSound | osms-db/src/osm/navigate.rs:31-40 | over any run of such steps the table stays sound, and a path handed out earlier is still stored and still joins its stations |
| RouteCache.RoutableStable | osms-db/src/osm/navigate.rs:32-39 | memoising routable pairs does not change which pairs are routable |
| RouteCache.RailwayDb.InsertNode | osms-db/src/osm/types.rs:46-56 | a new node is unlabelled and no stored path is disturbed |
| RouteCache.RailwayDb.InsertLink | osms-db/src/osm/types.rs:133-140 | a second link with the same ends is dropped, others are added, and stored paths stay valid |
| RouteCache.RailwayDb.InsertStation | osms-db/src/osm/types.rs:99-113 | a new station leaves every stored path valid |
| RouteCache.RailwayDb.NavigateCached | osms-db/src/osm/navigate.rs:31-40 | it returns a stored id iff the pair is stored or routable, stores at most the one new path, and fails or panics exactly when the search behind it does |
| ScheduleRouting.Target | osms-db/src/osm/mod.rs:105-176 | a start leads to one movement at most, a later one, and this is it |
| ScheduleRouting.TargetIff | osms-db/src/osm/mod.rs:105-176 | a movement is the target of a start iff the start departs or passes and it is the first later arrival or pass, at another station, that can be routed to, with fewer than three arrivals before it that could not |
| ScheduleRouting.TryRoute | osms-db/src/osm/mod.rs:147-152 | an attempt succeeds iff the pair was routable when the schedule was begun, and panics iff its labels mislead |
| ScheduleRouting.RouteFrom | osms-db/src/osm/mod.rs:131-176 | the bounded scan ends with the declared target, or panics exactly when an attempt it reaches panics |
| ScheduleRouting.TooManySkipped | osms-db/src/osm/mod.rs:158-167 | giving up after the third failed arrival loses no target |
| ScheduleRouting.ReadyNeverCrashes | osms-db/src/osm/mod.rs:87-184 | with labels computed for the current links and a node for each station no attempt panics |
| ScheduleRouting.StartsAdvance | osms-db/src/osm/mod.rs:150 | after one more start, starts_path holds the path of every start that led somewhere and is otherwise as it was |
| ScheduleRouting.EndsAdvance | osms-db/src/osm/mod.rs:151 | after one more start, ends_path of a movement holds the path of the latest start that led to it and is otherwise as it was |
| ScheduleRouting.MovementPaths.ProcessStart | osms-db/src/osm/mod.rs:119-176 | one start is tried once and its outcome recorded at both ends |
| ScheduleRouting.MovementPaths.GeoProcessSchedule | osms-db/src/osm/mod.rs:92-184 | the two-pointer scan terminates, tries every departure or pass once in increasing order, and both columns end up as declared; it stops early exactly at the first start from which an attempt panics |
| StationLinks.ChosenDisjoint | osms-db/src/osm/mod.rs:46-53 | no two links tied to the station share a node, so no inserted link repeats another |
| StationLinks.PassedOverSharesEnd | osms-db/src/osm/mod.rs:48-53 | a link is passed over only if it is a loop or shares a node with an earlier crossed link |
| StationLinks.MarkedAre | osms-db/src/osm/mod.rs:46-53 | the marked nodes are the ends of the links tied to the station and, apart from them, the first ends of links passed over for their second |
| StationLinks.BlockedIff | osms-db/src/osm/mod.rs:48-53 | a link that is no loop and touches no link tied before it is passed over iff it touches such a stray end |
| StationLinks.GreedyIff | osms-db/src/osm/mod.rs:46-53 | the links tied to the station are the greedy choice iff no greedily chosen link touches the first end of an earlier link which the greedy choice passes over for its second end only |
| StationLinks.BlockedByPassedOver | osms-db/src/osm/mod.rs:51-53 | three links on which the choice is not the greedy one |
| StationLinks.ConnectStation | osms-db/src/osm/mod.rs:29-75 | exactly two links are inserted for each chosen link, from its first end to the station and from there to its second |
| StationLinks.SpokesAt | osms-db/src/osm/mod.rs:63-74 | the k-th chosen link gives two rows, each as long as the distance from the station to the end it joins |
| StationLinks.StationMergesComponents | osms-db/src/osm/mod.rs:63-74 | two other nodes are connected afterwards iff they were before or both were connected to chosen links, and the station joins exactly those |
| ScheduleTimes.OffsetCountsDescents | tspl-fahrplan-updater/src/import.rs:14-19 | until the byte overflows the day offset counts how often the clock went back; at the 256th it is 0 again |
| ScheduleTimes.LiftInOrderIff | tspl-fahrplan-updater/src/import.rs:88-154 | day offset and time never go back iff midnight is crossed at most 255 times |
| ScheduleTimes.LiftIsLeast | tspl-fahrplan-updater/src/import.rs:14-19 | no other offsets that put the same times in order place any movement on an earlier day |
| ScheduleTimes.AddStop | tspl-fahrplan-updater/src/import.rs:98-107 | one midnight check and push extends the lift by one movement |
| ScheduleTimes.AddLocation | tspl-fahrplan-updater/src/import.rs:94-153 | a location record adds its one movement, or its arrival and departure, to the lift |
| ScheduleTimes.StopsAre | tspl-fahrplan-updater/src/import.rs:94-153 | which time, public time, platform and action each movement of a location record has |
| ScheduleTimes.FlattenAt | tspl-fahrplan-updater/src/import.rs:93-154 | the movements of the k-th location follow those of the locations before it |
| ScheduleTimes.ConvertLocations | tspl-fahrplan-updater/src/import.rs:88-154 | the conversion loop computes the lift of the flattened record |
| ScheduleTimes.Insert | tspl-fahrplan/src/types.rs:226-237 | insertion keeps the order and the multiset |
| ScheduleTimes.Sort | tspl-fahrplan-updater/src/import.rs:156-167 | sorting yields an ordered permutation and leaves an ordered list alone |
| ScheduleTimes.SortOrders | tspl-fahrplan/src/types.rs:226-237 | of two sorted movements the earlier has the smaller day offset, then time, then action |
| ScheduleTimes.AscendingUnique | tspl-fahrplan/src/types.rs:226-237 | there is one way only to put a multiset of (day offset, time) pairs in order |
| ScheduleTimes.RepairKeepsTimes | tspl-fahrplan-updater/src/import.rs:156-167 | any sort of a list whose times are in order leaves the sequence of (day offset, time) as it was, whatever it does with ties |
| ScheduleImport.ApplyKeepsOk | tspl-fahrplan-updater/src/import.rs:25-195 | every record keeps one schedule per (uid, start date, STP indicator, source) and leaves no orphan movements |
| ScheduleImport.KeysSeparate | tspl-fahrplan-updater/src/import.rs:61-66 | two records mean the same schedule iff uid, start date and STP indicator are all equal |
| ScheduleImport.ApplyRefinesMap | tspl-fahrplan-updater/src/import.rs:25-195 | a Create leaves its own key with as many stored movements as the record asks for, each with the tiploc, action, time and day offset asked for; a Delete leaves it without a schedule; no other key's movements or id change |
| ScheduleImport.CoresIff | tspl-fahrplan/src/types.rs:217-223 | two movement lists compare equal iff they are as long and agree everywhere in tiploc, action, time and day offset |
| ScheduleImport.TsplIdNamesVersion | tspl-fahrplan-updater/src/import.rs:176-186 | after a Create the trainsplorer id is the new one unless the stored movements already had the tiplocs, actions, times and day offsets asked for |
| ScheduleImport.UnchangedIff | tspl-fahrplan-updater/src/import.rs:168-187 | a Create changes neither table iff the key already holds the tiplocs, actions, times and day offsets asked for |
| ScheduleImport.RepeatIsNoOp | tspl-fahrplan-updater/src/import.rs:168-187 | importing the same Create again changes nothing in either table |
| ScheduleImport.StoredInFullIff | tspl-fahrplan-updater/src/import.rs:177-186 | after a Create the stored movements are the record's in every field iff some tiploc, action, time or day offset differed before, or nothing differed at all |
| ScheduleImport.LastWriterWins | tspl-fahrplan-updater/src/import.rs:25-195 | after any records from an empty store each key holds, position by position, the tiplocs, actions, times and day offsets of its latest Create since its last Delete, or no schedule; the tables are consistent |
| ScheduleImport.ScheduleStore.ApplyScheduleRecord | tspl-fahrplan-updater/src/import.rs:25-195 | the statements for one record have the specified effect on both tables, and the key of a Create then holds the movements asked for, field by field, that of a Delete no schedule |
| ScheduleImport.ScheduleStore.InsertMovements | tspl-fahrplan-updater/src/import.rs:188-191 | the movements are appended in order under their schedule |
| ScheduleImport.ScheduleStore.ApplyScheduleRecords | tspl-fahrplan-updater/src/import.rs:198-254 | a file is imported as the run of its records iff no line stops it; the first line that does decides the error and nothing is changed |
| ScheduleImport.ImportedIff | tspl-fahrplan-updater/src/import.rs:198-254 | no line stops a file iff each can be read where it stands |
| LegacyCreate.NumberedReadsBack | osms-db-setup/src/make.rs:284 | rows that carry their positions are read back in their positions, whatever order they are stored in |
| LegacyCreate.MovementTable.PatchMovement | osms-db-setup/src/make.rs:293-310 | the three column updates of one matching movement; the position is refused iff another movement of the schedule holds it |
| LegacyCreate.MovementTable.CompareMovement | osms-db-setup/src/make.rs:292-316 | one movement is patched, found not to match, or refused, and each exactly when |
| LegacyCreate.MovementTable.PatchInPlace | osms-db-setup/src/make.rs:292-317 | it is refused iff the movements match up to one whose position another is stored with, and else succeeds iff every movement matches, then leaving exactly the patched list; other schedules' rows are untouched even when it stops half way |
| LegacyCreate.MovementTable.CreateMovements | osms-db-setup/src/make.rs:281-341 | it fails iff a position is refused and then changes nothing; otherwise the schedule's rows end up patched or replaced as a whole, on every branch, and positions stay unique |
| LegacyCreate.MovementTable.InsertMovements | osms-db-setup/src/make.rs:330-340 | new numbered rows without paths are appended for the whole record |
| LegacyCreate.PatchEqualsReplace | osms-db-setup/src/make.rs:262-341 | with stored positions absent or right, both branches leave the record's list in every field; if all matched, ids and paths survive |
| LegacyCreate.AllMatchIff | osms-db-setup/src/make.rs:286-293 | the lists match iff they are as long and agree everywhere in tiploc, time and action |
| LegacyCreate.PlatformsArePatched | osms-db-setup/src/make.rs:293-310 | a record that differs in platforms and public times only is patched in, and the stored list then equals it |
| LegacyCreate.PatchedInOrderIff | osms-db/migrations/11_schedule_mvt_order_up.sql:2 | when all movements match, patching succeeds and leaves the rows in order iff every row or none has a position or the last stored position is smaller than the first one filled in |
| Authority.ScanMeans | tspl-fahrplan/src/ctx.rs:36-67 | the scan fails iff some row repeats the least indicator so far and is no cancellation, and otherwise returns the first row with the least indicator |
| Authority.GetAuthSchedule | tspl-fahrplan/src/ctx.rs:36-67 | the loop, with its early error, computes the scan of the rows of that uid, day and source |
| Authority.IsAuthoritative | osms-db/src/ntrod/types.rs:104-135 | the older loop computes the older scan's verdict about a schedule |
| Authority.ScansInStep | osms-db/src/ntrod/types.rs:104-135 | with indicators present the minimum by letter and the maximum by enumeration move together, errors included |
| Authority.ScansAgree | tspl-fahrplan/src/ctx.rs:36-67 | for a schedule that runs on the day one scan fails iff the other does, and otherwise the new one picks it iff the old one calls it authoritative |
| Authority.LegacyFailsIff | osms-db/src/ntrod/types.rs:115-132 | the older scan fails iff the first row lacks an indicator or the rows that have one clash |
| Authority.ScanFailsIff | tspl-fahrplan/src/ctx.rs:44-65 | the newer scan fails iff two rows lack an indicator or a clash comes before the first that does |
| Authority.ScansAgreeIff | tspl-fahrplan/src/ctx.rs:36-67 | the scans agree on every running schedule of a uid iff none lacks an indicator or the rows make both fail |
| Authority.NoIndicatorDisagrees | ntrod-types/src/cif.rs:32-58 | a single row without an indicator on which they differ |
| Authority.DistinctScan | tspl-fahrplan/src/ctx.rs:36-67 | with no indicator repeated the scan succeeds and picks the schedule that supersedes all others |
| Authority.PermutationKeepsChoice | tspl-fahrplan/src/ctx.rs:36-67 | with no indicator repeated the answer is the same for every order of the rows |
| AuthorityJoin.ProcessScheduleJoin | tspl-fahrplan/src/ctx.rs:15-27 | one join row changes only its own uid's entry, to the updating schedule iff that supersedes it |
| AuthorityJoin.UidSchedsToIdScheds | tspl-fahrplan/src/ctx.rs:28-34 | the ids kept are exactly those of the schedules found |
| AuthorityJoin.JoinLeavesUnsuperseded | tspl-fahrplan/src/ctx.rs:144-192 | folding all join rows, in any order, leaves for each uid a running schedule that nothing supersedes |
| AuthorityJoin.KeptIff | tspl-fahrplan/src/ctx.rs:176-192 | with distinct indicators a movement's parent is kept iff it runs on the day and is superseded by none |
| AuthorityJoin.FoldJoin | tspl-fahrplan/src/ctx.rs:175-184 | in any order of the rows, each uid's entry is the first least of the schedules its rows bring |
| AuthorityJoin.MvtsPassingThrough | tspl-fahrplan/src/ctx.rs:140-193 | on all inputs a movement is kept iff its parent is its uid's entry; with distinct indicators iff the parent runs and is superseded by none, and the schedules returned are then exactly the running ones of the uids found that nothing supersedes |
| AuthorityJoin.EntryIffFirst | tspl-fahrplan/src/ctx.rs:15-27 | a schedule that nothing supersedes is its uid's entry iff the rows bring it before every other of its indicator |
| AuthorityJoin.JoinAgreesWithScan | tspl-fahrplan/src/ctx.rs:15-67 | with indicators distinct within its own source, a schedule runs superseded by none iff the scan of its source chooses it and no schedule of another source supersedes it |
| AuthorityJoin.JoinMixesSources | tspl-fahrplan/src/ctx.rs:140-193 | a cancellation of another source hides a schedule that the scan still chooses |
| LiveInvariants.ActivationKeepsConsistent | tspl-zugfuhrer/src/activation.rs:36-94 | activation keeps both tables consistent, new train or not |
| LiveInvariants.DarwinKeepsConsistent | tspl-zugfuhrer/src/ctx.rs:322-371 | an accepted Darwin message keeps every update pointing to an original of the same train, place and day, with one Darwin row each |
| LiveInvariants.TrustKeepsConsistent | tspl-zugfuhrer/src/ctx.rs:372-418 | an accepted TRUST message does the same |
| LiveInvariants.DropKeepsMvts | tspl-zugfuhrer/src/ctx.rs:347-349 | deleting an original's Darwin rows leaves no row without its original |
| LiveInvariants.StepKeepsConsistent | tspl-zugfuhrer/src/ctx.rs:322-477 | every transaction keeps: one train per schedule and date, unique ids, no movements without activation, updates of depth one |
| LiveRuns.RunConsistent | tspl-zugfuhrer/src/ctx.rs:322-477 | consistency holds after every interleaving of transactions |
| LiveRuns.AskedIffUuid | tspl-zugfuhrer/src/activation.rs:42-81 | someone asked for an activation iff the run names a first UUID for it |
| LiveRuns.ActivationByFirstList | tspl-zugfuhrer/src/activation.rs:36-94 | over every run a train exists iff its activation was asked for, keeps the first request's UUID, is activated iff some request brought movements, and its originals are as many as the first such list, each with the tiploc, action, both times, day offset and platform found there |
| LiveRuns.ActivationCopies | tspl-zugfuhrer/src/types.rs:221-238 | activating a train that has no movements copies each given movement with its tiploc, action, times, day offset and platform, neither actual nor suppressed nor of unknown delay |
| LiveRuns.FlagsByEvents | tspl-zugfuhrer/src/ctx.rs:434-453 | over every run a train is terminated iff it was asked to be after its activation, and cancelled iff likewise |
| LiveRuns.StepKeepsTrain | tspl-zugfuhrer/src/ctx.rs:434-477 | every transaction keeps a train's ids and key, never clears activated, keeps an activated train's originals, and changes TRUST and Darwin ids only by assigning them |
| LiveRuns.AssignedToExisting | tspl-zugfuhrer/src/ctx.rs:454-472 | ids are only ever assigned to trains that exist for good |
| LiveRuns.IdsByLastAssignment | tspl-zugfuhrer/src/ctx.rs:454-472 | over every run each train carries the TRUST and the Darwin id last assigned to it, in whichever order they came |
| LiveUpdates.StepKeepsLasting | tspl-zugfuhrer/src/ctx.rs:347-366 | no transaction alters, reorders or removes an original or a TRUST row |
| LiveUpdates.RunKeepsLasting | tspl-zugfuhrer/src/ctx.rs:322-418 | neither does any run |
| LiveUpdates.DarwinByLatestMessage | tspl-zugfuhrer/src/ctx.rs:347-366 | over every run an original that some Darwin message was accepted for has exactly one Darwin row, with the updated time, platform, flags and planned place of the latest such message; else its Darwin rows are those it had |
| LiveUpdates.DarwinAcceptedIff | tspl-zugfuhrer/src/ctx.rs:322-346 | a Darwin message is accepted iff exactly one ITPS original of the named train has its tiploc, action, day offset and planned time |
| LiveUpdates.DarwinStores | tspl-zugfuhrer/src/ctx.rs:347-371 | the row it stores updates that original and has the updated time, platform and flags of the message, its planned action and day, and no public time; of the other rows only the original's Darwin rows go |
| LiveUpdates.TrustAcceptedIff | tspl-zugfuhrer/src/ctx.rs:372-415 | a TRUST message is accepted iff exactly one ITPS original of the named train fits its STANOX, planned time, day and action, or passes there, and TRUST has not reported that action and time for it |
| LiveUpdates.TrustStores | tspl-zugfuhrer/src/ctx.rs:399-418 | the row it stores updates that original, is actual and has the actual time, public time and platform of the message; every other row stays |
| LiveUpdates.DarwinTrustCommute | tspl-zugfuhrer/src/ctx.rs:322-418 | a Darwin and a TRUST message are accepted or refused alike in either order and leave the same tables up to rowids |
| LiveDb.TrainTables.ActivateLowlevel | tspl-zugfuhrer/src/activation.rs:36-94 | the statements have the specified effect and return the stored train |
| LiveDb.TrainTables.CopyMovements | tspl-zugfuhrer/src/activation.rs:83-87 | the movements are appended in order under the train with consecutive ids |
| LiveDb.TrainTables.UpdateTrain | tspl-zugfuhrer/src/ctx.rs:434-463 | the column changes in the row with the UUID and in no other; not found is reported iff no row has it, a violated constraint iff another train carries the id; unique columns stay unique and an error changes nothing |
| LiveDb.TrainTables.ActivateTrainDarwin | tspl-zugfuhrer/src/ctx.rs:464-472 | the two transactions are an activation and then an assignment, refused iff another train carries the id; the activation stays even then, and a train that had no movements has the given ones, field by field |
| LiveDb.TrainTables.ProcessDarwinMvtUpdate | tspl-zugfuhrer/src/ctx.rs:322-371 | it succeeds iff one original of the train has the tiploc, action, day offset and planned time of the message, and returns the row it stored: the updated time, platform and flags of the message, for that original; otherwise the specified error |
| LiveDb.TrainTables.ProcessTrustMvtUpdate | tspl-zugfuhrer/src/ctx.rs:372-418 | likewise, for the original that the STANOX and the planned time, day and action (or a pass) name, and refused by the unique index iff TRUST reported the same action and time for it before |
| Deduplication.GroupRows | tspl-zugfuhrer/src/ctx.rs:193-213 | each group is the original of its first row followed by the updates of its rows, and every train named is listed |
| Deduplication.GroupFaithful | tspl-zugfuhrer/src/ctx.rs:193-213 | on consistent tables, for join rows in any order, a group is one selected original followed by each of its updates exactly once |
| Deduplication.SelectedHasGroup | tspl-zugfuhrer/src/ctx.rs:193-213 | every selected original has its group |
| Deduplication.FoldGroup | tspl-verknupfen/src/ctx.rs:79-149 | when the fold fails and when it panics, and what every field of its result is for any group |
| Deduplication.FoldAnswers | tspl-verknupfen/src/ctx.rs:79-149 | on consistent tables the time is that of the group's last TRUST row if TRUST reported, else Darwin's, else the scheduled one, and the other fields follow from the original's updates |
| Deduplication.ActualPlatformIs | tspl-verknupfen/src/ctx.rs:97-115 | the platform reported is that of TRUST's last row if it names one, else the first that a later Darwin row names, else none |
| Deduplication.GroupFoldable | tspl-verknupfen/src/ctx.rs:82-136 | the empty-list error and the failed unwrap are unreachable |
| Deduplication.Deduplicate | tspl-verknupfen/src/ctx.rs:75-149 | all groups are folded, each once, iff each can be |
| Deduplication.LastTrustInRows | tspl-zugfuhrer/src/ctx.rs:196-213 | the last TRUST movement of a group is the one brought by the last join row to bring one |
| Deduplication.MvtsPassingThrough | tspl-verknupfen/src/ctx.rs:75-149 | both services together answer every selected original exactly once, with the time of the last TRUST update in the order of the join rows if there is one |
| Broadcast.StepKeepsCalls | tspl-zugfuhrer/src/ctx.rs:464-477 | every step keeps: each call that committed a train is about to send, is in the channel, was fanned out or has failed |
| Broadcast.StepKeepsCovers | tspl-zugfuhrer/src/broadcast.rs:83-88 | every step keeps: a running train of the snapshot's day is in the snapshot or was not fanned out before the subscriber registered |
| Broadcast.SnapshotRead | tspl-zugfuhrer/src/broadcast.rs:83-88 | an id is in the snapshot read iff its train is stored, dated today and not terminated at that step |
| Broadcast.TerminatedNeverRead | tspl-zugfuhrer/src/broadcast.rs:83-88 | over every interleaving a train terminated before a snapshot is taken is not in it |
| Broadcast.StepKeeps | tspl-zugfuhrer/src/broadcast.rs:80-103 | every step keeps these, the order of delivery and the list of streams |
| Broadcast.RunKeeps | tspl-zugfuhrer/src/broadcast.rs:139-172 | so does every interleaving |
| Broadcast.StepKeepsOrder | tspl-zugfuhrer/src/broadcast.rs:158-165 | every step keeps: a living subscriber was handed exactly the updates fanned out since it registered, in order |
| Broadcast.UnknownIff | tspl-zugfuhrer/src/broadcast.rs:80-103 | over every interleaving, a living subscriber that has read its snapshot neither knows nor will know a running train of that day iff the snapshot lacks it and every call for it failed before sending; one of another day iff every call that did not fail was fanned out before the subscriber registered |
| Broadcast.NoActivationLost | tspl-zugfuhrer/src/ctx.rs:464-477 | from the start, over every interleaving, a running train of the subscriber's day is known or on its way if one of its calls has not failed, whatever became of the others |
| Broadcast.DrainedMeansKnown | tspl-zugfuhrer/src/broadcast.rs:80-103 | once the channels are drained the subscriber has written a train its snapshot lacks iff one of the train's calls did not fail |
| Broadcast.FailedCallerLosesActivation | tspl-zugfuhrer/src/ctx.rs:466-470 | a run in which a caller fails between commit and send and a subscriber misses the train |
| Broadcast.MidnightLosesTomorrow | tspl-zugfuhrer/src/broadcast.rs:83-88 | a run in which a train activated early for tomorrow is missed after midnight |
| Broadcast.OnlyThoseAreLost | tspl-zugfuhrer/src/broadcast.rs:80-103 | while the broadcaster runs, a train of today is lost on a subscriber iff it is of one of these two kinds |
| Broadcast.RemoveDead | tspl-zugfuhrer/src/broadcast.rs:166-168 | removing positions backwards leaves exactly the surviving streams in their original order |
| Broadcast.DeadLeave | tspl-zugfuhrer/src/broadcast.rs:158-169 | the fan-out after a subscriber dies drops its stream and keeps every living one |
| Broadcast.SendToAll | tspl-zugfuhrer/src/broadcast.rs:160-165 | the message goes to every living stream and the positions of the dead ones are collected |
| Broadcast.SentOnce | tspl-zugfuhrer/src/broadcast.rs:160-165 | each living handler gets the message once, every other queue stays |
| Broadcast.LiveBroadcaster.Register | tspl-zugfuhrer/src/broadcast.rs:142-151 | it keeps every stream listed once with a channel, and takes the broadcaster from any state of the protocol to the one its register step leads to |
| Broadcast.LiveBroadcaster.FanOutMessage | tspl-zugfuhrer/src/broadcast.rs:158-169 | each living handler gets the message once and exactly the dead streams disappear; it takes the broadcaster from any state of the protocol to the one its fan-out step leads to |
| Broadcast.StepKeepsListed | tspl-zugfuhrer/src/broadcast.rs:142-169 | every step keeps each stream a handler's, listed once |
| Broadcast.FanOutMessageIsStep | tspl-zugfuhrer/src/broadcast.rs:158-169 | what the method promises of its fields is the protocol's fan-out step |
| Migrations.LastMigration | tspl-sqlite/src/migrations.rs:66-71 | the greatest id applied, or the default of an empty table |
| Migrations.Database.Up | tspl-sqlite/src/migrations.rs:37-54 | a migration is refused iff an entry is not older, else applied and recorded once; foreign keys stay off after a refusal |
| Migrations.Database.ApplyPending | tspl-sqlite/src/migrations.rs:85-95 | the loop applies the pending migrations once and in order, or as many as the process lives for, and none is found out of order |
| Migrations.Database.RunPendingMigrations | tspl-sqlite/src/migrations.rs:80-96 | too-new is reported iff the newest applied id exceeds the last known; out-of-order never is; otherwise the database ends as the run effect says, which the restart theorem is about |
| Migrations.PendingFromPrefix | tspl-sqlite/src/migrations.rs:80-96 | from any prefix of an increasing list exactly the rest is pending |
| Migrations.Restartable | tspl-sqlite/src/migrations.rs:80-96 | however many runs are cut short between transactions, one full run then gives the schema of an uninterrupted one |
| Migrations.NewDatabaseGetsAllIff | tspl-sqlite/src/migrations.rs:80-96 | a new database gets the whole list iff the list is strictly increasing and starts above the default |

## Left out

- Floating point: `f32` distances are non-negative reals, so rounding, NaN and the haversine formula are not modelled.
- Geometry: a link's row stands for its line, and turning a segment round compares node identity where the database compares points.
- `process_railway_location`: the polygon, its centroid, the defect column and the location row are left out; the crossed links and the distances from the new node are parameters.
- `geo_process_schedule`: the look-up of a movement's railway location is given with each movement.
- Concurrent calls of `navigate_cached` for the same pair, where the insert turns into an update, are not modelled.
- Database, network and parsing errors, connection pools, and a failing migration script.
- `ScheduleTimes.Sort`: ties keep their order, where `sort_unstable` and the ordered query promise nothing about them; `ScheduleTimes.RepairKeepsTimes` holds for any sort.
- Day offsets wrap around as an unchecked byte does; a build with overflow checks stops instead.
- Schedule header fields of a repeated Create, which the import leaves as they were, and lines that do not parse, which it keeps in its buffer.
- UUIDs are inputs, taken not to repeat; the id columns `headcode` and `crosses_midnight` are not modelled.
- `get_connecting_mvts` in both services, and the schedule half of the deduplicating service (tspl-verknupfen/src/ctx.rs:151-175).
- The end of the broadcaster's own thread, and message kinds other than activations.
- `update_day_offset` of tspl-nrod, weekday tables, configuration, error types, back-off and logging.
