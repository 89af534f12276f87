# Vintage Story price guide — waypoint planner, trade table, calendar and breadcrumbs in Dafny

This project models the logic of the Vintage Story price guide web app and proves properties about it. The app has four parts:

- **Waypoint route planner.** The user keeps a list of in-game waypoints. The app turns the list into a weighted graph: one node per waypoint, and one edge per pair whose rounded distance is neither NaN nor Infinity, unless an earlier pair already produced the same edge id. Teleport-linked pairs are at distance 0. A route search over the graph returns a node path. The app turns that path into path steps and shows them in a table with a total and a bird's-eye distance. The list can be:
  - uploaded from, and downloaded to, a JSON waypoints file;
  - edited in a dialog (delete, submit, field edits, teleport connection);
  - extended with a fresh waypoint, or emptied.
- **Trade price guide.** Entries of the game server archive are classified into trade lists and language tables. The trader filename is parsed. Each good of each trader becomes a table row with names looked up in the language table, a price band, and sorting by item code.
- **Calendar.** The month table and the in-game hours formula.
- **Breadcrumbs.** The pathname is split into segments, and each crumb links to the cumulative prefix of the path.

## Files and modules

One module per file:

- **Shared:**
  - `Wrappers` (`wrappers.dfy`): `Option`.
  - `Numbers` (`numbers.dfy`): JavaScript numbers as `Fin(int) | PosInf | NegInf | NaN`, the arithmetic the app uses on them, and `Math.round(Math.sqrt(.))` on integer squares.
  - `Strings` (`strings.dfy`): `split`, `join`, `substring`, `startsWith`/`endsWith`, the code-point order that stands in for `sort()` and `localeCompare`, and how template literals print integers.
- **Waypoint planner:**
  - `WayPoints` (`waypoints.dfy`) models `src/app/waypoints/utils.ts`.
  - `Edges` (`edges.dfy`) models `src/app/waypoints/useWayPointEdges.ts`.
  - `WayPointGraph` (`waypoint_graph.dfy`) models `src/app/waypoints/useWayPointGraph.ts`.
  - `PathTable` (`path_table.dfy`) models `src/app/waypoints/PathStepsTable.tsx`.
  - `ToolData` (`tool_data.dfy`) models `src/hooks/useVintageStoryToolData.ts`.
  - `src/hooks/useVintageStoryToolData.ts` and `src/app/waypoints/useWayPointEdges.ts` import `deserializeWayPoints`, `serializeWayPoints`, `calculateDistance` and `VintageStoryToolDataSchema` from `src/utils/utils.ts`, which is not part of this model. `ToolData` and `Edges` use the same-named functions of `src/app/waypoints/utils.ts` (`WayPoints`), and its waypoints-file schema stands in for `VintageStoryToolDataSchema`.
  - `EditDialog` (`edit_dialog.dfy`) models `src/app/waypoints/WayPointEditDialog.tsx`.
  - `ActiveButtons` (`active_buttons.dfy`) models `src/app/waypoints/WayPointActiveButtons.tsx`.
- **The other three parts:**
  - `Trades` (`trades.dfy`) models `src/app/trades/page.tsx`.
  - `TradeTable` (`trade_table.dfy`) models `src/components/TradeListTable.tsx`.
  - `Calendar` (`calendar.dfy`) models `src/app/calendar/PageComponent.tsx`.
  - `Breadcrumbs` (`breadcrumbs.dfy`) models `src/app/LayoutBreadcrumbs.tsx`.

Each part keeps the form of its source:

- **Loops become methods.** Each method has loop invariants and is proved against a specification function:
  - the edge builder's nested loops;
  - the two passes of the import and the export loop;
  - the path-step loop;
  - the language-key loop;
  - row construction;
  - the in-place sort.
- **React state becomes classes.** Each setter is a method with a `modifies` clause:
  - the route hook's selection and path steps;
  - the file hook;
  - the edit dialog;
  - the list buttons;
  - the calendar page;
  - the archive reader.
- **Pure expressions become functions and lemmas.**

Some names change:

- A waypoint's `connection` object becomes the partner's id (`Option<string>`).
- Three fields are renamed because their names are Dafny keywords:
  - the waypoint `label` is `name`;
  - the price variance `var` is `spread`;
  - the trade element `type` is `itemType`.

## Model

| member | source | states |
|---|---|---|
| Numbers.Sub | src/app/waypoints/utils.ts:53-54 | finite operands subtract exactly; NaN in gives NaN out |
| Numbers.Add | src/app/waypoints/utils.ts:55 | finite operands add exactly; NaN in gives NaN out |
| Numbers.Mul | src/app/calendar/PageComponent.tsx:83 | finite operands multiply exactly; NaN in gives NaN out |
| Numbers.Square | src/app/waypoints/utils.ts:55 | `d * d` is never negative and never -Infinity; it is NaN exactly for NaN and Infinity exactly for ±Infinity |
| Numbers.SqrtOfSumOfSquares | src/app/waypoints/utils.ts:55 | finite squares give the root of their sum; the result is undefined (NaN) exactly when an input is NaN |
| Numbers.RoundSqrt | src/app/waypoints/useWayPointEdges.ts:32-35 | the result r is the integer nearest the square root of n: r*r - r < n <= r*r + r, and r is 0 exactly when n is 0 |
| Numbers.RoundSqrtUnique | src/app/waypoints/useWayPointEdges.ts:32-35 | any r with r*r - r < n <= r*r + r is RoundSqrt(n), so the rounding is uniquely determined |
| Numbers.RoundLength | src/app/waypoints/useWayPointEdges.ts:32-35 | Math.round of a distance is never -Infinity; it is NaN exactly for an undefined distance and Infinity exactly for an infinite one; otherwise it is a non-negative integer that is 0 exactly for a zero square |
| Strings.Substring | src/app/trades/page.tsx:81 | JavaScript `substring` between in-range indices in either order gives the slice between them |
| Strings.Split | src/app/LayoutBreadcrumbs.tsx:10 | `split` gives at least one piece and no piece contains the separator |
| Strings.JoinSplit | src/app/LayoutBreadcrumbs.tsx:10-17 | joining the pieces of a split with the separator gives the text back |
| Strings.SplitJoin | src/app/LayoutBreadcrumbs.tsx:10-17 | splitting a join of separator-free pieces gives the pieces back |
| Strings.LexLeTotal | src/app/waypoints/useWayPointEdges.ts:40 | the code-point order standing in for `sort()` is total |
| Strings.LexLeAntisymmetric | src/app/waypoints/useWayPointEdges.ts:40 | the code-point order is antisymmetric |
| Strings.LexLeTransitive | src/components/TradeListTable.tsx:158 | the code-point order is transitive |
| Strings.NatTextValue | src/app/waypoints/WayPointActiveButtons.tsx:44 | the decimal text printed for a natural reads back as that natural |
| Strings.NatTextInjective | src/app/waypoints/WayPointActiveButtons.tsx:44 | different naturals print differently |
| Strings.NatText | src/app/waypoints/WayPointActiveButtons.tsx:44 | a natural prints as one or more decimal digits with no leading zero |
| Strings.IntText | src/app/waypoints/utils.ts:136 | an integer prints as its decimal digits, with '-' in front when it is negative, and contains no space, comma or '/' |
| WayPoints.Distance | src/app/waypoints/utils.ts:48-56 | a teleport pair (either side's connection names the other) is at distance 0 |
| WayPoints.LinkedPairIsFree | src/app/waypoints/utils.ts:49-51 | whatever the coordinates, a connection from either side puts the pair at distance 0 in both argument orders |
| WayPoints.DistanceSymmetric | src/app/waypoints/utils.ts:48-56 | distance does not depend on argument order |
| WayPoints.DistanceOfFinitePositions | src/app/waypoints/utils.ts:53-55 | for an unlinked pair with finite coordinates the distance is the root of dx*dx + dz*dz over position.x and position.y |
| WayPoints.DistanceIgnoresHeight | src/app/waypoints/utils.ts:53-55 | two pairs that agree on ids, connections and positions have the same distance, whatever their heights, labels and times |
| WayPoints.CoincidentIsZero | src/app/waypoints/utils.ts:53-55 | coinciding finite positions are at distance 0 |
| WayPoints.RoundedDistanceZero | src/app/waypoints/utils.ts:48-56 | the rounded distance of a finite pair is 0 if and only if the pair is teleport-linked or the positions coincide |
| WayPoints.OrDefault | src/app/waypoints/utils.ts:81-82 | `x \|\| dflt`: a present non-empty string is kept, while an absent or empty one gives the default |
| WayPoints.ResolvedConnection | src/app/waypoints/utils.ts:88-99 | a row keeps its connection id exactly when that id belongs to the document, and otherwise has none |
| WayPoints.FindById | src/app/waypoints/utils.ts:91-92 | `find` by id returns the first index with that id, or none when no waypoint has it |
| WayPoints.PrefixExtend | src/app/waypoints/utils.ts:61-68 | a new id extends a duplicate-free prefix and adds exactly that id to the id set |
| WayPoints.RepeatIsDuplicate | src/app/waypoints/utils.ts:63-65 | an id already in the prefix's set makes the document one with a duplicate id |
| WayPoints.FindInImport | src/app/waypoints/utils.ts:88-97 | during the second pass `find` lands on the row's own index, and finds a connection id exactly when the document has it |
| WayPoints.ImportRows | src/app/waypoints/utils.ts:59-86 | the first pass stops with `duplicate` if and only if an id repeats; otherwise the id set is the document's ids and there is one connection-free waypoint per row, in order |
| WayPoints.Deserialized | src/app/waypoints/utils.ts:58-100 | a repeated id gives no waypoints and no ids; otherwise one waypoint per row, keeping each row's id and position, and the id set is the rows' ids |
| WayPoints.LinkConnections | src/app/waypoints/utils.ts:88-99 | the second pass gives each row's waypoint its connection id when the document has that id, leaves it unset otherwise, and adds no back-link |
| WayPoints.DeserializeWayPoints | src/app/waypoints/utils.ts:58-102 | the two loops compute `Deserialized(doc)`: nothing at all on a repeated id, otherwise the imported rows and their id set |
| WayPoints.Serialized | src/app/waypoints/utils.ts:104-133 | one row per waypoint keeping its id and connection id, row times `now`, document times the given ones or `now`, and a source or destination id exactly when that end is selected |
| WayPoints.SerializeWayPoints | src/app/waypoints/utils.ts:104-133 | the loop computes `Serialized(...)`: one record per waypoint in order, source and destination by id, and top-level times kept or set to `now` |
| WayPoints.RoundTrip | src/app/waypoints/utils.ts:58-133 | for distinct ids and connections that stay inside the list, importing the export gives back every waypoint in order, with ids, labels, heights, positions and connection ids intact, times set to `now`, and the id set equal to the list's ids |
| WayPoints.ReimportOne | src/app/waypoints/utils.ts:71-121 | one waypoint exported and imported again is the original with times `now`, origin browser and the display defaults |
| WayPoints.SelectionExportedById | src/app/waypoints/utils.ts:127-128 | the exported source and destination are the selected waypoints' ids |
| WayPoints.DuplicateRejected | src/app/waypoints/utils.ts:61-66 | a document whose ids repeat at two positions imports an empty list and an empty id set |
| WayPoints.ImportRowByRow | src/app/waypoints/utils.ts:61-101 | with unique ids the import has one waypoint per row, and row i keeps its data with origin browser and defaults pinned false, color "red" and icon "circle", keeps its position, and keeps its connection when resolvable; the id set equals the document's ids |
| WayPoints.StringifyWayPoint | src/app/waypoints/utils.ts:135-137 | the rendering starts with the label |
| WayPoints.StringifyWords | src/app/waypoints/utils.ts:135-137 | the rendering's last three words are `(x,`, `height,` and `y)`, in that order |
| WayPoints.CommandWords | src/app/waypoints/utils.ts:169-171 | the command's words are `/waypoint addati icon x height y true\|false color`, followed by the label's words, with position.y as the last coordinate |
| WayPoints.WaypointCommand | src/app/waypoints/utils.ts:169-171 | the command starts with "/waypoint" and ends with a space and the label |
| Edges.EdgeIdSymmetric | src/app/waypoints/useWayPointEdges.ts:40 | the canonical edge id does not depend on which end comes first |
| Edges.EdgeIdInjective | src/app/waypoints/useWayPointEdges.ts:40 | for ids without '-', equal canonical ids mean the same unordered pair |
| Edges.EdgeIdCollision | src/app/waypoints/useWayPointEdges.ts:40 | ids that contain '-' can collide: the pairs ("x", "y-z") and ("x-y", "z") share the id "x-y-z" |
| Edges.EdgeIdSameLength | src/app/waypoints/useWayPointEdges.ts:40 | for ids of one common length, '-' or not, equal canonical ids mean the same unordered pair |
| Edges.PlainIdsNoCollision | src/app/waypoints/useWayPointEdges.ts:40 | distinct ids without '-' never give two pairs the same canonical id |
| Edges.SameLengthIdsNoCollision | src/app/waypoints/useWayPointEdges.ts:40 | distinct ids of one common length never give two pairs the same canonical id, so Add-created ids with equally long parts are covered |
| Edges.NodeElements | src/app/waypoints/useWayPointEdges.ts:17-23 | the node loop yields one node element per waypoint, in list order, with its data and position |
| Edges.VisitPair | src/app/waypoints/useWayPointEdges.ts:30-52 | one inner-loop pass adds the pair's edge exactly when its weight is not NaN or Infinity and its id is not yet recorded, and records the id |
| Edges.VisitRow | src/app/waypoints/useWayPointEdges.ts:29-54 | the inner loop over j > i yields the row's specified progress, and the element list stays nodes followed by kept edges |
| Edges.BuildElements | src/app/waypoints/useWayPointEdges.ts:12-57 | the builder returns the nodes followed by the edges that the pair-by-pair specification keeps |
| Edges.NewPairId | src/app/waypoints/useWayPointEdges.ts:40-41 | when no two pairs share a canonical id, a pair's edge id has not been recorded by the pairs before it |
| Edges.EdgesJoinPairs | src/app/waypoints/useWayPointEdges.ts:26-52 | every edge comes from a pair i < j with an admitted weight: source wps[i], target wps[j], the canonical id, and the rounded distance as weight |
| Edges.NoSelfLoops | src/app/waypoints/useWayPointEdges.ts:26-30 | for distinct ids, no edge joins a waypoint to itself |
| Edges.EdgeIdsUnique | src/app/waypoints/useWayPointEdges.ts:40-52 | no two edge elements share an id |
| Edges.LinkedPairWeightZero | src/app/waypoints/useWayPointEdges.ts:32-35 | a teleport-linked pair is admitted with weight 0 |
| Edges.UndefinedPairNoEdge | src/app/waypoints/useWayPointEdges.ts:38 | a pair whose distance is NaN gets no edge: the graph is only the two nodes |
| Edges.CompleteGraph | src/app/waypoints/useWayPointEdges.ts:26-54 | when every pair is admitted and no two pairs share a canonical id, there are n + n(n-1)/2 elements |
| Edges.CollisionDropsEdge | src/app/waypoints/useWayPointEdges.ts:40-52 | when an admitted pair's id collides with a later pair's, the later pair is dropped and the graph has fewer than n(n-1)/2 edges |
| Edges.CollisionSkipped | src/app/waypoints/useWayPointEdges.ts:41 | for any weights, the step of the later colliding pair changes nothing |
| Edges.CollisionKeepsFewer | src/app/waypoints/useWayPointEdges.ts:26-54 | for any weights, a collision leaves fewer kept edges than pairs |
| Edges.UptoCount | src/app/waypoints/useWayPointEdges.ts:26-54 | for any weights: when every pair is admitted and no two pairs share a canonical id, the first i rows keep exactly one edge per pair |
| Edges.UptoCountBound | src/app/waypoints/useWayPointEdges.ts:26-54 | for any weights, the first i rows keep at most one edge per pair, and strictly fewer once a pair of those rows was skipped |
| Edges.UptoSound | src/app/waypoints/useWayPointEdges.ts:26-54 | every edge kept before row i comes from an admitted earlier pair, and the kept ids are exactly the recorded ids |
| Edges.IdRecorded | src/app/waypoints/useWayPointEdges.ts:41-51 | once an admitted pair has been visited, its id stays recorded for every later pair |
| Edges.AdmittedPairAppended | src/app/waypoints/useWayPointEdges.ts:30-52 | for any weights, when no two pairs share a canonical id, visiting an admitted pair keeps its edge |
| Edges.KeptToEnd | src/app/waypoints/useWayPointEdges.ts:26-54 | an edge kept at any point of the loops is still kept when they end |
| Edges.PairIdRecorded | src/app/waypoints/useWayPointEdges.ts:41-51 | for any weights, an admitted pair's id is recorded in `addedEdges` when the loops end |
| Edges.RecordedPairKept | src/app/waypoints/useWayPointEdges.ts:26-54 | for any weights, when no two pairs share a canonical id, a recorded pair id belongs to that pair's kept edge |
| Edges.AdmittedPairKept | src/app/waypoints/useWayPointEdges.ts:26-54 | for any weights, when no two pairs share a canonical id, every admitted pair's edge is among the edges kept |
| Edges.AdmittedPairHasEdge | src/app/waypoints/useWayPointEdges.ts:26-54 | when no two pairs share a canonical id, every pair i < j whose rounded distance is neither NaN nor Infinity has its edge, from wps[i] to wps[j] with that weight, among the elements: the converse of EdgesJoinPairs |
| Edges.AllPairs | src/app/waypoints/useWayPointEdges.ts:26-29 | the loops visit n(n-1)/2 pairs |
| WayPointGraph.SearchWeight | src/app/waypoints/useWayPointGraph.ts:40-45 | the search weight is never NaN: a stored non-NaN number is used as is, and anything else counts as 1 |
| WayPointGraph.ShouldSearch | src/app/waypoints/useWayPointGraph.ts:34 | a search runs only with both ends selected and never for two ends with the same id |
| WayPointGraph.GraphSearchWeights | src/app/waypoints/useWayPointGraph.ts:40-45 | every built edge has a non-negative integer weight that the search uses unchanged |
| WayPointGraph.EdgesWith | src/app/waypoints/useWayPointGraph.ts:63 | `edgesWith` gives exactly the edges joining the two nodes, in either direction |
| WayPointGraph.ExtractPathSteps | src/app/waypoints/useWayPointGraph.ts:59-75 | the hop loop yields the specified steps: for each hop in travel order, one step per joining edge, from node i to node i+1, with the edge's weight |
| WayPointGraph.HopStepsMembers | src/app/waypoints/useWayPointGraph.ts:63-73 | a hop's steps are exactly one step per edge joining its two nodes |
| WayPointGraph.StepsAlongMembers | src/app/waypoints/useWayPointGraph.ts:60-75 | a step is in the list if and only if it records an edge of some hop k, going from path[k] to path[k + 1] |
| WayPointGraph.StepsAlongSound | src/app/waypoints/useWayPointGraph.ts:60-75 | every listed step belongs to some hop |
| WayPointGraph.StepsAlongComplete | src/app/waypoints/useWayPointGraph.ts:60-75 | every edge of every hop has its step in the list |
| WayPointGraph.GraphEdgeIds | src/app/waypoints/useWayPointEdges.ts:40-48 | every built edge carries the canonical id of its two ends |
| WayPointGraph.SingleEdgePerHop | src/app/waypoints/useWayPointGraph.ts:63 | in the built graph, at most one edge joins any two nodes |
| WayPointGraph.AtMostOneStepPerHop | src/app/waypoints/useWayPointGraph.ts:60-75 | along the built graph, a path of n nodes gives at most n - 1 steps |
| WayPointGraph.StepsOfSimplePath | src/app/waypoints/useWayPointGraph.ts:60-75 | when each hop is joined by exactly one edge there is one step per hop, and step k goes from path[k] to path[k + 1] |
| WayPointGraph.RecordedDistanceAsWritten | src/app/waypoints/useWayPointGraph.ts:71 | `weight \|\| -1` never records 0 |
| WayPointGraph.AsWrittenDiffersOnTeleportHops | src/app/waypoints/useWayPointGraph.ts:71 | the as-written steps agree with the corrected ones in id, from and to; they differ in distance exactly on 0-weight hops, which become -1 |
| WayPointGraph.TeleportHopRecordedNegative | src/app/waypoints/useWayPointGraph.ts:71 | a teleport hop of weight 0 is recorded as -1 as written and as 0 when corrected |
| WayPointGraph.StepsAlongAsWritten | src/app/waypoints/useWayPointGraph.ts:59-75 | as written, the hop loop gives as many steps as the corrected one and never records distance 0 |
| WayPointGraph.RouteState.constructor | src/app/waypoints/useWayPointGraph.ts:16 | the hook starts with no source, no destination and no path steps |
| WayPointGraph.RouteState.RefreshPath | src/app/waypoints/useWayPointGraph.ts:20-95 | the route effect: without a graph or with an empty list the steps are untouched; without a valid source and destination pair the steps become []; with a found path the steps are that path's steps; with no path found they are untouched; the selection never changes |
| WayPointGraph.RouteState.InitSelection | src/app/waypoints/useWayPointGraph.ts:100-114 | for a non-empty list an unset end becomes waypoints[0] and a set end is kept; for an empty list both are cleared; the steps are untouched |
| PathTable.Render | src/app/waypoints/PathStepsTable.tsx:31-70 | "No Path to display." shows exactly when the source is unset, the destination is unset or the steps are empty; otherwise the table has steps+1 rows, the start at distance 0 and then each step's `to` with its distance (the corrected rows), the total of the step distances and the rounded source-destination distance |
| PathTable.RowsAsWritten | src/app/waypoints/PathStepsTable.tsx:46-57 | the rows as written: steps[0].to at distance 0, then each step's `from` |
| PathTable.Rows | src/app/waypoints/PathStepsTable.tsx:46-57 | the corrected rows: the start at distance 0, then each step's `to` with its distance, steps+1 rows in all |
| PathTable.RowsFollowPath | src/app/waypoints/PathStepsTable.tsx:46-57 | along a path joined hop by hop by one edge, the corrected rows list the path's waypoints in travel order |
| PathTable.AsWrittenRowsOmitDestination | src/app/waypoints/PathStepsTable.tsx:46-57 | along such a path of distinct nodes, the as-written rows never show the destination |
| PathTable.AsWrittenRowsExample | src/app/waypoints/PathStepsTable.tsx:46-57 | for the route a -> b -> c the as-written rows are b, a, b and the corrected rows are a, b, c |
| PathTable.TotalAppend | src/app/waypoints/PathStepsTable.tsx:60 | the total is additive over concatenation, so each step is counted once |
| PathTable.Total | src/app/waypoints/PathStepsTable.tsx:60 | the `reduce` total is 0 for no steps and non-negative when every step distance is |
| PathTable.GraphTotalNonNegative | src/app/waypoints/PathStepsTable.tsx:60 | along the built graph the total of the corrected steps (`ExtractPathSteps`) is non-negative; the as-written steps can total less, see `AsWrittenTotal` |
| PathTable.AsWrittenTotal | src/app/waypoints/PathStepsTable.tsx:60 | under `weight \|\| -1` the total drops by one for each 0-distance step |
| PathTable.BirdsEyeIgnoresSteps | src/app/waypoints/PathStepsTable.tsx:64 | the bird's-eye figure is the rounded distance between source and destination, whatever the steps |
| PathTable.BirdsEyeOfTeleportPair | src/app/waypoints/PathStepsTable.tsx:64 | a teleport-linked pair is 0 apart as the bird flies |
| PathTable.BirdsEye | src/app/waypoints/PathStepsTable.tsx:64 | the bird's-eye figure is never -Infinity, is non-negative when finite, and is 0 for a teleport-linked pair |
| ToolData.MergeWayPoints | src/hooks/useVintageStoryToolData.ts:53-64 | when some old waypoint's id is among the uploaded ids the old list is returned unchanged; otherwise the old list comes first and the upload follows it, in order |
| ToolData.SharedIdIsListed | src/hooks/useVintageStoryToolData.ts:53-56 | the uploaded ids meet the old list's ids exactly when some old waypoint carries an uploaded id |
| ToolData.ResolveSelection | src/hooks/useVintageStoryToolData.ts:66-87 | a non-empty id that matches an uploaded waypoint selects that waypoint; a missing, empty or unmatched id leaves the selection unchanged |
| ToolData.UploadFileAsWritten | src/hooks/useVintageStoryToolData.ts:36-87 | the as-written file step agrees with the corrected one on waypoints and selection |
| ToolData.FreshStateNeverAdoptsTimes | src/hooks/useVintageStoryToolData.ts:37-43 | as written, a state without timestamps never gets any, whatever files are uploaded |
| ToolData.LastValidFileSetsTimes | src/hooks/useVintageStoryToolData.ts:37-43 | corrected, the timestamps are those of the last file that parsed |
| ToolData.DeserializedDistinct | src/app/waypoints/utils.ts:58-102 | the import yields pairwise distinct ids, and its id set is exactly their ids |
| ToolData.MergeKeepsIdsDistinct | src/hooks/useVintageStoryToolData.ts:53-64 | an upload never brings a repeated id into a list that has none |
| ToolData.UploadsKeepIdsDistinct | src/hooks/useVintageStoryToolData.ts:30-95 | any sequence of uploads keeps the ids pairwise distinct |
| ToolData.AcceptedUploadAppends | src/hooks/useVintageStoryToolData.ts:53-64 | with no shared id, the old waypoints stay first and the file's are appended, both in order |
| ToolData.DuplicateFileLeavesList | src/hooks/useVintageStoryToolData.ts:45-63 | a file with a repeated id leaves the list as it was |
| ToolData.RejectedUploadStillSelects | src/hooks/useVintageStoryToolData.ts:53-87 | a rejected merge still moves the source to an uploaded waypoint, which is not in the list |
| ToolData.FailedFileSkipped | src/hooks/useVintageStoryToolData.ts:31-94 | a file that failed to parse is skipped, and later files are processed as if it were absent |
| ToolData.ToolDataHook.constructor | src/hooks/useVintageStoryToolData.ts:25-27 | the hook starts with no waypoints, no selection and no timestamps |
| ToolData.ToolDataHook.UploadWayPoints | src/hooks/useVintageStoryToolData.ts:30-103 | the loop over files leaves the state specified by UploadAll |
| ToolData.ToolDataHook.DownloadWayPoints | src/hooks/useVintageStoryToolData.ts:105-110 | the download is `waypoints.json` holding the serialised current waypoints, selection and times |
| EditDialog.EditDialogState.constructor | src/app/waypoints/WayPointEditDialog.tsx:16 | the dialog opens on the row being edited and the current list |
| EditDialog.RemoveById | src/app/waypoints/WayPointEditDialog.tsx:21-24 | the rows kept are exactly those with another id |
| EditDialog.RemoveSplits | src/app/waypoints/WayPointEditDialog.tsx:23 | removal distributes over concatenation, so the kept rows keep their order |
| EditDialog.RemoveIdempotent | src/app/waypoints/WayPointEditDialog.tsx:23 | removing twice is the same as removing once |
| EditDialog.RemoveLeavesDanglingLink | src/app/waypoints/WayPointEditDialog.tsx:21-24 | a row linked to the removed one keeps its link, which now points outside the list |
| EditDialog.ReplaceById | src/app/waypoints/WayPointEditDialog.tsx:29 | `map` replacing by id keeps the list's length |
| EditDialog.ReplaceKeepsIds | src/app/waypoints/WayPointEditDialog.tsx:26-30 | submit keeps the length and the id at every position, so distinct ids stay distinct |
| EditDialog.ReplaceInstallsEdit | src/app/waypoints/WayPointEditDialog.tsx:29 | the edited row appears exactly when its id was present or it was already a row; rows with other ids stay |
| EditDialog.ReplaceIdempotent | src/app/waypoints/WayPointEditDialog.tsx:29 | submitting twice is the same as submitting once |
| EditDialog.FieldValue | src/app/waypoints/WayPointEditDialog.tsx:83-138 | empty text gives 0; unparsable text gives nothing; otherwise the parsed number |
| EditDialog.SetField | src/app/waypoints/WayPointEditDialog.tsx:82-137 | a field edit keeps the id and the connection |
| EditDialog.HeightEditKeepsDistances | src/app/waypoints/WayPointEditDialog.tsx:104-116 | field "y" writes the height, which changes no distance |
| EditDialog.PlanarFieldsSetDistance | src/app/waypoints/WayPointEditDialog.tsx:82-137 | fields "x" and "z" write position.x and position.y, which set the planar distance |
| EditDialog.Connect | src/app/waypoints/WayPointEditDialog.tsx:176-181 | linking a partner keeps the list's length |
| EditDialog.ConnectLinksBothWays | src/app/waypoints/WayPointEditDialog.tsx:176-181 | choosing a partner links both ways, so the pair is at distance 0 in either order |
| EditDialog.FormerPartnerKeepsLink | src/app/waypoints/WayPointEditDialog.tsx:176-181 | every other row, including a former partner, keeps its old link |
| EditDialog.EditDialogState.Delete | src/app/waypoints/WayPointEditDialog.tsx:21-24 | delete closes the dialog and removes every row with the edited id, leaving the rest in order |
| EditDialog.EditDialogState.Submit | src/app/waypoints/WayPointEditDialog.tsx:26-30 | submit closes the dialog and replaces every row with the edited id by the edited row |
| EditDialog.EditDialogState.ChangeLabel | src/app/waypoints/WayPointEditDialog.tsx:66-73 | a label edit changes only the label |
| EditDialog.EditDialogState.ChangeField | src/app/waypoints/WayPointEditDialog.tsx:82-137 | a numeric field edit sets its field when the text is empty or parses, and otherwise changes nothing |
| EditDialog.EditDialogState.ChangeConnection | src/app/waypoints/WayPointEditDialog.tsx:176-181 | a chosen partner is linked both ways; clearing the choice changes nothing |
| ActiveButtons.NewWayPoint | src/app/waypoints/WayPointActiveButtons.tsx:39-51 | the new waypoint has an id starting "new-", the label "Waypoint n+1", height 0, position (0, 0), both times `now`, origin browser and no connection |
| ActiveButtons.NewId | src/app/waypoints/WayPointActiveButtons.tsx:39 | the id starts with "new-", so it contains '-', and ends with the random suffix |
| ActiveButtons.NewLabelsDiffer | src/app/waypoints/WayPointActiveButtons.tsx:44 | adds at different list lengths give different labels |
| ActiveButtons.AddMayRepeatId | src/app/waypoints/WayPointActiveButtons.tsx:39 | the new id is not checked, so an id already taken gives the list a repeated id |
| ActiveButtons.AddFreshKeepsDistinct | src/app/waypoints/WayPointActiveButtons.tsx:39-53 | a fresh id keeps distinct ids distinct |
| ActiveButtons.WayPointList.constructor | src/app/waypoints/WayPointActiveButtons.tsx:20 | the buttons act on the current list with nothing selected |
| ActiveButtons.WayPointList.AddWayPoint | src/app/waypoints/WayPointActiveButtons.tsx:37-56 | "Add Waypoint" appends exactly the new waypoint and leaves the rest and the selection as they were |
| ActiveButtons.WayPointList.DeleteWayPoints | src/app/waypoints/WayPointActiveButtons.tsx:66-68 | "Delete WayPoints" empties the list and leaves the selection as it was |
| Trades.Classify | src/app/trades/page.tsx:141-158 | trade lists are checked first; the two skipped language files are skipped; other `.json` files under the language prefix go to the language parser; everything else is drained |
| Trades.SkippedLanguageFiles | src/app/trades/page.tsx:146-151 | `languages.json` and `ro.json` are drained |
| Trades.TraderFields | src/app/trades/page.tsx:82 | the type and code taken from the split contain no '-' |
| Trades.TraderStem | src/app/trades/page.tsx:81 | for a name at least as long as the prefix and ".json", the stem is the text between them |
| Trades.TraderCodeMissing | src/app/trades/page.tsx:82 | the code is missing exactly when the stem has no '-', and then the type is the whole stem |
| Trades.TraderFieldsOf | src/app/trades/page.tsx:82 | `type-code` gives (type, code), and further segments are dropped |
| Trades.ParseTraderType | src/app/trades/page.tsx:87 | only "villager" and "trader" parse |
| Trades.TraderListOf | src/app/trades/page.tsx:77-98 | a trade list is produced exactly when it is valid and its type parses, with `filePath` set to the entry name and the code from the filename |
| Trades.TraderFileName | src/app/trades/page.tsx:81-143 | a trade-list file named `type-code.json` is classified as a trade list and yields (type, code) |
| Trades.LanguageFileCode | src/app/trades/page.tsx:105-152 | a language file `code.json` goes to the language parser and gives the code |
| Trades.LangCode | src/app/trades/page.tsx:105 | for a long enough name, the code is the text between the prefix plus one character and ".json" |
| Trades.LangFileBesideFolder | src/app/trades/page.tsx:105-152 | `assets/game/lang.json` also matches the language prefix and gets the code "." |
| Trades.AppendOnSuccess | src/app/trades/page.tsx:84-98 | a trade list that parses is appended, and anything else leaves the state unchanged |
| Trades.TradeListsGrow | src/app/trades/page.tsx:84-89 | the trade lists only grow, and earlier ones stay in place |
| Trades.TradeListProvenance | src/app/trades/page.tsx:84-145 | every appended trade list comes from a trade-list entry of the archive |
| Trades.LanguageProvenance | src/app/trades/page.tsx:105-154 | every stored language code comes from a language entry |
| Trades.LaterLanguageFileWins | src/app/trades/page.tsx:117 | a later language table under the same code replaces the earlier one |
| Trades.VsServer.constructor | src/app/trades/page.tsx:163-178 | a fresh archive reader records the branch and version and holds no trade lists and no language tables |
| Trades.VsServer.ParseVsServerFile | src/app/trades/page.tsx:141-158 | one archive entry updates the trade lists and language tables as specified |
| Trades.VsServer.ExtractEntries | src/app/trades/page.tsx:180-190 | the entries in archive order leave the contents specified by AfterEntries |
| TradeTable.TraderName | src/components/TradeListTable.tsx:29-55 | without a table the result is (code, false); a hit gives (value, false); a miss gives (code, true) |
| TradeTable.TraderKeys | src/components/TradeListTable.tsx:35-43 | a villager is looked up under "nametag-"; a trader is not, and a trader coded "agriculture" is looked up as "foods" |
| TradeTable.ItemNameAsWritten | src/components/TradeListTable.tsx:57-79 | as written, the error flag is set exactly when there is no table or the exact key is missing, and the name is then the code |
| TradeTable.DetermineItemNameAsWritten | src/components/TradeListTable.tsx:57-79 | the as-written loop computes ItemNameAsWritten |
| TradeTable.Lookup | src/components/TradeListTable.tsx:64 | a lookup hits exactly for a present key and returns its value |
| TradeTable.FirstWildcard | src/components/TradeListTable.tsx:67-68 | it finds the first key ending in '*' whose stem prefixes the code, or reports that none matches |
| TradeTable.ItemName | src/components/TradeListTable.tsx:57-79 | corrected, the error flag is set exactly when there is no table, or the exact key is missing and no wildcard matches; an exact hit gives its value |
| TradeTable.DetermineItemName | src/components/TradeListTable.tsx:57-79 | the corrected loop computes ItemName |
| TradeTable.ItemNameAgreement | src/components/TradeListTable.tsx:65-75 | the two versions differ exactly when the exact key misses and a wildcard matches |
| TradeTable.MakeRow | src/components/TradeListTable.tsx:139-151 | a row keeps the trader's type and code, the side, the item code and stack size; the trader-name error flags a missing trader key; the item-name error flags no table, or a missing key with no matching wildcard (the corrected lookup), and the name is then the code |
| TradeTable.WildcardKeyIgnored | src/components/TradeListTable.tsx:65-75 | "ingot-copper" with the key "ingot-*" gives (code, true) as written and "Ingot" when corrected |
| TradeTable.ListRows | src/components/TradeListTable.tsx:126-153 | one row per good of the list |
| TradeTable.ListRowsMembers | src/components/TradeListTable.tsx:126-153 | the rows of a list are exactly the rows made from its goods |
| TradeTable.RowsCount | src/components/TradeListTable.tsx:125-157 | there are as many rows as buying and selling goods together |
| TradeTable.RowsComeFromGoods | src/components/TradeListTable.tsx:125-157 | every row comes from a good of some trader |
| TradeTable.GoodsHaveRows | src/components/TradeListTable.tsx:125-157 | every good of every trader has its row |
| TradeTable.PriceBand | src/components/TradeListTable.tsx:148-149 | min and max are centred on the average and 2·var apart, so min <= max exactly when var >= 0 |
| TradeTable.ProcessList | src/components/TradeListTable.tsx:126-153 | `processList` appends the list's rows |
| TradeTable.CollectRows | src/components/TradeListTable.tsx:125-157 | the trader loop collects every trader's buying rows, then selling rows |
| TradeTable.SortByCode | src/components/TradeListTable.tsx:158 | the in-place sort leaves the rows ordered by code and a permutation of the input |
| TradeTable.TradeListTable | src/components/TradeListTable.tsx:118-182 | a missing language gives the message; otherwise the grid rows are sorted by code and a permutation of all trade rows |
| Calendar.MonthsTable | src/app/calendar/PageComponent.tsx:11-24 | there are 12 months, entry i has index i, and they run from January through May to December |
| Calendar.TotalHours | src/app/calendar/PageComponent.tsx:83 | a NaN input (from parseInt) gives a NaN total |
| Calendar.FiniteHours | src/app/calendar/PageComponent.tsx:83 | finite inputs give year·12·days + month·days + day |
| Calendar.HoursMonotone | src/app/calendar/PageComponent.tsx:83 | for non-negative days per month, the total does not decrease in year, month and day |
| Calendar.HoursOrderDates | src/app/calendar/PageComponent.tsx:83 | for in-range days, totals order dates exactly as the calendar does |
| Calendar.CalendarPage.constructor | src/app/calendar/PageComponent.tsx:27-83 | the defaults are 9 days, year 0, May and day 0, which show 36 hours |
| Calendar.CalendarPage.SetDaysPerMonth | src/app/calendar/PageComponent.tsx:42 | the days-per-month field takes the parsed value, and nothing else changes |
| Calendar.CalendarPage.SetYear | src/app/calendar/PageComponent.tsx:51 | the year field takes the parsed value, and nothing else changes |
| Calendar.CalendarPage.SetDayOfMonth | src/app/calendar/PageComponent.tsx:75 | the day field takes the parsed value, and nothing else changes |
| Calendar.CalendarPage.SelectMonth | src/app/calendar/PageComponent.tsx:61-65 | choosing a month sets it, and clearing the choice leaves the month unchanged |
| Breadcrumbs.NonEmpty | src/app/LayoutBreadcrumbs.tsx:10 | `filter(path => path)` keeps exactly the non-empty pieces; with `NonEmptySplits`, in order and with their repeats |
| Breadcrumbs.Segments | src/app/LayoutBreadcrumbs.tsx:10 | segments are non-empty and contain no '/'; with `SegmentsAround`, they are the pathname's non-empty pieces in order |
| Breadcrumbs.NonEmptySplits | src/app/LayoutBreadcrumbs.tsx:10 | the filter distributes over concatenation, so the kept pieces keep their order and their repeats |
| Breadcrumbs.SegmentsAround | src/app/LayoutBreadcrumbs.tsx:10 | the segments of `a/b` are those of a, then those of b |
| Breadcrumbs.SegmentsExamples | src/app/LayoutBreadcrumbs.tsx:10 | "/a//b" gives the segments a, b and "/a/a" gives a, a |
| Breadcrumbs.Crumbs | src/app/LayoutBreadcrumbs.tsx:12-24 | Home first, then one crumb per segment showing that segment |
| Breadcrumbs.Trail | src/app/LayoutBreadcrumbs.tsx:12-24 | the Home crumb to "/" comes first, followed by one crumb per segment, which shows that segment |
| Breadcrumbs.HrefsExtend | src/app/LayoutBreadcrumbs.tsx:17 | each segment crumb's href is the previous one plus "/" and its segment, so it extends it |
| Breadcrumbs.HrefsFromRoot | src/app/LayoutBreadcrumbs.tsx:13-17 | every href starts with "/" |
| Breadcrumbs.Href | src/app/LayoutBreadcrumbs.tsx:17 | a segment's href starts with "/" and ends with that segment |
| Breadcrumbs.SegmentsOfCanonical | src/app/LayoutBreadcrumbs.tsx:10-17 | splitting "/" joined with the segments gives the segments back |
| Breadcrumbs.LastHrefCollapsesPath | src/app/LayoutBreadcrumbs.tsx:10-17 | the last href is the pathname with empty segments collapsed, and it yields the same trail again |

## Left out

- The route search (cytoscape `aStar`), highlighting, `fit`, pan and zoom are foreign library calls. `RefreshPath` takes the node path the search found (empty when none) as a parameter, and whether a graph instance exists as a boolean.
- `convertNodeToWayPoint` is not part of this model, because it wraps graph-library nodes.
- `Math.sqrt` and `Math.round` work on integer coordinates:
  - The distance is `Root(dx*dx + dz*dz)`, kept exact.
  - `Math.round(sqrt(s))` is the integer r with r*r - r < s <= r*r + r. For an integer s this is exact: the root of an integer is never halfway between two integers.
  - Fractional coordinates are not modelled.
- Prices, heights, coordinates and calendar inputs are integers (`Num`). Floating-point rounding is not modelled.
- The table's rounding of each step distance to one decimal (`Math.round(d * 10) / 10`) is the identity on integers. The row distance is therefore the step distance.
- The calendar's `0.8` real-hours factor is floating-point display text and is not modelled.
- `parseFloat` and `parseInt` are parameters. The setters receive the parsed `Num`, NaN for unparsable text. `EditDialog.FieldValue` receives the parsed value together with the text.
- `Date`, `Date.now()` and `new Date()` are the parameter `now`. `Math.random()` is the parameter `suffix`.
- JSON text parsing and zod validation are not modelled. An uploaded file is `Some(doc)` when it parsed and validated and `None` otherwise. A trade list or language table entry carries its parsed content, or `None` on a parse failure. Trade-list validation failure and a thrown `TraderTypeSchema.parse` lead to the same outcome, "nothing appended".
- File reading, blob download, the HTTPS archive download, gzip and tar streaming are I/O:
  - The archive is a sequence of entries, each with a name and parsed contents.
  - The stream `callback` and the `data`/`end` events are not modelled. Each entry is handled completely before the next, as the callback sequencing ensures.
- Snackbar messages and console logging are not modelled.
- The upload remaps the waypoints with `{...wp, id: wp.data.id || ...}` (src/hooks/useVintageStoryToolData.ts:48-51). This adds a top-level `id` property that no other code reads, and it never changes `data.id`. The model uses the imported waypoints unchanged.
- React scheduling is not modelled. Each setter takes effect at once in the order written. The as-written `createdTime`/`modifiedTime` guard, modelled by `UploadAllAsWritten`, reads the values captured when the upload began.
- EditDialog.Connect: modelled on values. It returns the edited row and the list with the partner's link set, and does not model the aliasing between `editRow` and the list's objects. The field handlers' in-place mutation of the shared `data` and `position` objects is likewise modelled as setting the field on the edited row.
- EditDialog.EditDialogState.ChangeLabel: modelled on values, so it promises that the list is unchanged. In the app the dialog's row is the list's own object (src/app/waypoints/WayPointComponent.tsx:68), so writing its label also changes the list's row, even when the dialog is then cancelled.
- EditDialog.EditDialogState.ChangeField: modelled on values, so it promises that the list is unchanged. Writing `position.x`, the height or `position.y` of the dialog's row also changes the list's row, even when the dialog is then cancelled, for the same reason.
- The path-table rows show each node's label; the model identifies the row's waypoint by its id (`PathTable.Row`), since labels need not be unique.
- TradeTable.MakeRow: uses the corrected `ItemName` from Findings, so an item found only under a wildcard key shows that key's value with no error flag, where the code as written shows the item code and flags an error (`ItemNameAsWritten`, `WildcardKeyIgnored`).
- TradeTable.ListRows: builds its rows with the corrected `MakeRow`, so the row names are the corrected ones, not the as-written ones.
- TradeTable.ProcessList: calls the corrected `DetermineItemName`, so its rows carry the corrected names; the as-written loop is `DetermineItemNameAsWritten`.
- TradeTable.CollectRows: collects the corrected rows of `ListRows`, not the as-written ones.
- TradeTable.TradeListTable: shows the corrected rows of `CollectRows`, not the as-written ones.
- WayPointGraph.RouteState.RefreshPath: stores the steps of the corrected hop loop (`ExtractPathSteps`), which records a teleport hop's weight 0, and not the as-written `weight || -1` (`StepsAlongAsWritten`).
- PathTable.Render: renders the corrected `Rows` (the start, then each step's `to`), not the as-written `RowsAsWritten`.
- ToolData.ToolDataHook.UploadWayPoints: runs the corrected `UploadAll`, which adopts the times of each document that parsed. The as-written guard, which adopts them only when the hook already has times, is `UploadAllAsWritten` and `FreshStateNeverAdoptsTimes`.
- TradeTable.SortByCode: `localeCompare` is modelled as code-point order (`LexLe`). Locale collation and the stability of `sort` are not modelled, so the contract promises order by code and a permutation only.
- Strings.LexLeTotal: `LexLe` compares Unicode scalar values, while `sort()` without a comparator compares UTF-16 code units. The two orders agree except between a character above U+FFFF (a surrogate pair, whose first unit is in U+D800–U+DBFF) and one in U+E000–U+FFFF, where code-unit order puts the former first and `LexLe` the latter. Edge ids and item codes are assumed to avoid such pairs.
- `Object.keys(langLut)` order is an explicit `keys` parameter that lists the table's keys.
- UI-only components are not modelled: the data grid, the selection widget, the stale `WayPointRow.tsx`, themes and layout.
- Deleting a waypoint does not cascade to the selection or to other rows' connections, and the model follows the code: `RemoveLeavesDanglingLink`, and `Delete` leaves the selection alone.
- The distance is planar: it uses position.x and position.y only, never the height, and the model follows the code: `DistanceIgnoresHeight`.
- The edge builder's properties are proved for an arbitrary weight function (`WeightFn`), of which `Weights(wps)` is the instance the app uses.

## Findings

| source | as written | input that shows it | evidently intended | confidence | as-written member | corrected member |
|---|---|---|---|---|---|---|
| src/app/waypoints/useWayPointGraph.ts:71 | `distance: edge.data('weight') \|\| -1` turns weight 0 into -1 | a teleport hop a -> b, whose edge has weight 0 | record the weight, 0 included | not executed; high | WayPointGraph.TeleportHopRecordedNegative | WayPointGraph.ExtractPathSteps |
| src/hooks/useVintageStoryToolData.ts:37-43 | the document's times are adopted only if the hook's own times are already set | a fresh state (no times) uploading any valid file keeps no times | adopt the document's times when the document has them | not executed; high | ToolData.FreshStateNeverAdoptsTimes | ToolData.LastValidFileSetsTimes |
| src/components/TradeListTable.tsx:65-75 | the wildcard loop looks up the same missing key again, so a wildcard key never matches | table {"ingot-*": "Ingot"}, item "ingot-copper" gives ("ingot-copper", true) | return the wildcard key's value | not executed; high | TradeTable.WildcardKeyIgnored | TradeTable.DetermineItemName |
| src/app/waypoints/PathStepsTable.tsx:46-57 | the first row is steps[0].to and each row shows the step's `from` | route a -> b -> c gives rows b, a, b | rows a, b, c: the start, then each step's `to` | not executed; medium | PathTable.AsWrittenRowsExample | PathTable.RowsFollowPath |
