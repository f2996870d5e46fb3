# Drone search-and-land simulation: a Dafny model of its core

The simulation flies drones over a field of simulated workers. Each worker carries a
`PersonDescriptor` holding a jacket colour and a helmet colour. Each drone carries an
`AttributeDetector` that scores people against a free-text mission query such as
"person with orange jacket and yellow hard hat". A drone takes off, patrols and asks its
detector for the best match. It then approaches that person and lands beside them.

Around this loop:
- a coordinator keeps several drones from chasing the same person;
- a prompt controller broadcasts the mission query to every detector;
- a lister reports the people in the scene grouped by description;
- a screenshotter writes YOLO bounding-box annotations for generated images.

The model has one Dafny module per script, plus three shared modules.

| module | file | script |
|---|---|---|
| `Geometry` | `geometry.dfy` | vectors, bounds, a transform and the sqrt-free distance tests |
| `Wrappers` | `wrappers.dfy` | `Option` and the filtered collection of present values |
| `Text` | `text.dfy` | ASCII lower-casing, ordinal `Contains`, ordinal string order, decimal rendering, join and split |
| `PersonDescriptors` | `person_descriptor.dfy` | `PersonDescriptor.cs`: the two attributes, their random draw and `ShortText` |
| `MatchScore` | `match_score.dfy` | `ComputeMatchScore` of `AttributeDetector.cs`: the keyword policy, term by term |
| `AttributeDetectors` | `attribute_detector.dfy` | `AttributeDetector.cs`: best match in the scene, per-frame detections, screen rectangles, nearest ground point |
| `Coordination` | `coordinator.dfy` | `SimpleMultiDroneCoordinator.cs`: proposals, grouping by person, closest drone wins, clean-up |
| `MissionPrompt` | `mission_prompt.dfy` | `MissionPromptController.cs`: the query broadcast |
| `Flight` | `despegar.dfy` | `Despegar.cs`: the flight state machine (take-off, A-B or free patrol, approach, landing) |
| `DescriptionLister` | `description_lister.dfy` | `PersonDescriptionLister.cs`: grouping, ordering and the report text |
| `Screenshots` | `screenshotter.dfy` | the YOLO annotation part of `Screenshotter.cs` |

Components whose fields change in place are classes with `modifies` clauses:
`PersonDescriptor`, `AttributeDetector`, `SimpleMultiDroneCoordinator`,
`MissionPromptController`, `Despegar` and `PersonDescriptionLister`. The loops of the
source are methods with loop invariants, each proved against a specification function:
- the best-match scan;
- the detection loop;
- the nearest-ground-point scan;
- the coordinator's phases;
- the screen-hull loop over the eight corners.

Lemmas about those functions state what the source promises.

Engine services are inputs, either function-valued parameters or fields of an `Engine` or
`Physics` value: physics overlap and raycasts, `Vector3.Angle`, camera projection and
rays, `MoveTowards`, `Normalize`, `Random` and the clock. Floats are modelled as `real`.
A distance test `Distance(a, b) <= eps` is modelled as the equivalent comparison of
squared distances.

The code is followed where the design description disagrees with it. The description
says that a query asking for "no helmet" gives +0.4 to a person without a helmet, so that
"person, no helmet" scores 0.7 for them. In the code that branch cannot be reached:
"no helmet" contains "helmet" and "sin casco" contains "casco", so such a query always
takes the helmet branch. The model follows the code. `MatchScore.NoHelmetBonusUnreachable`
proves that the bonus never fires. `MatchScoreExamples.NoHelmetQueryExample` proves that
"person, no helmet" scores 0.3 for a person without a helmet and 0.6 for a person with a
yellow helmet.

The scene's own default query, "person with orange jacket and yellow hard hat", contains
neither "helmet" nor "casco". So the helmet part never runs and the hard hat it asks for
earns nothing. `MatchScoreExamples.DefaultQueryIgnoresHelmet` proves that this query scores
1.0 for anyone in an orange jacket and 0.3 for anyone else, whatever their helmet.

The nearest ground point also follows the code as written. `BoundsToScreenRect` stores the
box's y in GUI coordinates, `Screen.height - maxY`, counted from the top
(Assets/Scripts/AttributeDetector.cs:175). `TryGetNearestTargetPoint` passes the box
centre unchanged to `ScreenPointToRay`, which counts y from the bottom
(Assets/Scripts/AttributeDetector.cs:195-196). The ray therefore goes through the
vertically mirrored pixel. `NearestFromSpec` and `TryGetNearestTargetPoint` describe the
point under that mirrored ray, which is not in general the detected person's own ground
point.

## Model

| member | source | states |
|---|---|---|
| `PersonDescriptors.PersonDescriptor.constructor` | Assets/Scripts/PersonDescriptor.cs:10-14 | the defaults are an orange jacket, a yellow helmet and randomisation on |
| `PersonDescriptors.PersonDescriptor.Start` | Assets/Scripts/PersonDescriptor.cs:16-21 | with randomisation off nothing changes; with it on, each attribute is the declared value indexed by a draw in [0, enum size) |
| `PersonDescriptors.PersonDescriptor.Describe` | Assets/Scripts/PersonDescriptor.cs:24-28 | the short text of the person decodes back to their own jacket and helmet |
| `PersonDescriptors.ShortTextDecodes` | Assets/Scripts/PersonDescriptor.cs:24-28 | decoding the short text recovers both attributes (round trip) |
| `PersonDescriptors.ShortTextInjective` | Assets/Scripts/PersonDescriptor.cs:24-28 | different attribute pairs give different texts, so grouping by text groups by attribute pair |
| `PersonDescriptors.ShortTextWithoutHelmet` | Assets/Scripts/PersonDescriptor.cs:26-27 | without a helmet the text ends in "no helmet" instead of "{colour} helmet" |
| `Text.Lower` | Assets/Scripts/AttributeDetector.cs:118 | lower-casing keeps the length and maps each character independently |
| `Text.LowerIdempotent` | Assets/Scripts/AttributeDetector.cs:118 | lower-casing an already lower-cased query changes nothing |
| `Text.ContainsIff` | Assets/Scripts/AttributeDetector.cs:122 | `Contains` holds iff the word occurs at some index |
| `Text.ContainsTransitive` | Assets/Scripts/AttributeDetector.cs:122 | a query containing a word contains every word inside it, so "persona" adds nothing beyond "person" |
| `Text.EmptyContainsNothing` | Assets/Scripts/AttributeDetector.cs:122-151 | the empty query contains no keyword |
| `Text.LexLeTotal` | Assets/Scripts/PersonDescriptionLister.cs:31 | the ordinal key order used by `ThenBy` is total |
| `Text.LexLeAntisymmetric` | Assets/Scripts/PersonDescriptionLister.cs:31 | two keys each at most the other are equal |
| `Text.LexLeTransitive` | Assets/Scripts/PersonDescriptionLister.cs:31 | the ordinal key order is transitive |
| `Text.NatToStringRoundTrip` | Assets/Scripts/PersonDescriptionLister.cs:34 | the printed count reads back as the count |
| `Text.IndexOf` | Assets/Scripts/PersonDescriptionLister.cs:35 | the index is the first occurrence of the separator, or the length when there is none |
| `Text.SplitJoin` | Assets/Scripts/PersonDescriptionLister.cs:35 | joining lines without the separator by "\n" and splitting again gives the lines back |
| `MatchScore.Clamp01` | Assets/Scripts/AttributeDetector.cs:154 | the result is in [0, 1], equals the input inside it and is 1 above it |
| `MatchScore.ComputeMatchScore` | Assets/Scripts/AttributeDetector.cs:116-155 | every score is in [0, 1] |
| `MatchScore.ScoreIgnoresCase` | Assets/Scripts/AttributeDetector.cs:118 | the score depends only on the lower-cased query |
| `MatchScore.BaseTermIff` | Assets/Scripts/AttributeDetector.cs:122 | the +0.3 base is earned iff "person" or "humano" occurs |
| `MatchScore.RequestedJacketIsFirstNamed` | Assets/Scripts/AttributeDetector.cs:131-136 | the else-if chain picks colour c iff c is named and no colour before it in the chain is |
| `MatchScore.JacketTermSpec` | Assets/Scripts/AttributeDetector.cs:125-137 | the jacket term is 0.7 or 0; it is 0.7 iff jackets are scored (no helmet asked for, or a jacket mentioned) and the requested colour is the person's; a helmet-only query scores 0 |
| `MatchScore.HelmetTermSpec` | Assets/Scripts/AttributeDetector.cs:139-151 | the helmet term is 0.4 iff a helmet is asked for and its colour is the person's; it is 0.3 iff a helmet is asked for, the person wears one whose colour is not asked for, and none of "yellow", "white", "orange" occurs; otherwise 0 |
| `MatchScore.NoHelmetBonusUnreachable` | Assets/Scripts/AttributeDetector.cs:147-151 | a person without a helmet never earns helmet credit, whatever the query |
| `MatchScore.NoHelmetQueryRewardsHelmets` | Assets/Scripts/AttributeDetector.cs:145 | a "no helmet" query without colour words gives at least 0.3 to anyone wearing a helmet |
| `MatchScore.HelmetWordsNeedLetters` | Assets/Scripts/AttributeDetector.cs:125 | a query without an 'm' and with at most one 'c' contains neither "helmet" nor "casco", so it does not ask for a helmet |
| `MatchScore.NoHelmetWordNoHelmetTerm` | Assets/Scripts/AttributeDetector.cs:139-151 | a query with neither "helmet" nor "casco" gives no helmet credit to anyone, whatever their helmet |
| `MatchScore.EmptyQueryScoresZero` | Assets/Scripts/AttributeDetector.cs:116-155 | the empty query scores 0 for everyone |
| `MatchScoreExamples.HelmetOnlyQueryScores` | Assets/Scripts/AttributeDetector.cs:122-154 | a query with "person" and "helmet" but no jacket or colour word scores 0.3 without a helmet and 0.6 with a yellow one |
| `MatchScoreExamples.NoHelmetQueryExample` | Assets/Scripts/AttributeDetector.cs:122-154 | "person, no helmet" scores 0.3 without a helmet and 0.6 with a yellow one |
| `MatchScoreExamples.DefaultQueryIgnoresHelmet` | Assets/Scripts/AttributeDetector.cs:116-155 | the default query of line 20 scores 1.0 for an orange jacket and 0.3 for anyone else, whatever the helmet: its yellow hard hat is never scored |
| `AttributeDetectors.AttributeDetector.constructor` | Assets/Scripts/AttributeDetector.cs:8-20 | radius 120, field of view 80, ground plane 0, threshold 0.3, the default query and no detections |
| `AttributeDetectors.BestFromSpec` | Assets/Scripts/AttributeDetector.cs:96-106 | the `>=` scan keeps its start when nobody reaches the floor, and otherwise ends on the last in-scene person with the highest score |
| `AttributeDetectors.BestMatchSpec` | Assets/Scripts/AttributeDetector.cs:93-112 | a match is found iff an in-scene person reaches the threshold, and it is then the last person with the highest score |
| `AttributeDetectors.AttributeDetector.TryFindBestMatchingPerson` | Assets/Scripts/AttributeDetector.cs:87-114 | the loop returns the scan's result at threshold `minConfidence` (or the component's own when negative); found iff someone reaches it; nothing changes |
| `AttributeDetectors.MinOf` | Assets/Scripts/AttributeDetector.cs:168-169 | LINQ `Min`: an element no greater than any other |
| `AttributeDetectors.MaxOf` | Assets/Scripts/AttributeDetector.cs:168-169 | LINQ `Max`: an element no smaller than any other |
| `AttributeDetectors.BoundsToScreenRect` | Assets/Scripts/AttributeDetector.cs:157-176 | width and height are never negative |
| `AttributeDetectors.ScreenRectEncloses` | Assets/Scripts/AttributeDetector.cs:157-176 | the rectangle (y flipped by screen height) holds every projected corner, and each side touches one |
| `AttributeDetectors.GroundHit` | Assets/Scripts/AttributeDetector.cs:195-200 | a hit lies on the plane y = planeY |
| `AttributeDetectors.Candidates` | Assets/Scripts/AttributeDetector.cs:185-186 | exactly the detections with confidence at least the floor |
| `AttributeDetectors.NearestFromGeneral` | Assets/Scripts/AttributeDetector.cs:191-204 | the strict `<` scan keeps its start when nothing is nearer, and otherwise ends on the first nearest hit |
| `AttributeDetectors.NearestFromSpec` | Assets/Scripts/AttributeDetector.cs:191-206 | from the `float.MaxValue` start the scan finds a point iff some candidate hits the plane, and it is the first nearest one |
| `AttributeDetectors.NearestGroundPoint` | Assets/Scripts/AttributeDetector.cs:193-204 | the loop computes the scan over the candidates' ground hits |
| `AttributeDetectors.AttributeDetector.TryGetNearestTargetPoint` | Assets/Scripts/AttributeDetector.cs:179-208 | succeeds iff some candidate above max(minConfidence, threshold) hits the plane; the point is then on the plane and the first nearest to the drone |
| `AttributeDetectors.Perceive` | Assets/Scripts/AttributeDetector.cs:59-82 | a detection passed every filter: confidence between the threshold and 1, box wider and taller than one pixel |
| `AttributeDetectors.DetectionsAreFiltered` | Assets/Scripts/AttributeDetector.cs:57-83 | at most one detection per overlap hit; each comes from an overlap hit and passed every filter |
| `AttributeDetectors.DetectionsOfSplit` | Assets/Scripts/AttributeDetector.cs:57-83 | a person yielding nothing can be removed without effect; one yielding a detection contributes exactly it, in place |
| `AttributeDetectors.RepeatedHitRepeatsDetection` | Assets/Scripts/AttributeDetector.cs:53-57 | a person the overlap scan returns twice (two colliders in range) who passes every filter is detected twice, since nothing removes repeats |
| `AttributeDetectors.HiddenPersonAddsNothing` | Assets/Scripts/AttributeDetector.cs:61-67 | a person outside half the field of view or behind an occluder adds no detection |
| `AttributeDetectors.PerceiveOne` | Assets/Scripts/AttributeDetector.cs:59-82 | one overlap hit's filter chain with early exits (field of view, line of sight, score threshold, renderer, minimum box) gives exactly that person's perception |
| `AttributeDetectors.DetectAll` | Assets/Scripts/AttributeDetector.cs:57-83 | the loop over the overlap hits keeps exactly the detections of the hits that pass, in hit order |
| `AttributeDetectors.AttributeDetector.SimulateDetections` | Assets/Scripts/AttributeDetector.cs:47-84 | without camera or drone the list is empty, otherwise it holds the filtered detections of the overlap hits in order |
| `Coordination.DroneTransform` | Assets/Scripts/SimpleMultiDroneCoordinator.cs:109-114 | null iff the detector is null; the drone when set, else the detector's own transform |
| `Coordination.DesireInScene` | Assets/Scripts/SimpleMultiDroneCoordinator.cs:45-46 | a proposal is one of the people scanned and in a loaded scene |
| `Coordination.NonNull` | Assets/Scripts/SimpleMultiDroneCoordinator.cs:37-38 | exactly the non-null detectors found |
| `Coordination.Group` | Assets/Scripts/SimpleMultiDroneCoordinator.cs:50-57 | the contenders for a person are exactly the detectors proposing it |
| `Coordination.FirstClosestUnique` | Assets/Scripts/SimpleMultiDroneCoordinator.cs:66-75 | the winner of a group is determined uniquely |
| `Coordination.FirstClosestExists` | Assets/Scripts/SimpleMultiDroneCoordinator.cs:66-77 | every non-empty group has a winner |
| `Coordination.ResolvedInGroup` | Assets/Scripts/SimpleMultiDroneCoordinator.cs:77-88 | in a group the first closest contender gets the person and the others get null |
| `Coordination.NoSharedTarget` | Assets/Scripts/SimpleMultiDroneCoordinator.cs:59-89 | no two detectors are assigned the same person |
| `Coordination.EachProposalAssignedOnce` | Assets/Scripts/SimpleMultiDroneCoordinator.cs:59-96 | every proposed person goes to one of its proposers, and a detector is assigned only its own proposal or null |
| `Coordination.AssignmentsResolved` | Assets/Scripts/SimpleMultiDroneCoordinator.cs:59-106 | resolving, clearing and pruning leave exactly the resolved table, whatever it held before |
| `Coordination.ClaimsProposed` | Assets/Scripts/SimpleMultiDroneCoordinator.cs:49-80 | the persons claimed are exactly the proposals |
| `Coordination.ProposeTargets` | Assets/Scripts/SimpleMultiDroneCoordinator.cs:41-47 | one proposal per detector: its best match at its own threshold, if in a loaded scene |
| `Coordination.GroupByTarget` | Assets/Scripts/SimpleMultiDroneCoordinator.cs:49-57 | one non-empty group per proposed person, holding exactly its proposers in order |
| `Coordination.ClosestContender` | Assets/Scripts/SimpleMultiDroneCoordinator.cs:66-75 | the winner is null iff there are no contenders, else the first strictly closest |
| `Coordination.ResolveConflicts` | Assets/Scripts/SimpleMultiDroneCoordinator.cs:59-89 | claimed targets are the groups' persons; contenders get their resolved value, others keep theirs |
| `Coordination.ClearUnproposed` | Assets/Scripts/SimpleMultiDroneCoordinator.cs:91-96 | detectors without a proposal are set to null, others unchanged |
| `Coordination.PruneAssignments` | Assets/Scripts/SimpleMultiDroneCoordinator.cs:98-106 | entries of vanished detectors are removed; a person that left its scene becomes null |
| `Coordination.ResolveAll` | Assets/Scripts/SimpleMultiDroneCoordinator.cs:59-106 | the phases after the proposals give the resolved table and claim every proposal |
| `Coordination.SimpleMultiDroneCoordinator.constructor` | Assets/Scripts/SimpleMultiDroneCoordinator.cs:9-22 | enabled, interval 0.5, inactive included, last time -999, empty tables |
| `Coordination.SimpleMultiDroneCoordinator.Update` | Assets/Scripts/SimpleMultiDroneCoordinator.cs:26-32 | reassesses only when enabled and max(0.02, interval) has passed, stamping the time and replacing the tables by the resolved round; otherwise nothing changes; the settings never change |
| `Coordination.SimpleMultiDroneCoordinator.ReassessAssignments` | Assets/Scripts/SimpleMultiDroneCoordinator.cs:34-107 | the detectors are the non-null ones found, the table becomes the resolved table of this round, the claims are the proposals |
| `MissionPrompt.Normalized` | Assets/Scripts/MissionPromptController.cs:41 | a null query becomes the empty string, any other is kept |
| `MissionPrompt.MissionPromptController.constructor` | Assets/Scripts/MissionPromptController.cs:7-14 | the default query and apply-on-start; no prompt text yet |
| `MissionPrompt.MissionPromptController.Awake` | Assets/Scripts/MissionPromptController.cs:16-19 | the prompt text becomes the default query |
| `MissionPrompt.MissionPromptController.SetMissionQuery` | Assets/Scripts/MissionPromptController.cs:39-50 | every non-null detector found gets the normalised query, nothing else of it changes, and the prompt shows it |
| `MissionPrompt.MissionPromptController.OnUIEndEdit` | Assets/Scripts/MissionPromptController.cs:28-31 | the same broadcast as `SetMissionQuery` |
| `MissionPrompt.MissionPromptController.ApplyDefaultMissionQuery` | Assets/Scripts/MissionPromptController.cs:52-55 | broadcasts the default query |
| `MissionPrompt.MissionPromptController.Start` | Assets/Scripts/MissionPromptController.cs:21-25 | broadcasts the default query when apply-on-start is set, otherwise changes nothing |
| `Flight.RangeBetween` | Assets/Scripts/Despegar.cs:212-213 | `Random.Range` stays between its bounds, in either order |
| `Flight.RouteAtCruiseHeight` | Assets/Scripts/Despegar.cs:123-162 | the route has two points, both at cruise height; explicit points keep their horizontal position |
| `Flight.RouteAreaSymmetric` | Assets/Scripts/Despegar.cs:132-157 | with an area the points are symmetric about its centre on the chosen axis, at extent minus margin |
| `Flight.RouteInsideArea` | Assets/Scripts/Despegar.cs:132-157 | with a margin no larger than the extents both points lie inside the area |
| `Flight.RouteFallback` | Assets/Scripts/Despegar.cs:159-161 | without points or area, 20 m either side of the origin along x |
| `Flight.RandomPointInside` | Assets/Scripts/Despegar.cs:207-222 | a random destination is at cruise height, inside the inset area or within max(1, radius) of the origin |
| `Flight.LandingDirUnitOrZero` | Assets/Scripts/Despegar.cs:234-236 | the landing direction is horizontal and a unit vector or zero |
| `Flight.LandingDirTowardsDrone` | Assets/Scripts/Despegar.cs:234-236 | at least 0.1 m away, it points from the person towards the drone |
| `Flight.LandingDirFar` | Assets/Scripts/Despegar.cs:235 | at least 0.1 m away no random direction is drawn |
| `Flight.LandingPointOffset` | Assets/Scripts/Despegar.cs:238-243 | the landing point is `offset` times the direction's length from the person horizontally |
| `Flight.LandingPointSpec` | Assets/Scripts/Despegar.cs:228-243 | the landing point is `offset` from the person towards the drone (or at the person for a degenerate direction), on the ground or at the origin's ground level |
| `Flight.LandedIsTerminal` | Assets/Scripts/Despegar.cs:110-120 | once landed, every later state is landed |
| `Flight.LandingIsFinal` | Assets/Scripts/Despegar.cs:110-120 | once landing, the drone only lands or stays landed |
| `Flight.LandingFollowsApproach` | Assets/Scripts/Despegar.cs:110-120 | from take-off or patrol, landing is always preceded by an approach |
| `Flight.Despegar.constructor` | Assets/Scripts/Despegar.cs:8-65 | the field initialisers, an idle state and two patrol points |
| `Flight.Despegar.MoverHacia` | Assets/Scripts/Despegar.cs:282-293 | the position is one `MoveTowards` step at `velocidad * deltaTime` |
| `Flight.Despegar.ConfigurarRutaAB` | Assets/Scripts/Despegar.cs:123-162 | the two patrol points become the route for the current settings |
| `Flight.Despegar.ElegirNuevoDestinoLibre` | Assets/Scripts/Despegar.cs:201-205 | a new random destination, stamped with the time |
| `Flight.Despegar.MeasureOrigin` | Assets/Scripts/Despegar.cs:69-78 | origin, ground level under it (or its own height) and cruise height above it |
| `Flight.Despegar.AcquireInitialTarget` | Assets/Scripts/Despegar.cs:81-92 | with detection on, a missing detector is found and asked once; otherwise no target |
| `Flight.Despegar.BeginMission` | Assets/Scripts/Despegar.cs:95-107 | a live target means approach, otherwise the patrol is prepared and the drone takes off |
| `Flight.Despegar.Start` | Assets/Scripts/Despegar.cs:67-108 | records the origin, ground level and cruise height; the target is the detector's first sighting; a live target means approach with the route untouched, otherwise take-off with a random destination (free search) or the A-B route |
| `Flight.Despegar.ActualizarTakeoff` | Assets/Scripts/Despegar.cs:165-171 | climbs straight up; at cruise height goes to approach with a target and to patrol otherwise |
| `Flight.Despegar.ActualizarPatrullaAB` | Assets/Scripts/Despegar.cs:174-186 | flies to the current end at cruise height and switches ends within `epsPos` |
| `Flight.Despegar.ActualizarBusquedaLibre` | Assets/Scripts/Despegar.cs:189-199 | picks a new destination when the time is up or the current one is reached, then flies to it |
| `Flight.Despegar.ActualizarApproach` | Assets/Scripts/Despegar.cs:224-247 | without a target back to patrol; else flies over it and, within 0.8 m, fixes the landing point and lands |
| `Flight.Despegar.ActualizarLand` | Assets/Scripts/Despegar.cs:249-262 | cruises until within 0.5 m horizontally, then descends; within `epsPos + 0.05` it has landed |
| `Flight.Despegar.BuscarHumano` | Assets/Scripts/Despegar.cs:265-279 | polls once per interval; a match becomes the target and starts the approach |
| `Flight.Despegar.PatrolFrame` | Assets/Scripts/Despegar.cs:115 | a patrol frame: the free-search or A-B step's new position and route state, then the poll, which ends the frame in approach exactly when it was due and found someone |
| `Flight.Despegar.Update` | Assets/Scripts/Despegar.cs:110-120 | each frame makes one allowed transition and writes only position, state and the state's own fields: take-off, A-B or free-search patrol, approach and landing each give the new position and state of their step; a patrol frame moves and then polls, ending in approach on a match; idle and landed change nothing |
| `DescriptionLister.AddTextKeys` | Assets/Scripts/PersonDescriptionLister.cs:29 | adding a text keeps the keys in first-seen order, appending a new key |
| `DescriptionLister.AddTextCounts` | Assets/Scripts/PersonDescriptionLister.cs:29 | adding a text raises its count by one and no other count |
| `DescriptionLister.GroupsOfSpec` | Assets/Scripts/PersonDescriptionLister.cs:29 | `GroupBy`: distinct keys, exactly the texts present, each count the number of occurrences, counts summing to the number of people |
| `DescriptionLister.BeforeTotal` | Assets/Scripts/PersonDescriptionLister.cs:30-31 | any two groups are comparable by count descending, then key |
| `DescriptionLister.BeforeTransitive` | Assets/Scripts/PersonDescriptionLister.cs:30-31 | that order is transitive |
| `DescriptionLister.BeforeAntisymmetric` | Assets/Scripts/PersonDescriptionLister.cs:30-31 | groups ordered both ways share their key |
| `DescriptionLister.SortSpec` | Assets/Scripts/PersonDescriptionLister.cs:30-31 | the sort is ordered and a permutation |
| `DescriptionLister.GroupedSpec` | Assets/Scripts/PersonDescriptionLister.cs:29-31 | the ordered groups have distinct keys (exactly the texts), true counts summing to the number of people, in order |
| `DescriptionLister.OrderedUnique` | Assets/Scripts/PersonDescriptionLister.cs:30-31 | two ordered permutations of groups with distinct keys are equal |
| `DescriptionLister.GroupedOrderUnique` | Assets/Scripts/PersonDescriptionLister.cs:29-31 | any ordered arrangement of the groups is the model's, so the order is fully determined |
| `DescriptionLister.GroupedLines` | Assets/Scripts/PersonDescriptionLister.cs:33-34 | one "{key} x{count}" line per ordered group |
| `DescriptionLister.PersonLines` | Assets/Scripts/PersonDescriptionLister.cs:39 | one "{name}: {text}" line per person |
| `DescriptionLister.EmptyReport` | Assets/Scripts/PersonDescriptionLister.cs:35-40 | no people give an empty report |
| `DescriptionLister.GroupedReportSplits` | Assets/Scripts/PersonDescriptionLister.cs:33-35 | splitting the grouped report at "\n" gives back its lines |
| `DescriptionLister.PersonReportSplits` | Assets/Scripts/PersonDescriptionLister.cs:39-40 | splitting the ungrouped report at "\n" gives back its lines |
| `DescriptionLister.Texts` | Assets/Scripts/PersonDescriptionLister.cs:29 | each person's short text, in order |
| `DescriptionLister.Names` | Assets/Scripts/PersonDescriptionLister.cs:39 | each person's name, in order |
| `DescriptionLister.PeopleReportSplits` | Assets/Scripts/PersonDescriptionLister.cs:27-35 | the grouped report of a scene splits into its group lines |
| `DescriptionLister.PersonDescriptionLister.constructor` | Assets/Scripts/PersonDescriptionLister.cs:9-15 | every option on, empty report |
| `DescriptionLister.PersonDescriptionLister.Refresh` | Assets/Scripts/PersonDescriptionLister.cs:24-45 | the report is the grouped or ungrouped report of the people |
| `DescriptionLister.PersonDescriptionLister.Start` | Assets/Scripts/PersonDescriptionLister.cs:17-21 | refreshes when auto-refresh is on, otherwise keeps the report |
| `Screenshots.Corners` | Assets/Scripts/Screenshotter.cs:357-366 | eight corners, corner i taking max x when bit 0 is set, max y for bit 1, max z for bit 2 |
| `Screenshots.RunningMin` | Assets/Scripts/Screenshotter.cs:368-378 | the running minimum is at most the start and every value, and is the start or a value |
| `Screenshots.RunningMax` | Assets/Scripts/Screenshotter.cs:368-378 | the running maximum is at least the start and every value, and is the start or a value |
| `Screenshots.ScreenHull` | Assets/Scripts/Screenshotter.cs:368-378 | the loop gives the running extremes from the `float.MaxValue`/`MinValue` sentinels |
| `Screenshots.ExtentOrdered` | Assets/Scripts/Screenshotter.cs:368-378 | after the loop min is at most max on both axes |
| `Screenshots.SentinelReplaced` | Assets/Scripts/Screenshotter.cs:368-378 | with finite projections both extremes are actual projected values |
| `Screenshots.ExtentIsHull` | Assets/Scripts/Screenshotter.cs:368-378 | the extent contains every projected corner and each bound is attained |
| `Screenshots.GetYoloLine` | Assets/Scripts/Screenshotter.cs:353-395 | the line is the YOLO box of the renderer, carrying the class id given |
| `Screenshots.YoloBoxSpec` | Assets/Scripts/Screenshotter.cs:353-395 | a box exists iff the renderer is visible and on screen; it keeps its class id, has non-negative size, reaches into the unit square and de-normalises to the screen extent |
| `Screenshots.NormalizeSpec` | Assets/Scripts/Screenshotter.cs:383-392 | normalising then de-normalising gives back the extent (y measured from the top) |
| `Screenshots.AxisRoundTrip` | Assets/Scripts/Screenshotter.cs:383-392 | per axis, centre and size over the screen size give back both bounds |
| `Screenshots.ClassIdRoundTrip` | Assets/Scripts/Screenshotter.cs:338-348 | the class-id layout (materials, then hats, then accessories) decodes back to the part and index |
| `Screenshots.ClassIdInjective` | Assets/Scripts/Screenshotter.cs:338-348 | different parts or indices never share a class id |
| `Screenshots.WriteAnnotationFile` | Assets/Scripts/Screenshotter.cs:333-351 | the file holds the body, hat and accessory lines that exist, in that order, at most three, with strictly increasing class ids |

## Left out

- Engine queries are inputs: `FindObjectsOfType`, `Resources.FindObjectsOfTypeAll`, `Physics.OverlapSphere`, raycasts, `Vector3.Angle`, `WorldToScreenPoint`, `ScreenPointToRay`, `Time.time` and `Time.deltaTime`. Only what the code relies on is assumed of them, for example that `Normalize` gives a unit vector or zero.
- `Random.Range` and `Random.insideUnitCircle`/`insideUnitSphere` are sample functions passed in. Only their documented ranges are assumed.
- AttributeDetectors.DetectionsAreFiltered: bounds the detections by the overlap hits, not by the people. As in the source (no `Distinct` after `GetComponentInParent`), a person with several colliders in range is perceived once per collider, so the list can hold the same person more than once.
- Float rounding is not modelled: scores, positions and screen coordinates are reals.
- Flight.Despegar.MoverHacia: the turn towards the heading (`LookRotation` and `Slerp`) is not modelled. Only the position step is.
- `ToLowerInvariant` and `Contains` are modelled as ASCII lower-casing and ordinal search. `ThenBy(g => g.Key)` is modelled as ordinal string order, which differs from .NET's default culture-aware comparer: ordinal order puts "Orange jacket, Orange helmet" before "Orange jacket, no helmet" (upper-case letters come first), the culture-aware comparer the other way round. Culture-sensitive comparison and non-ASCII letters are out of scope.
- Squared distances replace `Vector3.Distance` and `Vector2.Distance` in comparisons, which gives the same order and the same threshold tests.
- AttributeDetectors.AttributeDetector.TryGetNearestTargetPoint: the `float.MaxValue` start of the scan is `None`, so a hit beyond `float.MaxValue` is not modelled. The method requires a camera and a drone when candidates exist; without them the source throws a null-reference exception, and that is not modelled.
- Screenshots.GetYoloLine: the screen width and height are required to be positive, since the source divides by them. The line's float formatting is not modelled; the line is a `YoloBox` value.
- Screenshots.WriteAnnotationFile: the `StreamWriter` is not modelled. The file is the sequence of lines written.
- The rest of `Screenshotter.cs` is not part of this model: camera placement, NPC configuration, material and hat swapping, capture and file naming, `TakeAllScreenshots`. It is scene plumbing and I/O around the annotation.
- `NPCSpawner.cs` and `SharedConfigs.cs` are not part of this model: they place people in the scene and hold shared settings.
- `OnGUI` and the `ContextMenu` entries are editor and UI entry points that call modelled methods. The prompt's Apply button calls `SetMissionQuery`, its "Apply Default Mission Query" entry calls `ApplyDefaultMissionQuery`, and the lister's "Refresh Now" entry calls `Refresh`. The model does not capture `OnGUI` copying the text field into `runtimeText` on every GUI pass, nor the `useRuntimeGUI` and `guiRect` settings.
- Gizmos, `Debug.Log` and the hidden `marcadorObjetivo` marker object draw or log only, and are left out. The marker is created in `Despegar.Start` and never read again.
- Coordination.SimpleMultiDroneCoordinator.ReassessAssignments: the phases work on local tables and store them at the end. `GetDroneTransform` never returns null for a non-null detector, so the `droneTf == null` skip is not modelled. The desired-table enumeration order is taken as the detector order. A destroyed detector key is modelled as one no longer among the detectors found.
- Coordination.SimpleMultiDroneCoordinator.Update: the time stamp is written after the reassessment instead of before. The reassessment does not read it.
- Flight.Despegar.Start: split into three methods (`MeasureOrigin`, `AcquireInitialTarget`, `BeginMission`) that run in the source's order.
- DescriptionLister.PersonDescriptionLister.Refresh: `GetScenePersons` and its `includeInactive` filter are replaced by the list of people passed in. The console log is not modelled.
- MissionPrompt.MissionPromptController.SetMissionQuery: the detectors found are passed in. The log line is not modelled.
- PersonDescriptors.PersonDescriptor.Start: the two `Random.Range` draws come from a function passed in. The enum sizes are 6 and 4.
