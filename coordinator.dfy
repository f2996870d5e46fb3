/**
 * Assets/Scripts/SimpleMultiDroneCoordinator.cs: keeps several drones from chasing the same
 * person. Every reassessment asks each detector for its best match, groups the detectors by
 * the person they want, lets the closest drone of each group keep its person and leaves the
 * others without one.
 *
 * The people are `PersonDescriptor` objects (the source keys its tables by their
 * `Transform`s, which stand for the same objects).
 */
module Coordination {
  import opened Wrappers
  import opened Geometry
  import opened PersonDescriptors
  import opened AttributeDetectors

  /** `GetDroneTransform`: the drone's transform when the detector has one, else the
   *  detector's own; null only for a null detector. */
  function DroneTransform(d: AttributeDetector?): (tf: Transform?)
    reads d
    ensures tf == null <==> d == null
    ensures d != null ==> tf == d.drone || tf == d.transform
    ensures d != null && d.drone != null ==> tf == d.drone
  {
    if d == null then null
    else if d.drone != null then d.drone
    else d.transform
  }

  /** The squared distance from a detector's drone to a person; `Vector3.Distance` compares
   *  the same way. */
  function DistTo(d: AttributeDetector, t: PersonDescriptor): real
    reads d, d.drone, d.transform, t
  {
    DistSq(DroneTransform(d).position, t.position)
  }

  /** The person a detector proposes: its best match at its own threshold, if any. */
  function Desire(d: AttributeDetector, persons: seq<PersonDescriptor?>): PersonDescriptor?
    reads d, persons
  {
    BestFrom(persons, d.missionQuery, Threshold(d.confidenceThreshold, d.confidenceThreshold), null)
  }

  /** A proposal is always one of the people scanned, and in a loaded scene. */
  lemma DesireInScene(d: AttributeDetector, persons: seq<PersonDescriptor?>)
    ensures Desire(d, persons) != null ==> Desire(d, persons) in persons && InScene(Desire(d, persons))
  {
    BestMatchSpec(persons, d.missionQuery, Threshold(d.confidenceThreshold, d.confidenceThreshold));
  }

  /** The same, for every detector at once. */
  lemma ProposalsInScene(ds: seq<AttributeDetector>, persons: seq<PersonDescriptor?>)
    ensures forall d | d in ds && Desire(d, persons) != null :: Desire(d, persons) in persons && InScene(Desire(d, persons))
  {
    forall d | d in ds && Desire(d, persons) != null
      ensures Desire(d, persons) in persons && InScene(Desire(d, persons))
    {
      DesireInScene(d, persons);
    }
  }

  // ---------- the resolution, on values ----------

  /** `found.Where(d => d != null)`. */
  function NonNull(found: seq<AttributeDetector?>): (ds: seq<AttributeDetector>)
    ensures |ds| <= |found|
    ensures forall i | 0 <= i < |ds| :: ds[i] in found
    ensures forall i | 0 <= i < |found| && found[i] != null :: found[i] in ds
    decreases |found|
  {
    if found == [] then []
    else
      var last := found[|found| - 1];
      NonNull(found[..|found| - 1]) + (if last != null then [last] else [])
  }

  /** Every detector has a proposal, and every detector proposing someone has a distance. */
  predicate Covers(ds: seq<AttributeDetector>, want: map<AttributeDetector, PersonDescriptor?>, dist: map<AttributeDetector, real>)
  {
    && (forall d | d in ds :: d in want)
    && (forall d | d in ds && d in want && want[d] != null :: d in dist)
  }

  /** The contenders for `t`: the detectors proposing it, in detector order. */
  function Group(ds: seq<AttributeDetector>, want: map<AttributeDetector, PersonDescriptor?>, t: PersonDescriptor): (g: seq<AttributeDetector>)
    requires forall d | d in ds :: d in want
    ensures |g| <= |ds|
    ensures forall i | 0 <= i < |g| :: g[i] in ds && want[g[i]] == t
    ensures forall i | 0 <= i < |ds| && want[ds[i]] == t :: ds[i] in g
    decreases |ds|
  {
    if ds == [] then []
    else
      var last := ds[|ds| - 1];
      Group(ds[..|ds| - 1], want, t) + (if want[last] == t then [last] else [])
  }

  /** Nobody proposing the person gives an empty group. */
  lemma {:induction false} GroupEmpty(ds: seq<AttributeDetector>, want: map<AttributeDetector, PersonDescriptor?>, t: PersonDescriptor)
    requires forall d | d in ds :: d in want
    requires forall j | 0 <= j < |ds| :: want[ds[j]] != t
    ensures Group(ds, want, t) == []
    decreases |ds|
  {
    if ds != [] {
      GroupEmpty(ds[..|ds| - 1], want, t);
    }
  }

  /** Membership in a group, stated per detector. */
  lemma GroupMembers(ds: seq<AttributeDetector>, want: map<AttributeDetector, PersonDescriptor?>, t: PersonDescriptor)
    requires forall d | d in ds :: d in want
    ensures forall d :: d in Group(ds, want, t) <==> d in ds && want[d] == t
  {
    var g := Group(ds, want, t);
    forall d | d in ds && want[d] == t ensures d in g {
      var i :| 0 <= i < |ds| && ds[i] == d;
    }
  }

  /** `k` is the first contender at the smallest distance: strictly closer than every earlier
   *  one, no farther than every later one. */
  predicate IsFirstClosest(cs: seq<AttributeDetector>, dist: map<AttributeDetector, real>, k: int)
    requires forall c | c in cs :: c in dist
  {
    && 0 <= k < |cs|
    && (forall j :: 0 <= j < k ==> dist[cs[k]] < dist[cs[j]])
    && (forall j :: k < j < |cs| ==> dist[cs[k]] <= dist[cs[j]])
  }

  /** There is only one first closest contender. */
  lemma FirstClosestUnique(cs: seq<AttributeDetector>, dist: map<AttributeDetector, real>, k1: int, k2: int)
    requires forall c | c in cs :: c in dist
    requires IsFirstClosest(cs, dist, k1) && IsFirstClosest(cs, dist, k2)
    ensures k1 == k2
  {
    var c1, c2 := cs[k1], cs[k2];
    assert dist[c1] <= dist[c2] && dist[c2] <= dist[c1];
  }

  /** Every non-empty group has a first closest contender. */
  lemma {:induction false} FirstClosestExists(cs: seq<AttributeDetector>, dist: map<AttributeDetector, real>)
    requires forall c | c in cs :: c in dist
    requires cs != []
    ensures exists k :: IsFirstClosest(cs, dist, k)
    decreases |cs|
  {
    if |cs| == 1 {
      assert IsFirstClosest(cs, dist, 0);
    } else {
      var init := cs[..|cs| - 1];
      var last := cs[|cs| - 1];
      FirstClosestExists(init, dist);
      var k :| IsFirstClosest(init, dist, k);
      if dist[last] < dist[init[k]] {
        forall j | 0 <= j < |cs| - 1 ensures dist[last] < dist[cs[j]] {
          assert cs[j] == init[j];
          if j > k {
            assert dist[init[k]] <= dist[init[j]];
          }
        }
        assert IsFirstClosest(cs, dist, |cs| - 1);
      } else {
        forall j | 0 <= j < k ensures dist[cs[k]] < dist[cs[j]] {
          assert cs[j] == init[j];
        }
        forall j | k < j < |cs| ensures dist[cs[k]] <= dist[cs[j]] {
          if j < |cs| - 1 {
            assert cs[j] == init[j];
          }
        }
        assert IsFirstClosest(cs, dist, k);
      }
    }
  }

  /** Detector `d` keeps its proposal: it is the first closest contender for it. */
  predicate Wins(ds: seq<AttributeDetector>, want: map<AttributeDetector, PersonDescriptor?>, dist: map<AttributeDetector, real>, d: AttributeDetector)
    requires Covers(ds, want, dist)
  {
    && d in ds && want[d] != null
    && var g := Group(ds, want, want[d]);
      exists k :: 0 <= k < |g| && g[k] == d && IsFirstClosest(g, dist, k)
  }

  /** What a detector is assigned after a reassessment. */
  function ResolvedFor(ds: seq<AttributeDetector>, want: map<AttributeDetector, PersonDescriptor?>, dist: map<AttributeDetector, real>, d: AttributeDetector): PersonDescriptor?
    requires Covers(ds, want, dist)
  {
    if Wins(ds, want, dist, d) then want[d] else null
  }

  /** The assignment table after a reassessment: one entry per detector. */
  function Resolved(ds: seq<AttributeDetector>, want: map<AttributeDetector, PersonDescriptor?>, dist: map<AttributeDetector, real>): map<AttributeDetector, PersonDescriptor?>
    requires Covers(ds, want, dist)
  {
    map d | d in ds :: ResolvedFor(ds, want, dist, d)
  }

  /** Within one group the first closest contender is assigned the person, every other
   *  contender nothing. */
  lemma ResolvedInGroup(ds: seq<AttributeDetector>, want: map<AttributeDetector, PersonDescriptor?>, dist: map<AttributeDetector, real>,
                        t: PersonDescriptor, k: int)
    requires Covers(ds, want, dist)
    requires forall c | c in Group(ds, want, t) :: c in dist
    requires IsFirstClosest(Group(ds, want, t), dist, k)
    ensures forall d | d in Group(ds, want, t) :: ResolvedFor(ds, want, dist, d) == if d == Group(ds, want, t)[k] then t else null
  {
    var g := Group(ds, want, t);
    forall d | d in g ensures ResolvedFor(ds, want, dist, d) == if d == g[k] then t else null {
      assert want[d] == t;
      if d != g[k] && Wins(ds, want, dist, d) {
        var k2 :| 0 <= k2 < |g| && g[k2] == d && IsFirstClosest(g, dist, k2);
        FirstClosestUnique(g, dist, k, k2);
      }
    }
  }

  /** No two detectors are assigned the same person. */
  lemma NoSharedTarget(ds: seq<AttributeDetector>, want: map<AttributeDetector, PersonDescriptor?>, dist: map<AttributeDetector, real>,
                       d1: AttributeDetector, d2: AttributeDetector)
    requires Covers(ds, want, dist) && d1 in ds && d2 in ds
    requires ResolvedFor(ds, want, dist, d1) != null && ResolvedFor(ds, want, dist, d1) == ResolvedFor(ds, want, dist, d2)
    ensures d1 == d2
  {
    var t := want[d1];
    var g := Group(ds, want, t);
    var k1 :| 0 <= k1 < |g| && g[k1] == d1 && IsFirstClosest(g, dist, k1);
    var k2 :| 0 <= k2 < |g| && g[k2] == d2 && IsFirstClosest(g, dist, k2);
    FirstClosestUnique(g, dist, k1, k2);
  }

  /** Every proposed person is assigned to exactly one of the detectors proposing it, and a
   *  detector is only ever assigned its own proposal. */
  lemma EachProposalAssignedOnce(ds: seq<AttributeDetector>, want: map<AttributeDetector, PersonDescriptor?>, dist: map<AttributeDetector, real>,
                                 d: AttributeDetector)
    requires Covers(ds, want, dist) && d in ds && want[d] != null
    ensures exists w :: w in ds && want[w] == want[d] && ResolvedFor(ds, want, dist, w) == want[d]
    ensures ResolvedFor(ds, want, dist, d) == null || ResolvedFor(ds, want, dist, d) == want[d]
  {
    var t := want[d];
    var g := Group(ds, want, t);
    assert d in g;
    FirstClosestExists(g, dist);
    var k :| IsFirstClosest(g, dist, k);
    ResolvedInGroup(ds, want, dist, t, k);
    assert g[k] in g;
  }

  /** The phases of a reassessment, composed: resolving the groups, clearing the detectors
   *  without a proposal and pruning leave exactly the resolved table, whatever the table was
   *  before, provided every proposal is a person in a loaded scene. */
  lemma AssignmentsResolved(ds: seq<AttributeDetector>, want: map<AttributeDetector, PersonDescriptor?>, dist: map<AttributeDetector, real>,
                            ca0: map<AttributeDetector, PersonDescriptor?>, ca1: map<AttributeDetector, PersonDescriptor?>,
                            ca2: map<AttributeDetector, PersonDescriptor?>, ca3: map<AttributeDetector, PersonDescriptor?>)
    requires Covers(ds, want, dist)
    requires forall d :: d in ca1 <==> d in ca0 || (d in ds && want[d] != null)
    requires forall d | d in ca1 :: ca1[d] == if d in ds && want[d] != null then Resolved(ds, want, dist)[d] else ca0[d]
    requires forall d :: d in ca2 <==> d in ca1 || (d in ds && want[d] == null)
    requires forall d | d in ca2 :: ca2[d] == if d in ds && want[d] == null then null else ca1[d]
    requires forall d | d in ds && want[d] != null :: InScene(want[d])
    requires forall d :: d in ca3 <==> d in ca2 && d in ds
    requires forall d | d in ca3 :: ca3[d] == if InScene(ca2[d]) then ca2[d] else null
    ensures ca3 == Resolved(ds, want, dist)
  {
    var r := Resolved(ds, want, dist);
    forall d | d in ds && want[d] == null ensures r[d] == null {
    }
    assert ca3.Keys == r.Keys;
  }

  /** The persons claimed are exactly the proposals. */
  lemma ClaimsProposed(ds: seq<AttributeDetector>, want: map<AttributeDetector, PersonDescriptor?>, byTarget: map<PersonDescriptor, seq<AttributeDetector>>)
    requires forall d | d in ds :: d in want
    requires forall d | d in ds && want[d] != null :: want[d] in byTarget
    requires forall t | t in byTarget :: byTarget[t] == Group(ds, want, t) && byTarget[t] != []
    ensures byTarget.Keys == set d | d in ds && want[d] != null :: want[d]
  {
    forall t | t in byTarget ensures exists d :: d in ds && want[d] == t {
      var g := byTarget[t];
      assert g[0] in ds && want[g[0]] == t;
    }
  }

  // ---------- the phases of a reassessment ----------
  // Each phase works on the tables it is given and returns the new ones; the reassessment
  // stores the result in the coordinator's fields.

  /** The proposals: each detector's best match at its own threshold, kept only when it is
   *  a person in a loaded scene. */
  method ProposeTargets(ds: seq<AttributeDetector>, persons: seq<PersonDescriptor?>) returns (desired: map<AttributeDetector, PersonDescriptor?>)
    ensures forall d :: d in desired <==> d in ds
    ensures forall d | d in desired :: desired[d] == Desire(d, persons)
  {
    desired := map[];
    for i := 0 to |ds|
      invariant forall d :: d in desired <==> d in ds[..i]
      invariant forall d | d in desired :: desired[d] == Desire(d, persons)
    {
      var d := ds[i];
      var ok, t := d.TryFindBestMatchingPerson(persons, d.confidenceThreshold);
      desired := desired[d := if ok && t != null && InScene(t) then t else null];
      assert ds[..i + 1] == ds[..i] + [d];
    }
    assert ds[..|ds|] == ds;
  }

  /** The groups: for each proposed person, the detectors proposing it, in order. The
   *  source enumerates the proposal table, whose order is the detectors' order. */
  method GroupByTarget(ds: seq<AttributeDetector>, desired: map<AttributeDetector, PersonDescriptor?>)
    returns (byTarget: map<PersonDescriptor, seq<AttributeDetector>>)
    requires forall d | d in ds :: d in desired
    ensures forall d | d in ds && desired[d] != null :: desired[d] in byTarget
    ensures forall t | t in byTarget :: byTarget[t] == Group(ds, desired, t) && byTarget[t] != []
  {
    byTarget := map[];
    for i := 0 to |ds|
      invariant forall j | 0 <= j < i && desired[ds[j]] != null :: desired[ds[j]] in byTarget
      invariant forall t | t in byTarget :: byTarget[t] == Group(ds[..i], desired, t) && byTarget[t] != []
    {
      var det := ds[i];
      var target := desired[det];
      assert ds[..i + 1][..i] == ds[..i];
      if target == null {
        continue;
      }
      if target !in byTarget {
        GroupEmpty(ds[..i], desired, target);
        byTarget := byTarget[target := []];
      }
      byTarget := byTarget[target := byTarget[target] + [det]];
    }
    assert ds[..|ds|] == ds;
  }

  /** The conflict resolution: in every group the first closest contender is assigned the
   *  person and claims it, every other contender is assigned nothing; entries of other
   *  detectors stay as they were. */
  method ResolveConflicts(ds: seq<AttributeDetector>, desired: map<AttributeDetector, PersonDescriptor?>,
                          byTarget: map<PersonDescriptor, seq<AttributeDetector>>, ghost dist: map<AttributeDetector, real>,
                          table: map<AttributeDetector, PersonDescriptor?>)
    returns (resolved: map<AttributeDetector, PersonDescriptor?>, claimed: set<PersonDescriptor>)
    requires Covers(ds, desired, dist)
    requires forall d | d in ds && desired[d] != null :: desired[d] in byTarget && dist[d] == DistTo(d, desired[d])
    requires forall t | t in byTarget :: byTarget[t] == Group(ds, desired, t) && byTarget[t] != []
    ensures claimed == byTarget.Keys
    ensures forall d :: d in resolved <==> d in table || (d in ds && desired[d] != null)
    ensures forall d | d in resolved ::
      resolved[d] == if d in ds && desired[d] != null then Resolved(ds, desired, dist)[d] else table[d]
  {
    ghost var r := Resolved(ds, desired, dist);
    resolved, claimed := table, {};
    var remaining := byTarget.Keys;
    while remaining != {}
      invariant remaining <= byTarget.Keys
      invariant claimed == byTarget.Keys - remaining
      invariant forall d :: d in resolved <==> d in table || (d in ds && desired[d] != null && desired[d] !in remaining)
      invariant forall d | d in resolved ::
        resolved[d] == if d in ds && desired[d] != null && desired[d] !in remaining then r[d] else table[d]
      decreases remaining
    {
      var target :| target in remaining;
      var contendants := byTarget[target];
      GroupMembers(ds, desired, target);
      resolved := ResolveGroup(target, contendants, ds, desired, dist, r, resolved);
      claimed := claimed + {target};
      remaining := remaining - {target};
    }
  }

  /** One group of the conflict resolution: the first closest contender is assigned the
   *  person, the other contenders are assigned nothing. */
  method ResolveGroup(target: PersonDescriptor, contendants: seq<AttributeDetector>,
                      ghost ds: seq<AttributeDetector>, ghost desired: map<AttributeDetector, PersonDescriptor?>,
                      ghost dist: map<AttributeDetector, real>, ghost r: map<AttributeDetector, PersonDescriptor?>,
                      table: map<AttributeDetector, PersonDescriptor?>)
    returns (resolved: map<AttributeDetector, PersonDescriptor?>)
    requires Covers(ds, desired, dist) && r == Resolved(ds, desired, dist)
    requires contendants == Group(ds, desired, target) && contendants != []
    requires forall d | d in contendants :: d in dist && dist[d] == DistTo(d, target)
    ensures forall d :: d in resolved <==> d in table || d in contendants
    ensures forall d | d in resolved :: resolved[d] == if d in contendants then r[d] else table[d]
  {
    var winner := ClosestContender(contendants, target, dist);
    ghost var k :| IsFirstClosest(contendants, dist, k) && contendants[k] == winner;
    ResolvedInGroup(ds, desired, dist, target, k);
    GroupMembers(ds, desired, target);
    resolved := AssignGroup(contendants, target, winner, table);
  }

  /** The winner gets the person, the other contenders get null, nobody else changes. */
  method AssignGroup(contendants: seq<AttributeDetector>, target: PersonDescriptor, winner: AttributeDetector,
                     table: map<AttributeDetector, PersonDescriptor?>)
    returns (resolved: map<AttributeDetector, PersonDescriptor?>)
    requires winner in contendants
    ensures forall d :: d in resolved <==> d in table || d in contendants
    ensures forall d | d in resolved ::
      resolved[d] == if d == winner then target else if d in contendants then null else table[d]
  {
    resolved := table[winner := target];
    for j := 0 to |contendants|
      invariant forall d :: d in resolved <==> d in table || d == winner || d in contendants[..j]
      invariant forall d | d in resolved ::
        resolved[d] == if d == winner then target else if d in contendants[..j] then null else table[d]
    {
      var d := contendants[j];
      assert contendants[..j + 1] == contendants[..j] + [d];
      if d == winner {
        continue;
      }
      resolved := resolved[d := null];
    }
    assert contendants[..|contendants|] == contendants;
  }

  /** The inner scan of the conflict resolution: the first contender strictly closer than
   *  every one before it and no farther than any after it; null only for no contenders.
   *  `None` stands for the scan's starting `float.MaxValue`. */
  method ClosestContender(contendants: seq<AttributeDetector>, target: PersonDescriptor, ghost dist: map<AttributeDetector, real>)
    returns (winner: AttributeDetector?)
    requires forall d | d in contendants :: d in dist && dist[d] == DistTo(d, target)
    ensures winner == null <==> contendants == []
    ensures winner != null ==> exists k :: IsFirstClosest(contendants, dist, k) && contendants[k] == winner
  {
    winner := null;
    var bestDist: Option<real> := Option.None;
    ghost var w := 0;
    for i := 0 to |contendants|
      invariant winner == null <==> i == 0
      invariant bestDist.None? <==> winner == null
      invariant winner != null ==>
        && 0 <= w < i && contendants[w] == winner && bestDist == Some(dist[winner])
        && (forall j :: 0 <= j < w ==> dist[winner] < dist[contendants[j]])
        && (forall j :: w < j < i ==> dist[winner] <= dist[contendants[j]])
    {
      var d := contendants[i];
      var droneTf := DroneTransform(d);
      var dd := DistSq(droneTf.position, target.position);
      if bestDist.None? || dd < bestDist.value {
        bestDist := Some(dd);
        winner := d;
        w := i;
      }
    }
    if winner != null {
      assert IsFirstClosest(contendants, dist, w);
    }
  }

  /** The detectors without a proposal are assigned nothing. */
  method ClearUnproposed(ds: seq<AttributeDetector>, desired: map<AttributeDetector, PersonDescriptor?>,
                         table: map<AttributeDetector, PersonDescriptor?>)
    returns (cleared: map<AttributeDetector, PersonDescriptor?>)
    requires forall d | d in ds :: d in desired
    ensures forall d :: d in cleared <==> d in table || (d in ds && desired[d] == null)
    ensures forall d | d in cleared :: cleared[d] == if d in ds && desired[d] == null then null else table[d]
  {
    cleared := table;
    for i := 0 to |ds|
      invariant forall d :: d in cleared <==> d in table || (d in ds[..i] && desired[d] == null)
      invariant forall d | d in cleared :: cleared[d] == if d in ds[..i] && desired[d] == null then null else table[d]
    {
      var d := ds[i];
      assert ds[..i + 1] == ds[..i] + [d];
      if desired[d] == null {
        cleared := cleared[d := null];
      }
    }
    assert ds[..|ds|] == ds;
  }

  /** The clean-up: entries of detectors no longer present are removed, and an entry
   *  whose person has been destroyed or left its scene is assigned nothing. */
  method PruneAssignments(ds: seq<AttributeDetector>, table: map<AttributeDetector, PersonDescriptor?>)
    returns (pruned: map<AttributeDetector, PersonDescriptor?>)
    ensures forall d :: d in pruned <==> d in table && d in ds
    ensures forall d | d in pruned :: pruned[d] == if InScene(table[d]) then table[d] else null
  {
    pruned := table;
    var keys := table.Keys;
    while keys != {}
      invariant keys <= table.Keys
      invariant forall d :: d in pruned <==> d in table && (d in keys || d in ds)
      invariant forall d | d in pruned :: pruned[d] == if d in keys || InScene(table[d]) then table[d] else null
      decreases keys
    {
      var k :| k in keys;
      keys := keys - {k};
      if k !in ds {
        pruned := pruned - {k};
        continue;
      }
      var t := pruned[k];
      if t == null {
        continue;
      }
      if !InScene(t) {
        pruned := pruned[k := null];
      }
    }
  }

  /** The phases after the proposals, composed: the groups are resolved, the detectors
   *  without a proposal cleared and the table pruned, which leaves the resolved table and
   *  every proposal claimed, whatever the table held before. */
  method ResolveAll(ds: seq<AttributeDetector>, desired: map<AttributeDetector, PersonDescriptor?>,
                    byTarget: map<PersonDescriptor, seq<AttributeDetector>>, ghost dist: map<AttributeDetector, real>,
                    table: map<AttributeDetector, PersonDescriptor?>)
    returns (resolved: map<AttributeDetector, PersonDescriptor?>, claimed: set<PersonDescriptor>)
    requires Covers(ds, desired, dist)
    requires forall d | d in ds && desired[d] != null ::
      && desired[d] in byTarget && dist[d] == DistTo(d, desired[d]) && InScene(desired[d])
    requires forall t | t in byTarget :: byTarget[t] == Group(ds, desired, t) && byTarget[t] != []
    ensures resolved == Resolved(ds, desired, dist)
    ensures claimed == set d | d in ds && desired[d] != null :: desired[d]
  {
    var ca1;
    ca1, claimed := ResolveConflicts(ds, desired, byTarget, dist, table);
    var ca2 := ClearUnproposed(ds, desired, ca1);
    resolved := PruneAssignments(ds, ca2);
    AssignmentsResolved(ds, desired, dist, table, ca1, ca2, resolved);
    ClaimsProposed(ds, desired, byTarget);
  }

  class SimpleMultiDroneCoordinator {
    var coordinatorEnabled: bool
    var reassessInterval: real
    /** passed to `FindObjectsOfType`; the detectors found are an input here */
    var includeInactiveDetectors: bool
    var lastReassessTime: real

    var detectors: seq<AttributeDetector>
    var currentAssignments: map<AttributeDetector, PersonDescriptor?>
    var claimedTargets: set<PersonDescriptor>

    /** The component's field initialisers. */
    constructor ()
      ensures coordinatorEnabled && reassessInterval == 0.5 && includeInactiveDetectors
      ensures lastReassessTime == -999.0
      ensures detectors == [] && currentAssignments == map[] && claimedTargets == {}
    {
      coordinatorEnabled := true;
      reassessInterval := 0.5;
      includeInactiveDetectors := true;
      lastReassessTime := -999.0;
      detectors := [];
      currentAssignments := map[];
      claimedTargets := {};
    }

    /** `Update`: reassesses at most once every max(0.02, reassessInterval) seconds, and only
     *  while enabled; the settings never change. */
    method Update(time: real, found: seq<AttributeDetector?>, persons: seq<PersonDescriptor?>)
      returns (ghost want: map<AttributeDetector, PersonDescriptor?>, ghost dist: map<AttributeDetector, real>)
      modifies this`lastReassessTime, this`detectors, this`currentAssignments, this`claimedTargets
      ensures var due := old(coordinatorEnabled) && time - old(lastReassessTime) >= Max(0.02, old(reassessInterval));
        && (!due ==> unchanged(this))
        && (due ==> && lastReassessTime == time && detectors == NonNull(found)
                     && (forall d :: d in want <==> d in detectors)
                     && (forall d | d in want :: want[d] == old(Desire(d, persons)))
                     && (forall d | d in want && want[d] != null :: want[d] in persons)
                     && (forall d :: d in dist <==> d in detectors && want[d] != null)
                     && (forall d | d in dist :: dist[d] == old(DistTo(d, want[d])))
                     && currentAssignments == Resolved(detectors, want, dist)
                     && claimedTargets == set d | d in detectors && want[d] != null :: want[d])
    {
      want, dist := map[], map[];
      if !coordinatorEnabled {
        return;
      }
      if time - lastReassessTime < Max(0.02, reassessInterval) {
        return;
      }
      // The source stamps the time first; the reassessment does not read it.
      want, dist := ReassessAssignments(found, persons);
      lastReassessTime := time;
    }

    /** `ReassessAssignments`: collects the detectors, takes their proposals, groups them by
     *  person, resolves each group in favour of the closest drone, clears the detectors
     *  without a proposal and drops entries of detectors that are gone. Whatever the table
     *  held before, it ends up as this round's resolved table. */
    method ReassessAssignments(found: seq<AttributeDetector?>, persons: seq<PersonDescriptor?>)
      returns (ghost want: map<AttributeDetector, PersonDescriptor?>, ghost dist: map<AttributeDetector, real>)
      modifies this`detectors, this`currentAssignments, this`claimedTargets
      ensures detectors == NonNull(found)
      ensures forall d :: d in want <==> d in detectors
      ensures forall d | d in want :: want[d] == old(Desire(d, persons))
      ensures forall d | d in want && want[d] != null :: want[d] in persons
      ensures forall d :: d in dist <==> d in detectors && want[d] != null
      ensures forall d | d in dist :: dist[d] == old(DistTo(d, want[d]))
      ensures currentAssignments == Resolved(detectors, want, dist)
      ensures claimedTargets == set d | d in detectors && want[d] != null :: want[d]
    {
      var ds := NonNull(found);
      ProposalsInScene(ds, persons);
      var desired := ProposeTargets(ds, persons);
      assert forall d | d in desired :: desired[d] == old(Desire(d, persons));
      var byTarget := GroupByTarget(ds, desired);
      want := desired;
      dist := map d | d in ds && desired[d] != null :: DistTo(d, desired[d]);
      assert forall d | d in ds && desired[d] != null :: desired[d] in persons && InScene(desired[d]);
      forall d | d in dist ensures dist[d] == old(DistTo(d, want[d])) {
        var t := want[d];
        assert d.drone == old(d.drone);
        assert DroneTransform(d).position == old(DroneTransform(d).position) && t.position == old(t.position);
      }
      var table, claimed := ResolveAll(ds, desired, byTarget, dist, currentAssignments);
      detectors, currentAssignments, claimedTargets := ds, table, claimed;
    }
  }
}
