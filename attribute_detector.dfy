/**
 * Assets/Scripts/AttributeDetector.cs: the per-drone perception component. It scores
 * people against the mission text (module MatchScore), finds the best match in the whole
 * scene, rebuilds its list of visible detections every frame and turns a detection back
 * into a point on the ground. Engine queries (overlap sphere, angle, occlusion raycast,
 * world-to-screen projection, screen-to-world ray) are given as functions.
 */
module AttributeDetectors {
  import opened Wrappers
  import opened Geometry
  import opened PersonDescriptors
  import opened MatchScore

  /** A screen-space rectangle in pixels. */
  datatype Box = Box(x: real, y: real, width: real, height: real)

  datatype TargetDetection = TargetDetection(confidence: real, box: Box)

  datatype Ray = Ray(origin: Vec3, direction: Vec3)

  /** The perception camera as the engine presents it, with `Screen.height`. */
  datatype CameraView = CameraView(
    position: Vec3,
    forward: Vec3,
    worldToScreenPoint: Vec3 -> Vec3,
    screenPointToRay: (real, real) -> Ray,
    screenHeight: real)

  /** The physics queries used by `SimulateDetections`. */
  datatype Physics = Physics(
    /** people whose colliders overlap the sphere (`OverlapSphere` + `GetComponentInParent`) */
    overlapSphere: (Vec3, real) -> seq<PersonDescriptor>,
    /** `Vector3.Angle(from, to)`, in degrees */
    angle: (Vec3, Vec3) -> real,
    /** an occluder lies on the segment from the origin along the vector */
    occluded: (Vec3, Vec3) -> bool)

  /** The score of one person for a query. */
  function Score(query: string, pd: PersonDescriptor): real
    reads pd
  {
    ComputeMatchScore(query, pd.jacketColor, pd.helmet)
  }

  /** What `FindObjectsOfTypeAll` filtered by `pd != null && scene.IsValid()` keeps. */
  predicate InScene(pd: PersonDescriptor?)
    reads pd
  {
    Live(pd) && pd.sceneValid
  }

  /** The threshold `TryFindBestMatchingPerson` uses. */
  function Threshold(minConfidence: real, confidenceThreshold: real): real
  {
    if minConfidence >= 0.0 then minConfidence else confidenceThreshold
  }

  // ---------- best match over the scene ----------

  /** The scan of `TryFindBestMatchingPerson`: `best` moves to every person scoring at least the best so far. */
  function BestFrom(ps: seq<PersonDescriptor?>, query: string, bestScore: real, best: PersonDescriptor?): PersonDescriptor?
    reads ps
    decreases |ps|
  {
    if ps == [] then best
    else if InScene(ps[0]) && Score(query, ps[0]) >= bestScore then BestFrom(ps[1..], query, Score(query, ps[0]), ps[0])
    else BestFrom(ps[1..], query, bestScore, best)
  }

  /** `k` is a maximal-scoring in-scene person reaching `floor`, and the last of those. */
  ghost predicate IsLastArgmax(ps: seq<PersonDescriptor?>, query: string, floor: real, k: int)
    reads ps
  {
    && 0 <= k < |ps| && InScene(ps[k]) && Score(query, ps[k]) >= floor
    && (forall i :: 0 <= i < |ps| && InScene(ps[i]) ==> Score(query, ps[i]) <= Score(query, ps[k]))
    && (forall i :: k < i < |ps| && InScene(ps[i]) ==> Score(query, ps[i]) < Score(query, ps[k]))
  }

  ghost predicate SomeoneReaches(ps: seq<PersonDescriptor?>, query: string, floor: real)
    reads ps
  {
    exists i :: 0 <= i < |ps| && InScene(ps[i]) && Score(query, ps[i]) >= floor
  }

  /** The scan returns its starting value when nobody reaches the floor, and otherwise the
   *  last person with the maximal score. */
  lemma {:induction false} BestFromSpec(ps: seq<PersonDescriptor?>, query: string, floor: real, best: PersonDescriptor?)
    ensures !SomeoneReaches(ps, query, floor) ==> BestFrom(ps, query, floor, best) == best
    ensures SomeoneReaches(ps, query, floor) ==>
      exists k :: IsLastArgmax(ps, query, floor, k) && BestFrom(ps, query, floor, best) == ps[k]
    decreases |ps|
  {
    if ps != [] {
      var tail := ps[1..];
      if InScene(ps[0]) && Score(query, ps[0]) >= floor {
        var s0 := Score(query, ps[0]);
        BestFromSpec(tail, query, s0, ps[0]);
        if SomeoneReaches(tail, query, s0) {
          var k :| IsLastArgmax(tail, query, s0, k) && BestFrom(tail, query, s0, ps[0]) == tail[k];
          ArgmaxShift(ps, query, floor, s0, k);
        } else {
          ArgmaxHead(ps, query, floor);
        }
      } else {
        BestFromSpec(tail, query, floor, best);
        ReachesTail(ps, query, floor);
        if SomeoneReaches(tail, query, floor) {
          var k :| IsLastArgmax(tail, query, floor, k) && BestFrom(tail, query, floor, best) == tail[k];
          ArgmaxShift(ps, query, floor, floor, k);
        }
      }
    }
  }

  /** When the head does not reach the floor, reaching it is a matter of the tail. */
  lemma ReachesTail(ps: seq<PersonDescriptor?>, query: string, floor: real)
    requires ps != [] && !(InScene(ps[0]) && Score(query, ps[0]) >= floor)
    ensures SomeoneReaches(ps, query, floor) <==> SomeoneReaches(ps[1..], query, floor)
  {
    if SomeoneReaches(ps, query, floor) {
      var i :| 0 <= i < |ps| && InScene(ps[i]) && Score(query, ps[i]) >= floor;
      assert ps[1..][i - 1] == ps[i];
    }
    if SomeoneReaches(ps[1..], query, floor) {
      var i :| 0 <= i < |ps[1..]| && InScene(ps[1..][i]) && Score(query, ps[1..][i]) >= floor;
      assert ps[1..][i] == ps[i + 1];
    }
  }

  /** An argmax of the tail above a higher floor is one of the whole sequence, provided the
   *  head scores at most that floor when it is in the scene. */
  lemma ArgmaxShift(ps: seq<PersonDescriptor?>, query: string, floor: real, f: real, k: int)
    requires ps != [] && floor <= f && IsLastArgmax(ps[1..], query, f, k)
    requires InScene(ps[0]) ==> Score(query, ps[0]) <= f
    ensures IsLastArgmax(ps, query, floor, k + 1)
  {
    forall i | 0 < i < |ps| ensures ps[i] == ps[1..][i - 1] { }
  }

  /** The head is the answer when it reaches the floor and nobody after it reaches its score. */
  lemma ArgmaxHead(ps: seq<PersonDescriptor?>, query: string, floor: real)
    requires ps != [] && InScene(ps[0]) && Score(query, ps[0]) >= floor
    requires !SomeoneReaches(ps[1..], query, Score(query, ps[0]))
    ensures IsLastArgmax(ps, query, floor, 0)
  {
    forall i | 0 < i < |ps| ensures ps[i] == ps[1..][i - 1] { }
  }

  /** The best match is found iff someone reaches the threshold, and it is then the last
   *  person with the highest score. */
  lemma BestMatchSpec(ps: seq<PersonDescriptor?>, query: string, thr: real)
    ensures BestFrom(ps, query, thr, null) != null <==> SomeoneReaches(ps, query, thr)
    ensures BestFrom(ps, query, thr, null) != null ==>
      exists k :: IsLastArgmax(ps, query, thr, k) && BestFrom(ps, query, thr, null) == ps[k]
  {
    BestFromSpec(ps, query, thr, null);
  }

  // ---------- the screen rectangle of a renderer ----------

  /** `c + Vector3.Scale(e, (xi, yi, zi))`. */
  function Corner(b: Bounds, xi: real, yi: real, zi: real): Vec3
  {
    Vec3(b.center.x + b.extents.x * xi, b.center.y + b.extents.y * yi, b.center.z + b.extents.z * zi)
  }

  /** The eight corners in the order of the three nested loops over -1, 1. */
  function Corners(b: Bounds): (cs: seq<Vec3>)
    ensures |cs| == 8
  {
    [Corner(b, -1.0, -1.0, -1.0), Corner(b, -1.0, -1.0, 1.0), Corner(b, -1.0, 1.0, -1.0), Corner(b, -1.0, 1.0, 1.0),
     Corner(b, 1.0, -1.0, -1.0), Corner(b, 1.0, -1.0, 1.0), Corner(b, 1.0, 1.0, -1.0), Corner(b, 1.0, 1.0, 1.0)]
  }

  /** LINQ `Min` over a non-empty sequence. */
  function MinOf(xs: seq<real>): (m: real)
    requires |xs| > 0
    ensures m in xs && forall i :: 0 <= i < |xs| ==> m <= xs[i]
  {
    if |xs| == 1 then xs[0] else var t := MinOf(xs[1..]); if xs[0] <= t then xs[0] else t
  }

  /** LINQ `Max` over a non-empty sequence. */
  function MaxOf(xs: seq<real>): (m: real)
    requires |xs| > 0
    ensures m in xs && forall i :: 0 <= i < |xs| ==> xs[i] <= m
  {
    if |xs| == 1 then xs[0] else var t := MaxOf(xs[1..]); if xs[0] >= t then xs[0] else t
  }

  /** The eight corners as `WorldToScreenPoint` places them. */
  function Projected(b: Bounds, cam: CameraView): (ps: seq<Vec3>)
    ensures |ps| == 8
  {
    var cs := Corners(b);
    var f := cam.worldToScreenPoint;
    [f(cs[0]), f(cs[1]), f(cs[2]), f(cs[3]), f(cs[4]), f(cs[5]), f(cs[6]), f(cs[7])]
  }

  function ScreenXs(b: Bounds, cam: CameraView): (xs: seq<real>)
    ensures |xs| == 8 && forall i :: 0 <= i < 8 ==> xs[i] == Projected(b, cam)[i].x
  {
    var ps := Projected(b, cam);
    [ps[0].x, ps[1].x, ps[2].x, ps[3].x, ps[4].x, ps[5].x, ps[6].x, ps[7].x]
  }

  function ScreenYs(b: Bounds, cam: CameraView): (ys: seq<real>)
    ensures |ys| == 8 && forall i :: 0 <= i < 8 ==> ys[i] == Projected(b, cam)[i].y
  {
    var ps := Projected(b, cam);
    [ps[0].y, ps[1].y, ps[2].y, ps[3].y, ps[4].y, ps[5].y, ps[6].y, ps[7].y]
  }

  /** `BoundsToScreenRect`: the rectangle spanned by the extreme projected corners, with y
   *  measured from the top (`Screen.height - maxY`). */
  function BoundsToScreenRect(b: Bounds, cam: CameraView): (r: Box)
    ensures r.width >= 0.0 && r.height >= 0.0
  {
    var xs, ys := ScreenXs(b, cam), ScreenYs(b, cam);
    var minX, maxX := MinOf(xs), MaxOf(xs);
    var minY, maxY := MinOf(ys), MaxOf(ys);
    assert minX <= xs[0] <= maxX && minY <= ys[0] <= maxY;
    Box(minX, cam.screenHeight - maxY, Max(0.0, maxX - minX), Max(0.0, maxY - minY))
  }

  /** The rectangle holds every projected corner, and each of its four sides touches one
   *  (it is the smallest such rectangle). */
  lemma ScreenRectEncloses(b: Bounds, cam: CameraView)
    ensures var r := BoundsToScreenRect(b, cam);
      forall i :: 0 <= i < 8 ==>
        && r.x <= Projected(b, cam)[i].x <= r.x + r.width
        && cam.screenHeight - r.y - r.height <= Projected(b, cam)[i].y <= cam.screenHeight - r.y
    ensures var r := BoundsToScreenRect(b, cam);
      && (exists i :: 0 <= i < 8 && Projected(b, cam)[i].x == r.x)
      && (exists i :: 0 <= i < 8 && Projected(b, cam)[i].x == r.x + r.width)
      && (exists i :: 0 <= i < 8 && Projected(b, cam)[i].y == cam.screenHeight - r.y)
      && (exists i :: 0 <= i < 8 && Projected(b, cam)[i].y == cam.screenHeight - r.y - r.height)
  {
    var xs, ys := ScreenXs(b, cam), ScreenYs(b, cam);
    var minX, maxX := MinOf(xs), MaxOf(xs);
    var minY, maxY := MinOf(ys), MaxOf(ys);
    assert minX <= xs[0] <= maxX && minY <= ys[0] <= maxY;
    var i0 :| 0 <= i0 < 8 && xs[i0] == minX;
    var i1 :| 0 <= i1 < 8 && xs[i1] == maxX;
    var i2 :| 0 <= i2 < 8 && ys[i2] == maxY;
    var i3 :| 0 <= i3 < 8 && ys[i3] == minY;
  }

  // ---------- ground point of a detection ----------

  /** The point where the ray through the centre of the box meets the plane y = planeY,
   *  unless the ray is nearly parallel to it or meets it behind the camera. The box's y is
   *  counted from the top (see `BoundsToScreenRect`) but is passed to the ray as it is, so the
   *  ray goes through the vertically mirrored pixel, as in the source. */
  function GroundHit(d: TargetDetection, cam: CameraView, planeY: real): (p: Option<Vec3>)
    ensures p.Some? ==> p.value.y == planeY
  {
    var r := cam.screenPointToRay(d.box.x + d.box.width * 0.5, d.box.y + d.box.height * 0.5);
    if Abs(r.direction.y) < 0.001 then Option.None
    else
      var t := (planeY - r.origin.y) / r.direction.y;
      if t <= 0.0 then Option.None
      else
        assert r.direction.y * t == planeY - r.origin.y;
        Some(Add(r.origin, Scale(r.direction, t)))
  }

  /** The detections at or above a confidence floor, in order (`Where(...).ToList()`). */
  function Candidates(ds: seq<TargetDetection>, floor: real): (cs: seq<TargetDetection>)
    ensures forall d :: d in cs ==> d in ds && d.confidence >= floor
    ensures forall d :: d in ds && d.confidence >= floor ==> d in cs
  {
    if ds == [] then []
    else (if ds[0].confidence >= floor then [ds[0]] else []) + Candidates(ds[1..], floor)
  }

  /** The ground point of every detection, in order. */
  function GroundHits(cs: seq<TargetDetection>, cam: CameraView, planeY: real): (hs: seq<Option<Vec3>>)
    ensures |hs| == |cs| && forall i :: 0 <= i < |cs| ==> hs[i] == GroundHit(cs[i], cam, planeY)
  {
    if cs == [] then [] else [GroundHit(cs[0], cam, planeY)] + GroundHits(cs[1..], cam, planeY)
  }

  /** The scan for the nearest ground point; `best` holds the squared distance and the point,
   *  `None` standing for `float.MaxValue`. */
  function NearestFrom(hs: seq<Option<Vec3>>, from: Vec3, best: Option<(real, Vec3)>): Option<(real, Vec3)>
    decreases |hs|
  {
    if hs == [] then best
    else match hs[0]
      case None => NearestFrom(hs[1..], from, best)
      case Some(p) =>
        if best.None? || DistSq(from, p) < best.value.0 then NearestFrom(hs[1..], from, Some((DistSq(from, p), p)))
        else NearestFrom(hs[1..], from, best)
  }

  /** `k` holds the first nearest point among the present ones. */
  predicate IsFirstNearest(hs: seq<Option<Vec3>>, from: Vec3, k: int)
  {
    && 0 <= k < |hs| && hs[k].Some?
    && (forall i :: 0 <= i < |hs| && hs[i].Some? ==> DistSq(from, hs[k].value) <= DistSq(from, hs[i].value))
    && (forall i :: 0 <= i < k && hs[i].Some? ==> DistSq(from, hs[k].value) < DistSq(from, hs[i].value))
  }

  /** Nothing present is strictly nearer than `best`. */
  predicate NoneNearer(hs: seq<Option<Vec3>>, from: Vec3, best: Option<(real, Vec3)>)
  {
    forall i :: 0 <= i < |hs| && hs[i].Some? ==> best.Some? && best.value.0 <= DistSq(from, hs[i].value)
  }

  /** A scan started from `best` keeps it when no point is strictly nearer, and otherwise ends
   *  on the first nearest point, which is then nearer than `best`. */
  lemma {:induction false} NearestFromGeneral(hs: seq<Option<Vec3>>, from: Vec3, best: Option<(real, Vec3)>)
    ensures var r := NearestFrom(hs, from, best);
      || (r == best && NoneNearer(hs, from, best))
      || (exists k :: IsFirstNearest(hs, from, k) && r == Some((DistSq(from, hs[k].value), hs[k].value))
            && (best.Some? ==> DistSq(from, hs[k].value) < best.value.0))
    decreases |hs|
  {
    if hs != [] {
      var tail := hs[1..];
      if hs[0].Some? && (best.None? || DistSq(from, hs[0].value) < best.value.0) {
        var q := hs[0].value;
        var dq := DistSq(from, q);
        NearestFromGeneral(tail, from, Some((dq, q)));
        var r := NearestFrom(tail, from, Some((dq, q)));
        if r == Some((dq, q)) && NoneNearer(tail, from, Some((dq, q))) {
          NearestHead(hs, from);
        } else {
          var k :| IsFirstNearest(tail, from, k) && r == Some((DistSq(from, tail[k].value), tail[k].value))
            && DistSq(from, tail[k].value) < dq;
          NearestShift(hs, from, k);
        }
      } else {
        NearestFromGeneral(tail, from, best);
        var r := NearestFrom(tail, from, best);
        if r == best && NoneNearer(tail, from, best) {
          NoneNearerCons(hs, from, best);
        } else {
          var k :| IsFirstNearest(tail, from, k) && r == Some((DistSq(from, tail[k].value), tail[k].value))
            && (best.Some? ==> DistSq(from, tail[k].value) < best.value.0);
          NearestShift(hs, from, k);
        }
      }
    }
  }

  lemma NoneNearerCons(hs: seq<Option<Vec3>>, from: Vec3, best: Option<(real, Vec3)>)
    requires hs != [] && NoneNearer(hs[1..], from, best)
    requires hs[0].Some? ==> best.Some? && best.value.0 <= DistSq(from, hs[0].value)
    ensures NoneNearer(hs, from, best)
  {
    forall i | 0 < i < |hs| ensures hs[i] == hs[1..][i - 1] { }
  }

  /** A first nearest point of the tail is one of the whole sequence unless the head is at
   *  least as near. */
  lemma NearestShift(hs: seq<Option<Vec3>>, from: Vec3, k: int)
    requires hs != [] && IsFirstNearest(hs[1..], from, k)
    requires hs[0].Some? ==> DistSq(from, hs[1..][k].value) < DistSq(from, hs[0].value)
    ensures IsFirstNearest(hs, from, k + 1)
  {
    forall i | 0 < i < |hs| ensures hs[i] == hs[1..][i - 1] { }
  }

  /** The head is the first nearest point when nothing after it is strictly nearer. */
  lemma NearestHead(hs: seq<Option<Vec3>>, from: Vec3)
    requires hs != [] && hs[0].Some?
    requires NoneNearer(hs[1..], from, Some((DistSq(from, hs[0].value), hs[0].value)))
    ensures IsFirstNearest(hs, from, 0)
  {
    forall i | 0 < i < |hs| ensures hs[i] == hs[1..][i - 1] { }
  }

  /** Starting from nothing, the scan finds a point iff one is present, and it is then the
   *  first nearest one. */
  lemma NearestFromSpec(hs: seq<Option<Vec3>>, from: Vec3)
    ensures NearestFrom(hs, from, Option.None).Some? <==> exists i :: 0 <= i < |hs| && hs[i].Some?
    ensures NearestFrom(hs, from, Option.None).Some? ==>
      exists k :: IsFirstNearest(hs, from, k) && NearestFrom(hs, from, Option.None) == Some((DistSq(from, hs[k].value), hs[k].value))
  {
    NearestFromGeneral(hs, from, Option.None);
  }

  /** The loop of `TryGetNearestTargetPoint`: the ground point of each candidate in turn,
   *  kept when strictly nearer than the best so far. */
  method NearestGroundPoint(candidates: seq<TargetDetection>, cam: CameraView, planeY: real, from: Vec3)
    returns (best: Option<(real, Vec3)>)
    ensures best == NearestFrom(GroundHits(candidates, cam, planeY), from, Option.None)
  {
    ghost var hs := GroundHits(candidates, cam, planeY);
    best := Option.None;
    for i := 0 to |candidates|
      invariant NearestFrom(hs[i..], from, best) == NearestFrom(hs, from, Option.None)
    {
      assert hs[i..][1..] == hs[i + 1..];
      var d := candidates[i];
      var r := cam.screenPointToRay(d.box.x + d.box.width * 0.5, d.box.y + d.box.height * 0.5);
      if Abs(r.direction.y) < 0.001 {
        continue;
      }
      var t := (planeY - r.origin.y) / r.direction.y;
      if t <= 0.0 {
        continue;
      }
      var hit := Add(r.origin, Scale(r.direction, t));
      assert hs[i] == Some(hit);
      var dist := DistSq(from, hit);
      if best.None? || dist < best.value.0 {
        best := Some((dist, hit));
      }
    }
  }

  // ---------- detections from the camera ----------

  /** What detection reads from a person: its position, its clothing and its renderer bounds. */
  datatype PersonView = PersonView(position: Vec3, jacket: JacketColor, helmet: HelmetColor, bounds: Option<Bounds>)

  /** The detector settings detection reads: field of view, threshold and mission text. */
  datatype Sensor = Sensor(fovDegrees: real, confidenceThreshold: real, missionQuery: string)

  function ViewOf(pd: PersonDescriptor): PersonView
    reads pd
  {
    PersonView(pd.position, pd.jacketColor, pd.helmet, pd.rendererBounds)
  }

  function ViewsOf(hits: seq<PersonDescriptor>): (vs: seq<PersonView>)
    reads hits
    ensures |vs| == |hits| && forall i :: 0 <= i < |hits| ==> vs[i] == ViewOf(hits[i])
  {
    if hits == [] then [] else [ViewOf(hits[0])] + ViewsOf(hits[1..])
  }

  /** The detection one person yields, if it passes every filter: inside half the field of
   *  view, no occluder in the way, score at least the threshold, a renderer, and a screen box
   *  wider and taller than one pixel. */
  function Perceive(v: PersonView, s: Sensor, cam: CameraView, phys: Physics): (d: Option<TargetDetection>)
    ensures d.Some? ==> s.confidenceThreshold <= d.value.confidence <= 1.0 && d.value.box.width > 1.0 && d.value.box.height > 1.0
  {
    var toTarget := Sub(v.position, cam.position);
    if phys.angle(cam.forward, toTarget) > s.fovDegrees * 0.5 then Option.None
    else if phys.occluded(cam.position, toTarget) then Option.None
    else
      var score := ComputeMatchScore(s.missionQuery, v.jacket, v.helmet);
      if score < s.confidenceThreshold then Option.None
      else if v.bounds.None? then Option.None
      else
        var rect := BoundsToScreenRect(v.bounds.value, cam);
        if rect.width <= 1.0 || rect.height <= 1.0 then Option.None
        else Some(TargetDetection(Clamp01(score), rect))
  }

  /** What each person yields, in order. */
  function Perceptions(vs: seq<PersonView>, s: Sensor, cam: CameraView, phys: Physics): (ds: seq<Option<TargetDetection>>)
    ensures |ds| == |vs|
  {
    if vs == [] then [] else [Perceive(vs[0], s, cam, phys)] + Perceptions(vs[1..], s, cam, phys)
  }

  lemma {:induction false} PerceptionsAt(vs: seq<PersonView>, s: Sensor, cam: CameraView, phys: Physics, i: int)
    requires 0 <= i < |vs|
    ensures Perceptions(vs, s, cam, phys)[i] == Perceive(vs[i], s, cam, phys)
    decreases i
  {
    if i > 0 {
      PerceptionsAt(vs[1..], s, cam, phys, i - 1);
    }
  }

  lemma {:induction false} PerceptionsAppend(a: seq<PersonView>, b: seq<PersonView>, s: Sensor, cam: CameraView, phys: Physics)
    ensures Perceptions(a + b, s, cam, phys) == Perceptions(a, s, cam, phys) + Perceptions(b, s, cam, phys)
    decreases |a|
  {
    if a == [] {
      assert a + b == b;
    } else {
      assert (a + b)[1..] == a[1..] + b;
      PerceptionsAppend(a[1..], b, s, cam, phys);
    }
  }

  /** The detections the people yield, in order. */
  function DetectionsOf(vs: seq<PersonView>, s: Sensor, cam: CameraView, phys: Physics): seq<TargetDetection>
  {
    Somes(Perceptions(vs, s, cam, phys))
  }

  /** Every detection comes from one of the overlap hits and passed every filter, so its
   *  confidence is at least the threshold and its box is wider and taller than one pixel;
   *  there is at most one per overlap hit (not per person: see `RepeatedHitRepeatsDetection`). */
  lemma DetectionsAreFiltered(vs: seq<PersonView>, s: Sensor, cam: CameraView, phys: Physics)
    ensures |DetectionsOf(vs, s, cam, phys)| <= |vs|
    ensures forall d :: d in DetectionsOf(vs, s, cam, phys) ==>
      && s.confidenceThreshold <= d.confidence <= 1.0
      && d.box.width > 1.0 && d.box.height > 1.0
      && (exists v :: v in vs && Perceive(v, s, cam, phys) == Some(d))
  {
    var ps := Perceptions(vs, s, cam, phys);
    SomesMembers(ps);
    forall d | d in DetectionsOf(vs, s, cam, phys)
      ensures exists v :: v in vs && Perceive(v, s, cam, phys) == Some(d)
    {
      var j :| 0 <= j < |DetectionsOf(vs, s, cam, phys)| && DetectionsOf(vs, s, cam, phys)[j] == d;
      assert Some(d) in ps;
      var i :| 0 <= i < |ps| && ps[i] == Some(d);
      PerceptionsAt(vs, s, cam, phys, i);
      assert vs[i] in vs;
    }
  }

  /** Removing a person who yields nothing (outside the field of view, hidden, ...) changes
   *  nothing; adding one who yields a detection appends exactly that detection in place. */
  lemma {:induction false} DetectionsOfSplit(a: seq<PersonView>, v: PersonView, b: seq<PersonView>, s: Sensor, cam: CameraView, phys: Physics)
    ensures DetectionsOf(a + [v] + b, s, cam, phys) ==
      DetectionsOf(a, s, cam, phys)
      + (match Perceive(v, s, cam, phys) case Some(d) => [d] case None => [])
      + DetectionsOf(b, s, cam, phys)
  {
    var pa, pb := Perceptions(a, s, cam, phys), Perceptions(b, s, cam, phys);
    var pv := Perceive(v, s, cam, phys);
    PerceptionsAppend(a + [v], b, s, cam, phys);
    PerceptionsAppend(a, [v], s, cam, phys);
    assert Perceptions([v], s, cam, phys) == [pv];
    SomesAppend(pa + [pv], pb);
    SomesAppend(pa, [pv]);
    assert Somes([pv]) == match pv case Some(d) => [d] case None => [];
  }

  /** The overlap scan yields a person once per collider in range and nothing removes
   *  repeats, so a person hit twice who passes every filter is detected twice. */
  lemma RepeatedHitRepeatsDetection(v: PersonView, s: Sensor, cam: CameraView, phys: Physics, d: TargetDetection)
    requires Perceive(v, s, cam, phys) == Some(d)
    ensures DetectionsOf([v, v], s, cam, phys) == [d, d]
  {
    var p := Perceive(v, s, cam, phys);
    assert Perceptions([v], s, cam, phys) == [p];
    PerceptionsAppend([v], [v], s, cam, phys);
    assert [v] + [v] == [v, v];
    assert Perceptions([v, v], s, cam, phys) == [p] + [p];
    SomesAppend([p], [p]);
    assert Somes([p]) == [d];
  }

  /** In particular a person outside half the field of view, or behind an occluder, adds no detection. */
  lemma HiddenPersonAddsNothing(a: seq<PersonView>, v: PersonView, b: seq<PersonView>, s: Sensor, cam: CameraView, phys: Physics)
    requires phys.angle(cam.forward, Sub(v.position, cam.position)) > s.fovDegrees * 0.5
          || phys.occluded(cam.position, Sub(v.position, cam.position))
    ensures DetectionsOf(a + [v] + b, s, cam, phys) == DetectionsOf(a + b, s, cam, phys)
  {
    DetectionsOfSplit(a, v, b, s, cam, phys);
    SomesAppend(Perceptions(a, s, cam, phys), Perceptions(b, s, cam, phys));
    PerceptionsAppend(a, b, s, cam, phys);
  }

  /** The body of the detection loop for one person: the field-of-view, occlusion, score,
   *  renderer and box-size filters in turn; a person passing them all yields its detection. */
  method PerceiveOne(pd: PersonDescriptor, s: Sensor, cam: CameraView, phys: Physics) returns (d: Option<TargetDetection>)
    ensures d == Perceive(ViewOf(pd), s, cam, phys)
  {
    d := Option.None;
    var toTarget := Sub(pd.position, cam.position);
    var angle := phys.angle(cam.forward, toTarget);
    if angle > s.fovDegrees * 0.5 {
      return;
    }
    if phys.occluded(cam.position, toTarget) {
      return;
    }
    var score := Score(s.missionQuery, pd);
    if score < s.confidenceThreshold {
      return;
    }
    if pd.rendererBounds.None? {
      return;
    }
    var rect := BoundsToScreenRect(pd.rendererBounds.value, cam);
    if rect.width <= 1.0 || rect.height <= 1.0 {
      return;
    }
    d := Some(TargetDetection(Clamp01(score), rect));
  }

  /** The detection loop over the overlap hits: each hit's detection, if any, is appended in
   *  turn. */
  method DetectAll(hits: seq<PersonDescriptor>, s: Sensor, cam: CameraView, phys: Physics) returns (ds: seq<TargetDetection>)
    ensures ds == DetectionsOf(ViewsOf(hits), s, cam, phys)
  {
    ghost var views := ViewsOf(hits);
    ghost var seen := Perceptions(views, s, cam, phys);
    ds := [];
    for i := 0 to |hits|
      invariant ds == Somes(seen[..i])
    {
      PerceptionsAt(views, s, cam, phys, i);
      SomesPrefix(seen, i);
      var d := PerceiveOne(hits[i], s, cam, phys);
      if d.Some? {
        ds := ds + [d.value];
      }
    }
    assert seen[..|hits|] == seen;
  }

  // ---------- the component ----------

  class AttributeDetector {
    var perceptionCamera: Option<CameraView>
    var drone: Transform?
    /** the component's own transform */
    const transform: Transform

    var detectionRadius: real
    var fovDegrees: real
    var groundY: real
    var confidenceThreshold: real
    var missionQuery: string

    var Detections: seq<TargetDetection>

    /** The component's field initialisers. */
    constructor (transform: Transform, perceptionCamera: Option<CameraView>, drone: Transform?)
      ensures this.transform == transform && this.perceptionCamera == perceptionCamera && this.drone == drone
      ensures detectionRadius == 120.0 && fovDegrees == 80.0 && groundY == 0.0 && confidenceThreshold == 0.3
      ensures missionQuery == "person with orange jacket and yellow hard hat" && Detections == []
    {
      this.transform := transform;
      this.perceptionCamera := perceptionCamera;
      this.drone := drone;
      detectionRadius := 120.0;
      fovDegrees := 80.0;
      groundY := 0.0;
      confidenceThreshold := 0.3;
      missionQuery := "person with orange jacket and yellow hard hat";
      Detections := [];
    }

    /** `TryFindBestMatchingPerson`: scans every in-scene person; the target is the last one
     *  with the highest score, provided that score reaches the threshold. Changes nothing. */
    method TryFindBestMatchingPerson(all: seq<PersonDescriptor?>, minConfidence: real) returns (found: bool, target: PersonDescriptor?)
      ensures target == BestFrom(all, missionQuery, Threshold(minConfidence, confidenceThreshold), null)
      ensures found <==> SomeoneReaches(all, missionQuery, Threshold(minConfidence, confidenceThreshold))
      ensures found ==> exists k :: IsLastArgmax(all, missionQuery, Threshold(minConfidence, confidenceThreshold), k) && target == all[k]
      ensures !found ==> target == null
    {
      target := null;
      var thr := Threshold(minConfidence, confidenceThreshold);
      var bestScore := thr;
      var best: PersonDescriptor? := null;
      for i := 0 to |all|
        invariant BestFrom(all[i..], missionQuery, bestScore, best) == BestFrom(all, missionQuery, thr, null)
      {
        assert all[i..][1..] == all[i + 1..];
        var pd := all[i];
        if InScene(pd) {
          var s := Score(missionQuery, pd);
          if s >= bestScore {
            bestScore := s;
            best := pd;
          }
        }
      }
      BestMatchSpec(all, missionQuery, thr);
      if best != null {
        target := best;
        return true, target;
      }
      return false, target;
    }

    /** The settings `SimulateDetections` reads. */
    function Sensing(): Sensor
      reads this`fovDegrees, this`confidenceThreshold, this`missionQuery
    {
      Sensor(fovDegrees, confidenceThreshold, missionQuery)
    }

    /** `SimulateDetections`: clears the list, stops when the camera or drone is missing, and
     *  otherwise keeps one detection per overlap hit that passes every filter, in order. */
    method SimulateDetections(phys: Physics)
      modifies this`Detections
      ensures perceptionCamera.None? || drone == null ==> Detections == []
      ensures perceptionCamera.Some? && drone != null ==>
        Detections == DetectionsOf(ViewsOf(phys.overlapSphere(drone.position, detectionRadius)), Sensing(), perceptionCamera.value, phys)
    {
      Detections := [];
      if perceptionCamera.None? || drone == null {
        return;
      }
      var hits := phys.overlapSphere(drone.position, detectionRadius);
      Detections := DetectAll(hits, Sensing(), perceptionCamera.value, phys);
    }

    /** `TryGetNearestTargetPoint`: among detections with confidence at least
     *  max(minConfidence, confidenceThreshold), the first nearest point where the ray through a
     *  box centre meets the plane y = planeY in front of the camera. */
    method TryGetNearestTargetPoint(planeY: real, minConfidence: real) returns (ok: bool, worldPoint: Vec3)
      requires Candidates(Detections, Max(minConfidence, confidenceThreshold)) != [] ==> perceptionCamera.Some? && drone != null
      ensures var cs := Candidates(Detections, Max(minConfidence, confidenceThreshold));
        ok <==> cs != [] && exists i :: 0 <= i < |cs| && GroundHit(cs[i], perceptionCamera.value, planeY).Some?
      ensures ok ==> worldPoint.y == planeY
      ensures ok ==> var cs := Candidates(Detections, Max(minConfidence, confidenceThreshold));
        exists k :: IsFirstNearest(GroundHits(cs, perceptionCamera.value, planeY), drone.position, k)
          && worldPoint == GroundHit(cs[k], perceptionCamera.value, planeY).value
          && cs[k].confidence >= Max(minConfidence, confidenceThreshold)
    {
      worldPoint := Vec3(0.0, 0.0, 0.0);
      if |Detections| == 0 {
        assert Candidates(Detections, Max(minConfidence, confidenceThreshold)) == [];
        return false, worldPoint;
      }
      var candidates := Candidates(Detections, Max(minConfidence, confidenceThreshold));
      if |candidates| == 0 {
        return false, worldPoint;
      }
      var cam := perceptionCamera.value;
      ghost var hs := GroundHits(candidates, cam, planeY);
      var best := NearestGroundPoint(candidates, cam, planeY, drone.position);
      NearestFromSpec(hs, drone.position);
      if best.Some? {
        worldPoint := best.value.1;
        return true, worldPoint;
      }
      return false, worldPoint;
    }
  }
}
