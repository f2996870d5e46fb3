/**
 * Assets/Scripts/Screenshotter.cs: the YOLO annotations written next to each dataset
 * screenshot. A renderer's world-space bounding box is projected corner by corner onto
 * the screen, its screen-space hull is normalised by the screen size (y counted from the
 * top), and each of the three parts (body, hat, accessory) gets its own range of class
 * ids. The camera projection `WorldToScreenPoint` is a function parameter, the screen
 * size an input; the float formatting of the line is not modelled, so a line is the
 * record of its five numbers.
 */
module Screenshots {
  import opened Wrappers
  import opened Geometry

  /** The renderer fields the annotation reads: world bounds and visibility. */
  datatype Renderer = Renderer(bounds: Bounds, isVisible: bool)

  /** One annotation line: class id, normalised centre and normalised size. */
  datatype YoloBox = YoloBox(classId: int, centerX: real, centerY: real, width: real, height: real)

  /** A box in screen pixels (y counted from the bottom, as Unity's screen space). */
  datatype Extent = Extent(minX: real, maxX: real, minY: real, maxY: real)

  /** `float.MaxValue`; `float.MinValue` is its negation. */
  const FloatMax: real := 340282346638528859811704183484516925440.0

  /** The camera's `WorldToScreenPoint`. */
  function ToScreen(project: Vec3 -> Vec3, p: Vec3): Vec3
  {
    project(p)
  }

  /** The eight corners of a box, in the source's order: x varies fastest, then y, then z. */
  function Corners(b: Bounds): (cs: seq<Vec3>)
    ensures |cs| == 8
    ensures forall i :: 0 <= i < 8 ==>
      cs[i] == Vec3(if i % 2 == 0 then b.Min().x else b.Max().x,
                    if (i / 2) % 2 == 0 then b.Min().y else b.Max().y,
                    if i / 4 == 0 then b.Min().z else b.Max().z)
  {
    var lo := b.Min();
    var hi := b.Max();
    [Vec3(lo.x, lo.y, lo.z), Vec3(hi.x, lo.y, lo.z), Vec3(lo.x, hi.y, lo.z), Vec3(hi.x, hi.y, lo.z),
     Vec3(lo.x, lo.y, hi.z), Vec3(hi.x, lo.y, hi.z), Vec3(lo.x, hi.y, hi.z), Vec3(hi.x, hi.y, hi.z)]
  }

  /** The screen x (or y) of every corner. */
  function ScreenXs(project: Vec3 -> Vec3, cs: seq<Vec3>): seq<real>
  {
    seq(|cs|, i requires 0 <= i < |cs| => ToScreen(project, cs[i]).x)
  }

  function ScreenYs(project: Vec3 -> Vec3, cs: seq<Vec3>): seq<real>
  {
    seq(|cs|, i requires 0 <= i < |cs| => ToScreen(project, cs[i]).y)
  }

  /** The running minimum started at `init`: the value the loop's `minX` holds. */
  function RunningMin(init: real, xs: seq<real>): (r: real)
    ensures r <= init
    ensures forall k :: 0 <= k < |xs| ==> r <= xs[k]
    ensures r == init || r in xs
  {
    if xs == [] then init
    else
      var m := RunningMin(init, xs[..|xs| - 1]);
      if xs[|xs| - 1] < m then xs[|xs| - 1] else m
  }

  /** The running maximum started at `init`: the value the loop's `maxX` holds. */
  function RunningMax(init: real, xs: seq<real>): (r: real)
    ensures r >= init
    ensures forall k :: 0 <= k < |xs| ==> r >= xs[k]
    ensures r == init || r in xs
  {
    if xs == [] then init
    else
      var m := RunningMax(init, xs[..|xs| - 1]);
      if xs[|xs| - 1] > m then xs[|xs| - 1] else m
  }

  /** The screen-space hull of a box's projected corners, as the loop computes it. */
  function ScreenExtent(project: Vec3 -> Vec3, b: Bounds): Extent
  {
    var xs := ScreenXs(project, Corners(b));
    var ys := ScreenYs(project, Corners(b));
    Extent(RunningMin(FloatMax, xs), RunningMax(-FloatMax, xs), RunningMin(FloatMax, ys), RunningMax(-FloatMax, ys))
  }

  /** The hull reaches into the screen rectangle `[0, w] x [0, h]`. */
  predicate Touches(e: Extent, w: real, h: real)
  {
    0.0 <= e.maxX && e.minX <= w && 0.0 <= e.maxY && e.minY <= h
  }

  /** The YOLO line for a hull, normalised by the screen size, y flipped to count from the top. */
  function Normalize(classId: int, e: Extent, w: real, h: real): YoloBox
    requires w > 0.0 && h > 0.0
  {
    var width := e.maxX - e.minX;
    var height := e.maxY - e.minY;
    var centerX := e.minX + width / 2.0;
    var centerY := e.minY + height / 2.0;
    YoloBox(classId, centerX / w, 1.0 - centerY / h, width / w, height / h)
  }

  /** The pixel hull a YOLO line describes: the inverse of `Normalize`. */
  function Denormalize(b: YoloBox, w: real, h: real): Extent
  {
    Extent((b.centerX - b.width / 2.0) * w, (b.centerX + b.width / 2.0) * w,
           (1.0 - b.centerY - b.height / 2.0) * h, (1.0 - b.centerY + b.height / 2.0) * h)
  }

  /** `GetYoloLine` as a value: no line for a missing or invisible renderer, or for a
   *  hull wholly off the screen. */
  function YoloBoxOf(rend: Option<Renderer>, classId: int, project: Vec3 -> Vec3,
                     screenWidth: int, screenHeight: int): Option<YoloBox>
    requires screenWidth > 0 && screenHeight > 0
  {
    if rend.None? || !rend.value.isVisible then None
    else
      var e := ScreenExtent(project, rend.value.bounds);
      if e.maxX < 0.0 || e.minX > screenWidth as real || e.maxY < 0.0 || e.minY > screenHeight as real then None
      else Some(Normalize(classId, e, screenWidth as real, screenHeight as real))
  }

  /** The loop of `GetYoloLine`: the screen-space hull of the projected corners, each
   *  side started at the opposite float sentinel. */
  method ScreenHull(corners: array<Vec3>, project: Vec3 -> Vec3) returns (e: Extent)
    ensures e == Extent(RunningMin(FloatMax, ScreenXs(project, corners[..])), RunningMax(-FloatMax, ScreenXs(project, corners[..])),
                        RunningMin(FloatMax, ScreenYs(project, corners[..])), RunningMax(-FloatMax, ScreenYs(project, corners[..])))
  {
    ghost var xs := ScreenXs(project, corners[..]);
    ghost var ys := ScreenYs(project, corners[..]);
    var minX, minY := FloatMax, FloatMax;
    var maxX, maxY := -FloatMax, -FloatMax;
    for i := 0 to corners.Length
      invariant minX == RunningMin(FloatMax, xs[..i]) && maxX == RunningMax(-FloatMax, xs[..i])
      invariant minY == RunningMin(FloatMax, ys[..i]) && maxY == RunningMax(-FloatMax, ys[..i])
    {
      var screenPoint := ToScreen(project, corners[i]);
      RunningStep(xs, i);
      RunningStep(ys, i);
      if screenPoint.x < minX { minX := screenPoint.x; }
      if screenPoint.x > maxX { maxX := screenPoint.x; }
      if screenPoint.y < minY { minY := screenPoint.y; }
      if screenPoint.y > maxY { maxY := screenPoint.y; }
    }
    assert xs[..corners.Length] == xs && ys[..corners.Length] == ys;
    e := Extent(minX, maxX, minY, maxY);
  }

  /** One more value moves the running minimum and maximum only if it passes them. */
  lemma RunningStep(xs: seq<real>, i: int)
    requires 0 <= i < |xs|
    ensures var m := RunningMin(FloatMax, xs[..i]);
      RunningMin(FloatMax, xs[..i + 1]) == if xs[i] < m then xs[i] else m
    ensures var m := RunningMax(-FloatMax, xs[..i]);
      RunningMax(-FloatMax, xs[..i + 1]) == if xs[i] > m then xs[i] else m
  {
    assert xs[..i + 1][..i] == xs[..i];
  }

  /** `GetYoloLine`: projects the eight corners into an array, scans them for the hull,
   *  rejects a hull wholly off the screen and normalises the rest. */
  method GetYoloLine(rend: Option<Renderer>, classId: int, project: Vec3 -> Vec3,
                     screenWidth: int, screenHeight: int) returns (line: Option<YoloBox>)
    requires screenWidth > 0 && screenHeight > 0
    ensures line == YoloBoxOf(rend, classId, project, screenWidth, screenHeight)
    ensures line.Some? ==> line.value.classId == classId
  {
    if rend.None? || !rend.value.isVisible {
      return None;
    }
    var bounds := rend.value.bounds;
    var lo, hi := bounds.Min(), bounds.Max();
    var corners := new Vec3[8];
    corners[0] := Vec3(lo.x, lo.y, lo.z);
    corners[1] := Vec3(hi.x, lo.y, lo.z);
    corners[2] := Vec3(lo.x, hi.y, lo.z);
    corners[3] := Vec3(hi.x, hi.y, lo.z);
    corners[4] := Vec3(lo.x, lo.y, hi.z);
    corners[5] := Vec3(hi.x, lo.y, hi.z);
    corners[6] := Vec3(lo.x, hi.y, hi.z);
    corners[7] := Vec3(hi.x, hi.y, hi.z);
    assert corners[..] == Corners(bounds);
    var e := ScreenHull(corners, project);
    assert e == ScreenExtent(project, bounds);

    if e.maxX < 0.0 || e.minX > screenWidth as real || e.maxY < 0.0 || e.minY > screenHeight as real {
      return None;
    }
    line := Some(Normalize(classId, e, screenWidth as real, screenHeight as real));
  }

  // ---------- properties of the hull ----------

  /** The hull's sides are ordered: eight corners are never none, so width and height
   *  are never negative. */
  lemma ExtentOrdered(project: Vec3 -> Vec3, b: Bounds)
    ensures var e := ScreenExtent(project, b);
      e.minX <= e.maxX && e.minY <= e.maxY
  {
    var xs := ScreenXs(project, Corners(b));
    var ys := ScreenYs(project, Corners(b));
    assert RunningMin(FloatMax, xs) <= xs[0] <= RunningMax(-FloatMax, xs);
    assert RunningMin(FloatMax, ys) <= ys[0] <= RunningMax(-FloatMax, ys);
  }

  /** Once every value is a finite float, the sentinel never survives: the running
   *  minimum (maximum) is one of the values, and so their least (greatest). */
  lemma SentinelReplaced(xs: seq<real>)
    requires xs != [] && forall k :: 0 <= k < |xs| ==> -FloatMax <= xs[k] <= FloatMax
    ensures RunningMin(FloatMax, xs) in xs && RunningMax(-FloatMax, xs) in xs
  {
    assert xs[0] in xs;
  }

  /** The hull's sides are attained by projected corners and bound all of them, once the
   *  projected corners are finite floats. */
  lemma ExtentIsHull(project: Vec3 -> Vec3, b: Bounds)
    requires forall k :: 0 <= k < 8 ==> -FloatMax <= ScreenXs(project, Corners(b))[k] <= FloatMax
    requires forall k :: 0 <= k < 8 ==> -FloatMax <= ScreenYs(project, Corners(b))[k] <= FloatMax
    ensures var e := ScreenExtent(project, b);
      var xs := ScreenXs(project, Corners(b)); var ys := ScreenYs(project, Corners(b));
      && e.minX in xs && e.maxX in xs && e.minY in ys && e.maxY in ys
      && (forall k :: 0 <= k < 8 ==> e.minX <= xs[k] <= e.maxX && e.minY <= ys[k] <= e.maxY)
  {
    SentinelReplaced(ScreenXs(project, Corners(b)));
    SentinelReplaced(ScreenYs(project, Corners(b)));
  }

  // ---------- properties of the annotation ----------

  /** A line exists exactly for a visible renderer whose hull reaches into the screen;
   *  it keeps its class id, has a non-negative size, reaches into the unit square, and
   *  denormalises back to the hull unclipped, so a partly visible box keeps its
   *  off-screen part. */
  lemma YoloBoxSpec(rend: Option<Renderer>, classId: int, project: Vec3 -> Vec3,
                    screenWidth: int, screenHeight: int)
    requires screenWidth > 0 && screenHeight > 0
    ensures var r := YoloBoxOf(rend, classId, project, screenWidth, screenHeight);
      r.Some? <==> rend.Some? && rend.value.isVisible
                   && Touches(ScreenExtent(project, rend.value.bounds), screenWidth as real, screenHeight as real)
    ensures var r := YoloBoxOf(rend, classId, project, screenWidth, screenHeight);
      r.Some? ==>
        && r.value.classId == classId
        && r.value.width >= 0.0 && r.value.height >= 0.0
        && r.value.centerX - r.value.width / 2.0 <= 1.0 && 0.0 <= r.value.centerX + r.value.width / 2.0
        && r.value.centerY - r.value.height / 2.0 <= 1.0 && 0.0 <= r.value.centerY + r.value.height / 2.0
        && Denormalize(r.value, screenWidth as real, screenHeight as real) == ScreenExtent(project, rend.value.bounds)
  {
    if rend.Some? && rend.value.isVisible {
      var e := ScreenExtent(project, rend.value.bounds);
      ExtentOrdered(project, rend.value.bounds);
      if Touches(e, screenWidth as real, screenHeight as real) {
        NormalizeSpec(classId, e, screenWidth as real, screenHeight as real);
      }
    }
  }

  /** Normalising a hull and denormalising the line gives the hull back; a hull that
   *  reaches into the screen gives a line that reaches into the unit square. */
  lemma NormalizeSpec(classId: int, e: Extent, w: real, h: real)
    requires w > 0.0 && h > 0.0 && e.minX <= e.maxX && e.minY <= e.maxY
    ensures var b := Normalize(classId, e, w, h);
      && b.classId == classId && b.width >= 0.0 && b.height >= 0.0
      && Denormalize(b, w, h) == e
      && (Touches(e, w, h) ==>
            b.centerX - b.width / 2.0 <= 1.0 && 0.0 <= b.centerX + b.width / 2.0
            && b.centerY - b.height / 2.0 <= 1.0 && 0.0 <= b.centerY + b.height / 2.0)
  {
    AxisRoundTrip(e.minX, e.maxX, w);
    AxisRoundTrip(e.minY, e.maxY, h);
    var b := Normalize(classId, e, w, h);
    var cy := (e.minY + (e.maxY - e.minY) / 2.0) / h;
    assert b.centerY == 1.0 - cy;
    assert 1.0 - b.centerY == cy;
  }

  /** One axis of a hull, normalised to a centre and a size: both ends come back, the
   *  size is not negative, and an axis reaching into the screen side reaches into
   *  [0, 1]. */
  lemma AxisRoundTrip(lo: real, hi: real, w: real)
    requires w > 0.0 && lo <= hi
    ensures var c := (lo + (hi - lo) / 2.0) / w; var s := (hi - lo) / w;
      && s >= 0.0
      && (c - s / 2.0) * w == lo && (c + s / 2.0) * w == hi
      && (0.0 <= hi && lo <= w ==> c - s / 2.0 <= 1.0 && 0.0 <= c + s / 2.0)
  {
    var c := (lo + (hi - lo) / 2.0) / w;
    var s := (hi - lo) / w;
    DivScale(lo + (hi - lo) / 2.0, w);
    DivScale(hi - lo, w);
    DivNonNegative(hi - lo, w);
    Distribute(c, s / 2.0, w);
    assert (s / 2.0) * w == (s * w) / 2.0;
    assert (c - s / 2.0) * w == lo && (c + s / 2.0) * w == hi;
    if 0.0 <= hi && lo <= w {
      ScaledBelow(c - s / 2.0, lo, w);
      ScaledAbove(c + s / 2.0, hi, w);
    }
  }

  lemma DivScale(x: real, w: real)
    requires w > 0.0
    ensures x / w * w == x
  {
  }

  lemma DivNonNegative(x: real, w: real)
    requires w > 0.0 && x >= 0.0
    ensures x / w >= 0.0
  {
  }

  lemma Distribute(a: real, b: real, w: real)
    ensures (a - b) * w == a * w - b * w && (a + b) * w == a * w + b * w
  {
  }

  /** A value whose multiple by a positive side is at most that side is at most 1. */
  lemma ScaledBelow(x: real, m: real, w: real)
    requires w > 0.0 && x * w == m && m <= w
    ensures x <= 1.0
  {
  }

  /** A value whose multiple by a positive side is non-negative is non-negative. */
  lemma ScaledAbove(x: real, m: real, w: real)
    requires w > 0.0 && x * w == m && m >= 0.0
    ensures x >= 0.0
  {
  }

  // ---------- class ids ----------

  /** The three annotated parts of an NPC. */
  datatype Part = Body | Hat | Accessory

  /** The class id `WriteAnnotationFile` gives a part: materials first, then hats, then
   *  accessories. */
  function ClassId(part: Part, index: int, materialCount: int, hatCount: int): int
  {
    match part
    case Body => index
    case Hat => index + materialCount
    case Accessory => index + materialCount + hatCount
  }

  /** Reads a class id back as the part and the index within that part's list. */
  function PartOf(classId: int, materialCount: int, hatCount: int): (Part, int)
  {
    if classId < materialCount then (Body, classId)
    else if classId < materialCount + hatCount then (Hat, classId - materialCount)
    else (Accessory, classId - materialCount - hatCount)
  }

  /** How many entries a part's list has. */
  function PartCount(part: Part, materialCount: nat, hatCount: nat, accessoryCount: nat): nat
  {
    match part
    case Body => materialCount
    case Hat => hatCount
    case Accessory => accessoryCount
  }

  /** For indices inside their lists the three parts get the disjoint ranges
   *  [0, M), [M, M + H) and [M + H, M + H + A), and a class id names its part and index. */
  lemma ClassIdRoundTrip(part: Part, index: int, materialCount: nat, hatCount: nat, accessoryCount: nat)
    requires 0 <= index < PartCount(part, materialCount, hatCount, accessoryCount)
    ensures var c := ClassId(part, index, materialCount, hatCount);
      && PartOf(c, materialCount, hatCount) == (part, index)
      && (part == Body ==> 0 <= c < materialCount)
      && (part == Hat ==> materialCount <= c < materialCount + hatCount)
      && (part == Accessory ==> materialCount + hatCount <= c < materialCount + hatCount + accessoryCount)
  {
  }

  /** Two in-range (part, index) pairs share a class id only when they are the same pair. */
  lemma ClassIdInjective(p1: Part, i1: int, p2: Part, i2: int, materialCount: nat, hatCount: nat, accessoryCount: nat)
    requires 0 <= i1 < PartCount(p1, materialCount, hatCount, accessoryCount)
    requires 0 <= i2 < PartCount(p2, materialCount, hatCount, accessoryCount)
    requires ClassId(p1, i1, materialCount, hatCount) == ClassId(p2, i2, materialCount, hatCount)
    ensures p1 == p2 && i1 == i2
  {
    ClassIdRoundTrip(p1, i1, materialCount, hatCount, accessoryCount);
    ClassIdRoundTrip(p2, i2, materialCount, hatCount, accessoryCount);
  }

  /** A line is written only when `GetYoloLine` gives one. */
  function Written(line: Option<YoloBox>): seq<YoloBox>
  {
    if line.Some? then [line.value] else []
  }

  /** `WriteAnnotationFile`: the lines written for the body, the hat and the accessory
   *  of one screenshot, each only when its renderer gives one. */
  method WriteAnnotationFile(npcRenderer: Option<Renderer>, matId: int, hatId: int, accId: int,
                             hatRend: Option<Renderer>, accRend: Option<Renderer>,
                             materialCount: nat, hatCount: nat, accessoryCount: nat,
                             project: Vec3 -> Vec3, screenWidth: int, screenHeight: int)
    returns (lines: seq<YoloBox>)
    requires screenWidth > 0 && screenHeight > 0
    ensures lines == Written(YoloBoxOf(npcRenderer, ClassId(Body, matId, materialCount, hatCount), project, screenWidth, screenHeight))
                   + Written(YoloBoxOf(hatRend, ClassId(Hat, hatId, materialCount, hatCount), project, screenWidth, screenHeight))
                   + Written(YoloBoxOf(accRend, ClassId(Accessory, accId, materialCount, hatCount), project, screenWidth, screenHeight))
    ensures |lines| <= 3
    ensures 0 <= matId < materialCount && 0 <= hatId < hatCount && 0 <= accId < accessoryCount ==>
      forall i, j :: 0 <= i < j < |lines| ==> lines[i].classId < lines[j].classId
  {
    var npcId := ClassId(Body, matId, materialCount, hatCount);
    var hatClass := ClassId(Hat, hatId, materialCount, hatCount);
    var accClass := ClassId(Accessory, accId, materialCount, hatCount);
    lines := [];
    var npcLine := GetYoloLine(npcRenderer, npcId, project, screenWidth, screenHeight);
    if npcLine.Some? { lines := lines + [npcLine.value]; }
    assert lines == Written(npcLine);
    var hatLine := GetYoloLine(hatRend, hatClass, project, screenWidth, screenHeight);
    if hatLine.Some? { lines := lines + [hatLine.value]; }
    assert lines == Written(npcLine) + Written(hatLine);
    var accLine := GetYoloLine(accRend, accClass, project, screenWidth, screenHeight);
    if accLine.Some? { lines := lines + [accLine.value]; }
    assert lines == Written(npcLine) + Written(hatLine) + Written(accLine);
    if 0 <= matId < materialCount && 0 <= hatId < hatCount && 0 <= accId < accessoryCount {
      WrittenInOrder(npcLine, hatLine, accLine, npcId, hatClass, accClass);
    }
  }

  /** Lines written in order of increasing class id come out in that order. */
  lemma WrittenInOrder(a: Option<YoloBox>, b: Option<YoloBox>, c: Option<YoloBox>, ia: int, ib: int, ic: int)
    requires ia < ib < ic
    requires (a.Some? ==> a.value.classId == ia) && (b.Some? ==> b.value.classId == ib) && (c.Some? ==> c.value.classId == ic)
    ensures var lines := Written(a) + Written(b) + Written(c);
      forall i, j :: 0 <= i < j < |lines| ==> lines[i].classId < lines[j].classId
  {
  }
}
