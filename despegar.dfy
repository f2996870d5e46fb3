/**
 * Assets/Scripts/Despegar.cs: the per-drone flight state machine. The drone takes off to
 * cruise height, patrols (back and forth between two points, or towards random points),
 * polls its attribute detector, approaches the matched person and lands beside them.
 *
 * One `Engine` value stands for what the engine supplies during one frame: the clock,
 * `Vector3.MoveTowards`, the downward ground raycast, `Vector3.Normalize`, the random
 * samples and the people in the scene.
 */
module Flight {
  import opened Wrappers
  import opened Geometry
  import opened PersonDescriptors
  import opened AttributeDetectors

  datatype Estado = Idle | Takeoff | Patrol | Approach | Land | Landed

  datatype Engine = Engine(
    time: real,
    deltaTime: real,
    /** `Vector3.MoveTowards(current, target, maxDistanceDelta)` */
    moveTowards: (Vec3, Vec3, real) -> Vec3,
    /** the height of the first ground hit of a ray cast straight down at (x, z) from height
     *  `top` over `maxDistance`, if there is one */
    groundHeight: (real, real, real, real) -> Option<real>,
    /** `Vector3.Normalize` */
    normalize: Vec3 -> Vec3,
    /** the fractions in [0, 1] that place the two `Random.Range` results between their bounds */
    u: real,
    v: real,
    /** `Random.insideUnitCircle` */
    circleX: real,
    circleY: real,
    /** `Random.insideUnitSphere` */
    sphere: Vec3,
    /** the people in the loaded scenes, as the detector enumerates them */
    persons: seq<PersonDescriptor?>)

  /** `Vector3.Normalize` on a horizontal vector: the result stays horizontal; a vector longer
   *  than 1e-5 becomes a unit vector pointing the same way, a shorter one becomes zero. */
  ghost predicate NormalizeOk(n: Vec3 -> Vec3)
  {
    forall w {:trigger Horizontal(w)} :: Horizontal(w) ==>
      && n(w).y == 0.0
      && (SqMag(w) > 0.0000000001 ==> SqMag(n(w)) == 1.0 && n(w).x * w.x + n(w).z * w.z > 0.0)
      && (SqMag(w) <= 0.0000000001 ==> n(w) == Vec3(0.0, 0.0, 0.0))
  }

  predicate Horizontal(w: Vec3)
  {
    w.y == 0.0
  }

  /** What the source relies on from the random generator. */
  predicate SamplesOk(e: Engine)
  {
    0.0 <= e.u <= 1.0 && 0.0 <= e.v <= 1.0 && Sq(e.circleX) + Sq(e.circleY) <= 1.0
  }

  /** `Random.Range(lo, hi)` for the sample fraction `t`. */
  function Range(lo: real, hi: real, t: real): real
  {
    lo + (hi - lo) * t
  }

  lemma RangeBetween(lo: real, hi: real, t: real)
    requires 0.0 <= t <= 1.0
    ensures lo <= hi ==> lo <= Range(lo, hi, t) <= hi
    ensures hi <= lo ==> hi <= Range(lo, hi, t) <= lo
  {
    var d := hi - lo;
    assert d * (1.0 - t) == d - d * t;
    if lo <= hi {
      MulNonneg(d, t);
      MulNonneg(d, 1.0 - t);
    } else {
      MulNonneg(-d, t);
      MulNonneg(-d, 1.0 - t);
      assert (-d) * t == -(d * t) && (-d) * (1.0 - t) == -(d * (1.0 - t));
    }
  }

  lemma MulNonneg(a: real, b: real)
    requires 0.0 <= a && 0.0 <= b
    ensures 0.0 <= a * b
  {
  }

  /** Where one `MoveTowards` step at `speed` for this frame takes the drone from `from`. */
  function Toward(e: Engine, from: Vec3, to: Vec3, speed: real): Vec3
  {
    e.moveTowards(from, to, speed * e.deltaTime)
  }

  // ---------- route and destinations ----------

  /** The two patrol points `ConfigurarRutaAB` stores: the explicit points when both are set,
   *  else the area's longer axis inset by `margin`, else 20 m either side of the origin;
   *  always at height `y`. */
  function RouteAB(ends: Option<(Vec3, Vec3)>, area: Option<Bounds>, autoEje: bool, margin: real, origen: Vec3, y: real): seq<Vec3>
  {
    match ends
    case Some((a, b)) => [Vec3(a.x, y, a.z), Vec3(b.x, y, b.z)]
    case None =>
      match area
      case Some(box) =>
        var c, half := box.center, box.extents;
        var usarX := if autoEje then box.Size().x >= box.Size().z else true;
        if usarX then [Vec3(c.x - (half.x - margin), y, c.z), Vec3(c.x + (half.x - margin), y, c.z)]
        else [Vec3(c.x, y, c.z - (half.z - margin)), Vec3(c.x, y, c.z + (half.z - margin))]
      case None => [Vec3(origen.x - 20.0, y, origen.z), Vec3(origen.x + 20.0, y, origen.z)]
  }

  /** Every route has two points, both at the cruise height; explicit points keep their
   *  horizontal position. */
  lemma RouteAtCruiseHeight(ends: Option<(Vec3, Vec3)>, area: Option<Bounds>, autoEje: bool, margin: real, origen: Vec3, y: real)
    ensures var r := RouteAB(ends, area, autoEje, margin, origen, y);
      |r| == 2 && r[0].y == y && r[1].y == y
    ensures ends.Some? ==> var r := RouteAB(ends, area, autoEje, margin, origen, y);
      && r[0].x == ends.value.0.x && r[0].z == ends.value.0.z
      && r[1].x == ends.value.1.x && r[1].z == ends.value.1.z
  {
  }

  /** With an area and no explicit points, the two points are symmetric about the area's
   *  centre, lie on the axis chosen (x when the area is at least as long in x, or whenever the
   *  automatic choice is off), and are `extent - margin` away from the centre. */
  lemma RouteAreaSymmetric(area: Bounds, autoEje: bool, margin: real, origen: Vec3, y: real)
    ensures var r := RouteAB(Option.None, Some(area), autoEje, margin, origen, y);
      var usarX := !autoEje || area.Size().x >= area.Size().z;
      && r[0].x + r[1].x == 2.0 * area.center.x && r[0].z + r[1].z == 2.0 * area.center.z
      && (usarX ==> r[0].z == area.center.z && r[1].x - r[0].x == 2.0 * (area.extents.x - margin))
      && (!usarX ==> r[0].x == area.center.x && r[1].z - r[0].z == 2.0 * (area.extents.z - margin))
  {
  }

  /** When the area is wider than twice the margin along the chosen axis, both points lie
   *  inside the area. */
  lemma RouteInsideArea(area: Bounds, autoEje: bool, margin: real, origen: Vec3, y: real)
    requires 0.0 <= margin
    requires area.extents.x >= margin && area.extents.z >= margin
    ensures var r := RouteAB(Option.None, Some(area), autoEje, margin, origen, y);
      forall i :: 0 <= i < 2 ==>
        area.Min().x <= r[i].x <= area.Max().x && area.Min().z <= r[i].z <= area.Max().z
  {
  }

  /** Without points or area the drone patrols 20 m either side of its origin along x. */
  lemma RouteFallback(autoEje: bool, margin: real, origen: Vec3, y: real)
    ensures var r := RouteAB(Option.None, Option.None, autoEje, margin, origen, y);
      && r[0].z == origen.z && r[1].z == origen.z
      && r[0].x == origen.x - 20.0 && r[1].x == origen.x + 20.0
  {
  }

  /** `PuntoAleatorioEnArea`: a random point at height `y`, inside the area inset by `margin`
   *  when there is an area, else inside a circle of radius max(1, radius) around the origin. */
  function RandomPoint(area: Option<Bounds>, margin: real, y: real, origen: Vec3, radius: real, e: Engine): Vec3
  {
    match area
    case Some(b) =>
      Vec3(Range(b.Min().x + margin, b.Max().x - margin, e.u), y, Range(b.Min().z + margin, b.Max().z - margin, e.v))
    case None =>
      var k := Max(1.0, radius);
      Vec3(origen.x + e.circleX * k, y, origen.z + e.circleY * k)
  }

  /** A random destination is at cruise height and inside the inset area, or within
   *  max(1, radius) of the origin horizontally. */
  lemma RandomPointInside(area: Option<Bounds>, margin: real, y: real, origen: Vec3, radius: real, e: Engine)
    requires SamplesOk(e)
    ensures RandomPoint(area, margin, y, origen, radius, e).y == y
    ensures area.Some? && area.value.extents.x >= margin && area.value.extents.z >= margin ==>
      var p, b := RandomPoint(area, margin, y, origen, radius, e), area.value;
      b.Min().x + margin <= p.x <= b.Max().x - margin && b.Min().z + margin <= p.z <= b.Max().z - margin
    ensures area.None? ==>
      DistSqXZ(RandomPoint(area, margin, y, origen, radius, e), origen) <= Sq(Max(1.0, radius))
  {
    match area {
      case Some(b) =>
        RangeBetween(b.Min().x + margin, b.Max().x - margin, e.u);
        RangeBetween(b.Min().z + margin, b.Max().z - margin, e.v);
      case None =>
        var k := Max(1.0, radius);
        var p := RandomPoint(area, margin, y, origen, radius, e);
        calc {
          DistSqXZ(p, origen);
          Sq(e.circleX * k) + Sq(e.circleY * k);
          { assert Sq(e.circleX * k) == Sq(e.circleX) * Sq(k) && Sq(e.circleY * k) == Sq(e.circleY) * Sq(k); }
          (Sq(e.circleX) + Sq(e.circleY)) * Sq(k);
        <=  { assert Sq(k) >= 0.0; }
          Sq(k);
        }
    }
  }

  // ---------- landing ----------

  /** The ground height under the origin, or the origin's own height when the ray misses. */
  function GroundLevel(origen: Vec3, e: Engine): real
  {
    match e.groundHeight(origen.x, origen.z, origen.y + 1000.0, 2000.0)
    case Some(h) => h
    case None => origen.y
  }

  /** The horizontal direction from the person towards the drone, or a random one when the
   *  drone is within 0.1 m, flattened and normalised. */
  function LandingDir(pos: Vec3, sobre: Vec3, e: Engine): Vec3
  {
    var d := Vec3(pos.x - sobre.x, 0.0, pos.z - sobre.z);
    var d2 := if SqMag(d) < 0.01 then e.sphere else d;
    e.normalize(Vec3(d2.x, 0.0, d2.z))
  }

  /** The landing point: `offset` from the person along `dir`, dropped onto the ground below,
   *  or onto the origin's ground level when the ray misses. */
  function LandingPoint(target: Vec3, dir: Vec3, offset: real, nivel: real, e: Engine): Vec3
  {
    var plano := Add(target, Scale(dir, offset));
    match e.groundHeight(plano.x, plano.z, plano.y + 200.0, 500.0)
    case Some(h) => Vec3(plano.x, h, plano.z)
    case None => Vec3(plano.x, nivel, plano.z)
  }

  /** The landing direction is horizontal and either a unit vector or zero. */
  lemma LandingDirUnitOrZero(pos: Vec3, sobre: Vec3, e: Engine)
    requires NormalizeOk(e.normalize)
    ensures var dir := LandingDir(pos, sobre, e);
      dir.y == 0.0 && (SqMag(dir) == 1.0 || SqMag(dir) == 0.0)
  {
    var d := Vec3(pos.x - sobre.x, 0.0, pos.z - sobre.z);
    var d2 := if SqMag(d) < 0.01 then e.sphere else d;
    var w := Vec3(d2.x, 0.0, d2.z);
    assert LandingDir(pos, sobre, e) == e.normalize(w);
    NormalizeAt(e.normalize, w);
  }

  /** When the drone was at least 0.1 m from the spot above the person, the landing direction
   *  is a unit vector pointing from the person towards the drone. */
  lemma LandingDirTowardsDrone(pos: Vec3, sobre: Vec3, e: Engine)
    requires NormalizeOk(e.normalize)
    requires DistSqXZ(pos, sobre) >= 0.01
    ensures var dir := LandingDir(pos, sobre, e);
      SqMag(dir) == 1.0 && dir.x * (pos.x - sobre.x) + dir.z * (pos.z - sobre.z) > 0.0
  {
    var d := Vec3(pos.x - sobre.x, 0.0, pos.z - sobre.z);
    LandingDirFar(pos, sobre, e);
    NormalizeAt(e.normalize, d);
  }

  /** Away from the spot above the person no random direction is drawn. */
  lemma LandingDirFar(pos: Vec3, sobre: Vec3, e: Engine)
    requires DistSqXZ(pos, sobre) >= 0.01
    ensures var d := Vec3(pos.x - sobre.x, 0.0, pos.z - sobre.z);
      LandingDir(pos, sobre, e) == e.normalize(d) && SqMag(d) >= 0.01
  {
    var d := Vec3(pos.x - sobre.x, 0.0, pos.z - sobre.z);
    assert SqMag(d) == DistSqXZ(pos, sobre) by {
      assert Sq(d.y) == 0.0;
    }
  }

  /** What `NormalizeOk` promises for one horizontal vector. */
  lemma NormalizeAt(n: Vec3 -> Vec3, w: Vec3)
    requires NormalizeOk(n) && w.y == 0.0
    ensures n(w).y == 0.0
    ensures SqMag(w) > 0.0000000001 ==> SqMag(n(w)) == 1.0 && n(w).x * w.x + n(w).z * w.z > 0.0
    ensures SqMag(w) <= 0.0000000001 ==> n(w) == Vec3(0.0, 0.0, 0.0)
  {
    assert Horizontal(w);
  }

  /** A horizontal direction scaled by `offset` puts the landing point `offset * |dir|` from
   *  the person horizontally, whatever the ground height. */
  lemma LandingPointOffset(target: Vec3, dir: Vec3, offset: real, nivel: real, e: Engine)
    requires dir.y == 0.0
    ensures var l := LandingPoint(target, dir, offset, nivel, e);
      DistSqXZ(l, target) == Sq(offset) * SqMag(dir)
  {
    var l := LandingPoint(target, dir, offset, nivel, e);
    assert l.x - target.x == dir.x * offset && l.z - target.z == dir.z * offset;
    assert Sq(dir.x * offset) == Sq(dir.x) * Sq(offset) && Sq(dir.z * offset) == Sq(dir.z) * Sq(offset);
  }

  /** The landing point lies `offset` from the person horizontally, on the drone's side, when
   *  the drone was at least 0.1 m away; otherwise at `offset` or, if the random direction
   *  was degenerate, right at the person. Its height is the ground under it, or the origin's
   *  ground level when the ray misses. */
  lemma LandingPointSpec(target: Vec3, pos: Vec3, yObjetivo: real, offset: real, nivel: real, e: Engine)
    requires NormalizeOk(e.normalize)
    ensures var sobre := Vec3(target.x, yObjetivo, target.z);
      var l := LandingPoint(target, LandingDir(pos, sobre, e), offset, nivel, e);
      && (DistSqXZ(l, target) == Sq(offset) || DistSqXZ(l, target) == 0.0)
      && (DistSqXZ(pos, sobre) >= 0.01 ==> DistSqXZ(l, target) == Sq(offset))
      && l.y == (match e.groundHeight(l.x, l.z, target.y + 200.0, 500.0) case Some(h) => h case None => nivel)
  {
    var sobre := Vec3(target.x, yObjetivo, target.z);
    var dir := LandingDir(pos, sobre, e);
    LandingDirUnitOrZero(pos, sobre, e);
    if DistSqXZ(pos, sobre) >= 0.01 {
      LandingDirTowardsDrone(pos, sobre, e);
    }
    LandingPointOffset(target, dir, offset, nivel, e);
  }

  // ---------- the state machine ----------

  /** The transitions one `Update` can make. */
  predicate Step(s: Estado, t: Estado)
  {
    match s
    case Idle => t == Idle
    case Takeoff => t == Takeoff || t == Patrol || t == Approach
    case Patrol => t == Patrol || t == Approach
    case Approach => t == Approach || t == Patrol || t == Land
    case Land => t == Land || t == Landed
    case Landed => t == Landed
  }

  /** A sequence of states each reached from the previous by one `Update`. */
  predicate Run(tr: seq<Estado>)
  {
    forall i :: 0 <= i < |tr| - 1 ==> Step(tr[i], tr[i + 1])
  }

  /** Once landed, always landed. */
  lemma {:induction false} LandedIsTerminal(tr: seq<Estado>)
    requires Run(tr) && |tr| > 0 && tr[0] == Landed
    ensures forall i :: 0 <= i < |tr| ==> tr[i] == Landed
    decreases |tr|
  {
    if |tr| > 1 {
      assert Run(tr[1..]) by {
        forall i | 0 <= i < |tr[1..]| - 1 ensures Step(tr[1..][i], tr[1..][i + 1]) {
          assert Step(tr[i + 1], tr[i + 2]);
        }
      }
      assert Step(tr[0], tr[1]);
      LandedIsTerminal(tr[1..]);
      forall i | 1 <= i < |tr| ensures tr[i] == Landed {
        assert tr[i] == tr[1..][i - 1];
      }
    }
  }

  /** Once the landing has begun the drone never patrols or approaches again. */
  lemma {:induction false} LandingIsFinal(tr: seq<Estado>)
    requires Run(tr) && |tr| > 0 && (tr[0] == Land || tr[0] == Landed)
    ensures forall i :: 0 <= i < |tr| ==> tr[i] == Land || tr[i] == Landed
    decreases |tr|
  {
    if |tr| > 1 {
      assert Run(tr[1..]) by {
        forall i | 0 <= i < |tr[1..]| - 1 ensures Step(tr[1..][i], tr[1..][i + 1]) {
          assert Step(tr[i + 1], tr[i + 2]);
        }
      }
      assert Step(tr[0], tr[1]);
      LandingIsFinal(tr[1..]);
      forall i | 1 <= i < |tr| ensures tr[i] == Land || tr[i] == Landed {
        assert tr[i] == tr[1..][i - 1];
      }
    }
  }

  /** A drone that is taking off or patrolling only lands after approaching a person. */
  lemma {:induction false} LandingFollowsApproach(tr: seq<Estado>, k: int)
    requires Run(tr) && 0 <= k < |tr| && tr[k] == Land
    requires tr[0] == Takeoff || tr[0] == Patrol
    ensures exists j :: 0 <= j < k && tr[j] == Approach
    decreases k
  {
    assert k > 0;
    assert Step(tr[k - 1], tr[k]);
    if tr[k - 1] != Approach {
      assert tr[k - 1] == Land;
      LandingFollowsApproach(tr, k - 1);
    }
  }

  class Despegar {
    // settings (inspector fields)
    var alturaCrucero: real
    var velAscenso: real
    var velCrucero: real
    var velDescenso: real
    var puntoA: Transform?
    var puntoB: Transform?
    /** the bounds of the optional patrol `BoxCollider` */
    var patrolArea: Option<Bounds>
    var margenBorde: real
    var autoEjeMasLargo: bool
    var busquedaLibre: bool
    var radioBusquedaLibre: real
    var cambiarDestinoCada: real
    var offsetAterrizaje: real
    var epsAltura: real
    var epsPos: real
    var usarDeteccion: bool
    var detector: AttributeDetector?
    var actualizarObjetivoCada: real

    /** the drone's own transform */
    const transform: Transform

    // internal state
    var tUltimaAct: real
    var estado: Estado
    var origen: Vec3
    var nivelSueloOrigen: real
    var yObjetivo: real
    var cacheHumano: PersonDescriptor?
    const puntos: array<Vec3>
    var idxObjetivo: int
    var puntoAterrizaje: Vec3
    var destinoLibre: Vec3
    var tUltimoCambioDestino: real

    /** The two patrol points exist and the index names one of them. */
    predicate Valid()
      reads this
    {
      puntos.Length == 2 && (idxObjetivo == 0 || idxObjetivo == 1)
    }

    /** The component's field initialisers. */
    constructor (transform: Transform, detector: AttributeDetector?)
      ensures Valid() && fresh(puntos)
      ensures this.transform == transform && this.detector == detector
      ensures estado == Idle && idxObjetivo == 0 && cacheHumano == null
      ensures alturaCrucero == 12.0 && velAscenso == 4.0 && velCrucero == 120.0 && velDescenso == 3.5
      ensures margenBorde == 2.0 && autoEjeMasLargo && !busquedaLibre && radioBusquedaLibre == 40.0
      ensures cambiarDestinoCada == 5.0 && offsetAterrizaje == 1.8 && epsAltura == 0.15 && epsPos == 0.25
      ensures usarDeteccion && actualizarObjetivoCada == 0.3 && tUltimaAct == -999.0 && tUltimoCambioDestino == -999.0
      ensures puntoA == null && puntoB == null && patrolArea.None?
    {
      this.transform := transform;
      this.detector := detector;
      alturaCrucero, velAscenso, velCrucero, velDescenso := 12.0, 4.0, 120.0, 3.5;
      puntoA, puntoB, patrolArea := null, null, Option.None;
      margenBorde, autoEjeMasLargo := 2.0, true;
      busquedaLibre, radioBusquedaLibre, cambiarDestinoCada := false, 40.0, 5.0;
      offsetAterrizaje, epsAltura, epsPos := 1.8, 0.15, 0.25;
      usarDeteccion, actualizarObjetivoCada, tUltimaAct := true, 0.3, -999.0;
      estado := Idle;
      origen, nivelSueloOrigen, yObjetivo := Vec3(0.0, 0.0, 0.0), 0.0, 0.0;
      cacheHumano := null;
      puntos := new Vec3[2](_ => Vec3(0.0, 0.0, 0.0));
      idxObjetivo := 0;
      puntoAterrizaje, destinoLibre := Vec3(0.0, 0.0, 0.0), Vec3(0.0, 0.0, 0.0);
      tUltimoCambioDestino := -999.0;
    }

    /** The explicit patrol points, when both transforms are set. */
    function Ends(): Option<(Vec3, Vec3)>
      reads this`puntoA, this`puntoB, puntoA, puntoB
    {
      if puntoA != null && puntoB != null then Some((puntoA.position, puntoB.position)) else Option.None
    }

    /** The person the detector would pick now at its own threshold, if detection is on. */
    function Sighted(e: Engine): PersonDescriptor?
      reads this`usarDeteccion, this`detector, detector, e.persons
    {
      if usarDeteccion && detector != null then
        BestFrom(e.persons, detector.missionQuery, Threshold(detector.confidenceThreshold, detector.confidenceThreshold), null)
      else null
    }

    /** `MoverHacia`: one `MoveTowards` step of `velocidad * deltaTime` towards `destino`
     *  (the turn towards the heading is not modelled). */
    method MoverHacia(destino: Vec3, velocidad: real, e: Engine)
      modifies transform`position
      ensures transform.position == Toward(e, old(transform.position), destino, velocidad)
    {
      transform.position := Toward(e, transform.position, destino, velocidad);
    }

    /** `ConfigurarRutaAB`: stores the route for the current settings. */
    method ConfigurarRutaAB()
      requires Valid()
      modifies puntos
      ensures puntos[..] == RouteAB(old(Ends()), patrolArea, autoEjeMasLargo, margenBorde, origen, yObjetivo)
    {
      if puntoA != null && puntoB != null {
        puntos[0] := Vec3(puntoA.position.x, yObjetivo, puntoA.position.z);
        puntos[1] := Vec3(puntoB.position.x, yObjetivo, puntoB.position.z);
        return;
      }
      if patrolArea.Some? {
        var b := patrolArea.value;
        var c, half := b.center, b.extents;
        var usarX := if autoEjeMasLargo then b.Size().x >= b.Size().z else true;
        if usarX {
          var x0 := c.x - (half.x - margenBorde);
          var x1 := c.x + (half.x - margenBorde);
          puntos[0] := Vec3(x0, yObjetivo, c.z);
          puntos[1] := Vec3(x1, yObjetivo, c.z);
        } else {
          var z0 := c.z - (half.z - margenBorde);
          var z1 := c.z + (half.z - margenBorde);
          puntos[0] := Vec3(c.x, yObjetivo, z0);
          puntos[1] := Vec3(c.x, yObjetivo, z1);
        }
        return;
      }
      puntos[0] := Vec3(origen.x - 20.0, yObjetivo, origen.z);
      puntos[1] := Vec3(origen.x + 20.0, yObjetivo, origen.z);
    }

    /** `ElegirNuevoDestinoLibre`: a new random destination, stamped with the current time. */
    method ElegirNuevoDestinoLibre(forzar: bool, e: Engine)
      modifies this`destinoLibre, this`tUltimoCambioDestino
      ensures destinoLibre == RandomPoint(patrolArea, margenBorde, yObjetivo, origen, radioBusquedaLibre, e)
      ensures tUltimoCambioDestino == e.time
    {
      destinoLibre := RandomPoint(patrolArea, margenBorde, yObjetivo, origen, radioBusquedaLibre, e);
      tUltimoCambioDestino := e.time;
    }

    /** The first part of `Start`: the origin, the ground level under it (or the origin's own
     *  height when the downward ray misses) and the cruise height above that. */
    method MeasureOrigin(e: Engine)
      modifies this`origen, this`nivelSueloOrigen, this`yObjetivo
      ensures origen == transform.position && nivelSueloOrigen == GroundLevel(origen, e)
      ensures yObjetivo == nivelSueloOrigen + alturaCrucero
    {
      origen := transform.position;
      var h := e.groundHeight(origen.x, origen.z, origen.y + 1000.0, 2000.0);
      if h.Some? {
        nivelSueloOrigen := h.value;
      } else {
        nivelSueloOrigen := origen.y;
      }
      yObjetivo := nivelSueloOrigen + alturaCrucero;
    }

    /** The second part of `Start`: with detection on, finds a detector if none is set and
     *  asks it once for the best match; without a match (or detection) the target is null. */
    method AcquireInitialTarget(e: Engine, anyDetector: AttributeDetector?)
      modifies this`detector, this`cacheHumano
      ensures detector == if usarDeteccion && old(detector) == null then anyDetector else old(detector)
      ensures cacheHumano == Sighted(e)
    {
      cacheHumano := null;
      if usarDeteccion {
        if detector == null {
          detector := anyDetector;
        }
        if detector != null {
          var ok, inicial := detector.TryFindBestMatchingPerson(e.persons, detector.confidenceThreshold);
          if ok {
            cacheHumano := inicial;
          }
        }
      }
    }

    /** The last part of `Start`: with a live target the drone heads straight for it;
     *  otherwise it prepares its patrol (a random destination or the A-B route) and takes off. */
    method BeginMission(e: Engine)
      requires Valid()
      modifies this`estado, this`destinoLibre, this`tUltimoCambioDestino, puntos
      ensures Valid()
      ensures Live(cacheHumano) ==>
        && estado == Approach && puntos[..] == old(puntos[..])
        && destinoLibre == old(destinoLibre) && tUltimoCambioDestino == old(tUltimoCambioDestino)
      ensures !Live(cacheHumano) ==> estado == Takeoff
      ensures !Live(cacheHumano) && busquedaLibre ==>
        && puntos[..] == old(puntos[..])
        && destinoLibre == RandomPoint(patrolArea, margenBorde, yObjetivo, origen, radioBusquedaLibre, e)
        && tUltimoCambioDestino == e.time
      ensures !Live(cacheHumano) && !busquedaLibre ==>
        && puntos[..] == RouteAB(Ends(), patrolArea, autoEjeMasLargo, margenBorde, origen, yObjetivo)
        && destinoLibre == old(destinoLibre) && tUltimoCambioDestino == old(tUltimoCambioDestino)
    {
      if Live(cacheHumano) {
        estado := Approach;
      } else {
        if busquedaLibre {
          ElegirNuevoDestinoLibre(true, e);
        } else {
          ConfigurarRutaAB();
        }
        estado := Takeoff;
      }
    }

    /** `Start`: records the origin and cruise height, looks for a match once and either
     *  approaches it at once or prepares the patrol and takes off. */
    method Start(e: Engine, anyDetector: AttributeDetector?)
      requires Valid()
      modifies this`origen, this`nivelSueloOrigen, this`yObjetivo, this`detector, this`cacheHumano
      modifies this`estado, this`destinoLibre, this`tUltimoCambioDestino, puntos
      ensures Valid()
      ensures origen == transform.position && nivelSueloOrigen == GroundLevel(origen, e)
      ensures yObjetivo == nivelSueloOrigen + alturaCrucero
      ensures detector == if usarDeteccion && old(detector) == null then anyDetector else old(detector)
      ensures cacheHumano == Sighted(e)
      ensures Live(cacheHumano) ==>
        && estado == Approach && puntos[..] == old(puntos[..])
        && destinoLibre == old(destinoLibre) && tUltimoCambioDestino == old(tUltimoCambioDestino)
      ensures !Live(cacheHumano) ==> estado == Takeoff
      ensures !Live(cacheHumano) && busquedaLibre ==>
        && puntos[..] == old(puntos[..])
        && destinoLibre == RandomPoint(patrolArea, margenBorde, yObjetivo, origen, radioBusquedaLibre, e)
        && tUltimoCambioDestino == e.time
      ensures !Live(cacheHumano) && !busquedaLibre ==>
        && puntos[..] == RouteAB(Ends(), patrolArea, autoEjeMasLargo, margenBorde, origen, yObjetivo)
        && destinoLibre == old(destinoLibre) && tUltimoCambioDestino == old(tUltimoCambioDestino)
    {
      MeasureOrigin(e);
      AcquireInitialTarget(e, anyDetector);
      BeginMission(e);
    }

    /** `ActualizarTakeoff`: climbs straight up; at cruise height (within `epsAltura`) it
     *  approaches a known person or starts patrolling. */
    method ActualizarTakeoff(e: Engine)
      modifies transform`position, this`estado
      ensures transform.position == Toward(e, old(transform.position),
        Vec3(old(transform.position).x, yObjetivo, old(transform.position).z), velAscenso)
      ensures Abs(transform.position.y - yObjetivo) <= epsAltura ==>
        estado == if Live(cacheHumano) then Approach else Patrol
      ensures Abs(transform.position.y - yObjetivo) > epsAltura ==> estado == old(estado)
    {
      var destino := Vec3(transform.position.x, yObjetivo, transform.position.z);
      MoverHacia(destino, velAscenso, e);
      if Abs(transform.position.y - yObjetivo) <= epsAltura {
        estado := if Live(cacheHumano) then Approach else Patrol;
      }
    }

    /** `ActualizarPatrullaAB`: flies towards the current end point at cruise height and turns
     *  round once within `epsPos` of it horizontally. */
    method ActualizarPatrullaAB(e: Engine)
      requires Valid()
      modifies transform`position, this`idxObjetivo
      ensures Valid()
      ensures var p := puntos[old(idxObjetivo)];
        var objetivo := Vec3(p.x, yObjetivo, p.z);
        && transform.position == Toward(e, old(transform.position), objetivo, velCrucero)
        && idxObjetivo == if WithinXZ(transform.position, objetivo, epsPos) then 1 - old(idxObjetivo) else old(idxObjetivo)
    {
      var objetivo := Vec3(puntos[idxObjetivo].x, yObjetivo, puntos[idxObjetivo].z);
      MoverHacia(objetivo, velCrucero, e);
      if WithinXZ(transform.position, objetivo, epsPos) {
        idxObjetivo := 1 - idxObjetivo;
      }
    }

    /** `ActualizarBusquedaLibre`: picks a new random destination when `cambiarDestinoCada`
     *  seconds have passed or the current one is reached, then flies towards it. */
    method ActualizarBusquedaLibre(e: Engine)
      modifies transform`position, this`destinoLibre, this`tUltimoCambioDestino
      ensures var refresh := e.time - old(tUltimoCambioDestino) >= cambiarDestinoCada
                          || WithinXZ(old(transform.position), old(destinoLibre), epsPos);
        && (refresh ==> destinoLibre == RandomPoint(patrolArea, margenBorde, yObjetivo, origen, radioBusquedaLibre, e)
                        && tUltimoCambioDestino == e.time)
        && (!refresh ==> destinoLibre == old(destinoLibre) && tUltimoCambioDestino == old(tUltimoCambioDestino))
      ensures transform.position == Toward(e, old(transform.position),
        Vec3(destinoLibre.x, yObjetivo, destinoLibre.z), velCrucero)
    {
      var porTiempo := e.time - tUltimoCambioDestino >= cambiarDestinoCada;
      var porCercania := WithinXZ(transform.position, destinoLibre, epsPos);
      if porTiempo || porCercania {
        ElegirNuevoDestinoLibre(false, e);
      }
      var objetivo := Vec3(destinoLibre.x, yObjetivo, destinoLibre.z);
      MoverHacia(objetivo, velCrucero, e);
    }

    /** `ActualizarApproach`: without a target it goes back to patrolling; otherwise it flies
     *  over the target and, within 0.8 m horizontally, fixes the landing point and lands. */
    method ActualizarApproach(e: Engine)
      modifies transform`position, this`estado, this`puntoAterrizaje
      ensures !Live(cacheHumano) ==> estado == Patrol && unchanged(transform) && puntoAterrizaje == old(puntoAterrizaje)
      ensures Live(cacheHumano) ==>
        var sobre := Vec3(cacheHumano.position.x, yObjetivo, cacheHumano.position.z);
        && transform.position == Toward(e, old(transform.position), sobre, velCrucero)
        && (WithinXZ(transform.position, sobre, 0.8) ==>
              && estado == Land
              && puntoAterrizaje == LandingPoint(cacheHumano.position, LandingDir(transform.position, sobre, e),
                                                 offsetAterrizaje, nivelSueloOrigen, e))
        && (!WithinXZ(transform.position, sobre, 0.8) ==> estado == old(estado) && puntoAterrizaje == old(puntoAterrizaje))
    {
      if !Live(cacheHumano) {
        estado := Patrol;
        return;
      }
      var sobre := Vec3(cacheHumano.position.x, yObjetivo, cacheHumano.position.z);
      MoverHacia(sobre, velCrucero, e);
      if WithinXZ(transform.position, sobre, 0.8) {
        var dir := Sub(transform.position, sobre);
        dir := Vec3(dir.x, 0.0, dir.z);
        if SqMag(dir) < 0.01 {
          dir := e.sphere;
        }
        dir := Vec3(dir.x, 0.0, dir.z);
        dir := e.normalize(dir);
        var plano := Add(cacheHumano.position, Scale(dir, offsetAterrizaje));
        var hit := e.groundHeight(plano.x, plano.z, plano.y + 200.0, 500.0);
        if hit.Some? {
          puntoAterrizaje := Vec3(plano.x, hit.value, plano.z);
        } else {
          puntoAterrizaje := Vec3(plano.x, nivelSueloOrigen, plano.z);
        }
        estado := Land;
      }
    }

    /** `ActualizarLand`: flies at cruise height until within 0.5 m horizontally of the landing
     *  point, then descends onto it; within `epsPos + 0.05` it has landed. */
    method ActualizarLand(e: Engine)
      modifies transform`position, this`estado
      ensures var destino := puntoAterrizaje;
        transform.position == if !WithinXZ(old(transform.position), destino, 0.5)
          then Toward(e, old(transform.position), Vec3(destino.x, yObjetivo, destino.z), velCrucero)
          else Toward(e, old(transform.position), destino, velDescenso)
      ensures estado == if Within(transform.position, puntoAterrizaje, epsPos + 0.05) then Landed else old(estado)
    {
      var destino := puntoAterrizaje;
      var encima := Vec3(destino.x, yObjetivo, destino.z);
      if !WithinXZ(transform.position, destino, 0.5) {
        MoverHacia(encima, velCrucero, e);
      } else {
        MoverHacia(destino, velDescenso, e);
      }
      if Within(transform.position, destino, epsPos + 0.05) {
        estado := Landed;
      }
    }

    /** `BuscarHumano`: polls the detector once every `actualizarObjetivoCada` seconds; a
     *  match becomes the target and starts the approach, no match changes nothing else. */
    method BuscarHumano(e: Engine)
      modifies this`tUltimaAct, this`cacheHumano, this`estado
      ensures var polled := usarDeteccion && e.time - old(tUltimaAct) >= actualizarObjetivoCada;
        && tUltimaAct == (if polled then e.time else old(tUltimaAct))
        && (polled && Sighted(e) != null ==> cacheHumano == Sighted(e) && estado == Approach)
        && (!(polled && Sighted(e) != null) ==> cacheHumano == old(cacheHumano) && estado == old(estado))
    {
      if usarDeteccion && e.time - tUltimaAct >= actualizarObjetivoCada {
        tUltimaAct := e.time;
        if detector != null {
          var ok, npc := detector.TryFindBestMatchingPerson(e.persons, detector.confidenceThreshold);
          if ok {
            cacheHumano := npc;
            estado := Approach;
          }
        }
      }
    }

    /** The patrol case of `Update`: a free-search or A-B step, then a poll of the detector. */
    method PatrolFrame(e: Engine)
      requires Valid() && estado == Patrol
      modifies transform`position, this`estado, this`idxObjetivo, this`destinoLibre, this`tUltimoCambioDestino
      modifies this`tUltimaAct, this`cacheHumano
      ensures Valid()
      ensures busquedaLibre ==>
        var refresh := e.time - old(tUltimoCambioDestino) >= cambiarDestinoCada
                    || WithinXZ(old(transform.position), old(destinoLibre), epsPos);
        && idxObjetivo == old(idxObjetivo)
        && destinoLibre == (if refresh then RandomPoint(patrolArea, margenBorde, yObjetivo, origen, radioBusquedaLibre, e)
                            else old(destinoLibre))
        && tUltimoCambioDestino == (if refresh then e.time else old(tUltimoCambioDestino))
        && transform.position == Toward(e, old(transform.position), Vec3(destinoLibre.x, yObjetivo, destinoLibre.z), velCrucero)
      ensures !busquedaLibre ==>
        var objetivo := Vec3(puntos[old(idxObjetivo)].x, yObjetivo, puntos[old(idxObjetivo)].z);
        && destinoLibre == old(destinoLibre) && tUltimoCambioDestino == old(tUltimoCambioDestino)
        && transform.position == Toward(e, old(transform.position), objetivo, velCrucero)
        && idxObjetivo == if WithinXZ(transform.position, objetivo, epsPos) then 1 - old(idxObjetivo) else old(idxObjetivo)
      ensures var polled := usarDeteccion && e.time - old(tUltimaAct) >= actualizarObjetivoCada;
        && tUltimaAct == (if polled then e.time else old(tUltimaAct))
        && (polled && Sighted(e) != null ==> cacheHumano == Sighted(e) && estado == Approach)
        && (!(polled && Sighted(e) != null) ==> cacheHumano == old(cacheHumano) && estado == Patrol)
    {
      if busquedaLibre {
        ActualizarBusquedaLibre(e);
      } else {
        ActualizarPatrullaAB(e);
      }
      BuscarHumano(e);
    }

    /** `Update`: one frame of the state machine. Each state runs its own step; a patrol
     *  frame moves first (free search or A-B) and then polls the detector, so a match found
     *  in that poll ends the frame in `Approach`. Idle and landed frames change nothing, and
     *  no setting, route point or origin ever changes. */
    method Update(e: Engine)
      requires Valid()
      modifies transform`position, this`estado, this`idxObjetivo, this`destinoLibre, this`tUltimoCambioDestino
      modifies this`tUltimaAct, this`cacheHumano, this`puntoAterrizaje
      ensures Valid() && Step(old(estado), estado)
      ensures old(estado) == Idle || old(estado) == Landed ==> unchanged(this, transform)
      ensures old(estado) != Patrol ==>
        && tUltimaAct == old(tUltimaAct) && cacheHumano == old(cacheHumano) && idxObjetivo == old(idxObjetivo)
        && destinoLibre == old(destinoLibre) && tUltimoCambioDestino == old(tUltimoCambioDestino)
      ensures old(estado) != Approach ==> puntoAterrizaje == old(puntoAterrizaje)
      ensures old(estado) == Takeoff ==>
        && transform.position == Toward(e, old(transform.position),
             Vec3(old(transform.position).x, yObjetivo, old(transform.position).z), velAscenso)
        && estado == if Abs(transform.position.y - yObjetivo) <= epsAltura
                     then (if Live(cacheHumano) then Approach else Patrol) else Takeoff
      ensures old(estado) == Patrol && busquedaLibre ==>
        var refresh := e.time - old(tUltimoCambioDestino) >= cambiarDestinoCada
                    || WithinXZ(old(transform.position), old(destinoLibre), epsPos);
        && idxObjetivo == old(idxObjetivo)
        && destinoLibre == (if refresh then RandomPoint(patrolArea, margenBorde, yObjetivo, origen, radioBusquedaLibre, e)
                            else old(destinoLibre))
        && tUltimoCambioDestino == (if refresh then e.time else old(tUltimoCambioDestino))
        && transform.position == Toward(e, old(transform.position), Vec3(destinoLibre.x, yObjetivo, destinoLibre.z), velCrucero)
      ensures old(estado) == Patrol && !busquedaLibre ==>
        var objetivo := Vec3(puntos[old(idxObjetivo)].x, yObjetivo, puntos[old(idxObjetivo)].z);
        && destinoLibre == old(destinoLibre) && tUltimoCambioDestino == old(tUltimoCambioDestino)
        && transform.position == Toward(e, old(transform.position), objetivo, velCrucero)
        && idxObjetivo == if WithinXZ(transform.position, objetivo, epsPos) then 1 - old(idxObjetivo) else old(idxObjetivo)
      ensures old(estado) == Patrol ==>
        var polled := usarDeteccion && e.time - old(tUltimaAct) >= actualizarObjetivoCada;
        && tUltimaAct == (if polled then e.time else old(tUltimaAct))
        && (polled && Sighted(e) != null ==> cacheHumano == Sighted(e) && estado == Approach)
        && (!(polled && Sighted(e) != null) ==> cacheHumano == old(cacheHumano) && estado == Patrol)
      ensures old(estado) == Approach && !Live(cacheHumano) ==>
        estado == Patrol && transform.position == old(transform.position) && puntoAterrizaje == old(puntoAterrizaje)
      ensures old(estado) == Approach && Live(cacheHumano) ==>
        var sobre := Vec3(cacheHumano.position.x, yObjetivo, cacheHumano.position.z);
        && transform.position == Toward(e, old(transform.position), sobre, velCrucero)
        && (WithinXZ(transform.position, sobre, 0.8) ==>
              && estado == Land
              && puntoAterrizaje == LandingPoint(cacheHumano.position, LandingDir(transform.position, sobre, e),
                                                 offsetAterrizaje, nivelSueloOrigen, e))
        && (!WithinXZ(transform.position, sobre, 0.8) ==> estado == Approach && puntoAterrizaje == old(puntoAterrizaje))
      ensures old(estado) == Land ==>
        && transform.position == (if !WithinXZ(old(transform.position), puntoAterrizaje, 0.5)
             then Toward(e, old(transform.position), Vec3(puntoAterrizaje.x, yObjetivo, puntoAterrizaje.z), velCrucero)
             else Toward(e, old(transform.position), puntoAterrizaje, velDescenso))
        && estado == if Within(transform.position, puntoAterrizaje, epsPos + 0.05) then Landed else Land
    {
      match estado {
        case Takeoff =>
          ActualizarTakeoff(e);
        case Patrol =>
          PatrolFrame(e);
        case Approach =>
          ActualizarApproach(e);
        case Land =>
          ActualizarLand(e);
        case Landed =>
        case Idle =>
      }
    }
  }
}
