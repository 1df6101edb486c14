/** The three sensors mounted on the car. Each scan walks the world's entity
    list in order and emits one reading for every entity inside its field of
    view, with a distance-weighted confidence plus a jitter of k/100,
    k in [-5, 5], clamped to [0, 1].
      - Lidar: the 9x9 square around the car, Manhattan distance.
      - Radar: a corridor 3 cells wide strictly ahead along the heading, up to
        12 cells, moving entities only; its distance is the forward offset and
        it leaves sign text and light colour empty.
      - Camera: a box 1..3 cells ahead and up to 3 cells to either side. */
module Sensors {
  import opened Common
  import opened Entities
  import opened Readings

  /** The `(rand() % 11) - 5` draw. */
  type Jitter = k: int | -5 <= k <= 5

  datatype SensorKind = Camera | Lidar | Radar

  /** The jitter drawn for the reading a sensor makes of the i-th entity. */
  type Noise = (SensorKind, nat) -> Jitter

  const LidarRange: int := 4
  const RadarRange: int := 12
  const CameraRange: int := 3

  const LidarBase: real := 0.99
  const RadarBase: real := 0.95
  const CameraBase: real := 0.87

  /** `max(0.0, min(1.0, c))`. */
  function Clamp(c: real): (r: real)
    ensures 0.0 <= r <= 1.0
    ensures 0.0 <= c <= 1.0 ==> r == c
    ensures c < 0.0 ==> r == 0.0
    ensures c > 1.0 ==> r == 1.0
  {
    if c > 1.0 then 1.0 else if c < 0.0 then 0.0 else c
  }

  /** The confidence before jitter: `base * (1 - distance / span)`. */
  function Nominal(base: real, distance: int, span: int): real
    requires span > 0
  {
    base * (1.0 - distance as real / span as real)
  }

  function Confidence(base: real, distance: int, span: int, k: Jitter): (c: real)
    requires span > 0
    ensures 0.0 <= c <= 1.0
  {
    Clamp(Nominal(base, distance, span) + k as real * 0.01)
  }

  /** The jitter moves a confidence by at most 0.05 around its nominal value. */
  lemma ConfidenceNearNominal(base: real, distance: int, span: int, k: Jitter)
    requires span > 0
    ensures Clamp(Nominal(base, distance, span) - 0.05) <= Confidence(base, distance, span, k)
    ensures Confidence(base, distance, span, k) <= Clamp(Nominal(base, distance, span) + 0.05)
  {
  }

  /** The fields every sensor copies from the entity it observes. */
  predicate CopiesEntity(r: Reading, o: Entity)
  {
    && r.objectType == o.TypeName()
    && r.objectId == o.id
    && r.position == o.pos
    && r.speed == o.Speed()
    && r.direction == o.Direction()
  }

  function LidarObserve(o: Entity, car: Position, k: Jitter): (r: Option<Reading>)
    ensures r.Some? <==> Abs(o.pos.x - car.x) <= 4 && Abs(o.pos.y - car.y) <= 4
    ensures r.Some? ==>
      && CopiesEntity(r.value, o)
      && r.value.signText == o.SignText()
      && r.value.trafficLight == o.TrafficLightState()
      && r.value.distance == car.DistanceTo(o.pos) <= 8
      && r.value.confidence == Confidence(LidarBase, r.value.distance, 2 * LidarRange, k)
  {
    var dx := o.pos.x - car.x;
    var dy := o.pos.y - car.y;
    if Abs(dx) <= LidarRange && Abs(dy) <= LidarRange then
      var distance := Abs(dx) + Abs(dy);
      Some(Reading(o.TypeName(), o.pos, o.id,
                   Confidence(LidarBase, distance, 2 * LidarRange, k),
                   distance, o.Speed(), o.Direction(), o.SignText(), o.TrafficLightState()))
    else
      None
  }

  /** The radar's corridor test and the forward distance it reports. */
  function RadarAhead(car: Position, heading: Heading, p: Position): (r: (bool, int))
    ensures r.0 <==> 0 < Forward(car, heading, p) && Lateral(car, heading, p) <= 1
    ensures r.0 ==> r.1 == Forward(car, heading, p)
  {
    var dx := p.x - car.x;
    var dy := p.y - car.y;
    if heading == E && dx > 0 && Abs(dy) <= 1 then (true, dx)
    else if heading == W && dx < 0 && Abs(dy) <= 1 then (true, Abs(dx))
    else if heading == N && dy > 0 && Abs(dx) <= 1 then (true, dy)
    else if heading == S && dy < 0 && Abs(dx) <= 1 then (true, Abs(dy))
    else (false, 0)
  }

  function RadarObserve(o: Entity, car: Position, heading: Heading, k: Jitter): (r: Option<Reading>)
    ensures r.Some? <==>
      o.Speed() > 0 && 0 < Forward(car, heading, o.pos) <= 12 && Lateral(car, heading, o.pos) <= 1
    ensures r.Some? ==>
      && CopiesEntity(r.value, o)
      && r.value.signText == ""
      && r.value.trafficLight == None
      && r.value.distance == Forward(car, heading, o.pos)
      && 1 <= r.value.distance <= 12
      && r.value.confidence == Confidence(RadarBase, r.value.distance, RadarRange, k)
  {
    var (inFront, frontDistance) := RadarAhead(car, heading, o.pos);
    if inFront && frontDistance <= RadarRange && o.Speed() > 0 then
      Some(Reading(o.TypeName(), o.pos, o.id,
                   Confidence(RadarBase, frontDistance, RadarRange, k),
                   frontDistance, o.Speed(), o.Direction(), "", None))
    else
      None
  }

  /** The camera's box: 1..3 cells ahead and at most 3 to either side. */
  predicate CameraInView(car: Position, heading: Heading, p: Position)
    ensures CameraInView(car, heading, p) <==>
      0 < Forward(car, heading, p) <= CameraRange && Lateral(car, heading, p) <= CameraRange
  {
    var dx := p.x - car.x;
    var dy := p.y - car.y;
    if heading == E && dx > 0 && dx <= CameraRange && Abs(dy) <= CameraRange then true
    else if heading == W && dx < 0 && Abs(dx) <= CameraRange && Abs(dy) <= CameraRange then true
    else if heading == N && dy > 0 && dy <= CameraRange && Abs(dx) <= CameraRange then true
    else if heading == S && dy < 0 && Abs(dy) <= CameraRange && Abs(dx) <= CameraRange then true
    else false
  }

  function CameraObserve(o: Entity, car: Position, heading: Heading, k: Jitter): (r: Option<Reading>)
    ensures r.Some? <==>
      0 < Forward(car, heading, o.pos) <= 3 && Lateral(car, heading, o.pos) <= 3
    ensures r.Some? ==>
      && CopiesEntity(r.value, o)
      && r.value.signText == o.SignText()
      && r.value.trafficLight == o.TrafficLightState()
      && r.value.distance == car.DistanceTo(o.pos) <= 6
      && r.value.confidence == Confidence(CameraBase, r.value.distance, 2 * CameraRange, k)
  {
    var dx := o.pos.x - car.x;
    var dy := o.pos.y - car.y;
    if CameraInView(car, heading, o.pos) then
      var distance := Abs(dx) + Abs(dy);
      Some(Reading(o.TypeName(), o.pos, o.id,
                   Confidence(CameraBase, distance, 2 * CameraRange, k),
                   distance, o.Speed(), o.Direction(), o.SignText(), o.TrafficLightState()))
    else
      None
  }

  /** What sensor `s` reports about one entity, if it sees it. */
  function Observe(s: SensorKind, o: Entity, car: Position, heading: Heading, k: Jitter): Option<Reading>
  {
    match s
    case Lidar => LidarObserve(o, car, k)
    case Radar => RadarObserve(o, car, heading, k)
    case Camera => CameraObserve(o, car, heading, k)
  }

  /** What each entity of `objs` yields to sensor `s`, slot by slot. */
  function Views(s: SensorKind, objs: seq<Entity>, car: Position, heading: Heading, noise: Noise)
    : (v: seq<Option<Reading>>)
    ensures |v| == |objs|
    ensures forall i :: 0 <= i < |objs| ==> v[i] == Observe(s, objs[i], car, heading, noise(s, i))
  {
    seq(|objs|, i requires 0 <= i < |objs| => Observe(s, objs[i], car, heading, noise(s, i)))
  }

  /** The readings a run of observations emits, in order. */
  function Collect(views: seq<Option<Reading>>): seq<Reading>
    decreases |views|
  {
    if views == [] then [] else Collect(views[..|views| - 1]) + Emit(views[|views| - 1])
  }

  /** The readings of one scan over `objs`, in the entities' order. */
  function Scan(s: SensorKind, objs: seq<Entity>, car: Position, heading: Heading, noise: Noise): seq<Reading>
  {
    Collect(Views(s, objs, car, heading, noise))
  }

  /** The readings an optional observation contributes. */
  function Emit(seen: Option<Reading>): (rs: seq<Reading>)
    ensures forall r :: r in rs <==> seen == Some(r)
    ensures |rs| <= 1
  {
    match seen
    case Some(r) => [r]
    case None => []
  }

  /** A sensor's `scan`: the loop over the world's entities. */
  method ScanWorld(s: SensorKind, objs: seq<Entity>, car: Position, heading: Heading, noise: Noise)
    returns (results: seq<Reading>)
    ensures results == Scan(s, objs, car, heading, noise)
  {
    ghost var views := Views(s, objs, car, heading, noise);
    results := [];
    var i := 0;
    while i < |objs|
      invariant 0 <= i <= |objs|
      invariant results == Collect(views[..i])
    {
      assert views[..i + 1][..i] == views[..i];
      var seen := Observe(s, objs[i], car, heading, noise(s, i));
      if seen.Some? {
        results := results + [seen.value];
      }
      i := i + 1;
    }
    assert views[..|objs|] == views;
  }

  /** Every collected reading comes from one of the observations. */
  lemma {:induction false} CollectSound(views: seq<Option<Reading>>, r: Reading)
    requires r in Collect(views)
    ensures exists i :: 0 <= i < |views| && views[i] == Some(r)
    decreases |views|
  {
    var n := |views| - 1;
    if r in Collect(views[..n]) {
      CollectSound(views[..n], r);
      var i :| 0 <= i < n && views[..n][i] == Some(r);
      assert views[i] == Some(r);
    }
  }

  /** Every observation that sees something contributes its reading. */
  lemma {:induction false} CollectComplete(views: seq<Option<Reading>>, i: nat)
    requires i < |views| && views[i].Some?
    ensures views[i].value in Collect(views)
    decreases |views|
  {
    var n := |views| - 1;
    if i < n {
      assert views[..n][i] == views[i];
      CollectComplete(views[..n], i);
    }
  }

  /** At most one reading per observation. */
  lemma {:induction false} CollectLength(views: seq<Option<Reading>>)
    ensures |Collect(views)| <= |views|
    decreases |views|
  {
    if views != [] {
      CollectLength(views[..|views| - 1]);
    }
  }

  /** Every reading of a scan comes from one of the entities. */
  lemma ScanSound(s: SensorKind, objs: seq<Entity>, car: Position, heading: Heading,
                  noise: Noise, r: Reading)
    requires r in Scan(s, objs, car, heading, noise)
    ensures exists i :: 0 <= i < |objs| && Observe(s, objs[i], car, heading, noise(s, i)) == Some(r)
  {
    var views := Views(s, objs, car, heading, noise);
    CollectSound(views, r);
    var i :| 0 <= i < |views| && views[i] == Some(r);
    assert Observe(s, objs[i], car, heading, noise(s, i)) == Some(r);
  }

  /** Every entity a sensor sees contributes its reading to the scan. */
  lemma ScanComplete(s: SensorKind, objs: seq<Entity>, car: Position, heading: Heading,
                     noise: Noise, i: nat)
    requires i < |objs| && Observe(s, objs[i], car, heading, noise(s, i)).Some?
    ensures Observe(s, objs[i], car, heading, noise(s, i)).value in Scan(s, objs, car, heading, noise)
  {
    CollectComplete(Views(s, objs, car, heading, noise), i);
  }

  /** A reading is in a scan exactly when some entity produced it. */
  lemma ScanMembership(s: SensorKind, objs: seq<Entity>, car: Position, heading: Heading,
                       noise: Noise, r: Reading)
    ensures r in Scan(s, objs, car, heading, noise) <==>
            exists i :: 0 <= i < |objs| && Observe(s, objs[i], car, heading, noise(s, i)) == Some(r)
  {
    if r in Scan(s, objs, car, heading, noise) {
      ScanSound(s, objs, car, heading, noise, r);
    }
    if exists i :: 0 <= i < |objs| && Observe(s, objs[i], car, heading, noise(s, i)) == Some(r) {
      var i :| 0 <= i < |objs| && Observe(s, objs[i], car, heading, noise(s, i)) == Some(r);
      ScanComplete(s, objs, car, heading, noise, i);
    }
  }

  /** One scan yields at most one reading per entity. */
  lemma ScanLength(s: SensorKind, objs: seq<Entity>, car: Position, heading: Heading, noise: Noise)
    ensures |Scan(s, objs, car, heading, noise)| <= |objs|
  {
    CollectLength(Views(s, objs, car, heading, noise));
  }

  /** Every Lidar reading lies in the 9x9 square, at its Manhattan distance. */
  lemma LidarFieldOfView(objs: seq<Entity>, car: Position, heading: Heading, noise: Noise)
    ensures forall r :: r in Scan(Lidar, objs, car, heading, noise) ==>
      && Abs(r.position.x - car.x) <= 4 && Abs(r.position.y - car.y) <= 4
      && r.distance == Abs(r.position.x - car.x) + Abs(r.position.y - car.y) <= 8
      && 0.0 <= r.confidence <= 1.0
  {
    forall r | r in Scan(Lidar, objs, car, heading, noise)
      ensures Abs(r.position.x - car.x) <= 4 && Abs(r.position.y - car.y) <= 4
      ensures r.distance == Abs(r.position.x - car.x) + Abs(r.position.y - car.y) <= 8
      ensures 0.0 <= r.confidence <= 1.0
    {
      ScanMembership(Lidar, objs, car, heading, noise, r);
    }
  }

  /** Every Radar reading is of a moving entity strictly ahead, at most one
      cell to the side; its distance is the forward offset in 1..12 and it
      carries no sign text and no light colour. */
  lemma RadarFieldOfView(objs: seq<Entity>, car: Position, heading: Heading, noise: Noise)
    ensures forall r :: r in Scan(Radar, objs, car, heading, noise) ==>
      && r.speed > 0
      && r.distance == Forward(car, heading, r.position)
      && 1 <= r.distance <= 12
      && Lateral(car, heading, r.position) <= 1
      && r.signText == "" && r.trafficLight == None
      && 0.0 <= r.confidence <= 1.0
  {
    forall r | r in Scan(Radar, objs, car, heading, noise)
      ensures r.speed > 0
      ensures r.distance == Forward(car, heading, r.position)
      ensures 1 <= r.distance <= 12
      ensures Lateral(car, heading, r.position) <= 1
      ensures r.signText == "" && r.trafficLight == None
      ensures 0.0 <= r.confidence <= 1.0
    {
      ScanMembership(Radar, objs, car, heading, noise, r);
    }
  }

  /** Every Camera reading lies 1..3 cells ahead and at most 3 to the side. */
  lemma CameraFieldOfView(objs: seq<Entity>, car: Position, heading: Heading, noise: Noise)
    ensures forall r :: r in Scan(Camera, objs, car, heading, noise) ==>
      && 1 <= Forward(car, heading, r.position) <= 3
      && Lateral(car, heading, r.position) <= 3
      && r.distance == car.DistanceTo(r.position) <= 6
      && 0.0 <= r.confidence <= 1.0
  {
    forall r | r in Scan(Camera, objs, car, heading, noise)
      ensures 1 <= Forward(car, heading, r.position) <= 3
      ensures Lateral(car, heading, r.position) <= 3
      ensures r.distance == car.DistanceTo(r.position) <= 6
      ensures 0.0 <= r.confidence <= 1.0
    {
      ScanMembership(Camera, objs, car, heading, noise, r);
    }
  }

  /** A scan only reports entities that are in the list: an entity removed
      from the world is absent from every later reading. */
  lemma ScanReportsPresentIds(s: SensorKind, objs: seq<Entity>, car: Position, heading: Heading, noise: Noise)
    ensures forall r :: r in Scan(s, objs, car, heading, noise) ==> r.objectId in Ids(objs)
  {
    forall r | r in Scan(s, objs, car, heading, noise) ensures r.objectId in Ids(objs) {
      ScanMembership(s, objs, car, heading, noise, r);
      var i :| 0 <= i < |objs| && Observe(s, objs[i], car, heading, noise(s, i)) == Some(r);
      assert objs[i] in objs;
    }
  }

  /** The car's `collectSensorData`: camera, then lidar, then radar. */
  function Perceive(objs: seq<Entity>, car: Position, heading: Heading, noise: Noise): seq<Reading>
  {
    Scan(Camera, objs, car, heading, noise) + Scan(Lidar, objs, car, heading, noise)
      + Scan(Radar, objs, car, heading, noise)
  }

  lemma PerceiveConfidenceInUnitInterval(objs: seq<Entity>, car: Position, heading: Heading, noise: Noise)
    ensures forall r :: r in Perceive(objs, car, heading, noise) ==> 0.0 <= r.confidence <= 1.0
    ensures forall r :: r in Perceive(objs, car, heading, noise) ==> r.objectId in Ids(objs)
  {
    LidarFieldOfView(objs, car, heading, noise);
    RadarFieldOfView(objs, car, heading, noise);
    CameraFieldOfView(objs, car, heading, noise);
    ScanReportsPresentIds(Camera, objs, car, heading, noise);
    ScanReportsPresentIds(Lidar, objs, car, heading, noise);
    ScanReportsPresentIds(Radar, objs, car, heading, noise);
  }
}
