/** The earlier revision of the simulator: a grid that only grows, three
    noise-free sensors that always look towards +x, and a car whose speed
    goes up without a cap. */
module Revision2 {
  import opened Common
  import opened Readings

  /** The entities of this revision; a light has a fixed colour and no timer. */
  datatype Entity =
    | ParkedCar(id: string, pos: Position)
    | StopSign(id: string, pos: Position)
    | TrafficLight(id: string, pos: Position, state: LightColor)
    | Bike(id: string, pos: Position, speed: int, heading: Heading)
    | OtherCar(id: string, pos: Position, speed: int, heading: Heading)
  {
    function TypeName(): string
    {
      match this
      case ParkedCar(_, _) => "ParkedCar"
      case StopSign(_, _) => "StopSign"
      case TrafficLight(_, _, _) => "TrafficLight"
      case Bike(_, _, _, _) => "Bike"
      case OtherCar(_, _, _, _) => "Car"
    }

    predicate IsMoving()
    {
      Bike? || OtherCar?
    }

    function Speed(): int
    {
      if IsMoving() then speed else 0
    }

    function Direction(): Option<Heading>
    {
      if IsMoving() then Some(heading) else None
    }

    function SignText(): string
    {
      if StopSign? then "STOP" else ""
    }

    function TrafficLightState(): Option<LightColor>
    {
      if TrafficLight? then Some(state) else None
    }
  }

  class GridWorld {
    const dimX: int
    const dimY: int
    var objects: seq<Entity>

    constructor (x: int, y: int)
      ensures dimX == x && dimY == y && objects == []
    {
      dimX, dimY := x, y;
      objects := [];
    }

    /** Appends; every earlier entity keeps its place. */
    method AddObject(obj: Entity)
      modifies this
      ensures objects == old(objects) + [obj]
      ensures forall i :: 0 <= i < |old(objects)| ==> objects[i] == old(objects)[i]
    {
      objects := objects + [obj];
    }

    /** The cell test; a grid holding any cell has positive dimensions. */
    predicate InBounds(x: int, y: int)
      ensures InBounds(x, y) ==> dimX > 0 && dimY > 0
    {
      x >= 0 && x < dimX && y >= 0 && y < dimY
    }
  }

  datatype SensorKind = Lidar | Radar | Camera

  const LidarRange: int := 4
  const RadarRange: int := 12
  const CameraRange: int := 3

  /** Whether sensor `s` on the car's cell detects an entity. */
  predicate Sees(s: SensorKind, o: Entity, car: Position)
  {
    var dx := o.pos.x - car.x;
    var dy := o.pos.y - car.y;
    match s
    case Lidar => Abs(dx) <= LidarRange && Abs(dy) <= LidarRange
    case Radar => dx > 0 && dx <= RadarRange && dy == 0
    case Camera => dx > 0 && dx <= CameraRange && Abs(dy) <= CameraRange
  }

  /** The fixed confidence of each sensor. */
  function Base(s: SensorKind): real
  {
    match s
    case Lidar => 0.99
    case Radar => 0.95
    case Camera => 0.87
  }

  /** The reading carries the entity's own fields unchanged. */
  predicate CopiesEntity(r: Reading, o: Entity)
  {
    && r.objectType == o.TypeName() && r.objectId == o.id && r.position == o.pos
    && r.speed == o.Speed() && r.direction == o.Direction()
    && r.signText == o.SignText() && r.trafficLight == o.TrafficLightState()
  }

  /** The reading sensor `s` produces for an entity it sees. */
  function ReadingOf(s: SensorKind, o: Entity, car: Position): (r: Reading)
    ensures CopiesEntity(r, o)
    ensures r.confidence == Base(s)
    ensures s == Radar ==> r.distance == o.pos.x - car.x
    ensures s != Radar ==> r.distance == car.DistanceTo(o.pos)
  {
    var dx := o.pos.x - car.x;
    var dy := o.pos.y - car.y;
    Reading(o.TypeName(), o.pos, o.id, Base(s),
            if s == Radar then dx else Abs(dx) + Abs(dy),
            o.Speed(), o.Direction(), o.SignText(), o.TrafficLightState())
  }

  /** The readings of one scan over `objs`, in the entities' order. */
  function Scan(s: SensorKind, objs: seq<Entity>, car: Position): seq<Reading>
    decreases |objs|
  {
    if objs == [] then []
    else
      var n := |objs| - 1;
      Scan(s, objs[..n], car) + (if Sees(s, objs[n], car) then [ReadingOf(s, objs[n], car)] else [])
  }

  /** One more entity of the list, one more step of the scan. */
  lemma ScanPrefix(s: SensorKind, objs: seq<Entity>, car: Position, i: int)
    requires 0 <= i < |objs|
    ensures Scan(s, objs[..i + 1], car) ==
            Scan(s, objs[..i], car) + (if Sees(s, objs[i], car) then [ReadingOf(s, objs[i], car)] else [])
  {
    assert objs[..i + 1][..i] == objs[..i];
  }

  /** A sensor's `scan`: the loop over the world's entities. */
  method ScanWorld(s: SensorKind, world: GridWorld, carX: int, carY: int) returns (results: seq<Reading>)
    ensures results == Scan(s, world.objects, Position(carX, carY))
  {
    var objs := world.objects;
    var car := Position(carX, carY);
    results := [];
    for i := 0 to |objs|
      invariant results == Scan(s, objs[..i], car)
    {
      ScanPrefix(s, objs, car, i);
      var obj := objs[i];
      if Sees(s, obj, car) {
        results := results + [ReadingOf(s, obj, car)];
      }
    }
    assert objs[..|objs|] == objs;
  }

  lemma ScanLast(s: SensorKind, objs: seq<Entity>, car: Position)
    requires |objs| > 0
    ensures var n := |objs| - 1;
            Scan(s, objs, car) ==
            Scan(s, objs[..n], car) + (if Sees(s, objs[n], car) then [ReadingOf(s, objs[n], car)] else [])
  {
  }

  /** Scanning is order-preserving: the scan of two lists is the scan of the
      first followed by the scan of the second. */
  lemma {:induction false} ScanAppend(s: SensorKind, a: seq<Entity>, b: seq<Entity>, car: Position)
    ensures Scan(s, a + b, car) == Scan(s, a, car) + Scan(s, b, car)
    decreases |b|
  {
    if b != [] {
      var n := |b| - 1;
      ScanLast(s, a + b, car);
      ScanLast(s, b, car);
      assert (a + b)[..|a| + n] == a + b[..n];
      assert (a + b)[|a| + n] == b[n];
      ScanAppend(s, a, b[..n], car);
    } else {
      assert a + b == a;
    }
  }

  /** Adding an entity leaves every earlier reading in place and adds at most one at the end. */
  lemma ScanAfterAdd(s: SensorKind, objs: seq<Entity>, o: Entity, car: Position)
    ensures Scan(s, objs + [o], car) ==
            Scan(s, objs, car) + (if Sees(s, o, car) then [ReadingOf(s, o, car)] else [])
  {
    ScanAppend(s, objs, [o], car);
    assert [o][..0] == [];
  }

  lemma {:induction false} ScanSound(s: SensorKind, objs: seq<Entity>, car: Position, r: Reading)
    requires r in Scan(s, objs, car)
    ensures exists i :: 0 <= i < |objs| && Sees(s, objs[i], car) && r == ReadingOf(s, objs[i], car)
    decreases |objs|
  {
    var n := |objs| - 1;
    assert Scan(s, objs, car) ==
           Scan(s, objs[..n], car) + (if Sees(s, objs[n], car) then [ReadingOf(s, objs[n], car)] else []);
    if r in Scan(s, objs[..n], car) {
      ScanSound(s, objs[..n], car, r);
      var i :| 0 <= i < n && Sees(s, objs[..n][i], car) && r == ReadingOf(s, objs[..n][i], car);
      assert objs[..n][i] == objs[i];
    }
  }

  lemma {:induction false} ScanComplete(s: SensorKind, objs: seq<Entity>, car: Position, i: int)
    requires 0 <= i < |objs| && Sees(s, objs[i], car)
    ensures ReadingOf(s, objs[i], car) in Scan(s, objs, car)
    decreases |objs|
  {
    var n := |objs| - 1;
    assert Scan(s, objs, car) ==
           Scan(s, objs[..n], car) + (if Sees(s, objs[n], car) then [ReadingOf(s, objs[n], car)] else []);
    if i < n {
      assert objs[..n][i] == objs[i];
      ScanComplete(s, objs[..n], car, i);
    }
  }

  /** A reading is in a scan exactly when it is the reading of an entity its sensor sees. */
  lemma ScanMembership(s: SensorKind, objs: seq<Entity>, car: Position, r: Reading)
    ensures r in Scan(s, objs, car) <==>
            exists i :: 0 <= i < |objs| && Sees(s, objs[i], car) && r == ReadingOf(s, objs[i], car)
  {
    if r in Scan(s, objs, car) {
      ScanSound(s, objs, car, r);
    }
    if exists i :: 0 <= i < |objs| && Sees(s, objs[i], car) && r == ReadingOf(s, objs[i], car) {
      var i :| 0 <= i < |objs| && Sees(s, objs[i], car) && r == ReadingOf(s, objs[i], car);
      ScanComplete(s, objs, car, i);
    }
  }

  /** Every reading of a scan copies one entity of the world unchanged. */
  lemma ScanCopiesEntities(s: SensorKind, objs: seq<Entity>, car: Position)
    ensures forall r :: r in Scan(s, objs, car) ==>
              exists o :: o in objs && CopiesEntity(r, o) && r.confidence == Base(s)
  {
    forall r | r in Scan(s, objs, car)
      ensures exists o :: o in objs && CopiesEntity(r, o) && r.confidence == Base(s)
    {
      ScanSound(s, objs, car, r);
      var i :| 0 <= i < |objs| && Sees(s, objs[i], car) && r == ReadingOf(s, objs[i], car);
      assert objs[i] in objs;
    }
  }

  /** Lidar: the 9 by 9 square around the car, Manhattan distance, confidence 0.99. */
  lemma LidarFieldOfView(objs: seq<Entity>, car: Position)
    ensures forall r :: r in Scan(Lidar, objs, car) ==>
              && Abs(r.position.x - car.x) <= 4 && Abs(r.position.y - car.y) <= 4
              && r.distance == Abs(r.position.x - car.x) + Abs(r.position.y - car.y)
              && r.confidence == 0.99
  {
    forall r | r in Scan(Lidar, objs, car)
      ensures Abs(r.position.x - car.x) <= 4 && Abs(r.position.y - car.y) <= 4
      ensures r.distance == Abs(r.position.x - car.x) + Abs(r.position.y - car.y)
      ensures r.confidence == 0.99
    {
      ScanSound(Lidar, objs, car, r);
    }
  }

  /** Radar: the row of the car, 1 to 12 cells towards +x, static entities
      included; distance is the x offset and confidence 0.95. */
  lemma RadarFieldOfView(objs: seq<Entity>, car: Position)
    ensures forall r :: r in Scan(Radar, objs, car) ==>
              && r.position.y == car.y
              && r.distance == r.position.x - car.x
              && 1 <= r.distance <= 12
              && r.confidence == 0.95
  {
    forall r | r in Scan(Radar, objs, car)
      ensures r.position.y == car.y && r.distance == r.position.x - car.x
      ensures 1 <= r.distance <= 12 && r.confidence == 0.95
    {
      ScanSound(Radar, objs, car, r);
    }
  }

  /** Camera: 1 to 3 cells towards +x and at most 3 to either side, Manhattan
      distance at most 6, confidence 0.87. */
  lemma CameraFieldOfView(objs: seq<Entity>, car: Position)
    ensures forall r :: r in Scan(Camera, objs, car) ==>
              && 1 <= r.position.x - car.x <= 3 && Abs(r.position.y - car.y) <= 3
              && r.distance == car.DistanceTo(r.position) <= 6
              && r.confidence == 0.87
  {
    forall r | r in Scan(Camera, objs, car)
      ensures 1 <= r.position.x - car.x <= 3 && Abs(r.position.y - car.y) <= 3
      ensures r.distance == car.DistanceTo(r.position) <= 6
      ensures r.confidence == 0.87
    {
      ScanSound(Camera, objs, car, r);
    }
  }

  /** Unlike the later radar, this one reports a parked car straight ahead. */
  lemma RadarSeesParkedCar(car: Position)
    ensures var o := ParkedCar("ParkedCar:1", Position(car.x + 5, car.y));
            Scan(Radar, [o], car) == [ReadingOf(Radar, o, car)]
            && ReadingOf(Radar, o, car).distance == 5 && ReadingOf(Radar, o, car).speed == 0
  {
    var o := ParkedCar("ParkedCar:1", Position(car.x + 5, car.y));
    assert [o][..0] == [];
  }

  class SelfDrivingCar {
    var position: Position
    var speed: int
    var direction: Heading
    var cameraPos: Position
    var lidarPos: Position
    var radarPos: Position

    /** Stopped, heading E, with the sensors on the car's cell. */
    constructor (pos: Position)
      ensures position == pos && speed == 0 && direction == E
      ensures cameraPos == pos && lidarPos == pos && radarPos == pos
    {
      position, speed, direction := pos, 0, E;
      cameraPos, lidarPos, radarPos := pos, pos, pos;
    }

    /** Puts the car and all three sensors on the cell (x, y). */
    method SetPosition(x: int, y: int)
      modifies this
      ensures position == Position(x, y)
      ensures cameraPos == position && lidarPos == position && radarPos == position
      ensures speed == old(speed) && direction == old(direction)
    {
      position := Position(x, y);
      cameraPos := Position(x, y);
      lidarPos := Position(x, y);
      radarPos := Position(x, y);
    }

    /** One step up, with no upper limit. */
    method Accelerate()
      modifies this
      ensures speed == old(speed) + 1
      ensures position == old(position) && direction == old(direction)
      ensures cameraPos == old(cameraPos) && lidarPos == old(lidarPos) && radarPos == old(radarPos)
    {
      speed := speed + 1;
    }

    /** One step down, never below 0. */
    method Decelerate()
      modifies this
      ensures speed == if old(speed) > 0 then old(speed) - 1 else old(speed)
      ensures old(speed) >= 0 ==> speed >= 0
      ensures position == old(position) && direction == old(direction)
      ensures cameraPos == old(cameraPos) && lidarPos == old(lidarPos) && radarPos == old(radarPos)
    {
      if speed > 0 {
        speed := speed - 1;
      }
    }
  }
}
