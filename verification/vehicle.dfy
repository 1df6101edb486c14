/** The self-driving car: its position, speed and heading, the three sensors
    mounted on it, the navigation system it drives by, and the readings of
    the current tick. */
module Vehicle {
  import opened Common
  import opened Readings
  import World
  import Sensors
  import Fusion
  import Navigation

  /** The part of the car a decision acts on. */
  datatype CarState = CarState(position: Position, speed: int, direction: Heading,
                               targets: seq<Position>, index: nat)

  /** `accelerate`: stopped to half speed, half to full, full stays full. */
  function Accelerated(speed: int): (s: int)
    ensures 0 <= speed <= 2 ==> 0 < s <= 2
    ensures 0 <= speed < 2 ==> s == speed + 1
    ensures speed == 2 ==> s == 2
    ensures speed < 0 || speed > 2 ==> s == speed
  {
    if speed == 0 then 1 else if speed == 1 then 2 else speed
  }

  /** `decelerate`: one step down, never below 0. */
  function Decelerated(speed: int): (s: int)
    ensures speed > 0 ==> s == speed - 1
    ensures speed <= 0 ==> s == speed
    ensures 0 <= speed <= 2 ==> 0 <= s <= 2
  {
    if speed > 0 then speed - 1 else speed
  }

  /** The state after the speed or heading change a decision asks for. */
  function Adjusted(s: CarState, d: Navigation.Action): CarState
  {
    match d
    case Accelerate => s.(speed := Accelerated(s.speed))
    case Decelerate => s.(speed := Decelerated(s.speed))
    case Turn(h) => s.(direction := h)
    case _ => s
  }

  /** `executeMovement` on values: decide, act, then move `speed` cells
      along the heading if that stays on the grid. The flag is false when
      the car stops or would leave the grid. */
  function Execute(s: CarState, fused: seq<Reading>, world: World.GridWorld): (bool, CarState)
  {
    var d := Navigation.Decide(s.targets, s.index, s.position, s.direction, fused, s.speed);
    if d == Navigation.NextTarget then (true, s.(index := Navigation.NextIndex(s.targets, s.index)))
    else if d == Navigation.Stop then (false, s.(speed := 0))
    else
      var a := Adjusted(s, d);
      if a.speed > 0 then
        var target := Advance(a.position, a.direction, a.speed);
        if world.InBounds(target.x, target.y) then (true, a.(position := target)) else (false, a)
      else (true, a)
  }

  /** Speed stays in {0, 1, 2}. */
  lemma ExecuteKeepsSpeedRange(s: CarState, fused: seq<Reading>, world: World.GridWorld)
    requires 0 <= s.speed <= 2
    ensures 0 <= Execute(s, fused, world).1.speed <= 2
  {
  }

  /** A car on the grid stays on it: a move is made only when its target cell is in bounds. */
  lemma ExecuteStaysInBounds(s: CarState, fused: seq<Reading>, world: World.GridWorld)
    requires world.InBounds(s.position.x, s.position.y)
    ensures var p := Execute(s, fused, world).1.position; world.InBounds(p.x, p.y)
  {
  }

  /** The car either stays put or moves `speed` cells along its (new) heading,
      and the target list never changes. */
  lemma ExecuteMovesAlongHeading(s: CarState, fused: seq<Reading>, world: World.GridWorld)
    ensures var r := Execute(s, fused, world).1;
            && (r.position == s.position || (r.speed > 0 && r.position == Advance(s.position, r.direction, r.speed)))
            && r.targets == s.targets
  {
  }

  /** NEXT_TARGET advances the cursor and reports success without moving. */
  lemma ExecuteNextTarget(s: CarState, fused: seq<Reading>, world: World.GridWorld)
    requires Navigation.Decide(s.targets, s.index, s.position, s.direction, fused, s.speed) == Navigation.NextTarget
    ensures Execute(s, fused, world) == (true, s.(index := Navigation.NextIndex(s.targets, s.index)))
  {
  }

  /** STOP zeroes the speed and reports failure, in place. */
  lemma ExecuteStop(s: CarState, fused: seq<Reading>, world: World.GridWorld)
    requires Navigation.Decide(s.targets, s.index, s.position, s.direction, fused, s.speed) == Navigation.Stop
    ensures Execute(s, fused, world) == (false, s.(speed := 0))
  {
  }

  /** The flag is false exactly when the decision was STOP or the move would leave the grid. */
  lemma ExecuteFailsIff(s: CarState, fused: seq<Reading>, world: World.GridWorld)
    ensures var d := Navigation.Decide(s.targets, s.index, s.position, s.direction, fused, s.speed);
            var a := Adjusted(s, d);
            var target := Advance(a.position, a.direction, a.speed);
            !Execute(s, fused, world).0 <==>
              d == Navigation.Stop
              || (d != Navigation.NextTarget && a.speed > 0 && !world.InBounds(target.x, target.y))
  {
  }

  /** The approach invariant: a target remains and the car is off it, and
      once within 5 cells it is slow enough (stopped, or at most `d - 2`)
      that one step of deceleration per tick never carries it onto it. */
  predicate OffTarget(s: CarState)
  {
    && s.index < |s.targets| && 0 <= s.speed <= 2
    && var d := s.position.DistanceTo(s.targets[s.index]);
       d > 0 && (d <= 5 ==> s.speed == 0 || s.speed <= d - 2)
  }

  /** Every tick keeps the approach invariant and the cursor: the car slows
      down inside 5 cells before it can get there, so it never stands on a
      target it did not start on. */
  lemma ExecuteKeepsOffTarget(s: CarState, fused: seq<Reading>, world: World.GridWorld)
    requires OffTarget(s)
    ensures var r := Execute(s, fused, world).1;
            OffTarget(r) && r.index == s.index && r.targets == s.targets
  {
    var target := s.targets[s.index];
    var r := Execute(s, fused, world).1;
    Navigation.NextTargetIffOnTarget(s.targets, s.index, s.position, s.direction, fused, s.speed);
    Navigation.StopIffNoTargets(s.targets, s.index, s.position, s.direction, fused, s.speed);
    Navigation.DecelerateIffHazardOrNear(s.targets, s.index, s.position, s.direction, fused, s.speed);
    ExecuteMovesAlongHeading(s, fused, world);
    ExecuteKeepsSpeedRange(s, fused, world);
    DistanceTriangle(s.position, r.position, target);
  }

  class SelfDrivingCar {
    var position: Position
    var speed: int
    var direction: Heading
    var cameraPos: Position
    var lidarPos: Position
    var radarPos: Position
    const navigation: Navigation.NavigationSystem
    var lastReadings: seq<Reading>
    var fusedReadings: seq<Reading>

    /** Speed is one of stop, half and full, and the cursor is on the list. */
    ghost predicate Valid()
      reads this, navigation
    {
      0 <= speed <= 2 && navigation.Valid()
    }

    function State(): CarState
      reads this, navigation
    {
      CarState(position, speed, direction, navigation.gpsTargets, navigation.currentTargetIndex)
    }

    /** Stopped, heading E, sensors at the car's cell, and a navigation
        system with the default 0.4 threshold. */
    constructor (pos: Position)
      ensures position == pos && speed == 0 && direction == E
      ensures cameraPos == pos && lidarPos == pos && radarPos == pos
      ensures fresh(navigation) && navigation.gpsTargets == [] && navigation.currentTargetIndex == 0
      ensures navigation.fusionEngine.minConfidenceThreshold == 0.4
      ensures lastReadings == [] && fusedReadings == []
      ensures Valid()
    {
      position, speed, direction := pos, 0, E;
      cameraPos, lidarPos, radarPos := pos, pos, pos;
      navigation := new Navigation.NavigationSystem(0.4);
      lastReadings, fusedReadings := [], [];
    }

    /** Puts the car and all three sensors on the cell (x, y). */
    method SetPosition(x: int, y: int)
      modifies this
      ensures position == Position(x, y)
      ensures cameraPos == position && lidarPos == position && radarPos == position
      ensures speed == old(speed) && direction == old(direction)
      ensures lastReadings == old(lastReadings) && fusedReadings == old(fusedReadings)
    {
      position := Position(x, y);
      cameraPos := Position(x, y);
      lidarPos := Position(x, y);
      radarPos := Position(x, y);
    }

    method SetNavigationTargets(targets: seq<Position>)
      modifies navigation
      ensures navigation.gpsTargets == targets && navigation.currentTargetIndex == 0
      ensures navigation.Valid()
    {
      navigation.SetGPSTargets(targets);
    }

    method Accelerate()
      modifies this
      ensures speed == Accelerated(old(speed))
      ensures position == old(position) && direction == old(direction)
      ensures cameraPos == old(cameraPos) && lidarPos == old(lidarPos) && radarPos == old(radarPos)
      ensures lastReadings == old(lastReadings) && fusedReadings == old(fusedReadings)
    {
      if speed == 0 {
        speed := 1;
      } else if speed == 1 {
        speed := 2;
      }
    }

    method Decelerate()
      modifies this
      ensures speed == Decelerated(old(speed))
      ensures position == old(position) && direction == old(direction)
      ensures cameraPos == old(cameraPos) && lidarPos == old(lidarPos) && radarPos == old(radarPos)
      ensures lastReadings == old(lastReadings) && fusedReadings == old(fusedReadings)
    {
      if speed > 0 {
        speed := speed - 1;
      }
    }

    method Turn(newDir: Heading)
      modifies this
      ensures direction == newDir
      ensures position == old(position) && speed == old(speed)
      ensures cameraPos == old(cameraPos) && lidarPos == old(lidarPos) && radarPos == old(radarPos)
      ensures lastReadings == old(lastReadings) && fusedReadings == old(fusedReadings)
    {
      if direction != newDir {
        direction := newDir;
      }
    }

    /** `MovingObject::move` for the car: all or nothing. The sensors keep
        the cell they were last put on. */
    method Move(world: World.GridWorld) returns (moved: bool)
      modifies this
      ensures var target := Advance(old(position), direction, speed);
              && (moved <==> world.InBounds(target.x, target.y))
              && position == (if moved then target else old(position))
      ensures speed == old(speed) && direction == old(direction)
      ensures cameraPos == old(cameraPos) && lidarPos == old(lidarPos) && radarPos == old(radarPos)
      ensures lastReadings == old(lastReadings) && fusedReadings == old(fusedReadings)
    {
      var newX := position.x;
      var newY := position.y;
      match direction {
        case E => newX := newX + speed;
        case W => newX := newX - speed;
        case N => newY := newY + speed;
        case S => newY := newY - speed;
      }
      if world.InBounds(newX, newY) {
        position := Position(newX, newY);
        return true;
      } else {
        return false;
      }
    }

    /** Camera, then lidar, then radar readings of the world, seen from the car's cell. */
    method CollectSensorData(world: World.GridWorld, noise: Sensors.Noise)
      modifies this
      ensures lastReadings == Sensors.Perceive(world.objects, position, direction, noise)
      ensures position == old(position) && speed == old(speed) && direction == old(direction)
      ensures cameraPos == old(cameraPos) && lidarPos == old(lidarPos) && radarPos == old(radarPos)
      ensures fusedReadings == old(fusedReadings)
    {
      var objs := world.objects;
      var cameraReadings := Sensors.ScanWorld(Sensors.Camera, objs, position, direction, noise);
      var lidarReadings := Sensors.ScanWorld(Sensors.Lidar, objs, position, direction, noise);
      var radarReadings := Sensors.ScanWorld(Sensors.Radar, objs, position, direction, noise);
      lastReadings := cameraReadings + lidarReadings + radarReadings;
    }

    method SyncNavigationSystem()
      modifies this
      ensures Fusion.FusedSpec(lastReadings, navigation.fusionEngine.minConfidenceThreshold, fusedReadings)
      ensures position == old(position) && speed == old(speed) && direction == old(direction)
      ensures cameraPos == old(cameraPos) && lidarPos == old(lidarPos) && radarPos == old(radarPos)
      ensures lastReadings == old(lastReadings)
    {
      fusedReadings := navigation.ProcessSensorData(lastReadings);
    }

    method ExecuteMovement(world: World.GridWorld) returns (running: bool)
      requires Valid()
      modifies this, navigation
      ensures Valid()
      ensures (running, State()) == Execute(old(State()), fusedReadings, world)
      ensures cameraPos == old(cameraPos) && lidarPos == old(lidarPos) && radarPos == old(radarPos)
      ensures lastReadings == old(lastReadings) && fusedReadings == old(fusedReadings)
    {
      var decision := navigation.MakeDecision(position, direction, fusedReadings, speed);
      match decision {
        case Accelerate => Accelerate();
        case Decelerate => Decelerate();
        case Turn(h) => Turn(h);
        case NextTarget =>
          navigation.NextTarget();
          return true;
        case Stop =>
          speed := 0;
          return false;
        case Continue =>
      }
      if speed > 0 {
        var moved := Move(world);
        if !moved {
          return false;
        }
      }
      return true;
    }
  }
}
