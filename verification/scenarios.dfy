/** Whole-loop consequences of the decision rule as written: what the car
    does on, near and far from its targets, and how a stop sign seen by one
    sensor reaches the decision through fusion. */
module Scenarios {
  import opened Common
  import opened Readings
  import opened Entities
  import World
  import Sensors
  import Fusion
  import Navigation
  import Vehicle

  /** Standing on the last target, the car answers NEXT_TARGET, the cursor
      stays put, and the state repeats: every later tick does the same and
      the loop never sees STOP. */
  lemma FinalTargetIsFixedPoint(s: Vehicle.CarState, fused: seq<Reading>, world: World.GridWorld)
    requires |s.targets| > 0 && s.index == |s.targets| - 1
    requires s.position == s.targets[s.index]
    ensures Navigation.Decide(s.targets, s.index, s.position, s.direction, fused, s.speed) == Navigation.NextTarget
    ensures Vehicle.Execute(s, fused, world) == (true, s)
  {
    Navigation.NextTargetIffOnTarget(s.targets, s.index, s.position, s.direction, fused, s.speed);
    Vehicle.ExecuteNextTarget(s, fused, world);
  }

  /** A stopped car within 5 cells of its target, but not on it, keeps
      decelerating and never moves again. */
  lemma StoppedNearTargetStaysPut(s: Vehicle.CarState, fused: seq<Reading>, world: World.GridWorld)
    requires s.index < |s.targets| && s.speed == 0
    requires 0 < s.position.DistanceTo(s.targets[s.index]) <= 5
    ensures Navigation.Decide(s.targets, s.index, s.position, s.direction, fused, s.speed) == Navigation.Decelerate
    ensures Vehicle.Execute(s, fused, world) == (true, s)
  {
    Navigation.DecelerateIffHazardOrNear(s.targets, s.index, s.position, s.direction, fused, s.speed);
  }

  /** The starting car at (0, 0) heading E with target (5, 0) never leaves its cell. */
  lemma NearTargetFromStart(fused: seq<Reading>, world: World.GridWorld)
    ensures var s := Vehicle.CarState(Position(0, 0), 0, E, [Position(5, 0)], 0);
            Vehicle.Execute(s, fused, world) == (true, s)
  {
    var s := Vehicle.CarState(Position(0, 0), 0, E, [Position(5, 0)], 0);
    StoppedNearTargetStaysPut(s, fused, world);
  }

  /** The car the simulation starts with (stopped, with its first target
      elsewhere) meets the approach invariant, so it never reaches that target. */
  lemma StartingCarIsOffTarget(s: Vehicle.CarState, fused: seq<Reading>, world: World.GridWorld)
    requires s.index < |s.targets| && s.speed == 0 && s.position != s.targets[s.index]
    ensures Vehicle.OffTarget(s)
    ensures var r := Vehicle.Execute(s, fused, world).1;
            r.index == s.index && r.position != s.targets[s.index]
  {
    Vehicle.ExecuteKeepsOffTarget(s, fused, world);
  }

  /** A car far from its target, facing it and clear of hazards, speeds up
      to full speed and covers two cells a tick. */
  lemma FarTargetCruises(s: Vehicle.CarState, fused: seq<Reading>, world: World.GridWorld)
    requires s.index < |s.targets| && s.position.DistanceTo(s.targets[s.index]) > 5
    requires forall r :: r in fused ==> !Navigation.Hazard(r)
    requires Navigation.Steer(s.position, s.direction, s.targets[s.index]).None?
    requires 0 <= s.speed <= 2
    ensures var next := Advance(s.position, s.direction, Vehicle.Accelerated(s.speed));
            world.InBounds(next.x, next.y) ==>
              Vehicle.Execute(s, fused, world) ==
                (true, s.(speed := Vehicle.Accelerated(s.speed), position := next))
  {
    Navigation.FacingTargetCruises(s.targets, s.index, s.position, s.direction, fused, s.speed);
  }

  /** The readings the sensors make of a lone entity. */
  lemma ScanOfOne(s: Sensors.SensorKind, o: Entity, car: Position, heading: Heading, noise: Sensors.Noise)
    ensures Sensors.Scan(s, [o], car, heading, noise) ==
            Sensors.Emit(Sensors.Observe(s, o, car, heading, noise(s, 0)))
  {
    var views := Sensors.Views(s, [o], car, heading, noise);
    assert |views| == 1 && views[0] == Sensors.Observe(s, o, car, heading, noise(s, 0));
    assert views[..0] == [];
    assert Sensors.Collect(views) == Sensors.Collect(views[..0]) + Sensors.Emit(views[0]);
  }

  /** A stop sign four cells ahead is outside the camera's box and ignored by
      the radar; the lidar alone reports it, at distance 4 with confidence at
      least 0.445. */
  lemma LoneStopSignPerceived(noise: Sensors.Noise)
    ensures var rs := Sensors.Perceive([StopSign("StopSign:1", Position(4, 0))], Position(0, 0), E, noise);
            && |rs| == 1
            && rs[0].objectType == "StopSign" && rs[0].distance == 4
            && rs[0].confidence >= 0.445
  {
    var o := StopSign("StopSign:1", Position(4, 0));
    var car := Position(0, 0);
    ScanOfOne(Sensors.Camera, o, car, E, noise);
    ScanOfOne(Sensors.Lidar, o, car, E, noise);
    ScanOfOne(Sensors.Radar, o, car, E, noise);
    assert Sensors.CameraObserve(o, car, E, noise(Sensors.Camera, 0)).None?;
    assert Sensors.RadarObserve(o, car, E, noise(Sensors.Radar, 0)).None?;
    var lidar := Sensors.LidarObserve(o, car, noise(Sensors.Lidar, 0));
    assert lidar.Some?;
    Sensors.ConfidenceNearNominal(Sensors.LidarBase, 4, 2 * Sensors.LidarRange, noise(Sensors.Lidar, 0));
    assert Sensors.Perceive([o], car, E, noise) == [lidar.value];
  }

  /** A lone reading at or above the threshold comes out of fusion unchanged. */
  lemma LoneReadingSurvives(r: Reading, threshold: real, fused: seq<Reading>)
    requires Fusion.FusedSpec([r], threshold, fused) && r.confidence >= threshold
    ensures r in fused
  {
    assert Fusion.Group([r], r.objectId) == [r] by {
      assert [r][..0] == [];
    }
    Fusion.FuseSingleton(r);
    assert r in [r];
    assert r.objectId in Fusion.Ids([r]);
    assert r.objectId in Fusion.Ids(fused);
    var f :| f in fused && f.objectId == r.objectId;
    assert f == r;
  }

  /** The stop sign four cells ahead survives fusion at the car's 0.4
      threshold, so the car decelerates. */
  lemma StopSignAheadSlowsCar(noise: Sensors.Noise, fused: seq<Reading>,
                              targets: seq<Position>, index: nat, speed: int)
    requires Fusion.FusedSpec(
               Sensors.Perceive([StopSign("StopSign:1", Position(4, 0))], Position(0, 0), E, noise),
               0.4, fused)
    requires index < |targets| && targets[index] != Position(0, 0)
    ensures Navigation.Decide(targets, index, Position(0, 0), E, fused, speed) == Navigation.Decelerate
  {
    var rs := Sensors.Perceive([StopSign("StopSign:1", Position(4, 0))], Position(0, 0), E, noise);
    LoneStopSignPerceived(noise);
    var r := rs[0];
    assert rs == [r];
    LoneReadingSurvives(r, 0.4, fused);
    Navigation.HazardForcesDecelerate(targets, index, Position(0, 0), E, fused, speed, r);
  }
}
