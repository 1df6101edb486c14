/** One tick of the simulation loop: advance the light timers, move every
    bike and other car (removing those whose move would leave the grid), then
    let the car perceive, fuse, decide and act, and check it is still on the
    grid. */
module Simulation {
  import opened Common
  import opened Entities
  import World
  import Sensors
  import Fusion
  import Vehicle

  /** What the traffic pass makes of one entity: a static one stays, a
      moving one moves, or is removed when its move fails. */
  function Traffic(o: Entity, world: World.GridWorld): (r: seq<Entity>)
    ensures !o.IsMoving() ==> r == [o]
    ensures o.IsMoving() ==> (r == [] <==> !World.Move(o, world).0)
    ensures o.IsMoving() && r != [] ==> r == [World.Move(o, world).1]
  {
    if !o.IsMoving() then [o]
    else
      var m := World.Move(o, world);
      if m.0 then [m.1] else []
  }

  /** The world's entities after the traffic pass over `objs`. */
  function TrafficMoved(objs: seq<Entity>, world: World.GridWorld): seq<Entity>
    decreases |objs|
  {
    if objs == [] then []
    else
      var n := |objs| - 1;
      TrafficMoved(objs[..n], world) + Traffic(objs[n], world)
  }

  lemma TrafficMovedSnoc(objs: seq<Entity>, o: Entity, world: World.GridWorld)
    ensures TrafficMoved(objs + [o], world) == TrafficMoved(objs, world) + Traffic(o, world)
  {
    assert (objs + [o])[..|objs|] == objs;
  }

  /** Every entity that survives the pass comes from one entity of `objs`:
      a static one unchanged, or a moving one relocated in bounds. */
  lemma {:induction false} TrafficMovedSound(objs: seq<Entity>, world: World.GridWorld, e: Entity)
    requires e in TrafficMoved(objs, world)
    ensures exists i :: 0 <= i < |objs| && e in Traffic(objs[i], world)
    decreases |objs|
  {
    var n := |objs| - 1;
    if e in TrafficMoved(objs[..n], world) {
      TrafficMovedSound(objs[..n], world, e);
      var i :| 0 <= i < n && e in Traffic(objs[..n][i], world);
      assert objs[..n][i] == objs[i];
    } else {
      assert e in Traffic(objs[n], world);
    }
  }

  /** Static entities are never removed. */
  lemma {:induction false} TrafficKeepsStatic(objs: seq<Entity>, world: World.GridWorld, i: int)
    requires 0 <= i < |objs| && !objs[i].IsMoving()
    ensures objs[i] in TrafficMoved(objs, world)
    decreases |objs|
  {
    var n := |objs| - 1;
    if i < n {
      assert objs[..n][i] == objs[i];
      TrafficKeepsStatic(objs[..n], world, i);
    }
  }

  /** Whatever the pass makes of one entity ends up in the world. */
  lemma {:induction false} TrafficKeepsOutcome(objs: seq<Entity>, world: World.GridWorld, j: int, e: Entity)
    requires 0 <= j < |objs| && e in Traffic(objs[j], world)
    ensures e in TrafficMoved(objs, world)
    decreases |objs|
  {
    var n := |objs| - 1;
    if j < n {
      assert objs[..n][j] == objs[j];
      TrafficKeepsOutcome(objs[..n], world, j, e);
    }
  }

  /** A bike or car whose move succeeds survives the pass, relocated. */
  lemma MovedSurvives(objs: seq<Entity>, world: World.GridWorld, j: int)
    requires 0 <= j < |objs| && objs[j].IsMoving() && World.Move(objs[j], world).0
    ensures World.Move(objs[j], world).1 in TrafficMoved(objs, world)
  {
    TrafficKeepsOutcome(objs, world, j, World.Move(objs[j], world).1);
  }

  /** A bike or car whose move fails is gone: no entity of the world after
      the pass carries its id, so no later scan reports it. */
  lemma RemovedIdAbsent(objs: seq<Entity>, world: World.GridWorld, j: int)
    requires UniqueIds(objs) && 0 <= j < |objs|
    requires objs[j].IsMoving() && !World.Move(objs[j], world).0
    ensures objs[j].id !in Ids(TrafficMoved(objs, world))
  {
    forall e | e in TrafficMoved(objs, world) ensures e.id != objs[j].id {
      TrafficMovedSound(objs, world, e);
      var i :| 0 <= i < |objs| && e in Traffic(objs[i], world);
      if i != j {
        assert e.id == objs[i].id;
      }
    }
  }

  /** After the pass every bike and other car stands on the grid. */
  lemma MovingSurvivorsInBounds(objs: seq<Entity>, world: World.GridWorld)
    ensures forall e :: e in TrafficMoved(objs, world) && e.IsMoving() ==> world.InBounds(e.pos.x, e.pos.y)
  {
    forall e | e in TrafficMoved(objs, world) && e.IsMoving() ensures world.InBounds(e.pos.x, e.pos.y) {
      TrafficMovedSound(objs, world, e);
      var i :| 0 <= i < |objs| && e in Traffic(objs[i], world);
    }
  }

  /** Replacing an entity by one with the same id keeps ids distinct. */
  lemma ReplaceKeepsUniqueIds(objs: seq<Entity>, k: int, e: Entity)
    requires UniqueIds(objs) && 0 <= k < |objs| && e.id == objs[k].id
    ensures UniqueIds(objs[k := e])
  {
  }

  /** The slot of `obj` in `done + [obj] + rest`, and what is around it. */
  lemma SlotOf(done: seq<Entity>, obj: Entity, rest: seq<Entity>, e: Entity)
    ensures var s := done + [obj] + rest;
            && |done| < |s| && s[|done|] == obj
            && s[..|done|] == done && s[|done| + 1..] == rest
            && s[|done| := e] == done + [e] + rest
  {
  }

  /** The loop body for one entity `obj`, found at slot |done|. */
  method TrafficStep(world: World.GridWorld, k: nat, obj: Entity, ghost done: seq<Entity>, ghost rest: seq<Entity>)
    returns (kept: bool)
    requires world.Valid() && world.objects == done + [obj] + rest && k == |done|
    modifies world
    ensures world.Valid()
    ensures world.objects == done + Traffic(obj, world) + rest
    ensures kept <==> |Traffic(obj, world)| == 1
  {
    if obj.IsMoving() {
      var m := World.Move(obj, world);
      SlotOf(done, obj, rest, m.1);
      if m.0 {
        // The entity is updated in place, so its slot in the list changes.
        ReplaceKeepsUniqueIds(world.objects, k, m.1);
        world.objects := world.objects[k := m.1];
        kept := true;
      } else {
        ghost var before := world.objects;
        world.RemoveObject(obj.id);
        assert world.objects == before[..k] + before[k + 1..];
        kept := false;
      }
    } else {
      kept := true;
    }
  }

  /** How one more entity of the copy moves the loop's picture forward. */
  lemma TrafficAdvance(objects: seq<Entity>, i: int, world: World.GridWorld)
    requires 0 <= i < |objects|
    ensures TrafficMoved(objects[..i], world) + objects[i..] ==
            TrafficMoved(objects[..i], world) + [objects[i]] + objects[i + 1..]
    ensures TrafficMoved(objects[..i], world) + Traffic(objects[i], world) + objects[i + 1..] ==
            TrafficMoved(objects[..i + 1], world) + objects[i + 1..]
    ensures |TrafficMoved(objects[..i + 1], world)| ==
            |TrafficMoved(objects[..i], world)| + |Traffic(objects[i], world)|
  {
    assert objects[i..] == [objects[i]] + objects[i + 1..];
    assert objects[..i + 1] == objects[..i] + [objects[i]];
    TrafficMovedSnoc(objects[..i], objects[i], world);
  }

  /** The traffic loop of a tick. It walks a copy of the entity list, moves
      each bike and other car in place, and removes it from the world when
      the move fails. */
  method MoveTraffic(world: World.GridWorld)
    requires world.Valid()
    modifies world
    ensures world.Valid()
    ensures world.objects == TrafficMoved(old(world.objects), world)
  {
    var objects := world.objects;
    var k := 0;
    for i := 0 to |objects|
      invariant world.Valid()
      invariant world.objects == TrafficMoved(objects[..i], world) + objects[i..]
      invariant k == |TrafficMoved(objects[..i], world)|
    {
      var obj := objects[i];
      TrafficAdvance(objects, i, world);
      var kept := TrafficStep(world, k, obj, TrafficMoved(objects[..i], world), objects[i + 1..]);
      if kept {
        k := k + 1;
      }
    }
    assert objects[..|objects|] == objects;
  }

  /** The body of the simulation loop for one tick. */
  method Tick(world: World.GridWorld, car: Vehicle.SelfDrivingCar, noise: Sensors.Noise)
    returns (carRunning: bool, simulationRunning: bool)
    requires world.Valid() && car.Valid()
    modifies world, car, car.navigation
    ensures world.Valid() && car.Valid()
    ensures world.objects == TrafficMoved(World.UpdatedAll(old(world.objects)), world)
    ensures car.lastReadings == Sensors.Perceive(world.objects, old(car.position), old(car.direction), noise)
    ensures Fusion.FusedSpec(car.lastReadings, car.navigation.fusionEngine.minConfidenceThreshold, car.fusedReadings)
    ensures (carRunning, car.State()) == Vehicle.Execute(old(car.State()), car.fusedReadings, world)
    ensures simulationRunning == world.InBounds(car.position.x, car.position.y)
    ensures world.InBounds(old(car.position).x, old(car.position).y) ==> simulationRunning
  {
    world.UpdateAll();
    MoveTraffic(world);
    car.CollectSensorData(world, noise);
    car.SyncNavigationSystem();
    ghost var before := car.State();
    carRunning := car.ExecuteMovement(world);
    if world.InBounds(before.position.x, before.position.y) {
      Vehicle.ExecuteStaysInBounds(before, car.fusedReadings, world);
    }
    simulationRunning := world.InBounds(car.position.x, car.position.y);
  }

  /** The simulation loop: tick until the tick budget is spent, the car
      stops, or it is off the grid at the end of a tick. `noise(t)` supplies
      tick t's sensor noise, and `ticksRun` counts the ticks whose body ran.
      The start cell is not checked: a car that starts on the grid stays on
      it, so the out-of-bounds exit can only be taken on the first tick, by a
      car that starts off the grid and is still off it. A car that starts
      stopped off its first target never reaches it, and the cursor never
      moves. */
  method RunSimulation(world: World.GridWorld, car: Vehicle.SelfDrivingCar, ticks: int,
                       noise: nat -> Sensors.Noise)
    returns (ticksRun: nat, carRunning: bool, simulationRunning: bool)
    requires world.Valid() && car.Valid()
    modifies world, car, car.navigation
    ensures world.Valid() && car.Valid()
    ensures ticksRun <= ticks || ticksRun == 0
    ensures ticksRun < ticks ==> !carRunning || !simulationRunning
    ensures ticksRun > 0 ==> (simulationRunning <==> world.InBounds(car.position.x, car.position.y))
    ensures !simulationRunning ==> ticksRun == 1 && !world.InBounds(car.position.x, car.position.y)
    ensures world.InBounds(old(car.position).x, old(car.position).y) ==>
              simulationRunning && world.InBounds(car.position.x, car.position.y)
    ensures Vehicle.OffTarget(old(car.State())) ==>
              Vehicle.OffTarget(car.State())
              && car.navigation.currentTargetIndex == old(car.navigation.currentTargetIndex)
  {
    simulationRunning := true;
    carRunning := true;
    ticksRun := 0;
    while ticksRun < ticks && simulationRunning && carRunning
      invariant world.Valid() && car.Valid()
      invariant ticksRun <= ticks || ticksRun == 0
      invariant ticksRun == 0 ==> simulationRunning && car.position == old(car.position)
      invariant ticksRun > 0 ==> (simulationRunning <==> world.InBounds(car.position.x, car.position.y))
      invariant !simulationRunning ==> ticksRun == 1
      invariant world.InBounds(old(car.position).x, old(car.position).y) ==>
                  world.InBounds(car.position.x, car.position.y)
      invariant Vehicle.OffTarget(old(car.State())) ==>
                  Vehicle.OffTarget(car.State())
                  && car.navigation.currentTargetIndex == old(car.navigation.currentTargetIndex)
      decreases ticks - ticksRun
    {
      ghost var before := car.State();
      carRunning, simulationRunning := Tick(world, car, noise(ticksRun));
      if Vehicle.OffTarget(before) {
        Vehicle.ExecuteKeepsOffTarget(before, car.fusedReadings, world);
      }
      ticksRun := ticksRun + 1;
    }
  }
}
