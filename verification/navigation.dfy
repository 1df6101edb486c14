/** The navigation system: a list of GPS targets with a cursor, the fusion
    engine it owns, and the first-match-wins rule that turns the car's
    situation into one driving decision. */
module Navigation {
  import opened Common
  import opened Readings
  import Fusion

  /** The decision strings the rule returns. */
  datatype Action =
    | Accelerate
    | Decelerate
    | Turn(heading: Heading)
    | NextTarget
    | Stop
    | Continue

  /** The target under the cursor, or the (-1, -1) sentinel past the end. */
  function CurrentTarget(targets: seq<Position>, index: nat): Position
  {
    if index < |targets| then targets[index] else Position(-1, -1)
  }

  /** Whether the cursor still points at a target. */
  predicate MoreTargets(targets: seq<Position>, index: nat)
  {
    index < |targets|
  }

  /** Past the end counts as reached; otherwise the car must stand on the target. */
  predicate ReachedTarget(targets: seq<Position>, index: nat, pos: Position)
  {
    index >= |targets| || pos.DistanceTo(targets[index]) == 0
  }

  /** The cursor after `nextTarget`. The guard compares against
      `size() - 1` in unsigned arithmetic, so on an empty list it wraps and
      holds, and the cursor advances. */
  function NextIndex(targets: seq<Position>, index: nat): (i: nat)
    ensures |targets| > 0 && index < |targets| ==> i < |targets|
    ensures |targets| > 0 && index < |targets| - 1 ==> i == index + 1
    ensures |targets| > 0 && index >= |targets| - 1 ==> i == index
    ensures |targets| == 0 ==> i == index + 1
  {
    if |targets| == 0 || index < |targets| - 1 then index + 1 else index
  }

  /** A fused reading that forces the car to slow down. */
  predicate Hazard(r: Reading)
  {
    || (r.distance <= 2 && r.speed > 0)
    || (r.distance <= 3 && (r.trafficLight == Some(Red) || r.trafficLight == Some(Yellow)))
    || (r.distance <= 5 && r.objectType == "StopSign")
  }

  /** The heading to turn to, if any: along the axis with the larger offset
      (the vertical one on a tie), when the car is not already facing it. */
  function Steer(pos: Position, dir: Heading, target: Position): Option<Heading>
  {
    var dx := target.x - pos.x;
    var dy := target.y - pos.y;
    if Abs(dx) > Abs(dy) then
      if dx > 0 && dir != E then Some(E)
      else if dx < 0 && dir != W then Some(W)
      else None
    else
      if dy > 0 && dir != N then Some(N)
      else if dy < 0 && dir != S then Some(S)
      else None
  }

  /** `makeDecision`: the first rule that fires wins. */
  function Decide(targets: seq<Position>, index: nat, pos: Position, dir: Heading,
                  fused: seq<Reading>, speed: int): Action
  {
    if !MoreTargets(targets, index) then Stop
    else if ReachedTarget(targets, index, pos) then NextTarget
    else if exists r :: r in fused && Hazard(r) then Decelerate
    else if pos.DistanceTo(targets[index]) <= 5 then Decelerate
    else match Steer(pos, dir, targets[index])
         case Some(h) => Turn(h)
         case None => if speed < 2 then Accelerate else Continue
  }

  class NavigationSystem {
    var gpsTargets: seq<Position>
    var currentTargetIndex: nat
    const fusionEngine: Fusion.SensorFusionEngine

    /** With any target set, the cursor points at one of them. */
    ghost predicate Valid()
      reads this
    {
      |gpsTargets| > 0 ==> currentTargetIndex < |gpsTargets|
    }

    constructor (confidenceThreshold: real)
      ensures gpsTargets == [] && currentTargetIndex == 0
      ensures fusionEngine.minConfidenceThreshold == confidenceThreshold
      ensures Valid()
    {
      gpsTargets := [];
      currentTargetIndex := 0;
      fusionEngine := new Fusion.SensorFusionEngine(confidenceThreshold);
    }

    method SetGPSTargets(targets: seq<Position>)
      modifies this
      ensures gpsTargets == targets && currentTargetIndex == 0
      ensures Valid()
    {
      gpsTargets := targets;
      currentTargetIndex := 0;
    }

    function GetCurrentTarget(): Position
      reads this
    {
      CurrentTarget(gpsTargets, currentTargetIndex)
    }

    method NextTarget()
      requires Valid()
      modifies this
      ensures gpsTargets == old(gpsTargets)
      ensures currentTargetIndex == NextIndex(old(gpsTargets), old(currentTargetIndex))
      ensures Valid()
    {
      if |gpsTargets| == 0 || currentTargetIndex < |gpsTargets| - 1 {
        currentTargetIndex := currentTargetIndex + 1;
      }
    }

    predicate HasReachedTarget(carPos: Position)
      reads this
    {
      ReachedTarget(gpsTargets, currentTargetIndex, carPos)
    }

    predicate HasMoreTargets()
      reads this
    {
      MoreTargets(gpsTargets, currentTargetIndex)
    }

    /** The rule as the source evaluates it: early returns, and a scan of
        the fused readings that stops at the first hazard. The car's speed
        is read, never written. */
    method MakeDecision(carPos: Position, carDir: Heading, fusedReadings: seq<Reading>, carSpeed: int)
      returns (decision: Action)
      ensures decision == Decide(gpsTargets, currentTargetIndex, carPos, carDir, fusedReadings, carSpeed)
    {
      if !HasMoreTargets() {
        return Stop;
      }
      var target := GetCurrentTarget();
      if HasReachedTarget(carPos) {
        return Action.NextTarget;
      }
      var i := 0;
      while i < |fusedReadings|
        invariant 0 <= i <= |fusedReadings|
        invariant forall j :: 0 <= j < i ==> !Hazard(fusedReadings[j])
      {
        var reading := fusedReadings[i];
        if reading.distance <= 2 && reading.speed > 0 {
          assert Hazard(reading) && reading in fusedReadings;
          return Decelerate;
        }
        if reading.distance <= 3 && (reading.trafficLight == Some(Red) || reading.trafficLight == Some(Yellow)) {
          assert Hazard(reading) && reading in fusedReadings;
          return Decelerate;
        }
        if reading.distance <= 5 && reading.objectType == "StopSign" {
          assert Hazard(reading) && reading in fusedReadings;
          return Decelerate;
        }
        i := i + 1;
      }
      var distanceToTarget := carPos.DistanceTo(target);
      if distanceToTarget <= 5 {
        return Decelerate;
      }
      var dx := target.x - carPos.x;
      var dy := target.y - carPos.y;
      if Abs(dx) > Abs(dy) {
        if dx > 0 && carDir != E {
          return Turn(E);
        }
        if dx < 0 && carDir != W {
          return Turn(W);
        }
      } else {
        if dy > 0 && carDir != N {
          return Turn(N);
        }
        if dy < 0 && carDir != S {
          return Turn(S);
        }
      }
      if carSpeed < 2 {
        return Accelerate;
      }
      return Continue;
    }

    method ProcessSensorData(allReadings: seq<Reading>) returns (fused: seq<Reading>)
      ensures Fusion.FusedSpec(allReadings, fusionEngine.minConfidenceThreshold, fused)
    {
      fused := fusionEngine.FuseSensorData(allReadings);
    }
  }

  // ---------------------------------------------------------------------
  // The priority of the decision rule

  /** Rule 1: STOP exactly when no target remains. */
  lemma StopIffNoTargets(targets: seq<Position>, index: nat, pos: Position, dir: Heading,
                         fused: seq<Reading>, speed: int)
    ensures Decide(targets, index, pos, dir, fused, speed) == Stop <==> index >= |targets|
  {
  }

  /** Rule 2: NEXT_TARGET exactly when a target remains and the car stands on it. */
  lemma NextTargetIffOnTarget(targets: seq<Position>, index: nat, pos: Position, dir: Heading,
                              fused: seq<Reading>, speed: int)
    ensures Decide(targets, index, pos, dir, fused, speed) == NextTarget <==>
            index < |targets| && pos == targets[index]
  {
  }

  /** Rule 3: DECELERATE exactly when, off the target, a hazard is seen or the target is within 5. */
  lemma DecelerateIffHazardOrNear(targets: seq<Position>, index: nat, pos: Position, dir: Heading,
                                  fused: seq<Reading>, speed: int)
    ensures Decide(targets, index, pos, dir, fused, speed) == Decelerate <==>
            && index < |targets| && pos != targets[index]
            && ((exists r :: r in fused && Hazard(r)) || pos.DistanceTo(targets[index]) <= 5)
  {
  }

  /** A hazard wins over every later rule, wherever it sits in the list. */
  lemma HazardForcesDecelerate(targets: seq<Position>, index: nat, pos: Position, dir: Heading,
                               fused: seq<Reading>, speed: int, r: Reading)
    requires index < |targets| && pos != targets[index]
    requires r in fused && Hazard(r)
    ensures Decide(targets, index, pos, dir, fused, speed) == Decelerate
  {
  }

  /** Rule 4: a turn always points the car at the target along the axis
      with the larger offset (the vertical one on a tie), and changes the heading. */
  lemma TurnFacesTarget(targets: seq<Position>, index: nat, pos: Position, dir: Heading,
                        fused: seq<Reading>, speed: int)
    requires Decide(targets, index, pos, dir, fused, speed).Turn?
    ensures var h := Decide(targets, index, pos, dir, fused, speed).heading;
            var target := targets[index];
            && h != dir
            && Forward(pos, h, target) > 0
            && Forward(pos, h, target) >= Lateral(pos, h, target)
            && (h == E || h == W <==> Abs(target.x - pos.x) > Abs(target.y - pos.y))
  {
  }

  /** Rule 5: ACCELERATE or CONTINUE only when the car already faces the
      target along that axis and more than 5 cells remain; which of the two
      depends on the speed alone. */
  lemma CruiseFacesTarget(targets: seq<Position>, index: nat, pos: Position, dir: Heading,
                          fused: seq<Reading>, speed: int)
    requires Decide(targets, index, pos, dir, fused, speed) in {Accelerate, Continue}
    ensures var target := targets[index];
            && Forward(pos, dir, target) > 0
            && Forward(pos, dir, target) >= Lateral(pos, dir, target)
            && pos.DistanceTo(target) > 5
            && (forall r :: r in fused ==> !Hazard(r))
            && (Decide(targets, index, pos, dir, fused, speed) == Accelerate <==> speed < 2)
  {
  }

  /** Rule 5, converse: facing the target, far from it and with no hazard,
      the car accelerates below full speed and continues at it. */
  lemma FacingTargetCruises(targets: seq<Position>, index: nat, pos: Position, dir: Heading,
                            fused: seq<Reading>, speed: int)
    requires index < |targets| && pos.DistanceTo(targets[index]) > 5
    requires forall r :: r in fused ==> !Hazard(r)
    requires Steer(pos, dir, targets[index]).None?
    ensures Decide(targets, index, pos, dir, fused, speed) == (if speed < 2 then Accelerate else Continue)
  {
  }

  // ---------------------------------------------------------------------
  // The cursor

  /** With a non-empty list the cursor never leaves it, so STOP never comes. */
  lemma {:induction false} CursorStaysOnList(targets: seq<Position>, index: nat, n: nat)
    requires |targets| > 0 && index < |targets|
    ensures Advanced(targets, index, n) < |targets|
    ensures Advanced(targets, index, n) == Min(index + n, |targets| - 1)
    decreases n
  {
    if n > 0 {
      CursorStaysOnList(targets, NextIndex(targets, index), n - 1);
    }
  }

  /** The cursor after `n` calls of `nextTarget`. */
  function Advanced(targets: seq<Position>, index: nat, n: nat): nat
    decreases n
  {
    if n == 0 then index else Advanced(targets, NextIndex(targets, index), n - 1)
  }

  function Min(a: int, b: int): int
  {
    if a < b then a else b
  }

  lemma StopUnreachableWithTargets(targets: seq<Position>, index: nat, n: nat, pos: Position, dir: Heading,
                                   fused: seq<Reading>, speed: int)
    requires |targets| > 0 && index < |targets|
    ensures Decide(targets, Advanced(targets, index, n), pos, dir, fused, speed) != Stop
  {
    CursorStaysOnList(targets, index, n);
  }
}
