# Self-driving car simulator: a verified model

This project models in Dafny the perception → fusion → decision loop of a
grid-world self-driving car simulator (`project3.cpp`), and the simpler,
noise-free sensor scans of its earlier revision (`project2.cpp`).

Here is what the model covers:

- **The world.** A bounded grid holding parked cars, stop signs, traffic
  lights, bikes and other cars.
- **The three sensors.**
  - The lidar sees a 9×9 square around the car.
  - The radar sees a 3-wide corridor ahead, and only moving objects.
  - The camera sees a 3-deep box ahead.
  - Each sensor turns the world's entity list into readings, with a
    distance-weighted confidence plus a jitter of k/100 (k in −5..5), clamped
    to [0, 1].
- **The fusion engine.** It groups the readings by object id in id order. Each
  group gives one reading whose confidence is the group's mean. Fused readings
  below the threshold are dropped, except bikes.
- **The navigation system.** A target list, a cursor, and a first-match
  decision rule.
- **The car.** Speed 0/1/2, its heading, and the act-then-move step.
- **One tick of the main loop and the loop itself.** Light timers advance,
  bikes and other cars move (or are removed when their move would leave the
  grid), then the car perceives, fuses, decides and acts, and the bounds check
  runs.

## Modules

| module | file | models |
|---|---|---|
| `Common` | common.dfy | `Position`, the Manhattan distance, headings, and the displacement of a move |
| `Lights` | lights.dfy | the traffic-light timer, both as a value (`Signal`, `LightUpdate`) and as a class with mutable fields |
| `Entities` | entities.dfy | the entities as one tagged datatype, with the getters the sensors read |
| `World` | world.dfy | class `GridWorld`: append, remove, first-match lookup, bounds test, timer update; the all-or-nothing `Move` |
| `Readings` | readings.dfy | the `SensorReading` record |
| `Sensors` | sensors.dfy | the three `scan`s: `Observe` for one entity, `Scan` as the specification of the loop, and the loop itself as method `ScanWorld` |
| `Fusion` | fusion.dfy | `fuseSensorData` as imperative code over an ordered list of buckets (standing in for `std::map`), proved against the predicate `FusedSpec` |
| `Navigation` | navigation.dfy | class `NavigationSystem`, with `MakeDecision` proved equal to the first-match function `Decide` |
| `Vehicle` | vehicle.dfy | class `SelfDrivingCar`, with `ExecuteMovement` proved equal to the value-level `Execute` |
| `Simulation` | simulation.dfy | the traffic pass, one tick and the tick loop |
| `Scenarios` | scenarios.dfy | whole-loop consequences of the rules |
| `Revision2` | revision2.dfy | the earlier revision: grid, the three noise-free east-only scans, and the car |

Randomness is a parameter everywhere:

- The jitter drawn for the reading that sensor `s` makes of the i-th entity
  is `noise(s, i)`.
- The run gets a fresh `noise(t)` for each tick `t`.
- A light's starting counter is a constructor argument.
- A bike's or car's heading is a field of the entity.

## Behaviour of the code as written

Where the design intent and the code part ways, the model follows the code.
Each of these points is proved.

- **Override rule in fusion.** The loop compares each reading against the
  first reading's confidence (project3.cpp:529), and that field is not
  updated inside the loop. So every later reading that is strictly more
  confident than the first overrides the light, sign and motion fields, and
  the last such reading wins. It is not "the most confident reading wins".
  `Fusion.LastOverrideNotMostConfident` gives three readings where the 0.6
  reading's light beats the 0.9 reading's.
- **The lidar copies the sign text and the light colour** of what it sees
  (project3.cpp:229-230). Only the radar leaves them empty.
- **STOP cannot happen once a target list is set.** `nextTarget` stops at the
  last index (project3.cpp:582). So with a non-empty list the cursor stays on
  it and `STOP` is unreachable (`Navigation.StopUnreachableWithTargets`).
  Standing on the last target, the car answers `NEXT_TARGET` on every tick and
  its state never changes (`Scenarios.FinalTargetIsFixedPoint`).
- **`nextTarget` on an empty list.** The guard compares with `size() - 1` in
  unsigned arithmetic. On an empty list that value wraps, the guard holds, and
  the cursor advances (`Navigation.NextIndex`).
- **The car never reaches a target it does not start on.**
  - Within 5 cells the rule always decelerates. A car that gets there is
    already slow enough that it stops before arriving.
  - `Vehicle.ExecuteKeepsOffTarget` proves the invariant `Vehicle.OffTarget`
    for every tick, and `Simulation.RunSimulation` carries it through the loop.
  - A stopped car 1–5 cells from its target stays where it is for good
    (`Scenarios.StoppedNearTargetStaysPut`).
- **The confidence threshold never reaches the car.** The command-line
  threshold is parsed and printed, but the car builds its navigation system
  with the default 0.4 (project3.cpp:676-678), and the model's car does the
  same.
- **The out-of-bounds check at the end of a tick fires at most once, on the
  first tick.** The start cell `destinations[0]` (project3.cpp:985-986) is
  never checked against the grid. The car only moves to an in-bounds cell,
  so a car that starts on the grid stays on it and the check never fires
  (`Simulation.Tick`, `Vehicle.ExecuteStaysInBounds`). A car that starts off
  the grid either moves onto it or is still off it after the first tick, and
  then the loop ends there (`Simulation.RunSimulation`).

## Model

| member | source | states |
|---|---|---|
| Common.Position.DistanceTo | project3.cpp:31-33 | Manhattan distance is non-negative, zero exactly when the positions are equal, and at least each axis offset |
| Common.DistanceSymmetric | project3.cpp:31-33 | distance is symmetric |
| Common.DistanceTriangle | project3.cpp:31-33 | distance obeys the triangle inequality |
| Common.Advance | project3.cpp:446-449 | a move of `speed` along E/W changes only x, along N/S only y, and covers exactly `speed` cells; the new cell is `speed` ahead along the heading (E: x + speed, W: x − speed, N: y + speed, S: y − speed) with no sideways offset |
| Lights.LightUpdate | project3.cpp:408-421 | the colour stays or moves to its successor; it changes exactly when the incremented counter reaches the colour's duration; the counter resets to 0 on a change and otherwise grows by 1; the result is on the cycle |
| Lights.UpdateAdvancesPhase | project3.cpp:408-421 | on the cycle, one update advances the 14-tick phase by one, modulo 14 |
| Lights.UpdatesAdvancePhase | project3.cpp:408-421 | n updates advance the phase by n, modulo 14 |
| Lights.PhaseInjective | project3.cpp:408-421 | on the cycle a signal is determined by its phase |
| Lights.CycleHasPeriod14 | project3.cpp:408-421 | any multiple of 14 updates returns every signal on the cycle to itself |
| Lights.CycleFromRed | project3.cpp:408-421 | from (RED, 0): still RED after 3 updates, GREEN after 4, YELLOW after 12, RED again after 14 |
| Lights.TrafficLight.constructor | project3.cpp:389-391 | a new light is RED with the given starting counter |
| Lights.TrafficLight.Update | project3.cpp:408-421 | the in-place update does what `LightUpdate` does to the (state, counter) pair and leaves the light on the cycle |
| Entities.Entity.Speed | project3.cpp:123 | static entities report speed 0; bikes and other cars report their own speed (the override at project3.cpp:436) |
| Entities.Entity.Direction | project3.cpp:124 | only moving entities report a direction, and it is their heading (the override at project3.cpp:437) |
| Entities.Entity.SignText | project3.cpp:381 | only a stop sign has sign text, and it is "STOP" |
| Entities.Entity.TrafficLightState | project3.cpp:400 | only a traffic light reports a colour, and it is the light's current state |
| Entities.Entity.Update | project3.cpp:128 | the per-tick update keeps id, position and type; only a traffic light changes, by one `LightUpdate` |
| World.UpdatedAll | project3.cpp:179-183 | every entity is updated once, in place, in list order |
| World.UpdatedAllKeepsIds | project3.cpp:179-183 | the timer update keeps the set of ids and their distinctness |
| World.GridWorld.constructor | project3.cpp:143 | a new grid has the given dimensions and no entities |
| World.GridWorld.InBounds | project3.cpp:172-174 | a grid that holds any cell has positive dimensions |
| World.GridWorld.AddObject | project3.cpp:154-156 | appends the entity at the end and keeps the ids distinct |
| World.GridWorld.GetObjectAt | project3.cpp:162-170 | returns nothing exactly when no entity stands on the cell; otherwise the first entity in list order that does |
| World.GridWorld.UpdateAll | project3.cpp:179-183 | the list becomes `UpdatedAll` of the old list |
| World.GridWorld.RemoveObject | project3.cpp:185-191 | removes the entity with that identity and closes the gap; an absent entity leaves the list unchanged |
| World.Relocated | project3.cpp:451-454 | relocating a moving entity changes its position and nothing else |
| World.Move | project3.cpp:442-458 | the move succeeds exactly when the shifted cell is in bounds, and the position changes exactly then |
| Sensors.Clamp | project3.cpp:225 | the result is in [0, 1], and equals the input when the input already is |
| Sensors.Confidence | project3.cpp:220-225 | every sensor confidence lies in [0, 1] |
| Sensors.ConfidenceNearNominal | project3.cpp:224 | the jitter moves a confidence by at most 0.05 from its nominal value (before clamping) |
| Sensors.LidarObserve | project3.cpp:209-231 | a reading exactly when \|dx\| ≤ 4 and \|dy\| ≤ 4; it copies the entity's fields including sign and light; Manhattan distance ≤ 8; confidence from base 0.99 over span 8 |
| Sensors.RadarObserve | project3.cpp:254-291 | a reading exactly for a moving entity strictly ahead, 1..12 cells, at most one cell to the side; distance is the forward offset; sign and light empty; base 0.95 over span 12 |
| Sensors.CameraObserve | project3.cpp:314-341 | a reading exactly when the entity is 1..3 cells ahead and at most 3 to the side; Manhattan distance ≤ 6; base 0.87 over span 6 |
| Sensors.ScanWorld | project3.cpp:204-236 | the scan loop returns `Scan`: the readings of the entities it sees, in list order |
| Sensors.ScanSound | project3.cpp:208-233 | every reading of a scan is the observation of some entity of the list |
| Sensors.ScanComplete | project3.cpp:208-233 | every entity the sensor sees contributes its reading |
| Sensors.ScanMembership | project3.cpp:208-233 | a reading is in a scan exactly when some entity of the list produced it |
| Sensors.ScanLength | project3.cpp:208-233 | a scan has at most one reading per entity |
| Sensors.LidarFieldOfView | project3.cpp:213-225 | every lidar reading lies in the 9×9 square, at its Manhattan distance ≤ 8, with confidence in [0, 1] |
| Sensors.RadarFieldOfView | project3.cpp:259-291 | every radar reading is of a moving entity strictly ahead, lateral offset ≤ 1, forward distance in 1..12, no sign text and no light, confidence in [0, 1] |
| Sensors.CameraFieldOfView | project3.cpp:319-335 | every camera reading lies 1..3 cells ahead, lateral offset ≤ 3, distance ≤ 6, confidence in [0, 1] |
| Sensors.ScanReportsPresentIds | project3.cpp:208-216 | a scan only reports ids of entities in the list |
| Sensors.PerceiveConfidenceInUnitInterval | project3.cpp:724-734 | every collected reading has confidence in [0, 1] and the id of an entity in the world |
| Fusion.BelowIrreflexive | project3.cpp:507 | the map's key order is irreflexive |
| Fusion.BelowTransitive | project3.cpp:507 | the key order is transitive |
| Fusion.BelowTotal | project3.cpp:507 | any two distinct keys are ordered |
| Fusion.Group | project3.cpp:510-512 | an id's entry holds exactly the readings with that id, in arrival order |
| Fusion.GroupNonEmpty | project3.cpp:514-517 | an entry is non-empty exactly when its id occurs, so the `empty()` skip never fires |
| Fusion.Overridden | project3.cpp:524-536 | the override loop never changes type, id, position, distance or the first reading's confidence |
| Fusion.FuseGroup | project3.cpp:519-539 | the fused reading takes type, id, position and distance from the first reading, and the group's mean confidence |
| Fusion.Insert | project3.cpp:511 | adding a reading to the ordered map keeps the keys sorted, the keys equal to the ids seen, and each entry equal to its group |
| Fusion.GroupReadings | project3.cpp:510-512 | the first loop builds the ordered map of all readings |
| Fusion.CombineGroup | project3.cpp:519-539 | the inner loop (sum, count, overrides, then the mean) yields `FuseGroup` |
| Fusion.SensorFusionEngine.constructor | project3.cpp:504 | the engine keeps the given threshold |
| Fusion.SensorFusionEngine.FuseSensorData | project3.cpp:506-549 | output ids strictly ascending; each output is the fused reading of its id's group; an input id is output exactly when its group is kept |
| Fusion.AscendingUnique | project3.cpp:514 | two id-ascending lists with the same ids that agree per id are equal |
| Fusion.FusedSpecUnique | project3.cpp:506-549 | the fusion specification determines the output |
| Fusion.FusedOnePerId | project3.cpp:506-549 | at most one output per id; output ids are input ids; an input id is output exactly when kept |
| Fusion.MeanInUnitInterval | project3.cpp:539 | the mean of confidences in [0, 1] is in [0, 1] |
| Fusion.FusedConfidenceInUnitInterval | project3.cpp:539 | fused confidences stay in [0, 1] when the input confidences do |
| Fusion.FuseSingleton | project3.cpp:519-539 | a group of one reading fuses to that reading unchanged |
| Fusion.BikeAlwaysKept | project3.cpp:542-545 | a bike is output whatever its confidence |
| Fusion.OthersKeptIffThreshold | project3.cpp:542-545 | any other object is output exactly when its mean confidence reaches the threshold |
| Fusion.LastLightOverrideWins | project3.cpp:529-530 | the fused light is that of the last reading with a light that is more confident than the first |
| Fusion.LastSignOverrideWins | project3.cpp:529-531 | the same for the sign text |
| Fusion.LastMotionOverrideWins | project3.cpp:529-535 | the same for speed and direction, which move together |
| Fusion.LightWithoutOverride | project3.cpp:524-530 | with no overriding reading that reports a light, the fused light is the first reading's |
| Fusion.SignWithoutOverride | project3.cpp:524-531 | with no overriding reading that reports sign text, the fused text is the first reading's |
| Fusion.MotionWithoutOverride | project3.cpp:524-535 | with no overriding reading that reports a speed, the fused speed and direction are the first reading's |
| Fusion.LastOverrideNotMostConfident | project3.cpp:529 | with confidences 0.5, 0.9 (RED) and 0.6 (YELLOW), the fused light is YELLOW and the confidence is their mean |
| Navigation.NextIndex | project3.cpp:581-589 | the cursor advances below the last index, stays at and past it, and advances on an empty list |
| Navigation.NavigationSystem.constructor | project3.cpp:559-562 | no targets, cursor 0, the fusion engine built with the given threshold |
| Navigation.NavigationSystem.SetGPSTargets | project3.cpp:568-572 | replaces the targets and resets the cursor to 0 |
| Navigation.NavigationSystem.NextTarget | project3.cpp:581-589 | the cursor becomes `NextIndex` of the old one, and the targets are kept |
| Navigation.NavigationSystem.MakeDecision | project3.cpp:602-659 | the early-return evaluation with its hazard loop returns the first-match decision `Decide`, reading the speed without changing it |
| Navigation.NavigationSystem.ProcessSensorData | project3.cpp:661-663 | returns output that meets the fusion specification at the engine's threshold |
| Navigation.StopIffNoTargets | project3.cpp:604 | STOP exactly when the cursor is past the list |
| Navigation.NextTargetIffOnTarget | project3.cpp:609-611 | NEXT_TARGET exactly when a target remains and the car stands on it |
| Navigation.DecelerateIffHazardOrNear | project3.cpp:613-636 | DECELERATE exactly when, off the target, a fused reading is a hazard or the target is within 5 cells |
| Navigation.HazardForcesDecelerate | project3.cpp:614-630 | one hazard anywhere in the fused list forces DECELERATE |
| Navigation.TurnFacesTarget | project3.cpp:639-651 | a turn changes the heading, points at the target, and follows the larger offset (vertical on a tie) |
| Navigation.CruiseFacesTarget | project3.cpp:653-658 | ACCELERATE or CONTINUE only when facing the target, more than 5 cells off and with no hazard; ACCELERATE exactly below speed 2 |
| Navigation.FacingTargetCruises | project3.cpp:653-658 | conversely, facing a far target with no hazard gives ACCELERATE below speed 2 and CONTINUE at it |
| Navigation.CursorStaysOnList | project3.cpp:581-589 | with a non-empty list, n calls of `nextTarget` leave the cursor at min(index + n, last) |
| Navigation.StopUnreachableWithTargets | project3.cpp:598-604 | with a non-empty list, no number of `nextTarget` calls brings STOP |
| Vehicle.Accelerated | project3.cpp:704-708 | acceleration steps 0→1→2 and saturates at 2; any other speed is left unchanged |
| Vehicle.Decelerated | project3.cpp:710-715 | deceleration steps down by one and floors at 0 |
| Vehicle.ExecuteKeepsSpeedRange | project3.cpp:740-775 | a tick keeps the speed in {0, 1, 2} |
| Vehicle.ExecuteStaysInBounds | project3.cpp:766-771 | a car on the grid stays on it |
| Vehicle.ExecuteMovesAlongHeading | project3.cpp:766-771 | the car stays put or moves exactly `speed` cells along its new heading; the targets never change |
| Vehicle.ExecuteNextTarget | project3.cpp:757-759 | NEXT_TARGET advances the cursor and reports running without moving |
| Vehicle.ExecuteStop | project3.cpp:760-763 | STOP zeroes the speed and reports stopped, without moving |
| Vehicle.ExecuteFailsIff | project3.cpp:740-775 | the result is false exactly on STOP or on a move that would leave the grid |
| Vehicle.ExecuteKeepsOffTarget | project3.cpp:633-636 | the approach invariant holds after every tick and the cursor stays, so the car never reaches a target it is not already on |
| Vehicle.SelfDrivingCar.constructor | project3.cpp:676-678 | stopped, heading E, sensors on the car's cell, no targets, fusion threshold 0.4 |
| Vehicle.SelfDrivingCar.SetPosition | project3.cpp:687-693 | the car and all three sensors move to the cell; nothing else changes |
| Vehicle.SelfDrivingCar.SetNavigationTargets | project3.cpp:695-697 | the targets are replaced and the cursor reset |
| Vehicle.SelfDrivingCar.Accelerate | project3.cpp:704-708 | the speed becomes `Accelerated` of the old speed; nothing else changes |
| Vehicle.SelfDrivingCar.Decelerate | project3.cpp:710-715 | the speed becomes `Decelerated` of the old speed; nothing else changes |
| Vehicle.SelfDrivingCar.Turn | project3.cpp:717-722 | the heading becomes the new one; nothing else changes |
| Vehicle.SelfDrivingCar.Move | project3.cpp:442-458 | the move succeeds exactly when the shifted cell is in bounds, and only then does the position change; the sensors stay where they were |
| Vehicle.SelfDrivingCar.CollectSensorData | project3.cpp:724-734 | the readings are the camera's, then the lidar's, then the radar's, scanned from the car's cell and heading |
| Vehicle.SelfDrivingCar.SyncNavigationSystem | project3.cpp:736-738 | the fused readings meet the fusion specification over the collected readings |
| Vehicle.SelfDrivingCar.ExecuteMovement | project3.cpp:740-775 | the result and the new car state are `Execute` of the old state |
| Simulation.Traffic | project3.cpp:1079-1089 | a static entity stays; a moving one is relocated, or removed exactly when its move fails |
| Simulation.TrafficMovedSound | project3.cpp:1079-1091 | every entity left after the pass comes from one entity of the old list |
| Simulation.TrafficKeepsStatic | project3.cpp:1079-1091 | static entities are never removed |
| Simulation.TrafficKeepsOutcome | project3.cpp:1079-1091 | whatever the pass makes of one entity (itself, or its relocated copy) is in the world afterwards |
| Simulation.MovedSurvives | project3.cpp:1079-1091 | a bike or car whose move succeeds survives the pass, relocated |
| Simulation.RemovedIdAbsent | project3.cpp:1079-1091 | a bike or car whose move fails is removed: its id is absent from the world after the pass, so no later scan reports it |
| Simulation.MovingSurvivorsInBounds | project3.cpp:1079-1091 | after the pass every bike and other car is on the grid |
| Simulation.TrafficStep | project3.cpp:1080-1089 | one entity of the pass is updated in place or removed, and the rest of the list is untouched |
| Simulation.MoveTraffic | project3.cpp:1078-1091 | the in-place pass over a copy of the list leaves `TrafficMoved` of the old list, with ids distinct |
| Simulation.Tick | project3.cpp:1075-1124 | timers then traffic then perceive, fuse, execute; a car that starts on the grid keeps `simulationRunning` true |
| Simulation.RunSimulation | project3.cpp:1068-1124 | the loop ends early only when the car reports stopped or is off the grid after a tick; after any tick, running is exactly being on the grid; the out-of-bounds exit happens only on the first tick; a car that starts on the grid stays on it and keeps running; a car that starts stopped off its target never reaches it |
| Scenarios.FinalTargetIsFixedPoint | project3.cpp:609-611 | on the last target the car answers NEXT_TARGET and its state repeats, so STOP never comes |
| Scenarios.StoppedNearTargetStaysPut | project3.cpp:633-636 | a stopped car 1–5 cells from its target decelerates and never moves again |
| Scenarios.NearTargetFromStart | project3.cpp:633-636 | a car at (0, 0) heading E with target (5, 0) stays put |
| Scenarios.StartingCarIsOffTarget | project3.cpp:985-991 | the starting car (stopped, with its first target elsewhere) meets the approach invariant |
| Scenarios.FarTargetCruises | project3.cpp:653-658 | facing a far target with no hazard, the car accelerates and moves along its heading |
| Scenarios.LoneStopSignPerceived | project3.cpp:724-734 | a stop sign 4 cells ahead yields one reading, the lidar's, at distance 4 with confidence ≥ 0.445 |
| Scenarios.LoneReadingSurvives | project3.cpp:506-549 | a single reading at or above the threshold comes out of fusion unchanged |
| Scenarios.StopSignAheadSlowsCar | project3.cpp:627-628 | a stop sign 4 cells ahead is seen only by the lidar (confidence ≥ 0.445), survives fusion at 0.4, and makes the car decelerate |
| Revision2.GridWorld.constructor | project2.cpp:107 | the given dimensions and no entities |
| Revision2.GridWorld.AddObject | project2.cpp:115-117 | appends and leaves every earlier entity in place |
| Revision2.GridWorld.InBounds | project2.cpp:123-125 | a grid that holds any cell has positive dimensions |
| Revision2.ReadingOf | project2.cpp:150-159 | a reading copies type, id, position, speed, direction, sign text and light unchanged, with the sensor's fixed confidence; the radar's distance is dx, the others' is Manhattan |
| Revision2.ScanWorld | project2.cpp:140-166 | the scan loop returns the readings of the entities seen, in world order |
| Revision2.ScanAppend | project2.cpp:144-162 | scanning preserves list order: the scan of a concatenation is the concatenation of the scans |
| Revision2.ScanAfterAdd | project2.cpp:115-117 | after `addObject` the scan keeps every earlier reading and adds at most the new entity's |
| Revision2.ScanSound | project2.cpp:140-242 | every reading is of an entity the sensor sees |
| Revision2.ScanComplete | project2.cpp:140-242 | every entity the sensor sees is reported |
| Revision2.ScanMembership | project2.cpp:140-242 | a reading is in a scan exactly when it is the reading of an entity the sensor sees |
| Revision2.ScanCopiesEntities | project2.cpp:151-159 | every reading copies an entity of the world unchanged, with the sensor's confidence |
| Revision2.LidarFieldOfView | project2.cpp:149-155 | lidar readings lie in the 9×9 square, at Manhattan distance, with confidence 0.99 |
| Revision2.RadarFieldOfView | project2.cpp:187-193 | radar readings lie on the car's row 1..12 cells towards +x, with distance dx and confidence 0.95 |
| Revision2.CameraFieldOfView | project2.cpp:225-231 | camera readings lie 1..3 cells towards +x and at most 3 to the side, distance ≤ 6, confidence 0.87 |
| Revision2.RadarSeesParkedCar | project2.cpp:187-198 | unlike the later radar, this one reports a static entity ahead |
| Revision2.SelfDrivingCar.constructor | project2.cpp:326-329 | stopped, heading E, sensors on the car's cell |
| Revision2.SelfDrivingCar.SetPosition | project2.cpp:334-340 | the car and all three sensors move to the same cell |
| Revision2.SelfDrivingCar.Accelerate | project2.cpp:354-356 | the speed grows by one, with no cap |
| Revision2.SelfDrivingCar.Decelerate | project2.cpp:358-360 | the speed drops by one but never below 0 |

## Left out

- Command-line parsing and validation, and the early exits in `main`: front-end string work. The car's start and its targets come in as arguments.
- Rendering, banners, every log line and `SensorReading::print`: output only.
- The `usleep` pacing: timing only.
- Random world population: the initial entity list is an input. The random starting counter of a light and the random heading of a bike or car are constructor arguments and entity fields.
- IEEE double rounding: confidences are exact reals and the jitter is k/100 with k in −5..5.
- Heap ownership, `delete` and `dynamic_cast`. Entities are one tagged datatype, and identity is the id string, which the world keeps distinct (`GridWorld.Valid`).
- The static per-type id counters: ids are inputs, and only their distinctness is used.
- Machine-integer overflow of positions and counters: integers are unbounded; a position moves by at most 2 cells a tick and only to an in-bounds cell.
- The unused `tick` argument of `update`: no entity reads it.
- The sensors' own stored positions: they are kept as state (set by `setPosition`, never read by a scan), because every scan takes the car's cell as an argument.
- `Navigation.NavigationSystem.GetCurrentTarget`, `HasReachedTarget` and `HasMoreTargets`: each is its specification function (`CurrentTarget`, `ReachedTarget`, `MoreTargets`) read from the fields. They carry no contract of their own, and the decision lemmas state their effect.
- Entities.Entity.TypeName and the getters of `Revision2.Entity`: plain field reads, with no contract of their own.
- World.GridWorld.InBounds and Revision2.GridWorld.InBounds: the bounds test is their definition. The contract only adds that a grid holding a cell has positive dimensions.
- `project.cpp`: an unfinished skeleton with no behaviour to specify.
- The placeholder free functions of `project2.cpp`: `SensorFusionEngine` only prints, and `NavigationSystem(x, y)` only returns its two arguments as a pair; neither is called by the scan or car logic modelled here.
