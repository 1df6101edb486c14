/** The observation record every sensor emits and the fusion engine merges. */
module Readings {
  import opened Common

  /** One sensor's view of one object: type, id, absolute cell, distance
      from the car, confidence in [0, 1], and the object's speed, direction,
      sign text ("" when none) and light colour (None when empty). */
  datatype Reading = Reading(
    objectType: string,
    position: Position,
    objectId: string,
    confidence: real,
    distance: int,
    speed: int,
    direction: Option<Heading>,
    signText: string,
    trafficLight: Option<LightColor>)
}
