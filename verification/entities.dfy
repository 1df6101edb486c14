/** The entities that populate the world, as one tagged variant with the
    shared read-only capability interface (type name, speed, direction, sign
    text, light colour) that the sensors iterate over. */
module Entities {
  import opened Common
  import Lights

  /** `id` is the "<type>:<number>" string the population assigns. */
  datatype Entity =
    | ParkedCar(id: string, pos: Position)
    | StopSign(id: string, pos: Position)
    | TrafficLight(id: string, pos: Position, signal: Lights.Signal)
    | Bike(id: string, pos: Position, speed: int, heading: Heading)
    | OtherCar(id: string, pos: Position, speed: int, heading: Heading)
  {
    /** The type string the source's `getType` returns. */
    function TypeName(): string
    {
      match this
      case ParkedCar(_, _) => "ParkedCar"
      case StopSign(_, _) => "StopSign"
      case TrafficLight(_, _, _) => "TrafficLight"
      case Bike(_, _, _, _) => "Bike"
      case OtherCar(_, _, _, _) => "Car"
    }

    /** The entities that move on their own each tick (bikes and other cars). */
    predicate IsMoving()
    {
      Bike? || OtherCar?
    }

    /** Static entities report speed 0. */
    function Speed(): (s: int)
      ensures !IsMoving() ==> s == 0
      ensures IsMoving() ==> s == speed
    {
      if IsMoving() then speed else 0
    }

    /** Static entities report no direction (the empty string). */
    function Direction(): (d: Option<Heading>)
      ensures d.Some? <==> IsMoving()
      ensures IsMoving() ==> d == Some(heading)
    {
      if IsMoving() then Some(heading) else None
    }

    /** Only a stop sign carries text. */
    function SignText(): (t: string)
      ensures t != "" <==> StopSign?
      ensures StopSign? ==> t == "STOP"
    {
      if StopSign? then "STOP" else ""
    }

    /** Only a traffic light reports a colour. */
    function TrafficLightState(): (c: Option<LightColor>)
      ensures c.Some? <==> TrafficLight?
      ensures TrafficLight? ==> c == Some(signal.state)
    {
      if TrafficLight? then Some(signal.state) else None
    }

    /** The per-tick `update`: only a traffic light responds. */
    function Update(): (e: Entity)
      ensures e.id == id && e.pos == pos && e.TypeName() == TypeName()
      ensures !TrafficLight? ==> e == this
      ensures TrafficLight? ==> e.TrafficLight? && e.signal == Lights.LightUpdate(signal)
    {
      if TrafficLight? then TrafficLight(id, pos, Lights.LightUpdate(signal)) else this
    }
  }

  function Ids(objs: seq<Entity>): set<string>
  {
    set o | o in objs :: o.id
  }

  /** No two entities share an id (the counterpart of distinct objects). */
  predicate UniqueIds(objs: seq<Entity>)
  {
    forall i, j :: 0 <= i < j < |objs| ==> objs[i].id != objs[j].id
  }
}
