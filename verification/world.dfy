/** The bounded grid that owns the entities: append, remove by identity,
    first-match cell lookup, bounds test, the per-tick timer update, and the
    all-or-nothing move of a moving entity. */
module World {
  import opened Common
  import opened Entities

  /** Every entity after one `update` call. */
  function UpdatedAll(objs: seq<Entity>): (r: seq<Entity>)
    ensures |r| == |objs|
    ensures forall i :: 0 <= i < |objs| ==> r[i] == objs[i].Update()
  {
    seq(|objs|, i requires 0 <= i < |objs| => objs[i].Update())
  }

  lemma UpdatedAllKeepsIds(objs: seq<Entity>)
    requires UniqueIds(objs)
    ensures UniqueIds(UpdatedAll(objs))
    ensures Ids(UpdatedAll(objs)) == Ids(objs)
  {
    var r := UpdatedAll(objs);
    forall x | x in Ids(r) ensures x in Ids(objs) {
      var i :| 0 <= i < |r| && r[i].id == x;
      assert objs[i].id == x;
    }
    forall x | x in Ids(objs) ensures x in Ids(r) {
      var i :| 0 <= i < |objs| && objs[i].id == x;
      assert r[i].id == x;
    }
  }

  class GridWorld {
    const dimX: int
    const dimY: int
    var objects: seq<Entity>

    /** Distinct entities carry distinct ids. */
    ghost predicate Valid()
      reads this
    {
      UniqueIds(objects)
    }

    constructor (x: int, y: int)
      ensures dimX == x && dimY == y && objects == []
      ensures Valid()
    {
      dimX, dimY := x, y;
      objects := [];
    }

    /** The cell test; a grid holding any cell has positive dimensions. */
    predicate InBounds(x: int, y: int)
      ensures InBounds(x, y) ==> dimX > 0 && dimY > 0
    {
      x >= 0 && x < dimX && y >= 0 && y < dimY
    }

    /** Appends; the entity is new, so its id is not yet present. */
    method AddObject(obj: Entity)
      requires Valid()
      requires obj.id !in Ids(objects)
      modifies this
      ensures Valid()
      ensures objects == old(objects) + [obj]
    {
      objects := objects + [obj];
    }

    /** The first entity standing on cell (x, y), if any. */
    method GetObjectAt(x: int, y: int) returns (r: Option<Entity>)
      ensures r.None? <==> forall o :: o in objects ==> o.pos != Position(x, y)
      ensures r.Some? ==> exists i :: 0 <= i < |objects| && objects[i] == r.value
                                      && r.value.pos == Position(x, y)
                                      && forall j :: 0 <= j < i ==> objects[j].pos != Position(x, y)
    {
      var i := 0;
      while i < |objects|
        invariant 0 <= i <= |objects|
        invariant forall j :: 0 <= j < i ==> objects[j].pos != Position(x, y)
      {
        var pos := objects[i].pos;
        if pos.x == x && pos.y == y {
          return Some(objects[i]);
        }
        i := i + 1;
      }
      return None;
    }

    /** Advances every entity's timer by one tick. */
    method UpdateAll()
      requires Valid()
      modifies this
      ensures Valid()
      ensures objects == UpdatedAll(old(objects))
    {
      var i := 0;
      while i < |objects|
        invariant 0 <= i <= |objects| == |old(objects)|
        invariant forall j :: 0 <= j < i ==> objects[j] == old(objects)[j].Update()
        invariant forall j :: i <= j < |objects| ==> objects[j] == old(objects)[j]
      {
        objects := objects[i := objects[i].Update()];
        i := i + 1;
      }
      UpdatedAllKeepsIds(old(objects));
    }

    /** Removes the entity with this identity; a no-op when it is absent. */
    method RemoveObject(id: string)
      requires Valid()
      modifies this
      ensures Valid()
      ensures id !in Ids(objects)
      ensures id !in Ids(old(objects)) ==> objects == old(objects)
      ensures forall k :: 0 <= k < |old(objects)| && old(objects)[k].id == id ==>
                objects == old(objects)[..k] + old(objects)[k + 1..]
    {
      var i := 0;
      while i < |objects| && objects[i].id != id
        invariant 0 <= i <= |objects|
        invariant forall j :: 0 <= j < i ==> objects[j].id != id
      {
        i := i + 1;
      }
      if i < |objects| {
        ghost var before := objects;
        objects := objects[..i] + objects[i + 1..];
        assert forall j :: 0 <= j < |objects| ==> objects[j] == (if j < i then before[j] else before[j + 1]);
        forall x | x in Ids(objects) ensures x != id {
          var j :| 0 <= j < |objects| && objects[j].id == x;
        }
      }
    }
  }

  /** A moving entity relocated to `p`, everything else unchanged. */
  function Relocated(o: Entity, p: Position): (r: Entity)
    requires o.IsMoving()
    ensures r.IsMoving() && r.pos == p && r.id == o.id && r.TypeName() == o.TypeName()
    ensures r.speed == o.speed && r.heading == o.heading
  {
    match o
    case Bike(id, _, speed, heading) => Bike(id, p, speed, heading)
    case OtherCar(id, _, speed, heading) => OtherCar(id, p, speed, heading)
  }

  /** MovingObject::move on a value: the shifted cell if it is in bounds,
      otherwise the entity as it was. */
  function Move(o: Entity, world: GridWorld): (r: (bool, Entity))
    requires o.IsMoving()
    ensures var target := Advance(o.pos, o.heading, o.speed);
            && (r.0 <==> world.InBounds(target.x, target.y))
            && r.1.pos == (if r.0 then target else o.pos)
    ensures r.1 == Relocated(o, r.1.pos)
  {
    var target := Advance(o.pos, o.heading, o.speed);
    if world.InBounds(target.x, target.y) then (true, Relocated(o, target)) else (false, o)
  }
}
