/** The per-tile occupant stack of src/structures/gameObjects.go. */
module StructuresGroup {
  import opened Occupants
  import opened Wrappers
  import opened TileStack

  class GameObjectGroup {
    var elements: seq<GameObject>

    /** InitGameObjectGroup: a tile with nothing on it. */
    constructor ()
      ensures elements == []
    {
      elements := [];
    }

    /** findIndex: a linear search for the first identical element. */
    method FindIndex(target: GameObject) returns (r: int)
      ensures r == IndexOf(elements, target)
      ensures r == -1 <==> target !in elements
      ensures r >= 0 ==> elements[r] == target && target !in elements[..r]
    {
      var i := 0;
      while i < |elements|
        invariant 0 <= i <= |elements|
        invariant target !in elements[..i]
      {
        if elements[i] == target {
          FirstOccurrence(elements, target, i);
          return i;
        }
        assert elements[..i + 1] == elements[..i] + [elements[i]];
        i := i + 1;
      }
      assert elements[..i] == elements;
      return -1;
    }

    /** Removes the first identical element; reports whether there was one. */
    method RemoveElement(target: GameObject) returns (ok: bool)
      modifies this
      ensures ok <==> target in old(elements)
      ensures elements == RemoveFirst(old(elements), target)
      ensures !ok ==> elements == old(elements)
    {
      var index := FindIndex(target);
      if index < 0 || index >= |elements| {
        return false;
      }
      elements := elements[..index] + elements[index + 1..];
      return true;
    }

    /** The element on top, None (nil) when the tile is empty. */
    function ElementOnTop(): (r: Option<GameObject>)
      reads this
      ensures r.None? <==> elements == []
      ensures r.Some? ==> r.value == elements[|elements| - 1]
    {
      Top(elements)
    }

    /** A copy of the elements, bottom first. */
    method Elements() returns (r: seq<GameObject>)
      ensures r == elements
    {
      r := elements;
    }

    /** Pushes an object on top. */
    method AddElement(obj: GameObject)
      modifies this
      ensures elements == old(elements) + [obj]
      ensures ElementOnTop() == Some(obj)
    {
      elements := elements + [obj];
    }
  }
}
