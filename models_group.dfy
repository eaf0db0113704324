/** The older per-tile occupant stack of src/models/gameObjectGroup.go,
    which removes by index and can pop its top element. */
module ModelsGroup {
  import opened Occupants
  import opened Wrappers
  import opened TileStack

  class GameObjectGroup {
    var elements: seq<GameObject>

    /** InitGameObjectGroup: a tile with nothing on it. */
    constructor ()
      ensures elements == []
    {
      elements := [];
    }

    /** findIndex: a linear search for the first identical element. */
    method FindIndex(target: GameObject) returns (r: int)
      ensures r == IndexOf(elements, target)
      ensures r == -1 <==> target !in elements
      ensures r >= 0 ==> elements[r] == target && target !in elements[..r]
    {
      var i := 0;
      while i < |elements|
        invariant 0 <= i <= |elements|
        invariant target !in elements[..i]
      {
        if elements[i] == target {
          FirstOccurrence(elements, target, i);
          return i;
        }
        assert elements[..i + 1] == elements[..i] + [elements[i]];
        i := i + 1;
      }
      assert elements[..i] == elements;
      return -1;
    }

    /** removeByIndex: an index outside the stack removes nothing (nil);
        otherwise that element is removed and returned, the rest kept in
        order. */
    method RemoveByIndex(index: int) returns (removed: Option<GameObject>)
      modifies this
      ensures index < 0 || index >= |old(elements)| ==> removed == None && elements == old(elements)
      ensures 0 <= index < |old(elements)| ==>
        removed == Some(old(elements)[index]) && elements == RemoveAt(old(elements), index)
    {
      if index < 0 || index >= |elements| {
        return None;
      }
      removed := Some(elements[index]);
      elements := elements[..index] + elements[index + 1..];
    }

    /** Removes the first identical element; true iff it was present. */
    method RemoveElement(target: GameObject) returns (ok: bool)
      modifies this
      ensures ok <==> target in old(elements)
      ensures elements == RemoveFirst(old(elements), target)
    {
      var index := FindIndex(target);
      var removed := RemoveByIndex(index);
      return removed != None;
    }

    /** Pops the top element; None and no change on an empty stack. */
    method RemoveTopElement() returns (removed: Option<GameObject>)
      modifies this
      ensures removed == Top(old(elements))
      ensures elements == Pop(old(elements))
    {
      removed := RemoveByIndex(|elements| - 1);
    }

    /** The element on top, None (nil) when the tile is empty. */
    function ElementOnTop(): (r: Option<GameObject>)
      reads this
      ensures r.None? <==> elements == []
      ensures r.Some? ==> r.value == elements[|elements| - 1]
    {
      Top(elements)
    }

    /** Pushes an object on top. */
    method AddElement(obj: GameObject)
      modifies this
      ensures elements == old(elements) + [obj]
      ensures ElementOnTop() == Some(obj)
    {
      elements := elements + [obj];
    }
  }
}
