/** The occupant stack of one tile as a value: the functions that specify
    the GameObjectGroup classes of src/structures/gameObjects.go and
    src/models/gameObjectGroup.go. The last element is the top. */
module TileStack {
  import opened Occupants
  import opened Wrappers

  /** The first position of x in s, or -1 when x is absent. */
  function IndexOf(s: seq<GameObject>, x: GameObject): (r: int)
    ensures -1 <= r < |s|
    ensures r == -1 <==> x !in s
    ensures r >= 0 ==> s[r] == x && x !in s[..r]
  {
    if |s| == 0 then -1
    else if s[0] == x then 0
    else
      var k := IndexOf(s[1..], x);
      assert s[1..][..k + 1] == s[1..k + 2] by { }
      if k < 0 then -1
      else
        assert s[..k + 1] == [s[0]] + s[1..][..k];
        k + 1
  }

  /** IndexOf finds exactly the first occurrence: an index holding x with
      no x before it is the one it returns. */
  lemma {:induction false} FirstOccurrence(s: seq<GameObject>, x: GameObject, i: nat)
    requires i < |s| && s[i] == x && x !in s[..i]
    ensures IndexOf(s, x) == i
  {
    if i > 0 {
      assert s[..i][0] == s[0];
      assert s[1..][..i - 1] == s[..i][1..];
      FirstOccurrence(s[1..], x, i - 1);
    }
  }

  /** s without its element at index i, the rest in order. */
  function RemoveAt(s: seq<GameObject>, i: nat): (r: seq<GameObject>)
    requires i < |s|
    ensures |r| == |s| - 1
    ensures forall k :: 0 <= k < i ==> r[k] == s[k]
    ensures forall k :: i <= k < |r| ==> r[k] == s[k + 1]
  {
    s[..i] + s[i + 1..]
  }

  /** s without the first occurrence of x; s itself when x is absent. */
  function RemoveFirst(s: seq<GameObject>, x: GameObject): seq<GameObject>
  {
    if x in s then RemoveAt(s, IndexOf(s, x)) else s
  }

  /** The element on top, None for an empty stack. */
  function Top(s: seq<GameObject>): (r: Option<GameObject>)
    ensures r.None? <==> s == []
    ensures r.Some? ==> r.value == s[|s| - 1] && r.value in s
  {
    if |s| == 0 then None else Some(s[|s| - 1])
  }

  /** The stack with its top removed; an empty stack stays empty. */
  function Pop(s: seq<GameObject>): (r: seq<GameObject>)
    ensures s != [] ==> r + [s[|s| - 1]] == s
    ensures s == [] ==> r == []
  {
    if |s| == 0 then s else s[..|s| - 1]
  }

  /** Removing deletes exactly one occurrence and keeps the others in order. */
  lemma RemoveFirstDeletesOne(s: seq<GameObject>, x: GameObject)
    requires x in s
    ensures var i := IndexOf(s, x);
      RemoveFirst(s, x) == s[..i] + s[i + 1..] && x !in s[..i]
    ensures |RemoveFirst(s, x)| == |s| - 1
    ensures multiset(RemoveFirst(s, x)) == multiset(s) - multiset{x}
  {
    var i := IndexOf(s, x);
    assert s == s[..i] + [x] + s[i + 1..];
    calc {
      multiset(s);
      multiset(s[..i]) + multiset{x} + multiset(s[i + 1..]);
    }
  }

  /** Pushing an absent object and then removing it restores the stack. */
  lemma {:induction false} PushThenRemove(s: seq<GameObject>, x: GameObject)
    requires x !in s
    ensures RemoveFirst(s + [x], x) == s
  {
    var t := s + [x];
    var i := IndexOf(t, x);
    assert x !in t[..|s|] by { assert t[..|s|] == s; }
    assert i == |s|;
    assert t[..i] == s;
  }

  /** The pushed object is on top. */
  lemma TopOfPush(s: seq<GameObject>, x: GameObject)
    ensures Top(s + [x]) == Some(x)
    ensures Pop(s + [x]) == s
  {
  }
}
