/** Grid coordinates (src/structures/geometry.go). */
module Geometry {

  /** An immutable coordinate pair: column x, row y. */
  datatype Pos = Pos(x: int, y: int)

  /** The distance between two tiles. The source declares DistanceTo on its
      Location interface but never defines it; the model uses the squared
      Euclidean distance, which orders tiles exactly as the Euclidean one. */
  function DistanceTo(a: Pos, b: Pos): (r: nat)
    ensures r == 0 <==> a == b
  {
    var dx, dy := a.x - b.x, a.y - b.y;
    SquareZero(dx);
    SquareZero(dy);
    dx * dx + dy * dy
  }

  lemma DistanceSymmetric(a: Pos, b: Pos)
    ensures DistanceTo(a, b) == DistanceTo(b, a)
  {
    assert (a.x - b.x) * (a.x - b.x) == (b.x - a.x) * (b.x - a.x);
    assert (a.y - b.y) * (a.y - b.y) == (b.y - a.y) * (b.y - a.y);
  }

  lemma SquareZero(n: int)
    ensures n * n >= 0
    ensures n * n == 0 <==> n == 0
  {
    if n > 0 { assert n * n >= n; } else if n < 0 { assert n * n >= -n; }
  }

  /** The mutable location of a moving game object. */
  class Position {
    var x: int
    var y: int

    /** InitPosition */
    constructor (x: int, y: int)
      ensures this.x == x && this.y == y
    {
      this.x := x;
      this.y := y;
    }

    function X(): int
      reads this
    {
      x
    }

    function Y(): int
      reads this
    {
      y
    }

    /** The coordinates held now, as a value. */
    function Value(): Pos
      reads this
    {
      Pos(x, y)
    }

    method SetX(x: int)
      modifies this
      ensures this.x == x && this.y == old(this.y)
    {
      this.x := x;
    }

    method SetY(y: int)
      modifies this
      ensures this.y == y && this.x == old(this.x)
    {
      this.y := y;
    }
  }
}
