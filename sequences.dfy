/** The animation frame and audio file cycles of src/structures/sequences.go
    (src/modules/spriteSequence.go holds the same SpriteSequence). A frame
    is named by the file it is loaded from. */
module Sequences {
  import opened MathUtil

  /** One advance of a cursor over n items, wrapping to the first. */
  function Next(c: nat, n: nat): (r: nat)
    requires n > 0
    ensures r < n
    ensures c < n - 1 ==> r == c + 1
    ensures c == n - 1 ==> r == 0
  {
    (c + 1) % n
  }

  /** The cursor after k advances. */
  function Advanced(c: nat, n: nat, k: nat): nat
    requires n > 0
  {
    if k == 0 then c else Next(Advanced(c, n, k - 1), n)
  }

  /** k advances move the cursor k places round the cycle. */
  lemma {:induction false} AdvancedIsShift(c: nat, n: nat, k: nat)
    requires n > 0
    requires c < n || k > 0
    ensures Advanced(c, n, k) == (c + k) % n
  {
    if k == 0 {
      SmallMod(c, n);
    } else if k > 1 {
      AdvancedIsShift(c, n, k - 1);
      ModSucc(c + k - 1, n);
    }
  }

  /** A cursor inside the cycle comes back to itself after n advances. */
  lemma {:induction false} FullCycle(c: nat, n: nat)
    requires 0 <= c < n
    ensures Advanced(c, n, n) == c
  {
    AdvancedIsShift(c, n, n);
    DivMod(c + n, n);
    DivMod(c, n);
    RemainderUnique(c + n, n, (c + n) % n, c) by {
      DivisibleDifference(c + n, n);
      MultipleMod(1, n);
    }
  }

  lemma ModSucc(a: nat, n: nat)
    requires n > 0
    ensures (a % n + 1) % n == (a + 1) % n
  {
    var r := a % n;
    DivMod(a, n);
    DivMod(a + 1, n);
    DivisibleDifference(a + 1, n);
    if r + 1 < n {
      DivisibleDifference(a, n);
      SmallMod(r + 1, n);
      assert a + 1 - (r + 1) == a - r;
      RemainderUnique(a + 1, n, (a + 1) % n, r + 1);
    } else {
      assert (r + 1) % n == 0 by { MultipleMod(1, n); }
      assert a + 1 == (a / n + 1) * n;
      MultipleMod(a / n + 1, n);
      RemainderUnique(a + 1, n, (a + 1) % n, 0);
    }
  }

  lemma SmallMod(x: int, n: int)
    requires 0 <= x < n
    ensures x % n == x
  {
    ModOfResidue(x, n);
    ModIsEuclidean(x, n);
  }

  /** SpriteSequence: the frames of an animation and the one on show. */
  class SpriteSequence {
    var current: nat
    var frames: seq<string>

    ghost predicate Valid()
      reads this
    {
      frames != [] ==> current < |frames|
    }

    /** InitSpriteSequence: the frames in the given order, the first on show. */
    constructor (sprites: seq<string>)
      ensures Valid() && current == 0 && frames == sprites
    {
      current := 0;
      frames := sprites;
    }

    /** Shows the next frame, wrapping to the first; an empty sequence is
        a division by zero in the source, hence the precondition. */
    method Advance()
      requires Valid() && frames != []
      modifies this
      ensures Valid() && frames == old(frames)
      ensures current == Next(old(current), |frames|)
    {
      current := (current + 1) % |frames|;
    }

    /** The frame on show. */
    function GetCurrentFrame(): (f: string)
      reads this
      requires Valid() && frames != []
      ensures f in frames
    {
      frames[current]
    }
  }

  /** SoundSequence: the audio files of a cycling sound and the one that
      plays. */
  class SoundSequence {
    var current: nat
    var files: seq<seq<bv8>>

    ghost predicate Valid()
      reads this
    {
      files != [] ==> current < |files|
    }

    /** InitSoundSequence: the files in the given order, the first current. */
    constructor (files: seq<seq<bv8>>)
      ensures Valid() && current == 0 && this.files == files
    {
      current := 0;
      this.files := files;
    }

    /** Moves to the next file, wrapping to the first. */
    method Advance()
      requires Valid() && files != []
      modifies this
      ensures Valid() && files == old(files)
      ensures current == Next(old(current), |files|)
    {
      current := (current + 1) % |files|;
    }

    /** The current audio data. */
    function GetCurrentAudio(): (a: seq<bv8>)
      reads this
      requires Valid() && files != []
      ensures a in files
    {
      files[current]
    }
  }
}
