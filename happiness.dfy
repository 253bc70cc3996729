/**
 * The companion's happiness: a value kept between 0 and 1 by clamping
 * additions, decreased each time a repeating one-second timer finishes, and
 * shown through a sprite whose atlas slot is the value times the number of
 * slots, truncated.
 */
module GameplayHappiness {

  /** Largest value of a 32-bit unsigned integer, the type of an atlas index. */
  const U32_MAX: nat := 0xFFFF_FFFF

  /**
   * The value after adding `v` to `h` and clamping: first down to 1 when above,
   * then up to 0 when below.
   */
  function AddClamped(h: real, v: real): (r: real)
    ensures 0.0 <= r <= 1.0
    ensures 0.0 <= h + v <= 1.0 ==> r == h + v
    ensures h + v > 1.0 ==> r == 1.0
    ensures h + v < 0.0 ==> r == 0.0
  {
    var s := h + v;
    var s' := if s > 1.0 then 1.0 else s;
    if s' < 0.0 then 0.0 else s'
  }

  /** The clamped sum is the point of [0, 1] closest to the plain sum. */
  lemma AddClampedIsNearest(h: real, v: real, y: real)
    requires 0.0 <= y <= 1.0
    ensures Distance(AddClamped(h, v), h + v) <= Distance(y, h + v)
  {
  }

  function Distance(a: real, b: real): real {
    if a >= b then a - b else b - a
  }

  /** A happiness component, updated in place. */
  class Happiness {
    var value: real

    /** Between 0 and 1 after every update. */
    ghost predicate Valid()
      reads this
    {
      0.0 <= value <= 1.0
    }

    /** A happiness of 100%. */
    constructor Happy()
      ensures value == 1.0 && Valid()
    {
      value := 1.0;
    }

    /** Adds `v` and clamps the result between 0 and 1, whatever the prior value. */
    method Add(v: real)
      modifies this
      ensures value == AddClamped(old(value), v)
      ensures Valid()
    {
      value := value + v;
      if value > 1.0 {
        value := 1.0;
      }
      if value < 0.0 {
        value := 0.0;
      }
    }

    /** Subtracts `v` and clamps the result between 0 and 1: the same as adding `-v`. */
    method Sub(v: real)
      modifies this
      ensures value == AddClamped(old(value), -v)
      ensures Valid()
    {
      Add(-v);
    }
  }

  /**
   * One run of the decrease system. `timerJustFinished` is whether the repeating
   * timer finished during this tick; `values` are the happiness components of all
   * entities. When the timer finished each is decreased by `decrease` with
   * clamping; otherwise nothing changes.
   */
  method DecreaseHappinessSystem(timerJustFinished: bool, decrease: real, values: seq<Happiness>)
    requires forall i, j :: 0 <= i < j < |values| ==> values[i] != values[j]
    modifies values
    ensures forall i :: 0 <= i < |values| ==>
      values[i].value == if timerJustFinished then AddClamped(old(values[i].value), -decrease) else old(values[i].value)
    ensures timerJustFinished ==> forall i :: 0 <= i < |values| ==> values[i].Valid()
  {
    if !timerJustFinished {
      return;
    }
    var n := 0;
    while n < |values|
      invariant 0 <= n <= |values|
      invariant forall i :: 0 <= i < n ==> values[i].value == AddClamped(old(values[i].value), -decrease)
      invariant forall i :: n <= i < |values| ==> values[i].value == old(values[i].value)
    {
      values[n].Sub(decrease);
      n := n + 1;
    }
  }

  /** The value after `ticks` timer firings, each decreasing by `decrease`. */
  function Decayed(h: real, decrease: real, ticks: nat): real {
    if ticks == 0 then h else AddClamped(Decayed(h, decrease, ticks - 1), -decrease)
  }

  function Max0(x: real): real {
    if x > 0.0 then x else 0.0
  }

  /**
   * Closed form of the decay: from a value in [0, 1] with a non-negative
   * decrease, `ticks` firings leave `h - ticks * decrease`, or 0 once that is
   * negative.
   */
  lemma {:induction false} DecayedClosedForm(h: real, decrease: real, ticks: nat)
    requires 0.0 <= h <= 1.0 && decrease >= 0.0
    ensures Decayed(h, decrease, ticks) == Max0(h - ticks as real * decrease)
  {
    if ticks > 0 {
      DecayedClosedForm(h, decrease, ticks - 1);
      assert ticks as real * decrease == (ticks - 1) as real * decrease + decrease;
    }
  }

  /** With a positive decrease, any happiness in [0, 1] reaches exactly 0 after enough ticks and stays there. */
  lemma DecayedReachesZero(h: real, decrease: real, ticks: nat)
    requires 0.0 <= h <= 1.0 && decrease > 0.0
    requires ticks as real * decrease >= h
    ensures Decayed(h, decrease, ticks) == 0.0
  {
    DecayedClosedForm(h, decrease, ticks);
  }

  /**
   * Rust's saturating `f32 as u32` cast on a real: negative values give 0,
   * values past the largest u32 give that largest value, others are truncated.
   */
  function AsU32(x: real): (r: nat)
    ensures r <= U32_MAX
    ensures x <= 0.0 ==> r == 0
    ensures x >= U32_MAX as real ==> r == U32_MAX
    ensures 0.0 <= x < U32_MAX as real ==> r as real <= x < r as real + 1.0
  {
    if x <= 0.0 then 0 else if x >= U32_MAX as real then U32_MAX else x.Floor
  }

  /** The atlas slot shown for happiness `h` with an atlas of `nbSprites` slots. */
  function SpriteIndex(h: real, nbSprites: nat): (r: nat)
    ensures r <= U32_MAX
    ensures nbSprites == 0 || h * nbSprites as real <= 0.0 ==> r == 0
    ensures 0.0 <= h * nbSprites as real < U32_MAX as real ==>
      r as real <= h * nbSprites as real < r as real + 1.0
  {
    AsU32(h * nbSprites as real)
  }

  /**
   * For a happiness in [0, 1] the index lies in [0, nbSprites]; it is below
   * nbSprites (a real slot) exactly when the happiness is below 1, and at full
   * happiness it is nbSprites, one past the last slot of the atlas.
   */
  lemma SpriteIndexRange(h: real, nbSprites: nat)
    requires 0.0 <= h <= 1.0
    requires nbSprites <= U32_MAX
    ensures SpriteIndex(h, nbSprites) <= nbSprites
    ensures 0 < nbSprites ==> (SpriteIndex(h, nbSprites) == nbSprites <==> h == 1.0)
  {
    var x := ScaledUnit(h, nbSprites);
    CastBelow(x, nbSprites);
  }

  /** The product behind the index, named, with its place in [0, nb]. */
  lemma ScaledUnit(h: real, nb: nat) returns (x: real)
    requires 0.0 <= h <= 1.0
    ensures x == h * nb as real
    ensures 0.0 <= x <= nb as real
    ensures 0 < nb ==> (x == nb as real <==> h == 1.0)
  {
    x := h * nb as real;
    ScaledUnitBound(h, nb as real);
  }

  /** `h * n` for `h` in [0, 1] lies in [0, n] and equals `n` exactly at `h = 1` (when `n > 0`). */
  lemma ScaledUnitBound(h: real, n: real)
    requires 0.0 <= h <= 1.0 && n >= 0.0
    ensures 0.0 <= h * n <= n
    ensures n > 0.0 ==> (h * n == n <==> h == 1.0)
  {
    assert (1.0 - h) * n >= 0.0;
    if n > 0.0 && h < 1.0 {
      assert (1.0 - h) * n > 0.0;
    }
  }

  /** Casting a real in [0, n] gives at most `n`, and `n` only for `n` itself. */
  lemma CastBelow(x: real, n: nat)
    requires 0.0 <= x <= n as real
    requires n <= U32_MAX
    ensures AsU32(x) <= n
    ensures AsU32(x) == n <==> x == n as real
  {
  }

  /**
   * One run of the sprite system. `changedValues` are the happiness values
   * that changed this frame, in query order; `atlasSizes[j]` is the number of
   * slots of the atlas of sprite `j` and `indices[j]` its shown slot. Every
   * changed value overwrites every sprite's index, so the last one wins; with
   * no change no index is touched.
   */
  method UpdateHappinessSpriteSystem(changedValues: seq<real>, atlasSizes: seq<nat>, indices: array<nat>)
    requires |atlasSizes| == indices.Length
    modifies indices
    ensures changedValues == [] ==> indices[..] == old(indices[..])
    ensures changedValues != [] ==> forall j :: 0 <= j < indices.Length ==>
      indices[j] == SpriteIndex(changedValues[|changedValues| - 1], atlasSizes[j])
  {
    var i := 0;
    while i < |changedValues|
      invariant 0 <= i <= |changedValues|
      invariant i == 0 ==> indices[..] == old(indices[..])
      invariant i > 0 ==> forall j :: 0 <= j < indices.Length ==> indices[j] == SpriteIndex(changedValues[i - 1], atlasSizes[j])
    {
      var j := 0;
      while j < indices.Length
        invariant 0 <= j <= indices.Length
        invariant forall k :: 0 <= k < j ==> indices[k] == SpriteIndex(changedValues[i], atlasSizes[k])
        invariant i == 0 ==> forall k :: j <= k < indices.Length ==> indices[k] == old(indices[k])
        invariant i > 0 ==> forall k :: j <= k < indices.Length ==> indices[k] == SpriteIndex(changedValues[i - 1], atlasSizes[k])
      {
        indices[j] := SpriteIndex(changedValues[i], atlasSizes[j]);
        j := j + 1;
      }
      i := i + 1;
    }
  }
}
