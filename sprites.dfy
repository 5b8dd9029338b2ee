/**
 * Glyph cells and sprite templates (`Coord` and `shift_prototype` in
 * `ligma/src/state.rs`), together with the 16-bit integer arithmetic the
 * source performs on them.
 *
 * Coordinates are Rust `u16`.  Arithmetic follows the release profile of
 * Rust, where `+` and `-` on fixed-width integers wrap around; a debug build
 * panics on the same overflows instead.  The lemmas below state the
 * no-overflow conditions under which both builds compute the exact sum.
 */
module Sprites {

  const U16_MODULUS: int := 0x1_0000
  const I16_MIN: int := -0x8000
  const I16_MAX: int := 0x7FFF

  type U16 = x: int | 0 <= x < 0x1_0000
  type I16 = x: int | -0x8000 <= x < 0x8000

  /** A glyph cell: a position on the terminal and the character drawn there. */
  datatype Coord = Coord(x: U16, y: U16, ch: char)

  /** `a + b` on `u16`, wrapping around. */
  function AddU16(a: U16, b: int): U16
  {
    (a + b) % U16_MODULUS
  }

  /** `v as i16` for a `u16`: the same sixteen bits read in two's complement. */
  function AsI16(v: U16): I16
  {
    if v <= I16_MAX then v else v - U16_MODULUS
  }

  /** `a + b` on `i16`, wrapping around. */
  function AddI16(a: I16, b: I16): I16
  {
    (a + b - I16_MIN) % U16_MODULUS + I16_MIN
  }

  /** `v as u16` for an `i16`: the same sixteen bits read as unsigned. */
  function I16AsU16(v: I16): U16
  {
    v % U16_MODULUS
  }

  lemma AddU16Exact(a: U16, b: int)
    requires 0 <= a + b < U16_MODULUS
    ensures AddU16(a, b) == a + b
  {
  }

  /** Wrapping addition composes: adding `b` then `c` is adding the wrapped `b + c`. */
  lemma AddU16Compose(a: U16, b: int, c: int)
    ensures AddU16(AddU16(a, b), c) == AddU16(a, b + c)
  {
    var q := (a + b) / U16_MODULUS;
    assert a + b == q * U16_MODULUS + AddU16(a, b);
    ModShift(AddU16(a, b) + c, q);
  }

  lemma ModShift(v: int, q: int)
    ensures (v + q * U16_MODULUS) % U16_MODULUS == v % U16_MODULUS
    decreases if q < 0 then -q else q
  {
    if q > 0 {
      ModShift(v, q - 1);
      assert v + q * U16_MODULUS == (v + (q - 1) * U16_MODULUS) + U16_MODULUS;
    } else if q < 0 {
      ModShift(v, q + 1);
      assert v + q * U16_MODULUS == (v + (q + 1) * U16_MODULUS) - U16_MODULUS;
    }
  }

  /** One cell of `shift_prototype`: both coordinates moved by a `u16` offset. */
  function ShiftCoord(c: Coord, xShift: U16, yShift: U16): Coord
  {
    Coord(AddU16(c.x, xShift), AddU16(c.y, yShift), c.ch)
  }

  /** `shift_prototype`: a template instantiated at the origin `(xShift, yShift)`. */
  function ShiftPrototype(prototype: seq<Coord>, xShift: U16, yShift: U16): (r: seq<Coord>)
    ensures |r| == |prototype|
    ensures forall i :: 0 <= i < |prototype| ==>
      && r[i].ch == prototype[i].ch
      && r[i].x == (prototype[i].x + xShift) % U16_MODULUS
      && r[i].y == (prototype[i].y + yShift) % U16_MODULUS
  {
    seq(|prototype|, i requires 0 <= i < |prototype| => ShiftCoord(prototype[i], xShift, yShift))
  }

  /** The offset fits: no coordinate of the instantiated template overflows `u16`. */
  predicate ShiftFits(prototype: seq<Coord>, xShift: U16, yShift: U16)
  {
    forall i :: 0 <= i < |prototype| ==>
      prototype[i].x + xShift < U16_MODULUS && prototype[i].y + yShift < U16_MODULUS
  }

  /**
   * Instantiating a template keeps its length, its order and its glyphs, and
   * adds exactly the offset to every cell, as long as no coordinate overflows.
   */
  lemma ShiftPrototypeExact(prototype: seq<Coord>, xShift: U16, yShift: U16)
    requires ShiftFits(prototype, xShift, yShift)
    ensures |ShiftPrototype(prototype, xShift, yShift)| == |prototype|
    ensures forall i :: 0 <= i < |prototype| ==>
      ShiftPrototype(prototype, xShift, yShift)[i]
        == Coord(prototype[i].x + xShift, prototype[i].y + yShift, prototype[i].ch)
  {
  }

  /** The origin `(0, 0)` leaves a template as it is. */
  lemma ShiftPrototypeIdentity(prototype: seq<Coord>)
    ensures ShiftPrototype(prototype, 0, 0) == prototype
  {
  }

  /**
   * Instantiating twice is instantiating once at the sum of the offsets,
   * taken modulo 2^16 as the wrapping `u16` addition does.
   */
  lemma ShiftPrototypeCompose(prototype: seq<Coord>, a: U16, b: U16, c: U16, d: U16)
    ensures ShiftPrototype(ShiftPrototype(prototype, a, b), c, d)
         == ShiftPrototype(prototype, AddU16(a, c), AddU16(b, d))
  {
    var lhs := ShiftPrototype(ShiftPrototype(prototype, a, b), c, d);
    var rhs := ShiftPrototype(prototype, AddU16(a, c), AddU16(b, d));
    forall i | 0 <= i < |prototype|
      ensures lhs[i] == rhs[i]
    {
      AddU16Assoc(prototype[i].x, a, c);
      AddU16Assoc(prototype[i].y, b, d);
    }
  }

  /** Wrapping addition of two offsets in turn equals adding their wrapped sum. */
  lemma AddU16Assoc(v: U16, a: U16, c: U16)
    ensures AddU16(AddU16(v, a), c) == AddU16(v, AddU16(a, c))
  {
    AddU16Compose(v, a, c);
    var k := (a + c) / U16_MODULUS;
    assert a + c == k * U16_MODULUS + AddU16(a, c);
    ModShift(v + AddU16(a, c), k);
  }

  /** With sums that fit in `u16`, two instantiations compose by plain addition. */
  lemma ShiftPrototypeComposeExact(prototype: seq<Coord>, a: U16, b: U16, c: U16, d: U16)
    requires a + c < U16_MODULUS && b + d < U16_MODULUS
    ensures ShiftPrototype(ShiftPrototype(prototype, a, b), c, d)
         == ShiftPrototype(prototype, a + c, b + d)
  {
    ShiftPrototypeCompose(prototype, a, b, c, d);
    AddU16Exact(a, c);
    AddU16Exact(b, d);
  }

  /**
   * One coordinate of `Player::shift_by`: read as `i16`, shifted with `i16`
   * addition, floored at 0 with `cmp::max` and read back as `u16`.
   */
  function ClampedShift(v: U16, shift: I16): U16
  {
    I16AsU16(if AddI16(AsI16(v), shift) < 0 then 0 else AddI16(AsI16(v), shift))
  }

  /**
   * For a coordinate that `i16` represents, clamped shifting is the
   * arithmetic shift floored at 0; a coordinate beyond `i16` left unshifted
   * reads as negative and is clamped to 0.
   */
  lemma ClampedShiftValue(v: U16, shift: I16)
    ensures v <= I16_MAX && v + shift <= I16_MAX ==>
      ClampedShift(v, shift) == if v + shift < 0 then 0 else v + shift
    ensures v > I16_MAX && shift == 0 ==> ClampedShift(v, shift) == 0
  {
  }
}
