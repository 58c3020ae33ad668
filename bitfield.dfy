/**
 * Mask/shift accessors over the flag words of the subelements.
 *
 * A field is a mask plus the shift that aligns its lowest bit with bit 0.
 * Most fields of the header have shift 0, and their named values are the
 * already-shifted bit patterns (for instance "available" is 0x0010 under the
 * mask 0x0030); the few fields with a shift hold small integers.
 */
module BitField {
  import opened Wrappers

  type Shift8 = s: nat | s <= 8
  type Shift16 = s: nat | s <= 16

  datatype Field8 = Field8(mask: bv8, shift: Shift8)
  datatype Field16 = Field16(mask: bv16, shift: Shift16)

  function Shl8(x: bv8, s: Shift8): bv8 { x << s }
  function Shr8(x: bv8, s: Shift8): bv8 { x >> s }
  function Shl16(x: bv16, s: Shift16): bv16 { x << s }
  function Shr16(x: bv16, s: Shift16): bv16 { x >> s }

  // ---- generic get / set ----

  /** The value held by field `f` of `v`. */
  function Get8(v: bv8, f: Field8): bv8 { Shr8(v & f.mask, f.shift) }

  /** `v` with field `f` replaced by `x`; bits of `x` outside the field are dropped. */
  function Set8(v: bv8, f: Field8, x: bv8): bv8 { (v & !f.mask) | (Shl8(x, f.shift) & f.mask) }

  /** `x` survives being shifted into field `f`: no bit is lost or masked away. */
  predicate Fits8(f: Field8, x: bv8)
  {
    Shl8(x, f.shift) & f.mask == Shl8(x, f.shift) && Shr8(Shl8(x, f.shift), f.shift) == x
  }

  function Get16(v: bv16, f: Field16): bv16 { Shr16(v & f.mask, f.shift) }

  function Set16(v: bv16, f: Field16, x: bv16): bv16 { (v & !f.mask) | (Shl16(x, f.shift) & f.mask) }

  predicate Fits16(f: Field16, x: bv16)
  {
    Shl16(x, f.shift) & f.mask == Shl16(x, f.shift) && Shr16(Shl16(x, f.shift), f.shift) == x
  }

  /**
   * The checked setter an encoder uses: a value that does not fit its field
   * is refused instead of being truncated.
   */
  function Put8(v: bv8, f: Field8, x: bv8): (r: Option<bv8>)
    ensures r.Some? <==> Fits8(f, x)
    ensures r.Some? ==> Get8(r.value, f) == x
    ensures r.Some? ==> forall g: Field8 :: g.mask & f.mask == 0 ==> Get8(r.value, g) == Get8(v, g)
  {
    if Fits8(f, x) then
      GetSet8(v, f, x);
      assert forall g: Field8 :: g.mask & f.mask == 0 ==> Get8(Set8(v, f, x), g) == Get8(v, g) by {
        forall g: Field8 | g.mask & f.mask == 0 ensures Get8(Set8(v, f, x), g) == Get8(v, g) {
          SetKeepsOthers8(v, f, g, x);
        }
      }
      Some(Set8(v, f, x))
    else None
  }

  function Put16(v: bv16, f: Field16, x: bv16): (r: Option<bv16>)
    ensures r.Some? <==> Fits16(f, x)
    ensures r.Some? ==> Get16(r.value, f) == x
    ensures r.Some? ==> forall g: Field16 :: g.mask & f.mask == 0 ==> Get16(r.value, g) == Get16(v, g)
  {
    if Fits16(f, x) then
      GetSet16(v, f, x);
      assert forall g: Field16 :: g.mask & f.mask == 0 ==> Get16(Set16(v, f, x), g) == Get16(v, g) by {
        forall g: Field16 | g.mask & f.mask == 0 ensures Get16(Set16(v, f, x), g) == Get16(v, g) {
          SetKeepsOthers16(v, f, g, x);
        }
      }
      Some(Set16(v, f, x))
    else None
  }

  // ---- generic laws ----

  lemma MaskOfSet8(v: bv8, m: bv8, y: bv8, n: bv8)
    ensures ((v & !m) | (y & m)) & m == y & m
    ensures m & n == 0 ==> ((v & !m) | (y & m)) & n == v & n
  {
  }

  lemma MaskOfSet16(v: bv16, m: bv16, y: bv16, n: bv16)
    ensures ((v & !m) | (y & m)) & m == y & m
    ensures m & n == 0 ==> ((v & !m) | (y & m)) & n == v & n
  {
  }

  /** Reading a field back after writing a value that fits gives that value. */
  lemma GetSet8(v: bv8, f: Field8, x: bv8)
    requires Fits8(f, x)
    ensures Get8(Set8(v, f, x), f) == x
  {
    MaskOfSet8(v, f.mask, Shl8(x, f.shift), 0);
  }

  lemma GetSet16(v: bv16, f: Field16, x: bv16)
    requires Fits16(f, x)
    ensures Get16(Set16(v, f, x), f) == x
  {
    MaskOfSet16(v, f.mask, Shl16(x, f.shift), 0);
  }

  /** Writing one field leaves every field with a disjoint mask unchanged. */
  lemma SetKeepsOthers8(v: bv8, f: Field8, g: Field8, x: bv8)
    requires f.mask & g.mask == 0
    ensures Get8(Set8(v, f, x), g) == Get8(v, g)
  {
    MaskOfSet8(v, f.mask, Shl8(x, f.shift), g.mask);
  }

  lemma SetKeepsOthers16(v: bv16, f: Field16, g: Field16, x: bv16)
    requires f.mask & g.mask == 0
    ensures Get16(Set16(v, f, x), g) == Get16(v, g)
  {
    MaskOfSet16(v, f.mask, Shl16(x, f.shift), g.mask);
  }

  /** A second write to the same field overrides the first. */
  lemma SetSet16(v: bv16, f: Field16, x: bv16, y: bv16)
    ensures Set16(Set16(v, f, x), f, y) == Set16(v, f, y)
  {
  }

  /** Bits outside the field's mask are never touched by a write. */
  lemma SetOutsideMask16(v: bv16, f: Field16, x: bv16)
    ensures Set16(v, f, x) & !f.mask == v & !f.mask
  {
  }
}
