/** `AsUsize`: index types that map injectively onto `usize`. The width of `usize` depends
    on the target; the `u32` conversion exists on 32- and 64-bit targets only and the `u64`
    conversion on 64-bit targets only, which the preconditions below express. */
module Indexing {

  newtype u8 = x: int | 0 <= x < 0x100
  newtype u16 = x: int | 0 <= x < 0x1_0000
  newtype u32 = x: int | 0 <= x < 0x1_0000_0000
  newtype u64 = x: int | 0 <= x < 0x1_0000_0000_0000_0000

  datatype PointerWidth = W16 | W32 | W64

  /** One more than the largest `usize` on a target of the given pointer width. */
  function UsizeBound(w: PointerWidth): nat
  {
    match w
    case W16 => 0x1_0000
    case W32 => 0x1_0000_0000
    case W64 => 0x1_0000_0000_0000_0000
  }

  /** A `usize` value of the given target. */
  predicate IsUsize(x: nat, w: PointerWidth) { x < UsizeBound(w) }

  /** `usize::as_usize`: the identity. */
  function UsizeAsUsize(x: nat, w: PointerWidth): (r: nat)
    requires IsUsize(x, w)
    ensures IsUsize(r, w) && r == x
  {
    x
  }

  /** `u8::as_usize`: widening, the value is unchanged. */
  function U8AsUsize(x: u8, w: PointerWidth): (r: nat)
    ensures IsUsize(r, w) && r == x as int
  {
    x as nat
  }

  /** `u16::as_usize`: widening, the value is unchanged. */
  function U16AsUsize(x: u16, w: PointerWidth): (r: nat)
    ensures IsUsize(r, w) && r == x as int
  {
    x as nat
  }

  /** `u32::as_usize` (32- and 64-bit targets): the cast keeps the value. */
  function U32AsUsize(x: u32, w: PointerWidth): (r: nat)
    requires w != W16
    ensures IsUsize(r, w) && r == x as int
  {
    x as nat
  }

  /** `u64::as_usize` (64-bit targets): the cast keeps the value. */
  function U64AsUsize(x: u64, w: PointerWidth): (r: nat)
    requires w == W64
    ensures IsUsize(r, w) && r == x as int
  {
    x as nat
  }

  /** Every conversion is injective in both directions: `x != y <==> as_usize(x) != as_usize(y)`. */
  lemma AsUsizeInjective(w: PointerWidth)
    ensures forall x: u8, y: u8 :: x != y <==> U8AsUsize(x, w) != U8AsUsize(y, w)
    ensures forall x: u16, y: u16 :: x != y <==> U16AsUsize(x, w) != U16AsUsize(y, w)
    ensures w != W16 ==> forall x: u32, y: u32 :: x != y <==> U32AsUsize(x, w) != U32AsUsize(y, w)
    ensures w == W64 ==> forall x: u64, y: u64 :: x != y <==> U64AsUsize(x, w) != U64AsUsize(y, w)
    ensures forall x: nat, y: nat :: IsUsize(x, w) && IsUsize(y, w) ==>
      (x != y <==> UsizeAsUsize(x, w) != UsizeAsUsize(y, w))
  {
  }
}
