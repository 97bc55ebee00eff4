/** The fixed-width scalars of the binding's records. Floating-point values are
    carried as their IEEE 754 bit patterns: the binding only passes them on. */
module Primitives {
  newtype U8 = x: int | 0 <= x < 0x100
  newtype U32 = x: int | 0 <= x < 0x1_0000_0000
  newtype U64 = x: int | 0 <= x < 0x1_0000_0000_0000_0000
  newtype I64 = x: int | -0x8000_0000_0000_0000 <= x < 0x8000_0000_0000_0000

  type F32 = bv32
  type F64 = bv64

  /** The bit pattern of `0.0_f32`. */
  const F32_ZERO: F32 := 0
}
