/** Wrapping 32-bit arithmetic of C#'s `unchecked` context, as used by
    `Reference.GetHashCode`.

    A C# `int` is represented by its two's-complement bit pattern, a `bv32`.
    Multiplication and exclusive-or act on bit patterns the same way whether
    the value is read as signed or unsigned, and `bv32` arithmetic wraps
    modulo 2^32 exactly as an `unchecked` C# multiplication does, so the hash
    computed here has exactly the bits of the C# result. */
module Hashing {

  /** The bit pattern of a C# `int`. */
  type Int32Bits = bv32

  /** The mixing constant of `GetHashCode`. */
  const Multiplier: Int32Bits := 397

  /** One mixing step `(acc * 397) ^ h`, wrapping modulo 2^32. */
  function Mix(acc: Int32Bits, h: Int32Bits): Int32Bits
  {
    (acc * Multiplier) ^ h
  }
}
