/** The OpenGL enumerants the wrapper compares against, with the values the OpenGL
    headers give them, and the fixed-width integer ranges of the Rust types involved. */
module GL {

  /** `GLenum` is an unsigned 32-bit integer; the model keeps it unbounded. */
  type GLenum = nat

  // primitive modes
  const POINTS: GLenum := 0x0000
  const TRIANGLES: GLenum := 0x0004

  // component types
  const BYTE: GLenum := 0x1400
  const UNSIGNED_BYTE: GLenum := 0x1401
  const SHORT: GLenum := 0x1402
  const UNSIGNED_SHORT: GLenum := 0x1403
  const INT: GLenum := 0x1404
  const UNSIGNED_INT: GLenum := 0x1405
  const FLOAT: GLenum := 0x1406
  const DOUBLE: GLenum := 0x140A
  const BOOL: GLenum := 0x8B56

  // pixel formats
  const RGB: GLenum := 0x1907
  const RGBA: GLenum := 0x1908

  // buffer binding targets
  const ARRAY_BUFFER: GLenum := 0x8892
  const ELEMENT_ARRAY_BUFFER: GLenum := 0x8893

  // shader stages
  const FRAGMENT_SHADER: GLenum := 0x8B30
  const VERTEX_SHADER: GLenum := 0x8B31
  const GEOMETRY_SHADER: GLenum := 0x8DD9

  // capabilities, texture targets and units, clear bits
  const DEPTH_TEST: GLenum := 0x0B71
  const BLEND: GLenum := 0x0BE2
  const TEXTURE_2D: GLenum := 0x0DE1
  const TEXTURE0: GLenum := 0x84C0
  const COLOR_BUFFER_BIT: GLenum := 0x4000
  const DEPTH_BUFFER_BIT: GLenum := 0x0100

  /** `usize::max_value()` on a 64-bit target. */
  const USIZE_MAX: nat := 0xFFFF_FFFF_FFFF_FFFF

  const U32_LIMIT: nat := 0x1_0000_0000
  const I32_MIN: int := -0x8000_0000
  const I32_MAX: int := 0x7FFF_FFFF

  predicate IsU32(x: int) { 0 <= x < U32_LIMIT }
  predicate IsI32(x: int) { I32_MIN <= x <= I32_MAX }

  /** Rust's `x as i32` on an integer: keep the low 32 bits, read them as two's complement. */
  function AsI32(x: int): (r: int)
    ensures IsI32(r)
    ensures (r - x) % U32_LIMIT == 0
    ensures IsI32(x) ==> r == x
  {
    var low := x % U32_LIMIT;
    if low <= I32_MAX then low else low - U32_LIMIT
  }
}
