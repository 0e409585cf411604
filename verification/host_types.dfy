/** The Rust host types of `glsl_types.rs` and the three trait tables over them:
    `BufferType` (vertex attribute layout), `ElementType` (index component type) and
    `UniformType` (conversion into a `GLSLAny`). */
module HostTypes {
  import opened GL
  import opened Results
  import Glsl

  /** The Rust scalar types the traits are implemented for. */
  datatype HostScalar = F32 | I32 | U32 | Boolean

  /** A Rust type implementing `BufferType` and `UniformType`: a scalar (`arity` 1) or a
      tuple of 2 to 4 equal scalars, or one of the `MatCxR` structs (`[f32; C * R]`). */
  datatype HostType =
    | Tuple(elem: HostScalar, arity: nat)
    | HostMat(cols: nat, rows: nat)

  /** Exactly the 25 types the traits are implemented for. */
  predicate Implemented(h: HostType) {
    match h
    case Tuple(_, n) => 1 <= n <= 4
    case HostMat(c, r) => 2 <= c <= 4 && 2 <= r <= 4
  }

  type ImplType = h: HostType | Implemented(h) witness Tuple(F32, 1)

  /** The Rust types implementing `ElementType`. */
  datatype ElementHost = U8 | U16 | U32Elem

  function HostScalarEnum(s: HostScalar): GLenum {
    match s
    case F32 => FLOAT
    case I32 => INT
    case U32 => UNSIGNED_INT
    case Boolean => BOOL
  }

  /** The GLSL scalar a Rust scalar stands for. */
  function GlslScalar(s: HostScalar): Glsl.Scalar {
    match s
    case F32 => Glsl.FloatS
    case I32 => Glsl.IntS
    case U32 => Glsl.UintS
    case Boolean => Glsl.BoolS
  }

  /** The `glsl_type.rs` struct with the same layout as a host type: `f32` and `Float`,
      `(f32, f32)` and `Vec2`, ..., `Mat3x4` and `Mat3x4`. */
  function GlslTwin(h: ImplType): (t: Glsl.GlslType)
    ensures Glsl.HasVariant(t)
    ensures h.Tuple? ==> Glsl.ShapeOf(t) == Glsl.Vector(GlslScalar(h.elem), h.arity)
    ensures h.HostMat? ==> Glsl.ShapeOf(t) == Glsl.Matrix(Glsl.FloatS, h.cols, h.rows)
  {
    match h
    case Tuple(F32, n) => [Glsl.Float, Glsl.Vec2, Glsl.Vec3, Glsl.Vec4][n - 1]
    case Tuple(I32, n) => [Glsl.Int, Glsl.Ivec2, Glsl.Ivec3, Glsl.Ivec4][n - 1]
    case Tuple(U32, n) => [Glsl.Uint, Glsl.Uvec2, Glsl.Uvec3, Glsl.Uvec4][n - 1]
    case Tuple(Boolean, n) => [Glsl.Bool, Glsl.Bvec2, Glsl.Bvec3, Glsl.Bvec4][n - 1]
    case HostMat(2, r) => [Glsl.Mat2, Glsl.Mat2x3, Glsl.Mat2x4][r - 2]
    case HostMat(3, r) => [Glsl.Mat3x2, Glsl.Mat3, Glsl.Mat3x4][r - 2]
    case HostMat(4, r) => [Glsl.Mat4x2, Glsl.Mat4x3, Glsl.Mat4][r - 2]
  }

  /** `<T as BufferType>::get_type()`: component count and GL component type. */
  function BufferGetType(h: ImplType): (r: (int, GLenum))
    ensures r == Glsl.GetType(GlslTwin(h))
    ensures h.HostMat? ==> r.0 in {4, 6, 8, 9, 12, 16} && r.1 == FLOAT
    ensures h.Tuple? ==> 1 <= r.0 <= 4 && r.1 == HostScalarEnum(h.elem)
  {
    match h
    case Tuple(e, n) => (n, HostScalarEnum(e))
    case HostMat(c, r) => (c * r, FLOAT)
  }

  /** `<T as ElementType>::get_type()`. */
  function ElementGetType(e: ElementHost): (r: GLenum)
    ensures r in {UNSIGNED_BYTE, UNSIGNED_SHORT, UNSIGNED_INT}
    ensures r == UNSIGNED_INT <==> e == U32Elem
    ensures r == UNSIGNED_BYTE <==> e == U8
  {
    match e
    case U8 => UNSIGNED_BYTE
    case U16 => UNSIGNED_SHORT
    case U32Elem => UNSIGNED_INT
  }

  /** `value.into_glsl_any()` through `UniformType`: never `None`, always the variant of
      matching arity and base type, carrying the value unchanged. */
  function UniformIntoAny(h: ImplType, payload: Glsl.Payload): (r: Option<Glsl.UniformValue>)
    ensures r.Some?
    ensures r == Glsl.IntoGlslAny(GlslTwin(h), payload)
    ensures h.Tuple? ==>
      Glsl.ShapeOf(r.value.kind) == Glsl.Vector(GlslScalar(h.elem), h.arity)
    ensures h.HostMat? ==>
      Glsl.ShapeOf(r.value.kind) == Glsl.Matrix(Glsl.FloatS, h.cols, h.rows)
    ensures r.value.payload == payload
  {
    Some(Glsl.UniformValue(GlslTwin(h), payload))
  }
}
