/** The GLSL value types of `glsl_type.rs`: one constructor per Rust struct that implements
    the `GLSLType` trait, the trait's two tables (`get_type` and `into_glsl_any`), and the
    `GLSLAny` sum type those tables produce. */
module Glsl {
  import opened GL
  import opened Results

  /** The structs implementing `GLSLType`, in the order they are declared. */
  datatype GlslType =
    | Bool | Bvec2 | Bvec3 | Bvec4
    | Int | Ivec2 | Ivec3 | Ivec4
    | Uint | Uvec2 | Uvec3 | Uvec4
    | Float | Vec2 | Vec3 | Vec4
    | Double | Dvec2 | Dvec3 | Dvec4
    | Mat2 | Mat2x3 | Mat2x4 | Mat3x2 | Mat3 | Mat3x4 | Mat4x2 | Mat4x3 | Mat4
    | Dmat2 | Dmat2x3 | Dmat2x4 | Dmat3x2 | Dmat3 | Dmat3x4 | Dmat4x2 | Dmat4x3 | Dmat4
    | ByteTri | ShortTri

  /** The GLSL scalar a type is built from. */
  datatype Scalar = BoolS | IntS | UintS | FloatS | DoubleS

  /** What a type's name says it is: an n-component vector (n = 1 for a scalar), a
      matrix with `cols` columns and `rows` rows (GLSL's matCxR), or an index triangle
      of three unsigned components of the given GL type. */
  datatype Shape =
    | Vector(scalar: Scalar, n: nat)
    | Matrix(scalar: Scalar, cols: nat, rows: nat)
    | Triangle(component: GLenum)

  /** The GL enumerant naming a scalar. */
  function ScalarEnum(s: Scalar): GLenum {
    match s
    case BoolS => BOOL
    case IntS => INT
    case UintS => UNSIGNED_INT
    case FloatS => FLOAT
    case DoubleS => DOUBLE
  }

  /** The reading of each type name, independent of the `get_type` table. */
  function ShapeOf(t: GlslType): Shape {
    match t
    case Bool => Vector(BoolS, 1)
    case Bvec2 => Vector(BoolS, 2)
    case Bvec3 => Vector(BoolS, 3)
    case Bvec4 => Vector(BoolS, 4)
    case Int => Vector(IntS, 1)
    case Ivec2 => Vector(IntS, 2)
    case Ivec3 => Vector(IntS, 3)
    case Ivec4 => Vector(IntS, 4)
    case Uint => Vector(UintS, 1)
    case Uvec2 => Vector(UintS, 2)
    case Uvec3 => Vector(UintS, 3)
    case Uvec4 => Vector(UintS, 4)
    case Float => Vector(FloatS, 1)
    case Vec2 => Vector(FloatS, 2)
    case Vec3 => Vector(FloatS, 3)
    case Vec4 => Vector(FloatS, 4)
    case Double => Vector(DoubleS, 1)
    case Dvec2 => Vector(DoubleS, 2)
    case Dvec3 => Vector(DoubleS, 3)
    case Dvec4 => Vector(DoubleS, 4)
    case Mat2 => Matrix(FloatS, 2, 2)
    case Mat2x3 => Matrix(FloatS, 2, 3)
    case Mat2x4 => Matrix(FloatS, 2, 4)
    case Mat3x2 => Matrix(FloatS, 3, 2)
    case Mat3 => Matrix(FloatS, 3, 3)
    case Mat3x4 => Matrix(FloatS, 3, 4)
    case Mat4x2 => Matrix(FloatS, 4, 2)
    case Mat4x3 => Matrix(FloatS, 4, 3)
    case Mat4 => Matrix(FloatS, 4, 4)
    case Dmat2 => Matrix(DoubleS, 2, 2)
    case Dmat2x3 => Matrix(DoubleS, 2, 3)
    case Dmat2x4 => Matrix(DoubleS, 2, 4)
    case Dmat3x2 => Matrix(DoubleS, 3, 2)
    case Dmat3 => Matrix(DoubleS, 3, 3)
    case Dmat3x4 => Matrix(DoubleS, 3, 4)
    case Dmat4x2 => Matrix(DoubleS, 4, 2)
    case Dmat4x3 => Matrix(DoubleS, 4, 3)
    case Dmat4 => Matrix(DoubleS, 4, 4)
    case ByteTri => Triangle(UNSIGNED_BYTE)
    case ShortTri => Triangle(UNSIGNED_SHORT)
  }

  /** Built from doubles (a `Double`, `Dvec` or `Dmat` type). */
  predicate IsDoubleBased(t: GlslType) {
    !ShapeOf(t).Triangle? && ShapeOf(t).scalar == DoubleS
  }

  /** One of the two element-only index-triangle types. */
  predicate IsTriangle(t: GlslType) {
    ShapeOf(t).Triangle?
  }

  /** The types for which `GLSLAny` has a variant of the same name. */
  predicate HasVariant(t: GlslType) {
    !IsDoubleBased(t) && !IsTriangle(t)
  }

  /** A variant of `GLSLAny` other than `None`, named by the type it carries. */
  type UniformKind = t: GlslType | HasVariant(t) witness Float

  /** The value a uniform variant carries; the model treats its components as opaque. */
  type Payload = seq<int>

  /** A non-`None` `GLSLAny`: the variant and the value it wraps. `GLSLAny::None` is
      modelled as `Option.None`, so `GLSLAny` itself is `Option<UniformValue>`. */
  datatype UniformValue = UniformValue(kind: UniformKind, payload: Payload)

  /** `T::get_type()`: the component count and GL component type of each type. */
  function GetType(t: GlslType): (r: (int, GLenum))
    ensures ShapeOf(t).Vector? ==> r == (ShapeOf(t).n, ScalarEnum(ShapeOf(t).scalar))
    ensures ShapeOf(t).Matrix? ==>
      r == (ShapeOf(t).cols * ShapeOf(t).rows, ScalarEnum(ShapeOf(t).scalar))
    ensures ShapeOf(t).Triangle? ==> r == (-1, ShapeOf(t).component)
    ensures r.0 <= 0 <==> IsTriangle(t)
    ensures r.1 == UNSIGNED_BYTE <==> t == ByteTri
    ensures r.1 == UNSIGNED_SHORT <==> t == ShortTri
  {
    match t
    case Bool => (1, BOOL)
    case Int => (1, INT)
    case Uint => (1, UNSIGNED_INT)
    case Float => (1, FLOAT)
    case Double => (1, DOUBLE)
    case Bvec2 => (2, BOOL)
    case Bvec3 => (3, BOOL)
    case Bvec4 => (4, BOOL)
    case Ivec2 => (2, INT)
    case Ivec3 => (3, INT)
    case Ivec4 => (4, INT)
    case Uvec2 => (2, UNSIGNED_INT)
    case Uvec3 => (3, UNSIGNED_INT)
    case Uvec4 => (4, UNSIGNED_INT)
    case Vec2 => (2, FLOAT)
    case Vec3 => (3, FLOAT)
    case Vec4 => (4, FLOAT)
    case Dvec2 => (2, DOUBLE)
    case Dvec3 => (3, DOUBLE)
    case Dvec4 => (4, DOUBLE)
    case Mat2 => (4, FLOAT)
    case Mat2x3 => (6, FLOAT)
    case Mat2x4 => (8, FLOAT)
    case Mat3x2 => (6, FLOAT)
    case Mat3 => (9, FLOAT)
    case Mat3x4 => (12, FLOAT)
    case Mat4x2 => (8, FLOAT)
    case Mat4x3 => (12, FLOAT)
    case Mat4 => (16, FLOAT)
    case Dmat2 => (4, DOUBLE)
    case Dmat2x3 => (6, DOUBLE)
    case Dmat2x4 => (8, DOUBLE)
    case Dmat3x2 => (6, DOUBLE)
    case Dmat3 => (9, DOUBLE)
    case Dmat3x4 => (12, DOUBLE)
    case Dmat4x2 => (8, DOUBLE)
    case Dmat4x3 => (12, DOUBLE)
    case Dmat4 => (16, DOUBLE)
    case ByteTri => (-1, UNSIGNED_BYTE)
    case ShortTri => (-1, UNSIGNED_SHORT)
  }

  /** `value.into_glsl_any()` for a value of type `t` whose components are `payload`. */
  function IntoGlslAny(t: GlslType, payload: Payload): (r: Option<UniformValue>)
    ensures r.None? <==> IsDoubleBased(t) || IsTriangle(t)
    ensures r.Some? ==> r.value.kind == t && r.value.payload == payload
  {
    match t
    case Bool => Some(UniformValue(Bool, payload))
    case Int => Some(UniformValue(Int, payload))
    case Uint => Some(UniformValue(Uint, payload))
    case Float => Some(UniformValue(Float, payload))
    case Double => None
    case Bvec2 => Some(UniformValue(Bvec2, payload))
    case Bvec3 => Some(UniformValue(Bvec3, payload))
    case Bvec4 => Some(UniformValue(Bvec4, payload))
    case Ivec2 => Some(UniformValue(Ivec2, payload))
    case Ivec3 => Some(UniformValue(Ivec3, payload))
    case Ivec4 => Some(UniformValue(Ivec4, payload))
    case Uvec2 => Some(UniformValue(Uvec2, payload))
    case Uvec3 => Some(UniformValue(Uvec3, payload))
    case Uvec4 => Some(UniformValue(Uvec4, payload))
    case Vec2 => Some(UniformValue(Vec2, payload))
    case Vec3 => Some(UniformValue(Vec3, payload))
    case Vec4 => Some(UniformValue(Vec4, payload))
    case Dvec2 => None
    case Dvec3 => None
    case Dvec4 => None
    case Mat2 => Some(UniformValue(Mat2, payload))
    case Mat2x3 => Some(UniformValue(Mat2x3, payload))
    case Mat2x4 => Some(UniformValue(Mat2x4, payload))
    case Mat3x2 => Some(UniformValue(Mat3x2, payload))
    case Mat3 => Some(UniformValue(Mat3, payload))
    case Mat3x4 => Some(UniformValue(Mat3x4, payload))
    case Mat4x2 => Some(UniformValue(Mat4x2, payload))
    case Mat4x3 => Some(UniformValue(Mat4x3, payload))
    case Mat4 => Some(UniformValue(Mat4, payload))
    case Dmat2 => None
    case Dmat2x3 => None
    case Dmat2x4 => None
    case Dmat3x2 => None
    case Dmat3 => None
    case Dmat3x4 => None
    case Dmat4x2 => None
    case Dmat4x3 => None
    case Dmat4 => None
    case ByteTri => None
    case ShortTri => None
  }
}
