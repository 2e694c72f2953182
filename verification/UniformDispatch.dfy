/** ShaderProgram's private SetUniform(Location, ...) templates (ShaderManager.h): a
    compile-time dispatch from the C++ value type to one glUniform* entry point. The 21
    supported types form a closed family, named as in glm.hpp; the entry points are
    modelled as the command each one sends to OpenGL. */
module UniformDispatch {

  /** The glm types SetUniform accepts (glm.hpp's aliases). */
  datatype UniformType =
    | I32 | IVec2 | IVec3 | IVec4
    | U32 | UVec2 | UVec3 | UVec4
    | F32 | Vec2 | Vec3 | Vec4
    | Mat2x2 | Mat3x3 | Mat4x4 | Mat2x3 | Mat3x2 | Mat2x4 | Mat4x2 | Mat3x4 | Mat4x3

  /** The component type of a uniform, which picks the i / ui / f entry point. */
  datatype ElementKind = Int | UInt | Float

  /** One component value. */
  datatype Scalar = IntValue(i: int) | UIntValue(u: nat) | FloatValue(f: real)

  function KindOf(s: Scalar): ElementKind
  {
    match s
    case IntValue(_) => Int
    case UIntValue(_) => UInt
    case FloatValue(_) => Float
  }

  /** A glm matCxR has C columns of R rows. */
  datatype Shape = Shape(columns: nat, rows: nat)

  // ----- The family's reference tables, read off the type names -----

  function ElementKindOf(t: UniformType): ElementKind
  {
    match t
    case I32 | IVec2 | IVec3 | IVec4 => Int
    case U32 | UVec2 | UVec3 | UVec4 => UInt
    case _ => Float
  }

  predicate IsMatrix(t: UniformType)
  {
    !(t.I32? || t.IVec2? || t.IVec3? || t.IVec4? || t.U32? || t.UVec2? || t.UVec3? ||
      t.UVec4? || t.F32? || t.Vec2? || t.Vec3? || t.Vec4?)
  }

  /** Vectors (and scalars) as one column; matrices by their columns and rows. */
  function ShapeOf(t: UniformType): Shape
  {
    match t
    case I32 | U32 | F32 => Shape(1, 1)
    case IVec2 | UVec2 | Vec2 => Shape(1, 2)
    case IVec3 | UVec3 | Vec3 => Shape(1, 3)
    case IVec4 | UVec4 | Vec4 => Shape(1, 4)
    case Mat2x2 => Shape(2, 2)
    case Mat3x3 => Shape(3, 3)
    case Mat4x4 => Shape(4, 4)
    case Mat2x3 => Shape(2, 3)
    case Mat3x2 => Shape(3, 2)
    case Mat2x4 => Shape(2, 4)
    case Mat4x2 => Shape(4, 2)
    case Mat3x4 => Shape(3, 4)
    case Mat4x3 => Shape(4, 3)
  }

  function ComponentCount(t: UniformType): nat
  {
    ShapeOf(t).columns * ShapeOf(t).rows
  }

  /** A C++ value of type `ty`: its components in glm's memory order (column-major for
      matrices), each of the type's component kind. */
  datatype UniformValue = UniformValue(ty: UniformType, components: seq<Scalar>)

  predicate WellTyped(v: UniformValue)
  {
    |v.components| == ComponentCount(v.ty) &&
    forall i :: 0 <= i < |v.components| ==> KindOf(v.components[i]) == ElementKindOf(v.ty)
  }

  // ----- The commands the entry points send -----

  /** Where an entry point's data comes from: passed by value, or the caller's array. */
  datatype Data = Inline(values: seq<Scalar>) | CallerArray(address: int)

  /** glUniform{1..4}{i,ui,f} (by value), glUniform{1..4}{i,ui,f}v (array) and
      glUniformMatrix{C}x{R}fv. */
  datatype GlCall =
    | SetVector(location: int, kind: ElementKind, arity: nat, count: int, data: Data)
    | SetMatrix(location: int, columns: nat, rows: nat, count: int, transpose: bool, data: Data)

  function LocationOf(c: GlCall): int
  {
    c.location
  }

  /** Reads back the C++ type a command was sent for: the entry point determines it. */
  function TypeOfCall(c: GlCall): UniformType
  {
    match c
    case SetVector(_, kind, arity, _, _) =>
      (match kind
       case Int => if arity <= 1 then I32 else if arity == 2 then IVec2 else if arity == 3 then IVec3 else IVec4
       case UInt => if arity <= 1 then U32 else if arity == 2 then UVec2 else if arity == 3 then UVec3 else UVec4
       case Float => if arity <= 1 then F32 else if arity == 2 then Vec2 else if arity == 3 then Vec3 else Vec4)
    case SetMatrix(_, columns, rows, _, _, _) =>
      if columns == 2 && rows == 2 then Mat2x2
      else if columns == 3 && rows == 3 then Mat3x3
      else if columns == 4 && rows == 4 then Mat4x4
      else if columns == 2 && rows == 3 then Mat2x3
      else if columns == 3 && rows == 2 then Mat3x2
      else if columns == 2 && rows == 4 then Mat2x4
      else if columns == 4 && rows == 2 then Mat4x2
      else if columns == 3 && rows == 4 then Mat3x4
      else Mat4x3
  }

  /** The single-value template: each type goes to its own entry point. Scalars and
      vectors pass their components by value; matrices pass one matrix through
      glm::value_ptr, never transposed. */
  function Dispatch(location: int, v: UniformValue): (c: GlCall)
    requires WellTyped(v)
    ensures LocationOf(c) == location
    ensures c.SetMatrix? <==> IsMatrix(v.ty)
    ensures c.SetVector? ==>
              c.kind == ElementKindOf(v.ty) && c.arity == ShapeOf(v.ty).rows &&
              c.data == Inline(v.components)
    ensures c.SetMatrix? ==>
              Shape(c.columns, c.rows) == ShapeOf(v.ty) && c.count == 1 && !c.transpose &&
              c.data == Inline(v.components)
    ensures TypeOfCall(c) == v.ty
  {
    var xs := v.components;
    match v.ty
    case I32 => SetVector(location, Int, 1, 1, Inline(xs))      // glUniform1i
    case IVec2 => SetVector(location, Int, 2, 1, Inline(xs))    // glUniform2i
    case IVec3 => SetVector(location, Int, 3, 1, Inline(xs))    // glUniform3i
    case IVec4 => SetVector(location, Int, 4, 1, Inline(xs))    // glUniform4i
    case U32 => SetVector(location, UInt, 1, 1, Inline(xs))     // glUniform1ui
    case UVec2 => SetVector(location, UInt, 2, 1, Inline(xs))   // glUniform2ui
    case UVec3 => SetVector(location, UInt, 3, 1, Inline(xs))   // glUniform3ui
    case UVec4 => SetVector(location, UInt, 4, 1, Inline(xs))   // glUniform4ui
    case F32 => SetVector(location, Float, 1, 1, Inline(xs))    // glUniform1f
    case Vec2 => SetVector(location, Float, 2, 1, Inline(xs))   // glUniform2f
    case Vec3 => SetVector(location, Float, 3, 1, Inline(xs))   // glUniform3f
    case Vec4 => SetVector(location, Float, 4, 1, Inline(xs))   // glUniform4f
    case Mat2x2 => SetMatrix(location, 2, 2, 1, false, Inline(xs))  // glUniformMatrix2fv
    case Mat3x3 => SetMatrix(location, 3, 3, 1, false, Inline(xs))  // glUniformMatrix3fv
    case Mat4x4 => SetMatrix(location, 4, 4, 1, false, Inline(xs))  // glUniformMatrix4fv
    case Mat2x3 => SetMatrix(location, 2, 3, 1, false, Inline(xs))  // glUniformMatrix2x3fv
    case Mat3x2 => SetMatrix(location, 3, 2, 1, false, Inline(xs))  // glUniformMatrix3x2fv
    case Mat2x4 => SetMatrix(location, 2, 4, 1, false, Inline(xs))  // glUniformMatrix2x4fv
    case Mat4x2 => SetMatrix(location, 4, 2, 1, false, Inline(xs))  // glUniformMatrix4x2fv
    case Mat3x4 => SetMatrix(location, 3, 4, 1, false, Inline(xs))  // glUniformMatrix3x4fv
    case Mat4x3 => SetMatrix(location, 4, 3, 1, false, Inline(xs))  // glUniformMatrix4x3fv
  }

  /** The array template: the same family of entry points in their `v` form, handed the
      caller's count and pointer unchanged; matrices again never transposed. */
  function DispatchArray(location: int, ty: UniformType, count: int, address: int): (c: GlCall)
    ensures LocationOf(c) == location && c.count == count && c.data == CallerArray(address)
    ensures c.SetMatrix? <==> IsMatrix(ty)
    ensures c.SetVector? ==> c.kind == ElementKindOf(ty) && c.arity == ShapeOf(ty).rows
    ensures c.SetMatrix? ==> Shape(c.columns, c.rows) == ShapeOf(ty) && !c.transpose
    ensures TypeOfCall(c) == ty
  {
    var p := CallerArray(address);
    match ty
    case I32 => SetVector(location, Int, 1, count, p)      // glUniform1iv
    case IVec2 => SetVector(location, Int, 2, count, p)    // glUniform2iv
    case IVec3 => SetVector(location, Int, 3, count, p)    // glUniform3iv
    case IVec4 => SetVector(location, Int, 4, count, p)    // glUniform4iv
    case U32 => SetVector(location, UInt, 1, count, p)     // glUniform1uiv
    case UVec2 => SetVector(location, UInt, 2, count, p)   // glUniform2uiv
    case UVec3 => SetVector(location, UInt, 3, count, p)   // glUniform3uiv
    case UVec4 => SetVector(location, UInt, 4, count, p)   // glUniform4uiv
    case F32 => SetVector(location, Float, 1, count, p)    // glUniform1fv
    case Vec2 => SetVector(location, Float, 2, count, p)   // glUniform2fv
    case Vec3 => SetVector(location, Float, 3, count, p)   // glUniform3fv
    case Vec4 => SetVector(location, Float, 4, count, p)   // glUniform4fv
    case Mat2x2 => SetMatrix(location, 2, 2, count, false, p)  // glUniformMatrix2fv
    case Mat3x3 => SetMatrix(location, 3, 3, count, false, p)  // glUniformMatrix3fv
    case Mat4x4 => SetMatrix(location, 4, 4, count, false, p)  // glUniformMatrix4fv
    case Mat2x3 => SetMatrix(location, 2, 3, count, false, p)  // glUniformMatrix2x3fv
    case Mat3x2 => SetMatrix(location, 3, 2, count, false, p)  // glUniformMatrix3x2fv
    case Mat2x4 => SetMatrix(location, 2, 4, count, false, p)  // glUniformMatrix2x4fv
    case Mat4x2 => SetMatrix(location, 4, 2, count, false, p)  // glUniformMatrix4x2fv
    case Mat3x4 => SetMatrix(location, 3, 4, count, false, p)  // glUniformMatrix3x4fv
    case Mat4x3 => SetMatrix(location, 4, 3, count, false, p)  // glUniformMatrix4x3fv
  }

  /** Distinct types go to distinct entry points: the dispatch loses no type information,
      for single values and arrays alike. */
  lemma DispatchInjective(loc: int, v: UniformValue, w: UniformValue)
    requires WellTyped(v) && WellTyped(w) && v.ty != w.ty
    ensures Dispatch(loc, v) != Dispatch(loc, w)
    ensures DispatchArray(loc, v.ty, 1, 0) != DispatchArray(loc, w.ty, 1, 0)
  {
  }

  /** The family is 4 int, 4 uint, 4 float and 9 matrix types; the matrices are exactly
      the float types with more than one column. */
  lemma FamilyCensus(t: UniformType)
    ensures IsMatrix(t) <==> ElementKindOf(t) == Float && ShapeOf(t).columns > 1
    ensures !IsMatrix(t) ==> 1 <= ShapeOf(t).rows <= 4 && ShapeOf(t).columns == 1
    ensures IsMatrix(t) ==> 2 <= ShapeOf(t).columns <= 4 && 2 <= ShapeOf(t).rows <= 4
  {
  }
}
