/** The runtime values that the builtins of src/builtins.rs receive.

    src/types.rs and src/runtime.rs, which define `Val`, `ValType`, `Frame`
    and `get_type`, are not part of this model. This module stands in for
    them with just enough structure for the builtins: every value carries a
    tag, and `TypeOf` reads it, each variant mapping to its namesake type (a
    number or coordinate to the type with its unit exponent). Floating-point
    numbers and frames are opaque. */
module Values {

  /** An IEEE 754 double, kept as its bit pattern; no arithmetic is modelled. */
  datatype F64 = F64(bits: bv64)

  /** A handle to an immutable frame built elsewhere. */
  datatype FrameRef = FrameRef(id: nat)

  /** The type tag of a value: numbers and coordinates carry the exponent of
      their length unit (0 for a plain number, 1 for a length). */
  datatype ValType = NumType(dim: int) | ColorType | CoordType(dim: int) | StrType | FrameType | FnType

  datatype Val =
    | Num(value: F64, dim: int)
    | Color(r: F64, g: F64, b: F64)
    | Coord(x: F64, y: F64, dim: int)
    | Str(s: string)
    | Frame(frame: FrameRef)
    | Fn(name: string)

  /** `get_type`. */
  function TypeOf(v: Val): (t: ValType)
    ensures t.NumType? <==> v.Num?
    ensures t.CoordType? <==> v.Coord?
    ensures t == StrType <==> v.Str?
    ensures t == FrameType <==> v.Frame?
    ensures t == ColorType <==> v.Color?
    ensures t == FnType <==> v.Fn?
    ensures v.Num? ==> t.dim == v.dim
    ensures v.Coord? ==> t.dim == v.dim
  {
    match v
    case Num(_, d) => NumType(d)
    case Color(_, _, _) => ColorType
    case Coord(_, _, d) => CoordType(d)
    case Str(_) => StrType
    case Frame(_) => FrameType
    case Fn(_) => FnType
  }
}
