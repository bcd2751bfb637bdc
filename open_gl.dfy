/**
 * The static lookup tables of `circe::gl::OpenGL`: primitive counts,
 * primitive and data-type enum translation and data-type sizes.
 * GL enums are the `GLuint` values of the OpenGL headers.
 */
module OpenGL {
  import opened Wrappers

  // Primitive modes (GLenum values).
  const GL_POINTS: nat := 0x0000
  const GL_LINES: nat := 0x0001
  const GL_LINE_LOOP: nat := 0x0002
  const GL_LINE_STRIP: nat := 0x0003
  const GL_TRIANGLES: nat := 0x0004
  const GL_TRIANGLE_STRIP: nat := 0x0005
  const GL_TRIANGLE_FAN: nat := 0x0006
  const GL_QUADS: nat := 0x0007

  // Data types (GLenum values).
  const GL_BYTE: nat := 0x1400
  const GL_UNSIGNED_BYTE: nat := 0x1401
  const GL_SHORT: nat := 0x1402
  const GL_UNSIGNED_SHORT: nat := 0x1403
  const GL_INT: nat := 0x1404
  const GL_UNSIGNED_INT: nat := 0x1405
  const GL_FLOAT: nat := 0x1406
  const GL_DOUBLE: nat := 0x140A
  const GL_HALF_FLOAT: nat := 0x140B
  const GL_FIXED: nat := 0x140C

  /** `hermes::GeometricPrimitiveType`; `OtherKind` stands for any other enumerator value. */
  datatype PrimitiveKind =
    | POINTS | LINES | LINE_STRIP | LINE_LOOP | TRIANGLES | TRIANGLE_STRIP
    | TRIANGLE_FAN | QUADS | TETRAHEDRA | CUSTOM | OtherKind(code: int)

  /** `hermes::DataType`; `OtherType` stands for the enumerators no table lists (I64, U64, ...). */
  datatype DataType = I8 | U8 | I16 | U16 | F16 | I32 | U32 | F32 | F64 | OtherType(code: int)

  /** The C++ scalar types a template parameter `T` of `dataTypeEnum<T>` can be. */
  datatype ScalarType = Ti32 | Tu32 | Tf32 | Tf64 | Tu8 | Ti8 | Ti16 | Tu16 | TOther

  // ---------------------------------------------------------------------------
  // primitiveCount

  /**
   * `OpenGL::primitiveCount`: the number of primitives an index count forms.
   * The strip and fan cases subtract in `GLuint`, so they wrap below 2 (or 1).
   */
  function PrimitiveCount(primitiveType: nat, indexCount: nat): (r: nat)
    requires IsU32(indexCount)
    ensures IsU32(r)
  {
    if primitiveType == GL_POINTS then indexCount
    else if primitiveType == GL_TRIANGLES then indexCount / 3
    else if primitiveType == GL_TRIANGLE_STRIP || primitiveType == GL_TRIANGLE_FAN then SubU32(indexCount, 2)
    else if primitiveType == GL_LINES then indexCount / 2
    else if primitiveType == GL_LINE_STRIP then SubU32(indexCount, 1)
    else if primitiveType == GL_LINE_LOOP then indexCount
    else if primitiveType == GL_QUADS then indexCount / 4
    else indexCount
  }

  /**
   * The number of primitives a sequence of n vertices forms under the rules of
   * section 10.1 (Primitive Types) of the OpenGL 4.6 core specification:
   * separate primitives use whole groups of vertices, a line strip of n >= 1
   * vertices has n - 1 segments, a triangle strip or fan of n >= 2 vertices
   * has n - 2 triangles, and a line loop of n vertices has n segments.
   */
  function GLSpecPrimitives(primitiveType: nat, n: nat): nat
  {
    if primitiveType == GL_TRIANGLES then n / 3
    else if primitiveType == GL_LINES then n / 2
    else if primitiveType == GL_QUADS then n / 4
    else if primitiveType == GL_LINE_STRIP then (if n >= 1 then n - 1 else 0)
    else if primitiveType == GL_TRIANGLE_STRIP || primitiveType == GL_TRIANGLE_FAN then (if n >= 2 then n - 2 else 0)
    else n
  }

  /** Independent primitives: the count is the number of complete vertex groups. */
  lemma PrimitiveCountWholeGroups(primitiveType: nat, indexCount: nat)
    requires IsU32(indexCount)
    requires primitiveType in {GL_TRIANGLES, GL_LINES, GL_QUADS}
    ensures var k := if primitiveType == GL_TRIANGLES then 3 else if primitiveType == GL_LINES then 2 else 4;
      PrimitiveCount(primitiveType, indexCount) * k <= indexCount < (PrimitiveCount(primitiveType, indexCount) + 1) * k
  {
  }

  /**
   * Whenever the index count is large enough for one strip/fan primitive (or is any
   * count for the other modes), `primitiveCount` agrees with the GL definition.
   */
  lemma PrimitiveCountAgreesWithGL(primitiveType: nat, indexCount: nat)
    requires IsU32(indexCount)
    requires primitiveType == GL_LINE_STRIP ==> indexCount >= 1
    requires primitiveType == GL_TRIANGLE_STRIP || primitiveType == GL_TRIANGLE_FAN ==> indexCount >= 2
    ensures PrimitiveCount(primitiveType, indexCount) == GLSpecPrimitives(primitiveType, indexCount)
  {
  }

  /** Below that size the unsigned subtraction wraps to a count near 2^32. */
  lemma PrimitiveCountWrapsOnShortStrips(primitiveType: nat, indexCount: nat)
    requires IsU32(indexCount)
    requires (primitiveType == GL_LINE_STRIP && indexCount < 1)
          || ((primitiveType == GL_TRIANGLE_STRIP || primitiveType == GL_TRIANGLE_FAN) && indexCount < 2)
    ensures PrimitiveCount(primitiveType, indexCount) >= U32_MAX - 1
    ensures PrimitiveCount(primitiveType, indexCount) != GLSpecPrimitives(primitiveType, indexCount)
  {
  }

  /** Unknown modes are counted like GL_POINTS: one primitive per index. */
  lemma PrimitiveCountUnknownIsPoints(primitiveType: nat, indexCount: nat)
    requires IsU32(indexCount)
    requires primitiveType !in {GL_POINTS, GL_LINES, GL_LINE_LOOP, GL_LINE_STRIP, GL_TRIANGLES,
                                GL_TRIANGLE_STRIP, GL_TRIANGLE_FAN, GL_QUADS}
    ensures PrimitiveCount(primitiveType, indexCount) == PrimitiveCount(GL_POINTS, indexCount) == indexCount
  {
  }

  // ---------------------------------------------------------------------------
  // PrimitiveToStr / PrimitiveToGL

  predicate IsListedKind(p: PrimitiveKind) { !p.OtherKind? }

  /** `OpenGL::PrimitiveToStr`. */
  function PrimitiveToStr(p: PrimitiveKind): (r: string)
    ensures r == "ERR" <==> !IsListedKind(p)
  {
    match p
    case POINTS => "hermes::GeometricPrimitiveType::POINTS"
    case LINES => "hermes::GeometricPrimitiveType::LINES"
    case LINE_STRIP => "hermes::GeometricPrimitiveType::LINE_STRIP"
    case LINE_LOOP => "hermes::GeometricPrimitiveType::LINE_LOOP"
    case TRIANGLES => "hermes::GeometricPrimitiveType::TRIANGLES"
    case TRIANGLE_STRIP => "hermes::GeometricPrimitiveType::TRIANGLE_STRIP"
    case TRIANGLE_FAN => "hermes::GeometricPrimitiveType::TRIANGLE_FAN"
    case QUADS => "hermes::GeometricPrimitiveType::QUADS"
    case TETRAHEDRA => "hermes::GeometricPrimitiveType::TETRAHEDRA"
    case CUSTOM => "hermes::GeometricPrimitiveType::CUSTOM"
    case OtherKind(_) => "ERR"
  }

  /** Distinct listed kinds get distinct names. */
  lemma PrimitiveToStrInjective(p: PrimitiveKind, q: PrimitiveKind)
    requires IsListedKind(p) && IsListedKind(q) && p != q
    ensures PrimitiveToStr(p) != PrimitiveToStr(q)
  {
  }

  /** `OpenGL::PrimitiveToGL`: TETRAHEDRA, CUSTOM and any other kind fall back to GL_POINTS. */
  function PrimitiveToGL(p: PrimitiveKind): (r: nat)
    ensures r <= GL_QUADS
  {
    match p
    case POINTS => GL_POINTS
    case LINES => GL_LINES
    case LINE_STRIP => GL_LINE_STRIP
    case LINE_LOOP => GL_LINE_LOOP
    case TRIANGLES => GL_TRIANGLES
    case TRIANGLE_STRIP => GL_TRIANGLE_STRIP
    case TRIANGLE_FAN => GL_TRIANGLE_FAN
    case QUADS => GL_QUADS
    case _ => GL_POINTS
  }

  /** The eight drawable kinds, in the order `PrimitiveToGL` lists them. */
  predicate IsGLKind(p: PrimitiveKind)
  {
    p in {POINTS, LINES, LINE_STRIP, LINE_LOOP, TRIANGLES, TRIANGLE_STRIP, TRIANGLE_FAN, QUADS}
  }

  /** The inverse of `PrimitiveToGL` on the GL primitive modes. */
  function GLToPrimitive(mode: nat): PrimitiveKind
    requires mode <= GL_QUADS
  {
    if mode == GL_POINTS then POINTS
    else if mode == GL_LINES then LINES
    else if mode == GL_LINE_LOOP then LINE_LOOP
    else if mode == GL_LINE_STRIP then LINE_STRIP
    else if mode == GL_TRIANGLES then TRIANGLES
    else if mode == GL_TRIANGLE_STRIP then TRIANGLE_STRIP
    else if mode == GL_TRIANGLE_FAN then TRIANGLE_FAN
    else QUADS
  }

  /** Round trip: the eight kinds are translated one-to-one, every other kind draws points. */
  lemma PrimitiveToGLRoundTrip(p: PrimitiveKind)
    ensures IsGLKind(p) ==> GLToPrimitive(PrimitiveToGL(p)) == p
    ensures !IsGLKind(p) ==> PrimitiveToGL(p) == GL_POINTS
  {
  }

  // ---------------------------------------------------------------------------
  // Data types

  /** `OpenGL::dataSizeInBytes`. */
  function DataSizeInBytes(dataType: nat): (r: nat)
    ensures r in {0, 1, 2, 4, 8}
    ensures r == 0 <==> dataType !in {GL_BYTE, GL_UNSIGNED_BYTE, GL_SHORT, GL_UNSIGNED_SHORT, GL_HALF_FLOAT,
                                       GL_INT, GL_UNSIGNED_INT, GL_FIXED, GL_FLOAT, GL_DOUBLE}
  {
    if dataType == GL_BYTE || dataType == GL_UNSIGNED_BYTE then 1
    else if dataType == GL_SHORT || dataType == GL_UNSIGNED_SHORT || dataType == GL_HALF_FLOAT then 2
    else if dataType == GL_INT || dataType == GL_UNSIGNED_INT || dataType == GL_FIXED || dataType == GL_FLOAT then 4
    else if dataType == GL_DOUBLE then 8
    else 0
  }

  /** Byte width of a `hermes::DataType` (0 for the ones the tables do not list). */
  function DataTypeWidth(t: DataType): nat
  {
    match t
    case I8 => 1 case U8 => 1
    case I16 => 2 case U16 => 2 case F16 => 2
    case I32 => 4 case U32 => 4 case F32 => 4
    case F64 => 8
    case OtherType(_) => 0
  }

  /** Byte width of a C++ scalar type (`TOther` has none the tables know). */
  function ScalarWidth(t: ScalarType): nat
  {
    match t
    case Ti8 => 1 case Tu8 => 1
    case Ti16 => 2 case Tu16 => 2
    case Ti32 => 4 case Tu32 => 4 case Tf32 => 4
    case Tf64 => 8
    case TOther => 0
  }

  /**
   * `OpenGL::dataTypeEnum<T>()`. The f16 line is commented out in the source,
   * so every unlisted type (half floats included) becomes GL_FIXED.
   */
  function ScalarTypeEnum(t: ScalarType): (r: nat)
    ensures DataSizeInBytes(r) != 0
  {
    match t
    case Ti32 => GL_INT
    case Tu32 => GL_UNSIGNED_INT
    case Tf32 => GL_FLOAT
    case Tf64 => GL_DOUBLE
    case Tu8 => GL_UNSIGNED_BYTE
    case Ti8 => GL_BYTE
    case Ti16 => GL_SHORT
    case Tu16 => GL_UNSIGNED_SHORT
    case TOther => GL_FIXED
  }

  /**
   * `OpenGL::dataTypeEnum(hermes::DataType)`. The first matching line wins, so
   * I32 gives GL_INT and the later I32 -> GL_FIXED line never fires.
   */
  function DataTypeEnum(t: DataType): (r: nat)
    ensures DataSizeInBytes(r) != 0
  {
    if t == I8 then GL_BYTE
    else if t == U8 then GL_UNSIGNED_BYTE
    else if t == I16 then GL_SHORT
    else if t == U16 then GL_UNSIGNED_SHORT
    else if t == F16 then GL_HALF_FLOAT
    else if t == I32 then GL_INT
    else if t == U32 then GL_UNSIGNED_INT
    else if t == I32 then GL_FIXED
    else if t == F32 then GL_FLOAT
    else if t == F64 then GL_DOUBLE
    else GL_FIXED
  }

  /** Both translations keep the width of every type they list, so sizes computed from GL enums are right. */
  lemma DataTypeEnumKeepsWidth(t: DataType, s: ScalarType)
    ensures !t.OtherType? ==> DataSizeInBytes(DataTypeEnum(t)) == DataTypeWidth(t)
    ensures s != TOther ==> DataSizeInBytes(ScalarTypeEnum(s)) == ScalarWidth(s)
    ensures t.OtherType? ==> DataTypeEnum(t) == GL_FIXED
    ensures DataTypeEnum(I32) == GL_INT
  {
  }

  /** The two overloads agree on the types both of them list. */
  lemma DataTypeEnumOverloadsAgree()
    ensures ScalarTypeEnum(Ti8) == DataTypeEnum(I8) && ScalarTypeEnum(Tu8) == DataTypeEnum(U8)
    ensures ScalarTypeEnum(Ti16) == DataTypeEnum(I16) && ScalarTypeEnum(Tu16) == DataTypeEnum(U16)
    ensures ScalarTypeEnum(Ti32) == DataTypeEnum(I32) && ScalarTypeEnum(Tu32) == DataTypeEnum(U32)
    ensures ScalarTypeEnum(Tf32) == DataTypeEnum(F32) && ScalarTypeEnum(Tf64) == DataTypeEnum(F64)
  {
  }
}
