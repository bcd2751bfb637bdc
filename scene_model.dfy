/**
 * `circe::Model` (circe/scene/model.cpp): a vertex array (an AoS of records),
 * an optional index list and a primitive type.
 */
module SceneModel {
  import opened Wrappers
  import OpenGL

  /** One record of the `hermes::AoS` vertex array; its fields are opaque here. */
  datatype VertexRecord = VertexRecord(values: seq<real>)

  /** A default-constructed record, as `std::vector::resize` value-initialises. */
  const EMPTY_RECORD: VertexRecord := VertexRecord([])

  /** The number of indices drawn: the index list, or every vertex when there is none. */
  function IndexCount(indices: seq<int>, vertexCount: nat): (r: nat)
    ensures r == 0 <==> |indices| == 0 && vertexCount == 0
    ensures |indices| > 0 ==> r == |indices|
  {
    if |indices| == 0 then vertexCount else |indices|
  }

  /**
   * `Model::elementCount` on its inputs. The strip and fan cases subtract in
   * `size_t`, so they wrap modulo 2^64 below 2 (or 1) indices.
   */
  function ElementCountOf(kind: OpenGL.PrimitiveKind, n: nat): (r: nat)
    ensures kind == OpenGL.TRIANGLES ==> r * 3 <= n < r * 3 + 3
    ensures kind == OpenGL.LINES ==> r * 2 <= n < r * 2 + 2
    ensures kind in {OpenGL.QUADS, OpenGL.TETRAHEDRA} ==> r * 4 <= n < r * 4 + 4
    ensures kind in {OpenGL.POINTS, OpenGL.LINE_LOOP, OpenGL.CUSTOM} || kind.OtherKind? ==> r == n
    ensures kind == OpenGL.LINE_STRIP && n < U64_MODULUS ==> (if n >= 1 then r + 1 == n else r == U64_MODULUS - 1)
    ensures kind in {OpenGL.TRIANGLE_STRIP, OpenGL.TRIANGLE_FAN} && n < U64_MODULUS ==>
      (if n >= 2 then r + 2 == n else r == U64_MODULUS - 2 + n)
    ensures (kind !in {OpenGL.LINE_STRIP, OpenGL.TRIANGLE_STRIP, OpenGL.TRIANGLE_FAN}) ==> r <= n
    ensures n < U64_MODULUS ==> r < U64_MODULUS
  {
    match kind
    case TRIANGLES => n / 3
    case LINES => n / 2
    case POINTS => n
    case LINE_LOOP => n
    case LINE_STRIP => (n - 1) % U64_MODULUS
    case TRIANGLE_STRIP => (n - 2) % U64_MODULUS
    case TRIANGLE_FAN => (n - 2) % U64_MODULUS
    case QUADS => n / 4
    case TETRAHEDRA => n / 4
    case _ => n
  }

  /**
   * For every kind GL can draw, and an index count that fits a `GLuint` and is
   * large enough not to wrap, `elementCount` agrees with the GL primitive count
   * of the translated kind and with the GL definition of a primitive.
   */
  lemma ElementCountAgreesWithGL(kind: OpenGL.PrimitiveKind, n: nat)
    requires OpenGL.IsGLKind(kind) && IsU32(n)
    requires kind == OpenGL.LINE_STRIP ==> n >= 1
    requires kind == OpenGL.TRIANGLE_STRIP || kind == OpenGL.TRIANGLE_FAN ==> n >= 2
    ensures ElementCountOf(kind, n) == OpenGL.PrimitiveCount(OpenGL.PrimitiveToGL(kind), n)
    ensures ElementCountOf(kind, n) == OpenGL.GLSpecPrimitives(OpenGL.PrimitiveToGL(kind), n)
  {
    OpenGL.PrimitiveCountAgreesWithGL(OpenGL.PrimitiveToGL(kind), n);
  }

  /** Tetrahedra count four indices each, while GL would draw them as points. */
  lemma ElementCountTetrahedra(n: nat)
    requires IsU32(n)
    ensures ElementCountOf(OpenGL.TETRAHEDRA, n) * 4 <= n < (ElementCountOf(OpenGL.TETRAHEDRA, n) + 1) * 4
    ensures OpenGL.PrimitiveCount(OpenGL.PrimitiveToGL(OpenGL.TETRAHEDRA), n) == n
  {
  }

  /** With fewer than 2 (or 1) indices the strip and fan counts wrap to near 2^64. */
  lemma ElementCountWraps(kind: OpenGL.PrimitiveKind, n: nat)
    requires (kind == OpenGL.LINE_STRIP && n < 1)
          || ((kind == OpenGL.TRIANGLE_STRIP || kind == OpenGL.TRIANGLE_FAN) && n < 2)
    ensures ElementCountOf(kind, n) >= U64_MODULUS - 2
    ensures ElementCountOf(kind, n) > n
    ensures kind == OpenGL.LINE_STRIP ==> ElementCountOf(kind, n) == U64_MODULUS - 1
    ensures kind != OpenGL.LINE_STRIP ==> ElementCountOf(kind, n) == U64_MODULUS - 2 + n
  {
  }

  class Model {
    var indices: seq<int>
    var data: seq<VertexRecord>
    var elementType: OpenGL.PrimitiveKind

    /** A model with no vertices and no indices. */
    constructor (elementType: OpenGL.PrimitiveKind)
      ensures this.indices == [] && this.data == [] && this.elementType == elementType
    {
      this.indices := [];
      this.data := [];
      this.elementType := elementType;
    }

    /** The move constructor takes all three fields of `other`. */
    constructor Move(other: Model)
      ensures indices == other.indices && data == other.data && elementType == other.elementType
    {
      indices := other.indices;
      data := other.data;
      elementType := other.elementType;
    }

    /** Move and copy assignment: all three fields are taken from `other`. */
    method Assign(other: Model)
      modifies this
      ensures indices == old(other.indices) && data == old(other.data) && elementType == old(other.elementType)
    {
      indices := other.indices;
      data := other.data;
      elementType := other.elementType;
    }

    /** Assigning an AoS replaces the vertex data only. */
    method AssignData(newData: seq<VertexRecord>)
      modifies this
      ensures data == newData
      ensures indices == old(indices) && elementType == old(elementType)
    {
      data := newData;
    }

    /** Assigning an index vector replaces the indices only (`operator=` and `setIndices`). */
    method SetIndices(newIndices: seq<int>)
      modifies this
      ensures indices == newIndices
      ensures data == old(data) && elementType == old(elementType)
    {
      indices := newIndices;
    }

    /** Assigning a raw float vector is not implemented and leaves the model as it is. */
    method AssignFloats(vertexData: seq<real>)
      modifies this
      ensures indices == old(indices) && data == old(data) && elementType == old(elementType)
    {
    }

    /** `resize`: keeps the first records and pads with default records. */
    method Resize(newSize: nat)
      modifies this
      ensures |data| == newSize
      ensures forall i :: 0 <= i < newSize && i < |old(data)| ==> data[i] == old(data)[i]
      ensures forall i :: |old(data)| <= i < newSize ==> data[i] == EMPTY_RECORD
      ensures indices == old(indices) && elementType == old(elementType)
    {
      if newSize <= |data| {
        data := data[..newSize];
      } else {
        data := data + seq(newSize - |data|, _ => EMPTY_RECORD);
      }
    }

    /** `setPrimitiveType` changes the primitive type only. */
    method SetPrimitiveType(kind: OpenGL.PrimitiveKind)
      modifies this
      ensures elementType == kind
      ensures indices == old(indices) && data == old(data)
    {
      elementType := kind;
    }

    /** `elementCount`: primitives formed by the index list, or by the vertices when it is empty. */
    function ElementCount(): (r: nat)
      reads this
      ensures elementType == OpenGL.TRIANGLES ==> r * 3 <= IndexCount(indices, |data|) < r * 3 + 3
      ensures elementType == OpenGL.LINES ==> r * 2 <= IndexCount(indices, |data|) < r * 2 + 2
      ensures elementType in {OpenGL.QUADS, OpenGL.TETRAHEDRA} ==> r * 4 <= IndexCount(indices, |data|) < r * 4 + 4
      ensures elementType in {OpenGL.POINTS, OpenGL.LINE_LOOP, OpenGL.CUSTOM} || elementType.OtherKind? ==>
        r == IndexCount(indices, |data|)
      ensures elementType == OpenGL.LINE_STRIP && IndexCount(indices, |data|) < U64_MODULUS ==>
        if IndexCount(indices, |data|) >= 1 then r + 1 == IndexCount(indices, |data|) else r == U64_MODULUS - 1
      ensures elementType in {OpenGL.TRIANGLE_STRIP, OpenGL.TRIANGLE_FAN} && IndexCount(indices, |data|) < U64_MODULUS ==>
        if IndexCount(indices, |data|) >= 2 then r + 2 == IndexCount(indices, |data|)
        else r == U64_MODULUS - 2 + IndexCount(indices, |data|)
    {
      ElementCountOf(elementType, IndexCount(indices, |data|))
    }
  }
}
