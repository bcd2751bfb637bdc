/**
 * `circe::gl::IndexBuffer` (circe/gl/storage/index_buffer.h): the host-side
 * bookkeeping of an element array buffer. The GPU upload done by `setData`
 * is represented by the `uploaded` field, the last index list handed to it.
 */
module IndexBuffers {
  import opened Wrappers
  import OpenGL

  /** The element types the assignment operator accepts: 1-, 2- and 4-byte integers. */
  predicate IsIndexScalar(t: OpenGL.ScalarType)
  {
    t in {OpenGL.Ti32, OpenGL.Ti16, OpenGL.Ti8, OpenGL.Tu32, OpenGL.Tu16, OpenGL.Tu8}
  }

  /** The unsigned GL index type the operator picks from `sizeof(T)`. */
  function IndexDataType(t: OpenGL.ScalarType): (r: nat)
    requires IsIndexScalar(t)
    ensures r in {OpenGL.GL_UNSIGNED_INT, OpenGL.GL_UNSIGNED_SHORT, OpenGL.GL_UNSIGNED_BYTE}
    ensures OpenGL.DataSizeInBytes(r) == OpenGL.ScalarWidth(t)
  {
    var width := OpenGL.ScalarWidth(t);
    if width == 4 then OpenGL.GL_UNSIGNED_INT
    else if width == 2 then OpenGL.GL_UNSIGNED_SHORT
    else OpenGL.GL_UNSIGNED_BYTE
  }

  class IndexBuffer {
    var elementCount: nat
    var elementType: nat
    var dataType: nat
    var uploaded: seq<int>

    /** The field defaults: no elements, triangles, 32-bit unsigned indices. */
    constructor ()
      ensures elementCount == 0 && elementType == OpenGL.GL_TRIANGLES
      ensures dataType == OpenGL.GL_UNSIGNED_INT && uploaded == []
    {
      elementCount := 0;
      elementType := OpenGL.GL_TRIANGLES;
      dataType := OpenGL.GL_UNSIGNED_INT;
      uploaded := [];
    }

    /**
     * `operator=(const std::vector<T>&)`. An empty vector changes nothing; otherwise
     * the data type follows the width of T and the element count is the primitive
     * count of the index count, passed to `primitiveCount` as a `GLuint`.
     */
    method AssignIndices(t: OpenGL.ScalarType, data: seq<int>)
      requires IsIndexScalar(t)
      modifies this
      ensures elementType == old(elementType)
      ensures |data| == 0 ==> elementCount == old(elementCount) && dataType == old(dataType) && uploaded == old(uploaded)
      ensures |data| > 0 ==> dataType == IndexDataType(t) && uploaded == data
      ensures |data| > 0 ==> elementCount == OpenGL.PrimitiveCount(elementType, |data| % U32_MODULUS)
    {
      if |data| == 0 {
        return;
      }
      dataType := IndexDataType(t);
      elementCount := OpenGL.PrimitiveCount(elementType, |data| % U32_MODULUS);
      uploaded := data;
    }
  }
}
