/**
 * `circe::gl::BufferDescriptor` and the raw-mesh helpers of circe/gl/io/buffer.h:
 * buffer descriptions, and the interleaver that folds (position, normal,
 * texcoord) index triples into unique vertices.
 */
module GLBuffer {
  import opened Wrappers
  import OpenGL

  const GL_ARRAY_BUFFER: nat := 0x8892
  const GL_ELEMENT_ARRAY_BUFFER: nat := 0x8893
  const GL_STREAM_DRAW: nat := 0x88E0
  const GL_STATIC_DRAW: nat := 0x88E4

  /** `BufferDescriptor::Attribute`. */
  datatype BufferAttribute = BufferAttribute(offset: nat, size: nat, attrType: nat)

  /**
   * The GL mode `forIndexBuffer` and `create_buffer_description_from_mesh` pick:
   * six kinds are translated and every other kind draws triangles.
   */
  function IndexBufferMode(kind: OpenGL.PrimitiveKind): (r: nat)
    ensures r in {OpenGL.GL_TRIANGLES, OpenGL.GL_LINES, OpenGL.GL_QUADS, OpenGL.GL_LINE_LOOP,
                  OpenGL.GL_TRIANGLE_FAN, OpenGL.GL_TRIANGLE_STRIP}
    ensures (kind !in {OpenGL.TRIANGLES, OpenGL.LINES, OpenGL.QUADS, OpenGL.LINE_LOOP,
                       OpenGL.TRIANGLE_FAN, OpenGL.TRIANGLE_STRIP}) ==> r == OpenGL.GL_TRIANGLES
  {
    match kind
    case TRIANGLES => OpenGL.GL_TRIANGLES
    case LINES => OpenGL.GL_LINES
    case QUADS => OpenGL.GL_QUADS
    case LINE_LOOP => OpenGL.GL_LINE_LOOP
    case TRIANGLE_FAN => OpenGL.GL_TRIANGLE_FAN
    case TRIANGLE_STRIP => OpenGL.GL_TRIANGLE_STRIP
    case _ => OpenGL.GL_TRIANGLES
  }

  /**
   * The six kinds agree with `PrimitiveToGL`; points and line strips, which
   * `PrimitiveToGL` keeps, become triangles here, as do tetrahedra, custom and
   * unlisted kinds.
   */
  lemma IndexBufferModeAgreesWithPrimitiveToGL(kind: OpenGL.PrimitiveKind)
    ensures kind in {OpenGL.TRIANGLES, OpenGL.LINES, OpenGL.QUADS, OpenGL.LINE_LOOP,
                     OpenGL.TRIANGLE_FAN, OpenGL.TRIANGLE_STRIP}
            ==> IndexBufferMode(kind) == OpenGL.PrimitiveToGL(kind)
    ensures kind in {OpenGL.POINTS, OpenGL.LINE_STRIP}
            ==> IndexBufferMode(kind) == OpenGL.GL_TRIANGLES != OpenGL.PrimitiveToGL(kind)
    ensures kind in {OpenGL.TETRAHEDRA, OpenGL.CUSTOM} || kind.OtherKind? ==> IndexBufferMode(kind) == OpenGL.GL_TRIANGLES
  {
  }

  class BufferDescriptor {
    var attributeMap: map<string, BufferAttribute>
    var attributeNameIds: map<string, nat>
    var attributes: seq<BufferAttribute>
    var elementSize: nat
    var elementCount: nat
    var elementType: nat
    var bufferType: nat
    var use: nat
    var dataType: nat

    /** Every id-mapped name is a valid index and also has an entry in the name map. */
    ghost predicate Valid()
      reads this
    {
      forall n :: n in attributeNameIds ==> attributeNameIds[n] < |attributes| && n in attributeMap
    }

    /** The parameter constructor (the default constructor is `(0, 0)` with the defaults). */
    constructor (elementSize: nat, elementCount: nat, elementType: nat, bufferType: nat, use: nat, dataType: nat)
      ensures Valid()
      ensures this.elementSize == elementSize && this.elementCount == elementCount
      ensures this.elementType == elementType && this.bufferType == bufferType
      ensures this.use == use && this.dataType == dataType
      ensures attributeMap == map[] && attributeNameIds == map[] && attributes == []
    {
      this.elementSize := elementSize;
      this.elementCount := elementCount;
      this.elementType := elementType;
      this.bufferType := bufferType;
      this.use := use;
      this.dataType := dataType;
      attributeMap := map[];
      attributeNameIds := map[];
      attributes := [];
    }

    /**
     * The copy (and move) constructor: scalar fields and the name map are copied;
     * the attribute list and the id map start empty.
     */
    constructor Copy(other: BufferDescriptor)
      ensures Valid()
      ensures elementSize == other.elementSize && elementCount == other.elementCount
      ensures elementType == other.elementType && bufferType == other.bufferType
      ensures use == other.use && dataType == other.dataType
      ensures attributeMap == other.attributeMap
      ensures attributes == [] && attributeNameIds == map[]
    {
      elementSize := other.elementSize;
      elementCount := other.elementCount;
      elementType := other.elementType;
      bufferType := other.bufferType;
      use := other.use;
      dataType := other.dataType;
      attributeMap := other.attributeMap;
      attributeNameIds := map[];
      attributes := [];
    }

    /**
     * Copy assignment: scalar fields are copied and the other name map is merged
     * into this one (its entries win); the attribute list and id map are kept.
     */
    method Assign(other: BufferDescriptor)
      requires Valid()
      modifies this
      ensures Valid()
      ensures elementSize == old(other.elementSize) && elementCount == old(other.elementCount)
      ensures elementType == old(other.elementType) && bufferType == old(other.bufferType)
      ensures use == old(other.use) && dataType == old(other.dataType)
      ensures attributeMap.Keys == old(attributeMap.Keys) + old(other.attributeMap.Keys)
      ensures forall n :: n in old(other.attributeMap) ==> attributeMap[n] == old(other.attributeMap[n])
      ensures forall n :: n in old(attributeMap) && n !in old(other.attributeMap) ==> attributeMap[n] == old(attributeMap[n])
      ensures attributes == old(attributes) && attributeNameIds == old(attributeNameIds)
    {
      var merged := attributeMap + other.attributeMap;
      elementSize := other.elementSize;
      elementCount := other.elementCount;
      elementType := other.elementType;
      bufferType := other.bufferType;
      use := other.use;
      dataType := other.dataType;
      attributeMap := merged;
    }

    /** `addAttribute`: records the attribute under its name and maps the name to its new index. */
    method AddAttribute(name: string, size: nat, offset: nat, attrType: nat)
      requires Valid()
      modifies this
      ensures Valid()
      ensures var att := BufferAttribute(offset % U32_MODULUS, size % U32_MODULUS, attrType);
        && attributes == old(attributes) + [att]
        && attributeMap == old(attributeMap)[name := att]
        && attributeNameIds == old(attributeNameIds)[name := old(|attributes|)]
        && attributes[attributeNameIds[name]] == attributeMap[name]
      ensures elementSize == old(elementSize) && elementCount == old(elementCount) && elementType == old(elementType)
      ensures bufferType == old(bufferType) && use == old(use) && dataType == old(dataType)
    {
      var att := BufferAttribute(offset % U32_MODULUS, size % U32_MODULUS, attrType);
      attributeMap := attributeMap[name := att];
      attributeNameIds := attributeNameIds[name := |attributes|];
      attributes := attributes + [att];
    }

    /** `dataSize`: bytes of one component. */
    function DataSize(): (r: nat)
      reads this
      ensures r == OpenGL.DataSizeInBytes(dataType)
    {
      OpenGL.DataSizeInBytes(dataType)
    }

    /**
     * `size`: bytes of the buffer. The first product is of two 32-bit fields and
     * wraps modulo 2^32 before it is widened.
     */
    function Size(): (r: nat)
      reads this
      requires IsU32(elementSize) && IsU32(elementCount)
      ensures elementSize * elementCount < U32_MODULUS ==> r == elementSize * elementCount * DataSize()
      ensures DataSize() == 0 ==> r == 0
    {
      (elementSize * elementCount) % U32_MODULUS * DataSize()
    }
  }

  /** `forArrayStream`: no elements yet, streamed array data. */
  method ForArrayStream(elementSize: nat, dataType: nat) returns (d: BufferDescriptor)
    ensures fresh(d) && d.Valid()
    ensures d.elementSize == elementSize && d.elementCount == 0 && d.elementType == OpenGL.GL_TRIANGLES
    ensures d.bufferType == GL_ARRAY_BUFFER && d.use == GL_STREAM_DRAW && d.dataType == dataType
    ensures d.attributes == []
  {
    d := new BufferDescriptor(elementSize, 0, OpenGL.GL_TRIANGLES, GL_ARRAY_BUFFER, GL_STREAM_DRAW, dataType);
  }

  /** `forVertexBuffer`: static float vertex data; sizes are narrowed to 32 bits. */
  method ForVertexBuffer(elementSize: nat, elementCount: nat, elementType: nat) returns (d: BufferDescriptor)
    ensures fresh(d) && d.Valid()
    ensures d.elementSize == elementSize % U32_MODULUS && d.elementCount == elementCount % U32_MODULUS
    ensures d.elementType == elementType && d.bufferType == GL_ARRAY_BUFFER
    ensures d.use == GL_STATIC_DRAW && d.dataType == OpenGL.GL_FLOAT
  {
    d := new BufferDescriptor(elementSize % U32_MODULUS, elementCount % U32_MODULUS, elementType,
                              GL_ARRAY_BUFFER, GL_STATIC_DRAW, OpenGL.GL_FLOAT);
  }

  /** `forIndexBuffer`: always an element array buffer, with the translated mode. */
  method ForIndexBuffer(elementSize: nat, elementCount: nat, kind: OpenGL.PrimitiveKind) returns (d: BufferDescriptor)
    ensures fresh(d) && d.Valid()
    ensures d.bufferType == GL_ELEMENT_ARRAY_BUFFER
    ensures d.elementType == IndexBufferMode(kind)
    ensures d.elementSize == elementSize % U32_MODULUS && d.elementCount == elementCount % U32_MODULUS
    ensures d.use == GL_STATIC_DRAW && d.dataType == OpenGL.GL_FLOAT
  {
    d := new BufferDescriptor(elementSize % U32_MODULUS, elementCount % U32_MODULUS, IndexBufferMode(kind),
                              GL_ELEMENT_ARRAY_BUFFER, GL_STATIC_DRAW, OpenGL.GL_FLOAT);
  }

  // ---------------------------------------------------------------------------
  // Raw mesh interleaving

  /** A `ponos::RawMesh` component descriptor: components per element and element count. */
  datatype ComponentDescriptor = ComponentDescriptor(elementSize: nat, count: nat)

  /** One mesh index: a (position, normal, texcoord) triple of element indices. */
  datatype MeshIndex = MeshIndex(positionIndex: nat, normalIndex: nat, texcoordIndex: nat)

  datatype RawMesh = RawMesh(
    positions: seq<real>, normals: seq<real>, texcoords: seq<real>,
    positionDescriptor: ComponentDescriptor, normalDescriptor: ComponentDescriptor,
    texcoordDescriptor: ComponentDescriptor,
    meshDescriptor: ComponentDescriptor, interleavedDescriptor: ComponentDescriptor,
    indices: seq<MeshIndex>, primitiveType: OpenGL.PrimitiveKind)

  /**
   * Element `e` of `elementSize` values fits in an array of `len` values, stated
   * element by element (`FitsMeans` shows it is `e * elementSize + elementSize <= len`).
   */
  predicate Fits(len: nat, e: nat, elementSize: nat)
    decreases e
  {
    elementSize <= len && (e == 0 || Fits(len - elementSize, e - 1, elementSize))
  }

  lemma {:induction false} FitsMeans(len: nat, e: nat, elementSize: nat)
    ensures Fits(len, e, elementSize) <==> e * elementSize + elementSize <= len
    decreases e
  {
    if e > 0 && elementSize <= len {
      FitsMeans(len - elementSize, e - 1, elementSize);
      {
        assert (e - 1) * elementSize + elementSize <= len - elementSize <==> e * elementSize + elementSize <= len;
      }
    }
  }

  /** Element `e` of a flat array of `elementSize`-value elements. */
  function Slice(data: seq<real>, e: nat, elementSize: nat): (r: seq<real>)
    requires Fits(|data|, e, elementSize)
    ensures |r| == elementSize
    decreases e
  {
    if e == 0 then data[..elementSize] else Slice(data[elementSize..], e - 1, elementSize)
  }

  /** The element is the slice the source reads at indices `e * elementSize + v`. */
  lemma {:induction false} SliceMeans(data: seq<real>, e: nat, elementSize: nat)
    requires Fits(|data|, e, elementSize)
    ensures e * elementSize + elementSize <= |data|
    ensures Slice(data, e, elementSize) == data[e * elementSize .. e * elementSize + elementSize]
    decreases e
  {
    FitsMeans(|data|, e, elementSize);
    if e > 0 {
      SliceMeans(data[elementSize..], e - 1, elementSize);
      var s := (e - 1) * elementSize;
      assert s + elementSize == e * elementSize;
      assert data[elementSize..][s .. s + elementSize] == data[s + elementSize .. s + elementSize + elementSize];
    }
  }

  /** Element `e` of a component array is in range (the source indexes without checking). */
  predicate ElementInRange(data: seq<real>, d: ComponentDescriptor, e: nat)
  {
    d.count != 0 ==> Fits(|data|, e, d.elementSize)
  }

  predicate IndexInRange(rm: RawMesh, k: MeshIndex)
  {
    && ElementInRange(rm.positions, rm.positionDescriptor, k.positionIndex)
    && ElementInRange(rm.normals, rm.normalDescriptor, k.normalIndex)
    && ElementInRange(rm.texcoords, rm.texcoordDescriptor, k.texcoordIndex)
  }

  /** Every key of `keys` addresses elements that exist. */
  predicate AllInRange(rm: RawMesh, keys: seq<MeshIndex>)
  {
    forall x :: x in keys ==> IndexInRange(rm, x)
  }

  predicate MeshIndicesInRange(rm: RawMesh)
  {
    AllInRange(rm, rm.indices)
  }

  /** The floats of element `e`, or nothing when the component is absent. */
  function ElementData(data: seq<real>, d: ComponentDescriptor, e: nat): (r: seq<real>)
    requires ElementInRange(data, d, e)
    ensures |r| == if d.count != 0 then d.elementSize else 0
  {
    if d.count == 0 then [] else Slice(data, e, d.elementSize)
  }

  /** The interleaved floats of one unique vertex: position, then normal, then texcoord. */
  function VertexData(rm: RawMesh, k: MeshIndex): seq<real>
    requires IndexInRange(rm, k)
  {
    ElementData(rm.positions, rm.positionDescriptor, k.positionIndex)
      + ElementData(rm.normals, rm.normalDescriptor, k.normalIndex)
      + ElementData(rm.texcoords, rm.texcoordDescriptor, k.texcoordIndex)
  }

  /** Floats per interleaved vertex: the element sizes of the components present. */
  function VertexWidth(rm: RawMesh): nat
  {
    (if rm.positionDescriptor.count != 0 then rm.positionDescriptor.elementSize else 0)
      + (if rm.normalDescriptor.count != 0 then rm.normalDescriptor.elementSize else 0)
      + (if rm.texcoordDescriptor.count != 0 then rm.texcoordDescriptor.elementSize else 0)
  }

  /** The distinct keys of a sequence in order of first appearance. */
  function Unique(keys: seq<MeshIndex>): (u: seq<MeshIndex>)
    ensures forall x :: x in u <==> x in keys
    ensures |u| <= |keys|
  {
    if keys == [] then []
    else
      var u := Unique(keys[..|keys| - 1]);
      if keys[|keys| - 1] in u then u else u + [keys[|keys| - 1]]
  }

  /** The position of the first occurrence of `x`. */
  function IndexOf(u: seq<MeshIndex>, x: MeshIndex): (r: nat)
    requires x in u
    ensures r < |u| && u[r] == x
    ensures forall j :: 0 <= j < r ==> u[j] != x
  {
    if u[0] == x then 0 else 1 + IndexOf(u[1..], x)
  }

  predicate NoDuplicates(u: seq<MeshIndex>)
  {
    forall i, j :: 0 <= i < j < |u| ==> u[i] != u[j]
  }

  lemma {:induction false} UniqueHasNoDuplicates(keys: seq<MeshIndex>)
    ensures NoDuplicates(Unique(keys))
  {
    if keys != [] {
      UniqueHasNoDuplicates(keys[..|keys| - 1]);
    }
  }

  /** Concatenated vertex data of a list of unique keys. */
  function InterleavedData(rm: RawMesh, u: seq<MeshIndex>): (r: seq<real>)
    requires AllInRange(rm, u)
  {
    if u == [] then [] else InterleavedData(rm, u[..|u| - 1]) + VertexData(rm, u[|u| - 1])
  }

  /** Each unique vertex contributes exactly `VertexWidth` floats. */
  lemma {:induction false} InterleavedDataLength(rm: RawMesh, u: seq<MeshIndex>)
    requires AllInRange(rm, u)
    ensures |InterleavedData(rm, u)| == |u| * VertexWidth(rm)
  {
    if u != [] {
      var prefix, k := u[..|u| - 1], u[|u| - 1];
      assert k in u;
      InterleavedDataLength(rm, prefix);
      VertexDataLength(rm, k);
      MulSucc(|prefix|, VertexWidth(rm));
    }
  }

  lemma VertexDataLength(rm: RawMesh, k: MeshIndex)
    requires IndexInRange(rm, k)
    ensures |VertexData(rm, k)| == VertexWidth(rm)
  {
  }

  /** The index each mesh index receives: the first-appearance rank of its key. */
  function OutputIndices(keys: seq<MeshIndex>): (r: seq<nat>)
    ensures |r| == |keys|
  {
    seq(|keys|, j requires 0 <= j < |keys| => IndexOf(Unique(keys), keys[j]))
  }

  /** Appends `count` values starting at `start` of `src`, one at a time. */
  method AppendRange(out: seq<real>, src: seq<real>, start: nat, count: nat) returns (r: seq<real>)
    requires start + count <= |src|
    ensures r == out + src[start..start + count]
  {
    r := out;
    var v := 0;
    while v < count
      invariant 0 <= v <= count
      invariant r == out + src[start..start + v]
    {
      r := r + [src[start + v]];
      v := v + 1;
    }
  }

  /** One per-component copy loop: the `elementSize` values of element `e`, when the component is present. */
  method AppendElement(out: seq<real>, data: seq<real>, d: ComponentDescriptor, e: nat) returns (r: seq<real>)
    requires ElementInRange(data, d, e)
    ensures r == out + ElementData(data, d, e)
  {
    r := out;
    if d.count != 0 {
      SliceMeans(data, e, d.elementSize);
      r := AppendRange(out, data, e * d.elementSize, d.elementSize);
    }
  }

  /** The three per-component copy loops for one new key. */
  method AppendVertex(out: seq<real>, rm: RawMesh, key: MeshIndex) returns (r: seq<real>)
    requires IndexInRange(rm, key)
    ensures r == out + VertexData(rm, key)
  {
    r := AppendElement(out, rm.positions, rm.positionDescriptor, key.positionIndex);
    r := AppendElement(r, rm.normals, rm.normalDescriptor, key.normalIndex);
    r := AppendElement(r, rm.texcoords, rm.texcoordDescriptor, key.texcoordIndex);
  }

  lemma UniqueExtend(keys: seq<MeshIndex>, i: nat)
    requires i < |keys|
    ensures Unique(keys[..i + 1]) == if keys[i] in Unique(keys[..i]) then Unique(keys[..i]) else Unique(keys[..i]) + [keys[i]]
  {
    assert keys[..i + 1][..i] == keys[..i];
  }

  /** A key's rank does not change once later keys are added. */
  lemma IndexOfStable(u: seq<MeshIndex>, extra: seq<MeshIndex>, x: MeshIndex)
    requires x in u
    ensures IndexOf(u + extra, x) == IndexOf(u, x)
  {
    if u[0] != x {
      assert (u + extra)[1..] == u[1..] + extra;
      IndexOfStable(u[1..], extra, x);
    }
  }

  /** `m` sends each key of `u` to its rank in `u` and holds no other key. */
  ghost predicate RankMap(m: map<MeshIndex, nat>, u: seq<MeshIndex>)
  {
    && (forall x :: x in m <==> x in u)
    && (forall x :: x in m ==> m[x] == IndexOf(u, x))
  }

  lemma RankMapAdd(m: map<MeshIndex, nat>, u: seq<MeshIndex>, key: MeshIndex)
    requires RankMap(m, u) && key !in u
    ensures RankMap(m[key := |u|], u + [key])
  {
    forall x | x in m ensures m[x] == IndexOf(u + [key], x) {
      IndexOfStable(u, [key], x);
    }
    IndexOfLast(u, key);
  }

  lemma UniqueInRange(rm: RawMesh, keys: seq<MeshIndex>, i: nat)
    requires AllInRange(rm, keys) && i <= |keys|
    ensures AllInRange(rm, Unique(keys[..i]))
  {
    forall x | x in Unique(keys[..i]) ensures IndexInRange(rm, x) {
      assert x in keys[..i];
    }
  }

  lemma InterleavedAppend(rm: RawMesh, u: seq<MeshIndex>, key: MeshIndex)
    requires AllInRange(rm, u) && IndexInRange(rm, key)
    ensures AllInRange(rm, u + [key])
    ensures InterleavedData(rm, u + [key]) == InterleavedData(rm, u) + VertexData(rm, key)
  {
    assert (u + [key])[..|u|] == u;
  }

  /** The state of the interleaving loop after the first `i` mesh indices. */
  ghost predicate InterleaveState(rm: RawMesh, keys: seq<MeshIndex>, i: nat, m: map<MeshIndex, nat>, newIndex: nat,
                                  vertexData: seq<real>, indexData: seq<nat>, vertexOut: seq<real>, indexOut: seq<nat>)
    requires i <= |keys|
  {
    && AllInRange(rm, keys)
    && newIndex == |Unique(keys[..i])|
    && RankMap(m, Unique(keys[..i]))
    && AllInRange(rm, Unique(keys[..i]))
    && vertexOut == vertexData + InterleavedData(rm, Unique(keys[..i]))
    && indexOut == indexData + OutputIndices(keys[..i])
  }

  /** What one iteration relies on: how the distinct keys, their ranks and the output indices grow. */
  lemma StepFacts(rm: RawMesh, keys: seq<MeshIndex>, i: nat, m: map<MeshIndex, nat>)
    requires i < |keys| && AllInRange(rm, keys)
    requires RankMap(m, Unique(keys[..i]))
    ensures AllInRange(rm, Unique(keys[..i + 1]))
    ensures keys[i] in m ==> Unique(keys[..i + 1]) == Unique(keys[..i])
    ensures keys[i] !in m ==>
      && Unique(keys[..i + 1]) == Unique(keys[..i]) + [keys[i]]
      && RankMap(m[keys[i] := |Unique(keys[..i])|], Unique(keys[..i + 1]))
      && IndexInRange(rm, keys[i])
      && InterleavedData(rm, Unique(keys[..i + 1])) == InterleavedData(rm, Unique(keys[..i])) + VertexData(rm, keys[i])
    ensures OutputIndices(keys[..i + 1])
         == OutputIndices(keys[..i]) + [if keys[i] in m then m[keys[i]] else |Unique(keys[..i])|]
  {
    var key, u := keys[i], Unique(keys[..i]);
    UniqueExtend(keys, i);
    UniqueInRange(rm, keys, i);
    UniqueInRange(rm, keys, i + 1);
    if key !in m {
      assert key in keys;
      InterleavedAppend(rm, u, key);
      RankMapAdd(m, u, key);
    }
    OutputIndicesExtend(keys, i);
  }

  /** A triple not seen before gets the next index, and its data is appended. */
  lemma InterleaveNew(rm: RawMesh, keys: seq<MeshIndex>, i: nat, m: map<MeshIndex, nat>, newIndex: nat,
                      vertexData: seq<real>, indexData: seq<nat>, vertexOut: seq<real>, indexOut: seq<nat>)
    requires i < |keys| && keys[i] !in m
    requires InterleaveState(rm, keys, i, m, newIndex, vertexData, indexData, vertexOut, indexOut)
    ensures IndexInRange(rm, keys[i])
    ensures InterleaveState(rm, keys, i + 1, m[keys[i] := newIndex], newIndex + 1, vertexData, indexData,
                            vertexOut + VertexData(rm, keys[i]), indexOut + [newIndex])
  {
    var key, u, u' := keys[i], Unique(keys[..i]), Unique(keys[..i + 1]);
    StepFacts(rm, keys, i, m);
    assert u' == u + [key] && |u'| == newIndex + 1;
    var d, d' := InterleavedData(rm, u), InterleavedData(rm, u');
    assert d' == d + VertexData(rm, key);
    assert vertexOut + VertexData(rm, key) == vertexData + d';
    assert indexOut + [newIndex] == indexData + OutputIndices(keys[..i + 1]);
  }

  /** A triple seen before reuses its index, and no data is appended. */
  lemma InterleaveSeen(rm: RawMesh, keys: seq<MeshIndex>, i: nat, m: map<MeshIndex, nat>, newIndex: nat,
                       vertexData: seq<real>, indexData: seq<nat>, vertexOut: seq<real>, indexOut: seq<nat>)
    requires i < |keys| && keys[i] in m
    requires InterleaveState(rm, keys, i, m, newIndex, vertexData, indexData, vertexOut, indexOut)
    ensures InterleaveState(rm, keys, i + 1, m, newIndex, vertexData, indexData, vertexOut, indexOut + [m[keys[i]]])
  {
    StepFacts(rm, keys, i, m);
  }

  /** One iteration of the loop: look the triple up, emit a new vertex when it is new, emit its index. */
  method InterleaveStep(rm: RawMesh, keys: seq<MeshIndex>, i: nat, m: map<MeshIndex, nat>, newIndex: nat,
                        ghost vertexData: seq<real>, ghost indexData: seq<nat>, vertexOut: seq<real>, indexOut: seq<nat>)
    returns (m': map<MeshIndex, nat>, newIndex': nat, vertexOut': seq<real>, indexOut': seq<nat>)
    requires i < |keys|
    requires InterleaveState(rm, keys, i, m, newIndex, vertexData, indexData, vertexOut, indexOut)
    ensures InterleaveState(rm, keys, i + 1, m', newIndex', vertexData, indexData, vertexOut', indexOut')
  {
    var key := keys[i];
    if key !in m {
      InterleaveNew(rm, keys, i, m, newIndex, vertexData, indexData, vertexOut, indexOut);
      vertexOut' := AppendVertex(vertexOut, rm, key);
      m', newIndex', indexOut' := m[key := newIndex], newIndex + 1, indexOut + [newIndex];
    } else {
      InterleaveSeen(rm, keys, i, m, newIndex, vertexData, indexData, vertexOut, indexOut);
      m', newIndex', vertexOut', indexOut' := m, newIndex, vertexOut, indexOut + [m[key]];
    }
  }

  /**
   * `setup_buffer_data_from_mesh`: appends one index per mesh index, the rank of
   * its key among the distinct keys, and the interleaved data of each new key.
   */
  method SetupBufferDataFromMesh(rm: RawMesh, vertexData: seq<real>, indexData: seq<nat>)
    returns (vertexOut: seq<real>, indexOut: seq<nat>)
    requires MeshIndicesInRange(rm)
    ensures indexOut == indexData + OutputIndices(rm.indices)
    ensures vertexOut == vertexData + InterleavedData(rm, Unique(rm.indices))
  {
    var keys := rm.indices;
    var m: map<MeshIndex, nat> := map[];
    var newIndex := 0;
    vertexOut, indexOut := vertexData, indexData;
    var i := 0;
    InterleaveStart(rm, vertexData, indexData);
    while i < |keys|
      invariant 0 <= i <= |keys|
      invariant InterleaveState(rm, keys, i, m, newIndex, vertexData, indexData, vertexOut, indexOut)
    {
      m, newIndex, vertexOut, indexOut := InterleaveStep(rm, keys, i, m, newIndex, vertexData, indexData, vertexOut, indexOut);
      i := i + 1;
    }
    InterleaveDone(rm, m, newIndex, vertexData, indexData, vertexOut, indexOut);
  }

  lemma InterleaveStart(rm: RawMesh, vertexData: seq<real>, indexData: seq<nat>)
    requires MeshIndicesInRange(rm)
    ensures InterleaveState(rm, rm.indices, 0, map[], 0, vertexData, indexData, vertexData, indexData)
  {
    var keys := rm.indices;
    assert keys[..0] == [];
    assert OutputIndices([]) == [];
    UniqueInRange(rm, keys, 0);
  }

  lemma InterleaveDone(rm: RawMesh, m: map<MeshIndex, nat>, newIndex: nat,
                       vertexData: seq<real>, indexData: seq<nat>, vertexOut: seq<real>, indexOut: seq<nat>)
    requires InterleaveState(rm, rm.indices, |rm.indices|, m, newIndex, vertexData, indexData, vertexOut, indexOut)
    ensures indexOut == indexData + OutputIndices(rm.indices)
    ensures vertexOut == vertexData + InterleavedData(rm, Unique(rm.indices))
  {
    assert rm.indices[..|rm.indices|] == rm.indices;
  }

  lemma IndexOfLast(u: seq<MeshIndex>, x: MeshIndex)
    requires x !in u
    ensures IndexOf(u + [x], x) == |u|
  {
    if u != [] {
      assert (u + [x])[1..] == u[1..] + [x];
      IndexOfLast(u[1..], x);
    }
  }

  lemma OutputIndicesExtend(keys: seq<MeshIndex>, i: nat)
    requires i < |keys|
    ensures OutputIndices(keys[..i + 1]) == OutputIndices(keys[..i]) + [IndexOf(Unique(keys[..i + 1]), keys[i])]
  {
    var a, b := keys[..i + 1], keys[..i];
    var ua, ub := Unique(a), Unique(b);
    var oa, ob := OutputIndices(a), OutputIndices(b);
    UniqueExtend(keys, i);
    forall j | 0 <= j < i ensures oa[j] == ob[j] {
      var x := b[j];
      assert a[j] == x && x in b && x in ub;
      assert oa[j] == IndexOf(ua, x) && ob[j] == IndexOf(ub, x);
      if ua != ub {
        IndexOfStable(ub, [keys[i]], x);
      }
    }
    assert |oa| == |ob| + 1;
    assert oa[i] == IndexOf(ua, keys[i]);
    assert oa == ob + [oa[i]];
  }

  /** Two mesh indices with the same triple receive the same output index. */
  lemma SameTripleSameIndex(keys: seq<MeshIndex>, i: nat, j: nat)
    requires i < |keys| && j < |keys| && keys[i] == keys[j]
    ensures OutputIndices(keys)[i] == OutputIndices(keys)[j]
  {
  }

  /**
   * Output indices are dense first-appearance ranks: each is below the number of
   * distinct triples, different triples get different indices, and the interleaved
   * data holds `VertexWidth` floats per distinct triple.
   */
  lemma OutputIndicesDense(rm: RawMesh, i: nat, j: nat)
    requires MeshIndicesInRange(rm)
    requires i < |rm.indices| && j < |rm.indices|
    ensures OutputIndices(rm.indices)[i] < |Unique(rm.indices)|
    ensures rm.indices[i] != rm.indices[j] ==> OutputIndices(rm.indices)[i] != OutputIndices(rm.indices)[j]
    ensures |InterleavedData(rm, Unique(rm.indices))| == |Unique(rm.indices)| * VertexWidth(rm)
  {
    InterleavedDataLength(rm, Unique(rm.indices));
  }

  /**
   * `create_buffer_description_from_mesh`: fills the index descriptor `i` and the
   * vertex descriptor `v` (the `size_t` counts and element sizes narrowed to
   * the descriptor's 32-bit fields), and appends position, normal and texcoord attributes
   * to `v` at float offsets following the interleaved order.
   */
  method CreateBufferDescriptionFromMesh(m: RawMesh, v: BufferDescriptor, i: BufferDescriptor, use: nat)
    requires v != i && v.Valid() && i.Valid()
    modifies v, i
    ensures v.Valid() && i.Valid()
    ensures i.elementType == IndexBufferMode(m.primitiveType)
    ensures i.elementCount == m.meshDescriptor.count % U32_MODULUS && i.elementSize == m.meshDescriptor.elementSize % U32_MODULUS
    ensures IsU32(i.elementCount) && IsU32(i.elementSize) && IsU32(v.elementCount) && IsU32(v.elementSize)
    ensures i.bufferType == GL_ELEMENT_ARRAY_BUFFER && i.use == use && i.dataType == OpenGL.GL_UNSIGNED_INT
    ensures i.attributes == old(i.attributes) && i.attributeMap == old(i.attributeMap)
    ensures v.elementCount == m.interleavedDescriptor.count % U32_MODULUS
    ensures v.elementSize == m.interleavedDescriptor.elementSize % U32_MODULUS
    ensures v.bufferType == GL_ARRAY_BUFFER && v.use == use && v.dataType == OpenGL.GL_FLOAT
    ensures v.attributes == old(v.attributes) + MeshAttributes(m)
    ensures "position" in v.attributeMap
    ensures m.normalDescriptor.count != 0 ==> "normal" in v.attributeMap
    ensures m.texcoordDescriptor.count != 0 ==> "texcoord" in v.attributeMap
  {
    i.elementType := IndexBufferMode(m.primitiveType);
    i.elementCount := m.meshDescriptor.count % U32_MODULUS;
    i.elementSize := m.meshDescriptor.elementSize % U32_MODULUS;
    i.bufferType := GL_ELEMENT_ARRAY_BUFFER;
    i.use := use;
    i.dataType := OpenGL.GL_UNSIGNED_INT;
    v.elementCount := m.interleavedDescriptor.count % U32_MODULUS;
    v.elementSize := m.interleavedDescriptor.elementSize % U32_MODULUS;
    v.bufferType := GL_ARRAY_BUFFER;
    v.use := use;
    v.dataType := OpenGL.GL_FLOAT;
    AddMeshAttributes(m, v);
  }

  /** The attribute half of `create_buffer_description_from_mesh`: position, then normal and texcoord when present. */
  method AddMeshAttributes(m: RawMesh, v: BufferDescriptor)
    requires v.Valid()
    modifies v
    ensures v.Valid()
    ensures v.attributes == old(v.attributes) + MeshAttributes(m)
    ensures "position" in v.attributeMap
    ensures m.normalDescriptor.count != 0 ==> "normal" in v.attributeMap
    ensures m.texcoordDescriptor.count != 0 ==> "texcoord" in v.attributeMap
    ensures v.elementSize == old(v.elementSize) && v.elementCount == old(v.elementCount) && v.elementType == old(v.elementType)
    ensures v.bufferType == old(v.bufferType) && v.use == old(v.use) && v.dataType == old(v.dataType)
  {
    var p := m.positionDescriptor.elementSize;
    var n := m.normalDescriptor.elementSize;
    var t := m.texcoordDescriptor.elementSize;
    ghost var before := v.attributes;
    v.AddAttribute("position", p, 0, OpenGL.GL_FLOAT);
    ghost var added := [BufferAttribute(0, p % U32_MODULUS, OpenGL.GL_FLOAT)];
    assert v.attributes == before + added;
    var offset := p;
    if m.normalDescriptor.count != 0 {
      v.AddAttribute("normal", n, offset * 4, OpenGL.GL_FLOAT);
      added := added + [BufferAttribute((p * 4) % U32_MODULUS, n % U32_MODULUS, OpenGL.GL_FLOAT)];
      AppendAssocAttr(before, added[..1], added[1..]);
      offset := offset + n;
    }
    assert offset == p + (if m.normalDescriptor.count != 0 then n else 0);
    assert v.attributes == before + added;
    if m.texcoordDescriptor.count != 0 {
      v.AddAttribute("texcoord", t, offset * 4, OpenGL.GL_FLOAT);
      ghost var last := [BufferAttribute((offset * 4) % U32_MODULUS, t % U32_MODULUS, OpenGL.GL_FLOAT)];
      AppendAssocAttr(before, added, last);
      added := added + last;
      offset := offset + t;
    }
    assert added == MeshAttributes(m);
  }

  lemma AppendAssocAttr(a: seq<BufferAttribute>, b: seq<BufferAttribute>, c: seq<BufferAttribute>)
    ensures (a + b) + c == a + (b + c)
  {
  }

  /** The attributes `create_buffer_description_from_mesh` appends, in order. */
  function MeshAttributes(m: RawMesh): seq<BufferAttribute>
  {
    var p := m.positionDescriptor.elementSize;
    var n := m.normalDescriptor.elementSize;
    var t := m.texcoordDescriptor.elementSize;
    [BufferAttribute(0, p % U32_MODULUS, OpenGL.GL_FLOAT)]
      + (if m.normalDescriptor.count != 0 then [BufferAttribute((p * 4) % U32_MODULUS, n % U32_MODULUS, OpenGL.GL_FLOAT)] else [])
      + (if m.texcoordDescriptor.count != 0
         then [BufferAttribute(((p + (if m.normalDescriptor.count != 0 then n else 0)) * 4) % U32_MODULUS, t % U32_MODULUS, OpenGL.GL_FLOAT)]
         else [])
  }

  /**
   * When positions are present and the sizes fit 32 bits, the attribute offsets are
   * exactly where `setup_buffer_data_from_mesh` puts each component inside a vertex
   * (in bytes of 4-byte floats), and the last attribute ends at the vertex width.
   */
  lemma MeshAttributesMatchInterleaving(m: RawMesh, k: MeshIndex)
    requires m.positionDescriptor.count != 0 && IndexInRange(m, k)
    requires VertexWidth(m) * 4 < U32_MODULUS
    ensures var attrs := MeshAttributes(m);
      && |attrs| >= 1 && attrs[0].offset == 0
      && attrs[|attrs| - 1].offset + attrs[|attrs| - 1].size * 4 == VertexWidth(m) * 4
      && (m.normalDescriptor.count != 0 ==>
            attrs[1].offset == |ElementData(m.positions, m.positionDescriptor, k.positionIndex)| * 4)
      && |VertexData(m, k)| == VertexWidth(m)
  {
    var p := m.positionDescriptor.elementSize;
    var n := if m.normalDescriptor.count != 0 then m.normalDescriptor.elementSize else 0;
    var t := if m.texcoordDescriptor.count != 0 then m.texcoordDescriptor.elementSize else 0;
    assert VertexWidth(m) == p + n + t;
    SmallMod(p);
    SmallMod(p * 4);
    SmallMod(n);
    SmallMod(t);
    SmallMod((p + n) * 4);
    VertexDataLength(m, k);
  }

  lemma SmallMod(x: nat)
    requires x < U32_MODULUS
    ensures x % U32_MODULUS == x
  {
  }
}
