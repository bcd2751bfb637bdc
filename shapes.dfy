/**
 * The index and topology side of `circe::Shapes` (circe/scene/shapes.cpp):
 * how many vertices each generator allocates, which index list it emits and
 * which primitive type it sets. Vertex positions, normals, uvs and tangents
 * are floating-point data and are not part of this model.
 */
module Shapes {
  import opened Wrappers
  import OpenGL
  import SceneModel

  // `shape_options` bits.
  const NORMAL: bv32 := 0x01
  const UV: bv32 := 0x02
  const UNIQUE_POSITIONS: bv32 := 0x20
  const WIREFRAME: bv32 := 0x40
  const VERTICES: bv32 := 0x80

  /** `testMaskBit`. */
  predicate TestMaskBit(options: bv32, bit: bv32)
  {
    options & bit == bit
  }

  /**
   * The topology of a generated `Model`: its vertex count (the size of its AoS),
   * its index list and the primitive type it was given (`None` when the
   * generator leaves the model's default).
   */
  datatype Mesh = Mesh(vertexCount: nat, indices: seq<int>, primitive: Option<OpenGL.PrimitiveKind>)

  /** Every index names an allocated vertex. */
  predicate IndicesInRange(indices: seq<int>, vertexCount: nat)
  {
    forall k :: 0 <= k < |indices| ==> 0 <= indices[k] < vertexCount
  }

  function Pow(b: nat, e: nat): (r: nat)
    ensures b >= 1 ==> r >= 1
  {
    if e == 0 then 1 else b * Pow(b, e - 1)
  }

  // ---------------------------------------------------------------------------
  // box(bbox3)

  /**
   * Which bounds each of the 8 base vertices takes: corner i uses the upper
   * x, y or z bound exactly when `UpperX`, `UpperY` or `UpperZ` holds.
   */
  predicate UpperX(i: int) { i in {1, 2, 5, 6} }
  predicate UpperY(i: int) { i in {2, 3, 6, 7} }
  predicate UpperZ(i: int) { i in {4, 5, 6, 7} }

  /** The number of coordinates in which two corners differ. */
  function CornerDistance(i: int, j: int): nat
  {
    (if UpperX(i) != UpperX(j) then 1 else 0)
      + (if UpperY(i) != UpperY(j) then 1 else 0)
      + (if UpperZ(i) != UpperZ(j) then 1 else 0)
  }

  /** The six faces as corner quads, -Z, +Z, -Y, +Y, -X, +X (`base_vertex_indices`). */
  function BoxFace(f: nat): (q: seq<int>)
    requires f < 6
    ensures |q| == 4
    ensures forall k :: 0 <= k < 4 ==> 0 <= q[k] < 8
  {
    match f
    case 0 => [0, 1, 2, 3]
    case 1 => [4, 7, 6, 5]
    case 2 => [0, 4, 5, 1]
    case 3 => [3, 2, 6, 7]
    case 4 => [0, 3, 7, 4]
    case _ => [2, 1, 5, 6]
  }

  /** The twelve edges of the wireframe box, as index pairs. */
  const BOX_EDGES: seq<int> := [0, 1, 1, 2, 2, 3, 3, 0, 0, 4, 1, 5, 2, 6, 3, 7, 4, 5, 5, 6, 6, 7, 7, 4]

  /** The primitive type `box(bbox3)` sets: points, else lines, else triangles. */
  function BoxPrimitive(options: bv32): (r: OpenGL.PrimitiveKind)
    ensures TestMaskBit(options, VERTICES) ==> r == OpenGL.POINTS
    ensures !TestMaskBit(options, VERTICES) && TestMaskBit(options, WIREFRAME) ==> r == OpenGL.LINES
    ensures !TestMaskBit(options, VERTICES) && !TestMaskBit(options, WIREFRAME) ==> r == OpenGL.TRIANGLES
  {
    if TestMaskBit(options, VERTICES) then OpenGL.POINTS
    else if TestMaskBit(options, WIREFRAME) then OpenGL.LINES
    else OpenGL.TRIANGLES
  }

  /** The vertex count `box(bbox3)` allocates. */
  function BoxVertexCount(options: bv32): (r: nat)
    ensures r in {8, 24, 48}
    ensures r == 8 <==> !TestMaskBit(options, UNIQUE_POSITIONS) || TestMaskBit(options, VERTICES)
    ensures r == 48 <==> TestMaskBit(options, UNIQUE_POSITIONS) && !TestMaskBit(options, VERTICES) && TestMaskBit(options, WIREFRAME)
  {
    if TestMaskBit(options, UNIQUE_POSITIONS) && !TestMaskBit(options, VERTICES) then
      (if TestMaskBit(options, WIREFRAME) then 48 else 24)
    else 8
  }

  /** Triangle `jump` of the fan of face f: the quad's first corner and corners jump+1, jump+2. */
  function FanTriangle(f: nat, jump: nat): (t: seq<int>)
    requires f < 6 && jump < 2
    ensures |t| == 3 && forall k :: 0 <= k < 3 ==> 0 <= t[k] < 8
  {
    var q := BoxFace(f);
    [q[0], q[jump + 1], q[jump + 2]]
  }

  /** The fan indices of the first n faces. */
  function BoxFan(n: nat): (r: seq<int>)
    requires n <= 6
    ensures |r| == 6 * n
    ensures IndicesInRange(r, 8)
  {
    if n == 0 then [] else BoxFan(n - 1) + FanTriangle(n - 1, 0) + FanTriangle(n - 1, 1)
  }

  /** The tessellation loop over faces and fan triangles. */
  method FanBoxFaces() returns (indices: seq<int>)
    ensures indices == BoxFan(6)
  {
    indices := [];
    var f := 0;
    while f < 6
      invariant 0 <= f <= 6
      invariant indices == BoxFan(f)
    {
      var jump := 0;
      while jump < 2
        invariant 0 <= jump <= 2
        invariant jump == 0 ==> indices == BoxFan(f)
        invariant jump == 1 ==> indices == BoxFan(f) + FanTriangle(f, 0)
        invariant jump == 2 ==> indices == BoxFan(f) + FanTriangle(f, 0) + FanTriangle(f, 1)
      {
        var q := BoxFace(f);
        indices := indices + [q[0], q[jump + 1], q[jump + 2]];
        jump := jump + 1;
      }
      f := f + 1;
    }
  }

  /**
   * `box(bbox3)`. Wireframe boxes get the 12 edges, all others the 36 fan
   * indices (a points box keeps them too); the index list is always set.
   */
  method Box(options: bv32) returns (mesh: Mesh)
    ensures mesh.primitive == Some(BoxPrimitive(options))
    ensures mesh.vertexCount == BoxVertexCount(options)
    ensures TestMaskBit(options, WIREFRAME) ==> mesh.indices == BOX_EDGES
    ensures !TestMaskBit(options, WIREFRAME) ==> mesh.indices == BoxFan(6) && |mesh.indices| == 36
    ensures IndicesInRange(mesh.indices, 8)
  {
    var indices: seq<int>;
    if TestMaskBit(options, WIREFRAME) {
      indices := BOX_EDGES;
    } else {
      indices := FanBoxFaces();
    }
    mesh := Mesh(BoxVertexCount(options), indices, Some(BoxPrimitive(options)));
  }

  /** Face f is a quad walked around its border: consecutive corners are one coordinate apart, opposite ones two. */
  predicate IsQuadFace(f: nat)
    requires f < 6
  {
    var q := BoxFace(f);
    CornerDistance(q[0], q[1]) == 1 && CornerDistance(q[1], q[2]) == 1
      && CornerDistance(q[2], q[3]) == 1 && CornerDistance(q[3], q[0]) == 1
      && CornerDistance(q[0], q[2]) == 2 && CornerDistance(q[1], q[3]) == 2
  }

  /**
   * Each box face is a quad of four distinct corners around one side of the
   * cube, so its two fan triangles (sharing the diagonal q0-q2) cover exactly that face.
   */
  lemma BoxFacesAreQuads(f: nat)
    requires f < 6
    ensures IsQuadFace(f)
    ensures FanTriangle(f, 0)[0] == FanTriangle(f, 1)[0] && FanTriangle(f, 0)[2] == FanTriangle(f, 1)[1]
  {
    if f == 0 {} else if f == 1 {} else if f == 2 {} else if f == 3 {} else if f == 4 {} else {}
  }

  /** Wireframe edge e as a pair. */
  function BoxEdge(e: nat): (int, int)
    requires e < 12
  {
    match e
    case 0 => (0, 1)  case 1 => (1, 2)  case 2 => (2, 3)  case 3 => (3, 0)
    case 4 => (0, 4)  case 5 => (1, 5)  case 6 => (2, 6)  case 7 => (3, 7)
    case 8 => (4, 5)  case 9 => (5, 6)  case 10 => (6, 7) case _ => (7, 4)
  }

  /** The first n edges, flattened into an index list. */
  function BoxEdgeList(n: nat): (r: seq<int>)
    requires n <= 12
    ensures |r| == 2 * n
    ensures forall e :: 0 <= e < n ==> r[2 * e] == BoxEdge(e).0 && r[2 * e + 1] == BoxEdge(e).1
  {
    if n == 0 then [] else BoxEdgeList(n - 1) + [BoxEdge(n - 1).0, BoxEdge(n - 1).1]
  }

  /** The literal index list of a wireframe box lists edges 0 to 11 in order. */
  lemma BoxEdgesListed()
    ensures BOX_EDGES == BoxEdgeList(12)
  {
  }

  /** A key identifying an undirected corner pair. */
  function PairKey(p: (int, int)): int
  {
    if p.0 <= p.1 then 8 * p.0 + p.1 else 8 * p.1 + p.0
  }

  /** The wireframe edge with a given corner-pair key. */
  function BoxEdgeOfKey(key: int): nat
  {
    match key
    case 1 => 0   case 10 => 1  case 19 => 2  case 3 => 3   case 4 => 4    case 13 => 5
    case 22 => 6  case 31 => 7  case 37 => 8  case 46 => 9  case 55 => 10  case _ => 11
  }

  /** Each wireframe edge joins two adjacent corners, and its key leads back to it. */
  lemma BoxEdgeKeyInverse(e: nat)
    requires e < 12
    ensures BoxEdgeOfKey(PairKey(BoxEdge(e))) == e
    ensures CornerDistance(BoxEdge(e).0, BoxEdge(e).1) == 1
  {
  }

  /**
   * The wireframe pairs are the 12 edges of the cube: each joins two corners
   * one coordinate apart, and no corner pair is listed twice (a cube has 12 edges).
   */
  lemma BoxEdgesAreCubeEdges()
    ensures forall e :: 0 <= e < 12 ==> CornerDistance(BoxEdge(e).0, BoxEdge(e).1) == 1
    ensures forall g, e :: 0 <= g < e < 12 ==> PairKey(BoxEdge(g)) != PairKey(BoxEdge(e))
  {
    forall e | 0 <= e < 12 ensures CornerDistance(BoxEdge(e).0, BoxEdge(e).1) == 1 {
      BoxEdgeKeyInverse(e);
    }
    forall g, e | 0 <= g < e < 12 ensures PairKey(BoxEdge(g)) != PairKey(BoxEdge(e)) {
      BoxEdgeKeyInverse(g);
      BoxEdgeKeyInverse(e);
    }
  }

  // ---------------------------------------------------------------------------
  // box(bbox2) and segment

  /**
   * `box(bbox2)`. With `unique_positions` (a TODO in the source) nothing is
   * allocated and no index is set; otherwise 4 corners, as lines or as two triangles.
   */
  method Box2(options: bv32) returns (mesh: Mesh)
    ensures TestMaskBit(options, UNIQUE_POSITIONS) ==> mesh == Mesh(0, [], None)
    ensures !TestMaskBit(options, UNIQUE_POSITIONS) && TestMaskBit(options, WIREFRAME) ==>
      mesh == Mesh(4, [0, 1, 1, 2, 2, 3, 3, 0], Some(OpenGL.LINES))
    ensures !TestMaskBit(options, UNIQUE_POSITIONS) && !TestMaskBit(options, WIREFRAME) ==>
      mesh == Mesh(4, [0, 1, 2, 0, 2, 3], Some(OpenGL.TRIANGLES))
    ensures IndicesInRange(mesh.indices, mesh.vertexCount)
  {
    if TestMaskBit(options, UNIQUE_POSITIONS) {
      mesh := Mesh(0, [], None);
    } else if TestMaskBit(options, WIREFRAME) {
      mesh := Mesh(4, [0, 1, 1, 2, 2, 3, 3, 0], Some(OpenGL.LINES));
    } else {
      mesh := Mesh(4, [0, 1, 2, 0, 2, 3], Some(OpenGL.TRIANGLES));
    }
  }

  /** The square's outline visits each corner pair once, and its triangles share the diagonal 0-2. */
  lemma Box2Topology()
    ensures SceneModel.ElementCountOf(OpenGL.LINES, 8) == 4
    ensures SceneModel.ElementCountOf(OpenGL.TRIANGLES, 6) == 2
    ensures forall e :: 0 <= e < 4 ==> [0, 1, 1, 2, 2, 3, 3, 0][2 * e + 1] == [0, 1, 1, 2, 2, 3, 3, 0][(2 * e + 2) % 8]
  {
  }

  /** `segment`: two vertices joined by one line. */
  method Segment() returns (mesh: Mesh)
    ensures mesh.vertexCount == 2 && mesh.indices == [0, 1] && mesh.primitive == Some(OpenGL.LINES)
    ensures IndicesInRange(mesh.indices, mesh.vertexCount)
    ensures SceneModel.ElementCountOf(OpenGL.LINES, |mesh.indices|) == 1
  {
    mesh := Mesh(2, [0, 1], Some(OpenGL.LINES));
  }

  // ---------------------------------------------------------------------------
  // plane

  /** Point k of the wireframe plane is index k: the outline emits its vertices in order. */
  method PlaneWireframe(width: nat, height: nat) returns (mesh: Mesh)
    requires width < U32_MAX && height < U32_MAX
    ensures mesh.vertexCount == (2 * (width + 1) + 2 * (height + 1)) % U32_MODULUS
    ensures |mesh.indices| == 2 * (width + 1) + 2 * (height + 1)
    ensures forall k :: 0 <= k < |mesh.indices| ==> mesh.indices[k] == k
    ensures mesh.primitive == Some(OpenGL.LINES)
  {
    var indices: seq<int> := [];
    var vertexIndex := 0;
    var x := 0;
    while x <= width
      invariant 0 <= x <= width + 1
      invariant vertexIndex == 2 * x == |indices|
      invariant forall k :: 0 <= k < |indices| ==> indices[k] == k
    {
      indices := indices + [vertexIndex];
      vertexIndex := vertexIndex + 1;
      indices := indices + [vertexIndex];
      vertexIndex := vertexIndex + 1;
      x := x + 1;
    }
    var y := 0;
    while y <= height
      invariant 0 <= y <= height + 1
      invariant vertexIndex == 2 * (width + 1) + 2 * y == |indices|
      invariant forall k :: 0 <= k < |indices| ==> indices[k] == k
    {
      indices := indices + [vertexIndex];
      vertexIndex := vertexIndex + 1;
      indices := indices + [vertexIndex];
      vertexIndex := vertexIndex + 1;
      y := y + 1;
    }
    mesh := Mesh((2 * (width + 1) + 2 * (height + 1)) % U32_MODULUS, indices, Some(OpenGL.LINES));
  }

  /** The wireframe outline draws one line per vertex pair: W + 1 across and H + 1 along. */
  lemma PlaneWireframeLines(width: nat, height: nat)
    ensures SceneModel.ElementCountOf(OpenGL.LINES, 2 * (width + 1) + 2 * (height + 1)) == width + height + 2
  {
  }

  /**
   * The solid plane's vertex loop (x outer, y inner): the vertex at index k is
   * grid point (k / (H + 1), k % (H + 1)), so point (x, y) has index x(H + 1) + y.
   */
  method PlaneVertexOrder(width: nat, height: nat) returns (points: seq<(nat, nat)>)
    requires width < U32_MAX && height < U32_MAX
    ensures |points| == (width + 1) * (height + 1)
    ensures forall k :: 0 <= k < |points| ==> points[k] == (k / (height + 1), k % (height + 1))
  {
    points := [];
    var x := 0;
    while x <= width
      invariant 0 <= x <= width + 1
      invariant |points| == x * (height + 1)
      invariant forall k :: 0 <= k < |points| ==> points[k] == (k / (height + 1), k % (height + 1))
    {
      var y := 0;
      while y <= height
        invariant 0 <= y <= height + 1
        invariant |points| == x * (height + 1) + y
        invariant forall k :: 0 <= k < |points| ==> points[k] == (k / (height + 1), k % (height + 1))
      {
        DivModUnique(|points|, height + 1, x, y);
        points := points + [(x, y)];
        y := y + 1;
      }
      x := x + 1;
    }
  }

  /** The two triangles of the grid cell whose lower corner has index `base`, for a row stride. */
  function CellIndices(base: int, stride: int): (r: seq<int>)
    ensures |r| == 6
  {
    [base, base + stride, base + 1, base + 1, base + stride, base + stride + 1]
  }

  /** Cells (i, 0) .. (i, n - 1) of the index loop, with lower corner i * stride + j. */
  function GridRow(i: nat, n: nat, stride: nat): (r: seq<int>)
    ensures |r| == 6 * n
  {
    if n == 0 then [] else GridRow(i, n - 1, stride) + CellIndices(i * stride + n - 1, stride)
  }

  lemma GridRowSnoc(before: seq<int>, i: nat, j: nat, stride: nat)
    ensures before + GridRow(i, j + 1, stride) == before + GridRow(i, j, stride) + CellIndices(i * stride + j, stride)
  {
  }

  /** The index list of the first `rows` rows of `height` cells each. */
  function Grid(rows: nat, height: nat, stride: nat): (r: seq<int>)
    ensures |r| == 6 * (rows * height)
  {
    if rows == 0 then []
    else
      MulSucc(rows - 1, height);
      Grid(rows - 1, height, stride) + GridRow(rows - 1, height, stride)
  }

  /** The solid plane's index loop, for the stride it uses. */
  method PlaneIndices(width: nat, height: nat, stride: nat) returns (indices: seq<int>)
    ensures indices == Grid(width, height, stride)
  {
    indices := [];
    var i := 0;
    while i < width
      invariant 0 <= i <= width
      invariant indices == Grid(i, height, stride)
    {
      var j := 0;
      ghost var before := indices;
      MulSucc(i, stride);
      while j < height
        invariant 0 <= j <= height
        invariant indices == before + GridRow(i, j, stride)
      {
        var p, q := i * stride + j, (i + 1) * stride + j;
        GridRowSnoc(before, i, j, stride);
        assert CellIndices(p, stride) == [p, q, p + 1, p + 1, q, q + 1];
        indices := indices + [p, q, p + 1, p + 1, q, q + 1];
        j := j + 1;
      }
      assert Grid(i + 1, height, stride) == before + GridRow(i, height, stride);
      i := i + 1;
    }
  }

  /**
   * `plane` with a solid grid, as written: the vertex array is sized by the
   * u32 product (W + 1)(H + 1), triangles are built with row stride W + 1,
   * and the primitive type is left unset.
   */
  method PlaneAsWritten(width: nat, height: nat) returns (mesh: Mesh)
    requires width < U32_MAX && height < U32_MAX
    ensures mesh.vertexCount == ((width + 1) * (height + 1)) % U32_MODULUS
    ensures mesh.indices == Grid(width, height, width + 1)
    ensures mesh.primitive == None
  {
    var indices := PlaneIndices(width, height, width + 1);
    mesh := Mesh(((width + 1) * (height + 1)) % U32_MODULUS, indices, None);
  }

  /**
   * `plane` with a solid grid, corrected: the row stride is H + 1, the stride
   * of the vertex loop, so every index names one of the (W + 1)(H + 1)
   * points that loop writes; the vertex array is still sized by the u32
   * product, which holds them all exactly when it does not wrap.
   */
  method Plane(width: nat, height: nat) returns (mesh: Mesh)
    requires width < U32_MAX && height < U32_MAX
    ensures mesh.vertexCount == ((width + 1) * (height + 1)) % U32_MODULUS
    ensures mesh.indices == Grid(width, height, height + 1)
    ensures |mesh.indices| == 6 * (width * height)
    ensures IndicesInRange(mesh.indices, (width + 1) * (height + 1))
    ensures (width + 1) * (height + 1) < U32_MODULUS ==> IndicesInRange(mesh.indices, mesh.vertexCount)
    ensures mesh.primitive == None
  {
    var indices := PlaneIndices(width, height, height + 1);
    PlaneIndicesInRange(width, height);
    var points := (width + 1) * (height + 1);
    mesh := Mesh(points % U32_MODULUS, indices, None);
  }

  /** Every entry of g lies in [lo, hi]. */
  predicate Between(g: seq<int>, lo: int, hi: int)
  {
    forall k :: 0 <= k < |g| ==> lo <= g[k] <= hi
  }

  lemma BetweenConcat(a: seq<int>, b: seq<int>, lo: int, hi: int)
    requires Between(a, lo, hi) && Between(b, lo, hi)
    ensures Between(a + b, lo, hi)
  {
    forall k | 0 <= k < |a + b| ensures lo <= (a + b)[k] <= hi {
      if k >= |a| {
        assert (a + b)[k] == b[k - |a|];
      }
    }
  }

  lemma BetweenWiden(g: seq<int>, lo: int, hi: int, lo': int, hi': int)
    requires Between(g, lo, hi) && lo' <= lo && hi <= hi'
    ensures Between(g, lo', hi')
  {
  }

  lemma {:induction false} GridRowBounds(i: nat, n: nat, stride: nat)
    ensures Between(GridRow(i, n, stride), i * stride, i * stride + n + stride)
  {
    if n > 0 {
      var base := i * stride;
      GridRowBounds(i, n - 1, stride);
      BetweenWiden(GridRow(i, n - 1, stride), base, base + (n - 1) + stride, base, base + n + stride);
      var cell := CellIndices(base + n - 1, stride);
      assert Between(cell, base, base + n + stride);
      BetweenConcat(GridRow(i, n - 1, stride), cell, base, base + n + stride);
    }
  }

  lemma {:induction false} GridBounds(rows: nat, height: nat, stride: nat)
    requires rows > 0
    ensures Between(Grid(rows, height, stride), 0, (rows - 1) * stride + height + stride)
  {
    var last := (rows - 1) * stride;
    var hi := last + height + stride;
    GridRowBounds(rows - 1, height, stride);
    BetweenWiden(GridRow(rows - 1, height, stride), last, hi, 0, hi);
    if rows > 1 {
      GridBounds(rows - 1, height, stride);
      MulSucc(rows - 2, stride);
      BetweenWiden(Grid(rows - 1, height, stride), 0, (rows - 2) * stride + height + stride, 0, hi);
      BetweenConcat(Grid(rows - 1, height, stride), GridRow(rows - 1, height, stride), 0, hi);
    } else {
      assert Grid(rows, height, stride) == [] + GridRow(0, height, stride);
    }
  }

  /** With stride H + 1 every index names one of the (W + 1)(H + 1) vertices. */
  lemma PlaneIndicesInRange(width: nat, height: nat)
    ensures IndicesInRange(Grid(width, height, height + 1), (width + 1) * (height + 1))
  {
    if width > 0 {
      GridBounds(width, height, height + 1);
      MulSucc(width - 1, height + 1);
      MulSucc(width, height + 1);
      assert (width - 1) * (height + 1) + height + height + 1 < (width + 1) * (height + 1);
    }
  }

  /** Cell (i, j) occupies entries 6 (iH + j) .. 6 (iH + j) + 5 of the grid. */
  lemma {:induction false} GridRowCell(i: nat, n: nat, stride: nat, j: nat)
    requires j < n
    ensures GridRow(i, n, stride)[6 * j .. 6 * j + 6] == CellIndices(i * stride + j, stride)
  {
    if j < n - 1 {
      GridRowCell(i, n - 1, stride, j);
    }
  }

  /** Entries lo .. lo + 5 of g are the cell c. */
  predicate CellAt(g: seq<int>, lo: int, c: seq<int>)
  {
    0 <= lo && lo + 6 <= |g| && g[lo..lo + 6] == c
  }

  lemma CellAtPrefix(a: seq<int>, b: seq<int>, lo: int, c: seq<int>)
    requires CellAt(a, lo, c)
    ensures CellAt(a + b, lo, c)
  {
    assert (a + b)[lo..lo + 6] == a[lo..lo + 6];
  }

  lemma CellAtSuffix(a: seq<int>, b: seq<int>, k: nat, lo: int, c: seq<int>)
    requires CellAt(b, k, c) && lo == |a| + k
    ensures CellAt(a + b, lo, c)
  {
    assert (a + b)[lo..lo + 6] == b[k..k + 6];
  }

  /** Cell (i, j) of the last of i + 1 rows sits right after the first i rows. */
  lemma GridLastRowCell(i: nat, height: nat, stride: nat, j: nat)
    requires j < height
    ensures CellAt(Grid(i + 1, height, stride), 6 * (i * height + j), CellIndices(i * stride + j, stride))
  {
    var before, row := Grid(i, height, stride), GridRow(i, height, stride);
    assert Grid(i + 1, height, stride) == before + row;
    assert |before| == 6 * (i * height);
    GridRowCell(i, height, stride, j);
    CellAtSuffix(before, row, 6 * j, 6 * (i * height + j), CellIndices(i * stride + j, stride));
  }

  lemma {:induction false} GridCell(rows: nat, height: nat, stride: nat, i: nat, j: nat)
    requires i < rows && j < height
    ensures CellAt(Grid(rows, height, stride), 6 * (i * height + j), CellIndices(i * stride + j, stride))
  {
    if i < rows - 1 {
      var before, row := Grid(rows - 1, height, stride), GridRow(rows - 1, height, stride);
      assert Grid(rows, height, stride) == before + row;
      GridCell(rows - 1, height, stride, i, j);
      CellAtPrefix(before, row, 6 * (i * height + j), CellIndices(i * stride + j, stride));
    } else {
      GridLastRowCell(i, height, stride, j);
    }
  }

  /** The six index entries c decode, by quotient and remainder by h, to the corners of cell (i, j). */
  predicate CellDecodes(c: seq<int>, h: nat, i: nat, j: nat)
    requires |c| == 6
  {
    && Decodes(c[0], h, i, j) && Decodes(c[1], h, i + 1, j) && Decodes(c[2], h, i, j + 1)
    && Decodes(c[3], h, i, j + 1) && Decodes(c[4], h, i + 1, j) && Decodes(c[5], h, i + 1, j + 1)
  }

  /** Vertex index v is grid point (x, y) of the vertex loop with stride h: v = x h + y with y < h. */
  predicate Decodes(v: int, h: nat, x: nat, y: nat)
  {
    y < h && v == x * h + y
  }

  /** A decoded index gives its column and row back by quotient and remainder, as in the vertex loop. */
  lemma DecodesDivMod(v: int, h: nat, x: nat, y: nat)
    requires Decodes(v, h, x, y)
    ensures v >= 0 && v / h == x && v % h == y
  {
    DivModUnique(v, h, x, y);
  }

  /**
   * With stride H + 1, the two triangles of cell (i, j) are the grid points
   * (i, j), (i + 1, j), (i, j + 1) and (i, j + 1), (i + 1, j), (i + 1, j + 1)
   * as numbered by the vertex loop.
   */
  lemma PlaneCellCorners(width: nat, height: nat, i: nat, j: nat)
    requires i < width && j < height
    ensures 6 * (i * height + j) + 6 <= |Grid(width, height, height + 1)|
    ensures CellDecodes(Grid(width, height, height + 1)[6 * (i * height + j) .. 6 * (i * height + j) + 6], height + 1, i, j)
  {
    var h := height + 1;
    GridCell(width, height, h, i, j);
    CellCornersDecode(i, j, h);
    CellDecodesAt(Grid(width, height, h), 6 * (i * height + j), CellIndices(i * h + j, h), h, i, j);
  }

  lemma CellDecodesAt(g: seq<int>, lo: int, c: seq<int>, h: nat, i: nat, j: nat)
    requires CellAt(g, lo, c) && CellDecodes(c, h, i, j)
    ensures lo + 6 <= |g| && CellDecodes(g[lo..lo + 6], h, i, j)
  {
  }

  /** The six entries of cell (i, j) decode, by quotient and remainder by the stride, to its corners. */
  lemma CellCornersDecode(i: nat, j: nat, h: nat)
    requires j + 1 < h
    ensures CellDecodes(CellIndices(i * h + j, h), h, i, j)
  {
    MulSucc(i, h);
  }

  /** Two rows of one cell each: the cells with lower corners 0 and `stride`. */
  lemma GridTwoByOne(stride: nat)
    ensures Grid(2, 1, stride) == CellIndices(0, stride) + CellIndices(stride, stride)
  {
    assert GridRow(0, 1, stride) == CellIndices(0, stride);
    assert GridRow(1, 1, stride) == CellIndices(stride, stride);
    assert Grid(1, 1, stride) == GridRow(0, 1, stride);
  }

  /** 2 by 1 divisions: stride w + 1 = 3 emits index 7 for a plane of 6 vertices; stride h + 1 = 2 stays in range. */
  lemma PlaneAsWrittenOutOfRange()
    ensures |Grid(2, 1, 3)| == 12 && Grid(2, 1, 3)[11] == 7
    ensures !IndicesInRange(Grid(2, 1, 3), 3 * 2)
    ensures IndicesInRange(Grid(2, 1, 2), 3 * 2)
  {
    GridTwoByOne(3);
    assert Grid(2, 1, 3)[11] == CellIndices(3, 3)[5];
    PlaneIndicesInRange(2, 1);
  }

  // ---------------------------------------------------------------------------
  // icosphere

  /** Face f of the icosahedron. */
  function IcosahedronFace(f: nat): (t: seq<int>)
    requires f < 20
    ensures |t| == 3 && forall k :: 0 <= k < 3 ==> 0 <= t[k] < 12
  {
    match f
    case 0 => [0, 11, 5]   case 1 => [0, 5, 1]   case 2 => [0, 1, 7]    case 3 => [0, 7, 10]
    case 4 => [0, 10, 11]  case 5 => [1, 5, 9]   case 6 => [5, 11, 4]   case 7 => [11, 10, 2]
    case 8 => [10, 7, 6]   case 9 => [7, 1, 8]   case 10 => [3, 9, 4]   case 11 => [3, 4, 2]
    case 12 => [3, 2, 6]   case 13 => [3, 6, 8]  case 14 => [3, 8, 9]   case 15 => [4, 9, 5]
    case 16 => [2, 4, 11]  case 17 => [6, 2, 10] case 18 => [8, 6, 7]   case _ => [9, 8, 1]
  }

  /** The 20 faces of the starting icosahedron, flattened, over its 12 vertices. */
  function Icosahedron(): (r: seq<int>)
    ensures |r| == 60 && IndicesInRange(r, 12)
  {
    seq(60, k requires 0 <= k < 60 => IcosahedronFace(k / 3)[k % 3])
  }

  /** Entry k of the flattened list is corner k % 3 of face k / 3. */
  lemma IcosahedronEntry(k: nat)
    requires k < 60
    ensures Icosahedron()[k] == IcosahedronFace(k / 3)[k % 3]
  {
  }

  /** The four faces that replace face (v0, v1, v2) with edge midpoints a = v0v1, b = v1v2, c = v2v0. */
  function SplitFace(v0: int, v1: int, v2: int, a: int, b: int, c: int): (r: seq<int>)
    ensures |r| == 12
  {
    [v0, a, c, v1, b, a, v2, c, b, a, c, b]
  }

  /**
   * The vertex the as-written refinement creates for edge t (0: v0v1, 1: v1v2,
   * 2: v2v0) of face j: every call of the midpoint helper appends a new vertex,
   * because its cache is never written.
   */
  function MidpointAsWritten(vertexCount: nat, j: nat, t: nat): nat
  {
    vertexCount + 3 * j + t
  }

  /** The faces that the as-written refinement appends for faces 0 .. j - 1. */
  function SplitAsWritten(faces: seq<int>, j: nat, vertexCount: nat): (r: seq<int>)
    requires 3 * j <= |faces|
    ensures |r| == 12 * j
  {
    if j == 0 then []
    else
      SplitAsWritten(faces, j - 1, vertexCount)
        + SplitFace(faces[3 * (j - 1)], faces[3 * (j - 1) + 1], faces[3 * (j - 1) + 2],
                    MidpointAsWritten(vertexCount, j - 1, 0), MidpointAsWritten(vertexCount, j - 1, 1),
                    MidpointAsWritten(vertexCount, j - 1, 2))
  }

  /** Splitting each of n / 3 faces into four quadruples the index count. */
  lemma FacesOfThree(n: nat)
    requires n % 3 == 0
    ensures 12 * (n / 3) == 4 * n && (4 * n) % 3 == 0 && (n + 4 * n) % 3 == 0
  {
  }

  /**
   * The index list and vertex count after `divisions` as-written refinements
   * of a face list over `vertexCount` vertices: each keeps the old faces and
   * appends four more per face.
   */
  function RefinedAsWritten(faces: seq<int>, vertexCount: nat, divisions: nat): (r: (seq<int>, nat))
    requires |faces| % 3 == 0
    ensures |r.0| % 3 == 0
  {
    if divisions == 0 then (faces, vertexCount)
    else
      var previous := RefinedAsWritten(faces, vertexCount, divisions - 1);
      FacesOfThree(|previous.0|);
      (previous.0 + SplitAsWritten(previous.0, |previous.0| / 3, previous.1), previous.1 + |previous.0|)
  }

  /** Refinement d + 1 refines the result of refinement d once. */
  lemma RefinedAsWrittenNext(faces: seq<int>, vertexCount: nat, d: nat)
    requires |faces| % 3 == 0
    ensures var (level, count) := RefinedAsWritten(faces, vertexCount, d);
      RefinedAsWritten(faces, vertexCount, d + 1) == (level + SplitAsWritten(level, |level| / 3, count), count + |level|)
  {
  }

  /** One as-written refinement step: the loop over the faces present when it starts. */
  method RefineAsWritten(faces: seq<int>, vertexCount: nat) returns (indices: seq<int>, count: nat)
    requires |faces| % 3 == 0
    ensures indices == faces + SplitAsWritten(faces, |faces| / 3, vertexCount)
    ensures count == vertexCount + |faces|
  {
    indices := faces;
    count := vertexCount;
    var n := |faces| / 3;
    assert 3 * n == |faces|;
    var j := 0;
    while j < n
      invariant 0 <= j <= n
      invariant indices == faces + SplitAsWritten(faces, j, vertexCount)
      invariant count == vertexCount + 3 * j
    {
      RefineAsWrittenReads(faces, j, vertexCount, indices);
      var v0, v1, v2 := indices[3 * j], indices[3 * j + 1], indices[3 * j + 2];
      var a := count;
      count := count + 1;
      var b := count;
      count := count + 1;
      var c := count;
      count := count + 1;
      SplitAsWrittenSnoc(faces, j, vertexCount);
      AddFourFaces(indices, v0, v1, v2, a, b, c);
      indices := indices + [v0, a, c] + [v1, b, a] + [v2, c, b] + [a, c, b];
      j := j + 1;
    }
  }

  /** Before face j is split, the list still starts with the original faces. */
  lemma RefineAsWrittenReads(faces: seq<int>, j: nat, vertexCount: nat, indices: seq<int>)
    requires 3 * (j + 1) <= |faces|
    requires indices == faces + SplitAsWritten(faces, j, vertexCount)
    ensures indices[3 * j] == faces[3 * j] && indices[3 * j + 1] == faces[3 * j + 1]
    ensures indices[3 * j + 2] == faces[3 * j + 2]
  {
  }

  /** The four `ADD_FACE` calls of one face append exactly its split. */
  lemma AddFourFaces(x: seq<int>, v0: int, v1: int, v2: int, a: int, b: int, c: int)
    ensures x + [v0, a, c] + [v1, b, a] + [v2, c, b] + [a, c, b] == x + SplitFace(v0, v1, v2, a, b, c)
  {
    assert [v0, a, c] + [v1, b, a] + [v2, c, b] + [a, c, b] == SplitFace(v0, v1, v2, a, b, c);
  }

  /** The as-written split of faces 0 .. j is that of faces 0 .. j - 1 followed by face j's. */
  lemma SplitAsWrittenSnoc(faces: seq<int>, j: nat, vertexCount: nat)
    requires 3 * (j + 1) <= |faces|
    ensures faces + SplitAsWritten(faces, j + 1, vertexCount)
      == faces + SplitAsWritten(faces, j, vertexCount)
         + SplitFace(faces[3 * j], faces[3 * j + 1], faces[3 * j + 2],
                     vertexCount + 3 * j, vertexCount + 3 * j + 1, vertexCount + 3 * j + 2)
  {
    var a := SplitAsWritten(faces, j, vertexCount);
    var b := SplitFace(faces[3 * j], faces[3 * j + 1], faces[3 * j + 2],
                       vertexCount + 3 * j, vertexCount + 3 * j + 1, vertexCount + 3 * j + 2);
    SplitAsWrittenStep(faces, j, vertexCount);
    assert faces + (a + b) == faces + a + b;
  }

  lemma SplitAsWrittenStep(faces: seq<int>, j: nat, vertexCount: nat)
    requires 3 * (j + 1) <= |faces|
    ensures SplitAsWritten(faces, j + 1, vertexCount)
      == SplitAsWritten(faces, j, vertexCount)
         + SplitFace(faces[3 * j], faces[3 * j + 1], faces[3 * j + 2],
                     vertexCount + 3 * j, vertexCount + 3 * j + 1, vertexCount + 3 * j + 2)
  {
  }

  /** `icosphere`, as written. */
  method IcosphereAsWritten(divisions: nat, options: bv32) returns (mesh: Mesh)
    requires IsU32(divisions)
    ensures mesh.vertexCount == RefinedAsWritten(Icosahedron(), 12, divisions).1
    ensures mesh.indices == if TestMaskBit(options, VERTICES) then [] else RefinedAsWritten(Icosahedron(), 12, divisions).0
    ensures mesh.primitive == Some(if TestMaskBit(options, VERTICES) then OpenGL.POINTS else OpenGL.TRIANGLES)
  {
    var base := Icosahedron();
    var indices, count := base, 12;
    var i := 0;
    while i < divisions
      invariant 0 <= i <= divisions
      invariant (indices, count) == RefinedAsWritten(base, 12, i)
    {
      RefinedAsWrittenNext(base, 12, i);
      indices, count := RefineAsWritten(indices, count);
      i := i + 1;
    }
    var kind := if TestMaskBit(options, VERTICES) then OpenGL.POINTS else OpenGL.TRIANGLES;
    mesh := Mesh(count, if TestMaskBit(options, VERTICES) then [] else indices, Some(kind));
  }

  lemma {:induction false} SplitAsWrittenInRange(faces: seq<int>, j: nat, vertexCount: nat)
    requires 3 * j <= |faces| && IndicesInRange(faces, vertexCount)
    ensures IndicesInRange(SplitAsWritten(faces, j, vertexCount), vertexCount + 3 * j)
  {
    if j > 0 {
      SplitAsWrittenInRange(faces, j - 1, vertexCount);
    }
  }

  /** `level` indices and `count` vertices after refinements that multiplied `f` indices by `p`. */
  predicate RefinementCounts(level: nat, count: nat, f: nat, p: nat, vertexCount: nat)
  {
    level == f * p && 4 * count == 4 * vertexCount + f * (p - 1)
  }

  /** The count arithmetic of one more refinement, on plain integers. */
  lemma CountStep(f: nat, p: nat, level: nat, count: nat, level': nat, count': nat, vertexCount: nat)
    requires p >= 1 && RefinementCounts(level, count, f, p, vertexCount)
    requires level' == 5 * level && count' == count + level
    ensures RefinementCounts(level', count', f, 5 * p, vertexCount)
  {
    assert f * (5 * p) == 5 * (f * p);
    assert f * (5 * p - 1) == f * (p - 1) + 4 * (f * p);
  }

  /** One as-written refinement quintuples the index count and adds one vertex per index. */
  lemma RefinedAsWrittenStepCounts(faces: seq<int>, vertexCount: nat, d: nat)
    requires |faces| % 3 == 0 && d > 0
    ensures |RefinedAsWritten(faces, vertexCount, d).0| == 5 * |RefinedAsWritten(faces, vertexCount, d - 1).0|
    ensures RefinedAsWritten(faces, vertexCount, d).1
      == RefinedAsWritten(faces, vertexCount, d - 1).1 + |RefinedAsWritten(faces, vertexCount, d - 1).0|
  {
    FacesOfThree(|RefinedAsWritten(faces, vertexCount, d - 1).0|);
  }

  /** One as-written refinement keeps every index on an allocated vertex. */
  lemma RefinedAsWrittenStepInRange(faces: seq<int>, vertexCount: nat, d: nat)
    requires |faces| % 3 == 0 && d > 0
    requires IndicesInRange(RefinedAsWritten(faces, vertexCount, d - 1).0, RefinedAsWritten(faces, vertexCount, d - 1).1)
    ensures IndicesInRange(RefinedAsWritten(faces, vertexCount, d).0, RefinedAsWritten(faces, vertexCount, d).1)
  {
    var (level, count) := RefinedAsWritten(faces, vertexCount, d - 1);
    FacesOfThree(|level|);
    var split := SplitAsWritten(level, |level| / 3, count);
    SplitAsWrittenInRange(level, |level| / 3, count);
    var next := level + split;
    assert RefinedAsWritten(faces, vertexCount, d) == (next, count + |level|);
    forall k | 0 <= k < |next| ensures 0 <= next[k] < count + |level| {
      if k >= |level| {
        assert next[k] == split[k - |level|];
      }
    }
  }

  /**
   * As written, d refinements multiply the face count by 5^d, add one vertex
   * per face edge visited, and keep every index on an allocated vertex.
   */
  lemma RefinedAsWrittenCounts(faces: seq<int>, vertexCount: nat, divisions: nat)
    requires |faces| % 3 == 0 && IndicesInRange(faces, vertexCount)
    ensures |RefinedAsWritten(faces, vertexCount, divisions).0| == |faces| * Pow(5, divisions)
    ensures 4 * RefinedAsWritten(faces, vertexCount, divisions).1 == 4 * vertexCount + |faces| * (Pow(5, divisions) - 1)
    ensures IndicesInRange(RefinedAsWritten(faces, vertexCount, divisions).0, RefinedAsWritten(faces, vertexCount, divisions).1)
  {
    RefinedAsWrittenLengths(faces, vertexCount, divisions);
    RefinedAsWrittenInRange(faces, vertexCount, divisions);
  }

  lemma {:induction false} RefinedAsWrittenLengths(faces: seq<int>, vertexCount: nat, divisions: nat)
    requires |faces| % 3 == 0
    ensures RefinementCounts(|RefinedAsWritten(faces, vertexCount, divisions).0|, RefinedAsWritten(faces, vertexCount, divisions).1,
                             |faces|, Pow(5, divisions), vertexCount)
  {
    if divisions > 0 {
      RefinedAsWrittenLengths(faces, vertexCount, divisions - 1);
      RefinedAsWrittenStepCounts(faces, vertexCount, divisions);
      var previous := RefinedAsWritten(faces, vertexCount, divisions - 1);
      var next := RefinedAsWritten(faces, vertexCount, divisions);
      CountStep(|faces|, Pow(5, divisions - 1), |previous.0|, previous.1, |next.0|, next.1, vertexCount);
    }
  }

  lemma {:induction false} RefinedAsWrittenInRange(faces: seq<int>, vertexCount: nat, divisions: nat)
    requires |faces| % 3 == 0 && IndicesInRange(faces, vertexCount)
    ensures IndicesInRange(RefinedAsWritten(faces, vertexCount, divisions).0, RefinedAsWritten(faces, vertexCount, divisions).1)
  {
    if divisions > 0 {
      RefinedAsWrittenInRange(faces, vertexCount, divisions - 1);
      RefinedAsWrittenStepInRange(faces, vertexCount, divisions);
    }
  }



  /** From the icosahedron, d as-written refinements give 20 * 5^d faces over 12 + 15 (5^d - 1) vertices. */
  lemma IcosphereAsWrittenCounts(divisions: nat)
    ensures |RefinedAsWritten(Icosahedron(), 12, divisions).0| == 60 * Pow(5, divisions)
    ensures RefinedAsWritten(Icosahedron(), 12, divisions).1 == 12 + 15 * (Pow(5, divisions) - 1)
    ensures IndicesInRange(RefinedAsWritten(Icosahedron(), 12, divisions).0, RefinedAsWritten(Icosahedron(), 12, divisions).1)
  {
    RefinedAsWrittenCounts(Icosahedron(), 12, divisions);
  }

  lemma {:induction false} SplitAsWrittenPrefix(faces: seq<int>, j: nat, j': nat, vertexCount: nat)
    requires j <= j' && 3 * j' <= |faces|
    ensures SplitAsWritten(faces, j', vertexCount)[..12 * j] == SplitAsWritten(faces, j, vertexCount)
    decreases j'
  {
    if j < j' {
      var s, s' := SplitAsWritten(faces, j' - 1, vertexCount), SplitAsWritten(faces, j', vertexCount);
      SplitAsWrittenPrefix(faces, j, j' - 1, vertexCount);
      SplitAsWrittenStep(faces, j' - 1, vertexCount);
      assert 12 * j <= |s|;
      assert s'[..12 * j] == s[..12 * j];
    }
  }

  /** The as-written split of face j sits at entries 12 j .. 12 j + 11. */
  lemma SplitAsWrittenFace(faces: seq<int>, n: nat, vertexCount: nat, j: nat)
    requires j < n && 3 * n <= |faces|
    ensures SplitAsWritten(faces, n, vertexCount)[12 * j .. 12 * j + 12]
      == SplitFace(faces[3 * j], faces[3 * j + 1], faces[3 * j + 2],
                   MidpointAsWritten(vertexCount, j, 0), MidpointAsWritten(vertexCount, j, 1),
                   MidpointAsWritten(vertexCount, j, 2))
  {
    SplitAsWrittenPrefix(faces, j + 1, n, vertexCount);
    var s := SplitAsWritten(faces, n, vertexCount);
    assert s[12 * j .. 12 * j + 12] == s[..12 * (j + 1)][12 * j ..];
  }

  /** Each as-written refinement keeps the faces it started from as a prefix. */
  /** `a` is an initial part of `b`. */
  predicate IsPrefix(a: seq<int>, b: seq<int>)
  {
    a <= b
  }

  lemma PrefixTrans(a: seq<int>, b: seq<int>, c: seq<int>)
    requires IsPrefix(a, b) && IsPrefix(b, c)
    ensures IsPrefix(a, c)
  {
  }

  /** Later as-written refinements only append to the index list. */
  lemma {:induction false} RefinedAsWrittenKeepsPrefix(faces: seq<int>, vertexCount: nat, d: nat, d': nat)
    requires |faces| % 3 == 0 && d <= d'
    ensures IsPrefix(RefinedAsWritten(faces, vertexCount, d).0, RefinedAsWritten(faces, vertexCount, d').0)
    decreases d'
  {
    if d < d' {
      RefinedAsWrittenKeepsPrefix(faces, vertexCount, d, d' - 1);
      RefinedAsWrittenStep(faces, vertexCount, d');
      PrefixTrans(RefinedAsWritten(faces, vertexCount, d).0, RefinedAsWritten(faces, vertexCount, d' - 1).0,
                  RefinedAsWritten(faces, vertexCount, d').0);
    }
  }

  /** One as-written step only appends. */
  lemma RefinedAsWrittenStep(faces: seq<int>, vertexCount: nat, d: nat)
    requires |faces| % 3 == 0 && d > 0
    ensures IsPrefix(RefinedAsWritten(faces, vertexCount, d - 1).0, RefinedAsWritten(faces, vertexCount, d).0)
  {
  }

  /**
   * When edge t of face j and edge t' of face j' are the same undirected edge,
   * every as-written refinement still gives them two different midpoint
   * vertices; the first refinement puts midpoint (j, 0) at entry |faces| + 12 j + 1
   * and midpoint (j, 2) at entry |faces| + 12 j + 2, and later ones keep them.
   */
  lemma RefinedAsWrittenSplitsSharedEdges(faces: seq<int>, vertexCount: nat, divisions: nat, j: nat, j': nat)
    requires |faces| % 3 == 0 && j < j' < |faces| / 3 && divisions >= 1
    ensures |faces| + 12 * j' + 2 < |RefinedAsWritten(faces, vertexCount, divisions).0|
    ensures RefinedAsWritten(faces, vertexCount, divisions).0[|faces| + 12 * j + 1] == MidpointAsWritten(vertexCount, j, 0)
    ensures RefinedAsWritten(faces, vertexCount, divisions).0[|faces| + 12 * j' + 2] == MidpointAsWritten(vertexCount, j', 2)
    ensures MidpointAsWritten(vertexCount, j, 0) != MidpointAsWritten(vertexCount, j', 2)
  {
    FirstRefinementMidpoints(faces, vertexCount, j);
    FirstRefinementMidpoints(faces, vertexCount, j');
    RefinedAsWrittenKeepsPrefix(faces, vertexCount, 1, divisions);
  }

  lemma FirstRefinementMidpoints(faces: seq<int>, vertexCount: nat, j: nat)
    requires |faces| % 3 == 0 && j < |faces| / 3
    ensures |faces| + 12 * j + 2 < |RefinedAsWritten(faces, vertexCount, 1).0|
    ensures RefinedAsWritten(faces, vertexCount, 1).0[|faces| + 12 * j + 1] == MidpointAsWritten(vertexCount, j, 0)
    ensures RefinedAsWritten(faces, vertexCount, 1).0[|faces| + 12 * j + 2] == MidpointAsWritten(vertexCount, j, 2)
  {
    var n := |faces| / 3;
    var split := SplitAsWritten(faces, n, vertexCount);
    RefinedAsWrittenOnce(faces, vertexCount);
    SplitAsWrittenMidpoints(faces, n, vertexCount, j);
    var r := RefinedAsWritten(faces, vertexCount, 1).0;
    assert r == faces + split;
    assert r[|faces| + 12 * j + 1] == split[12 * j + 1];
    assert r[|faces| + 12 * j + 2] == split[12 * j + 2];
  }

  /** Entries 1 and 2 of the as-written split of face j are its midpoints (j, 0) and (j, 2). */
  lemma SplitAsWrittenMidpoints(faces: seq<int>, n: nat, vertexCount: nat, j: nat)
    requires j < n && 3 * n <= |faces|
    ensures 12 * j + 2 < |SplitAsWritten(faces, n, vertexCount)|
    ensures SplitAsWritten(faces, n, vertexCount)[12 * j + 1] == MidpointAsWritten(vertexCount, j, 0)
    ensures SplitAsWritten(faces, n, vertexCount)[12 * j + 2] == MidpointAsWritten(vertexCount, j, 2)
  {
    var split := SplitAsWritten(faces, n, vertexCount);
    SplitAsWrittenFace(faces, n, vertexCount, j);
    var cell := split[12 * j .. 12 * j + 12];
    assert split[12 * j + 1] == cell[1] && split[12 * j + 2] == cell[2];
  }

  /** The first as-written refinement appends the split of every starting face. */
  lemma RefinedAsWrittenOnce(faces: seq<int>, vertexCount: nat)
    requires |faces| % 3 == 0
    ensures RefinedAsWritten(faces, vertexCount, 1).0 == faces + SplitAsWritten(faces, |faces| / 3, vertexCount)
  {
    assert RefinedAsWritten(faces, vertexCount, 0) == (faces, vertexCount);
  }

  /**
   * Edge {0, 11} is edge v0v1 of face 0 and edge v2v0 of face 4 of the
   * icosahedron, so from the first as-written refinement on it has two
   * midpoint vertices, 12 and 26, where a shared midpoint was intended.
   */
  lemma IcosphereAsWrittenSplitsEdgesTwice(divisions: nat)
    requires divisions >= 1
    ensures {IcosahedronFace(0)[0], IcosahedronFace(0)[1]} == {IcosahedronFace(4)[2], IcosahedronFace(4)[0]} == {0, 11}
    ensures |RefinedAsWritten(Icosahedron(), 12, divisions).0| > 60 + 12 * 4 + 2
    ensures RefinedAsWritten(Icosahedron(), 12, divisions).0[60 + 1] == 12
    ensures RefinedAsWritten(Icosahedron(), 12, divisions).0[60 + 12 * 4 + 2] == 26
  {
    RefinedAsWrittenSplitsSharedEdges(Icosahedron(), 12, divisions, 0, 4);
  }

  /** The cache key of an edge: its endpoints in increasing order. */
  function EdgeKey(a: int, b: int): (k: (int, int))
    ensures k.0 <= k.1 && {k.0, k.1} == {a, b}
  {
    if a <= b then (a, b) else (b, a)
  }

  /** Every cached midpoint is an allocated vertex. */
  predicate CacheInRange(cache: map<(int, int), nat>, vertexCount: nat)
  {
    forall key :: key in cache ==> cache[key] < vertexCount
  }

  /** Distinct cached edges have distinct midpoint vertices. */
  predicate CacheInjective(cache: map<(int, int), nat>)
  {
    forall k1, k2 :: k1 in cache && k2 in cache && k1 != k2 ==> cache[k1] != cache[k2]
  }

  /** `cache'` keeps every entry of `cache`. */
  predicate CacheExtends(cache: map<(int, int), nat>, cache': map<(int, int), nat>)
  {
    forall key :: key in cache ==> key in cache' && cache'[key] == cache[key]
  }

  /**
   * The midpoint helper with its cache filled: an edge seen before, in either
   * direction, returns its vertex; a new edge gets the next vertex and is cached.
   */
  method MidPoint(a: int, b: int, cache: map<(int, int), nat>, vertexCount: nat)
    returns (m: nat, cache': map<(int, int), nat>, count: nat)
    requires CacheInRange(cache, vertexCount)
    ensures EdgeKey(a, b) in cache' && cache'[EdgeKey(a, b)] == m && m < count
    ensures EdgeKey(a, b) in cache ==> m == cache[EdgeKey(a, b)] && cache' == cache && count == vertexCount
    ensures EdgeKey(a, b) !in cache ==> m == vertexCount && count == vertexCount + 1
    ensures CacheExtends(cache, cache') && cache'.Keys == cache.Keys + {EdgeKey(a, b)}
    ensures CacheInRange(cache', count)
    ensures CacheInjective(cache) ==> CacheInjective(cache')
  {
    var key := EdgeKey(a, b);
    if key in cache {
      m, cache', count := cache[key], cache, vertexCount;
    } else {
      m, cache', count := vertexCount, cache[key := vertexCount], vertexCount + 1;
    }
  }

  /** Both directions of an edge share one cache entry, so both get the same midpoint. */
  lemma EdgeKeySymmetric(a: int, b: int)
    ensures EdgeKey(a, b) == EdgeKey(b, a)
  {
  }

  /** Two edges have the same key exactly when they have the same two ends. */
  lemma EdgeKeySameEdge(a: int, b: int, c: int, d: int)
    ensures EdgeKey(a, b) == EdgeKey(c, d) <==> {a, b} == {c, d}
  {
    if {a, b} == {c, d} {
      assert a in {c, d} && b in {c, d} && c in {a, b} && d in {a, b};
    }
  }

  /** The ends of edge t (0: v0v1, 1: v1v2, 2: v2v0) of face j. */
  function FaceEdge(faces: seq<int>, j: nat, t: nat): (e: set<int>)
    requires 3 * j + 2 < |faces| && t < 3
    ensures e == {faces[3 * j + t], faces[3 * j + (t + 1) % 3]}
  {
    {faces[3 * j + t], faces[3 * j + (t + 1) % 3]}
  }

  /** The cache key of edge t of face j. */
  function FaceEdgeKey(faces: seq<int>, j: nat, t: nat): (int, int)
    requires 3 * j + 2 < |faces| && t < 3
  {
    EdgeKey(faces[3 * j + t], faces[3 * j + (t + 1) % 3])
  }

  /** The position of the midpoint of edge t among the twelve entries of a split face. */
  function MidSlot(t: nat): (k: nat)
    requires t < 3
    ensures k < 12
  {
    if t == 0 then 1 else if t == 1 then 4 else 2
  }

  /**
   * `next` splits every face of `faces` into four, using for each edge the
   * midpoint the cache holds for it.
   */
  predicate SplitsWithCache(faces: seq<int>, next: seq<int>, cache: map<(int, int), nat>)
  {
    |faces| % 3 == 0 && |next| == 4 * |faces|
      && forall j :: 0 <= j < |faces| / 3 ==> SplitsFaceWithCache(faces, next, cache, j)
  }

  predicate SplitsFaceWithCache(faces: seq<int>, next: seq<int>, cache: map<(int, int), nat>, j: nat)
    requires 3 * j + 2 < |faces| && 12 * j + 12 <= |next|
  {
    FaceEdgeKey(faces, j, 0) in cache && FaceEdgeKey(faces, j, 1) in cache && FaceEdgeKey(faces, j, 2) in cache
      && next[12 * j .. 12 * j + 12]
         == SplitFace(faces[3 * j], faces[3 * j + 1], faces[3 * j + 2],
                      cache[FaceEdgeKey(faces, j, 0)], cache[FaceEdgeKey(faces, j, 1)], cache[FaceEdgeKey(faces, j, 2)])
  }

  /** The entry of a split face at `MidSlot(t)` is the cached midpoint of edge t. */
  lemma SplitFaceMidSlot(faces: seq<int>, next: seq<int>, cache: map<(int, int), nat>, j: nat, t: nat)
    requires 3 * j + 2 < |faces| && 12 * j + 12 <= |next| && t < 3
    requires SplitsFaceWithCache(faces, next, cache, j)
    ensures next[12 * j + MidSlot(t)] == cache[FaceEdgeKey(faces, j, t)]
  {
    assert next[12 * j + MidSlot(t)] == next[12 * j .. 12 * j + 12][MidSlot(t)];
  }

  /**
   * In a split with an injective cache, two face edges get the same midpoint
   * vertex exactly when they are the same undirected edge: a shared edge,
   * in either direction, is split once.
   */
  lemma SplitSharesMidpoints(faces: seq<int>, next: seq<int>, cache: map<(int, int), nat>,
                             j: nat, t: nat, j': nat, t': nat)
    requires SplitsWithCache(faces, next, cache) && CacheInjective(cache)
    requires j < |faces| / 3 && j' < |faces| / 3 && t < 3 && t' < 3
    ensures 12 * j + MidSlot(t) < |next| && 12 * j' + MidSlot(t') < |next|
    ensures next[12 * j + MidSlot(t)] == next[12 * j' + MidSlot(t')] <==> FaceEdge(faces, j, t) == FaceEdge(faces, j', t')
  {
    assert SplitsFaceWithCache(faces, next, cache, j);
    assert SplitsFaceWithCache(faces, next, cache, j');
    SplitFaceMidSlot(faces, next, cache, j, t);
    SplitFaceMidSlot(faces, next, cache, j', t');
    EdgeKeySameEdge(faces[3 * j + t], faces[3 * j + (t + 1) % 3], faces[3 * j' + t'], faces[3 * j' + (t' + 1) % 3]);
  }

  /**
   * The split of one face (v0, v1, v2): the midpoints of its three edges,
   * looked up or made in order v0v1, v1v2, v2v0, and its four children.
   */
  method SplitOneFace(v0: int, v1: int, v2: int, vertexCount: nat, cache: map<(int, int), nat>)
    returns (children: seq<int>, count: nat, cache': map<(int, int), nat>)
    requires 0 <= v0 < vertexCount && 0 <= v1 < vertexCount && 0 <= v2 < vertexCount
    requires CacheInRange(cache, vertexCount)
    ensures EdgeKey(v0, v1) in cache' && EdgeKey(v1, v2) in cache' && EdgeKey(v2, v0) in cache'
    ensures children == SplitFace(v0, v1, v2, cache'[EdgeKey(v0, v1)], cache'[EdgeKey(v1, v2)], cache'[EdgeKey(v2, v0)])
    ensures count >= vertexCount && IndicesInRange(children, count)
    ensures CacheInRange(cache', count) && CacheExtends(cache, cache')
    ensures CacheInjective(cache) ==> CacheInjective(cache')
  {
    var cache1, cache2, count1, count2;
    var a, b, c;
    a, cache1, count1 := MidPoint(v0, v1, cache, vertexCount);
    b, cache2, count2 := MidPoint(v1, v2, cache1, count1);
    c, cache', count := MidPoint(v2, v0, cache2, count2);
    CacheExtendsTrans(cache, cache1, cache2);
    CacheExtendsTrans(cache, cache2, cache');
    children := SplitFace(v0, v1, v2, a, b, c);
  }

  lemma CacheExtendsTrans(c0: map<(int, int), nat>, c1: map<(int, int), nat>, c2: map<(int, int), nat>)
    requires CacheExtends(c0, c1) && CacheExtends(c1, c2)
    ensures CacheExtends(c0, c2)
  {
  }

  /** Indices in range of a vertex count stay in range of a larger one. */
  lemma InRangeGrow(indices: seq<int>, vertexCount: nat, larger: nat)
    requires IndicesInRange(indices, vertexCount) && vertexCount <= larger
    ensures IndicesInRange(indices, larger)
  {
  }

  /** The corners of face j of faces in range are allocated vertices. */
  lemma FaceCornersInRange(faces: seq<int>, j: nat, vertexCount: nat, count: nat)
    requires 3 * j + 2 < |faces| && IndicesInRange(faces, vertexCount) && vertexCount <= count
    ensures 0 <= faces[3 * j] < count && 0 <= faces[3 * j + 1] < count && 0 <= faces[3 * j + 2] < count
  {
  }

  /**
   * The state of a refinement after its first j faces: their children are
   * `next`, over `count` vertices, with the cache grown from `cache` to `cache'`.
   */
  predicate Refining(faces: seq<int>, vertexCount: nat, cache: map<(int, int), nat>,
                     j: nat, next: seq<int>, count: nat, cache': map<(int, int), nat>)
  {
    3 * j <= |faces| && |next| == 12 * j && count >= vertexCount
      && IndicesInRange(next, count) && CacheInRange(cache', count)
      && CacheExtends(cache, cache') && (CacheInjective(cache) ==> CacheInjective(cache'))
      && forall i :: 0 <= i < j ==> SplitsFaceWithCache(faces, next, cache', i)
  }

  /** One corrected refinement step: each face is replaced by its four children. */
  method Refine(faces: seq<int>, vertexCount: nat, cache: map<(int, int), nat>)
    returns (next: seq<int>, count: nat, cache': map<(int, int), nat>)
    requires |faces| % 3 == 0 && IndicesInRange(faces, vertexCount) && CacheInRange(cache, vertexCount)
    ensures SplitsWithCache(faces, next, cache') && CacheExtends(cache, cache')
    ensures |next| == 4 * |faces| && |next| % 3 == 0
    ensures count >= vertexCount
    ensures IndicesInRange(next, count) && CacheInRange(cache', count)
    ensures CacheInjective(cache) ==> CacheInjective(cache')
  {
    next, count, cache' := [], vertexCount, cache;
    var n := |faces| / 3;
    var j := 0;
    while j < n
      invariant 0 <= j <= n
      invariant Refining(faces, vertexCount, cache, j, next, count, cache')
    {
      next, count, cache' := RefineNextFace(faces, vertexCount, cache, j, next, count, cache');
      j := j + 1;
    }
    RefiningDone(faces, vertexCount, cache, next, count, cache');
  }

  /** Splits face j, the next one, and appends its children. */
  method RefineNextFace(faces: seq<int>, vertexCount: nat, cache: map<(int, int), nat>,
                        j: nat, next: seq<int>, count: nat, cache': map<(int, int), nat>)
    returns (next2: seq<int>, count2: nat, cache2: map<(int, int), nat>)
    requires 3 * j + 3 <= |faces| && IndicesInRange(faces, vertexCount)
    requires Refining(faces, vertexCount, cache, j, next, count, cache')
    ensures Refining(faces, vertexCount, cache, j + 1, next2, count2, cache2)
  {
    FaceCornersInRange(faces, j, vertexCount, count);
    var children;
    children, count2, cache2 := SplitOneFace(faces[3 * j], faces[3 * j + 1], faces[3 * j + 2], count, cache');
    next2 := next + children;
    CacheExtendsTrans(cache, cache', cache2);
    InRangeGrow(next, count, count2);
    InRangeAppend(next, children, count2);
    RefineStep(faces, next, next2, cache', cache2, j);
  }

  /** A refinement that went through every face has split them all. */
  lemma RefiningDone(faces: seq<int>, vertexCount: nat, cache: map<(int, int), nat>,
                     next: seq<int>, count: nat, cache': map<(int, int), nat>)
    requires |faces| % 3 == 0 && Refining(faces, vertexCount, cache, |faces| / 3, next, count, cache')
    ensures SplitsWithCache(faces, next, cache') && |next| == 4 * |faces|
  {
  }

  /** Appending face j's split keeps the earlier faces split, under a cache that only grew. */
  lemma RefineStep(faces: seq<int>, before: seq<int>, next: seq<int>,
                   cache0: map<(int, int), nat>, cache': map<(int, int), nat>, j: nat)
    requires 3 * j + 2 < |faces| && |before| == 12 * j && CacheExtends(cache0, cache')
    requires forall i :: 0 <= i < j ==> SplitsFaceWithCache(faces, before, cache0, i)
    requires FaceEdgeKey(faces, j, 0) in cache' && FaceEdgeKey(faces, j, 1) in cache' && FaceEdgeKey(faces, j, 2) in cache'
    requires next == before + SplitFace(faces[3 * j], faces[3 * j + 1], faces[3 * j + 2],
                      cache'[FaceEdgeKey(faces, j, 0)], cache'[FaceEdgeKey(faces, j, 1)], cache'[FaceEdgeKey(faces, j, 2)])
    ensures forall i :: 0 <= i < j + 1 ==> SplitsFaceWithCache(faces, next, cache', i)
  {
    forall i | 0 <= i < j + 1
      ensures SplitsFaceWithCache(faces, next, cache', i)
    {
      if i < j {
        assert SplitsFaceWithCache(faces, before, cache0, i);
        assert next[12 * i .. 12 * i + 12] == before[12 * i .. 12 * i + 12];
      } else {
        assert next[12 * i .. 12 * i + 12] == next[|before| ..];
      }
    }
  }

  /**
   * `icosphere`, corrected: each refinement replaces every face by four and
   * reuses the midpoint of an edge already split, so d refinements give
   * 20 * 4^d faces, all over allocated vertices; the last refinement splits
   * the faces before it through one injective cache, so by
   * `SplitSharesMidpoints` two of those faces' edges share a midpoint
   * exactly when they are the same edge.
   */
  method Icosphere(divisions: nat, options: bv32) returns (mesh: Mesh)
    requires IsU32(divisions)
    ensures mesh.vertexCount >= 12
    ensures TestMaskBit(options, VERTICES) ==> mesh.indices == [] && mesh.primitive == Some(OpenGL.POINTS)
    ensures !TestMaskBit(options, VERTICES) ==>
      |mesh.indices| == 60 * Pow(4, divisions) && mesh.primitive == Some(OpenGL.TRIANGLES)
    ensures IndicesInRange(mesh.indices, mesh.vertexCount)
    ensures !TestMaskBit(options, VERTICES) && divisions >= 1 ==>
      exists faces, cache :: SplitsWithCache(faces, mesh.indices, cache) && CacheInjective(cache)
  {
    var indices := Icosahedron();
    var count := 12;
    var cache: map<(int, int), nat> := map[];
    ghost var previous: seq<int> := [];
    var i := 0;
    while i < divisions
      invariant 0 <= i <= divisions
      invariant |indices| == 60 * Pow(4, i) && count >= 12
      invariant IndicesInRange(indices, count) && CacheInRange(cache, count) && CacheInjective(cache)
      invariant i >= 1 ==> SplitsWithCache(previous, indices, cache)
    {
      previous := indices;
      indices, count, cache := Refine(indices, count, cache);
      i := i + 1;
    }
    var kind := if TestMaskBit(options, VERTICES) then OpenGL.POINTS else OpenGL.TRIANGLES;
    mesh := Mesh(count, if TestMaskBit(options, VERTICES) then [] else indices, Some(kind));
  }

  // ---------------------------------------------------------------------------
  // convert

  /** Whether `convert` rebuilds the elements as edges: wireframe asked for a model that is not already points or lines. */
  predicate WireframePath(kind: OpenGL.PrimitiveKind, options: bv32)
  {
    TestMaskBit(options, WIREFRAME)
      && kind != OpenGL.LINES && kind != OpenGL.POINTS && kind != OpenGL.LINE_LOOP && kind != OpenGL.LINE_STRIP
  }

  /** Indices per element: four for quads, three for everything else. */
  function ElementSize(kind: OpenGL.PrimitiveKind): (r: nat)
    ensures r == 3 || r == 4
    ensures r == 4 <==> kind == OpenGL.QUADS
  {
    if kind == OpenGL.QUADS then 4 else 3
  }

  /** The corner after corner k of an n-corner face, wrapping to the first. */
  function NextCorner(k: nat, n: nat): nat
  {
    if k + 1 == n then 0 else k + 1
  }

  lemma NextCornerIsMod(k: nat, n: nat)
    requires k < n
    ensures (k + 1) % n == NextCorner(k, n)
  {
  }

  /** The sides of a face leaving its first k corners, each as an undirected edge. */
  function FaceEdgesFrom(face: seq<int>, k: nat): set<(int, int)>
    requires k <= |face|
  {
    if k == 0 then {} else FaceEdgesFrom(face, k - 1) + {EdgeKey(face[k - 1], face[NextCorner(k - 1, |face|)])}
  }

  /** The closed border of one face as a set of undirected edges. */
  function FaceEdges(face: seq<int>): set<(int, int)>
  {
    FaceEdgesFrom(face, |face|)
  }

  lemma {:induction false} FaceEdgesFromMembers(face: seq<int>, k: nat)
    requires k <= |face|
    ensures forall j :: 0 <= j < k ==> EdgeKey(face[j], face[NextCorner(j, |face|)]) in FaceEdgesFrom(face, k)
    ensures forall e :: e in FaceEdgesFrom(face, k) ==>
      exists j :: 0 <= j < k && e == EdgeKey(face[j], face[NextCorner(j, |face|)])
  {
    if k > 0 {
      FaceEdgesFromMembers(face, k - 1);
    }
  }

  /**
   * A face border holds the side between each pair of consecutive corners and
   * the closing side back to the first corner, and nothing else.
   */
  lemma FaceEdgesBorder(face: seq<int>)
    ensures |face| > 0 ==> EdgeKey(face[|face| - 1], face[0]) in FaceEdges(face)
    ensures forall k :: 0 <= k < |face| - 1 ==> EdgeKey(face[k], face[k + 1]) in FaceEdges(face)
    ensures forall e :: e in FaceEdges(face) ==>
      exists k :: 0 <= k < |face| && e == EdgeKey(face[k], face[NextCorner(k, |face|)])
  {
    FaceEdgesFromMembers(face, |face|);
    forall k | 0 <= k < |face| - 1 ensures EdgeKey(face[k], face[k + 1]) in FaceEdges(face) {
      assert NextCorner(k, |face|) == k + 1;
    }
  }

  /** The index list holds at least `count` faces of `size` indices. */
  predicate HasFaces(len: nat, count: nat, size: nat)
  {
    count == 0 || (size <= len && HasFaces(len - size, count - 1, size))
  }

  lemma {:induction false} HasFacesMeans(len: nat, count: nat, size: nat)
    ensures HasFaces(len, count, size) <==> count * size <= len
  {
    if count > 0 {
      if size <= len {
        HasFacesMeans(len - size, count - 1, size);
      } else {
        MulAtLeast(count, size);
      }
    }
  }

  /** The edges of the first `count` faces of `size` indices each. */
  function EdgesOf(indices: seq<int>, count: nat, size: nat): set<(int, int)>
  {
    if count == 0 || |indices| < size then {} else FaceEdges(indices[..size]) + EdgesOf(indices[size..], count - 1, size)
  }

  /** The inner loop: the sides of one face, corner k to corner (k + 1) % size. */
  method AddFaceEdges(edges: set<(int, int)>, indices: seq<int>, base: nat, size: nat) returns (edges': set<(int, int)>)
    requires size > 0 && base + size <= |indices|
    ensures edges' == edges + FaceEdges(indices[base..base + size])
  {
    ghost var face := indices[base..base + size];
    edges' := edges;
    var k := 0;
    while k < size
      invariant 0 <= k <= size
      invariant edges' == edges + FaceEdgesFrom(face, k)
    {
      NextCornerIsMod(k, size);
      var a := indices[base + k];
      var b := indices[base + (k + 1) % size];
      edges' := edges' + {EdgeKey(a, b)};
      k := k + 1;
    }
  }

  lemma EdgesOfStep(indices: seq<int>, base: nat, remaining: nat, size: nat)
    requires remaining > 0 && base + size <= |indices|
    ensures EdgesOf(indices[base..], remaining, size)
      == FaceEdges(indices[base..base + size]) + EdgesOf(indices[base + size..], remaining - 1, size)
  {
    assert indices[base..][..size] == indices[base..base + size];
    assert indices[base..][size..] == indices[base + size..];
  }

  /** The edge loop over the elements of a model: every face border, as (min, max) pairs. */
  method CollectEdges(indices: seq<int>, count: nat, size: nat) returns (edges: set<(int, int)>)
    requires size > 0 && HasFaces(|indices|, count, size)
    ensures edges == EdgesOf(indices, count, size)
  {
    edges := {};
    var base := 0;
    var e := 0;
    assert indices[base..] == indices;
    while e < count
      invariant 0 <= e <= count && base <= |indices|
      invariant HasFaces(|indices| - base, count - e, size)
      invariant edges + EdgesOf(indices[base..], count - e, size) == EdgesOf(indices, count, size)
    {
      EdgesOfStep(indices, base, count - e, size);
      ghost var face := FaceEdges(indices[base..base + size]);
      ghost var rest := EdgesOf(indices[base + size..], count - e - 1, size);
      ghost var before := edges;
      assert before + (face + rest) == EdgesOf(indices, count, size);
      edges := AddFaceEdges(edges, indices, base, size);
      assert edges + rest == before + (face + rest);
      base := base + size;
      e := e + 1;
    }
  }

  /** Lexicographic order on pairs, the order `std::set` iterates them in. */
  predicate PairLess(a: (int, int), b: (int, int))
  {
    a.0 < b.0 || (a.0 == b.0 && a.1 < b.1)
  }

  predicate StrictlyIncreasing(s: seq<(int, int)>)
  {
    forall i, j :: 0 <= i < j < |s| ==> PairLess(s[i], s[j])
  }

  lemma {:induction false} MinimumExists(s: set<(int, int)>)
    requires s != {}
    ensures exists m :: m in s && forall x :: x in s && x != m ==> PairLess(m, x)
  {
    var y :| y in s;
    if s - {y} == {} {
      assert s == {y};
    } else {
      MinimumExists(s - {y});
      var m :| m in s - {y} && forall x :: x in s - {y} && x != m ==> PairLess(m, x);
      if PairLess(m, y) {
        forall x | x in s && x != m ensures PairLess(m, x) {
          if x != y {
            assert x in s - {y};
          }
        }
      } else {
        forall x | x in s && x != y ensures PairLess(y, x) {
          if x != m {
            assert x in s - {y};
          }
        }
      }
    }
  }

  /** The iteration of a `std::set` of pairs: each member once, in increasing order. */
  method SortedListing(s: set<(int, int)>) returns (r: seq<(int, int)>)
    ensures StrictlyIncreasing(r)
    ensures |r| == |s|
    ensures forall x :: x in s <==> x in r
  {
    r := [];
    var rest := s;
    while rest != {}
      invariant rest <= s
      invariant StrictlyIncreasing(r)
      invariant |r| + |rest| == |s|
      invariant forall x :: x in s <==> x in r || x in rest
      invariant forall x, i :: x in rest && 0 <= i < |r| ==> PairLess(r[i], x)
      decreases |rest|
    {
      MinimumExists(rest);
      var m :| m in rest && forall x :: x in rest && x != m ==> PairLess(m, x);
      r := r + [m];
      rest := rest - {m};
    }
  }

  /** Pairs flattened into an index list. */
  function Flatten(pairs: seq<(int, int)>): (r: seq<int>)
    ensures |r| == 2 * |pairs|
    ensures forall i :: 0 <= i < |pairs| ==> r[2 * i] == pairs[i].0 && r[2 * i + 1] == pairs[i].1
  {
    if pairs == [] then [] else [pairs[0].0, pairs[0].1] + Flatten(pairs[1..])
  }

  /** The input of `convert` seen through its topology: the model's indices, vertex count and primitive type. */
  predicate ConvertAllowed(indices: seq<int>, vertexCount: nat, kind: OpenGL.PrimitiveKind, options: bv32)
  {
    (forall k :: 0 <= k < |indices| ==> indices[k] >= 0)
      && (WireframePath(kind, options) ==>
            SceneModel.ElementCountOf(kind, SceneModel.IndexCount(indices, vertexCount)) * ElementSize(kind) <= |indices|)
  }

  /**
   * `convert`, on topology. On the wireframe path the output lists every
   * undirected edge of the input faces once, in increasing order, as lines;
   * with `unique_positions` the vertex count becomes two per edge (or one per
   * input index when there are no edges), otherwise it is kept; without edges
   * and without `unique_positions` the input indices are kept.
   */
  method Convert(indices: seq<int>, vertexCount: nat, kind: OpenGL.PrimitiveKind, options: bv32)
    returns (mesh: Mesh, ghost edges: set<(int, int)>)
    requires ConvertAllowed(indices, vertexCount, kind, options)
    ensures var count := SceneModel.ElementCountOf(kind, SceneModel.IndexCount(indices, vertexCount));
      edges == if WireframePath(kind, options) then EdgesOf(indices, count, ElementSize(kind)) else {}
    ensures mesh.primitive == Some(if WireframePath(kind, options) then OpenGL.LINES else kind)
    ensures mesh.vertexCount == if !TestMaskBit(options, UNIQUE_POSITIONS) then vertexCount
                                else if edges == {} then |indices| else 2 * |edges|
    ensures edges == {} && !TestMaskBit(options, UNIQUE_POSITIONS) ==> mesh.indices == indices
    ensures edges == {} && TestMaskBit(options, UNIQUE_POSITIONS) ==> mesh.indices == []
    ensures edges != {} ==> exists listing :: (StrictlyIncreasing(listing) && |listing| == |edges|
      && (forall x :: x in edges <==> x in listing) && mesh.indices == Flatten(listing))
    ensures IndicesInRange(indices, vertexCount) && !TestMaskBit(options, UNIQUE_POSITIONS) ==>
      IndicesInRange(mesh.indices, mesh.vertexCount)
  {
    var edgeSet: set<(int, int)> := {};
    var primitive := kind;
    if WireframePath(kind, options) {
      var size := ElementSize(kind);
      var count := SceneModel.ElementCountOf(kind, SceneModel.IndexCount(indices, vertexCount));
      HasFacesMeans(|indices|, count, size);
      edgeSet := CollectEdges(indices, count, size);
      primitive := OpenGL.LINES;
    }
    edges := edgeSet;
    var convertedCount := vertexCount;
    if TestMaskBit(options, UNIQUE_POSITIONS) {
      convertedCount := if edgeSet == {} then |indices| else |edgeSet| * 2;
    }
    var out: seq<int> := [];
    if edgeSet == {} && !TestMaskBit(options, UNIQUE_POSITIONS) {
      out := indices;
    } else if edgeSet != {} {
      var listing := SortedListing(edgeSet);
      out := Flatten(listing);
      if IndicesInRange(indices, vertexCount) && !TestMaskBit(options, UNIQUE_POSITIONS) {
        EdgesOfInRange(indices, SceneModel.ElementCountOf(kind, SceneModel.IndexCount(indices, vertexCount)), ElementSize(kind), vertexCount);
        forall i | 0 <= i < |listing|
          ensures 0 <= listing[i].0 < vertexCount && 0 <= listing[i].1 < vertexCount
        {
          assert listing[i] in edgeSet;
        }
        FlattenInRange(listing, vertexCount);
      }
    }
    mesh := Mesh(convertedCount, out, Some(primitive));
  }

  /** Edges are (min, max) pairs of the input indices, so listing them keeps every index the input had in range. */
  lemma {:induction false} EdgesOfInRange(indices: seq<int>, count: nat, size: nat, vertexCount: nat)
    requires HasFaces(|indices|, count, size) && IndicesInRange(indices, vertexCount)
    ensures forall e :: e in EdgesOf(indices, count, size) ==> 0 <= e.0 <= e.1 < vertexCount
  {
    if count > 0 {
      InRangeParts(indices, size, vertexCount);
      EdgesOfInRange(indices[size..], count - 1, size, vertexCount);
      FaceEdgesInRange(indices[..size], vertexCount);
    }
  }

  lemma InRangeParts(indices: seq<int>, i: nat, vertexCount: nat)
    requires i <= |indices| && IndicesInRange(indices, vertexCount)
    ensures IndicesInRange(indices[..i], vertexCount) && IndicesInRange(indices[i..], vertexCount)
  {
    assert forall k :: 0 <= k < |indices| - i ==> indices[i..][k] == indices[i + k];
  }

  /** The border edges of a face over allocated vertices join allocated vertices. */
  lemma FaceEdgesInRange(face: seq<int>, vertexCount: nat)
    requires IndicesInRange(face, vertexCount)
    ensures forall e :: e in FaceEdges(face) ==> 0 <= e.0 <= e.1 < vertexCount
  {
    forall e | e in FaceEdges(face) ensures 0 <= e.0 <= e.1 < vertexCount {
      FaceEdgesBorder(face);
      var k :| 0 <= k < |face| && e == EdgeKey(face[k], face[NextCorner(k, |face|)]);
    }
  }

  /** A listing of edges in range flattens to indices in range. */
  lemma {:induction false} FlattenInRange(listing: seq<(int, int)>, vertexCount: nat)
    requires forall i :: 0 <= i < |listing| ==> 0 <= listing[i].0 < vertexCount && 0 <= listing[i].1 < vertexCount
    ensures IndicesInRange(Flatten(listing), vertexCount)
  {
    if listing != [] {
      var rest := listing[1..];
      assert forall i :: 0 <= i < |rest| ==> rest[i] == listing[i + 1];
      FlattenInRange(rest, vertexCount);
      InRangeAppend([listing[0].0, listing[0].1], Flatten(rest), vertexCount);
    }
  }

  lemma InRangeAppend(a: seq<int>, b: seq<int>, vertexCount: nat)
    requires IndicesInRange(a, vertexCount) && IndicesInRange(b, vertexCount)
    ensures IndicesInRange(a + b, vertexCount)
  {
    forall k | 0 <= k < |a + b| ensures 0 <= (a + b)[k] < vertexCount {
      if k >= |a| {
        assert (a + b)[k] == b[k - |a|];
      }
    }
  }

  /** Listing the same edge set twice gives the same list: the increasing listing is unique. */
  lemma {:induction false} SortedListingUnique(a: seq<(int, int)>, b: seq<(int, int)>)
    requires StrictlyIncreasing(a) && StrictlyIncreasing(b)
    requires forall x :: x in a <==> x in b
    ensures a == b
    decreases |a|
  {
    assert |a| == 0 <==> |b| == 0 by {
      if |a| > 0 { assert a[0] in a; }
      if |b| > 0 { assert b[0] in b; }
    }
    if a != [] {
      assert a[0] == b[0] by {
        assert a[0] in b && b[0] in a;
      }
      forall x ensures x in a[1..] <==> x in b[1..] {
        if x in a[1..] {
          var i :| 0 <= i < |a| - 1 && a[1..][i] == x;
          assert PairLess(a[0], a[i + 1]);
          assert x in b;
          var j :| 0 <= j < |b| && b[j] == x;
          assert b[1..][j - 1] == x;
        }
        if x in b[1..] {
          var i :| 0 <= i < |b| - 1 && b[1..][i] == x;
          assert PairLess(b[0], b[i + 1]);
          assert x in a;
          var j :| 0 <= j < |a| && a[j] == x;
          assert a[1..][j - 1] == x;
        }
      }
      SortedListingUnique(a[1..], b[1..]);
      assert a == [a[0]] + a[1..] && b == [b[0]] + b[1..];
    }
  }
}
