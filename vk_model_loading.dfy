/**
 * Host-side vertex building of `circe::vk::Model` (circe/vk/scene/scene_model.cpp):
 * `addVertex`, which appends one interleaved vertex following a `VertexLayout`,
 * and the de-duplication inside `Model::loadFromOBJ`, which numbers distinct
 * vertices in order of first appearance. Float arithmetic is modelled on reals;
 * the OBJ parser's output (positions, texture coordinates, per-shape corner
 * indices) is an input, and the device upload of `loadFromData` is left out.
 */
module VkModelLoading {
  import opened Wrappers
  import opened VkVertexLayout

  datatype Vec2 = Vec2(x: real, y: real)
  datatype Vec3 = Vec3(x: real, y: real, z: real)

  const ZERO3: Vec3 := Vec3(0.0, 0.0, 0.0)
  const ONE3: Vec3 := Vec3(1.0, 1.0, 1.0)
  const ONE2: Vec2 := Vec2(1.0, 1.0)

  /** The file-local `Vertex` record. */
  datatype Vertex = Vertex(pos: Vec3, color: Vec3, texCoord: Vec2, normal: Vec3, tangent: Vec3, bitangent: Vec3)

  /** The fields `Vertex::operator==` compares: two vertices are the same map key when these agree. */
  datatype VertexKey = VertexKey(pos: Vec3, color: Vec3, texCoord: Vec2)

  /**
   * The values `addVertex` writes: the position scaled, shifted and with its y
   * negated, the normal with its y negated, the texture coordinates scaled.
   */
  function Transformed(v: Vertex, uvScale: Vec2, scale: Vec3, center: Vec3): Vertex
  {
    v.(pos := Vec3(v.pos.x * scale.x + center.x, -v.pos.y * scale.y + center.y, v.pos.z * scale.z + center.z),
       normal := Vec3(v.normal.x, -v.normal.y, v.normal.z),
       texCoord := Vec2(v.texCoord.x * uvScale.x, v.texCoord.y * uvScale.y))
  }

  /** The floats `addVertex` appends for one component of an already transformed vertex. */
  function ComponentFloats(c: Component, v: Vertex): (r: seq<real>)
    ensures |r| == FloatCount(c)
  {
    match c
    case Position => [v.pos.x, v.pos.y, v.pos.z]
    case Normal => [v.normal.x, v.normal.y, v.normal.z]
    case UV => [v.texCoord.x, v.texCoord.y]
    case Color => [v.color.x, v.color.y, v.color.z]
    case Tangent => [v.tangent.x, v.tangent.y, v.tangent.z]
    case Bitangent => [v.bitangent.x, v.bitangent.y, v.bitangent.z]
    case DummyFloat => [0.0]
    case DummyVec4 => [0.0, 0.0, 0.0, 0.0]
  }

  /** The padding components are written as zeros whatever the vertex holds. */
  lemma DummyComponentsAreZero(c: Component, v: Vertex)
    requires c == DummyFloat || c == DummyVec4
    ensures forall k :: 0 <= k < |ComponentFloats(c, v)| ==> ComponentFloats(c, v)[k] == 0.0
  {
  }

  /** One whole interleaved vertex: the component floats in layout order. */
  function VertexFloats(cs: seq<Component>, v: Vertex): (r: seq<real>)
    ensures 4 * |r| == StrideOf(cs)
  {
    if cs == [] then []
    else VertexFloats(cs[..|cs| - 1], v) + ComponentFloats(cs[|cs| - 1], v)
  }

  lemma VertexFloatsSnoc(cs: seq<Component>, i: nat, v: Vertex)
    requires i < |cs|
    ensures VertexFloats(cs[..i + 1], v) == VertexFloats(cs[..i], v) + ComponentFloats(cs[i], v)
  {
    assert cs[..i + 1][..i] == cs[..i];
  }

  lemma AppendAssoc(a: seq<real>, b: seq<real>, c: seq<real>)
    ensures (a + b) + c == a + (b + c)
  {
  }

  lemma {:induction false} VertexFloatsAppend(a: seq<Component>, b: seq<Component>, v: Vertex)
    ensures VertexFloats(a + b, v) == VertexFloats(a, v) + VertexFloats(b, v)
    decreases |b|
  {
    if b == [] {
      assert a + b == a;
    } else {
      var b' := b[..|b| - 1];
      var last := ComponentFloats(b[|b| - 1], v);
      AppendLast(a, b);
      VertexFloatsAppend(a, b', v);
      AppendAssoc(VertexFloats(a, v), VertexFloats(b', v), last);
    }
  }

  /** The last element of `a + b`, for a non-empty `b`, is `b`'s. */
  lemma AppendLast(a: seq<Component>, b: seq<Component>)
    requires b != []
    ensures (a + b)[..|a + b| - 1] == a + b[..|b| - 1]
    ensures (a + b)[|a + b| - 1] == b[|b| - 1]
  {
  }

  /**
   * The floats of a present component sit where `componentOffset` says: at float
   * position offset/4, for as many floats as the component has.
   */
  lemma ComponentFloatsAtOffset(cs: seq<Component>, c: Component, v: Vertex)
    requires c in cs
    ensures OffsetOf(cs, c) % 4 == 0
    ensures OffsetOf(cs, c) / 4 + FloatCount(c) <= |VertexFloats(cs, v)|
    ensures VertexFloats(cs, v)[OffsetOf(cs, c) / 4..OffsetOf(cs, c) / 4 + FloatCount(c)]
            == ComponentFloats(c, v)
  {
    var i := FirstIndex(cs, c);
    var before := VertexFloats(cs[..i], v);
    VertexFloatsSplit(cs, i, v);
    DivModUnique(OffsetOf(cs, c), 4, |before|, 0);
    SliceMiddle(before, ComponentFloats(c, v), VertexFloats(cs[i + 1..], v));
  }

  /** A vertex's floats are those before entry `i`, then entry `i`'s, then those after it. */
  lemma VertexFloatsSplit(cs: seq<Component>, i: nat, v: Vertex)
    requires i < |cs|
    ensures VertexFloats(cs, v) == VertexFloats(cs[..i], v) + ComponentFloats(cs[i], v) + VertexFloats(cs[i + 1..], v)
  {
    VertexFloatsSnoc(cs, i, v);
    assert cs == cs[..i + 1] + cs[i + 1..];
    VertexFloatsAppend(cs[..i + 1], cs[i + 1..], v);
  }

  lemma SliceMiddle(a: seq<real>, b: seq<real>, c: seq<real>)
    ensures (a + b + c)[|a|..|a| + |b|] == b
  {
  }

  /**
   * `addVertex`: appends, component by component in layout order, the floats of
   * one vertex (position scaled and shifted with its y negated, normal with its
   * y negated, texture coordinates scaled, zeros for the dummy components).
   */
  method AddVertex(vertices: seq<real>, layout: VertexLayout, v: Vertex, uvScale: Vec2, scale: Vec3, center: Vec3)
    returns (r: seq<real>)
    ensures r == vertices + VertexFloats(layout.components, Transformed(v, uvScale, scale, center))
  {
    var cs := layout.components;
    var t := Transformed(v, uvScale, scale, center);
    r := vertices;
    var i := 0;
    while i < |cs|
      invariant 0 <= i <= |cs|
      invariant r == vertices + VertexFloats(cs[..i], t)
    {
      VertexFloatsSnoc(cs, i, t);
      AppendAssoc(vertices, VertexFloats(cs[..i], t), ComponentFloats(cs[i], t));
      r := r + ComponentFloats(cs[i], t);
      i := i + 1;
    }
    assert cs[..i] == cs;
  }

  // ---------------------------------------------------------------------------
  // Unique-vertex indexing in loadFromOBJ
  // ---------------------------------------------------------------------------

  /** A `tinyobj::index_t`: the position and texture-coordinate indices of one face corner. */
  datatype ObjIndex = ObjIndex(vertexIndex: int, texcoordIndex: int)

  /** The corner's reads of `attrib.vertices` and `attrib.texcoords` stay inside the arrays. */
  predicate ValidCorner(positions: seq<real>, texcoords: seq<real>, idx: ObjIndex)
  {
    0 <= idx.vertexIndex && 3 * idx.vertexIndex + 2 < |positions| &&
    0 <= idx.texcoordIndex && 2 * idx.texcoordIndex + 1 < |texcoords|
  }

  /** The key of the vertex `loadFromOBJ` builds for a corner: y and v flipped, colour white. */
  function CornerKey(positions: seq<real>, texcoords: seq<real>, idx: ObjIndex): VertexKey
    requires ValidCorner(positions, texcoords, idx)
  {
    var p := 3 * idx.vertexIndex;
    var t := 2 * idx.texcoordIndex;
    VertexKey(Vec3(positions[p], -positions[p + 1], positions[p + 2]), ONE3, Vec2(texcoords[t], 1.0 - texcoords[t + 1]))
  }

  /** The full vertex: a value-initialised `Vertex` with only the key fields set. */
  function LoadedVertex(key: VertexKey): Vertex
  {
    Vertex(key.pos, key.color, key.texCoord, ZERO3, ZERO3, ZERO3)
  }

  /** What `loadFromOBJ` hands to `addVertex` for a key: unit scales and a zero center. */
  function LoadedFloats(cs: seq<Component>, key: VertexKey): (r: seq<real>)
    ensures 4 * |r| == StrideOf(cs)
  {
    VertexFloats(cs, Transformed(LoadedVertex(key), ONE2, ONE3, ZERO3))
  }

  /**
   * The y flip made while reading the corner and the one `addVertex` makes cancel:
   * a loaded vertex's stored position is the file's position, and its texture
   * coordinates are (u, 1 - v).
   */
  lemma LoadedPositionIsFilePosition(positions: seq<real>, texcoords: seq<real>, idx: ObjIndex)
    requires ValidCorner(positions, texcoords, idx)
    ensures var t := Transformed(LoadedVertex(CornerKey(positions, texcoords, idx)), ONE2, ONE3, ZERO3);
      var p := 3 * idx.vertexIndex;
      var q := 2 * idx.texcoordIndex;
      t.pos == Vec3(positions[p], positions[p + 1], positions[p + 2]) &&
      t.texCoord == Vec2(texcoords[q], 1.0 - texcoords[q + 1]) &&
      t.color == ONE3 && t.normal == ZERO3
  {
  }

  /** The corners of all shapes, shape by shape. */
  function Corners(shapes: seq<seq<ObjIndex>>): seq<ObjIndex>
  {
    if shapes == [] then [] else Corners(shapes[..|shapes| - 1]) + shapes[|shapes| - 1]
  }

  predicate ValidCorners(positions: seq<real>, texcoords: seq<real>, corners: seq<ObjIndex>)
  {
    forall k :: 0 <= k < |corners| ==> ValidCorner(positions, texcoords, corners[k])
  }

  function CornerKeys(positions: seq<real>, texcoords: seq<real>, corners: seq<ObjIndex>): (r: seq<VertexKey>)
    requires ValidCorners(positions, texcoords, corners)
    ensures |r| == |corners|
    ensures forall k :: 0 <= k < |corners| ==> r[k] == CornerKey(positions, texcoords, corners[k])
  {
    seq(|corners|, k requires 0 <= k < |corners| => CornerKey(positions, texcoords, corners[k]))
  }

  predicate NoDuplicates(s: seq<VertexKey>)
  {
    forall i, j :: 0 <= i < j < |s| ==> s[i] != s[j]
  }

  /** The distinct elements of `s` in order of first appearance. */
  function Distinct(s: seq<VertexKey>): (r: seq<VertexKey>)
    ensures |r| <= |s|
  {
    if s == [] then []
    else
      var p := Distinct(s[..|s| - 1]);
      if s[|s| - 1] in p then p else p + [s[|s| - 1]]
  }

  /** `Distinct` keeps exactly the elements of its input, each once. */
  lemma {:induction false} DistinctMembers(s: seq<VertexKey>)
    ensures forall x :: x in Distinct(s) <==> x in s
    ensures NoDuplicates(Distinct(s))
  {
    if s != [] {
      DistinctMembers(s[..|s| - 1]);
      assert s == s[..|s| - 1] + [s[|s| - 1]];
    }
  }

  /** The position of the first `x` in `s`, or `|s|` when `x` does not occur. */
  function IndexIn(s: seq<VertexKey>, x: VertexKey): (r: nat)
    ensures r <= |s|
    ensures r < |s| <==> x in s
    ensures r < |s| ==> s[r] == x
  {
    if s == [] then 0
    else if s[0] == x then 0
    else
      assert s == [s[0]] + s[1..];
      1 + IndexIn(s[1..], x)
  }

  /** No earlier position holds `x`. */
  lemma {:induction false} IndexInFirst(s: seq<VertexKey>, x: VertexKey, j: nat)
    requires j < IndexIn(s, x)
    ensures s[j] != x
  {
    if j > 0 {
      IndexInFirst(s[1..], x, j - 1);
    }
  }

  lemma {:induction false} IndexInAppend(s: seq<VertexKey>, y: VertexKey, x: VertexKey)
    requires x in s
    ensures IndexIn(s + [y], x) == IndexIn(s, x)
  {
    if s[0] != x {
      assert (s + [y])[1..] == s[1..] + [y];
      IndexInAppend(s[1..], y, x);
    }
  }

  /** A new element appended at the end is found at the end. */
  lemma {:induction false} IndexInAppendNew(s: seq<VertexKey>, y: VertexKey)
    requires y !in s
    ensures IndexIn(s + [y], y) == |s|
  {
    if s != [] {
      assert (s + [y])[1..] == s[1..] + [y];
      IndexInAppendNew(s[1..], y);
    }
  }

  /** The distinct elements of a prefix come first among those of the whole sequence. */
  lemma {:induction false} DistinctPrefix(s: seq<VertexKey>, i: nat)
    requires i <= |s|
    ensures |Distinct(s[..i])| <= |Distinct(s)|
    ensures Distinct(s)[..|Distinct(s[..i])|] == Distinct(s[..i])
    decreases |s| - i
  {
    if i < |s| {
      DistinctPrefix(s, i + 1);
      assert s[..i + 1][..i] == s[..i];
    } else {
      assert s[..i] == s;
    }
  }

  /** The host vertex data: the floats of each distinct vertex, in order. */
  function VerticesOf(cs: seq<Component>, keys: seq<VertexKey>): seq<real>
  {
    if keys == [] then []
    else VerticesOf(cs, keys[..|keys| - 1]) + LoadedFloats(cs, keys[|keys| - 1])
  }

  lemma LoadedFloatsLength(cs: seq<Component>, key: VertexKey)
    ensures 4 * |LoadedFloats(cs, key)| == StrideOf(cs)
  {
  }

  /** Each distinct vertex contributes one stride's worth of floats. */
  lemma {:induction false} VerticesOfLength(cs: seq<Component>, keys: seq<VertexKey>)
    ensures |VerticesOf(cs, keys)| == |keys| * (StrideOf(cs) / 4)
  {
    if keys != [] {
      var n, width := |keys| - 1, StrideOf(cs) / 4;
      var last := LoadedFloats(cs, keys[n]);
      LoadedFloatsLength(cs, keys[n]);
      assert |last| == width;
      VerticesOfLength(cs, keys[..n]);
      assert VerticesOf(cs, keys) == VerticesOf(cs, keys[..n]) + last;
      MulSucc(n, width);
    }
  }

  /** Two corners get the same output index exactly when their vertex keys are equal. */
  lemma SameIndexIffSameKey(keys: seq<VertexKey>, j: nat, k: nat)
    requires j < |keys| && k < |keys|
    ensures IndexIn(Distinct(keys), keys[j]) == IndexIn(Distinct(keys), keys[k]) <==> keys[j] == keys[k]
  {
    DistinctMembers(keys);
  }

  /**
   * A corner whose key has not appeared before gets, as its index, the number of
   * distinct vertices emitted before it.
   */
  lemma FreshKeyGetsNextIndex(keys: seq<VertexKey>, k: nat)
    requires k < |keys| && keys[k] !in keys[..k]
    ensures IndexIn(Distinct(keys), keys[k]) == |Distinct(keys[..k])|
  {
    var d := Distinct(keys[..k]);
    DistinctMembers(keys[..k]);
    assert keys[..k + 1][..k] == keys[..k];
    assert Distinct(keys[..k + 1]) == d + [keys[k]];
    DistinctPrefix(keys, k + 1);
    var full := Distinct(keys);
    var n := |d|;
    assert full[n] == keys[k];
    var i := IndexIn(full, keys[k]);
    if n < i {
      IndexInFirst(full, keys[k], n);
    }
  }

  /** Every emitted index names an existing distinct vertex. */
  lemma IndicesBelowVertexCount(keys: seq<VertexKey>, k: nat)
    requires k < |keys|
    ensures IndexIn(Distinct(keys), keys[k]) < |Distinct(keys)|
  {
    DistinctMembers(keys);
  }

  /** The output index of each key of `s`: its position among the distinct keys `d`. */
  function IndicesOf(d: seq<VertexKey>, s: seq<VertexKey>): (r: seq<nat>)
    ensures |r| == |s|
  {
    if s == [] then [] else IndicesOf(d, s[..|s| - 1]) + [IndexIn(d, s[|s| - 1])]
  }

  lemma {:induction false} IndicesOfAt(d: seq<VertexKey>, s: seq<VertexKey>, k: nat)
    requires k < |s|
    ensures IndicesOf(d, s)[k] == IndexIn(d, s[k])
  {
    if k < |s| - 1 {
      IndicesOfAt(d, s[..|s| - 1], k);
    }
  }

  /** Appending a new distinct key renumbers none of the keys already present. */
  lemma {:induction false} IndicesOfExtend(d: seq<VertexKey>, y: VertexKey, s: seq<VertexKey>)
    requires forall x :: x in s ==> x in d
    ensures IndicesOf(d + [y], s) == IndicesOf(d, s)
  {
    if s != [] {
      var s' := s[..|s| - 1];
      assert forall x :: x in s' ==> x in s;
      IndicesOfExtend(d, y, s');
      IndexInAppend(d, y, s[|s| - 1]);
    }
  }

  /** The `unique_vertices` map built from the distinct keys `d`: each key to its first position. */
  function Numbering(d: seq<VertexKey>): map<VertexKey, nat>
  {
    if d == [] then map[]
    else
      var m := Numbering(d[..|d| - 1]);
      if d[|d| - 1] in m then m else m[d[|d| - 1] := |d| - 1]
  }

  /** The map holds exactly the keys of `d`, each numbered by its position. */
  lemma {:induction false} NumberingMeaning(d: seq<VertexKey>)
    ensures forall x :: x in Numbering(d) <==> x in d
    ensures forall x :: x in Numbering(d) ==> Numbering(d)[x] == IndexIn(d, x)
  {
    if d != [] {
      var d' := d[..|d| - 1];
      var y := d[|d| - 1];
      NumberingMeaning(d');
      assert d == d' + [y];
      forall x | x in d'
        ensures IndexIn(d, x) == IndexIn(d', x)
      {
        IndexInAppend(d', y, x);
      }
      if y !in d' {
        IndexInAppendNew(d', y);
      }
    }
  }

  lemma NumberingHas(d: seq<VertexKey>, key: VertexKey)
    ensures key in Numbering(d) <==> key in d
  {
    NumberingMeaning(d);
  }

  /**
   * The de-duplication state after the corners whose keys are `seen`, where `d`
   * holds the distinct keys so far: the map numbers each distinct key, the vertex
   * data holds the floats of `d` in order, and each corner's index is its key's
   * number.
   */
  ghost predicate Indexed(cs: seq<Component>, seen: seq<VertexKey>, d: seq<VertexKey>,
                          unique: map<VertexKey, nat>, vertices: seq<real>, indices: seq<nat>)
  {
    unique == Numbering(d) && vertices == VerticesOf(cs, d) && indices == IndicesOf(d, seen)
  }

  /**
   * The arithmetic of the vertex number: with a true stride `s` of `w` floats
   * that fits in `u32`, `n == count * (s / 4)` floats hold `count` vertices.
   */
  lemma CountFromLength(s: nat, stride: nat, w: nat, n: nat, count: nat)
    requires 0 < s < U32_MODULUS && stride == s % U32_MODULUS && 4 * w == s
    requires n == count * (s / 4) && count < U32_MODULUS
    ensures stride / 4 > 0
    ensures (n / (stride / 4)) % U32_MODULUS == count
  {
    DivModUnique(s, U32_MODULUS, 0, s);
    DivModUnique(s, 4, w, 0);
    DivModUnique(n, w, count, 0);
    DivModUnique(count, U32_MODULUS, 0, count);
  }

  /** The number `loadFromOBJ` gives a new vertex is the count of distinct vertices so far. */
  lemma NextVertexNumber(cs: seq<Component>, d: seq<VertexKey>, key: VertexKey, stride: nat)
    requires 0 < StrideOf(cs) < U32_MODULUS && stride == StrideOf(cs) % U32_MODULUS
    requires |d| < U32_MODULUS
    ensures stride / 4 > 0
    ensures (|VerticesOf(cs, d)| / (stride / 4)) % U32_MODULUS == |d|
  {
    LoadedFloatsLength(cs, key);
    VerticesOfLength(cs, d);
    CountFromLength(StrideOf(cs), stride, |LoadedFloats(cs, key)|, |VerticesOf(cs, d)|, |d|);
  }

  /** Appending a key extends the distinct keys by it exactly when it is new. */
  lemma DistinctStep(seen: seq<VertexKey>, key: VertexKey)
    ensures key in Distinct(seen) ==> Distinct(seen + [key]) == Distinct(seen)
    ensures key !in Distinct(seen) ==> Distinct(seen + [key]) == Distinct(seen) + [key]
  {
    assert (seen + [key])[..|seen|] == seen;
  }

  /** A key seen before: the state gains one index, the one the map holds. */
  lemma IndexedSeenKey(cs: seq<Component>, seen: seq<VertexKey>, d: seq<VertexKey>, key: VertexKey,
                       unique: map<VertexKey, nat>, vertices: seq<real>, indices: seq<nat>)
    requires Indexed(cs, seen, d, unique, vertices, indices) && key in unique
    ensures Indexed(cs, seen + [key], d, unique, vertices, indices + [unique[key]])
  {
    NumberingMeaning(d);
    IndicesOfSnoc(d, seen, key);
  }

  /** A new key: it is numbered after the distinct keys so far and its vertex is appended. */
  lemma IndexedNewKey(cs: seq<Component>, seen: seq<VertexKey>, d: seq<VertexKey>, key: VertexKey,
                      unique: map<VertexKey, nat>, vertices: seq<real>, indices: seq<nat>)
    requires d == Distinct(seen)
    requires Indexed(cs, seen, d, unique, vertices, indices) && key !in unique
    ensures Indexed(cs, seen + [key], d + [key], unique[key := |d|], vertices + LoadedFloats(cs, key), indices + [|d|])
  {
    NumberingHas(d, key);
    SnocPrefix(d, key);
    SeenInDistinct(seen);
    IndicesOfExtend(d, key, seen);
    IndexInAppendNew(d, key);
    IndicesOfSnoc(d + [key], seen, key);
  }

  lemma SnocPrefix(s: seq<VertexKey>, x: VertexKey)
    ensures (s + [x])[..|s|] == s && (s + [x])[|s|] == x
  {
  }

  lemma IndicesOfSnoc(d: seq<VertexKey>, s: seq<VertexKey>, x: VertexKey)
    ensures IndicesOf(d, s + [x]) == IndicesOf(d, s) + [IndexIn(d, x)]
  {
    SnocPrefix(s, x);
  }

  lemma SeenInDistinct(seen: seq<VertexKey>)
    ensures forall x :: x in seen ==> x in Distinct(seen)
  {
    DistinctMembers(seen);
  }

  /**
   * One corner of the inner loop of `loadFromOBJ`: a key already in the map
   * reuses its number; a new key is numbered by the vertex count so far (the
   * float count divided by the floats per vertex, cast to `u32`) and its vertex
   * is appended. Either way the corner's number is appended to the indices.
   */
  method VisitCorner(layout: VertexLayout, ghost seen: seq<VertexKey>, ghost d: seq<VertexKey>, key: VertexKey,
                     unique: map<VertexKey, nat>, vertices: seq<real>, indices: seq<nat>)
    returns (ghost d': seq<VertexKey>, unique': map<VertexKey, nat>, vertices': seq<real>, indices': seq<nat>)
    requires 0 < StrideOf(layout.components) < U32_MODULUS
    requires |seen| < U32_MODULUS
    requires d == Distinct(seen)
    requires Indexed(layout.components, seen, d, unique, vertices, indices)
    ensures d' == Distinct(seen + [key])
    ensures Indexed(layout.components, seen + [key], d', unique', vertices', indices')
  {
    NumberingHas(d, key);
    DistinctStep(seen, key);
    d', unique', vertices' := d, unique, vertices;
    if key !in unique {
      var stride := layout.Stride();
      var floatsPerVertex := stride / 4;
      NextVertexNumber(layout.components, d, key, stride);
      var number := (|vertices| / floatsPerVertex) % U32_MODULUS;
      unique' := unique[key := number];
      vertices' := AddVertex(vertices, layout, LoadedVertex(key), ONE2, ONE3, ZERO3);
      IndexedNewKey(layout.components, seen, d, key, unique, vertices, indices);
      d' := d + [key];
    } else {
      IndexedSeenKey(layout.components, seen, d, key, unique, vertices, indices);
    }
    indices' := indices + [unique'[key]];
  }

  /** The inner loop of `loadFromOBJ`: the corners of one shape, in order. */
  method VisitShape(layout: VertexLayout, positions: seq<real>, texcoords: seq<real>,
                    shape: seq<ObjIndex>, ghost seen: seq<VertexKey>, ghost d: seq<VertexKey>,
                    unique: map<VertexKey, nat>, vertices: seq<real>, indices: seq<nat>)
    returns (ghost d': seq<VertexKey>, unique': map<VertexKey, nat>, vertices': seq<real>, indices': seq<nat>)
    requires ValidCorners(positions, texcoords, shape)
    requires 0 < StrideOf(layout.components) < U32_MODULUS
    requires |seen| + |shape| < U32_MODULUS
    requires d == Distinct(seen)
    requires Indexed(layout.components, seen, d, unique, vertices, indices)
    ensures d' == Distinct(seen + CornerKeys(positions, texcoords, shape))
    ensures Indexed(layout.components, seen + CornerKeys(positions, texcoords, shape), d', unique', vertices', indices')
  {
    ghost var ks := CornerKeys(positions, texcoords, shape);
    assert seen + ks[..0] == seen;
    d', unique', vertices', indices' := d, unique, vertices, indices;
    var j := 0;
    while j < |shape|
      invariant 0 <= j <= |shape|
      invariant d' == Distinct(seen + ks[..j])
      invariant Indexed(layout.components, seen + ks[..j], d', unique', vertices', indices')
    {
      var key := CornerKey(positions, texcoords, shape[j]);
      assert key == ks[j];
      PrefixSnoc(seen, ks, j);
      d', unique', vertices', indices' := VisitCorner(layout, seen + ks[..j], d', key, unique', vertices', indices');
      j := j + 1;
    }
    assert ks[..j] == ks;
  }

  /**
   * The indexing part of `loadFromOBJ`: every corner of every shape becomes one
   * index, and a vertex is appended only the first time its key is seen. The
   * number of a new vertex is the vertex-float count divided by the floats per
   * vertex (`stride()/sizeof(float)`), cast to `u32`.
   */
  method LoadObjIndexing(layout: VertexLayout, positions: seq<real>, texcoords: seq<real>, shapes: seq<seq<ObjIndex>>)
    returns (vertices: seq<real>, indices: seq<nat>)
    requires ValidCorners(positions, texcoords, Corners(shapes))
    requires 0 < StrideOf(layout.components) < U32_MODULUS
    requires |Corners(shapes)| < U32_MODULUS
    ensures var keys := CornerKeys(positions, texcoords, Corners(shapes));
      |indices| == |keys| &&
      (forall k :: 0 <= k < |keys| ==> indices[k] == IndexIn(Distinct(keys), keys[k])) &&
      vertices == VerticesOf(layout.components, Distinct(keys))
  {
    var unique: map<VertexKey, nat> := map[];
    vertices, indices := [], [];
    ghost var d: seq<VertexKey> := [];
    var s := 0;
    assert shapes[..0] == [];
    while s < |shapes|
      invariant 0 <= s <= |shapes|
      invariant ValidCorners(positions, texcoords, Corners(shapes[..s]))
      invariant d == Distinct(CornerKeys(positions, texcoords, Corners(shapes[..s])))
      invariant Indexed(layout.components, CornerKeys(positions, texcoords, Corners(shapes[..s])), d, unique, vertices, indices)
    {
      CornersPrefix(positions, texcoords, shapes, s);
      ghost var before := Corners(shapes[..s]);
      ghost var seen := CornerKeys(positions, texcoords, before);
      CornerKeysAppend(positions, texcoords, before, shapes[s]);
      d, unique, vertices, indices := VisitShape(layout, positions, texcoords, shapes[s], seen, d, unique, vertices, indices);
      s := s + 1;
    }
    assert shapes[..s] == shapes;
    ghost var keys := CornerKeys(positions, texcoords, Corners(shapes));
    forall k | 0 <= k < |keys|
      ensures indices[k] == IndexIn(Distinct(keys), keys[k])
    {
      IndicesOfAt(Distinct(keys), keys, k);
    }
  }

  lemma PrefixSnoc(seen: seq<VertexKey>, ks: seq<VertexKey>, j: nat)
    requires j < |ks|
    ensures (seen + ks[..j]) + [ks[j]] == seen + ks[..j + 1]
  {
    assert ks[..j + 1] == ks[..j] + [ks[j]];
  }

  /** The keys of two runs of corners, one after the other. */
  lemma CornerKeysAppend(positions: seq<real>, texcoords: seq<real>, a: seq<ObjIndex>, b: seq<ObjIndex>)
    requires ValidCorners(positions, texcoords, a + b)
    ensures ValidCorners(positions, texcoords, a) && ValidCorners(positions, texcoords, b)
    ensures CornerKeys(positions, texcoords, a + b) == CornerKeys(positions, texcoords, a) + CornerKeys(positions, texcoords, b)
  {
    assert forall k :: 0 <= k < |a| ==> a[k] == (a + b)[k];
    assert forall k :: 0 <= k < |b| ==> b[k] == (a + b)[|a| + k];
  }

  /** The corners of the first s+1 shapes extend those of the first s, and all read valid positions. */
  lemma CornersPrefix(positions: seq<real>, texcoords: seq<real>, shapes: seq<seq<ObjIndex>>, s: nat)
    requires s < |shapes|
    requires ValidCorners(positions, texcoords, Corners(shapes))
    ensures Corners(shapes[..s + 1]) == Corners(shapes[..s]) + shapes[s]
    ensures |Corners(shapes[..s + 1])| <= |Corners(shapes)|
    ensures ValidCorners(positions, texcoords, Corners(shapes[..s + 1]))
  {
    assert shapes[..s + 1][..s] == shapes[..s];
    CornersLength(shapes, s + 1);
    var p := Corners(shapes[..s + 1]);
    assert forall k :: 0 <= k < |p| ==> p[k] == Corners(shapes)[k];
  }

  lemma {:induction false} CornersLength(shapes: seq<seq<ObjIndex>>, i: nat)
    requires i <= |shapes|
    ensures |Corners(shapes[..i])| <= |Corners(shapes)|
    ensures Corners(shapes) == Corners(shapes[..i]) + Corners(shapes)[|Corners(shapes[..i])|..]
    decreases |shapes| - i
  {
    if i == |shapes| {
      assert shapes[..i] == shapes;
    } else {
      CornersLength(shapes, i + 1);
      assert shapes[..i + 1][..i] == shapes[..i];
    }
  }
}
