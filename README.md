# circe core, modelled in Dafny

This project models the host-side logic of **circe**, a C++ graphics library with OpenGL and Vulkan back ends. Only the parts that work on integers, sequences and maps are modelled. GPU, windowing and file calls appear only as the values they return. Each source file of the core is one Dafny module:

- **Primitive and mesh bookkeeping.**
  - `OpenGL` (circe/gl/utils/open_gl.h): primitive counts, with the unsigned wrap of the strip and fan cases written out. Also the enum translation and data-type size tables.
  - `SceneModel` (circe/scene/model.cpp): the element count and the assignment operators of `Model`.
  - `IndexBuffers` (circe/gl/storage/index_buffer.h): index-list assignment.
- **Vertex layouts and the interleaver.**
  - `VertexAttributes` (circe/gl/storage/vertex_attributes.h/.cpp): offsets, the stride, shader locations and name registration.
  - `GLBuffer` (circe/gl/io/buffer.h): buffer descriptors and the interleaver. The interleaver folds (position, normal, texcoord) index triples into unique vertices.
  - `VkVertexLayout` (circe/vk/scene/scene_model.h) and `VkModelLoading` (circe/vk/scene/scene_model.cpp): the Vulkan vertex layout, `addVertex`, and vertex de-duplication in the OBJ loader.
- **Shape generators.** `Shapes` (circe/scene/shapes.cpp) covers the vertex counts, index lists and primitive types of `box`, `segment`, `plane`, `icosphere` and `convert`.
- **Vulkan selection policies.**
  - `VkPhysicalDevice`: first-match scans over queue families, memory types, present modes, surface formats, depth formats and sample counts.
  - `VkInstance`: extension and layer checks, `init`, `destroy`, and the device choice.
  - `VkRenderEngine`: swapchain image count, extent and surface transform, and the frame slot.
  - `VkSync`: the access masks of an image layout transition.
- **Builders and registries.**
  - `VkLogicalDevice`: queue families.
  - `VkRenderPass`: subpasses, render passes and framebuffers.
  - `VkPipeline`: descriptor layouts, pools, shader stages, fixed-function state and dynamic state.
  - `VkCommandBuffer`: render-pass begin info and command pools.
  - `ProgramManagers`, `SceneResources` and `Textures` (the texture atlas and texture views).
  - `SpatialArray`: the linear spatial structure `Array`.
- **Logging.** `ImGuiLogger` models the fixed-capacity ring of the most recent log messages.
- **BVH construction.** `BVHBuild` models the recursive build and the pre-order flattening into the node array.

Code that updates an object's fields becomes a Dafny `class` whose methods state the whole new state. Table lookups and scans become functions with the properties the source promises, plus lemmas that relate them.

## Model

| member | source | states |
|---|---|---|
| OpenGL.PrimitiveCount | circe/gl/utils/open_gl.h:36-58 | the count of every mode fits in a `GLuint`, with the strip and fan subtractions wrapping modulo 2^32 |
| OpenGL.PrimitiveCountWholeGroups | circe/gl/utils/open_gl.h:40-53 | triangles, lines and quads count the complete groups of 3, 2 and 4 indices |
| OpenGL.PrimitiveCountAgreesWithGL | circe/gl/utils/open_gl.h:36-58 | once a strip or fan has enough indices for one primitive, the count equals the primitive count of section 10.1 of the OpenGL 4.6 core specification for every mode |
| OpenGL.PrimitiveCountWrapsOnShortStrips | circe/gl/utils/open_gl.h:44-49 | a line strip of 0 indices, or a triangle strip or fan of fewer than 2, wraps to a count of at least 2^32 - 2, which disagrees with the GL definition |
| OpenGL.PrimitiveCountUnknownIsPoints | circe/gl/utils/open_gl.h:54-56 | an unknown mode is counted like GL_POINTS, one primitive per index |
| OpenGL.PrimitiveToStr | circe/gl/utils/open_gl.h:59-74 | the name is "ERR" exactly for a kind the table does not list |
| OpenGL.PrimitiveToStrInjective | circe/gl/utils/open_gl.h:59-74 | two distinct listed kinds get distinct names |
| OpenGL.PrimitiveToGL | circe/gl/utils/open_gl.h:75-89 | every kind is translated to one of the eight drawable GL modes |
| OpenGL.PrimitiveToGLRoundTrip | circe/gl/utils/open_gl.h:75-89 | the eight drawable kinds are translated one-to-one (inverted by `GLToPrimitive`), and every other kind falls back to GL_POINTS |
| OpenGL.DataSizeInBytes | circe/gl/utils/open_gl.h:242-257 | the size is 0, 1, 2, 4 or 8 bytes, and 0 exactly for a type outside the ten listed |
| OpenGL.ScalarTypeEnum | circe/gl/utils/open_gl.h:258-279 | the enum of a C++ scalar type always has a non-zero size |
| OpenGL.DataTypeEnum | circe/gl/utils/open_gl.h:299-315 | the enum of a `hermes::DataType` always has a non-zero size |
| OpenGL.DataTypeEnumKeepsWidth | circe/gl/utils/open_gl.h:258-315 | both translations keep the byte width of every type they list; an unlisted data type becomes GL_FIXED, and I32 becomes GL_INT because the first matching line wins |
| OpenGL.DataTypeEnumOverloadsAgree | circe/gl/utils/open_gl.h:258-315 | the template and the enum overloads of `dataTypeEnum` agree on the eight types both list |
| SceneModel.IndexCount | circe/scene/model.cpp:131 | the count is the index list's length when there is one, and 0 only when there are neither indices nor vertices |
| SceneModel.ElementCountOf | circe/scene/model.cpp:130-144 | triangles, lines, quads and tetrahedra give the number of whole groups of 3, 2, 4 and 4 indices; points, line loops, custom and every unlisted kind give the index count; a line strip gives one less and a triangle strip or fan two less, wrapping in `size_t` to 2^64 − 1 (resp. 2^64 − 2 + n) below that; all but the strips and fan never exceed the index count, and a count below 2^64 stays below 2^64 |
| SceneModel.ElementCountAgreesWithGL | circe/scene/model.cpp:130-144 | for every kind GL can draw, with an index count that does not wrap, the count equals `OpenGL::primitiveCount` of the translated kind and the GL definition of a primitive count |
| SceneModel.ElementCountTetrahedra | circe/scene/model.cpp:140-141 | tetrahedra count whole groups of four indices, whereas the GL translation would draw them as points |
| SceneModel.ElementCountWraps | circe/scene/model.cpp:137-139 | a line strip with no index counts exactly 2^64 − 1 elements, a triangle strip or fan with n < 2 indices exactly 2^64 − 2 + n, more than it has indices |
| SceneModel.Model.constructor | circe/scene/model.cpp:39 | a new model has no vertices and no indices |
| SceneModel.Model.Move | circe/scene/model.cpp:41-45 | the move constructor takes the indices, the vertices and the primitive type of the other model |
| SceneModel.Model.Assign | circe/scene/model.cpp:49-61 | move and copy assignment take all three fields of the other model |
| SceneModel.Model.AssignData | circe/scene/model.cpp:63-71 | assigning an AoS replaces the vertices and nothing else |
| SceneModel.Model.SetIndices | circe/scene/model.cpp:73-76 | assigning indices (also through `setIndices`, lines 88-90) replaces the indices and nothing else |
| SceneModel.Model.AssignFloats | circe/scene/model.cpp:78-82 | assigning a raw float vector changes nothing |
| SceneModel.Model.Resize | circe/scene/model.cpp:84-86 | the vertex array gets the new size, keeps the records that fit and pads with default records; indices and type are unchanged |
| SceneModel.Model.SetPrimitiveType | circe/scene/model.cpp:92-94 | only the primitive type changes |
| SceneModel.Model.ElementCount | circe/scene/model.cpp:130-144 | over the index list, or the vertices when it is empty: triangles, lines and quads or tetrahedra give the number of whole groups of 3, 2 and 4; points, line loops, custom and unlisted kinds the count itself; a line strip one less and a triangle strip or fan two less, wrapped modulo 2^64 below that |
| IndexBuffers.IndexDataType | circe/gl/storage/index_buffer.h:65-72 | the chosen unsigned GL index type has exactly the byte width of the element type |
| IndexBuffers.IndexBuffer.constructor | circe/gl/storage/index_buffer.h:80-82 | a new buffer has no elements, triangles and 32-bit unsigned indices |
| IndexBuffers.IndexBuffer.AssignIndices | circe/gl/storage/index_buffer.h:62-76 | an empty vector changes nothing; otherwise the data type follows the element width, the indices are uploaded and the element count is the primitive count of the index count truncated to a `GLuint` |
| VertexAttributes.Attribute.ComponentSize | circe/gl/storage/vertex_attributes.h:64-73 | the component size is 3, 4 or 2, the first of them that divides the attribute size, and 1 when none does |
| VertexAttributes.Attribute.Rows | circe/gl/storage/vertex_attributes.h:74-76 | the rows times the component size give back the attribute size exactly |
| VertexAttributes.PrefixOffsets | circe/gl/storage/vertex_attributes.cpp:60-94 | each attribute's offset is the byte total of the attributes before it |
| VertexAttributes.PrefixOffsetsExtend | circe/gl/storage/vertex_attributes.cpp:82-83 | appending an attribute appends the old stride as its offset and keeps every earlier offset |
| VertexAttributes.OffsetsIncreasing | circe/gl/storage/vertex_attributes.cpp:82-83 | offsets never decrease, and every attribute's bytes end at or before the next offset, so attributes never overlap within a vertex |
| VertexAttributes.DecimalString | circe/gl/storage/vertex_attributes.cpp:65 | the default name of an attribute id is a non-empty string of decimal digits |
| VertexAttributes.DecimalStringInjective | circe/gl/storage/vertex_attributes.cpp:65 | distinct ids get distinct default names |
| VertexAttributes.NextLocation | circe/gl/storage/vertex_attributes.cpp:67-70 | a non-negative location is kept; a negative one becomes 0 for the first attribute and the last attribute's location plus its rows otherwise, as a `u32` |
| VertexAttributes.ResizeZeros | circe/gl/storage/vertex_attributes.cpp:101 | resizing keeps the entries that fit and pads with zeros |
| VertexAttributes.VertexAttributeSet.constructor | circe/gl/storage/vertex_attributes.cpp:36 | a new set is empty with stride 0 and keeps offsets, stride and names consistent |
| VertexAttributes.VertexAttributeSet.Clear | circe/gl/storage/vertex_attributes.cpp:44-49 | clearing empties attributes, names and offsets and zeroes the stride |
| VertexAttributes.VertexAttributeSet.Contains | circe/gl/storage/vertex_attributes.cpp:51-53 | true exactly when the name is registered |
| VertexAttributes.VertexAttributeSet.Stride | circe/gl/storage/vertex_attributes.h:120-122 | the stride is the byte total of all attributes |
| VertexAttributes.VertexAttributeSet.AttributeOffset | circe/gl/storage/vertex_attributes.h:123 | an attribute's offset is the byte total of the attributes before it, and the attribute ends within the stride |
| VertexAttributes.VertexAttributeSet.AttributeIndex | circe/gl/storage/vertex_attributes.h:125-128 | a registered name leads to an attribute of that name |
| VertexAttributes.VertexAttributeSet.Push | circe/gl/storage/vertex_attributes.cpp:60-85 | the attribute is appended under its name, or under its decimal id when the name is empty, at the location `NextLocation` gives; its id is the old count, its offset the old stride, and the stride grows by its bytes |
| VertexAttributes.VertexAttributeSet.PushAttribute | circe/gl/storage/vertex_attributes.cpp:87-94 | the attribute is appended as given, its name registered, its offset the old stride, and the stride grows by its bytes |
| VertexAttributes.VertexAttributeSet.PushMathElement | circe/gl/storage/vertex_attributes.h:109-118 | a math element of n floats is pushed as n GL_FLOAT components at the next location, whatever location was asked for |
| VertexAttributes.VertexAttributeSet.SetAttributeLocation | circe/gl/storage/vertex_attributes.cpp:143-145 | only that attribute's location changes, to the `GLint` taken as a `u32` |
| VertexAttributes.VertexAttributeSet.PushAllAsWritten | circe/gl/storage/vertex_attributes.cpp:55-58 | as written: the attributes are replaced, the offsets become those `updateOffsets` leaves, and the stride and the names are left alone |
| VertexAttributes.VertexAttributeSet.UpdateOffsetsAsWritten | circe/gl/storage/vertex_attributes.cpp:96-107 | as written: the offsets are resized to the attribute count and the real offsets are appended after them |
| VertexAttributes.VertexAttributeSet.PushAll | circe/gl/storage/vertex_attributes.cpp:55-58 | corrected: attributes replaced, offsets the prefix byte totals, stride the byte total, every name registered |
| VertexAttributes.TotalBytesIgnoresLocation | circe/gl/storage/vertex_attributes.cpp:143-145 | changing locations (or any field but size and type) does not change any byte count |
| VertexAttributes.UpdatedOffsetsAsWrittenLength | circe/gl/storage/vertex_attributes.cpp:96-107 | as written, a non-empty list leaves twice as many offsets as attributes, which are not the prefix offsets |
| VertexAttributes.PushAllAsWrittenCounterexample | circe/gl/storage/vertex_attributes.cpp:55-58 | position then normal, 3 floats each: as written the normal's offset is 0 where it should be 12, for a stride of 24 |
| GLBuffer.IndexBufferMode | circe/gl/io/buffer.h:175-195 | the mode is one of the six listed GL modes, GL_TRIANGLES for every other kind |
| GLBuffer.IndexBufferModeAgreesWithPrimitiveToGL | circe/gl/io/buffer.h:248-263 | the six kinds get the same mode as `OpenGL::PrimitiveToGL`, while points and line strips get GL_TRIANGLES here (and their own mode there), as do tetrahedra, custom and unlisted kinds |
| GLBuffer.BufferDescriptor.constructor | circe/gl/io/buffer.h:84-90 | the parameter constructor stores its six fields and starts with no attributes |
| GLBuffer.BufferDescriptor.Copy | circe/gl/io/buffer.h:93-114 | copy and move construction copy the scalar fields and the name map; the attribute list and the id map start empty |
| GLBuffer.BufferDescriptor.Assign | circe/gl/io/buffer.h:118-128 | copy assignment copies the scalar fields and merges the other name map into this one (its entries win), keeping the attribute list and id map |
| GLBuffer.BufferDescriptor.AddAttribute | circe/gl/io/buffer.h:136-145 | the attribute, with offset and size narrowed to 32 bits, is stored under its name, appended, and its name mapped to its position |
| GLBuffer.BufferDescriptor.DataSize | circe/gl/io/buffer.h:147-149 | the bytes of one component of the data type |
| GLBuffer.BufferDescriptor.Size | circe/gl/io/buffer.h:150 | the buffer bytes are element size times count times component bytes when the 32-bit product does not wrap, and 0 for an unknown data type |
| GLBuffer.ForArrayStream | circe/gl/io/buffer.h:157-160 | a stream-drawn array buffer with no elements |
| GLBuffer.ForVertexBuffer | circe/gl/io/buffer.h:165-169 | a static float array buffer whose sizes are narrowed to 32 bits |
| GLBuffer.ForIndexBuffer | circe/gl/io/buffer.h:175-195 | always an element array buffer, whose mode is `IndexBufferMode` of the kind |
| GLBuffer.FitsMeans | circe/gl/io/buffer.h:219-232 | element `e` of `elementSize` values fits in an array exactly when `e * elementSize + elementSize` is within its length |
| GLBuffer.Slice | circe/gl/io/buffer.h:219-232 | an element's slice has `elementSize` values |
| GLBuffer.SliceMeans | circe/gl/io/buffer.h:219-232 | the slice is the values the loops read at `e * elementSize + v` |
| GLBuffer.ElementData | circe/gl/io/buffer.h:219-232 | an element contributes `elementSize` values when its component is present and none otherwise |
| GLBuffer.Unique | circe/gl/io/buffer.h:209-217 | the distinct triples are exactly the triples that occur, never more of them than mesh indices |
| GLBuffer.IndexOf | circe/gl/io/buffer.h:215-235 | the rank of a triple is the position of its first occurrence |
| GLBuffer.UniqueHasNoDuplicates | circe/gl/io/buffer.h:215-233 | no triple is emitted twice |
| GLBuffer.InterleavedDataLength | circe/gl/io/buffer.h:217-233 | every distinct triple contributes exactly one interleaved vertex of `VertexWidth` floats |
| GLBuffer.VertexDataLength | circe/gl/io/buffer.h:219-232 | one interleaved vertex holds the element sizes of the components present |
| GLBuffer.OutputIndices | circe/gl/io/buffer.h:212-237 | one output index per mesh index |
| GLBuffer.AppendRange | circe/gl/io/buffer.h:220-223 | a copy loop appends exactly the `count` values from `start` |
| GLBuffer.AppendElement | circe/gl/io/buffer.h:219-232 | one component's copy loop appends that element's values, or nothing when the component is absent |
| GLBuffer.AppendVertex | circe/gl/io/buffer.h:219-232 | the three copy loops append the interleaved vertex: position, then normal, then texcoord |
| GLBuffer.UniqueExtend | circe/gl/io/buffer.h:215-233 | a mesh index adds its triple to the distinct triples exactly when the triple was not seen before |
| GLBuffer.IndexOfStable | circe/gl/io/buffer.h:233-235 | a triple's index never changes once given |
| GLBuffer.RankMapAdd | circe/gl/io/buffer.h:233 | recording a new triple under the next index keeps the map equal to the ranks |
| GLBuffer.InterleavedAppend | circe/gl/io/buffer.h:217-233 | emitting a new triple appends its vertex to the interleaved data |
| GLBuffer.StepFacts | circe/gl/io/buffer.h:212-237 | one iteration: a seen triple keeps the distinct triples, a new one is added under the next rank, and the output grows by the triple's rank |
| GLBuffer.InterleaveStep | circe/gl/io/buffer.h:213-236 | one loop iteration keeps the loop invariant: map equal to ranks, next index equal to the distinct count, outputs equal to the reference functions on the prefix |
| GLBuffer.SetupBufferDataFromMesh | circe/gl/io/buffer.h:204-238 | the index output grows by the first-appearance rank of each mesh index's triple, and the vertex output by the interleaved data of each distinct triple in order of first appearance |
| GLBuffer.IndexOfLast | circe/gl/io/buffer.h:233 | a new triple gets the next index, the number of triples seen |
| GLBuffer.OutputIndicesExtend | circe/gl/io/buffer.h:236 | each mesh index appends exactly one output index, the rank of its triple |
| GLBuffer.SameTripleSameIndex | circe/gl/io/buffer.h:215-235 | two mesh indices with the same triple receive the same output index |
| GLBuffer.OutputIndicesDense | circe/gl/io/buffer.h:204-238 | output indices are below the number of distinct triples, distinct triples get distinct indices, and the vertex data holds one vertex per distinct triple |
| GLBuffer.CreateBufferDescriptionFromMesh | circe/gl/io/buffer.h:244-288 | the index descriptor gets the translated mode, the mesh count and element size truncated to 32 bits, element-array type, the use and unsigned ints; the vertex descriptor the interleaved count and element size truncated to 32 bits, array type, the use and floats, plus position, normal and texcoord attributes where present |
| GLBuffer.AddMeshAttributes | circe/gl/io/buffer.h:275-287 | the position attribute, then the normal and texcoord attributes when present, are appended and named, nothing else changes |
| GLBuffer.MeshAttributesMatchInterleaving | circe/gl/io/buffer.h:219-232 | the attribute byte offsets are exactly where the interleaver puts each component inside a vertex, and the last attribute ends at the vertex width |
| Shapes.BoxFace | circe/scene/shapes.cpp:568-575 | each of the six faces of `base_vertex_indices` lists 4 corners, all among the 8 base vertices |
| Shapes.BoxFacesAreQuads | circe/scene/shapes.cpp:522-575 | every face's four corners share one bound on one axis and go round the face, neighbours one edge apart, and its two fan triangles share the diagonal from the first corner |
| Shapes.BoxPrimitive | circe/scene/shapes.cpp:579-583 | `vertices` selects POINTS, otherwise `wireframe` selects LINES, otherwise TRIANGLES |
| Shapes.BoxVertexCount | circe/scene/shapes.cpp:586-592 | the vertex count is 8, 24 or 48: 8 exactly when `unique_positions` is off or `vertices` is on, 48 exactly when `unique_positions` and `wireframe` are on and `vertices` is off |
| Shapes.FanTriangle | circe/scene/shapes.cpp:611-613 | one fan triangle of a face has 3 corners, all among the 8 base vertices |
| Shapes.BoxFan | circe/scene/shapes.cpp:609-614 | fanning the first n faces gives 6n indices, all below 8 |
| Shapes.FanBoxFaces | circe/scene/shapes.cpp:609-614 | the nested face and jump loop produces exactly the fan of all six faces |
| Shapes.Box | circe/scene/shapes.cpp:495-642 | the box model has the primitive and vertex count above, the 24 edge indices when wireframe and the 36 fan indices otherwise, every index below 8 |
| Shapes.BoxEdgeList | circe/scene/shapes.cpp:601 | the first n listed edges flatten to 2n indices, edge e at positions 2e and 2e + 1 |
| Shapes.BoxEdgesListed | circe/scene/shapes.cpp:601 | the wireframe index list is the flattening of the 12 box edges |
| Shapes.BoxEdgeKeyInverse | circe/scene/shapes.cpp:522-601 | each wireframe edge joins corners one axis apart, and its undirected corner-pair key identifies it, so `BoxEdgeOfKey` inverts the keys |
| Shapes.BoxEdgesAreCubeEdges | circe/scene/shapes.cpp:522-601 | the 12 wireframe edges are 12 distinct edges of the cube: each joins two corners that differ on exactly one axis |
| Shapes.Box2 | circe/scene/shapes.cpp:644-684 | with `unique_positions` the model is left empty, without a primitive type; otherwise 4 vertices, the outline {0,1,1,2,2,3,3,0} as LINES or the two triangles {0,1,2,0,2,3} as TRIANGLES, all in range |
| Shapes.Box2Topology | circe/scene/shapes.cpp:674-680 | the outline is 4 lines that close the square, and the fill is 2 triangles |
| Shapes.Segment | circe/scene/shapes.cpp:686-702 | a segment is 2 vertices and the single line {0,1} |
| Shapes.PlaneWireframe | circe/scene/shapes.cpp:393-421 | the wireframe plane emits 2(w+1) + 2(h+1) indices 0 to n-1 in order, as LINES, and sizes its vertex array by that sum taken modulo 2^32 as the u32 expression gives it |
| Shapes.PlaneWireframeLines | circe/scene/shapes.cpp:402-417 | the wireframe plane draws w + h + 2 lines, one per grid line |
| Shapes.PlaneVertexOrder | circe/scene/shapes.cpp:430-440 | the solid plane's vertex loop visits (w+1)(h+1) grid points, point k being column k / (h+1) and row k % (h+1) |
| Shapes.CellIndices | circe/scene/shapes.cpp:444-449 | one grid cell contributes 6 indices, two triangles |
| Shapes.GridRow | circe/scene/shapes.cpp:443-450 | a column of n cells contributes 6n indices |
| Shapes.Grid | circe/scene/shapes.cpp:442-450 | a grid of w by h cells contributes 6wh indices |
| Shapes.PlaneIndices | circe/scene/shapes.cpp:441-450 | the nested index loop produces exactly the grid of cells for the given stride |
| Shapes.PlaneAsWritten | circe/scene/shapes.cpp:423-450 | as written, the solid plane sizes its vertex array by the u32 product (w+1)(h+1), wrapping modulo 2^32, and indexes its cells with stride w + 1 |
| Shapes.PlaneAsWrittenOutOfRange | circe/scene/shapes.cpp:441-449 | with 2 by 1 divisions the stride w + 1 = 3 produces index 7 for a plane of 6 vertices, while stride h + 1 = 2 stays in range |
| Shapes.Plane | circe/scene/shapes.cpp:423-450 | the solid plane, with the column stride h + 1 of its vertex order, has 6wh indices, all below the (w+1)(h+1) points the vertex loop writes; the vertex array is sized by that product modulo 2^32, so the indices are in range of it whenever the product fits in 32 bits |
| Shapes.PlaneIndicesInRange | circe/scene/shapes.cpp:431-450 | with stride h + 1 every grid index is below (w+1)(h+1) |
| Shapes.GridCell | circe/scene/shapes.cpp:442-450 | cell (i, j) of the grid sits at positions 6(i h + j) to 6(i h + j) + 6 |
| Shapes.PlaneCellCorners | circe/scene/shapes.cpp:431-450 | cell (i, j) of the corrected plane is two triangles over the grid points (i, j), (i+1, j), (i, j+1) and (i+1, j+1) |
| Shapes.CellCornersDecode | circe/scene/shapes.cpp:444-449 | with stride h + 1 the six indices of cell (i, j) are the vertex-loop numbers x(h + 1) + y of columns i, i + 1 and rows j, j + 1 |
| Shapes.DecodesDivMod | circe/scene/shapes.cpp:430-440 | such a vertex-loop number gives its column and row back as quotient and remainder by h + 1, matching the vertex order |
| Shapes.Icosahedron | circe/scene/shapes.cpp:273-276 | the starting sphere is 20 faces, 60 indices, all below 12 |
| Shapes.SplitFace | circe/scene/shapes.cpp:300-303 | splitting a face with its three midpoints gives 4 faces, 12 indices |
| Shapes.SplitAsWritten | circe/scene/shapes.cpp:293-304 | as written, splitting the first j faces appends 12j indices |
| Shapes.RefinedAsWritten | circe/scene/shapes.cpp:291-305 | as written, every division keeps the index count a multiple of 3 |
| Shapes.RefineAsWritten | circe/scene/shapes.cpp:292-304 | one division as written keeps the old faces, appends the split of every face, and adds one new vertex per edge visit |
| Shapes.IcosphereAsWritten | circe/scene/shapes.cpp:228-345 | as written, the icosphere's vertices and indices are those of the as-written refinement, indices dropped and POINTS with `vertices`, TRIANGLES otherwise |
| Shapes.SplitAsWrittenInRange | circe/scene/shapes.cpp:293-304 | the as-written split only uses vertices it has appended |
| Shapes.RefinedAsWrittenCounts | circe/scene/shapes.cpp:291-305 | as written, d divisions multiply the index count by 5^d, add (5^d - 1)/4 of the index count in vertices, and keep every index in range |
| Shapes.IcosphereAsWrittenCounts | circe/scene/shapes.cpp:273-305 | as written, the icosphere has 60 · 5^d indices and 12 + 15(5^d - 1) vertices, all indices in range |
| Shapes.RefinedAsWrittenSplitsSharedEdges | circe/scene/shapes.cpp:278-305 | as written, two faces splitting the same edge get two different midpoint vertices, because `indices_cache` is never filled |
| Shapes.IcosphereAsWrittenSplitsEdgesTwice | circe/scene/shapes.cpp:273-305 | on the icosahedron, faces 0 and 4 share edge 0-11 and its two splits yield distinct vertices 12 and 26 |
| Shapes.EdgeKey | circe/scene/shapes.cpp:280 | the cache key of an edge is its two ends ordered |
| Shapes.EdgeKeySymmetric | circe/scene/shapes.cpp:280 | an edge has the same key in both directions |
| Shapes.MidPoint | circe/scene/shapes.cpp:279-290 | a cached edge returns its vertex and changes nothing; a new edge gets the next vertex, which is recorded; no earlier entry changes, the keys grow by exactly this edge, and distinct edges keep distinct midpoints |
| Shapes.EdgeKeySameEdge | circe/scene/shapes.cpp:280 | two edges have the same cache key exactly when they have the same two ends |
| Shapes.SplitOneFace | circe/scene/shapes.cpp:293-302 | face (v0, v1, v2) becomes the four faces (v0, a, c), (v1, b, a), (v2, c, b), (a, c, b) whose a, b, c are the cached midpoints of v0v1, v1v2, v2v0; all over allocated vertices, earlier cache entries kept |
| Shapes.RefineNextFace | circe/scene/shapes.cpp:292-303 | one pass of the inner loop appends the next face's four children and keeps every earlier face split through the grown cache |
| Shapes.Refine | circe/scene/shapes.cpp:291-304 | one division replaces every face j by its four children built from the midpoints the final cache holds for its three edges, 4 times as many indices, all in range; earlier cache entries are kept and distinct edges keep distinct midpoints |
| Shapes.SplitSharesMidpoints | circe/scene/shapes.cpp:279-302 | in a split through an injective cache, two face edges get the same midpoint vertex exactly when they are the same undirected edge, whichever direction each face runs it |
| Shapes.Icosphere | circe/scene/shapes.cpp:228-345 | with the cache filled and old faces replaced, the icosphere has 60 · 4^d indices as TRIANGLES, or none as POINTS with `vertices`, at least 12 vertices, every index in range; after at least one division its faces are the split of the previous level through an injective cache, so shared edges share their midpoint |
| Shapes.ElementSize | circe/scene/shapes.cpp:145-152 | TRIANGLES have 3 corners, QUADS 4, any other type falls back to 3 |
| Shapes.FaceEdgesBorder | circe/scene/shapes.cpp:157-163 | the edges of a face are exactly the (min, max) pairs of corner k and corner (k + 1) mod n |
| Shapes.HasFacesMeans | circe/scene/shapes.cpp:155 | the asserted bound `element_count * element_size <= indices.size()` holds exactly when the faces fit in the index list |
| Shapes.AddFaceEdges | circe/scene/shapes.cpp:157-163 | the inner loop adds exactly the border edges of one face |
| Shapes.CollectEdges | circe/scene/shapes.cpp:156-163 | the edge loop collects exactly the border edges of the first `element_count` faces |
| Shapes.SortedListing | circe/scene/shapes.cpp:181-184 | iterating the edge set lists each edge once, in increasing order |
| Shapes.SortedListingUnique | circe/scene/shapes.cpp:181-184 | there is only one increasing listing of a set, so the iteration order is determined |
| Shapes.Flatten | circe/scene/shapes.cpp:181-184 | the edges flatten to two indices per edge, its ends in order |
| Shapes.Convert | circe/scene/shapes.cpp:102-226 | on the wireframe path the edges are those of the faces and the output is LINES listing each once in increasing order; the vertex count is kept, or becomes 2 per edge or 1 per index with `unique_positions`; indices are kept when there are no edges and no `unique_positions` and dropped with it; indices in range stay in range |
| Shapes.EdgesOfInRange | circe/scene/shapes.cpp:156-163 | every collected edge joins two in-range vertices, smaller end first |
| Shapes.FaceEdgesInRange | circe/scene/shapes.cpp:158-161 | the border edges of an in-range face join in-range vertices |
| Shapes.FlattenInRange | circe/scene/shapes.cpp:181-184 | flattening edges between in-range vertices gives in-range indices |
| VkVertexLayout.FloatCount | circe/vk/scene/scene_model.h:57-66 | every component is 1 to 4 floats: 1 only for the dummy float, 2 only for UV, 4 only for the dummy vec4 |
| VkVertexLayout.ComponentSize | circe/vk/scene/scene_model.h:57-66 | every component size is a whole number of floats, 4 to 16 bytes |
| VkVertexLayout.DefaultFormatFitsSize | circe/vk/scene/scene_model.h:57-76 | each component's default `VkFormat` occupies exactly the bytes its entry in `sizes` reserves |
| VkVertexLayout.StrideAppend | circe/vk/scene/scene_model.h:112-117 | the stride of two concatenated layouts is the sum of their strides |
| VkVertexLayout.StridePrefixBound | circe/vk/scene/scene_model.h:102-117 | the bytes before component i plus its own size never exceed the stride |
| VkVertexLayout.FirstIndex | circe/vk/scene/scene_model.h:95-98 | the search finds the first position holding the component, and runs off the end exactly when it is absent |
| VkVertexLayout.OffsetWithinStride | circe/vk/scene/scene_model.h:102-111 | a present component's bytes end within the stride; an absent one is reported at the stride |
| VkVertexLayout.OffsetsDisjoint | circe/vk/scene/scene_model.h:102-111 | a component listed earlier ends before a later one starts |
| VkVertexLayout.VertexLayout.constructor | circe/vk/scene/scene_model.h:81-88 | keeps the components; with components and no formats, fills one default format per component; otherwise keeps the formats given |
| VkVertexLayout.VertexLayout.FillWithDefaultFormats | circe/vk/scene/scene_model.h:89-93 | replaces the formats by the default format of each component, in order, components unchanged |
| VkVertexLayout.VertexLayout.ComponentFormat | circe/vk/scene/scene_model.h:95-101 | returns the format paired with the first occurrence of the component, or `VK_FORMAT_R32G32B32_SFLOAT` when it is absent |
| VkVertexLayout.VertexLayout.ComponentOffset | circe/vk/scene/scene_model.h:102-111 | returns the bytes before the first occurrence modulo 2^32, or the whole stride when the component is absent |
| VkVertexLayout.VertexLayout.Stride | circe/vk/scene/scene_model.h:112-117 | returns the sum of the component sizes modulo 2^32 |
| VkModelLoading.ComponentFloats | circe/vk/scene/scene_model.cpp:86-117 | each component writes as many floats as its layout size says |
| VkModelLoading.DummyComponentsAreZero | circe/vk/scene/scene_model.cpp:111-116 | the dummy components write zeros |
| VkModelLoading.VertexFloats | circe/vk/scene/scene_model.cpp:82-119 | a vertex takes exactly `stride / 4` floats |
| VkModelLoading.VertexFloatsAppend | circe/vk/scene/scene_model.cpp:85-118 | the floats of a layout split into those of its parts, in order |
| VkModelLoading.ComponentFloatsAtOffset | circe/vk/scene/scene_model.cpp:82-119 | each present component's floats sit at the offset `componentOffset` reports, so the interleaving agrees with the layout |
| VkModelLoading.AddVertex | circe/vk/scene/scene_model.cpp:82-119 | appends exactly the interleaved floats of the transformed vertex, components in layout order |
| VkModelLoading.LoadedPositionIsFilePosition | circe/vk/scene/scene_model.cpp:144-152 | a loaded vertex takes its position from the file with y negated, and its texture coordinate with v flipped to 1 - v |
| VkModelLoading.CornerKeys | circe/vk/scene/scene_model.cpp:139-152 | there is one vertex key per corner, the key of that corner |
| VkModelLoading.DistinctMembers | circe/vk/scene/scene_model.cpp:138-158 | the distinct keys in order of first appearance are exactly the keys seen, with no repeats |
| VkModelLoading.IndexIn | circe/vk/scene/scene_model.cpp:154-160 | the position of a key in a list is found exactly when the key is present, at a place holding that key |
| VkModelLoading.DistinctPrefix | circe/vk/scene/scene_model.cpp:139-161 | the distinct keys of a prefix are a prefix of the distinct keys of the whole |
| VkModelLoading.VerticesOfLength | circe/vk/scene/scene_model.cpp:157 | the vertex data holds `stride / 4` floats per distinct vertex |
| VkModelLoading.SameIndexIffSameKey | circe/vk/scene/scene_model.cpp:154-160 | two corners get the same index if and only if they have the same position, colour and texture coordinate |
| VkModelLoading.FreshKeyGetsNextIndex | circe/vk/scene/scene_model.cpp:154-157 | a key seen for the first time gets the number of distinct keys before it |
| VkModelLoading.IndicesBelowVertexCount | circe/vk/scene/scene_model.cpp:154-160 | every index names a stored vertex |
| VkModelLoading.NumberingMeaning | circe/vk/scene/scene_model.cpp:138-160 | the map holds exactly the distinct keys, each numbered by its place among them |
| VkModelLoading.NextVertexNumber | circe/vk/scene/scene_model.cpp:155-156 | dividing the float count by the stride in floats gives the number of vertices stored so far |
| VkModelLoading.DistinctStep | circe/vk/scene/scene_model.cpp:154-158 | a key already seen leaves the distinct keys unchanged; a new one is appended |
| VkModelLoading.VisitCorner | circe/vk/scene/scene_model.cpp:142-160 | one corner keeps the map, the vertex data and the indices in step with the distinct keys seen |
| VkModelLoading.VisitShape | circe/vk/scene/scene_model.cpp:140-161 | the corners of one shape keep the same correspondence |
| VkModelLoading.LoadObjIndexing | circe/vk/scene/scene_model.cpp:122-162 | the output has one index per corner, the number of its key among the distinct keys in order of first appearance, and the vertices are those distinct keys interleaved in that order |
| VkModelLoading.CornerKeysAppend | circe/vk/scene/scene_model.cpp:139-140 | the keys of concatenated corner lists are concatenated |
| VkLogicalDevice.Nulls | circe/vk/core/logical_device.h:63-74 | new queue slots all start as `VK_NULL_HANDLE` |
| VkLogicalDevice.FirstFamily | circe/vk/core/logical_device.h:58-59 | the search stops at the first entry with the requested family index, or runs off the end when none has it |
| VkLogicalDevice.AddKeepsWellFormed | circe/vk/core/logical_device.h:56-75 | `add` keeps the name map pointing into the entries, one queue slot per priority, and one entry per family index |
| VkLogicalDevice.AddEffect | circe/vk/core/logical_device.h:56-75 | after `add` the name points to the entry of that family; other names keep their entries; a known family gets the new priorities and null slots appended, its name unchanged; an unknown family becomes a new last entry with the given name, priorities and null slots |
| VkLogicalDevice.FamilyOf | circe/vk/core/logical_device.h:83-88 | the lookup returns an entry, the first one when the name is unknown |
| VkLogicalDevice.AddThenFamily | circe/vk/core/logical_device.h:56-88 | looking a name up right after adding it returns the family it was added with |
| VkLogicalDevice.QueueFamilies.constructor | circe/vk/core/logical_device.h:90-92 | a new set of queue requests is empty |
| VkLogicalDevice.QueueFamilies.Add | circe/vk/core/logical_device.h:56-75 | the loop and the append compute `AddFamilies` and `AddIndices`, keeping the invariant, and the name then finds its family |
| VkLogicalDevice.QueueFamilies.Family | circe/vk/core/logical_device.h:83-88 | returns an entry, the first one for an unknown name |
| VkPhysicalDevice.FirstCapableFamily | circe/vk/core/physical_device.cpp:123-131 | finds the first family with queues and all desired capability bits, or none when no later family has them |
| VkPhysicalDevice.SelectIndexOfQueueFamily | circe/vk/core/physical_device.cpp:121-133 | succeeds exactly when some family has queues and all desired bits, then reports the first one; otherwise leaves the index unchanged |
| VkPhysicalDevice.FirstPresentingFamily | circe/vk/core/physical_device.cpp:137-146 | finds the first family that supports presentation |
| VkPhysicalDevice.SelectPresentationFamily | circe/vk/core/physical_device.cpp:135-148 | succeeds exactly when some family presents, reporting the first; otherwise leaves the index unchanged |
| VkPhysicalDevice.IsExtensionSupported | circe/vk/core/physical_device.cpp:98-105 | true exactly when the name is among the device extensions |
| VkPhysicalDevice.FirstFittingType | circe/vk/core/physical_device.cpp:184-204 | finds the first memory type below the limit that the requirements allow and that has all the flags |
| VkPhysicalDevice.ScanMemoryTypes | circe/vk/core/physical_device.cpp:184-204 | one scan returns the first fitting type below its limit |
| VkPhysicalDevice.ChooseMemoryType | circe/vk/core/physical_device.cpp:178-207 | returns `~0u` exactly when no type among `memoryTypeCount` allows the preferred flags; otherwise the first of the 32 types with the required flags, or the preferred type when none has them; the result is allowed and has the required or preferred flags |
| VkPhysicalDevice.SelectPresentationMode | circe/vk/core/physical_device.cpp:208-240 | succeeds exactly when the desired mode or FIFO is listed, choosing the desired mode first and FIFO otherwise; on failure the mode is unchanged |
| VkPhysicalDevice.FirstWithFormat | circe/vk/core/physical_device.cpp:278-286 | finds the first surface format with the desired format |
| VkPhysicalDevice.ChosenSurfaceFormat | circe/vk/core/physical_device.cpp:241-293 | for a non-empty report, the desired pair when a single undefined format is reported or the pair is listed; otherwise a listed pair, or the desired format with a colour space listed for it; the first listed pair when the desired format is not listed at all |
| VkPhysicalDevice.SelectFormatOfSwapchainImages | circe/vk/core/physical_device.cpp:241-293 | fails only when no format is reported; a single undefined format accepts the desired pair; otherwise the desired pair if listed, else the desired format with the colour space of its first listing, else the first listed pair; on success the choice is `ChosenSurfaceFormat` |
| VkPhysicalDevice.FindSupportedFormat | circe/vk/core/physical_device.cpp:294-312 | succeeds exactly when some candidate has all the features for the tiling, returning such a candidate; any other tiling never succeeds; on failure the format is unchanged |
| VkPhysicalDevice.MaxUsableSampleCount | circe/vk/core/physical_device.cpp:326-345 | returns a single sample-count bit, the highest one present in the combined counts, or 1; without the depth buffer the mask is 0, so the result is always 1 |
| VkInstance.SupportInfo.constructor | circe/vk/core/instance.cpp:79-80 | nothing is loaded yet |
| VkInstance.SupportInfo.IsInstanceExtensionSupported | circe/vk/core/instance.cpp:107-120 | loads the available extensions on the first call only, then answers whether the name is among them |
| VkInstance.SupportInfo.IsValidationLayerSupported | circe/vk/core/instance.cpp:122-134 | loads the available layers on the first call only, then answers whether the name is among them |
| VkInstance.RequestedExtensions | circe/vk/core/instance.cpp:170-171 | the requested extensions are the desired ones followed by the debug-utils extension |
| VkInstance.Instance.constructor | circe/vk/core/instance.cpp:136 | a new instance holds no handles |
| VkInstance.Instance.Good | circe/vk/core/instance.cpp:228 | good exactly when the instance handle is not null |
| VkInstance.Instance.Destroy | circe/vk/core/instance.cpp:216-224 | both handles are null afterwards |
| VkInstance.Instance.MoveAssign | circe/vk/core/instance.cpp:156-163 | takes both handles of another instance and leaves it null; moving an instance into itself leaves both handles null |
| VkInstance.Instance.Init | circe/vk/core/instance.cpp:165-214 | succeeds exactly when every requested extension and every layer is supported and both creations succeed, then holds the created handles; a missing extension leaves no instance; a failure leaves no messenger |
| VkInstance.CandidateFamiliesNamed | circe/vk/core/instance.cpp:257-270 | a candidate's queue requests are well formed and name "graphics" the first capable family |
| VkInstance.ConsiderDevice | circe/vk/core/instance.cpp:258-270 | a device is a candidate exactly when it has a capable family and, with a surface, a presenting one; its requests are then graphics and, with a surface, presentation |
| VkInstance.PickPhysicalDevice | circe/vk/core/instance.cpp:249-278 | picks a candidate with a positive score that no candidate beats, the last one among equal scores, with its queue requests; picks none exactly when every candidate scores 0, and then leaves the caller's queue requests as they were |
| VkSync.DefaultBarrier | circe/vk/core/sync.cpp:117-119 | the default barrier has the image-memory-barrier structure type and every other field zero |
| VkSync.TransitionBarrier | circe/vk/core/sync.cpp:121-149 | the barrier names the image and both layouts, ignores queue-family ownership, covers the colour aspect of all mip levels of layer 0, and sets the access masks of the two upload transitions; every other transition keeps both masks zero |
| VkSync.UploadBarriersChain | circe/vk/core/sync.cpp:138-145 | the two upload barriers chain: the first ends in the layout the second starts from, the transfer write it makes available is what the second waits on, and the second makes it visible to shader reads over the same subresources |
| VkSync.OnlyUploadTransitionsHaveMasks | circe/vk/core/sync.cpp:138-148 | a barrier with any access mask is one of the two upload transitions |
| VkRenderEngine.NumberOfSwapChainImages | circe/vk/utils/render_engine.cpp:33-42 | asks for one image more than the minimum, as a `uint32_t`, capped by a nonzero maximum |
| VkRenderEngine.NumberOfImagesWithinLimits | circe/vk/utils/render_engine.cpp:33-42 | for capabilities that follow the Vulkan rules, the count is at least the minimum, at most a nonzero maximum, and either the minimum plus one or the maximum |
| VkRenderEngine.FitDimensionIsClamp | circe/vk/utils/render_engine.cpp:49-61 | the if/else-if adjustment of a dimension is a clamp to the allowed range, which keeps a preferred value already in range |
| VkRenderEngine.SizeOfSwapchainImages | circe/vk/utils/render_engine.cpp:44-66 | takes the current extent unless its width is the special value 0xFFFFFFFF, then fits 640 by 480 into the allowed extents |
| VkRenderEngine.ChosenSizeWithinLimits | circe/vk/utils/render_engine.cpp:47-61 | when the surface leaves the size open, the chosen size lies within the allowed extents and keeps 640 or 480 when allowed |
| VkRenderEngine.SurfaceTransform | circe/vk/utils/render_engine.cpp:184-190 | identity when supported, otherwise the current transform |
| VkRenderEngine.SwapChain.constructor | circe/vk/utils/render_engine.cpp:117-122 | a new swap chain has no settings yet |
| VkRenderEngine.NextFrame | circe/vk/utils/render_engine.cpp:312 | the frame slot stays below `max_frames_in_flight` |
| VkRenderEngine.NextFrameAlternates | circe/vk/utils/render_engine.cpp:312 | with two frames in flight the slot alternates: each draw changes it, two draws restore it |
| VkRenderEngine.FrameSlot.constructor | circe/vk/utils/render_engine.cpp:236 | the function-local static frame slot of `draw` starts at 0, once for the whole program |
| VkRenderEngine.RenderEngine.constructor | circe/vk/utils/render_engine.cpp:117-122 | a new engine owns a swap chain with no settings yet and has no frame slot of its own |
| VkRenderEngine.SharedSlotAcrossEngines | circe/vk/utils/render_engine.cpp:236-312 | the slot is shared: after one engine draws cleanly, a second, new engine draws in slot 1 |
| VkRenderEngine.RenderEngine.SetPresentationSurface | circe/vk/utils/render_engine.cpp:146-202 | succeeds exactly when mailbox or FIFO is offered, the capabilities are read, the chosen size is nonzero, colour attachment usage is supported and a format is reported; each step records its setting (mode with mailbox first, image count, size, usage and transform) once its checks pass, and the format on success is `ChosenSurfaceFormat` of the report and the desired pair; the first failing check leaves that setting and every later one as they were |
| VkRenderEngine.RenderEngine.Draw | circe/vk/utils/render_engine.cpp:235-313 | on the one program-wide slot, the frame slot advances exactly when an image was acquired and the presentation either forced a rebuild or followed a clean acquire; otherwise it stays |
| VkRenderPass.PointerTo | circe/vk/pipeline/renderpass.cpp:134-146 | an empty list is passed as a null pointer, any other list as itself |
| VkRenderPass.ToSubpassRecord | circe/vk/pipeline/renderpass.cpp:130-146 | the subpass record is graphics with no flags, carries the counts of input, colour and preserved references, a null pointer exactly for each empty list, and the depth-stencil reference exactly when one was set |
| VkRenderPass.SubpassRecordKeepsReferences | circe/vk/pipeline/renderpass.cpp:130-146 | the record's lists are the description's lists |
| VkRenderPass.SubpassDescription.constructor | circe/vk/pipeline/renderpass.cpp:33-34 | a new description has no references and no depth-stencil reference |
| VkRenderPass.SubpassDescription.AddInputAttachmentRef | circe/vk/pipeline/renderpass.cpp:36-41 | appends one input reference, returns its position, changes nothing else |
| VkRenderPass.SubpassDescription.AddColorAttachmentRef | circe/vk/pipeline/renderpass.cpp:43-48 | appends one colour reference, returns its position, changes nothing else |
| VkRenderPass.SubpassDescription.AddResolveAttachmentRef | circe/vk/pipeline/renderpass.cpp:50-56 | appends one resolve reference, returns its position, changes nothing else |
| VkRenderPass.SubpassDescription.SetDepthStencilAttachmentRef | circe/vk/pipeline/renderpass.cpp:58-63 | sets the depth-stencil reference and marks it set, changes nothing else |
| VkRenderPass.SubpassDescription.PreserveAttachment | circe/vk/pipeline/renderpass.cpp:65-67 | appends one preserved attachment, changes nothing else |
| VkRenderPass.RenderPass.constructor | circe/vk/pipeline/renderpass.cpp:98 | a new render pass is empty and has no handle |
| VkRenderPass.RenderPass.AddAttachment | circe/vk/pipeline/renderpass.cpp:178-189 | appends one attachment description and returns its position |
| VkRenderPass.RenderPass.AddSubpassDependency | circe/vk/pipeline/renderpass.cpp:190-204 | appends one dependency |
| VkRenderPass.RenderPass.NewSubpassDescription | circe/vk/pipeline/renderpass.cpp:205-210 | appends a fresh empty description and returns it with its position |
| VkRenderPass.RenderPass.SubpassRecords | circe/vk/pipeline/renderpass.cpp:128-148 | translates every description, in order |
| VkRenderPass.RenderPass.Init | circe/vk/pipeline/renderpass.cpp:125-163 | succeeds exactly when the creation returns a handle, which it stores, and passes one record per description |
| VkRenderPass.Framebuffer.constructor | circe/vk/pipeline/renderpass.cpp:225-229 | a new framebuffer has the given size and layers, no attachments and no handle |
| VkRenderPass.Framebuffer.AddAttachment | circe/vk/pipeline/renderpass.cpp:275-277 | appends one image view |
| VkRenderPass.Framebuffer.MoveAssignAsWritten | circe/vk/pipeline/renderpass.cpp:243-245 | as written, move assignment changes neither framebuffer |
| VkRenderPass.MoveAssignLosesAttachments | circe/vk/pipeline/renderpass.cpp:243-245 | after the as-written move assignment the target still has no attachments while the source keeps its view |
| VkRenderPass.Framebuffer.MoveAssign | circe/vk/pipeline/renderpass.cpp:231-237 | takes the other framebuffer's size, layers, attachments and handle, as the move constructor does, and leaves the other without a handle |
| VkPipeline.DescriptorSetLayout.constructor | circe/vk/pipeline/pipeline.cpp:35 | a new set layout has no bindings and no handle |
| VkPipeline.DescriptorSetLayout.AddLayoutBinding | circe/vk/pipeline/pipeline.cpp:89-96 | appends exactly one binding |
| VkPipeline.PipelineLayout.constructor | circe/vk/pipeline/pipeline.cpp:118 | a new pipeline layout has no set layouts and no push-constant ranges |
| VkPipeline.PipelineLayout.CreateLayoutSet | circe/vk/pipeline/pipeline.cpp:181-184 | appends one new empty set layout, keeps the earlier ones, and returns its position |
| VkPipeline.PipelineLayout.AddPushConstantRange | circe/vk/pipeline/pipeline.cpp:186-190 | appends exactly one push-constant range |
| VkPipeline.TotalDescriptorsAppend | circe/vk/pipeline/pipeline.cpp:258-263 | the running `u32` total after one more pool size is the total of all descriptor counts modulo 2^32 |
| VkPipeline.DescriptorPool.constructor | circe/vk/pipeline/pipeline.cpp:204-208 | a new pool keeps `max_sets`, has no pool sizes, a zero total and no handle |
| VkPipeline.DescriptorPool.SetPoolSize | circe/vk/pipeline/pipeline.cpp:258-263 | appends one pool size and adds its count to the `u32` total |
| VkPipeline.DescriptorPool.Init | circe/vk/pipeline/pipeline.cpp:233-243 | the create record frees individual sets and passes as `maxSets` the total of the descriptor counts modulo 2^32, not `max_sets`; it succeeds exactly when a handle is created |
| VkPipeline.DescriptorPool.Allocate | circe/vk/pipeline/pipeline.cpp:270-289 | a pool without a handle that cannot be created fails and leaves the sets alone; otherwise the sets are replaced by one per layout, the allocated handles on success and null handles on failure |
| VkPipeline.PipelineShaderStage.constructor | circe/vk/pipeline/pipeline.cpp:312 | a new stage has no specialization entries |
| VkPipeline.PipelineShaderStage.Set | circe/vk/pipeline/pipeline.cpp:360-373 | records the stage, module, entry name and data size and resets the reported entry count, while the stored entries stay |
| VkPipeline.PipelineShaderStage.AddSpecializationMapEntry | circe/vk/pipeline/pipeline.cpp:375-382 | appends one entry and reports all stored entries |
| VkPipeline.ReusedStageReportsStaleEntries | circe/vk/pipeline/pipeline.cpp:360-382 | a stage reused through `set` reports the entries added before `set` as well as the new one |
| VkPipeline.VertexInputState.constructor | circe/vk/pipeline/pipeline.cpp:526-534 | a new vertex input state has no descriptions |
| VkPipeline.VertexInputState.AddBindingDescription | circe/vk/pipeline/pipeline.cpp:536-542 | appends one binding description, keeps the attribute descriptions, and keeps the record's count in step |
| VkPipeline.VertexInputState.AddAttributeDescription | circe/vk/pipeline/pipeline.cpp:544-550 | appends one attribute description, keeps the binding descriptions, and keeps the record's count in step |
| VkPipeline.ViewportState.constructor | circe/vk/pipeline/pipeline.cpp:557-564 | a new viewport state has no viewports and no scissors |
| VkPipeline.ViewportState.AddViewport | circe/vk/pipeline/pipeline.cpp:566-573 | appends one viewport, keeps the scissors, counts in step |
| VkPipeline.ViewportState.AddScissor | circe/vk/pipeline/pipeline.cpp:575-582 | appends one scissor, keeps the viewports, counts in step |
| VkPipeline.ViewportState.ViewportAt | circe/vk/pipeline/pipeline.cpp:584-587 | returns the viewport stored at position i, for i in range as the source asserts |
| VkPipeline.ViewportState.ScissorAt | circe/vk/pipeline/pipeline.cpp:588-591 | returns the scissor stored at position i, for i in range as the source asserts |
| VkPipeline.ColorBlendState.constructor | circe/vk/pipeline/pipeline.cpp:598-605 | a new blend state has no attachments and logic ops off |
| VkPipeline.ColorBlendState.SetLogicOp | circe/vk/pipeline/pipeline.cpp:607-610 | turns logic ops on with the given operation |
| VkPipeline.ColorBlendState.AddAttachmentState | circe/vk/pipeline/pipeline.cpp:612-624 | appends one attachment state, count in step |
| VkPipeline.ColorBlendState.SetBlendConstants | circe/vk/pipeline/pipeline.cpp:626-632 | the blend constants become r, g, b, a |
| VkPipeline.GraphicsPipeline.constructor | circe/vk/pipeline/pipeline.cpp:639 | a new pipeline has no handle and no dynamic state |
| VkPipeline.GraphicsPipeline.AddDynamicState | circe/vk/pipeline/pipeline.cpp:811-823 | creates the dynamic-state record on first use, appends one state and keeps its count equal to the number of states |
| VkPipeline.GraphicsPipeline.InitAsWritten | circe/vk/pipeline/pipeline.cpp:689-718 | as written, `init` stores the created handle and reports failure whatever happens |
| VkPipeline.InitReportsFailureOnSuccess | circe/vk/pipeline/pipeline.cpp:714-717 | a pipeline created successfully is still reported as a failure |
| VkPipeline.GraphicsPipeline.Init | circe/vk/pipeline/pipeline.cpp:689-718 | stores the created handle and succeeds exactly when creation returned one |
| VkCommandBuffer.RenderPassBeginInfo.constructor | circe/vk/pipeline/command_buffer.cpp:33-46 | the record names the render pass and framebuffer, covers the whole framebuffer from the origin, and has no clear values |
| VkCommandBuffer.RenderPassBeginInfo.SetRenderArea | circe/vk/pipeline/command_buffer.cpp:48-54 | sets the render area's offset and extent |
| VkCommandBuffer.RenderPassBeginInfo.AddClearColorValueFloat | circe/vk/pipeline/command_buffer.cpp:56-66 | appends one float colour r, g, b, a and recounts |
| VkCommandBuffer.RenderPassBeginInfo.AddClearColorValueInt | circe/vk/pipeline/command_buffer.cpp:68-78 | appends one signed integer colour r, g, b, a and recounts |
| VkCommandBuffer.RenderPassBeginInfo.AddClearColorValueUintAsWritten | circe/vk/pipeline/command_buffer.cpp:80-90 | as written, the unsigned colour holds only `a` in its first word, the other three words being whatever the uninitialised value held |
| VkCommandBuffer.UintClearColorLosesRed | circe/vk/pipeline/command_buffer.cpp:83-86 | clearing to (255, 0, 0, 1) as written stores 1 as the red word, never the intended colour |
| VkCommandBuffer.RenderPassBeginInfo.AddClearColorValueUint | circe/vk/pipeline/command_buffer.cpp:80-90 | appends the unsigned colour r, g, b, a and recounts |
| VkCommandBuffer.RenderPassBeginInfo.AddClearDepthStencilValue | circe/vk/pipeline/command_buffer.cpp:92-100 | appends one depth-stencil clear value and recounts |
| VkCommandBuffer.DescriptorSetCount | circe/vk/pipeline/command_buffer.cpp:233-234 | a nonzero count is used as given; a zero count becomes the sets after `first_set`, wrapping to 2^32 + size - first when `first_set` is past the end |
| VkCommandBuffer.TruncateDifference | circe/vk/pipeline/command_buffer.cpp:234 | the 64-bit difference truncated to 32 bits is the plain difference when it fits, and wraps otherwise |
| VkCommandBuffer.CommandPool.constructor | circe/vk/pipeline/command_buffer.cpp:349-355 | the pool keeps its handle |
| VkCommandBuffer.CommandPool.AllocateCommandBuffers | circe/vk/pipeline/command_buffer.cpp:387-407 | succeeds exactly when the allocation does, replacing the vector with the `count` allocated buffers in order; on failure the vector is left alone |
| VkCommandBuffer.CommandPool.FreeCommandBuffers | circe/vk/pipeline/command_buffer.cpp:409-423 | always succeeds and empties the vector; an empty vector frees nothing, otherwise exactly its buffers are freed, in order |
| ProgramManagers.ProgramManager.constructor | circe/gl/graphics/program_manager.cpp:40 | a new registry has no programs and no names, and is consistent |
| ProgramManagers.ProgramManager.Push | circe/gl/graphics/program_manager.cpp:50-66 | a failed link returns ERROR and leaves the registry unchanged; a linked program is appended, its handle is the old program count, and the name and index then map to each other |
| ProgramManagers.ProgramManager.ProgramIndex | circe/gl/graphics/program_manager.cpp:68-73 | succeeds exactly for registered names, else OUT_OF_BOUNDS; in a consistent registry the index is a program's and maps back to the name |
| ProgramManagers.ProgramManager.ProgramName | circe/gl/graphics/program_manager.cpp:75-80 | succeeds exactly for registered indices, else OUT_OF_BOUNDS; in a consistent registry the index is below the program count and its name is registered |
| ProgramManagers.ProgramManager.ProgramByName | circe/gl/graphics/program_manager.cpp:82-87 | points at the slot registered for the name, with no check against the program list; OUT_OF_BOUNDS for an unknown name |
| ProgramManagers.ProgramManager.ProgramAt | circe/gl/graphics/program_manager.cpp:89-93 | OUT_OF_BOUNDS exactly when the index is not below the program count; otherwise that slot |
| ProgramManagers.ProgramManager.ProgramOf | circe/gl/graphics/program_manager.cpp:95-99 | the same bounds check as by index, on the handle's program id |
| ProgramManagers.ProgramManager.CleanupAsWritten | circe/gl/graphics/program_manager.cpp:101-103 | clears the program list only; the name and index maps are kept |
| ProgramManagers.StaleNameAfterCleanup | circe/gl/graphics/program_manager.cpp:82-87 | after a push and the written cleanup, the name still resolves to slot 0 of an empty list and the registry is no longer consistent |
| ProgramManagers.ProgramManager.Cleanup | circe/gl/graphics/program_manager.cpp:101-103 | clears programs and both maps, so the registry stays consistent |
| ProgramManagers.NoNameAfterCleanup | circe/gl/graphics/program_manager.cpp:82-87 | after a push and the corrected cleanup, the name lookup is OUT_OF_BOUNDS |
| ProgramManagers.NameIndexRoundTrip | circe/gl/graphics/program_manager.cpp:63-64 | in a consistent registry, the name found at a name's index is that name |
| SceneResources.SceneResourceManager.constructor | circe/gl/scene/scene_resource_manager.cpp:38 | a new registry holds no models |
| SceneResources.SceneResourceManager.PushModel | circe/gl/scene/scene_resource_manager.cpp:40-59 | appends the model and returns a handle to the old model count, which then looks up that model |
| SceneResources.SceneResourceManager.PushModelUnsupported | circe/gl/scene/scene_resource_manager.h:73-76 | the catch-all overload stores nothing and returns NOT_IMPLEMENTED |
| SceneResources.SceneResourceManager.ModelOf | circe/gl/scene/scene_resource_manager.cpp:61-65 | OUT_OF_BOUNDS exactly when the handle's index is not below the model count; otherwise that model's position |
| SceneResources.SceneResourceManager.ModelHandle | circe/gl/scene/scene_resource_manager.cpp:67-71 | OUT_OF_BOUNDS exactly when the index is not below the model count; otherwise a handle that looks up that index |
| SceneResources.SceneResourceManager.Cleanup | circe/gl/scene/scene_resource_manager.cpp:73-75 | drops every model, after which every handle and index lookup is OUT_OF_BOUNDS |
| SceneResources.HandlesSurvivePushes | circe/gl/scene/scene_resource_manager.cpp:47-65 | a handle from a push still looks up the same model after a later push |
| Textures.UVOfInside | circe/gl/texture/texture.cpp:48-59 | for a region inside an atlas of non-zero width and height, every uv coordinate is a number in [0, 1] and the lower corner is not above the upper one |
| Textures.UVOfZeroSize | circe/gl/texture/texture.cpp:48-59 | along a dimension of size 0 both coordinates divide by zero, so they are not numbers in [0, 1] (NaN or infinite in the source) |
| Textures.Atlas.constructor | circe/gl/texture/texture.cpp:32 | an empty atlas of size 0 x 0 |
| Textures.Atlas.Push | circe/gl/texture/texture.cpp:40-61 | the atlas grows to the maximum of its size and the region's upper corner, the region is appended at the returned position, and every uv box matches its region for the new size |
| Textures.Atlas.UpdateUVs | circe/gl/texture/texture.cpp:63-76 | every uv box becomes its region's box for the current atlas size |
| Textures.Atlas.RegionAt | circe/gl/texture/texture.cpp:78-80 | the const `operator[]`: the region stored at that position, which lies inside the atlas |
| Textures.Atlas.UV | circe/gl/texture/texture.cpp:86-88 | the stored box, equal to its region's box for the current size |
| Textures.UVsInUnitRange | circe/gl/texture/texture.cpp:40-76 | every stored uv coordinate of a valid atlas of non-zero width and height lies in [0, 1] |
| Textures.DefaultView | circe/gl/texture/texture.cpp:90-100 | wrap S and T (and R exactly for 3-D targets) clamp to edge, linear min and mag filters, base and max level 0, no border |
| Textures.BorderView | circe/gl/texture/texture.cpp:102-109 | the same keys as the default view, every wrap key clamps to the border, and the border colour is kept |
| Textures.BorderViewKeepsFilters | circe/gl/texture/texture.cpp:102-109 | a border view agrees with the default view on every key except the wrap keys |
| ImGuiLogger.Back | circe/ui/imgui_logger.cpp:99-107 | the slot holding the message logged k before the newest lies inside the ring |
| ImGuiLogger.AdvanceIsIncrementMod | circe/ui/imgui_logger.cpp:107 | advancing the next index is the increment modulo the capacity |
| ImGuiLogger.BackAfterWrite | circe/ui/imgui_logger.cpp:105-107 | after a write the newest message is at the written slot and every older one moves one step back, never onto that slot |
| ImGuiLogger.RingAfterWrite | circe/ui/imgui_logger.cpp:105-107 | writing at the next index and advancing it keeps every one of the last capacity-many messages at its ring slot |
| ImGuiLogger.HLogger.constructor | circe/ui/imgui_logger.cpp:33-43 | enabled, count and next index 0, capacity 10 with ten empty slots, white info, yellow warnings, red errors and critical messages |
| ImGuiLogger.HLogger.SetMaxLogCountAsWritten | circe/ui/imgui_logger.cpp:88-91 | as written: capacity and cache length become the new count, keeping the entries that fit and padding with empty ones, the next index untouched; the ring holds again exactly when that index is within the new capacity |
| ImGuiLogger.HLogger.SetMaxLogCount | circe/ui/imgui_logger.cpp:88-91 | corrected: the same resize, with a next index beyond the new capacity clamped to it, so the ring always holds afterwards |
| ImGuiLogger.ShrinkLeavesIndexBeyondCache | circe/ui/imgui_logger.cpp:88-91 | as written, seven messages at capacity 10 and then a capacity of 3 leave the next index at 7, beyond the three-slot cache, and the ring broken |
| ImGuiLogger.ShrinkClampsIndex | circe/ui/imgui_logger.cpp:88-91 | corrected, the same sequence leaves the index at 3 and the ring intact |
| ImGuiLogger.HLogger.LogMessage | circe/ui/imgui_logger.cpp:93-108 | callable on any logger whose ring holds when its cache is non-empty; nothing changes while disabled or with an empty cache; otherwise the count goes up by one, the message overwrites the next slot (slot 0 once the index reached the end), the index advances modulo the capacity, and the ring of recent messages is kept |
| ImGuiLogger.HLogger.Enable | circe/ui/imgui_logger.cpp:110-112 | logging is enabled |
| ImGuiLogger.HLogger.Disable | circe/ui/imgui_logger.cpp:114-116 | logging is disabled |
| ImGuiLogger.HLogger.ColorFrom | circe/ui/imgui_logger.cpp:118-128 | the colour of the first set severity in the order info, warn, error, critical; the info colour when none is set |
| ImGuiLogger.OldestOverwrittenOnceFull | circe/ui/imgui_logger.cpp:93-108 | in a ring of two, the third message replaces the first and the second is kept |
| BVHBuild.Size | circe/gl/scene/bvh.cpp:56-57 | every built tree has at least one node |
| BVHBuild.ShapedInterior | circe/gl/scene/bvh.cpp:78-91 | two halves built over the lower n / 2 and the remaining elements join into an interior node over the whole range |
| BVHBuild.ShapedSize | circe/gl/scene/bvh.cpp:52-94 | a tree built over n elements has n >= 1 and exactly 2n - 1 nodes |
| BVHBuild.Flatten | circe/gl/scene/bvh.cpp:96-110 | the pre-order flattening of a tree has one record per node |
| BVHBuild.FlattenedRecords | circe/gl/scene/bvh.cpp:96-110 | in the flattening of a built tree, a leaf record holds one listed element and an interior record none, and an interior record's second child comes after its first child and inside the flattened range |
| BVHBuild.FlattenStep | circe/gl/scene/bvh.cpp:99-107 | flattening both subtrees after a node's slot and then writing its record there writes the node's whole flattening |
| BVHBuild.MidSplit | circe/gl/scene/bvh.cpp:78 | for a range of two or more elements, mid = (start + end) / 2 gives the lower half n / 2 elements and both halves at least one |
| BVHBuild.JoinHalves | circe/gl/scene/bvh.cpp:89-91 | the left build reorders only the lower half and the right build only the upper half, so together they only reorder the range and the right build keeps the lower half |
| BVHBuild.ListedInOrder | circe/gl/scene/bvh.cpp:65-69 | the elements listed by the two halves, one after the other (lower half first), are the final contents of the whole range |
| BVHBuild.BVH.constructor | circe/gl/scene/bvh.cpp:33-50 | over count >= 1 elements the build makes 2 * count - 1 nodes, sizes the node array by that count, lists every element exactly once, and fills the array with the pre-order flattening of the tree |
| BVHBuild.BVH.RecursiveBuild | circe/gl/scene/bvh.cpp:52-94 | counts one node per call; the range is only reordered within itself; the ordered list grows by the range's final contents; the tree has one-element leaves in list order and splits at the middle; the list order and leaf offsets assume the left half is built first |
| BVHBuild.BVH.SplitRange | circe/gl/scene/bvh.cpp:72-92 | an interior node over the range, its children built over the lower and then the upper half (left-to-right argument evaluation), with the same reordering, listing and counting guarantees |
| BVHBuild.BVH.Partition | circe/gl/scene/bvh.cpp:73-88 | picks one of the three axes and reorders only the given range, keeping its elements |
| BVHBuild.BVH.FlattenBVHTree | circe/gl/scene/bvh.cpp:96-110 | returns the slot it started at, advances the offset by the subtree's node count, and writes the subtree's pre-order flattening there and nothing else |
| BVHBuild.BVH.FlattenSplit | circe/gl/scene/bvh.cpp:103-108 | the interior branch: the same guarantees, with the record pointing at the second subtree |
| BVHBuild.BVH.WriteRecord | circe/gl/scene/bvh.cpp:97-107 | stores one record and changes no other slot |
| SpatialArray.Array.constructor | circe/scene/array.h:16 | a new array holds no objects |
| SpatialArray.Array.Add | circe/scene/array.h:19 | appends exactly the given object |
| SpatialArray.Array.Iterate | circe/scene/array.h:21-30 | applies the function once to each object, in insertion order |
| SpatialArray.Array.Intersect | circe/scene/array.h:32-47 | no object and INFINITY when nothing is hit; otherwise the first object whose hit parameter is the least of all hits, with that parameter |
| SpatialArray.NearestUnique | circe/scene/array.h:32-47 | the answer of a query is determined by the hit outcomes |
| SpatialArray.TieGoesToEarliest | circe/scene/array.h:38-41 | with two hits at the same parameter, the earlier object is reported |

## Left out

- SceneModel.ElementCountOf: the strip and fan values are stated for index counts below 2^64 only, the range of the `size_t` that holds them.
- OpenGL and Vulkan calls (creation, destruction, enumeration, queries, submission, presentation, memory mapping) are not modelled. Their results are parameters: a handle, a success flag or a reported list.
- Fences, semaphores, frames in flight and the waits in `RenderEngine::draw` are left out; only the frame counter is modelled.
- Floating-point geometry is left out: shape vertex positions, normals, uvs and tangents, BVH bounding boxes, ray/box intersection and `BVH::intersect`/`isInside`, camera math and colours. Colours and clear values are reals with no rounding.
- File and image I/O is left out. The OBJ parser's output is an input, and `Model::fromFile` is replaced by the loaded model.
- `HLogger::render` (ImGui drawing) is left out, along with the hermes logger configuration and callback registration in the `HLogger` constructor.
- ProgramManagers.ProgramManager.Push: the free-index stack is never filled in the source, so only the append branch is modelled. Shader compilation and `setShaderSearchPath` are replaced by the link outcome.
- Textures.Atlas.Push: a uv coordinate is the exact fraction texel / atlas size, not the rounded float the source stores. Atlas sizes and region corners are unbounded naturals: the u32 sum `region.offset + region.size` (texture.cpp:41) that can wrap in the source is not modelled, so a wrapped corner that would leave the region outside the atlas is not covered.
- Textures.Atlas.RegionAt models only the const `operator[]` (texture.cpp:78-80). The non-const one (texture.cpp:82-84) returns a mutable reference through which a caller can change a region without the uv box or the atlas size following, so `Valid()` holds only as long as no caller does that; writes through that reference are not modelled.
- BVHBuild.BVH.constructor requires at least one element. With none, `recursiveBuild` takes the interior branch on an empty range and recurses without end.
- VkModelLoading.LoadObjIndexing requires every corner to have a texture-coordinate index inside `attrib.texcoords`. A face without uvs has index -1 from tinyobj, and scene_model.cpp:148-150 then reads `attrib.texcoords[-2]` and `[-1]`, outside the array; such an OBJ file is not modelled.
- VkModelLoading.LoadObjIndexing requires a layout with a positive stride. An empty layout makes scene_model.cpp:155-156 divide by `stride() / sizeof(float) == 0`; that input is not modelled.
- Shapes.Icosphere states at least 12 vertices, not the exact count 10 · 4^d + 2 of a cache-sharing refinement, which would need the number of distinct edges of every level.
- BVHBuild.BVH.RecursiveBuild: the choice of split axis and `std::nth_element` are a `Splitter` parameter that may reorder a range in any way that keeps its elements. The `uint32_t` node counter and offsets are unbounded naturals.
- BVHBuild.BVH.RecursiveBuild fixes left-to-right evaluation of the two `recursiveBuild` calls passed to one `initInterior` call (bvh.cpp:80-83, 89-91). C++ leaves that order unspecified, and a compiler that evaluates them right to left lists the right half's elements first and gives the leaves other offsets. The listing order (`orderedElements == old(orderedElements) + buildData[start..end]`), the leaf offsets and `BVHBuild.ListedInOrder` hold only for left-to-right evaluation. The node count, the in-range reordering and each element being listed once hold under either order.
- BVHBuild.Flatten: the `LinearBVHNode` fields a branch does not write (offset and count of an interior node, axis and second child of a leaf) are 0 here, not left default-initialised.
- SpatialArray.Array.Intersect: each object's ray test is given as its outcome. A hit parameter is a finite real, so NaN and an infinite hit are not modelled, and the result is the object's position rather than its pointer.
- Shapes.PlaneWireframe requires both division counts below 2^32 - 1. At 2^32 - 1 the u32 loop counter of `for (u32 x = 0; x <= divisions.width; ++x)` wraps to 0 and the loop never ends. Its indices are unbounded integers, not narrowed to the `i32` the source stores them as.
- Shapes.PlaneVertexOrder requires both division counts below 2^32 - 1, for the same endless u32 loop.
- Shapes.PlaneAsWritten requires both division counts below 2^32 - 1, for the same endless u32 loop. Its indices are unbounded integers: the source stores each u64 index into a `std::vector<i32>`, which changes any index of 2^31 or more; that narrowing is not modelled.
- Shapes.Plane has the same division bound and the same unmodelled i32 narrowing of indices of 2^31 or more. When (w+1)(h+1) exceeds 2^32 the vertex array it sizes is smaller than the points the loop writes; the model states the wrapped size but not the out-of-bounds writes.
- Textures: `Texture` objects themselves (GL texture creation, binding, upload) are not part of this model; only `Atlas` and the `View` parameter maps are.

## Findings

| source | as written | input that shows it | evidently intended | confidence | as-written member | corrected member |
|---|---|---|---|---|---|---|
| circe/gl/storage/vertex_attributes.cpp:96-107 | `updateOffsets` first resizes `offsets_` to the attribute count, then appends the real offsets after those zeros | `push` of {position, 3 floats} and {normal, 3 floats} leaves offsets 0, 0, 0, 12, so the normal's offset reads as 0 | `offsets_` holds exactly one prefix offset per attribute (0, 12) | not executed | VertexAttributes.VertexAttributeSet.PushAllAsWritten, VertexAttributes.PushAllAsWrittenCounterexample | VertexAttributes.VertexAttributeSet.PushAll |
| circe/scene/shapes.cpp:441-449 | the solid plane indexes its cells with row stride `divisions.width + 1` | 2 by 1 divisions: 6 vertices, but index 7 is emitted | row stride `divisions.height + 1`, which keeps every index below (w+1)(h+1) | not executed | Shapes.PlaneAsWritten, Shapes.PlaneAsWrittenOutOfRange | Shapes.Plane |
| circe/scene/shapes.cpp:276-305 | `icosphere` never fills `indices_cache` and keeps the old faces after splitting them | one division: faces 0 and 4 share edge 0-11 yet get midpoint vertices 12 and 26, and the index count grows ×5 | shared edges reuse one midpoint, and each face is replaced by its four children | not executed | Shapes.IcosphereAsWritten, Shapes.IcosphereAsWrittenSplitsEdgesTwice | Shapes.Icosphere |
| circe/ui/imgui_logger.cpp:88-108 | `setMaxLogCount` resizes the cache but leaves `next_cache_index_` as it was | capacity 10, seven messages, then `setMaxLogCount(3)`: the next `logMessage` sees index 7 ≠ size 3 and writes `cache_[7]` of a three-slot vector | the next index never exceeds the new capacity (for example, clamped to it) | not executed | ImGuiLogger.HLogger.SetMaxLogCountAsWritten, ImGuiLogger.ShrinkLeavesIndexBeyondCache | ImGuiLogger.HLogger.SetMaxLogCount |
| circe/vk/pipeline/renderpass.cpp:243-245 | `Framebuffer` move assignment returns `*this` and changes nothing | moving a framebuffer with one attachment into an empty one leaves the target with no attachments | take the attachments and handle, as the move constructor does | not executed | VkRenderPass.Framebuffer.MoveAssignAsWritten, VkRenderPass.MoveAssignLosesAttachments | VkRenderPass.Framebuffer.MoveAssign |
| circe/vk/pipeline/command_buffer.cpp:80-90 | `addClearColorValueu` writes all four components to `uint32[0]` | clearing to (255, 0, 0, 1) stores 1 as the red word | word i holds component i | not executed | VkCommandBuffer.RenderPassBeginInfo.AddClearColorValueUintAsWritten, VkCommandBuffer.UintClearColorLosesRed | VkCommandBuffer.RenderPassBeginInfo.AddClearColorValueUint |
| circe/vk/pipeline/pipeline.cpp:714-717 | `GraphicsPipeline::init` returns `false` after a successful creation | any creation that returns a valid handle | return `true` on success | not executed | VkPipeline.GraphicsPipeline.InitAsWritten, VkPipeline.InitReportsFailureOnSuccess | VkPipeline.GraphicsPipeline.Init |
| circe/gl/graphics/program_manager.cpp:101-103 | `cleanup` clears the programs but keeps both name maps | push "basic", cleanup, then `program("basic")` points at slot 0 of an empty list | forget the names with the programs | not executed | ProgramManagers.ProgramManager.CleanupAsWritten, ProgramManagers.StaleNameAfterCleanup | ProgramManagers.ProgramManager.Cleanup |
