/**
 * The pipeline-state builders of circe/vk/pipeline/pipeline.cpp. Each builder
 * appends to a vector and, where the source keeps a Vulkan create-info record
 * beside it, rewrites the record's count field; the count fields below are
 * those record fields. Creation calls are replaced by the handle they return;
 * floats are reals.
 */
module VkPipeline {
  import opened Wrappers

  // ---------------------------------------------------------------- descriptor set layouts

  /** `VkDescriptorSetLayoutBinding` (no immutable samplers). */
  datatype LayoutBinding = LayoutBinding(binding: nat, descriptorType: nat, descriptorCount: nat, stageFlags: nat)

  class DescriptorSetLayout {
    var bindings: seq<LayoutBinding>
    var handle: VkHandle

    constructor ()
      ensures bindings == [] && handle == NullHandle
    {
      bindings, handle := [], NullHandle;
    }

    /** `addLayoutBinding`: appends one binding. */
    method AddLayoutBinding(b: LayoutBinding)
      modifies this`bindings
      ensures bindings == old(bindings) + [b]
    {
      bindings := bindings + [b];
    }
  }

  // ---------------------------------------------------------------- pipeline layouts

  /** `VkPushConstantRange`. */
  datatype PushConstantRange = PushConstantRange(stageFlags: nat, offset: nat, size: nat)

  class PipelineLayout {
    var descriptorSets: seq<DescriptorSetLayout>
    var pushConstantRanges: seq<PushConstantRange>

    constructor ()
      ensures descriptorSets == [] && pushConstantRanges == []
    {
      descriptorSets, pushConstantRanges := [], [];
    }

    /**
     * `createLayoutSet(id)`: the argument is ignored; a new, empty set layout is
     * appended and its position returned.
     */
    method CreateLayoutSet(id: nat) returns (index: nat)
      modifies this`descriptorSets
      ensures |descriptorSets| == |old(descriptorSets)| + 1 && descriptorSets[..|old(descriptorSets)|] == old(descriptorSets)
      ensures index == |old(descriptorSets)|
      ensures fresh(descriptorSets[index]) && descriptorSets[index].bindings == []
    {
      var layout := new DescriptorSetLayout();
      descriptorSets := descriptorSets + [layout];
      index := |descriptorSets| - 1;
    }

    /** `addPushConstantRange`: appends one range. */
    method AddPushConstantRange(stageFlags: nat, offset: nat, size: nat)
      modifies this`pushConstantRanges
      ensures pushConstantRanges == old(pushConstantRanges) + [PushConstantRange(stageFlags, offset, size)]
    {
      pushConstantRanges := pushConstantRanges + [PushConstantRange(stageFlags, offset, size)];
    }
  }

  // ---------------------------------------------------------------- descriptor pools

  /** `VkDescriptorPoolSize`. */
  datatype PoolSize = PoolSize(descriptorType: nat, descriptorCount: nat)

  /** The fields of `VkDescriptorPoolCreateInfo` that `init` fills from the pool's state. */
  datatype DescriptorPoolCreateInfo = DescriptorPoolCreateInfo(flags: nat, maxSets: nat, poolSizes: seq<PoolSize>)

  const VK_DESCRIPTOR_POOL_CREATE_FREE_DESCRIPTOR_SET_BIT: nat := 0x1

  /** The total number of descriptors requested by a list of pool sizes. */
  function TotalDescriptors(sizes: seq<PoolSize>): nat
  {
    if sizes == [] then 0 else TotalDescriptors(sizes[..|sizes| - 1]) + sizes[|sizes| - 1].descriptorCount
  }

  /** `u32` accumulation of one more count keeps the wrapped running total. */
  lemma {:induction false} TotalDescriptorsAppend(sizes: seq<PoolSize>, p: PoolSize, running: nat)
    requires running == TotalDescriptors(sizes) % U32_MODULUS
    ensures (running + p.descriptorCount) % U32_MODULUS == TotalDescriptors(sizes + [p]) % U32_MODULUS
  {
    assert (sizes + [p])[..|sizes + [p]| - 1] == sizes;
    var t := TotalDescriptors(sizes);
    assert t == (t / U32_MODULUS) * U32_MODULUS + running;
    DivModUnique(t + p.descriptorCount, U32_MODULUS, t / U32_MODULUS + (running + p.descriptorCount) / U32_MODULUS,
                 (running + p.descriptorCount) % U32_MODULUS);
  }

  class DescriptorPool {
    var maxSets: nat
    var poolSizes: seq<PoolSize>
    /** `sets_count_`, a `u32` that `setPoolSize` accumulates. */
    var setsCount: nat
    var handle: VkHandle

    /** `sets_count_` is the wrapped total of every descriptor count added. */
    ghost predicate Valid()
      reads this
    {
      setsCount == TotalDescriptors(poolSizes) % U32_MODULUS
    }

    constructor (maxSets: nat)
      ensures Valid() && this.maxSets == maxSets && poolSizes == [] && setsCount == 0 && handle == NullHandle
    {
      this.maxSets := maxSets;
      poolSizes, setsCount, handle := [], 0, NullHandle;
    }

    /** `setPoolSize`: appends one pool size and adds its count to `sets_count_`. */
    method SetPoolSize(descriptorType: nat, descriptorCount: nat)
      requires Valid()
      modifies this`poolSizes, this`setsCount
      ensures Valid()
      ensures poolSizes == old(poolSizes) + [PoolSize(descriptorType, descriptorCount)]
      ensures setsCount == (old(setsCount) + descriptorCount) % U32_MODULUS
    {
      TotalDescriptorsAppend(poolSizes, PoolSize(descriptorType, descriptorCount), setsCount);
      setsCount := (setsCount + descriptorCount) % U32_MODULUS;
      poolSizes := poolSizes + [PoolSize(descriptorType, descriptorCount)];
    }

    /**
     * `init()`: the pool is created with `sets_count_` (the number of
     * descriptors added), not `max_sets_`, as its maximum number of sets.
     * `created` is what `vkCreateDescriptorPool` returns.
     */
    method Init(created: VkHandle) returns (ok: bool, info: DescriptorPoolCreateInfo)
      requires Valid()
      modifies this`handle
      ensures info.maxSets == TotalDescriptors(poolSizes) % U32_MODULUS
      ensures info == DescriptorPoolCreateInfo(VK_DESCRIPTOR_POOL_CREATE_FREE_DESCRIPTOR_SET_BIT, setsCount, poolSizes)
      ensures ok <==> created.Live?
      ensures handle == created
    {
      info := DescriptorPoolCreateInfo(VK_DESCRIPTOR_POOL_CREATE_FREE_DESCRIPTOR_SET_BIT, setsCount, poolSizes);
      handle := created;
      ok := created.Live?;
    }

    /**
     * The sizing of `allocate`: a pool without a handle is created first (and a
     * failed creation returns false with `sets` untouched); then the output is
     * reset to one null handle per layout and filled by the allocation, whose
     * result is `allocation` (`None` when it fails).
     */
    method Allocate(layouts: seq<nat>, sets: seq<VkHandle>, created: VkHandle, allocation: Option<seq<VkHandle>>)
      returns (ok: bool, result: seq<VkHandle>)
      requires Valid()
      requires allocation.Some? ==> |allocation.value| == |layouts|
      modifies this`handle
      ensures old(handle).NullHandle? && created.NullHandle? ==> !ok && result == sets
      ensures old(handle).Live? || created.Live? ==>
        && ok == allocation.Some?
        && |result| == |layouts|
        && result == if allocation.Some? then allocation.value else seq(|layouts|, _ => NullHandle)
    {
      if handle.NullHandle? {
        var initialised, _ := Init(created);
        if !initialised {
          return false, sets;
        }
      }
      result := seq(|layouts|, _ => NullHandle);
      if allocation.None? {
        return false, result;
      }
      return true, allocation.value;
    }
  }

  // ---------------------------------------------------------------- shader stages

  /** `VkSpecializationMapEntry`. */
  datatype MapEntry = MapEntry(constantId: nat, offset: nat, size: nat)

  class PipelineShaderStage {
    var stage: nat
    var shaderModule: nat
    var name: string
    var dataSize: nat
    /** `specialization_info_.mapEntryCount`. */
    var mapEntryCount: nat
    /** `specialization_info_.pMapEntries` is set (non-null). */
    var mapEntriesSet: bool
    var mapEntries: seq<MapEntry>

    constructor ()
      ensures mapEntryCount == 0 && !mapEntriesSet && mapEntries == []
    {
      stage, shaderModule, name, dataSize := 0, 0, "", 0;
      mapEntryCount, mapEntriesSet, mapEntries := 0, false, [];
    }

    /**
     * `set`: stores the stage, module, entry name and data size and zeroes the
     * specialization entry count, without clearing the stored entries.
     */
    method Set(stage: nat, shaderModule: nat, name: string, dataSize: nat)
      modifies this
      ensures this.stage == stage && this.shaderModule == shaderModule && this.name == name && this.dataSize == dataSize
      ensures mapEntryCount == 0 && !mapEntriesSet
      ensures mapEntries == old(mapEntries)
    {
      this.stage, this.shaderModule, this.name, this.dataSize := stage, shaderModule, name, dataSize;
      mapEntryCount, mapEntriesSet := 0, false;
    }

    /** `addSpecializationMapEntry`: appends one entry and reports every stored entry. */
    method AddSpecializationMapEntry(constantId: nat, offset: nat, size: nat)
      modifies this`mapEntries, this`mapEntryCount, this`mapEntriesSet
      ensures mapEntries == old(mapEntries) + [MapEntry(constantId, offset, size)]
      ensures mapEntryCount == |mapEntries| && mapEntriesSet
    {
      mapEntries := mapEntries + [MapEntry(constantId, offset, size)];
      mapEntryCount, mapEntriesSet := |mapEntries|, true;
    }
  }

  /**
   * Re-using a stage: after `set`, one new entry makes the record report the
   * entries added before `set` as well.
   */
  method ReusedStageReportsStaleEntries(first: MapEntry, second: MapEntry) returns (s: PipelineShaderStage)
    ensures s.mapEntryCount == 2 && s.mapEntries == [first, second]
  {
    s := new PipelineShaderStage();
    s.AddSpecializationMapEntry(first.constantId, first.offset, first.size);
    s.Set(1, 7, "main", 0);
    s.AddSpecializationMapEntry(second.constantId, second.offset, second.size);
  }

  // ---------------------------------------------------------------- fixed-function state builders

  /** `VkVertexInputBindingDescription`. */
  datatype BindingDescription = BindingDescription(binding: nat, stride: nat, inputRate: nat)
  /** `VkVertexInputAttributeDescription`. */
  datatype AttributeDescription = AttributeDescription(location: nat, binding: nat, format: nat, offset: nat)

  class VertexInputState {
    var bindingDescriptions: seq<BindingDescription>
    var attributeDescriptions: seq<AttributeDescription>
    var vertexBindingDescriptionCount: nat
    var vertexAttributeDescriptionCount: nat

    /** The record's counts match its vectors. */
    ghost predicate Valid()
      reads this
    {
      && vertexBindingDescriptionCount == |bindingDescriptions|
      && vertexAttributeDescriptionCount == |attributeDescriptions|
    }

    constructor ()
      ensures Valid() && bindingDescriptions == [] && attributeDescriptions == []
    {
      bindingDescriptions, attributeDescriptions := [], [];
      vertexBindingDescriptionCount, vertexAttributeDescriptionCount := 0, 0;
    }

    method AddBindingDescription(binding: nat, stride: nat, inputRate: nat)
      requires Valid()
      modifies this
      ensures Valid()
      ensures bindingDescriptions == old(bindingDescriptions) + [BindingDescription(binding, stride, inputRate)]
      ensures attributeDescriptions == old(attributeDescriptions)
    {
      bindingDescriptions := bindingDescriptions + [BindingDescription(binding, stride, inputRate)];
      vertexBindingDescriptionCount := |bindingDescriptions|;
    }

    method AddAttributeDescription(location: nat, binding: nat, format: nat, offset: nat)
      requires Valid()
      modifies this
      ensures Valid()
      ensures attributeDescriptions == old(attributeDescriptions) + [AttributeDescription(location, binding, format, offset)]
      ensures bindingDescriptions == old(bindingDescriptions)
    {
      attributeDescriptions := attributeDescriptions + [AttributeDescription(location, binding, format, offset)];
      vertexAttributeDescriptionCount := |attributeDescriptions|;
    }
  }

  /** `VkViewport`. */
  datatype Viewport = Viewport(x: real, y: real, width: real, height: real, minDepth: real, maxDepth: real)
  /** `VkRect2D`: a signed offset and an unsigned extent. */
  datatype Rect2D = Rect2D(x: int, y: int, width: nat, height: nat)

  class ViewportState {
    var viewports: seq<Viewport>
    var scissors: seq<Rect2D>
    var viewportCount: nat
    var scissorCount: nat

    ghost predicate Valid()
      reads this
    {
      viewportCount == |viewports| && scissorCount == |scissors|
    }

    constructor ()
      ensures Valid() && viewports == [] && scissors == []
    {
      viewports, scissors, viewportCount, scissorCount := [], [], 0, 0;
    }

    method AddViewport(v: Viewport)
      requires Valid()
      modifies this
      ensures Valid() && viewports == old(viewports) + [v] && scissors == old(scissors)
    {
      viewports := viewports + [v];
      viewportCount := |viewports|;
    }

    method AddScissor(r: Rect2D)
      requires Valid()
      modifies this
      ensures Valid() && scissors == old(scissors) + [r] && viewports == old(viewports)
    {
      scissors := scissors + [r];
      scissorCount := |scissors|;
    }

    /** `viewport(i)`: asserts that `i` is in range. */
    function ViewportAt(i: nat): (v: Viewport)
      reads this
      requires i < |viewports|
      ensures v == viewports[i] && v in viewports
    {
      viewports[i]
    }

    /** `scissor(i)`: asserts that `i` is in range. */
    function ScissorAt(i: nat): (r: Rect2D)
      reads this
      requires i < |scissors|
      ensures r == scissors[i] && r in scissors
    {
      scissors[i]
    }
  }

  /** `VkPipelineColorBlendAttachmentState`. */
  datatype BlendAttachment = BlendAttachment(
    blendEnable: bool, srcColorFactor: nat, dstColorFactor: nat, colorOp: nat,
    srcAlphaFactor: nat, dstAlphaFactor: nat, alphaOp: nat, colorWriteMask: nat)

  class ColorBlendState {
    var attachments: seq<BlendAttachment>
    var attachmentCount: nat
    var logicOpEnable: bool
    var logicOp: nat
    var blendConstants: seq<real>

    ghost predicate Valid()
      reads this
    {
      attachmentCount == |attachments| && |blendConstants| == 4
    }

    constructor ()
      ensures Valid() && attachments == [] && !logicOpEnable
    {
      attachments, attachmentCount := [], 0;
      logicOpEnable, logicOp := false, 0;
      blendConstants := [0.0, 0.0, 0.0, 0.0];
    }

    method SetLogicOp(op: nat)
      modifies this`logicOpEnable, this`logicOp
      ensures logicOpEnable && logicOp == op
    {
      logicOpEnable, logicOp := true, op;
    }

    method AddAttachmentState(a: BlendAttachment)
      requires Valid()
      modifies this`attachments, this`attachmentCount
      ensures Valid() && attachments == old(attachments) + [a]
    {
      attachments := attachments + [a];
      attachmentCount := |attachments|;
    }

    method SetBlendConstants(r: real, g: real, b: real, a: real)
      requires Valid()
      modifies this`blendConstants
      ensures Valid() && blendConstants == [r, g, b, a]
    {
      blendConstants := [r, g, b, a];
    }
  }

  // ---------------------------------------------------------------- graphics pipelines

  class GraphicsPipeline {
    var handle: VkHandle
    /** `dynamic_state_` has been allocated. */
    var hasDynamicState: bool
    /** `dynamic_state_->dynamicStateCount`, meaningful once allocated. */
    var dynamicStateCount: nat
    var dynamicStates: seq<nat>

    /** Once the record exists its count matches the states; before that there are none. */
    ghost predicate Valid()
      reads this
    {
      if hasDynamicState then dynamicStateCount == |dynamicStates| else dynamicStates == [] && dynamicStateCount == 0
    }

    constructor ()
      ensures Valid() && handle == NullHandle && !hasDynamicState && dynamicStates == []
    {
      handle, hasDynamicState, dynamicStateCount, dynamicStates := NullHandle, false, 0, [];
    }

    /** `addDynamicState`: allocates the record on first use, then appends and recounts. */
    method AddDynamicState(state: nat)
      requires Valid()
      modifies this`hasDynamicState, this`dynamicStateCount, this`dynamicStates
      ensures Valid() && hasDynamicState
      ensures dynamicStates == old(dynamicStates) + [state]
      ensures dynamicStateCount == |dynamicStates|
    {
      if !hasDynamicState {
        hasDynamicState, dynamicStateCount := true, 0;
      }
      dynamicStates := dynamicStates + [state];
      dynamicStateCount := |dynamicStates|;
    }

    /**
     * `init` as written: `created` is what `vkCreateGraphicsPipelines` returns;
     * a failure returns false, and so does a success.
     */
    method InitAsWritten(created: VkHandle) returns (ok: bool)
      modifies this`handle
      ensures handle == created
      ensures !ok
    {
      handle := created;
      if created.NullHandle? {
        return false;
      }
      return false;
    }

    /** `init` with the result its callers test for: true exactly when the pipeline was created. */
    method Init(created: VkHandle) returns (ok: bool)
      modifies this`handle
      ensures handle == created
      ensures ok <==> created.Live?
    {
      handle := created;
      if created.NullHandle? {
        return false;
      }
      return true;
    }
  }

  /** A creation that succeeds is still reported as a failure by the written `init`. */
  method InitReportsFailureOnSuccess() returns (p: GraphicsPipeline, ok: bool)
    ensures p.handle.Live? && !ok
  {
    p := new GraphicsPipeline();
    ok := p.InitAsWritten(Live(1));
  }
}
