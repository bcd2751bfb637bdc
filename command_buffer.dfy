/**
 * The bookkeeping of circe/vk/pipeline/command_buffer.cpp: the clear values
 * and render area of a render-pass begin record, the descriptor-set count
 * `CommandBuffer::bind` passes on, and the caller vectors that
 * `CommandPool` fills and empties. A command buffer is its handle; the
 * Vulkan calls are replaced by their results.
 */
module VkCommandBuffer {
  import opened Wrappers

  // ---------------------------------------------------------------- render pass begin info

  /** `VkClearValue`, by the member of the union that was written. */
  datatype ClearValue =
    | ClearColorFloat(rgba: seq<real>)
    | ClearColorInt(components: seq<int>)
    | ClearColorUint(words: seq<nat>)
    | ClearDepthStencil(depth: real, stencil: nat)

  class RenderPassBeginInfo {
    var renderPass: VkHandle
    var framebuffer: VkHandle
    var offsetX: int
    var offsetY: int
    var width: nat
    var height: nat
    var clearValues: seq<ClearValue>
    /** `info_.clearValueCount`. */
    var clearValueCount: nat

    /** The record's count matches the stored clear values. */
    ghost predicate Valid()
      reads this
    {
      clearValueCount == |clearValues|
    }

    /** A render area at the origin covering the whole framebuffer, and no clear values. */
    constructor (renderPass: VkHandle, framebuffer: VkHandle, framebufferWidth: nat, framebufferHeight: nat)
      ensures Valid()
      ensures this.renderPass == renderPass && this.framebuffer == framebuffer
      ensures offsetX == 0 && offsetY == 0 && width == framebufferWidth && height == framebufferHeight
      ensures clearValues == []
    {
      this.renderPass, this.framebuffer := renderPass, framebuffer;
      offsetX, offsetY := 0, 0;
      width, height := framebufferWidth, framebufferHeight;
      clearValues, clearValueCount := [], 0;
    }

    /** `setRenderArea`: replaces the offset and extent and nothing else. */
    method SetRenderArea(x: int, y: int, w: nat, h: nat)
      modifies this`offsetX, this`offsetY, this`width, this`height
      ensures offsetX == x && offsetY == y && width == w && height == h
    {
      offsetX, offsetY, width, height := x, y, w, h;
    }

    /** Appends one clear value and recounts; every `addClear*` method ends this way. */
    method Push(v: ClearValue)
      requires Valid()
      modifies this`clearValues, this`clearValueCount
      ensures Valid() && clearValues == old(clearValues) + [v]
    {
      clearValues := clearValues + [v];
      clearValueCount := |clearValues|;
    }

    method AddClearColorValueFloat(r: real, g: real, b: real, a: real)
      requires Valid()
      modifies this`clearValues, this`clearValueCount
      ensures Valid() && clearValues == old(clearValues) + [ClearColorFloat([r, g, b, a])]
    {
      Push(ClearColorFloat([r, g, b, a]));
    }

    method AddClearColorValueInt(r: int, g: int, b: int, a: int)
      requires Valid()
      modifies this`clearValues, this`clearValueCount
      ensures Valid() && clearValues == old(clearValues) + [ClearColorInt([r, g, b, a])]
    {
      Push(ClearColorInt([r, g, b, a]));
    }

    /**
     * `addClearColorValueu` as written: all four arguments are stored into word
     * 0, so it ends up holding `a`; words 1 to 3 keep whatever the uninitialised
     * local held, given here as `leftover`.
     */
    method AddClearColorValueUintAsWritten(r: nat, g: nat, b: nat, a: nat, leftover: (nat, nat, nat))
      requires Valid()
      modifies this`clearValues, this`clearValueCount
      ensures Valid() && clearValues == old(clearValues) + [ClearColorUint([a, leftover.0, leftover.1, leftover.2])]
    {
      var words := [0, leftover.0, leftover.1, leftover.2];
      words := words[0 := r];
      words := words[0 := g];
      words := words[0 := b];
      words := words[0 := a];
      assert words == [a, leftover.0, leftover.1, leftover.2];
      Push(ClearColorUint(words));
    }

    /** `addClearColorValueu` with each argument in its own word. */
    method AddClearColorValueUint(r: nat, g: nat, b: nat, a: nat)
      requires Valid()
      modifies this`clearValues, this`clearValueCount
      ensures Valid() && clearValues == old(clearValues) + [ClearColorUint([r, g, b, a])]
    {
      Push(ClearColorUint([r, g, b, a]));
    }

    method AddClearDepthStencilValue(depth: real, stencil: nat)
      requires Valid()
      modifies this`clearValues, this`clearValueCount
      ensures Valid() && clearValues == old(clearValues) + [ClearDepthStencil(depth, stencil)]
    {
      Push(ClearDepthStencil(depth, stencil));
    }
  }

  /**
   * Clearing to opaque red with the written `addClearColorValueu` stores
   * alpha (1) in the red word, whatever the other words held.
   */
  method UintClearColorLosesRed(leftover: (nat, nat, nat)) returns (info: RenderPassBeginInfo)
    ensures |info.clearValues| == 1 && info.clearValues[0].ClearColorUint? && |info.clearValues[0].words| == 4
    ensures info.clearValues[0].words[0] == 1 && info.clearValues[0].words != [255, 0, 0, 1]
  {
    info := new RenderPassBeginInfo(Live(1), Live(2), 640, 480);
    info.AddClearColorValueUintAsWritten(255, 0, 0, 1, leftover);
  }

  // ---------------------------------------------------------------- command buffers

  /**
   * The number of descriptor sets the second `bind` overload passes on: the
   * given count, or when it is zero every set from `firstSet` on, computed as
   * a `size_t` difference truncated to `u32`.
   */
  function DescriptorSetCount(setsLength: nat, firstSet: nat, descriptorSetCount: nat): (r: nat)
    requires setsLength < U64_MODULUS && IsU32(firstSet) && IsU32(descriptorSetCount)
    ensures IsU32(r)
    ensures descriptorSetCount != 0 ==> r == descriptorSetCount
    ensures descriptorSetCount == 0 && firstSet <= setsLength < U32_MODULUS ==> firstSet + r == setsLength
    ensures descriptorSetCount == 0 && setsLength < firstSet ==> r == U32_MODULUS + setsLength - firstSet
  {
    if descriptorSetCount != 0 then descriptorSetCount
    else
      var difference := SubU64(setsLength, firstSet);
      TruncateDifference(setsLength, firstSet, difference);
      difference % U32_MODULUS
  }

  /** Truncating a `size_t` difference to `u32` gives the `u32` difference. */
  lemma TruncateDifference(a: nat, b: nat, d: nat)
    requires a < U64_MODULUS && IsU32(b) && d == SubU64(a, b)
    ensures b <= a < U32_MODULUS ==> d % U32_MODULUS == a - b
    ensures a < b ==> d % U32_MODULUS == U32_MODULUS + a - b
  {
    if a < b {
      assert d == (U32_MODULUS - 1) * U32_MODULUS + (U32_MODULUS + a - b);
      DivModUnique(d, U32_MODULUS, U32_MODULUS - 1, U32_MODULUS + a - b);
    } else if a < U32_MODULUS {
      DivModUnique(d, U32_MODULUS, 0, a - b);
    }
  }

  // ---------------------------------------------------------------- command pools

  class CommandPool {
    var handle: VkHandle

    constructor (handle: VkHandle)
      ensures this.handle == handle
    {
      this.handle := handle;
    }

    /**
     * `allocateCommandBuffers`: `allocation` is what `vkAllocateCommandBuffers`
     * wrote (`None` when it failed). On failure the caller's vector is
     * untouched; on success it is replaced by exactly the `count` new buffers.
     */
    method AllocateCommandBuffers(count: nat, buffers: seq<VkHandle>, allocation: Option<seq<VkHandle>>)
      returns (ok: bool, result: seq<VkHandle>)
      requires allocation.Some? ==> |allocation.value| == count
      ensures ok <==> allocation.Some?
      ensures !ok ==> result == buffers
      ensures ok ==> |result| == count && forall i :: 0 <= i < count ==> result[i] == allocation.value[i]
    {
      if allocation.None? {
        return false, buffers;
      }
      var newBuffers := allocation.value;
      result := [];
      var i := 0;
      while i < |newBuffers|
        invariant 0 <= i <= |newBuffers|
        invariant result == newBuffers[..i]
      {
        result := result + [newBuffers[i]];
        i := i + 1;
      }
      ok := true;
    }

    /**
     * `freeCommandBuffers`: an empty vector returns at once without a call;
     * otherwise the handles, in order, are what is passed to
     * `vkFreeCommandBuffers` and the vector is emptied.
     */
    method FreeCommandBuffers(buffers: seq<VkHandle>) returns (ok: bool, freed: Option<seq<VkHandle>>, result: seq<VkHandle>)
      ensures ok && result == []
      ensures buffers == [] <==> freed.None?
      ensures freed.Some? ==> |freed.value| == |buffers| && forall i :: 0 <= i < |buffers| ==> freed.value[i] == buffers[i]
    {
      if buffers == [] {
        return true, None, buffers;
      }
      var handles := seq(|buffers|, _ => NullHandle);
      var i := 0;
      while i < |handles|
        invariant 0 <= i <= |handles| == |buffers|
        invariant forall j :: 0 <= j < i ==> handles[j] == buffers[j]
      {
        handles := handles[i := buffers[i]];
        i := i + 1;
      }
      return true, Some(handles), [];
    }
  }
}
