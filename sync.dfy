/**
 * `circe::vk::ImageMemoryBarrier` (circe/vk/core/sync.cpp): the record built
 * for an image layout transition. Only two transitions get access masks,
 * those a texture upload needs: UNDEFINED to TRANSFER_DST_OPTIMAL before the
 * copy, and TRANSFER_DST_OPTIMAL to SHADER_READ_ONLY_OPTIMAL after it, as in
 * the Image Memory Barriers section of the Synchronization and Cache Control
 * chapter of the Vulkan specification. The image is given by its handle and
 * mip level count; fences and semaphores are not part of this model.
 */
module VkSync {
  import opened Wrappers

  const VK_STRUCTURE_TYPE_IMAGE_MEMORY_BARRIER: nat := 45
  const VK_QUEUE_FAMILY_IGNORED: nat := U32_MAX
  const VK_IMAGE_ASPECT_COLOR_BIT: nat := 0x1

  const VK_IMAGE_LAYOUT_UNDEFINED: nat := 0
  const VK_IMAGE_LAYOUT_SHADER_READ_ONLY_OPTIMAL: nat := 5
  const VK_IMAGE_LAYOUT_TRANSFER_DST_OPTIMAL: nat := 7

  const VK_ACCESS_SHADER_READ_BIT: nat := 0x20
  const VK_ACCESS_TRANSFER_WRITE_BIT: nat := 0x1000

  /** `VkImageSubresourceRange`. */
  datatype SubresourceRange = SubresourceRange(aspectMask: nat, baseMipLevel: nat, levelCount: nat,
                                               baseArrayLayer: nat, layerCount: nat)

  /** `VkImageMemoryBarrier`; `pNext` is always null and left out, the image is its handle value. */
  datatype ImageMemoryBarrier = ImageMemoryBarrier(
    sType: nat, srcAccessMask: nat, dstAccessMask: nat, oldLayout: nat, newLayout: nat,
    srcQueueFamilyIndex: nat, dstQueueFamilyIndex: nat, image: nat, subresourceRange: SubresourceRange)

  /** The value-initialised record (`vk_image_memory_barrier_{}`): every field zero. */
  const ZERO_BARRIER: ImageMemoryBarrier := ImageMemoryBarrier(0, 0, 0, 0, 0, 0, 0, 0, SubresourceRange(0, 0, 0, 0, 0))

  /** The default constructor: sets only the structure type. */
  function DefaultBarrier(): (b: ImageMemoryBarrier)
    ensures b.sType == VK_STRUCTURE_TYPE_IMAGE_MEMORY_BARRIER
    ensures b.(sType := 0) == ZERO_BARRIER
  {
    ZERO_BARRIER.(sType := VK_STRUCTURE_TYPE_IMAGE_MEMORY_BARRIER)
  }

  /** The source and destination access masks of a layout transition, `(0, 0)` for any unsupported one. */
  function AccessMasks(oldLayout: nat, newLayout: nat): (nat, nat)
  {
    if oldLayout == VK_IMAGE_LAYOUT_UNDEFINED && newLayout == VK_IMAGE_LAYOUT_TRANSFER_DST_OPTIMAL then
      (0, VK_ACCESS_TRANSFER_WRITE_BIT)
    else if oldLayout == VK_IMAGE_LAYOUT_TRANSFER_DST_OPTIMAL && newLayout == VK_IMAGE_LAYOUT_SHADER_READ_ONLY_OPTIMAL then
      (VK_ACCESS_TRANSFER_WRITE_BIT, VK_ACCESS_SHADER_READ_BIT)
    else
      (0, 0)
  }

  /**
   * The transition constructor. Queue family ownership is not transferred, the
   * range covers every mip level of the first array layer's colour aspect, and
   * the access masks follow the transition table; an unsupported transition
   * only logs, leaving both masks at zero.
   */
  function TransitionBarrier(image: nat, mipLevels: nat, oldLayout: nat, newLayout: nat): (b: ImageMemoryBarrier)
    ensures b.sType == VK_STRUCTURE_TYPE_IMAGE_MEMORY_BARRIER && b.image == image
    ensures b.oldLayout == oldLayout && b.newLayout == newLayout
    ensures b.srcQueueFamilyIndex == VK_QUEUE_FAMILY_IGNORED && b.dstQueueFamilyIndex == VK_QUEUE_FAMILY_IGNORED
    ensures b.subresourceRange == SubresourceRange(VK_IMAGE_ASPECT_COLOR_BIT, 0, mipLevels, 0, 1)
    ensures oldLayout == VK_IMAGE_LAYOUT_UNDEFINED && newLayout == VK_IMAGE_LAYOUT_TRANSFER_DST_OPTIMAL ==>
      b.srcAccessMask == 0 && b.dstAccessMask == VK_ACCESS_TRANSFER_WRITE_BIT
    ensures oldLayout == VK_IMAGE_LAYOUT_TRANSFER_DST_OPTIMAL && newLayout == VK_IMAGE_LAYOUT_SHADER_READ_ONLY_OPTIMAL ==>
      b.srcAccessMask == VK_ACCESS_TRANSFER_WRITE_BIT && b.dstAccessMask == VK_ACCESS_SHADER_READ_BIT
    ensures !(oldLayout == VK_IMAGE_LAYOUT_UNDEFINED && newLayout == VK_IMAGE_LAYOUT_TRANSFER_DST_OPTIMAL) &&
            !(oldLayout == VK_IMAGE_LAYOUT_TRANSFER_DST_OPTIMAL && newLayout == VK_IMAGE_LAYOUT_SHADER_READ_ONLY_OPTIMAL) ==>
      b.srcAccessMask == 0 && b.dstAccessMask == 0
  {
    var masks := AccessMasks(oldLayout, newLayout);
    ImageMemoryBarrier(VK_STRUCTURE_TYPE_IMAGE_MEMORY_BARRIER, masks.0, masks.1, oldLayout, newLayout,
                       VK_QUEUE_FAMILY_IGNORED, VK_QUEUE_FAMILY_IGNORED, image,
                       SubresourceRange(VK_IMAGE_ASPECT_COLOR_BIT, 0, mipLevels, 0, 1))
  }

  /**
   * The two supported barriers chain: the access the upload barrier makes
   * available (transfer writes) is the source access of the barrier that
   * hands the image to shaders, and the first barrier waits on nothing.
   */
  lemma UploadBarriersChain(image: nat, mipLevels: nat)
    ensures var toDst := TransitionBarrier(image, mipLevels, VK_IMAGE_LAYOUT_UNDEFINED, VK_IMAGE_LAYOUT_TRANSFER_DST_OPTIMAL);
            var toRead := TransitionBarrier(image, mipLevels, VK_IMAGE_LAYOUT_TRANSFER_DST_OPTIMAL, VK_IMAGE_LAYOUT_SHADER_READ_ONLY_OPTIMAL);
            && toDst.newLayout == toRead.oldLayout
            && toDst.srcAccessMask == 0
            && toDst.dstAccessMask == toRead.srcAccessMask == VK_ACCESS_TRANSFER_WRITE_BIT
            && toRead.dstAccessMask == VK_ACCESS_SHADER_READ_BIT
            && toDst.subresourceRange == toRead.subresourceRange
  {
  }

  /** Every transition whose masks are not both zero is one of the two listed ones. */
  lemma OnlyUploadTransitionsHaveMasks(image: nat, mipLevels: nat, oldLayout: nat, newLayout: nat)
    requires var b := TransitionBarrier(image, mipLevels, oldLayout, newLayout); b.srcAccessMask != 0 || b.dstAccessMask != 0
    ensures || (oldLayout == VK_IMAGE_LAYOUT_UNDEFINED && newLayout == VK_IMAGE_LAYOUT_TRANSFER_DST_OPTIMAL)
            || (oldLayout == VK_IMAGE_LAYOUT_TRANSFER_DST_OPTIMAL && newLayout == VK_IMAGE_LAYOUT_SHADER_READ_ONLY_OPTIMAL)
  {
  }
}
