/**
 * The swapchain policy of `circe::vk::RenderEngine`
 * (circe/vk/utils/render_engine.cpp): the image count and image size chosen
 * from `VkSurfaceCapabilitiesKHR` (the rules in the Surface Queries section of
 * the Window System Integration chapter of the Vulkan specification), the
 * accept/reject checks of `setPresentationSurface`, and the frame slot that
 * `draw` advances. The Vulkan queries are inputs; fences, semaphores, queue
 * submission and presentation are left out, and their results are inputs.
 */
module VkRenderEngine {
  import opened Wrappers
  import VkPhysicalDevice

  datatype Extent2D = Extent2D(width: nat, height: nat)

  /** `VkSurfaceCapabilitiesKHR`, reduced to the fields the engine reads. */
  datatype SurfaceCapabilities = SurfaceCapabilities(
    minImageCount: nat, maxImageCount: nat,
    currentExtent: Extent2D, minImageExtent: Extent2D, maxImageExtent: Extent2D,
    supportedTransforms: bv32, currentTransform: bv32, supportedUsageFlags: bv32)

  const SPECIAL_EXTENT: nat := 0xFFFF_FFFF
  const DEFAULT_EXTENT: Extent2D := Extent2D(640, 480)
  const VK_IMAGE_USAGE_COLOR_ATTACHMENT_BIT: bv32 := 0x10
  const VK_SURFACE_TRANSFORM_IDENTITY_BIT_KHR: bv32 := 0x1
  const VK_PRESENT_MODE_MAILBOX_KHR: nat := 1
  /** `max_frames_in_flight`. */
  const MAX_FRAMES_IN_FLIGHT: nat := 2

  /** The capabilities a conforming implementation reports: at least one image, and a maximum of 0 (no limit) or at least the minimum. */
  predicate ConformingCapabilities(caps: SurfaceCapabilities)
  {
    && 1 <= caps.minImageCount && IsU32(caps.minImageCount + 1)
    && (caps.maxImageCount == 0 || caps.minImageCount <= caps.maxImageCount)
    && caps.minImageExtent.width <= caps.maxImageExtent.width
    && caps.minImageExtent.height <= caps.maxImageExtent.height
  }

  /**
   * `selectNumberOfSwapChainImages`: one more than the minimum, lowered to the
   * maximum when there is one (non-zero) and it is exceeded. The sum is a
   * `uint32_t`; the helper always reports success.
   */
  function NumberOfSwapChainImages(caps: SurfaceCapabilities): (n: nat)
    requires IsU32(caps.minImageCount) && IsU32(caps.maxImageCount)
    ensures IsU32(n)
    ensures caps.maxImageCount > 0 ==> n <= caps.maxImageCount
    ensures n <= caps.minImageCount + 1
    ensures caps.maxImageCount == 0 || caps.minImageCount < caps.maxImageCount ==> n == (caps.minImageCount + 1) % U32_MODULUS
  {
    var n := (caps.minImageCount + 1) % U32_MODULUS;
    if caps.maxImageCount > 0 && n > caps.maxImageCount then caps.maxImageCount else n
  }

  /** For conforming capabilities the count lies within [min, max] and asks for one spare image when the maximum allows it. */
  lemma NumberOfImagesWithinLimits(caps: SurfaceCapabilities)
    requires IsU32(caps.maxImageCount) && ConformingCapabilities(caps)
    ensures var n := NumberOfSwapChainImages(caps);
      && caps.minImageCount <= n
      && (caps.maxImageCount > 0 ==> n <= caps.maxImageCount)
      && (n == caps.minImageCount + 1 || n == caps.maxImageCount)
  {
  }

  /** One dimension of the chosen size: the default raised to the minimum, or else lowered to the maximum. */
  function FitDimension(preferred: nat, lo: nat, hi: nat): nat
  {
    if preferred < lo then lo else if preferred > hi then hi else preferred
  }

  /** The usual clamp, as an independent reference. */
  function Clamp(v: nat, lo: nat, hi: nat): nat
  {
    if v < lo then lo else if hi < v then hi else v
  }

  /** With `lo <= hi` the if-else chain is the clamp into [lo, hi]: it stays in range and keeps a value already in range. */
  lemma FitDimensionIsClamp(preferred: nat, lo: nat, hi: nat)
    requires lo <= hi
    ensures FitDimension(preferred, lo, hi) == Clamp(preferred, lo, hi)
    ensures lo <= FitDimension(preferred, lo, hi) <= hi
    ensures lo <= preferred <= hi ==> FitDimension(preferred, lo, hi) == preferred
  {
  }

  /**
   * `chooseSizeOfSwapchainImages`: a current width of 0xFFFFFFFF means the
   * surface size follows the swapchain, so 640x480 is fitted into the extent
   * limits; otherwise the current extent is used as is. Always succeeds.
   */
  function SizeOfSwapchainImages(caps: SurfaceCapabilities): (e: Extent2D)
    ensures caps.currentExtent.width != SPECIAL_EXTENT ==> e == caps.currentExtent
    ensures caps.currentExtent.width == SPECIAL_EXTENT ==>
      && e.width == FitDimension(DEFAULT_EXTENT.width, caps.minImageExtent.width, caps.maxImageExtent.width)
      && e.height == FitDimension(DEFAULT_EXTENT.height, caps.minImageExtent.height, caps.maxImageExtent.height)
  {
    if caps.currentExtent.width == SPECIAL_EXTENT then
      Extent2D(FitDimension(DEFAULT_EXTENT.width, caps.minImageExtent.width, caps.maxImageExtent.width),
               FitDimension(DEFAULT_EXTENT.height, caps.minImageExtent.height, caps.maxImageExtent.height))
    else caps.currentExtent
  }

  /** With conforming limits, a size the engine picks itself lies within the limits, and is 640x480 whenever that fits. */
  lemma ChosenSizeWithinLimits(caps: SurfaceCapabilities)
    requires ConformingCapabilities(caps) && caps.currentExtent.width == SPECIAL_EXTENT
    ensures var e := SizeOfSwapchainImages(caps);
      && caps.minImageExtent.width <= e.width <= caps.maxImageExtent.width
      && caps.minImageExtent.height <= e.height <= caps.maxImageExtent.height
      && (caps.minImageExtent.width <= 640 <= caps.maxImageExtent.width ==> e.width == 640)
      && (caps.minImageExtent.height <= 480 <= caps.maxImageExtent.height ==> e.height == 480)
  {
    FitDimensionIsClamp(DEFAULT_EXTENT.width, caps.minImageExtent.width, caps.maxImageExtent.width);
    FitDimensionIsClamp(DEFAULT_EXTENT.height, caps.minImageExtent.height, caps.maxImageExtent.height);
  }

  /** The transform `setPresentationSurface` picks: identity when supported, else the current one. */
  function SurfaceTransform(caps: SurfaceCapabilities): (t: bv32)
    ensures caps.supportedTransforms & VK_SURFACE_TRANSFORM_IDENTITY_BIT_KHR != 0 ==> t == VK_SURFACE_TRANSFORM_IDENTITY_BIT_KHR
    ensures caps.supportedTransforms & VK_SURFACE_TRANSFORM_IDENTITY_BIT_KHR == 0 ==> t == caps.currentTransform
  {
    if caps.supportedTransforms & VK_SURFACE_TRANSFORM_IDENTITY_BIT_KHR != 0 then VK_SURFACE_TRANSFORM_IDENTITY_BIT_KHR
    else caps.currentTransform
  }

  /** The swapchain settings `setPresentationSurface` writes through the `SwapChain` setters. */
  class SwapChain {
    var presentMode: Option<nat>
    var numberOfImages: Option<nat>
    var imageSize: Option<Extent2D>
    var imageUsage: Option<bv32>
    var surfaceTransform: Option<bv32>
    var surfaceFormat: Option<VkPhysicalDevice.SurfaceFormat>

    constructor ()
      ensures presentMode == None && numberOfImages == None && imageSize == None
      ensures imageUsage == None && surfaceTransform == None && surfaceFormat == None
    {
      presentMode, numberOfImages, imageSize := None, None, None;
      imageUsage, surfaceTransform, surfaceFormat := None, None, None;
    }
  }

  /** The frame slot that `draw` advances after presenting. */
  function NextFrame(frame: nat): (r: nat)
    ensures r < MAX_FRAMES_IN_FLIGHT
  {
    (frame + 1) % MAX_FRAMES_IN_FLIGHT
  }

  /** Two advances return to the same slot: frames alternate between the two sets of fences and semaphores. */
  lemma NextFrameAlternates(frame: nat)
    requires frame < MAX_FRAMES_IN_FLIGHT
    ensures NextFrame(frame) != frame && NextFrame(NextFrame(frame)) == frame
  {
  }

  /** What `vkAcquireNextImageKHR` and `vkQueuePresentKHR` return, as far as `draw` distinguishes them. */
  datatype SwapchainResult = Success | Suboptimal | OutOfDate | OtherError

  /**
   * The function-local `static size_t current_frame` of `draw`: one slot
   * for the whole program, shared by every engine and never reset, that
   * starts at 0 before the first draw.
   */
  class FrameSlot {
    var current: nat

    ghost predicate Valid()
      reads this
    {
      current < MAX_FRAMES_IN_FLIGHT
    }

    constructor ()
      ensures Valid() && current == 0
    {
      current := 0;
    }
  }

  class RenderEngine {
    var swapChain: SwapChain

    /** The default constructor: the engine owns a swap chain with no settings yet; the frame slot is not the engine's. */
    constructor ()
      ensures fresh(swapChain)
      ensures swapChain.presentMode == None && swapChain.numberOfImages == None && swapChain.imageSize == None
      ensures swapChain.imageUsage == None && swapChain.surfaceTransform == None && swapChain.surfaceFormat == None
    {
      swapChain := new SwapChain();
    }

    /**
     * `setPresentationSurface` after the surface is stored: each step writes its
     * setting and the first failed check returns false, keeping the settings
     * written before it. `modes` and `formats` are what the physical device
     * reports, `caps` the surface capabilities (`None` when the query fails).
     */
    method SetPresentationSurface(modes: seq<nat>, caps: Option<SurfaceCapabilities>,
                                  formats: seq<VkPhysicalDevice.SurfaceFormat>,
                                  desired: VkPhysicalDevice.SurfaceFormat) returns (ok: bool)
      requires caps.Some? ==> IsU32(caps.value.minImageCount) && IsU32(caps.value.maxImageCount)
      modifies swapChain
      ensures ok <==> && (VK_PRESENT_MODE_MAILBOX_KHR in modes || VkPhysicalDevice.VK_PRESENT_MODE_FIFO_KHR in modes)
                      && caps.Some?
                      && SizeOfSwapchainImages(caps.value).width != 0 && SizeOfSwapchainImages(caps.value).height != 0
                      && caps.value.supportedUsageFlags & VK_IMAGE_USAGE_COLOR_ATTACHMENT_BIT == VK_IMAGE_USAGE_COLOR_ATTACHMENT_BIT
                      && |formats| > 0
      ensures ok ==> && swapChain.presentMode == Some(if VK_PRESENT_MODE_MAILBOX_KHR in modes then VK_PRESENT_MODE_MAILBOX_KHR
                                                      else VkPhysicalDevice.VK_PRESENT_MODE_FIFO_KHR)
                     && swapChain.numberOfImages == Some(NumberOfSwapChainImages(caps.value))
                     && swapChain.imageSize == Some(SizeOfSwapchainImages(caps.value))
                     && swapChain.imageUsage == Some(VK_IMAGE_USAGE_COLOR_ATTACHMENT_BIT)
                     && swapChain.surfaceTransform == Some(SurfaceTransform(caps.value))
                     && swapChain.surfaceFormat == Some(VkPhysicalDevice.ChosenSurfaceFormat(formats, desired))
      // the settings written before the first failing check are kept, the later ones untouched
      ensures !(VK_PRESENT_MODE_MAILBOX_KHR in modes || VkPhysicalDevice.VK_PRESENT_MODE_FIFO_KHR in modes) ==>
        unchanged(swapChain)
      ensures (VK_PRESENT_MODE_MAILBOX_KHR in modes || VkPhysicalDevice.VK_PRESENT_MODE_FIFO_KHR in modes) ==>
        swapChain.presentMode == Some(if VK_PRESENT_MODE_MAILBOX_KHR in modes then VK_PRESENT_MODE_MAILBOX_KHR
                                      else VkPhysicalDevice.VK_PRESENT_MODE_FIFO_KHR)
      ensures caps.None? ==>
        && swapChain.numberOfImages == old(swapChain.numberOfImages) && swapChain.imageSize == old(swapChain.imageSize)
        && swapChain.imageUsage == old(swapChain.imageUsage) && swapChain.surfaceTransform == old(swapChain.surfaceTransform)
        && swapChain.surfaceFormat == old(swapChain.surfaceFormat)
      ensures (VK_PRESENT_MODE_MAILBOX_KHR in modes || VkPhysicalDevice.VK_PRESENT_MODE_FIFO_KHR in modes) && caps.Some? ==>
        swapChain.numberOfImages == Some(NumberOfSwapChainImages(caps.value))
      ensures caps.Some? && (SizeOfSwapchainImages(caps.value).width == 0 || SizeOfSwapchainImages(caps.value).height == 0) ==>
        && swapChain.imageSize == old(swapChain.imageSize)
        && swapChain.imageUsage == old(swapChain.imageUsage) && swapChain.surfaceTransform == old(swapChain.surfaceTransform)
        && swapChain.surfaceFormat == old(swapChain.surfaceFormat)
      ensures (VK_PRESENT_MODE_MAILBOX_KHR in modes || VkPhysicalDevice.VK_PRESENT_MODE_FIFO_KHR in modes) && caps.Some?
              && SizeOfSwapchainImages(caps.value).width != 0 && SizeOfSwapchainImages(caps.value).height != 0 ==>
        swapChain.imageSize == Some(SizeOfSwapchainImages(caps.value))
      ensures caps.Some? && caps.value.supportedUsageFlags & VK_IMAGE_USAGE_COLOR_ATTACHMENT_BIT != VK_IMAGE_USAGE_COLOR_ATTACHMENT_BIT ==>
        && swapChain.imageUsage == old(swapChain.imageUsage) && swapChain.surfaceTransform == old(swapChain.surfaceTransform)
        && swapChain.surfaceFormat == old(swapChain.surfaceFormat)
      ensures |formats| == 0 ==> swapChain.surfaceFormat == old(swapChain.surfaceFormat)
      ensures !ok ==> swapChain.surfaceFormat == old(swapChain.surfaceFormat)
    {
      var found, mode := VkPhysicalDevice.SelectPresentationMode(modes, VK_PRESENT_MODE_MAILBOX_KHR, VK_PRESENT_MODE_MAILBOX_KHR);
      if !found {
        return false;
      }
      swapChain.presentMode := Some(mode);
      if caps.None? {
        return false;
      }
      var c := caps.value;
      swapChain.numberOfImages := Some(NumberOfSwapChainImages(c));
      var size := SizeOfSwapchainImages(c);
      if size.width == 0 || size.height == 0 {
        return false;
      }
      swapChain.imageSize := Some(size);
      var usage := c.supportedUsageFlags & VK_IMAGE_USAGE_COLOR_ATTACHMENT_BIT;
      if usage != VK_IMAGE_USAGE_COLOR_ATTACHMENT_BIT {
        return false;
      }
      swapChain.imageUsage := Some(usage);
      swapChain.surfaceTransform := Some(SurfaceTransform(c));
      var formatFound, chosen := VkPhysicalDevice.SelectFormatOfSwapchainImages(formats, desired, desired);
      if !formatFound {
        return false;
      }
      swapChain.surfaceFormat := Some(chosen);
      return true;
    }

    /**
     * The frame bookkeeping of `draw`, on the program-wide slot `frame`. An
     * out-of-date or failed image acquisition returns early; after
     * presenting, the slot advances unless presentation needed no swapchain
     * rebuild and the acquisition was not a plain success (a suboptimal
     * acquisition also returns early there). The engine itself is not changed.
     */
    method Draw(frame: FrameSlot, acquired: SwapchainResult, presented: SwapchainResult, framebufferResized: bool)
      requires frame.Valid()
      modifies frame
      ensures frame.Valid()
      ensures var advances := && (acquired == Success || acquired == Suboptimal)
                              && (presented == Suboptimal || presented == OutOfDate || framebufferResized || acquired == Success);
              frame.current == if advances then NextFrame(old(frame.current)) else old(frame.current)
    {
      if acquired == OutOfDate {
        return;
      } else if acquired != Success && acquired != Suboptimal {
        return;
      }
      if presented == Suboptimal || presented == OutOfDate || framebufferResized {
        // the swapchain is rebuilt here
      } else if acquired != Success {
        return;
      }
      frame.current := NextFrame(frame.current);
    }
  }

  /**
   * Two engines draw through the one static slot: after engine `a` draws
   * once cleanly, a new engine `b` draws in slot 1, not slot 0.
   */
  method SharedSlotAcrossEngines() returns (slotOfSecond: nat)
    ensures slotOfSecond == 1
  {
    var frame := new FrameSlot();
    var a := new RenderEngine();
    a.Draw(frame, Success, Success, false);
    var b := new RenderEngine();
    slotOfSecond := frame.current;
    b.Draw(frame, Success, Success, false);
  }
}
