/**
 * The selection policies of `circe::vk::PhysicalDevice`
 * (circe/vk/core/physical_device.cpp). Every routine is a read-only scan over
 * lists the device reported; the Vulkan queries that produce those lists are
 * inputs here. A query that fails or reports nothing is modelled as an empty
 * list, which takes the same `false` path in the source. An out-parameter the
 * source leaves untouched on failure is passed in (`current`) and returned
 * unchanged.
 */
module VkPhysicalDevice {
  import opened Wrappers

  /** `VkQueueFamilyProperties`, reduced to the two fields the scans read. */
  datatype QueueFamilyProperties = QueueFamilyProperties(queueFlags: bv32, queueCount: nat)

  /** `VkSurfaceFormatKHR`. */
  datatype SurfaceFormat = SurfaceFormat(format: nat, colorSpace: nat)

  /** `VkFormatProperties`, reduced to the two tiling feature masks. */
  datatype FormatProperties = FormatProperties(linearTilingFeatures: bv32, optimalTilingFeatures: bv32)

  const VK_FORMAT_UNDEFINED: nat := 0
  const VK_PRESENT_MODE_FIFO_KHR: nat := 2
  const VK_IMAGE_TILING_OPTIMAL: nat := 0
  const VK_IMAGE_TILING_LINEAR: nat := 1
  /** `VK_MAX_MEMORY_TYPES`: the size of the `memoryTypes` array. */
  const MAX_MEMORY_TYPES: nat := 32

  /** `(mask & bits) == bits`: every bit of `bits` is set in `mask`. */
  predicate HasAll(mask: bv32, bits: bv32) { mask & bits == bits }

  // ---------------------------------------------------------------- queue families

  /** A family `selectIndexOfQueueFamily(flags)` accepts: it has queues and all desired capability bits. */
  predicate FamilySupports(f: QueueFamilyProperties, desired: bv32)
  {
    f.queueCount > 0 && HasAll(f.queueFlags, desired)
  }

  /** The lowest index at or after `i` of a family with the desired capabilities. */
  function FirstCapableFamily(fs: seq<QueueFamilyProperties>, desired: bv32, i: nat): (r: Option<nat>)
    decreases |fs| - i
    ensures r.Some? ==> i <= r.value < |fs| && FamilySupports(fs[r.value], desired)
    ensures r.Some? ==> forall k :: i <= k < r.value ==> !FamilySupports(fs[k], desired)
    ensures r.None? ==> forall k :: i <= k < |fs| ==> !FamilySupports(fs[k], desired)
  {
    if i >= |fs| then None
    else if FamilySupports(fs[i], desired) then Some(i)
    else FirstCapableFamily(fs, desired, i + 1)
  }

  /**
   * `selectIndexOfQueueFamily(VkQueueFlagBits, u32&)`: the lowest family with
   * queues whose flags contain every desired bit; on failure the out-parameter
   * keeps its value.
   */
  method SelectIndexOfQueueFamily(families: seq<QueueFamilyProperties>, desired: bv32, current: nat)
    returns (found: bool, index: nat)
    ensures found <==> exists k :: 0 <= k < |families| && FamilySupports(families[k], desired)
    ensures found ==> index < |families| && FamilySupports(families[index], desired)
    ensures found ==> forall k :: 0 <= k < index ==> !FamilySupports(families[k], desired)
    ensures !found ==> index == current
    ensures found == FirstCapableFamily(families, desired, 0).Some?
    ensures found ==> index == FirstCapableFamily(families, desired, 0).value
  {
    var i := 0;
    while i < |families|
      invariant 0 <= i <= |families|
      invariant forall k :: 0 <= k < i ==> !FamilySupports(families[k], desired)
      invariant FirstCapableFamily(families, desired, 0) == FirstCapableFamily(families, desired, i)
    {
      if FamilySupports(families[i], desired) {
        return true, i;
      }
      i := i + 1;
    }
    return false, current;
  }

  /** The lowest index at or after `i` whose presentation query succeeded with `VK_TRUE`. */
  function FirstPresentingFamily(supported: seq<bool>, i: nat): (r: Option<nat>)
    decreases |supported| - i
    ensures r.Some? ==> i <= r.value < |supported| && supported[r.value]
    ensures r.Some? ==> forall k :: i <= k < r.value ==> !supported[k]
    ensures r.None? ==> forall k :: i <= k < |supported| ==> !supported[k]
  {
    if i >= |supported| then None
    else if supported[i] then Some(i)
    else FirstPresentingFamily(supported, i + 1)
  }

  /**
   * `selectIndexOfQueueFamily(VkSurfaceKHR, u32&)`. `supported[k]` stands for
   * `vkGetPhysicalDeviceSurfaceSupportKHR` on family k returning `VK_SUCCESS`
   * and `VK_TRUE`. The lowest such family is chosen.
   */
  method SelectPresentationFamily(supported: seq<bool>, current: nat) returns (found: bool, index: nat)
    ensures found <==> true in supported
    ensures found ==> index < |supported| && supported[index] && forall k :: 0 <= k < index ==> !supported[k]
    ensures !found ==> index == current
    ensures found == FirstPresentingFamily(supported, 0).Some?
    ensures found ==> index == FirstPresentingFamily(supported, 0).value
  {
    var i := 0;
    while i < |supported|
      invariant 0 <= i <= |supported|
      invariant forall k :: 0 <= k < i ==> !supported[k]
      invariant FirstPresentingFamily(supported, 0) == FirstPresentingFamily(supported, i)
    {
      if supported[i] {
        return true, i;
      }
      i := i + 1;
    }
    return false, current;
  }

  // ---------------------------------------------------------------- extensions

  /** `isExtensionSupported`: some reported extension has exactly the desired name. */
  method IsExtensionSupported(extensions: seq<string>, desired: string) returns (r: bool)
    ensures r <==> desired in extensions
  {
    var i := 0;
    while i < |extensions|
      invariant 0 <= i <= |extensions|
      invariant desired !in extensions[..i]
    {
      if extensions[i] == desired {
        return true;
      }
      assert extensions[..i + 1] == extensions[..i] + [extensions[i]];
      i := i + 1;
    }
    assert extensions[..i] == extensions;
    return false;
  }

  // ---------------------------------------------------------------- memory types

  /** Bit `k` of `memoryTypeBits`, as `memoryTypeBits & (1 << k)` tests it. */
  predicate Allowed(typeBits: bv32, k: nat)
    requires k < 32
  {
    typeBits & ((1 as bv32) << k) != 0
  }

  /** Memory type `k` is allowed by the requirements and has every flag in `flags`. */
  predicate TypeFits(types: seq<bv32>, typeBits: bv32, flags: bv32, k: nat)
    requires k < |types| && k < 32
  {
    Allowed(typeBits, k) && HasAll(types[k], flags)
  }

  /** The lowest memory type in `[i, limit)` that fits. */
  function FirstFittingType(types: seq<bv32>, typeBits: bv32, flags: bv32, limit: nat, i: nat): (r: Option<nat>)
    requires limit <= |types| && limit <= 32
    decreases limit - i
    ensures r.Some? ==> i <= r.value < limit && TypeFits(types, typeBits, flags, r.value)
    ensures r.Some? ==> forall k :: i <= k < r.value ==> !TypeFits(types, typeBits, flags, k)
    ensures r.None? ==> forall k :: i <= k < limit ==> !TypeFits(types, typeBits, flags, k)
  {
    if i >= limit then None
    else if TypeFits(types, typeBits, flags, i) then Some(i)
    else FirstFittingType(types, typeBits, flags, limit, i + 1)
  }

  /**
   * `chooseMemoryType`. The first scan, over the `memoryTypeCount` reported
   * types, looks for an allowed type with every preferred flag; when there is
   * none the result is `~0u`. Otherwise a second scan, over all 32 slots of the
   * `memoryTypes` array, picks the lowest allowed type with every required
   * flag, and the preferred type is kept only if no type qualifies.
   */
  method ChooseMemoryType(types: seq<bv32>, count: nat, typeBits: bv32, required: bv32, preferred: bv32)
    returns (selected: nat)
    requires |types| == MAX_MEMORY_TYPES && count <= MAX_MEMORY_TYPES
    ensures selected == U32_MAX <==> forall k :: 0 <= k < count ==> !TypeFits(types, typeBits, preferred, k)
    ensures selected != U32_MAX ==> selected < MAX_MEMORY_TYPES && Allowed(typeBits, selected)
    ensures selected != U32_MAX ==> HasAll(types[selected], required) || HasAll(types[selected], preferred)
    ensures var pref, req := FirstFittingType(types, typeBits, preferred, count, 0),
                             FirstFittingType(types, typeBits, required, MAX_MEMORY_TYPES, 0);
            selected == if pref.None? then U32_MAX else if req.Some? then req.value else pref.value
  {
    var preferredType := ScanMemoryTypes(types, typeBits, preferred, count);
    selected := U32_MAX;
    if preferredType.Some? {
      selected := preferredType.value;
      var requiredType := ScanMemoryTypes(types, typeBits, required, MAX_MEMORY_TYPES);
      if requiredType.Some? {
        selected := requiredType.value;
      }
    }
  }

  /** One of the two `break` loops of `chooseMemoryType`: the lowest type below `limit` that fits. */
  method ScanMemoryTypes(types: seq<bv32>, typeBits: bv32, flags: bv32, limit: nat) returns (r: Option<nat>)
    requires limit <= |types| && limit <= MAX_MEMORY_TYPES
    ensures r == FirstFittingType(types, typeBits, flags, limit, 0)
    ensures r.Some? ==> r.value < limit && TypeFits(types, typeBits, flags, r.value)
  {
    var t := 0;
    while t < limit
      invariant 0 <= t <= limit
      invariant FirstFittingType(types, typeBits, flags, limit, 0) == FirstFittingType(types, typeBits, flags, limit, t)
    {
      if typeBits & ((1 as bv32) << t) != 0 && types[t] & flags == flags {
        return Some(t);
      }
      t := t + 1;
    }
    return None;
  }

  // ---------------------------------------------------------------- present modes and formats

  /**
   * The selection part of `selectPresentationMode`: the desired mode when it is
   * listed, else FIFO when listed, else failure with the out-parameter untouched.
   */
  method SelectPresentationMode(modes: seq<nat>, desired: nat, current: nat) returns (ok: bool, mode: nat)
    ensures ok <==> desired in modes || VK_PRESENT_MODE_FIFO_KHR in modes
    ensures desired in modes ==> mode == desired
    ensures desired !in modes && VK_PRESENT_MODE_FIFO_KHR in modes ==> mode == VK_PRESENT_MODE_FIFO_KHR
    ensures !ok ==> mode == current
  {
    var i := 0;
    while i < |modes|
      invariant 0 <= i <= |modes|
      invariant desired !in modes[..i]
    {
      if modes[i] == desired {
        return true, desired;
      }
      assert modes[..i + 1] == modes[..i] + [modes[i]];
      i := i + 1;
    }
    assert modes[..i] == modes;
    i := 0;
    while i < |modes|
      invariant 0 <= i <= |modes|
      invariant VK_PRESENT_MODE_FIFO_KHR !in modes[..i]
    {
      if modes[i] == VK_PRESENT_MODE_FIFO_KHR {
        return true, VK_PRESENT_MODE_FIFO_KHR;
      }
      assert modes[..i + 1] == modes[..i] + [modes[i]];
      i := i + 1;
    }
    assert modes[..i] == modes;
    return false, current;
  }

  /** The lowest index at or after `i` of a surface format with the given format. */
  function FirstWithFormat(fs: seq<SurfaceFormat>, format: nat, i: nat): (r: Option<nat>)
    decreases |fs| - i
    ensures r.Some? ==> i <= r.value < |fs| && fs[r.value].format == format
    ensures r.Some? ==> forall k :: i <= k < r.value ==> fs[k].format != format
    ensures r.None? ==> forall k :: i <= k < |fs| ==> fs[k].format != format
  {
    if i >= |fs| then None
    else if fs[i].format == format then Some(i)
    else FirstWithFormat(fs, format, i + 1)
  }

  /**
   * The surface format `selectFormatOfSwapchainImages` settles on for a
   * non-empty report: the desired pair when any format is accepted or the
   * pair is listed, else the desired format with the colour space of its
   * first listing, else the first listed pair.
   */
  function ChosenSurfaceFormat(formats: seq<SurfaceFormat>, desired: SurfaceFormat): (r: SurfaceFormat)
    requires |formats| > 0
    ensures |formats| == 1 && formats[0].format == VK_FORMAT_UNDEFINED ==> r == desired
    ensures desired in formats ==> r == desired
    ensures r == desired || r in formats
            || (r.format == desired.format && exists k :: 0 <= k < |formats| && formats[k] == SurfaceFormat(desired.format, r.colorSpace))
    ensures ((forall k :: 0 <= k < |formats| ==> formats[k].format != desired.format)
             && !(|formats| == 1 && formats[0].format == VK_FORMAT_UNDEFINED)) ==> r == formats[0]
  {
    if |formats| == 1 && formats[0].format == VK_FORMAT_UNDEFINED then desired
    else if desired in formats then desired
    else
      var byFormat := FirstWithFormat(formats, desired.format, 0);
      if byFormat.Some? then SurfaceFormat(desired.format, formats[byFormat.value].colorSpace) else formats[0]
  }

  /**
   * The selection part of `selectFormatOfSwapchainImages`. An empty list fails.
   * A single `VK_FORMAT_UNDEFINED` entry means any format is accepted, so the
   * desired pair is used; otherwise an exact match gives the desired pair, a
   * match on the format alone gives the desired format with the first such
   * entry's colour space, and failing both the first listed pair is used.
   */
  method SelectFormatOfSwapchainImages(formats: seq<SurfaceFormat>, desired: SurfaceFormat, current: SurfaceFormat)
    returns (ok: bool, chosen: SurfaceFormat)
    ensures ok <==> |formats| > 0
    ensures !ok ==> chosen == current
    ensures |formats| == 1 && formats[0].format == VK_FORMAT_UNDEFINED ==> chosen == desired
    ensures ok && !(|formats| == 1 && formats[0].format == VK_FORMAT_UNDEFINED) ==>
      var byFormat := FirstWithFormat(formats, desired.format, 0);
      chosen == if desired in formats then desired
                else if byFormat.Some? then SurfaceFormat(desired.format, formats[byFormat.value].colorSpace)
                else formats[0]
    ensures ok ==> chosen in formats || chosen == desired || chosen.format == desired.format
    ensures ok ==> chosen == ChosenSurfaceFormat(formats, desired)
  {
    if |formats| == 0 {
      return false, current;
    }
    if |formats| == 1 && formats[0].format == VK_FORMAT_UNDEFINED {
      return true, desired;
    }
    var i := 0;
    while i < |formats|
      invariant 0 <= i <= |formats|
      invariant desired !in formats[..i]
    {
      if formats[i].format == desired.format && formats[i].colorSpace == desired.colorSpace {
        return true, desired;
      }
      assert formats[..i + 1] == formats[..i] + [formats[i]];
      i := i + 1;
    }
    assert formats[..i] == formats;
    i := 0;
    while i < |formats|
      invariant 0 <= i <= |formats|
      invariant FirstWithFormat(formats, desired.format, 0) == FirstWithFormat(formats, desired.format, i)
    {
      if formats[i].format == desired.format {
        return true, SurfaceFormat(desired.format, formats[i].colorSpace);
      }
      i := i + 1;
    }
    return true, formats[0];
  }

  // ---------------------------------------------------------------- depth formats and samples

  /** The candidate's features for the requested tiling contain every requested bit; other tilings never match. */
  predicate FormatSupports(p: FormatProperties, tiling: nat, features: bv32)
  {
    || (tiling == VK_IMAGE_TILING_LINEAR && HasAll(p.linearTilingFeatures, features))
    || (tiling == VK_IMAGE_TILING_OPTIMAL && HasAll(p.optimalTilingFeatures, features))
  }

  /**
   * `findSupportedFormat`: the first candidate whose features (as reported by
   * `vkGetPhysicalDeviceFormatProperties`, here `props[k]` for `candidates[k]`)
   * support the request.
   */
  method FindSupportedFormat(candidates: seq<nat>, props: seq<FormatProperties>, tiling: nat, features: bv32, current: nat)
    returns (found: bool, format: nat)
    requires |props| == |candidates|
    ensures found <==> exists k :: 0 <= k < |props| && FormatSupports(props[k], tiling, features)
    ensures found ==> exists k :: 0 <= k < |props| && FormatSupports(props[k], tiling, features) && format == candidates[k]
                                && forall j :: 0 <= j < k ==> !FormatSupports(props[j], tiling, features)
    ensures !found ==> format == current
    ensures tiling != VK_IMAGE_TILING_LINEAR && tiling != VK_IMAGE_TILING_OPTIMAL ==> !found
  {
    var i := 0;
    while i < |candidates|
      invariant 0 <= i <= |candidates|
      invariant forall j :: 0 <= j < i ==> !FormatSupports(props[j], tiling, features)
    {
      var p := props[i];
      if tiling == VK_IMAGE_TILING_LINEAR && HasAll(p.linearTilingFeatures, features) {
        return true, candidates[i];
      } else if tiling == VK_IMAGE_TILING_OPTIMAL && HasAll(p.optimalTilingFeatures, features) {
        return true, candidates[i];
      }
      i := i + 1;
    }
    return false, current;
  }

  /** A single multisample count bit, `VK_SAMPLE_COUNT_1_BIT` to `VK_SAMPLE_COUNT_64_BIT`. */
  predicate IsSampleBit(r: bv32)
  {
    r == 1 || r == 2 || r == 4 || r == 8 || r == 16 || r == 32 || r == 64
  }

  /** No multisample bit above `r` (up to 64) is present in `counts`. */
  predicate NoneAbove(counts: bv32, r: bv32)
  {
    && (r < 64 ==> counts & 64 == 0) && (r < 32 ==> counts & 32 == 0) && (r < 16 ==> counts & 16 == 0)
    && (r < 8 ==> counts & 8 == 0) && (r < 4 ==> counts & 4 == 0) && (r < 2 ==> counts & 2 == 0)
  }

  /**
   * `maxUsableSampleCount`: the highest of 64..2 samples present in the colour
   * counts masked by the depth counts, else 1. Without the depth buffer the
   * mask is 0, so the answer is always a single sample.
   */
  function MaxUsableSampleCount(colorCounts: bv32, depthCounts: bv32, includeDepthBuffer: bool): (r: bv32)
    ensures IsSampleBit(r)
    ensures r != 1 ==> (colorCounts & (if includeDepthBuffer then depthCounts else 0)) & r != 0
    ensures NoneAbove(colorCounts & (if includeDepthBuffer then depthCounts else 0), r)
    ensures !includeDepthBuffer ==> r == 1
  {
    var counts := colorCounts & (if includeDepthBuffer then depthCounts else 0);
    if counts & 64 != 0 then 64
    else if counts & 32 != 0 then 32
    else if counts & 16 != 0 then 16
    else if counts & 8 != 0 then 8
    else if counts & 4 != 0 then 4
    else if counts & 2 != 0 then 2
    else 1
  }
}
