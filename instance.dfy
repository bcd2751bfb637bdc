/**
 * `circe::vk::SupportInfo` and `circe::vk::Instance` (circe/vk/core/instance.cpp):
 * the cached instance-extension and validation-layer checks, the support
 * checks done by `Instance::init`, `destroy`, and the device choice of
 * `pickPhysicalDevice`. Vulkan handles are opaque values; the enumeration and
 * creation calls are replaced by their results, passed in as inputs.
 */
module VkInstance {
  import opened Wrappers
  import VkPhysicalDevice
  import VkLogicalDevice

  const VK_EXT_DEBUG_UTILS_EXTENSION_NAME: string := "VK_EXT_debug_utils"

  /**
   * `SupportInfo`: the instance extensions and validation layers, each list
   * enumerated on the first query only and cached (the source keeps them in
   * static members guarded by function-local `available_loaded` flags).
   */
  class SupportInfo {
    var extensionsLoaded: bool
    var extensions: seq<string>
    var layersLoaded: bool
    var layers: seq<string>

    constructor ()
      ensures !extensionsLoaded && !layersLoaded && extensions == [] && layers == []
    {
      extensionsLoaded, extensions := false, [];
      layersLoaded, layers := false, [];
    }

    /**
     * `isInstanceExtensionSupported`: on the first call the cache is filled from
     * `available` (what `vkEnumerateInstanceExtensionProperties` reports); the
     * answer is whether the name occurs in the cached list.
     */
    method IsInstanceExtensionSupported(available: seq<string>, desired: string) returns (r: bool)
      modifies this`extensionsLoaded, this`extensions
      ensures extensionsLoaded
      ensures extensions == if old(extensionsLoaded) then old(extensions) else available
      ensures r <==> desired in extensions
    {
      if !extensionsLoaded {
        extensions := available;
        extensionsLoaded := true;
      }
      r := VkPhysicalDevice.IsExtensionSupported(extensions, desired);
    }

    /** `isValidationLayerSupported`: the same lazily loaded lookup over layer names. */
    method IsValidationLayerSupported(available: seq<string>, desired: string) returns (r: bool)
      modifies this`layersLoaded, this`layers
      ensures layersLoaded
      ensures layers == if old(layersLoaded) then old(layers) else available
      ensures r <==> desired in layers
    {
      if !layersLoaded {
        layers := available;
        layersLoaded := true;
      }
      r := VkPhysicalDevice.IsExtensionSupported(layers, desired);
    }
  }

  /** The extensions `init` checks: the requested ones followed by the debug-utils extension. */
  function RequestedExtensions(desired: seq<string>): (r: seq<string>)
    ensures |r| == |desired| + 1 && r[|desired|] == VK_EXT_DEBUG_UTILS_EXTENSION_NAME
    ensures forall k :: 0 <= k < |desired| ==> r[k] == desired[k]
  {
    desired + [VK_EXT_DEBUG_UTILS_EXTENSION_NAME]
  }

  class Instance {
    var instance: VkHandle
    var debugMessenger: VkHandle

    constructor ()
      ensures instance == NullHandle && debugMessenger == NullHandle
    {
      instance, debugMessenger := NullHandle, NullHandle;
    }

    /** `good`: the instance handle is not null. */
    function Good(): (r: bool)
      reads this
      ensures r <==> instance != NullHandle
    {
      instance.Live?
    }

    /** `destroy`: whatever the state, both handles end null. */
    method Destroy()
      modifies this
      ensures instance == NullHandle && debugMessenger == NullHandle
    {
      debugMessenger := NullHandle;
      instance := NullHandle;
    }

    /**
     * Move assignment: destroys this instance, takes the other's handles and
     * leaves the other with null handles. Moving an instance into itself
     * destroys it first, so both handles end null.
     */
    method MoveAssign(other: Instance)
      modifies this, other
      ensures other != this ==> instance == old(other.instance) && debugMessenger == old(other.debugMessenger)
      ensures other == this ==> instance == NullHandle && debugMessenger == NullHandle
      ensures other.instance == NullHandle && other.debugMessenger == NullHandle
    {
      Destroy();
      instance, debugMessenger := other.instance, other.debugMessenger;
      other.instance, other.debugMessenger := NullHandle, NullHandle;
    }

    /**
     * `init`: destroys the current handles, then checks every requested
     * extension (plus debug utils) and every validation layer, returning false at
     * the first unsupported one. `created` and `messenger` are the handles the
     * two creation calls return (`NullHandle` when the call fails); the result is
     * `good()` after both succeed. A failed messenger creation returns false
     * but keeps the instance already created.
     */
    method Init(desired: seq<string>, validationLayers: seq<string>, support: SupportInfo,
                availableExtensions: seq<string>, availableLayers: seq<string>,
                created: VkHandle, messenger: VkHandle) returns (ok: bool)
      modifies this, support
      ensures support.extensionsLoaded
      ensures ok <==> && (forall e :: e in RequestedExtensions(desired) ==> e in support.extensions)
                      && (forall l :: l in validationLayers ==> l in support.layers)
                      && created.Live? && messenger.Live?
      ensures ok ==> instance == created && debugMessenger == messenger
      ensures !ok ==> debugMessenger == NullHandle
      ensures instance == NullHandle || instance == created
      ensures (exists e :: e in RequestedExtensions(desired) && e !in support.extensions) ==> instance == NullHandle
    {
      Destroy();
      var extensions := RequestedExtensions(desired);
      var i := 0;
      while i < |extensions|
        invariant 0 <= i <= |extensions|
        invariant instance == NullHandle && debugMessenger == NullHandle
        invariant i > 0 ==> support.extensionsLoaded
        invariant forall k :: 0 <= k < i ==> extensions[k] in support.extensions
      {
        var supported := support.IsInstanceExtensionSupported(availableExtensions, extensions[i]);
        if !supported {
          return false;
        }
        i := i + 1;
      }
      assert support.extensionsLoaded;
      ghost var loadedExtensions := support.extensions;
      i := 0;
      while i < |validationLayers|
        invariant 0 <= i <= |validationLayers|
        invariant instance == NullHandle && debugMessenger == NullHandle
        invariant support.extensionsLoaded && support.extensions == loadedExtensions
        invariant i > 0 ==> support.layersLoaded
        invariant forall k :: 0 <= k < i ==> validationLayers[k] in support.layers
      {
        var supported := support.IsValidationLayerSupported(availableLayers, validationLayers[i]);
        if !supported {
          return false;
        }
        i := i + 1;
      }
      if created.NullHandle? {
        return false;
      }
      instance := created;
      if messenger.NullHandle? {
        return false;
      }
      debugMessenger := messenger;
      ok := Good();
    }
  }

  // ---------------------------------------------------------------- device choice

  /**
   * What `pickPhysicalDevice` learns about one enumerated device: its queue
   * families, per family whether presentation to the surface is supported,
   * and the score the caller's score function gives it.
   */
  datatype DeviceInfo = DeviceInfo(families: seq<VkPhysicalDevice.QueueFamilyProperties>,
                                   presentSupport: seq<bool>, score: nat)

  /** A device is scored when it has a family with the desired capabilities and, given a surface, a presenting family. */
  predicate IsCandidate(d: DeviceInfo, hasSurface: bool, desired: bv32)
  {
    && VkPhysicalDevice.FirstCapableFamily(d.families, desired, 0).Some?
    && (hasSurface ==> VkPhysicalDevice.FirstPresentingFamily(d.presentSupport, 0).Some?)
  }

  /** The queue families `pickPhysicalDevice` records for a candidate: "graphics", then "presentation" given a surface. */
  function CandidateFamilies(d: DeviceInfo, hasSurface: bool, desired: bv32): seq<VkLogicalDevice.QueueFamilyInfo>
    requires IsCandidate(d, hasSurface, desired)
  {
    var g := VkPhysicalDevice.FirstCapableFamily(d.families, desired, 0).value;
    var fs := VkLogicalDevice.AddFamilies([], g, "graphics", [1.0]);
    if hasSurface then
      VkLogicalDevice.AddFamilies(fs, VkPhysicalDevice.FirstPresentingFamily(d.presentSupport, 0).value, "presentation", [1.0])
    else fs
  }

  /** The name map recorded alongside `CandidateFamilies`. */
  function CandidateIndices(d: DeviceInfo, hasSurface: bool, desired: bv32): map<string, nat>
    requires IsCandidate(d, hasSurface, desired)
  {
    var g := VkPhysicalDevice.FirstCapableFamily(d.families, desired, 0).value;
    var fs := VkLogicalDevice.AddFamilies([], g, "graphics", [1.0]);
    var m := VkLogicalDevice.AddIndices([], map[], g, "graphics");
    if hasSurface then
      VkLogicalDevice.AddIndices(fs, m, VkPhysicalDevice.FirstPresentingFamily(d.presentSupport, 0).value, "presentation")
    else m
  }

  /**
   * The recorded families are well formed and name the chosen families:
   * "graphics" the lowest capable family and, given a surface,
   * "presentation" the lowest presenting family.
   */
  lemma CandidateFamiliesNamed(d: DeviceInfo, hasSurface: bool, desired: bv32)
    requires IsCandidate(d, hasSurface, desired)
    ensures var fs, m := CandidateFamilies(d, hasSurface, desired), CandidateIndices(d, hasSurface, desired);
      && VkLogicalDevice.WellFormed(fs, m)
      && "graphics" in m
      && VkLogicalDevice.FamilyOf(fs, m, "graphics").familyIndex
           == Some(VkPhysicalDevice.FirstCapableFamily(d.families, desired, 0).value)
      && (hasSurface ==> && "presentation" in m
                         && VkLogicalDevice.FamilyOf(fs, m, "presentation").familyIndex
                              == Some(VkPhysicalDevice.FirstPresentingFamily(d.presentSupport, 0).value))
      && (!hasSurface ==> "presentation" !in m)
  {
    var g := VkPhysicalDevice.FirstCapableFamily(d.families, desired, 0).value;
    var fs1 := VkLogicalDevice.AddFamilies([], g, "graphics", [1.0]);
    var m1 := VkLogicalDevice.AddIndices([], map[], g, "graphics");
    assert VkLogicalDevice.WellFormed([], map[]);
    VkLogicalDevice.AddThenFamily([], map[], g, "graphics", [1.0]);
    if hasSurface {
      var p := VkPhysicalDevice.FirstPresentingFamily(d.presentSupport, 0).value;
      VkLogicalDevice.AddThenFamily(fs1, m1, p, "presentation", [1.0]);
      VkLogicalDevice.AddEffect(fs1, m1, p, "presentation", [1.0]);
      var fs2 := VkLogicalDevice.AddFamilies(fs1, p, "presentation", [1.0]);
      assert |fs2| >= |fs1| && fs2[m1["graphics"]].familyIndex == fs1[m1["graphics"]].familyIndex;
    }
  }

  /**
   * The body of `pickPhysicalDevice`'s loop for one device: look for a capable
   * family and, given a surface, a presenting one; when found, record the
   * queue families under "graphics" and "presentation".
   */
  method ConsiderDevice(d: DeviceInfo, hasSurface: bool, desired: bv32)
    returns (isCandidate: bool, families: seq<VkLogicalDevice.QueueFamilyInfo>, indices: map<string, nat>)
    ensures isCandidate == IsCandidate(d, hasSurface, desired)
    ensures isCandidate ==> && families == CandidateFamilies(d, hasSurface, desired)
                            && indices == CandidateIndices(d, hasSurface, desired)
  {
    var hasGraphics, graphics := VkPhysicalDevice.SelectIndexOfQueueFamily(d.families, desired, 0);
    if !hasGraphics {
      return false, [], map[];
    }
    var hasPresentation, presentation := VkPhysicalDevice.SelectPresentationFamily(d.presentSupport, 0);
    if hasSurface && !hasPresentation {
      return false, [], map[];
    }
    var qf := new VkLogicalDevice.QueueFamilies();
    qf.Add(graphics, "graphics", [1.0]);
    if hasSurface {
      qf.Add(presentation, "presentation", [1.0]);
    }
    return true, qf.families, qf.familyInfoIndices;
  }

  /**
   * Among devices 0 .. n - 1, candidate b scores highest and no later
   * candidate scores as much.
   */
  ghost predicate IsBest(devices: seq<DeviceInfo>, b: nat, n: nat, hasSurface: bool, desired: bv32)
  {
    && b < n <= |devices| && IsCandidate(devices[b], hasSurface, desired)
    && (forall j :: 0 <= j < n && IsCandidate(devices[j], hasSurface, desired) ==> devices[j].score <= devices[b].score)
    && (forall j :: b < j < n && IsCandidate(devices[j], hasSurface, desired) ==> devices[j].score < devices[b].score)
  }

  /** None of devices 0 .. n - 1 is a candidate. */
  ghost predicate NoCandidate(devices: seq<DeviceInfo>, n: nat, hasSurface: bool, desired: bv32)
  {
    n <= |devices| && forall j :: 0 <= j < n ==> !IsCandidate(devices[j], hasSurface, desired)
  }

  /** A candidate scoring at least the best so far is the new best. */
  lemma BestTaken(devices: seq<DeviceInfo>, b: nat, i: nat, hasSurface: bool, desired: bv32)
    requires IsBest(devices, b, i, hasSurface, desired) && i < |devices|
    requires IsCandidate(devices[i], hasSurface, desired) && devices[i].score >= devices[b].score
    ensures IsBest(devices, i, i + 1, hasSurface, desired)
  {
  }

  /** The first candidate is the best so far. */
  lemma FirstCandidate(devices: seq<DeviceInfo>, i: nat, hasSurface: bool, desired: bv32)
    requires NoCandidate(devices, i, hasSurface, desired) && i < |devices|
    requires IsCandidate(devices[i], hasSurface, desired)
    ensures IsBest(devices, i, i + 1, hasSurface, desired)
  {
  }

  /** A device that is no candidate, or scores less than the best, keeps the best. */
  lemma BestKept(devices: seq<DeviceInfo>, b: nat, i: nat, hasSurface: bool, desired: bv32)
    requires IsBest(devices, b, i, hasSurface, desired) && i < |devices|
    requires !(IsCandidate(devices[i], hasSurface, desired) && devices[i].score >= devices[b].score)
    ensures IsBest(devices, b, i + 1, hasSurface, desired)
  {
  }

  lemma NoCandidateYet(devices: seq<DeviceInfo>, i: nat, hasSurface: bool, desired: bv32)
    requires NoCandidate(devices, i, hasSurface, desired) && i < |devices|
    requires !IsCandidate(devices[i], hasSurface, desired)
    ensures NoCandidate(devices, i + 1, hasSurface, desired)
  {
  }

  /** The best of all devices scores 0 exactly when every candidate does. */
  lemma BestMeans(devices: seq<DeviceInfo>, b: nat, hasSurface: bool, desired: bv32)
    requires IsBest(devices, b, |devices|, hasSurface, desired)
    ensures devices[b].score == 0 <==> forall j :: 0 <= j < |devices| && IsCandidate(devices[j], hasSurface, desired) ==>
                                         devices[j].score == 0
  {
  }

  /**
   * `pickPhysicalDevice`. Candidates are kept in a multimap ordered by score,
   * equal scores in enumeration order, and the last entry is taken: the chosen
   * device has the highest score, is the last enumerated one with that score,
   * and the score must be positive. On success the queue families recorded
   * for it replace the caller's `queue_families` (`currentFamilies` and
   * `currentIndices`); otherwise no device is chosen (the source returns a
   * default, invalid `PhysicalDevice`) and the caller's families are left as
   * they were.
   */
  method PickPhysicalDevice(devices: seq<DeviceInfo>, hasSurface: bool, desired: bv32,
                            currentFamilies: seq<VkLogicalDevice.QueueFamilyInfo>, currentIndices: map<string, nat>)
    returns (picked: Option<nat>, families: seq<VkLogicalDevice.QueueFamilyInfo>, indices: map<string, nat>)
    ensures picked.Some? ==> picked.value < |devices| && IsCandidate(devices[picked.value], hasSurface, desired)
    ensures picked.Some? ==> devices[picked.value].score > 0
    ensures picked.Some? ==> forall j :: 0 <= j < |devices| && IsCandidate(devices[j], hasSurface, desired) ==>
                               devices[j].score <= devices[picked.value].score
    ensures picked.Some? ==> forall j :: picked.value < j < |devices| && IsCandidate(devices[j], hasSurface, desired) ==>
                               devices[j].score < devices[picked.value].score
    ensures picked.None? <==> forall j :: 0 <= j < |devices| && IsCandidate(devices[j], hasSurface, desired) ==>
                               devices[j].score == 0
    ensures picked.Some? ==> && families == CandidateFamilies(devices[picked.value], hasSurface, desired)
                             && indices == CandidateIndices(devices[picked.value], hasSurface, desired)
    ensures picked.None? ==> families == currentFamilies && indices == currentIndices
  {
    var best: Option<nat> := None;
    var bestFamilies: seq<VkLogicalDevice.QueueFamilyInfo> := [];
    var bestIndices: map<string, nat> := map[];
    var i := 0;
    while i < |devices|
      invariant 0 <= i <= |devices|
      invariant best.Some? ==> IsBest(devices, best.value, i, hasSurface, desired)
      invariant best.None? ==> NoCandidate(devices, i, hasSurface, desired)
      invariant best.Some? ==> && bestFamilies == CandidateFamilies(devices[best.value], hasSurface, desired)
                               && bestIndices == CandidateIndices(devices[best.value], hasSurface, desired)
      invariant best.None? ==> bestFamilies == [] && bestIndices == map[]
    {
      var isCandidate, fs, m := ConsiderDevice(devices[i], hasSurface, desired);
      if isCandidate && (best.None? || devices[i].score >= devices[best.value].score) {
        if best.Some? {
          BestTaken(devices, best.value, i, hasSurface, desired);
        } else {
          FirstCandidate(devices, i, hasSurface, desired);
        }
        best := Some(i);
        bestFamilies, bestIndices := fs, m;
      } else if best.Some? {
        BestKept(devices, best.value, i, hasSurface, desired);
      } else {
        NoCandidateYet(devices, i, hasSurface, desired);
      }
      i := i + 1;
    }
    if best.Some? {
      BestMeans(devices, best.value, hasSurface, desired);
    }
    if best.Some? && devices[best.value].score > 0 {
      return best, bestFamilies, bestIndices;
    }
    return None, currentFamilies, currentIndices;
  }
}
