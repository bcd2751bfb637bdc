/**
 * `circe::vk::QueueFamilies` (circe/vk/core/logical_device.h): the queue
 * requests of a logical device. Each entry names one queue family index,
 * the priorities requested on it and one queue handle slot per priority;
 * a name map sends family names to entries.
 */
module VkLogicalDevice {
  import opened Wrappers

  /** `VkQueue`: slots start as `VK_NULL_HANDLE` and are filled on device creation. */
  datatype QueueHandle = NullQueue | Queue(id: nat)

  /** `QueueFamilyInfo`. Priorities are floats in [0, 1]; the model keeps them as reals. */
  datatype QueueFamilyInfo = QueueFamilyInfo(name: string, familyIndex: Option<nat>,
                                             priorities: seq<real>, queues: seq<QueueHandle>)

  /** `n` null queue handles. */
  function Nulls(n: nat): (r: seq<QueueHandle>)
    ensures |r| == n && forall k :: 0 <= k < n ==> r[k] == NullQueue
  {
    seq(n, _ => NullQueue)
  }

  /** The position of the first entry requesting family `index`, or `|fs|` when there is none. */
  function FirstFamily(fs: seq<QueueFamilyInfo>, index: nat): (r: nat)
    ensures r <= |fs|
    ensures r < |fs| ==> fs[r].familyIndex == Some(index)
    ensures forall k :: 0 <= k < r ==> fs[k].familyIndex != Some(index)
  {
    if fs == [] then 0
    else if fs[0].familyIndex == Some(index) then 0
    else 1 + FirstFamily(fs[1..], index)
  }

  /** The entries after `add(index, name, ps)`. */
  function AddFamilies(fs: seq<QueueFamilyInfo>, index: nat, name: string, ps: seq<real>): seq<QueueFamilyInfo>
  {
    var i := FirstFamily(fs, index);
    if i < |fs| then
      fs[i := fs[i].(priorities := fs[i].priorities + ps, queues := fs[i].queues + Nulls(|ps|))]
    else
      fs + [QueueFamilyInfo(name, Some(index), ps, Nulls(|ps|))]
  }

  /** The name map after `add(index, name, ps)`: the name points at the entry that received the request. */
  function AddIndices(fs: seq<QueueFamilyInfo>, m: map<string, nat>, index: nat, name: string): map<string, nat>
  {
    m[name := FirstFamily(fs, index)]
  }

  /**
   * The invariant `add` keeps: names point at entries, every entry holds one
   * queue slot per priority, and no two entries request the same family.
   */
  predicate WellFormed(fs: seq<QueueFamilyInfo>, m: map<string, nat>)
  {
    && (forall n :: n in m ==> m[n] < |fs|)
    && (forall k :: 0 <= k < |fs| ==> |fs[k].queues| == |fs[k].priorities| && fs[k].familyIndex.Some?)
    && (forall j, k :: 0 <= j < k < |fs| ==> fs[j].familyIndex != fs[k].familyIndex)
  }

  /** `add` keeps the invariant. */
  lemma AddKeepsWellFormed(fs: seq<QueueFamilyInfo>, m: map<string, nat>, index: nat, name: string, ps: seq<real>)
    requires WellFormed(fs, m)
    ensures WellFormed(AddFamilies(fs, index, name, ps), AddIndices(fs, m, index, name))
  {
    var i := FirstFamily(fs, index);
    var fs' := AddFamilies(fs, index, name, ps);
    if i == |fs| {
      forall j, k | 0 <= j < k < |fs'| ensures fs'[j].familyIndex != fs'[k].familyIndex {
        if k == |fs| {
          assert fs'[j] == fs[j];
        }
      }
    }
  }

  /**
   * After `add(index, name, ps)` the name points at the entry for `index`. A
   * request for a family already present adds no entry and grows that entry by
   * `ps` and as many null queues; a new family gets one new entry at the end.
   * Every other entry is unchanged.
   */
  lemma AddEffect(fs: seq<QueueFamilyInfo>, m: map<string, nat>, index: nat, name: string, ps: seq<real>)
    ensures var fs', m' := AddFamilies(fs, index, name, ps), AddIndices(fs, m, index, name);
      && name in m' && m'[name] < |fs'| && fs'[m'[name]].familyIndex == Some(index)
      && (forall n :: n in m && n != name ==> n in m' && m'[n] == m[n])
      && ((exists k :: 0 <= k < |fs| && fs[k].familyIndex == Some(index)) ==>
            && |fs'| == |fs|
            && fs'[m'[name]].priorities == fs[m'[name]].priorities + ps
            && fs'[m'[name]].queues == fs[m'[name]].queues + Nulls(|ps|)
            && fs'[m'[name]].name == fs[m'[name]].name
            && (forall k :: 0 <= k < |fs| && k != m'[name] ==> fs'[k] == fs[k]))
      && ((forall k :: 0 <= k < |fs| ==> fs[k].familyIndex != Some(index)) ==>
            && fs' == fs + [QueueFamilyInfo(name, Some(index), ps, Nulls(|ps|))]
            && m'[name] == |fs|)
  {
  }

  /** The entry a name selects; an unknown name selects the first entry. */
  function FamilyOf(fs: seq<QueueFamilyInfo>, m: map<string, nat>, name: string): (r: QueueFamilyInfo)
    requires forall n :: n in m ==> m[n] < |fs|
    requires name in m || |fs| > 0
    ensures r in fs
    ensures name !in m ==> r == fs[0]
  {
    if name in m then fs[m[name]] else fs[0]
  }

  /** After `add(index, name, ps)` on a well-formed state, `family(name)` is the entry requesting `index`. */
  lemma AddThenFamily(fs: seq<QueueFamilyInfo>, m: map<string, nat>, index: nat, name: string, ps: seq<real>)
    requires WellFormed(fs, m)
    ensures var fs', m' := AddFamilies(fs, index, name, ps), AddIndices(fs, m, index, name);
      && WellFormed(fs', m')
      && FamilyOf(fs', m', name).familyIndex == Some(index)
      && |FamilyOf(fs', m', name).queues| == |FamilyOf(fs', m', name).priorities|
  {
    AddKeepsWellFormed(fs, m, index, name, ps);
    AddEffect(fs, m, index, name, ps);
  }

  class QueueFamilies {
    var familyInfoIndices: map<string, nat>
    var families: seq<QueueFamilyInfo>

    ghost predicate Valid()
      reads this
    {
      WellFormed(families, familyInfoIndices)
    }

    constructor ()
      ensures Valid() && families == [] && familyInfoIndices == map[]
    {
      familyInfoIndices := map[];
      families := [];
    }

    /**
     * `add`: scans the entries for one requesting `familyIndex`; if found, the name
     * is pointed at it and each priority is appended with a null queue; otherwise a
     * new entry is appended.
     */
    method Add(familyIndex: nat, name: string, priorities: seq<real>)
      modifies this
      ensures families == AddFamilies(old(families), familyIndex, name, priorities)
      ensures familyInfoIndices == AddIndices(old(families), old(familyInfoIndices), familyIndex, name)
      ensures old(Valid()) ==> Valid() && Family(name).familyIndex == Some(familyIndex)
    {
      ghost var fs0, m0, wasValid := families, familyInfoIndices, Valid();
      var i := 0;
      while i < |families|
        invariant 0 <= i <= |families| && families == fs0 && familyInfoIndices == m0
        invariant forall k :: 0 <= k < i ==> families[k].familyIndex != Some(familyIndex)
      {
        if families[i].familyIndex == Some(familyIndex) {
          assert i == FirstFamily(fs0, familyIndex);
          familyInfoIndices := familyInfoIndices[name := i];
          ghost var entry := families[i];
          var j := 0;
          assert entry.priorities + priorities[..0] == entry.priorities;
          assert entry.queues + Nulls(0) == entry.queues;
          assert families == fs0[i := entry.(priorities := entry.priorities + priorities[..0],
                                             queues := entry.queues + Nulls(0))];
          while j < |priorities|
            invariant 0 <= j <= |priorities| && |families| == |fs0|
            invariant familyInfoIndices == m0[name := i]
            invariant families == fs0[i := entry.(priorities := entry.priorities + priorities[..j],
                                                  queues := entry.queues + Nulls(j))]
          {
            var e := families[i];
            assert e.priorities + [priorities[j]] == entry.priorities + priorities[..j + 1] by {
              assert priorities[..j + 1] == priorities[..j] + [priorities[j]];
            }
            assert e.queues + [NullQueue] == entry.queues + Nulls(j + 1) by {
              assert Nulls(j + 1) == Nulls(j) + [NullQueue];
            }
            families := families[i := e.(priorities := e.priorities + [priorities[j]], queues := e.queues + [NullQueue])];
            j := j + 1;
          }
          assert priorities[..j] == priorities;
          if wasValid {
            AddThenFamily(fs0, m0, familyIndex, name, priorities);
          }
          return;
        }
        i := i + 1;
      }
      assert i == FirstFamily(fs0, familyIndex);
      familyInfoIndices := familyInfoIndices[name := i];
      families := families + [QueueFamilyInfo(name, Some(familyIndex), priorities, Nulls(|priorities|))];
      if wasValid {
        AddThenFamily(fs0, m0, familyIndex, name, priorities);
      }
    }

    /** `family(name)`: the entry the name points at, or the first entry for an unknown name. */
    function Family(name: string): (r: QueueFamilyInfo)
      reads this
      requires Valid() && (name in familyInfoIndices || |families| > 0)
      ensures r in families
      ensures name !in familyInfoIndices ==> r == families[0]
    {
      FamilyOf(families, familyInfoIndices, name)
    }
  }
}
