/**
 * The render pass builders of circe/vk/pipeline/renderpass.cpp:
 * `SubpassDescription` (attachment references of one subpass), `RenderPass`
 * (attachments, dependencies and subpasses, translated into Vulkan records by
 * `init`) and `Framebuffer` (image views). Creation and destruction calls are
 * replaced by the handle they return.
 */
module VkRenderPass {
  import opened Wrappers

  /** `VkAttachmentReference`. */
  datatype AttachmentReference = AttachmentReference(attachment: nat, layout: nat)

  /** `VkAttachmentDescription` (its `flags` is always 0). */
  datatype AttachmentDescription = AttachmentDescription(
    format: nat, samples: nat, loadOp: nat, storeOp: nat,
    stencilLoadOp: nat, stencilStoreOp: nat, initialLayout: nat, finalLayout: nat)

  /** `VkSubpassDependency` (its `dependencyFlags` is always 0). */
  datatype SubpassDependency = SubpassDependency(
    srcSubpass: nat, dstSubpass: nat, srcStageMask: nat, dstStageMask: nat, srcAccessMask: nat, dstAccessMask: nat)

  /** The contents of a `SubpassDescription`. */
  datatype SubpassContents = SubpassContents(
    inputRefs: seq<AttachmentReference>, colorRefs: seq<AttachmentReference>,
    resolveRefs: seq<AttachmentReference>, depthStencilRef: AttachmentReference,
    depthStencilSet: bool, preserved: seq<nat>)

  /**
   * `VkSubpassDescription`. A pointer field is `None` for `nullptr` and
   * otherwise holds the data it points at.
   */
  datatype SubpassRecord = SubpassRecord(
    flags: nat, pipelineBindPoint: nat,
    inputAttachmentCount: nat, inputAttachments: Option<seq<AttachmentReference>>,
    colorAttachmentCount: nat, colorAttachments: Option<seq<AttachmentReference>>,
    resolveAttachments: Option<seq<AttachmentReference>>,
    depthStencilAttachment: Option<AttachmentReference>,
    preserveAttachmentCount: nat, preserveAttachments: Option<seq<nat>>)

  const VK_PIPELINE_BIND_POINT_GRAPHICS: nat := 0

  /** A list as `init` passes it: null when empty, its data otherwise. */
  function PointerTo<T>(s: seq<T>): (p: Option<seq<T>>)
    ensures p.None? <==> |s| == 0
    ensures p.Some? ==> p.value == s
  {
    if |s| == 0 then None else Some(s)
  }

  /**
   * The record `init` builds for one subpass: a graphics subpass whose counts
   * are the list lengths, each empty list a null pointer, and a depth/stencil
   * pointer only when one was set.
   */
  function ToSubpassRecord(c: SubpassContents): (r: SubpassRecord)
    ensures r.flags == 0 && r.pipelineBindPoint == VK_PIPELINE_BIND_POINT_GRAPHICS
    ensures r.inputAttachmentCount == |c.inputRefs| && r.colorAttachmentCount == |c.colorRefs|
    ensures r.preserveAttachmentCount == |c.preserved|
    ensures r.inputAttachments.None? <==> |c.inputRefs| == 0
    ensures r.colorAttachments.None? <==> |c.colorRefs| == 0
    ensures r.resolveAttachments.None? <==> |c.resolveRefs| == 0
    ensures r.preserveAttachments.None? <==> |c.preserved| == 0
    ensures r.depthStencilAttachment.Some? <==> c.depthStencilSet
    ensures c.depthStencilSet ==> r.depthStencilAttachment.value == c.depthStencilRef
  {
    SubpassRecord(0, VK_PIPELINE_BIND_POINT_GRAPHICS,
                  |c.inputRefs|, PointerTo(c.inputRefs),
                  |c.colorRefs|, PointerTo(c.colorRefs),
                  PointerTo(c.resolveRefs),
                  if c.depthStencilSet then Some(c.depthStencilRef) else None,
                  |c.preserved|, PointerTo(c.preserved))
  }

  /** The data a record points at can be read back: the translation loses no reference. */
  lemma SubpassRecordKeepsReferences(c: SubpassContents)
    ensures var r := ToSubpassRecord(c);
      && r.inputAttachments.GetOr([]) == c.inputRefs
      && r.colorAttachments.GetOr([]) == c.colorRefs
      && r.resolveAttachments.GetOr([]) == c.resolveRefs
      && r.preserveAttachments.GetOr([]) == c.preserved
  {
  }

  class SubpassDescription {
    var inputRefs: seq<AttachmentReference>
    var colorRefs: seq<AttachmentReference>
    var resolveRefs: seq<AttachmentReference>
    var depthStencilRef: AttachmentReference
    var depthStencilSet: bool
    var preserved: seq<nat>

    /** The current contents, as `init` reads them through the accessors. */
    function Contents(): SubpassContents
      reads this
    {
      SubpassContents(inputRefs, colorRefs, resolveRefs, depthStencilRef, depthStencilSet, preserved)
    }

    /** A new subpass has no references and no depth/stencil attachment. */
    constructor ()
      ensures Contents() == SubpassContents([], [], [], AttachmentReference(0, 0), false, [])
    {
      inputRefs, colorRefs, resolveRefs := [], [], [];
      depthStencilRef, depthStencilSet := AttachmentReference(0, 0), false;
      preserved := [];
    }

    /** `addInputAttachmentRef`: appends one reference and returns its position. */
    method AddInputAttachmentRef(attachment: nat, layout: nat) returns (id: nat)
      modifies this
      ensures Contents() == old(Contents()).(inputRefs := old(inputRefs) + [AttachmentReference(attachment, layout)])
      ensures id == |old(inputRefs)| && inputRefs[id] == AttachmentReference(attachment, layout)
    {
      inputRefs := inputRefs + [AttachmentReference(attachment, layout)];
      id := |inputRefs| - 1;
    }

    /** `addColorAttachmentRef`: appends one reference and returns its position. */
    method AddColorAttachmentRef(attachment: nat, layout: nat) returns (id: nat)
      modifies this
      ensures Contents() == old(Contents()).(colorRefs := old(colorRefs) + [AttachmentReference(attachment, layout)])
      ensures id == |old(colorRefs)| && colorRefs[id] == AttachmentReference(attachment, layout)
    {
      colorRefs := colorRefs + [AttachmentReference(attachment, layout)];
      id := |colorRefs| - 1;
    }

    /** `addResolveAttachmentRef`: appends one reference and returns its position. */
    method AddResolveAttachmentRef(attachment: nat, layout: nat) returns (id: nat)
      modifies this
      ensures Contents() == old(Contents()).(resolveRefs := old(resolveRefs) + [AttachmentReference(attachment, layout)])
      ensures id == |old(resolveRefs)| && resolveRefs[id] == AttachmentReference(attachment, layout)
    {
      resolveRefs := resolveRefs + [AttachmentReference(attachment, layout)];
      id := |resolveRefs| - 1;
    }

    /** `setDepthStencilAttachmentRef`: stores the reference and marks it as set. */
    method SetDepthStencilAttachmentRef(attachment: nat, layout: nat)
      modifies this
      ensures Contents() == old(Contents()).(depthStencilRef := AttachmentReference(attachment, layout), depthStencilSet := true)
      ensures HasDepthStencilAttachmentRef()
    {
      depthStencilRef := AttachmentReference(attachment, layout);
      depthStencilSet := true;
    }

    /** `preserveAttachment`: appends one preserved attachment index. */
    method PreserveAttachment(attachment: nat)
      modifies this
      ensures Contents() == old(Contents()).(preserved := old(preserved) + [attachment])
    {
      preserved := preserved + [attachment];
    }

    /** `hasDepthStencilAttachmentRef`. */
    predicate HasDepthStencilAttachmentRef()
      reads this
    {
      depthStencilSet
    }
  }

  class RenderPass {
    var attachments: seq<AttachmentDescription>
    var dependencies: seq<SubpassDependency>
    var subpasses: seq<SubpassDescription>
    var handle: VkHandle

    constructor ()
      ensures attachments == [] && dependencies == [] && subpasses == [] && handle == NullHandle
    {
      attachments, dependencies, subpasses, handle := [], [], [], NullHandle;
    }

    /** `addAttachment`: appends one description and returns its index. */
    method AddAttachment(d: AttachmentDescription) returns (id: nat)
      modifies this`attachments
      ensures attachments == old(attachments) + [d]
      ensures id == |old(attachments)| && attachments[id] == d
    {
      attachments := attachments + [d];
      id := |attachments| - 1;
    }

    /** `addSubpassDependency`: appends one dependency. */
    method AddSubpassDependency(d: SubpassDependency)
      modifies this`dependencies
      ensures dependencies == old(dependencies) + [d]
    {
      dependencies := dependencies + [d];
    }

    /**
     * `newSubpassDescription(uint32_t *id)`: appends a fresh, empty subpass and
     * returns it; the old subpass count is its id (written to `*id` when given).
     */
    method NewSubpassDescription() returns (id: nat, sd: SubpassDescription)
      modifies this`subpasses
      ensures fresh(sd) && subpasses == old(subpasses) + [sd]
      ensures id == |old(subpasses)| && subpasses[id] == sd
      ensures sd.Contents() == SubpassContents([], [], [], AttachmentReference(0, 0), false, [])
    {
      id := |subpasses|;
      sd := new SubpassDescription();
      subpasses := subpasses + [sd];
    }

    /** The subpass loop of `init`: one record per stored subpass, in order. */
    method SubpassRecords() returns (records: seq<SubpassRecord>)
      ensures |records| == |subpasses|
      ensures forall i :: 0 <= i < |subpasses| ==> records[i] == ToSubpassRecord(subpasses[i].Contents())
    {
      records := [];
      var i := 0;
      while i < |subpasses|
        invariant 0 <= i <= |subpasses|
        invariant |records| == i
        invariant forall k :: 0 <= k < i ==> records[k] == ToSubpassRecord(subpasses[k].Contents())
      {
        var sd := subpasses[i];
        var c := SubpassContents(sd.inputRefs, sd.colorRefs, sd.resolveRefs, sd.depthStencilRef,
                                 sd.depthStencilSet, sd.preserved);
        records := records + [ToSubpassRecord(c)];
        i := i + 1;
      }
    }

    /**
     * `init`: builds the subpass records, then creates the pass; `created` is the
     * handle `vkCreateRenderPass` returns (`NullHandle` on failure).
     */
    method Init(created: VkHandle) returns (ok: bool, records: seq<SubpassRecord>)
      modifies this`handle
      ensures ok <==> created.Live?
      ensures handle == created
      ensures |records| == |subpasses|
      ensures forall i :: 0 <= i < |subpasses| ==> records[i] == ToSubpassRecord(subpasses[i].Contents())
    {
      handle := NullHandle;
      records := SubpassRecords();
      handle := created;
      ok := created.Live?;
    }
  }

  class Framebuffer {
    var width: nat
    var height: nat
    var layers: nat
    var attachments: seq<nat>
    var handle: VkHandle

    constructor (width: nat, height: nat, layers: nat)
      ensures this.width == width && this.height == height && this.layers == layers
      ensures attachments == [] && handle == NullHandle
    {
      this.width, this.height, this.layers := width, height, layers;
      attachments, handle := [], NullHandle;
    }

    /** `addAttachment`: appends the view's handle. */
    method AddAttachment(view: nat)
      modifies this`attachments
      ensures attachments == old(attachments) + [view]
    {
      attachments := attachments + [view];
    }

    /** The move assignment operator as written: it returns `*this` and changes neither object. */
    method MoveAssignAsWritten(other: Framebuffer)
      ensures unchanged(this) && unchanged(other)
    {
    }

    /**
     * The move assignment the move constructor implies: this framebuffer takes
     * the other's settings, views and handle, and the other is left without a
     * handle.
     */
    method MoveAssign(other: Framebuffer)
      requires other != this
      modifies this, other`handle
      ensures width == old(other.width) && height == old(other.height) && layers == old(other.layers)
      ensures attachments == old(other.attachments) && handle == old(other.handle)
      ensures other.handle == NullHandle
    {
      width, height, layers := other.width, other.height, other.layers;
      attachments, handle := other.attachments, other.handle;
      other.handle := NullHandle;
    }
  }

  /**
   * Moving a framebuffer that holds a view into an empty one leaves the target
   * empty with the written operator, whereas the corrected one transfers it.
   */
  method MoveAssignLosesAttachments(view: nat) returns (target: Framebuffer, source: Framebuffer)
    ensures target.attachments == [] && source.attachments == [view]
  {
    target := new Framebuffer(0, 0, 1);
    source := new Framebuffer(800, 600, 1);
    source.AddAttachment(view);
    target.MoveAssignAsWritten(source);
  }
}
