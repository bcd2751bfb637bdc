/**
 * `circe::vk::VertexLayout` (circe/vk/scene/scene_model.h): the ordered list of
 * vertex components used to build interleaved vertices for a Vulkan pipeline,
 * with a `VkFormat` per component. Offsets and the stride are `u32` sums of the
 * fixed per-component byte sizes.
 */
module VkVertexLayout {
  import opened Wrappers

  /** `VertexComponent`. */
  datatype Component = Position | Normal | Color | UV | Tangent | Bitangent | DummyFloat | DummyVec4

  /** `VkFormat` values of the four float formats the layout uses (Vulkan `VkFormat` enumeration). */
  const VK_FORMAT_R32_SFLOAT: nat := 100
  const VK_FORMAT_R32G32_SFLOAT: nat := 103
  const VK_FORMAT_R32G32B32_SFLOAT: nat := 106
  const VK_FORMAT_R32G32B32A32_SFLOAT: nat := 109

  /** The number of `float`s a component occupies. */
  function FloatCount(c: Component): (r: nat)
    ensures 1 <= r <= 4
    ensures r == 1 <==> c == DummyFloat
    ensures r == 2 <==> c == UV
    ensures r == 4 <==> c == DummyVec4
  {
    match c
    case Position => 3
    case Normal => 3
    case Color => 3
    case UV => 2
    case Tangent => 3
    case Bitangent => 3
    case DummyFloat => 1
    case DummyVec4 => 4
  }

  /** `sizes[c]`: the byte size of a component, a whole number of 4-byte floats. */
  function ComponentSize(c: Component): (r: nat)
    ensures r % 4 == 0 && 4 <= r <= 16
  {
    4 * FloatCount(c)
  }

  /** `default_formats[c]`. */
  function DefaultFormat(c: Component): nat
  {
    match c
    case Position => VK_FORMAT_R32G32B32_SFLOAT
    case Normal => VK_FORMAT_R32G32B32_SFLOAT
    case Color => VK_FORMAT_R32G32B32_SFLOAT
    case UV => VK_FORMAT_R32G32_SFLOAT
    case Tangent => VK_FORMAT_R32G32B32_SFLOAT
    case Bitangent => VK_FORMAT_R32G32B32_SFLOAT
    case DummyFloat => VK_FORMAT_R32_SFLOAT
    case DummyVec4 => VK_FORMAT_R32G32B32A32_SFLOAT
  }

  /** Bytes per element of the four 32-bit float formats, 0 for any other format. */
  function FormatBytes(format: nat): nat
  {
    if format == VK_FORMAT_R32_SFLOAT then 4
    else if format == VK_FORMAT_R32G32_SFLOAT then 8
    else if format == VK_FORMAT_R32G32B32_SFLOAT then 12
    else if format == VK_FORMAT_R32G32B32A32_SFLOAT then 16
    else 0
  }

  /** The two tables agree: each default format is exactly as wide as its component. */
  lemma DefaultFormatFitsSize(c: Component)
    ensures FormatBytes(DefaultFormat(c)) == ComponentSize(c)
  {
  }

  /** The sum of the component sizes: the true (unbounded) stride. */
  function StrideOf(cs: seq<Component>): nat
  {
    if cs == [] then 0 else StrideOf(cs[..|cs| - 1]) + ComponentSize(cs[|cs| - 1])
  }

  lemma {:induction false} StrideAppend(a: seq<Component>, b: seq<Component>)
    ensures StrideOf(a + b) == StrideOf(a) + StrideOf(b)
    decreases |b|
  {
    if b == [] {
      assert a + b == a;
    } else {
      var b' := b[..|b| - 1];
      assert (a + b)[..|a + b| - 1] == a + b';
      StrideAppend(a, b');
    }
  }

  lemma StrideSnoc(cs: seq<Component>, i: nat)
    requires i < |cs|
    ensures StrideOf(cs[..i + 1]) == StrideOf(cs[..i]) + ComponentSize(cs[i])
  {
    assert cs[..i + 1][..i] == cs[..i];
  }

  /** The stride of a prefix, plus the entry right after it, never exceeds the whole stride. */
  lemma StridePrefixBound(cs: seq<Component>, i: nat)
    requires i < |cs|
    ensures StrideOf(cs[..i]) + ComponentSize(cs[i]) <= StrideOf(cs)
  {
    assert cs == cs[..i + 1] + cs[i + 1..];
    StrideAppend(cs[..i + 1], cs[i + 1..]);
    assert cs[..i + 1][..i] == cs[..i];
  }

  /** The position of the first occurrence of `c`, or `|cs|` when `c` does not occur. */
  function FirstIndex(cs: seq<Component>, c: Component): (r: nat)
    ensures r <= |cs|
    ensures r < |cs| <==> c in cs
    ensures r < |cs| ==> cs[r] == c
    ensures forall j :: 0 <= j < r ==> cs[j] != c
  {
    if cs == [] then 0
    else if cs[0] == c then 0
    else
      assert cs == [cs[0]] + cs[1..];
      1 + FirstIndex(cs[1..], c)
  }

  /** The byte offset `componentOffset` is meant to give: the sizes of the entries before the first `c`. */
  function OffsetOf(cs: seq<Component>, c: Component): nat
  {
    StrideOf(cs[..FirstIndex(cs, c)])
  }

  /** A present component's bytes lie inside the vertex; an absent one's offset is the stride. */
  lemma OffsetWithinStride(cs: seq<Component>, c: Component)
    ensures c in cs ==> OffsetOf(cs, c) + ComponentSize(c) <= StrideOf(cs)
    ensures c !in cs ==> OffsetOf(cs, c) == StrideOf(cs)
  {
    var i := FirstIndex(cs, c);
    if c in cs {
      StridePrefixBound(cs, i);
    } else {
      assert cs[..i] == cs;
    }
  }

  /** Distinct components occupy disjoint byte ranges, in the order they are listed. */
  lemma OffsetsDisjoint(cs: seq<Component>, c: Component, d: Component)
    requires c in cs && d in cs && FirstIndex(cs, c) < FirstIndex(cs, d)
    ensures OffsetOf(cs, c) + ComponentSize(c) <= OffsetOf(cs, d)
  {
    var i := FirstIndex(cs, c);
    var j := FirstIndex(cs, d);
    var p := cs[..j];
    assert p[i] == c && p[..i] == cs[..i];
    StridePrefixBound(p, i);
  }

  /** `u32` addition. */
  lemma AddMod(a: nat, s: nat)
    ensures (a % U32_MODULUS + s) % U32_MODULUS == (a + s) % U32_MODULUS
  {
    var q := a / U32_MODULUS;
    assert a == q * U32_MODULUS + a % U32_MODULUS;
  }

  class VertexLayout {
    var components: seq<Component>
    var formats: seq<nat>

    /**
     * The explicit constructor: stores both lists and, when components were
     * given without any format, fills in the default formats.
     */
    constructor (components: seq<Component>, formats: seq<nat>)
      ensures this.components == components
      ensures |components| > 0 && |formats| == 0 ==>
        |this.formats| == |components| && forall i :: 0 <= i < |components| ==> this.formats[i] == DefaultFormat(components[i])
      ensures !(|components| > 0 && |formats| == 0) ==> this.formats == formats
    {
      this.components := components;
      this.formats := formats;
      new;
      if |components| > 0 && |formats| == 0 {
        FillWithDefaultFormats();
      }
    }

    /** `fillWithDefaultFormats`: one default format per component, in component order. */
    method FillWithDefaultFormats()
      modifies this
      ensures components == old(components)
      ensures |formats| == |components|
      ensures forall i :: 0 <= i < |components| ==> formats[i] == DefaultFormat(components[i])
    {
      formats := [];
      var i := 0;
      while i < |components|
        invariant 0 <= i <= |components|
        invariant components == old(components)
        invariant |formats| == i
        invariant forall j :: 0 <= j < i ==> formats[j] == DefaultFormat(components[j])
      {
        formats := formats + [DefaultFormat(components[i])];
        i := i + 1;
      }
    }

    /**
     * `componentFormat`: the format paired with the first occurrence of `c`, or
     * R32G32B32_SFLOAT when `c` is not in the layout. Reading `formats[i]`
     * needs a format at that position.
     */
    method ComponentFormat(c: Component) returns (f: nat)
      requires c in components ==> FirstIndex(components, c) < |formats|
      ensures c in components ==> f == formats[FirstIndex(components, c)]
      ensures c !in components ==> f == VK_FORMAT_R32G32B32_SFLOAT
    {
      var i := 0;
      while i < |components|
        invariant 0 <= i <= |components|
        invariant forall j :: 0 <= j < i ==> components[j] != c
      {
        if components[i] == c {
          return formats[i];
        }
        i := i + 1;
      }
      return VK_FORMAT_R32G32B32_SFLOAT;
    }

    /**
     * `componentOffset`: the `u32` running sum of the sizes before the first
     * occurrence of `c`; when `c` is absent the loop runs out and the full
     * stride is returned.
     */
    method ComponentOffset(c: Component) returns (o: nat)
      ensures o == OffsetOf(components, c) % U32_MODULUS
      ensures c !in components ==> o == StrideOf(components) % U32_MODULUS
    {
      o := 0;
      var i := 0;
      while i < |components|
        invariant 0 <= i <= |components|
        invariant forall j :: 0 <= j < i ==> components[j] != c
        invariant o == StrideOf(components[..i]) % U32_MODULUS
      {
        if components[i] == c {
          return;
        }
        StrideSnoc(components, i);
        AddMod(StrideOf(components[..i]), ComponentSize(components[i]));
        o := (o + ComponentSize(components[i])) % U32_MODULUS;
        i := i + 1;
      }
      assert components[..i] == components;
    }

    /** `stride`: the `u32` sum of the sizes of all components. */
    method Stride() returns (res: nat)
      ensures res == StrideOf(components) % U32_MODULUS
      ensures res < U32_MODULUS
    {
      res := 0;
      var i := 0;
      while i < |components|
        invariant 0 <= i <= |components|
        invariant res == StrideOf(components[..i]) % U32_MODULUS
      {
        StrideSnoc(components, i);
        AddMod(StrideOf(components[..i]), ComponentSize(components[i]));
        res := (res + ComponentSize(components[i])) % U32_MODULUS;
        i := i + 1;
      }
      assert components[..i] == components;
    }
  }
}
