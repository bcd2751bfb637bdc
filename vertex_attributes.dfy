/**
 * `circe::gl::VertexAttributes` (circe/gl/storage/vertex_attributes.h/.cpp):
 * the description of an interleaved vertex format. Each attribute gets a byte
 * offset equal to the stride accumulated before it, a shader location and an
 * id under which its name is registered.
 */
module VertexAttributes {
  import opened Wrappers
  import OpenGL

  /** `VertexAttributes::Attribute`. */
  datatype Attribute = Attribute(name: string, size: nat, attrType: nat, normalized: bool, divisor: nat, location: nat)
  {
    /** `componentSize`: the first of 3, 4, 2 that divides the size, else 1. */
    function ComponentSize(): (r: nat)
      ensures r == 3 <==> size % 3 == 0
      ensures r == 4 <==> size % 3 != 0 && size % 4 == 0
      ensures r == 2 <==> size % 3 != 0 && size % 4 != 0 && size % 2 == 0
      ensures r == 1 <==> size % 3 != 0 && size % 4 != 0 && size % 2 != 0
    {
      if size % 3 == 0 then 3
      else if size % 4 == 0 then 4
      else if size % 2 == 0 then 2
      else 1
    }

    /** `rows`: the number of component-sized slots (shader locations) the attribute spans. */
    function Rows(): (r: nat)
      ensures r * ComponentSize() == size
      ensures r <= size
    {
      size / ComponentSize()
    }

    /** Bytes one vertex spends on this attribute. */
    function ByteSize(): nat
    {
      size * OpenGL.DataSizeInBytes(attrType)
    }
  }

  /** Total bytes of a list of attributes: the stride of a vertex holding them in order. */
  function TotalBytes(attrs: seq<Attribute>): nat
  {
    if attrs == [] then 0 else TotalBytes(attrs[..|attrs| - 1]) + attrs[|attrs| - 1].ByteSize()
  }

  /** The byte offset of each attribute: the bytes of all attributes before it. */
  function PrefixOffsets(attrs: seq<Attribute>): (r: seq<nat>)
    ensures |r| == |attrs|
    ensures forall i :: 0 <= i < |attrs| ==> r[i] == TotalBytes(attrs[..i])
  {
    seq(|attrs|, i requires 0 <= i < |attrs| => TotalBytes(attrs[..i]))
  }

  /** Extending the list by one attribute appends its offset, the old total. */
  lemma PrefixOffsetsExtend(attrs: seq<Attribute>, i: nat)
    requires i < |attrs|
    ensures PrefixOffsets(attrs[..i + 1]) == PrefixOffsets(attrs[..i]) + [TotalBytes(attrs[..i])]
  {
    forall k | 0 <= k < i ensures attrs[..i + 1][..k] == attrs[..i][..k] {
    }
    assert attrs[..i + 1][..i] == attrs[..i];
  }

  /** Appending one attribute appends the old total to the offsets and adds its bytes to the total. */
  lemma AppendOffsets(attrs: seq<Attribute>, attr: Attribute)
    ensures PrefixOffsets(attrs + [attr]) == PrefixOffsets(attrs) + [TotalBytes(attrs)]
    ensures TotalBytes(attrs + [attr]) == TotalBytes(attrs) + attr.ByteSize()
  {
    var a := attrs + [attr];
    assert a[..|attrs|] == attrs;
    forall i | 0 <= i < |attrs| ensures a[..i] == attrs[..i] {
    }
  }

  /** Offsets never decrease, and each offset leaves room for its attribute below the stride. */
  lemma {:induction false} OffsetsIncreasing(attrs: seq<Attribute>, i: nat, j: nat)
    requires i <= j <= |attrs|
    ensures TotalBytes(attrs[..i]) <= TotalBytes(attrs[..j])
    ensures i < j ==> TotalBytes(attrs[..i]) + attrs[i].ByteSize() <= TotalBytes(attrs[..j])
    decreases j - i
  {
    if i < j {
      OffsetsIncreasing(attrs, i, j - 1);
      assert attrs[..j][..j - 1] == attrs[..j - 1];
      if i == j - 1 {
        assert attrs[..j][j - 1] == attrs[i];
      }
    }
  }

  function Digit(d: nat): char
    requires d < 10
  {
    "0123456789"[d]
  }

  /** `std::to_string` of an unsigned value. */
  function DecimalString(n: nat): (r: string)
    ensures r != []
    ensures n >= 10 ==> |r| >= 2
    ensures forall k :: 0 <= k < |r| ==> '0' <= r[k] <= '9'
  {
    if n < 10 then [Digit(n)] else DecimalString(n / 10) + [Digit(n % 10)]
  }

  lemma DigitInjective(d: nat, e: nat)
    requires d < 10 && e < 10 && Digit(d) == Digit(e)
    ensures d == e
  {
  }

  /** Distinct ids get distinct default names. */
  lemma {:induction false} DecimalStringInjective(a: nat, b: nat)
    requires DecimalString(a) == DecimalString(b)
    ensures a == b
  {
    if a >= 10 && b >= 10 {
      var sa, sb := DecimalString(a), DecimalString(b);
      var pa, pb := DecimalString(a / 10), DecimalString(b / 10);
      assert sa == pa + [Digit(a % 10)] && sb == pb + [Digit(b % 10)];
      assert |pa| == |pb|;
      assert sa[|pa|] == Digit(a % 10) && sb[|pb|] == Digit(b % 10);
      DigitInjective(a % 10, b % 10);
      assert sa[..|pa|] == pa && sb[..|pb|] == pb;
      DecimalStringInjective(a / 10, b / 10);
      assert a == 10 * (a / 10) + a % 10 && b == 10 * (b / 10) + b % 10;
    } else if a < 10 && b < 10 {
      assert DecimalString(a)[0] == Digit(a) && DecimalString(b)[0] == Digit(b);
      DigitInjective(a, b);
    }
  }

  /** The location a scalar push gives: explicit when non-negative, else after the last attribute. */
  function NextLocation(attrs: seq<Attribute>, location: int): (r: nat)
    requires location < U32_MODULUS
    ensures location >= 0 ==> r == location
    ensures location < 0 && attrs == [] ==> r == 0
    ensures location < 0 && attrs != [] ==> r == (attrs[|attrs| - 1].location + attrs[|attrs| - 1].Rows()) % U32_MODULUS
  {
    if location >= 0 then location
    else if attrs == [] then 0
    else (attrs[|attrs| - 1].location + attrs[|attrs| - 1].Rows()) % U32_MODULUS
  }

  /** `std::vector::resize`: keeps a prefix and pads with zeros. */
  function ResizeZeros(s: seq<nat>, n: nat): (r: seq<nat>)
    ensures |r| == n
    ensures forall i :: 0 <= i < n ==> r[i] == (if i < |s| then s[i] else 0)
  {
    if n <= |s| then s[..n] else s + seq(n - |s|, _ => 0)
  }

  /** The offsets `updateOffsets` leaves as written: the resized old list, then n more entries. */
  function UpdatedOffsetsAsWritten(oldOffsets: seq<nat>, attrs: seq<Attribute>): (r: seq<nat>)
  {
    if attrs == [] then [] else ResizeZeros(oldOffsets, |attrs|) + PrefixOffsets(attrs)
  }

  class VertexAttributeSet {
    var nameIds: map<string, nat>
    var attributes: seq<Attribute>
    var offsets: seq<nat>
    var stride: nat

    /** Offsets are the prefix sums of the attribute sizes, the stride is their total, and every registered name leads to an attribute with that name. */
    ghost predicate Valid()
      reads this
    {
      && offsets == PrefixOffsets(attributes)
      && stride == TotalBytes(attributes)
      && forall n :: n in nameIds ==> nameIds[n] < |attributes| && attributes[nameIds[n]].name == n
    }

    constructor ()
      ensures Valid()
      ensures attributes == [] && offsets == [] && nameIds == map[] && stride == 0
    {
      nameIds := map[];
      attributes := [];
      offsets := [];
      stride := 0;
    }

    /** `clear`. */
    method Clear()
      modifies this
      ensures Valid()
      ensures attributes == [] && offsets == [] && nameIds == map[] && stride == 0
    {
      attributes := [];
      nameIds := map[];
      offsets := [];
      stride := 0;
    }

    /** `contains`. */
    function Contains(name: string): (r: bool)
      reads this
      ensures r <==> name in nameIds
    {
      name in nameIds
    }

    /** `stride`: bytes of one vertex. */
    function Stride(): (r: nat)
      reads this
      requires Valid()
      ensures r == TotalBytes(attributes)
    {
      stride
    }

    /** `attributeOffset`: the bytes of the attributes pushed before this one. */
    function AttributeOffset(index: nat): (r: nat)
      reads this
      requires Valid() && index < |attributes|
      ensures r == TotalBytes(attributes[..index])
      ensures r + attributes[index].ByteSize() <= Stride()
    {
      OffsetsIncreasing(attributes, index, |attributes|);
      assert attributes[..|attributes|] == attributes;
      offsets[index]
    }

    /** `attributeIndex`: the map lookup is unchecked, so the name must be registered. */
    function AttributeIndex(name: string): (r: nat)
      reads this
      requires Valid() && Contains(name)
      ensures r < |attributes| && attributes[r].name == name
    {
      nameIds[name]
    }

    /** Common tail of both single-attribute pushes. */
    method Append(attr: Attribute) returns (id: nat)
      requires Valid()
      modifies this
      ensures Valid()
      ensures id == old(|attributes|)
      ensures attributes == old(attributes) + [attr]
      ensures offsets == old(offsets) + [old(stride)]
      ensures stride == old(stride) + attr.size * OpenGL.DataSizeInBytes(attr.attrType)
      ensures nameIds == old(nameIds)[attr.name := id]
    {
      id := |attributes|;
      ghost var before, ids := attributes, nameIds;
      AppendOffsets(before, attr);
      attributes := attributes + [attr];
      nameIds := nameIds[attr.name := id];
      offsets := offsets + [stride];
      stride := stride + attr.ByteSize();
      forall n | n in nameIds ensures nameIds[n] < |attributes| && attributes[nameIds[n]].name == n {
        if n != attr.name {
          assert nameIds[n] == ids[n] && attributes[ids[n]] == before[ids[n]];
        }
      }
    }

    /**
     * `push(component_count, name, data_type, normalized, location)`. An empty name
     * becomes the decimal id; a negative location continues after the last attribute.
     */
    method Push(componentCount: nat, name: string, dataType: nat, normalized: bool, location: int) returns (id: nat)
      requires Valid()
      requires -0x8000_0000 <= location < 0x8000_0000
      modifies this
      ensures Valid()
      ensures id == old(|attributes|)
      ensures var n := if name == [] then DecimalString(id) else name;
        attributes == old(attributes) + [Attribute(n, componentCount, dataType, normalized, 0, NextLocation(old(attributes), location))]
        && nameIds == old(nameIds)[n := id]
        && Contains(n) && AttributeIndex(n) == id
      ensures AttributeOffset(id) == old(stride)
      ensures stride == old(stride) + componentCount * OpenGL.DataSizeInBytes(dataType)
    {
      var n := if name == [] then DecimalString(|attributes|) else name;
      var loc := NextLocation(attributes, location);
      id := Append(Attribute(n, componentCount, dataType, normalized, 0, loc));
    }

    /** `push(const Attribute&)`: keeps the attribute's own name and location. */
    method PushAttribute(attr: Attribute) returns (id: nat)
      requires Valid()
      modifies this
      ensures Valid()
      ensures id == old(|attributes|)
      ensures attributes == old(attributes) + [attr]
      ensures nameIds == old(nameIds)[attr.name := id]
      ensures AttributeOffset(id) == old(stride)
      ensures stride == old(stride) + attr.ByteSize()
    {
      id := Append(attr);
    }

    /**
     * The typed `push<T>` for a math element of `components` floats: its location
     * argument is dropped, so the location always continues after the last attribute.
     */
    method PushMathElement(components: nat, name: string, location: int) returns (id: nat)
      requires Valid()
      requires components in {2, 3, 4, 9, 16}
      modifies this
      ensures Valid()
      ensures id == old(|attributes|)
      ensures var n := if name == [] then DecimalString(id) else name;
        attributes == old(attributes) + [Attribute(n, components, OpenGL.GL_FLOAT, false, 0, NextLocation(old(attributes), -1))]
    {
      id := Push(components, name, OpenGL.ScalarTypeEnum(OpenGL.Tf32), false, -1);
    }

    /** `setAttributeLocation`: a `GLint` stored into the `u32` field. */
    method SetAttributeLocation(id: nat, location: int)
      requires Valid() && id < |attributes|
      requires -0x8000_0000 <= location < 0x8000_0000
      modifies this
      ensures Valid()
      ensures attributes == old(attributes)[id := old(attributes)[id].(location := location % U32_MODULUS)]
      ensures offsets == old(offsets) && stride == old(stride) && nameIds == old(nameIds)
    {
      ghost var before := attributes;
      attributes := attributes[id := attributes[id].(location := location % U32_MODULUS)];
      TotalBytesIgnoresLocation(before, attributes);
      forall i | 0 <= i < |attributes| ensures TotalBytes(attributes[..i]) == TotalBytes(before[..i]) {
        TotalBytesIgnoresLocation(before[..i], attributes[..i]);
      }
    }

    /**
     * `push(const std::vector<Attribute>&)` as written: the attributes are replaced,
     * `updateOffsets` resizes the offsets to n and then appends n more, and neither
     * the stride nor the name map is touched.
     */
    method PushAllAsWritten(attrs: seq<Attribute>)
      modifies this
      ensures attributes == attrs
      ensures offsets == UpdatedOffsetsAsWritten(old(offsets), attrs)
      ensures stride == old(stride) && nameIds == old(nameIds)
    {
      attributes := attrs;
      UpdateOffsetsAsWritten();
    }

    /** `updateOffsets` as written. */
    method UpdateOffsetsAsWritten()
      modifies this
      ensures offsets == UpdatedOffsetsAsWritten(old(offsets), attributes)
      ensures attributes == old(attributes) && stride == old(stride) && nameIds == old(nameIds)
    {
      if attributes == [] {
        offsets := [];
        return;
      }
      offsets := ResizeZeros(offsets, |attributes|);
      ghost var resized := offsets;
      var offset := 0;
      var i := 0;
      while i < |attributes|
        invariant 0 <= i <= |attributes|
        invariant offset == TotalBytes(attributes[..i])
        invariant offsets == resized + PrefixOffsets(attributes[..i])
        invariant attributes == old(attributes) && stride == old(stride) && nameIds == old(nameIds)
      {
        assert attributes[..i + 1][..i] == attributes[..i];
        PrefixOffsetsExtend(attributes, i);
        offsets := offsets + [offset];
        offset := offset + attributes[i].size * OpenGL.DataSizeInBytes(attributes[i].attrType);
        i := i + 1;
      }
      assert attributes[..i] == attributes;
    }

    /**
     * `push(const std::vector<Attribute>&)` as evidently intended: the same state as
     * `clear` followed by `push(attribute)` for each attribute in order.
     */
    method PushAll(attrs: seq<Attribute>)
      modifies this
      ensures Valid()
      ensures attributes == attrs
      ensures offsets == PrefixOffsets(attrs)
      ensures stride == TotalBytes(attrs)
      ensures forall k :: 0 <= k < |attrs| ==> attrs[k].name in nameIds
    {
      Clear();
      var i := 0;
      while i < |attrs|
        invariant 0 <= i <= |attrs|
        invariant Valid()
        invariant attributes == attrs[..i]
        invariant forall k :: 0 <= k < i ==> attrs[k].name in nameIds
      {
        ghost var ids := nameIds;
        var _ := PushAttribute(attrs[i]);
        assert attrs[..i + 1] == attrs[..i] + [attrs[i]];
        assert nameIds == ids[attrs[i].name := i];
        forall k | 0 <= k < i + 1 ensures attrs[k].name in nameIds {
          if k < i {
            assert attrs[k].name in ids;
          }
        }
        i := i + 1;
      }
      assert attrs[..i] == attrs;
    }
  }

  /** Changing fields other than size and type does not change any byte count. */
  lemma {:induction false} TotalBytesIgnoresLocation(a: seq<Attribute>, b: seq<Attribute>)
    requires |a| == |b|
    requires forall k :: 0 <= k < |a| ==> a[k].size == b[k].size && a[k].attrType == b[k].attrType
    ensures TotalBytes(a) == TotalBytes(b)
  {
    if a != [] {
      TotalBytesIgnoresLocation(a[..|a| - 1], b[..|b| - 1]);
    }
  }

  /** As written, a non-empty `push(vector)` leaves twice as many offsets as attributes. */
  lemma UpdatedOffsetsAsWrittenLength(oldOffsets: seq<nat>, attrs: seq<Attribute>)
    requires attrs != []
    ensures |UpdatedOffsetsAsWritten(oldOffsets, attrs)| == 2 * |attrs|
    ensures UpdatedOffsetsAsWritten(oldOffsets, attrs) != PrefixOffsets(attrs)
  {
  }

  /**
   * Counterexample: a fresh set given [position (3 floats), normal (3 floats)] reports
   * offset 0 for the normal, where the intended offset is 12, and keeps stride 0.
   */
  lemma PushAllAsWrittenCounterexample()
    ensures var attrs := [Attribute("position", 3, OpenGL.GL_FLOAT, false, 0, 0),
                          Attribute("normal", 3, OpenGL.GL_FLOAT, false, 0, 1)];
      && UpdatedOffsetsAsWritten([], attrs)[1] == 0
      && PrefixOffsets(attrs)[1] == 12
      && TotalBytes(attrs) == 24
  {
    var attrs := [Attribute("position", 3, OpenGL.GL_FLOAT, false, 0, 0),
                  Attribute("normal", 3, OpenGL.GL_FLOAT, false, 0, 1)];
    assert attrs[..1] == [attrs[0]];
    assert attrs[..0] == [];
    assert attrs[..1][..0] == [];
    assert attrs[..|attrs| - 1] == [attrs[0]];
  }
}
