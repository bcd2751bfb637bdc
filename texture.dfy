/**
 * `circe::gl::Texture::Atlas` and the parameter maps of `Texture::View`
 * (circe/gl/texture/texture.cpp). Atlas sizes are unbounded naturals. A uv
 * coordinate is kept as the exact fraction texel / atlas size whose
 * floating-point quotient the source stores.
 */
module Textures {
  import opened Wrappers

  // ---------------------------------------------------------------- atlas

  /** `Atlas::Region`: an offset and a size in texels. */
  datatype Region = Region(offsetWidth: nat, offsetHeight: nat, width: nat, height: nat)
  {
    function UpperWidth(): nat { offsetWidth + width }
    function UpperHeight(): nat { offsetHeight + height }
  }

  /** A uv coordinate `num / den`. */
  datatype Fraction = Fraction(num: nat, den: nat)
  {
    /** The coordinate is a number (a zero size gives 0 / 0 or x / 0) and lies in [0, 1]. */
    predicate InUnitRange() { 0 < den && num <= den }
  }

  /** A uv box (`bbox2`): its lower and upper corners. */
  datatype UVBox = UVBox(lowerU: Fraction, lowerV: Fraction, upperU: Fraction, upperV: Fraction)

  /** The uv box of a region in an atlas of the given size: offset / size and upper / size. */
  function UVOf(r: Region, atlasWidth: nat, atlasHeight: nat): UVBox
  {
    UVBox(Fraction(r.offsetWidth, atlasWidth), Fraction(r.offsetHeight, atlasHeight),
          Fraction(r.UpperWidth(), atlasWidth), Fraction(r.UpperHeight(), atlasHeight))
  }

  /** A region lies inside an atlas of the given size. */
  predicate Inside(r: Region, atlasWidth: nat, atlasHeight: nat)
  {
    r.UpperWidth() <= atlasWidth && r.UpperHeight() <= atlasHeight
  }

  /** The uv box of a region inside an atlas of non-zero size has all four coordinates in [0, 1], lower below upper. */
  lemma UVOfInside(r: Region, atlasWidth: nat, atlasHeight: nat)
    requires Inside(r, atlasWidth, atlasHeight) && atlasWidth > 0 && atlasHeight > 0
    ensures var b := UVOf(r, atlasWidth, atlasHeight);
            && b.lowerU.InUnitRange() && b.lowerV.InUnitRange()
            && b.upperU.InUnitRange() && b.upperV.InUnitRange()
            && b.lowerU.num <= b.upperU.num && b.lowerV.num <= b.upperV.num
            && b.lowerU.den == b.upperU.den == atlasWidth && b.lowerV.den == b.upperV.den == atlasHeight
  {
  }

  /** Along a dimension of size 0 the coordinates are divisions by zero, not numbers in [0, 1]. */
  lemma UVOfZeroSize(r: Region, atlasWidth: nat, atlasHeight: nat)
    requires atlasWidth == 0 || atlasHeight == 0
    ensures var b := UVOf(r, atlasWidth, atlasHeight);
            atlasWidth == 0 ==> !b.lowerU.InUnitRange() && !b.upperU.InUnitRange()
    ensures var b := UVOf(r, atlasWidth, atlasHeight);
            atlasHeight == 0 ==> !b.lowerV.InUnitRange() && !b.upperV.InUnitRange()
  {
  }

  class Atlas {
    var regions: seq<Region>
    var uvs: seq<UVBox>
    /** `size_in_texels_`. */
    var atlasWidth: nat
    var atlasHeight: nat

    /** Every uv box is its region's box for the current size, and every region fits. */
    ghost predicate Valid()
      reads this
    {
      && |uvs| == |regions|
      && (forall i :: 0 <= i < |regions| ==> uvs[i] == UVOf(regions[i], atlasWidth, atlasHeight))
      && (forall i :: 0 <= i < |regions| ==> Inside(regions[i], atlasWidth, atlasHeight))
    }

    constructor ()
      ensures Valid() && regions == [] && atlasWidth == 0 && atlasHeight == 0
    {
      regions, uvs, atlasWidth, atlasHeight := [], [], 0, 0;
    }

    /**
     * `push`: grows the atlas to cover the region (recomputing the earlier uv
     * boxes when it grew), appends the region and its box, and returns its
     * position.
     */
    method Push(region: Region) returns (index: nat)
      requires Valid()
      modifies this
      ensures Valid()
      ensures index == |old(regions)| && regions == old(regions) + [region]
      ensures atlasWidth == if old(atlasWidth) < region.UpperWidth() then region.UpperWidth() else old(atlasWidth)
      ensures atlasHeight == if old(atlasHeight) < region.UpperHeight() then region.UpperHeight() else old(atlasHeight)
    {
      var oldWidth, oldHeight := atlasWidth, atlasHeight;
      if atlasWidth < region.UpperWidth() {
        atlasWidth := region.UpperWidth();
      }
      if atlasHeight < region.UpperHeight() {
        atlasHeight := region.UpperHeight();
      }
      if atlasWidth != oldWidth || atlasHeight != oldHeight {
        UpdateUVs();
      }
      regions := regions + [region];
      uvs := uvs + [UVOf(region, atlasWidth, atlasHeight)];
      index := |regions| - 1;
    }

    /** `updateUVs`: recomputes every uv box for the current atlas size. */
    method UpdateUVs()
      requires |uvs| == |regions|
      modifies this`uvs
      ensures |uvs| == |regions|
      ensures forall i :: 0 <= i < |regions| ==> uvs[i] == UVOf(regions[i], atlasWidth, atlasHeight)
    {
      var i := 0;
      while i < |uvs|
        invariant 0 <= i <= |uvs| == |regions|
        invariant forall j :: 0 <= j < i ==> uvs[j] == UVOf(regions[j], atlasWidth, atlasHeight)
      {
        uvs := uvs[i := UVOf(regions[i], atlasWidth, atlasHeight)];
        i := i + 1;
      }
    }

    /** `operator[]`: the region at a position. */
    function RegionAt(i: nat): (r: Region)
      reads this
      requires i < |regions|
      ensures r == regions[i]
      ensures Valid() ==> Inside(r, atlasWidth, atlasHeight)
    {
      regions[i]
    }

    /** `uv(i)`: the stored box, which is the region's box for the current atlas size. */
    function UV(i: nat): (b: UVBox)
      reads this
      requires i < |uvs|
      ensures Valid() ==> b == UVOf(regions[i], atlasWidth, atlasHeight)
    {
      uvs[i]
    }
  }

  /** In a valid atlas of non-zero size every stored uv coordinate lies in [0, 1]. */
  lemma UVsInUnitRange(atlas: Atlas, i: nat)
    requires atlas.Valid() && i < |atlas.uvs| && atlas.atlasWidth > 0 && atlas.atlasHeight > 0
    ensures var b := atlas.UV(i);
            b.lowerU.InUnitRange() && b.lowerV.InUnitRange() && b.upperU.InUnitRange() && b.upperV.InUnitRange()
  {
    UVOfInside(atlas.regions[i], atlas.atlasWidth, atlas.atlasHeight);
  }

  // ---------------------------------------------------------------- views

  const GL_TEXTURE_2D: nat := 0x0DE1
  const GL_TEXTURE_3D: nat := 0x806F
  const GL_TEXTURE_MAG_FILTER: nat := 0x2800
  const GL_TEXTURE_MIN_FILTER: nat := 0x2801
  const GL_TEXTURE_WRAP_S: nat := 0x2802
  const GL_TEXTURE_WRAP_T: nat := 0x2803
  const GL_TEXTURE_WRAP_R: nat := 0x8072
  const GL_TEXTURE_BASE_LEVEL: nat := 0x813C
  const GL_TEXTURE_MAX_LEVEL: nat := 0x813D
  const GL_LINEAR: nat := 0x2601
  const GL_CLAMP_TO_BORDER: nat := 0x812D
  const GL_CLAMP_TO_EDGE: nat := 0x812F

  /** `Texture::View`: the parameter map applied to the bound texture, its target and border. */
  datatype View = View(parameters: map<nat, nat>, target: nat, usingBorder: bool, borderColor: Color)

  /** The wrap keys a view sets for a target: S and T, and R for 3-D textures. */
  function WrapKeys(target: nat): set<nat>
  {
    if target == GL_TEXTURE_3D then {GL_TEXTURE_WRAP_S, GL_TEXTURE_WRAP_T, GL_TEXTURE_WRAP_R}
    else {GL_TEXTURE_WRAP_S, GL_TEXTURE_WRAP_T}
  }

  /** The keys every view sets besides the wrap keys. */
  const FILTER_AND_LEVEL_KEYS: set<nat> := {GL_TEXTURE_MIN_FILTER, GL_TEXTURE_MAG_FILTER, GL_TEXTURE_BASE_LEVEL, GL_TEXTURE_MAX_LEVEL}

  /**
   * `View(target)`: edge clamping on every wrap key of the target, linear
   * filtering, base and max level 0, no border.
   */
  function DefaultView(target: nat, color: Color): (v: View)
    ensures v.target == target && !v.usingBorder
    ensures v.parameters.Keys == WrapKeys(target) + FILTER_AND_LEVEL_KEYS
    ensures forall k :: k in WrapKeys(target) ==> v.parameters[k] == GL_CLAMP_TO_EDGE
    ensures v.parameters[GL_TEXTURE_MIN_FILTER] == GL_LINEAR && v.parameters[GL_TEXTURE_MAG_FILTER] == GL_LINEAR
    ensures v.parameters[GL_TEXTURE_BASE_LEVEL] == 0 && v.parameters[GL_TEXTURE_MAX_LEVEL] == 0
    ensures GL_TEXTURE_WRAP_R in v.parameters <==> target == GL_TEXTURE_3D
  {
    var common := map[GL_TEXTURE_WRAP_S := GL_CLAMP_TO_EDGE, GL_TEXTURE_WRAP_T := GL_CLAMP_TO_EDGE,
                      GL_TEXTURE_MIN_FILTER := GL_LINEAR, GL_TEXTURE_MAG_FILTER := GL_LINEAR,
                      GL_TEXTURE_BASE_LEVEL := 0, GL_TEXTURE_MAX_LEVEL := 0];
    var parameters := if target == GL_TEXTURE_3D then common[GL_TEXTURE_WRAP_R := GL_CLAMP_TO_EDGE] else common;
    View(parameters, target, false, color)
  }

  /** `View(border_color, target)`: the default view with every wrap key switched to the border. */
  function BorderView(borderColor: Color, target: nat): (v: View)
    ensures v.target == target && v.usingBorder && v.borderColor == borderColor
    ensures v.parameters.Keys == WrapKeys(target) + FILTER_AND_LEVEL_KEYS
    ensures forall k :: k in WrapKeys(target) ==> v.parameters[k] == GL_CLAMP_TO_BORDER
  {
    var base := DefaultView(target, borderColor);
    var parameters := base.parameters[GL_TEXTURE_WRAP_S := GL_CLAMP_TO_BORDER][GL_TEXTURE_WRAP_T := GL_CLAMP_TO_BORDER];
    var wrapped := if target == GL_TEXTURE_3D then parameters[GL_TEXTURE_WRAP_R := GL_CLAMP_TO_BORDER] else parameters;
    View(wrapped, target, true, borderColor)
  }

  /** A border view agrees with the default view on every key but the wrap keys. */
  lemma BorderViewKeepsFilters(borderColor: Color, target: nat, color: Color)
    ensures var b := BorderView(borderColor, target);
            var d := DefaultView(target, color);
            && b.parameters.Keys == d.parameters.Keys
            && forall k :: k in d.parameters && k !in WrapKeys(target) ==> b.parameters[k] == d.parameters[k]
  {
  }
}
