/**
 * `circe::gl::BVH` construction (circe/gl/scene/bvh.cpp): the recursive
 * build over the mesh's elements, which splits every range in half and
 * lists the elements in leaf order, and the pre-order flattening of the
 * tree into the node array. Bounding boxes are floating point and are not
 * modelled; the choice of split axis and the `std::nth_element`
 * partitioning are given by a `Splitter` that may reorder a range in any
 * way that keeps its elements.
 */
module BVHBuild {
  import opened Wrappers

  /** A built node: a leaf over `nElements` listed elements, or an interior node with two children. */
  datatype BVHNode =
    | Leaf(firstElementOffset: nat, nElements: nat)
    | Interior(splitAxis: nat, left: BVHNode, right: BVHNode)

  /**
   * `LinearBVHNode`, the flattened record. The fields a branch of the
   * flattening does not write are 0 here.
   */
  datatype LinearNode = LinearNode(elementsOffset: nat, nElements: nat, axis: nat, secondChildOffset: nat)

  /**
   * The split of an interior range: the axis of largest centroid extent and
   * the range afterwards (unchanged when the centroids coincide, partitioned
   * about its middle otherwise).
   */
  type Splitter = seq<nat> -> (nat, seq<nat>)

  /** A splitter picks one of the three axes and only reorders. */
  ghost predicate SplitterOk(split: Splitter)
  {
    forall s: seq<nat> :: split(s).0 < 3 && |split(s).1| == |s| && multiset(split(s).1) == multiset(s)
  }

  /** The number of nodes of a tree. */
  function Size(node: BVHNode): (size: nat)
    ensures size >= 1
  {
    match node
    case Leaf(_, _) => 1
    case Interior(_, l, r) => 1 + Size(l) + Size(r)
  }

  /**
   * The shape `recursiveBuild` gives a range of `n` elements whose leaves
   * start at list position `base`: one-element leaves in list order, and
   * interior nodes whose first child takes the lower half (`n / 2`).
   */
  ghost predicate Shaped(node: BVHNode, base: nat, n: nat)
  {
    match node
    case Leaf(first, k) => n == 1 && first == base && k == 1
    case Interior(axis, l, r) => n >= 2 && axis < 3 && Shaped(l, base, n / 2) && Shaped(r, base + n / 2, n - n / 2)
  }

  /** Two halves shaped as the build makes them join into an interior node over the whole range. */
  lemma ShapedInterior(axis: nat, l: BVHNode, r: BVHNode, base: nat, n: nat)
    requires n >= 2 && axis < 3 && Shaped(l, base, n / 2) && Shaped(r, base + n / 2, n - n / 2)
    ensures Shaped(Interior(axis, l, r), base, n)
  {
  }

  /** A tree shaped over `n` >= 1 elements has exactly 2n - 1 nodes. */
  lemma {:induction false} ShapedSize(node: BVHNode, base: nat, n: nat)
    requires Shaped(node, base, n)
    ensures n >= 1 && Size(node) == 2 * n - 1
  {
    match node
    case Leaf(_, _) =>
    case Interior(_, l, r) =>
      ShapedSize(l, base, n / 2);
      ShapedSize(r, base + n / 2, n - n / 2);
  }

  /**
   * The pre-order records `flattenBVHTree` writes for a tree whose root goes
   * to slot `base`: the first child follows its parent, and the parent
   * records where the second child starts.
   */
  function Flatten(node: BVHNode, base: nat): (records: seq<LinearNode>)
    ensures |records| == Size(node)
  {
    match node
    case Leaf(first, k) => [LinearNode(first, k, 0, 0)]
    case Interior(axis, l, r) =>
      [LinearNode(0, 0, axis, base + 1 + Size(l))] + Flatten(l, base + 1) + Flatten(r, base + 1 + Size(l))
  }

  /**
   * A flattened record as the build makes them: a leaf record holds one
   * element listed in `[first, first + n)`, an interior record none, and an
   * interior record at slot `at` points at a second child after its first
   * child and before `limit`.
   */
  predicate RecordOk(rec: LinearNode, at: nat, limit: nat, first: nat, n: nat)
  {
    && (rec.nElements == 1 || rec.nElements == 0)
    && (rec.nElements == 0 ==> at + 1 < rec.secondChildOffset < limit && rec.axis < 3)
    && (rec.nElements == 1 ==> first <= rec.elementsOffset < first + n)
  }

  /** Every record of `records`, the first of them at slot `at`, is as `RecordOk` says. */
  ghost predicate RecordsOk(records: seq<LinearNode>, at: nat, limit: nat, first: nat, n: nat)
  {
    forall j :: 0 <= j < |records| ==> RecordOk(records[j], at + j, limit, first, n)
  }

  /** Records fine within a sub-range are fine within any range around it. */
  lemma RecordsOkWiden(records: seq<LinearNode>, at: nat, limit: nat, first: nat, n: nat, limit': nat, first': nat, n': nat)
    requires RecordsOk(records, at, limit, first, n)
    requires limit <= limit' && first' <= first && first + n <= first' + n'
    ensures RecordsOk(records, at, limit', first', n')
  {
    forall j | 0 <= j < |records|
      ensures RecordOk(records[j], at + j, limit', first', n')
    {
      assert RecordOk(records[j], at + j, limit, first, n);
    }
  }

  /** Two runs of fine records, the second starting where the first ends, make one. */
  lemma RecordsOkAppend(a: seq<LinearNode>, b: seq<LinearNode>, at: nat, limit: nat, first: nat, n: nat)
    requires RecordsOk(a, at, limit, first, n) && RecordsOk(b, at + |a|, limit, first, n)
    ensures RecordsOk(a + b, at, limit, first, n)
  {
    forall j | 0 <= j < |a + b|
      ensures RecordOk((a + b)[j], at + j, limit, first, n)
    {
      if j < |a| {
        assert RecordOk(a[j], at + j, limit, first, n);
      } else {
        assert RecordOk(b[j - |a|], at + |a| + (j - |a|), limit, first, n);
      }
    }
  }

  /**
   * In the flattening of a built tree, leaf records hold exactly one element
   * and interior records none, and an interior record's second child lies
   * after its first child and inside the flattened range.
   */
  lemma {:induction false} FlattenedRecords(node: BVHNode, base: nat, first: nat, n: nat)
    requires Shaped(node, first, n)
    ensures RecordsOk(Flatten(node, base), base, base + Size(node), first, n)
  {
    match node
    case Leaf(_, _) =>
      assert RecordOk(Flatten(node, base)[0], base, base + 1, first, n);
    case Interior(axis, l, r) =>
      var limit := base + Size(node);
      var rec := LinearNode(0, 0, axis, base + 1 + Size(l));
      var wl, wr := Flatten(l, base + 1), Flatten(r, base + 1 + Size(l));
      assert Flatten(node, base) == [rec] + wl + wr;
      assert RecordsOk([rec], base, limit, first, n) by {
        assert RecordOk([rec][0], base, limit, first, n);
      }
      FlattenedRecords(l, base + 1, first, n / 2);
      RecordsOkWiden(wl, base + 1, base + 1 + Size(l), first, n / 2, limit, first, n);
      FlattenedRecords(r, base + 1 + Size(l), first + n / 2, n - n / 2);
      RecordsOkWiden(wr, base + 1 + Size(l), limit, first + n / 2, n - n / 2, limit, first, n);
      RecordsOkAppend([rec], wl, base, limit, first, n);
      RecordsOkAppend([rec] + wl, wr, base, limit, first, n);
  }

  /** `s` with the slots from `at` on replaced by `w`. */
  function Overwrite<T>(s: seq<T>, at: nat, w: seq<T>): (t: seq<T>)
    requires at + |w| <= |s|
    ensures |t| == |s|
  {
    s[..at] + w + s[at + |w|..]
  }

  /** Writing a node's subtrees after its slot and then its own record writes its whole flattening. */
  lemma OverwriteCompose<T>(s: seq<T>, at: nat, rec: T, wl: seq<T>, wr: seq<T>)
    requires at + 1 + |wl| + |wr| <= |s|
    ensures Overwrite(Overwrite(s, at + 1, wl), at + 1 + |wl|, wr)[at := rec] == Overwrite(s, at, [rec] + wl + wr)
  {
  }

  /**
   * Flattening both subtrees after slot `at` and then writing the node's own
   * record there writes the node's whole flattening.
   */
  lemma FlattenStep(a0: seq<LinearNode>, a1: seq<LinearNode>, a2: seq<LinearNode>, at: nat, node: BVHNode)
    requires node.Interior? && at + Size(node) <= |a0|
    requires a1 == Overwrite(a0, at + 1, Flatten(node.left, at + 1))
    requires a2 == Overwrite(a1, at + 1 + Size(node.left), Flatten(node.right, at + 1 + Size(node.left)))
    ensures a2[at := LinearNode(0, 0, node.splitAxis, at + 1 + Size(node.left))] == Overwrite(a0, at, Flatten(node, at))
  {
    var rec := LinearNode(0, 0, node.splitAxis, at + 1 + Size(node.left));
    var wl, wr := Flatten(node.left, at + 1), Flatten(node.right, at + 1 + Size(node.left));
    assert Flatten(node, at) == [rec] + wl + wr;
    OverwriteCompose(a0, at, rec, wl, wr);
  }

  /** `b` is `a` with only the range `[start, end)` reordered. */
  ghost predicate Reordered(a: seq<nat>, b: seq<nat>, start: nat, end: nat)
  {
    && start <= end <= |a| == |b|
    && b[..start] == a[..start] && b[end..] == a[end..]
    && multiset(b[start..end]) == multiset(a[start..end])
  }

  /** Splicing a reordering of the range back in reorders only that range. */
  lemma Splice(s: seq<nat>, start: nat, end: nat, middle: seq<nat>)
    requires start <= end <= |s| && |middle| == end - start && multiset(middle) == multiset(s[start..end])
    ensures var t := s[..start] + middle + s[end..];
            Reordered(s, t, start, end) && t[start..end] == middle
  {
    var t := s[..start] + middle + s[end..];
    assert t[start..end] == middle;
  }

  /** The middle `recursiveBuild` splits at gives the first half `n / 2` elements, and both halves some. */
  lemma MidSplit(start: nat, end: nat)
    requires end - start >= 2
    ensures start < (start + end) / 2 < end
    ensures (start + end) / 2 - start == (end - start) / 2
    ensures end - (start + end) / 2 == (end - start) - (end - start) / 2
  {
    var n := end - start;
    DivModUnique(start + end, 2, start + n / 2, n % 2);
  }

  /** Reordering a range twice reorders it. */
  lemma ReorderedTrans(a: seq<nat>, b: seq<nat>, c: seq<nat>, start: nat, end: nat)
    requires Reordered(a, b, start, end) && Reordered(b, c, start, end)
    ensures Reordered(a, c, start, end)
  {
  }

  class BVH {
    var buildData: seq<nat>
    var orderedElements: seq<nat>
    var totalNodes: nat
    var root: BVHNode
    var nodes: array<LinearNode>
    /** The running slot of `flattenBVHTree` (its `offset` pointer). */
    var offset: nat

    /**
     * The constructor: builds over elements 0 .. count - 1, sizes the node
     * array by the node count, and flattens the tree into it.
     */
    constructor (count: nat, split: Splitter)
      requires count >= 1 && SplitterOk(split)
      ensures totalNodes == 2 * count - 1 == nodes.Length == Size(root)
      ensures Shaped(root, 0, count)
      ensures multiset(orderedElements) == multiset(seq(count, i => i))
      ensures offset == totalNodes && nodes[..] == Flatten(root, 0)
    {
      buildData := seq(count, i => i);
      orderedElements := [];
      totalNodes := 0;
      offset := 0;
      nodes := new LinearNode[0];
      root := Leaf(0, 0);
      new;
      ghost var initial := buildData;
      var tree := RecursiveBuild(0, count, split);
      root := tree;
      BuiltWhole(initial, buildData, orderedElements, count);
      ShapedSize(tree, 0, count);
      nodes := new LinearNode[totalNodes](_ => LinearNode(0, 0, 0, 0));
      ghost var blank := nodes[..];
      var rootOffset := FlattenBVHTree(tree);
      OverwriteAll(blank, Flatten(tree, 0));
    }

    /**
     * `recursiveBuild` over `buildData[start..end]`: counts one node per call,
     * makes a one-element range a leaf that appends its element to
     * `orderedElements`, and otherwise splits the range (reordering it only
     * within itself) at `mid = (start + end) / 2`. The elements come out in
     * leaf order: the list grows by the final contents of the range.
     */
    method RecursiveBuild(start: nat, end: nat, split: Splitter) returns (node: BVHNode)
      requires start < end <= |buildData| && SplitterOk(split)
      modifies this`totalNodes, this`orderedElements, this`buildData
      decreases end - start, 1
      ensures Reordered(old(buildData), buildData, start, end)
      ensures orderedElements == old(orderedElements) + buildData[start..end]
      ensures Shaped(node, |old(orderedElements)|, end - start)
      ensures totalNodes == old(totalNodes) + Size(node)
    {
      totalNodes := totalNodes + 1;
      var n := end - start;
      if n == 1 {
        var firstElementOffset := |orderedElements|;
        orderedElements := orderedElements + buildData[start..end];
        node := Leaf(firstElementOffset, n);
        return;
      }
      node := SplitRange(start, end, split);
    }

    /**
     * The interior branch of `recursiveBuild` (a range of two or more
     * elements): the range is split (and reordered within itself), then its
     * lower half and its upper half are built in turn.
     */
    method SplitRange(start: nat, end: nat, split: Splitter) returns (node: BVHNode)
      requires start + 2 <= end <= |buildData| && SplitterOk(split)
      modifies this`totalNodes, this`orderedElements, this`buildData
      decreases end - start, 0
      ensures Reordered(old(buildData), buildData, start, end)
      ensures orderedElements == old(orderedElements) + buildData[start..end]
      ensures node.Interior? && Shaped(node, |old(orderedElements)|, end - start)
      ensures totalNodes == old(totalNodes) + Size(node) - 1
    {
      var n := end - start;
      ghost var before := buildData;
      var dim := Partition(start, end, split);
      var mid := (start + end) / 2;
      MidSplit(start, end);
      ghost var split0, ordered0 := buildData, orderedElements;
      var left := RecursiveBuild(start, mid, split);
      ghost var split1, ordered1 := buildData, orderedElements;
      var right := RecursiveBuild(mid, end, split);
      node := Interior(dim, left, right);
      assert Size(node) == 1 + Size(left) + Size(right);
      ShapedInterior(dim, left, right, |ordered0|, n);
      JoinHalves(split0, split1, buildData, start, mid, end);
      ReorderedTrans(before, split0, buildData, start, end);
      ListedInOrder(ordered0, ordered1, orderedElements, split1, buildData, start, mid, end);
    }

    /**
     * The split of an interior range: the splitter picks the axis and its
     * reordering of the range is written back in place.
     */
    method Partition(start: nat, end: nat, split: Splitter) returns (dim: nat)
      requires start <= end <= |buildData| && SplitterOk(split)
      modifies this`buildData
      ensures dim < 3 && Reordered(old(buildData), buildData, start, end)
    {
      var reordered;
      dim, reordered := split(buildData[start..end]).0, split(buildData[start..end]).1;
      Splice(buildData, start, end, reordered);
      buildData := buildData[..start] + reordered + buildData[end..];
    }

    /**
     * `flattenBVHTree`: writes the node's record at the current slot and its
     * subtrees after it in pre-order, returning the node's slot.
     */
    method FlattenBVHTree(node: BVHNode) returns (myOffset: nat)
      requires offset + Size(node) <= nodes.Length
      modifies this`offset, nodes
      decreases node, 1
      ensures myOffset == old(offset) && offset == old(offset) + Size(node)
      ensures nodes[..] == Overwrite(old(nodes[..]), old(offset), Flatten(node, old(offset)))
    {
      if node.Leaf? {
        myOffset := offset;
        offset := offset + 1;
        WriteRecord(myOffset, LinearNode(node.firstElementOffset, node.nElements, 0, 0));
      } else {
        myOffset := FlattenSplit(node);
      }
    }

    /**
     * The interior branch of `flattenBVHTree`: both subtrees go after the
     * node's slot, then the node's record, pointing at the second subtree.
     */
    method FlattenSplit(node: BVHNode) returns (myOffset: nat)
      requires node.Interior? && offset + Size(node) <= nodes.Length
      modifies this`offset, nodes
      decreases node, 0
      ensures myOffset == old(offset) && offset == old(offset) + Size(node)
      ensures nodes[..] == Overwrite(old(nodes[..]), old(offset), Flatten(node, old(offset)))
    {
      assert Size(node) == 1 + Size(node.left) + Size(node.right);
      ghost var a0 := nodes[..];
      myOffset := offset;
      offset := offset + 1;
      var firstChild := FlattenBVHTree(node.left);
      ghost var a1 := nodes[..];
      var secondChild := FlattenBVHTree(node.right);
      ghost var a2 := nodes[..];
      var rec := LinearNode(0, 0, node.splitAxis, secondChild);
      assert a2[myOffset := rec] == Overwrite(a0, myOffset, Flatten(node, myOffset)) by {
        FlattenStep(a0, a1, a2, myOffset, node);
      }
      WriteRecord(myOffset, rec);
    }

    /** Stores one record in the node array. */
    method WriteRecord(at: nat, rec: LinearNode)
      requires at < nodes.Length
      modifies nodes
      ensures nodes[..] == old(nodes[..])[at := rec]
    {
      nodes[at] := rec;
    }
  }

  /** A build over the whole of `initial` lists its elements, each once. */
  lemma BuiltWhole(initial: seq<nat>, data: seq<nat>, ordered: seq<nat>, count: nat)
    requires |initial| == count && Reordered(initial, data, 0, count) && ordered == [] + data[0..count]
    ensures multiset(ordered) == multiset(initial)
  {
    assert data[0..count] == data && initial[0..count] == initial;
  }

  /** Overwriting a whole sequence from slot 0 gives the new contents. */
  lemma OverwriteAll<T>(s: seq<T>, w: seq<T>)
    requires |w| == |s|
    ensures Overwrite(s, 0, w) == w
  {
    assert s[..0] + w + s[|w|..] == w;
  }

  /**
   * The elements the two halves list, one after the other, are the final
   * contents of the whole range.
   */
  lemma ListedInOrder(o0: seq<nat>, o1: seq<nat>, o2: seq<nat>, s1: seq<nat>, s2: seq<nat>, start: nat, mid: nat, end: nat)
    requires start <= mid <= end <= |s1| == |s2|
    requires o1 == o0 + s1[start..mid] && o2 == o1 + s2[mid..end]
    requires s2[start..mid] == s1[start..mid] && s2[start..end] == s2[start..mid] + s2[mid..end]
    ensures o2 == o0 + s2[start..end]
  {
    assert o2 == o0 + (s2[start..mid] + s2[mid..end]);
  }

  /**
   * The two recursive calls of an interior node: the left one reorders only
   * `[start, mid)` and the right one only `[mid, end)`, so together they
   * reorder `[start, end)` and the right one keeps the left half.
   */
  lemma JoinHalves(s0: seq<nat>, s1: seq<nat>, s2: seq<nat>, start: nat, mid: nat, end: nat)
    requires start <= mid <= end
    requires Reordered(s0, s1, start, mid) && Reordered(s1, s2, mid, end)
    ensures Reordered(s0, s2, start, end)
    ensures s2[start..mid] == s1[start..mid]
    ensures s2[start..end] == s2[start..mid] + s2[mid..end]
  {
    assert s2[start..end] == s2[start..mid] + s2[mid..end];
    assert s0[start..end] == s0[start..mid] + s0[mid..end];
    assert s1[mid..end] == s0[mid..end] by {
      assert s1[mid..end] == s1[mid..][..end - mid];
      assert s0[mid..end] == s0[mid..][..end - mid];
    }
    assert s2[start..mid] == s1[start..mid] by {
      assert s2[start..mid] == s2[..mid][start..];
      assert s1[start..mid] == s1[..mid][start..];
    }
    assert s2[..start] == s2[..mid][..start];
    assert s1[..start] == s1[..mid][..start];
    assert s1[end..] == s1[mid..][end - mid..];
    assert s0[end..] == s0[mid..][end - mid..];
  }
}
