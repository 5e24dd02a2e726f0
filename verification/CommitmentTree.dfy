/**
 * The incremental note commitment tree and the witnesses taken from it, against the plain
 * recursive Merkle tree they stand for. The hasher is left uninterpreted.
 */
module CommitmentTree {
  import opened Powers
  import opened Wrappers

  type Node(==, !new, 0)

  type u8 = x: int | 0 <= x < 256

  /** The hash tells levels apart by a byte. */
  datatype Hasher = Hasher(uncommitted: Node, combine: (u8, Node, Node) -> Node)

  /** Casting a level to a byte keeps its low eight bits. */
  function AsU8(level: nat): u8 { level % 256 }

  // ------------------------------------------------------------------ the plain tree

  /** The root of block `index` of 2^level leaves, missing leaves being uncommitted. */
  function Subtree(h: Hasher, leaves: seq<Node>, level: nat, index: nat): Node {
    if level == 0 then if index < |leaves| then leaves[index] else h.uncommitted
    else h.combine(AsU8(level - 1), Subtree(h, leaves, level - 1, 2 * index),
                   Subtree(h, leaves, level - 1, 2 * index + 1))
  }

  /** The Merkle root of `leaves` padded to 2^height. */
  function MerkleRoot(h: Hasher, leaves: seq<Node>, height: nat): Node { Subtree(h, leaves, height, 0) }

  function EmptyRoot(h: Hasher, level: nat): Node { Subtree(h, [], level, 0) }

  /** `n` without its `k` low bits: the block of 2^k leaves that holds leaf `n`. */
  function Shift(n: nat, k: nat): nat { if k == 0 then n else Shift(n, k - 1) / 2 }

  predicate Bit(n: nat, k: nat) { Shift(n, k) % 2 == 1 }

  lemma Product(a: nat, b: nat, c: nat)
    requires a <= b
    ensures a * c <= b * c
  {
    assert b * c == a * c + (b - a) * c;
  }

  lemma HalveBounds(n: nat, q: nat, p: nat)
    requires q * p <= n < (q + 1) * p
    ensures (q / 2) * (2 * p) <= n < (q / 2 + 1) * (2 * p)
  {
    var r := q / 2;
    Product(2 * r, q, p);
    Product(q + 1, 2 * r + 2, p);
    assert (2 * r) * p == r * (2 * p) && (2 * r + 2) * p == (r + 1) * (2 * p);
  }

  lemma {:induction false} ShiftBounds(n: nat, k: nat)
    ensures Shift(n, k) * Pow2(k) <= n < (Shift(n, k) + 1) * Pow2(k)
  {
    if k == 0 {
    } else {
      ShiftBounds(n, k - 1);
      HalveBounds(n, Shift(n, k - 1), Pow2(k - 1));
    }
  }

  lemma {:induction false} ShiftMonotone(m: nat, n: nat, k: nat)
    requires m <= n
    ensures Shift(m, k) <= Shift(n, k)
  {
    if k == 0 {
    } else {
      ShiftMonotone(m, n, k - 1);
    }
  }

  lemma SmallShiftsToZero(n: nat, k: nat)
    ensures n < Pow2(k) <==> Shift(n, k) == 0
  {
    ShiftBounds(n, k);
    if Shift(n, k) > 0 {
      assert Shift(n, k) * Pow2(k) >= Pow2(k) by { Product(1, Shift(n, k), Pow2(k)); }
    }
  }

  /** A block beyond the last leaf is empty, and all empty blocks of a level are alike. */
  lemma {:induction false} EmptyBlock(h: Hasher, leaves: seq<Node>, level: nat, index: nat)
    requires leaves == [] || index > Shift(|leaves| - 1, level)
    ensures Subtree(h, leaves, level, index) == EmptyRoot(h, level)
    decreases level
  {
    if level == 0 {
    } else {
      EmptyBlock(h, leaves, level - 1, 2 * index);
      EmptyBlock(h, leaves, level - 1, 2 * index + 1);
      EmptyBlock(h, [], level - 1, 1);
    }
  }

  /** A block that is complete already does not change when leaves are added. */
  lemma {:induction false} CompleteBlock(h: Hasher, leaves: seq<Node>, more: seq<Node>, level: nat, index: nat)
    requires leaves <= more && index < Shift(|leaves|, level)
    ensures Subtree(h, leaves, level, index) == Subtree(h, more, level, index)
  {
    if level == 0 {
    } else {
      CompleteBlock(h, leaves, more, level - 1, 2 * index);
      CompleteBlock(h, leaves, more, level - 1, 2 * index + 1);
    }
  }

  /** Dropping the first `offset` blocks of a level renumbers the rest. */
  lemma {:induction false} DroppedBlocks(h: Hasher, leaves: seq<Node>, start: nat, level: nat, offset: nat, index: nat)
    requires offset * Pow2(level) == start <= |leaves|
    ensures Subtree(h, leaves[start..], level, index) == Subtree(h, leaves, level, offset + index)
  {
    if level == 0 {
    } else {
      assert (2 * offset) * Pow2(level - 1) == offset * Pow2(level);
      DroppedBlocks(h, leaves, start, level - 1, 2 * offset, 2 * index);
      DroppedBlocks(h, leaves, start, level - 1, 2 * offset, 2 * index + 1);
    }
  }

  method EmptyRoots(h: Hasher, height: nat) returns (roots: seq<Node>)
    ensures IsEmptyRoots(h, roots) && |roots| == height + 1
  {
    var cur := h.uncommitted;
    roots := [cur];
    for depth := 0 to height
      invariant |roots| == depth + 1 && cur == EmptyRoot(h, depth) && IsEmptyRoots(h, roots)
    {
      EmptyBlock(h, [], depth, 1);
      cur := h.combine(AsU8(depth), cur, cur);
      roots := roots + [cur];
    }
  }

  ghost predicate IsEmptyRoots(h: Hasher, roots: seq<Node>) {
    forall d | 0 <= d < |roots| :: roots[d] == EmptyRoot(h, d)
  }

  // ------------------------------------------------------------------ the compressed frontier

  datatype CTree = CTree(left: Option<Node>, right: Option<Node>, parents: seq<Option<Node>>)

  const NEW_TREE := CTree(None, None, [])

  /**
   * `t` is the frontier of `leaves`: the last pair of leaves, and at every level above, where
   * the path to the last leaf turns right, the complete block to its left.
   */
  ghost predicate Represents(h: Hasher, t: CTree, leaves: seq<Node>) {
    if leaves == [] then t == NEW_TREE
    else
      var n := |leaves| - 1;
      && (if Bit(n, 0) then t.left == Some(leaves[n - 1]) && t.right == Some(leaves[n])
          else t.left == Some(leaves[n]) && t.right == None)
      && Shift(n, |t.parents| + 1) == 0
      && forall i | 0 <= i < |t.parents| ::
           t.parents[i] == if Bit(n, i + 1) then Some(Subtree(h, leaves, i + 1, Shift(n, i + 1) - 1)) else None
  }

  /** No level is kept above the last one in use. */
  ghost predicate Trimmed(t: CTree) {
    t.parents != [] ==> t.parents[|t.parents| - 1].Some?
  }

  /** `cur`, the block at `depth`, joined with the parents from there up. */
  function MergeParents(h: Hasher, parents: seq<Option<Node>>, depth: nat, cur: Node): Node
    requires 1 <= depth <= |parents| + 1
    decreases |parents| + 1 - depth
  {
    if depth == |parents| + 1 then cur
    else
      var p := parents[depth - 1];
      MergeParents(h, parents, depth + 1,
                   if p.Some? then h.combine(AsU8(depth), p.value, cur)
                   else h.combine(AsU8(depth), cur, EmptyRoot(h, depth)))
  }

  function FillLevels(h: Hasher, depth: nat, height: nat, cur: Node): Node
    decreases height - depth
  {
    if depth >= height then cur
    else FillLevels(h, depth + 1, height, h.combine(AsU8(depth), cur, EmptyRoot(h, depth)))
  }

  /** What the loops compute, whatever the tree holds. */
  function FrontierRoot(h: Hasher, t: CTree, height: nat): Node {
    if t.left == None then EmptyRoot(h, height)
    else
      var right := if t.right.Some? then t.right.value else h.uncommitted;
      FillLevels(h, |t.parents| + 1, height, MergeParents(h, t.parents, 1, h.combine(0, t.left.value, right)))
  }

  /**
   * Computing the root indexes no empty root that is not there, and the depth, which is counted
   * in a byte, does not overflow.
   */
  ghost predicate Computable(t: CTree, height: nat, emptyRoots: seq<Node>) {
    if t.left.None? then height < |emptyRoots|
    else
      && |t.parents| < 255
      && (forall i | 0 <= i < |t.parents| && t.parents[i].None? :: i + 1 < |emptyRoots|)
      && (height <= |t.parents| + 1 || height <= |emptyRoots|)
  }

  /** `None` stands for the panic at an index out of range or at the overflow of the depth. */
  method Root(t: CTree, height: nat, emptyRoots: seq<Node>, h: Hasher) returns (root: Option<Node>)
    requires IsEmptyRoots(h, emptyRoots)
    ensures root == if Computable(t, height, emptyRoots) then Some(FrontierRoot(h, t, height)) else None
  {
    if t.left.None? {
      if height >= |emptyRoots| { return None; }
      return Some(emptyRoots[height]);
    }
    var left := t.left.value;
    var right := if t.right.Some? then t.right.value else h.uncommitted;
    var cur := h.combine(0, left, right);
    ghost var merged := MergeParents(h, t.parents, 1, cur);
    var depth: u8 := 1;
    for i := 0 to |t.parents|
      invariant depth == i + 1
      invariant MergeParents(h, t.parents, depth, cur) == merged
      invariant forall j | 0 <= j < i && t.parents[j].None? :: j + 1 < |emptyRoots|
    {
      if t.parents[i].Some? {
        cur := h.combine(depth, t.parents[i].value, cur);
      } else {
        if depth >= |emptyRoots| { return None; }
        cur := h.combine(depth, cur, emptyRoots[depth]);
      }
      if depth == 255 { return None; }
      depth := depth + 1;
    }
    ghost var filled := FillLevels(h, depth, height, cur);
    var d: nat := depth;
    while d < height
      invariant d == depth || d <= height
      invariant d == depth || d <= |emptyRoots|
      invariant FillLevels(h, d, height, cur) == filled
    {
      if d >= |emptyRoots| { return None; }
      cur := h.combine(AsU8(d), cur, emptyRoots[d]);
      d := d + 1;
    }
    return Some(cur);
  }

  lemma {:induction false} MergeReachesTop(h: Hasher, t: CTree, leaves: seq<Node>, depth: nat)
    requires leaves != [] && Represents(h, t, leaves) && 1 <= depth <= |t.parents| + 1
    ensures MergeParents(h, t.parents, depth, Subtree(h, leaves, depth, Shift(|leaves| - 1, depth)))
         == Subtree(h, leaves, |t.parents| + 1, 0)
    decreases |t.parents| + 1 - depth
  {
    if depth <= |t.parents| {
      var q := Shift(|leaves| - 1, depth);
      MergeReachesTop(h, t, leaves, depth + 1);
      assert t.parents[depth - 1] == if Bit(|leaves| - 1, depth) then Some(Subtree(h, leaves, depth, q - 1)) else None;
      if q % 2 == 0 {
        EmptyBlock(h, leaves, depth, q + 1);
      }
    }
  }

  lemma {:induction false} FillReachesTop(h: Hasher, leaves: seq<Node>, depth: nat, height: nat)
    requires leaves != [] && depth <= height && Shift(|leaves| - 1, depth) == 0
    ensures FillLevels(h, depth, height, Subtree(h, leaves, depth, 0)) == MerkleRoot(h, leaves, height)
    decreases height - depth
  {
    if depth == height {
    } else {
      EmptyBlock(h, leaves, depth, 1);
      FillReachesTop(h, leaves, depth + 1, height);
    }
  }

  /** The frontier of any leaves has the root of the plain tree over them, at every height above it. */
  lemma FrontierHasMerkleRoot(h: Hasher, t: CTree, leaves: seq<Node>, height: nat)
    requires Represents(h, t, leaves) && (leaves != [] ==> |t.parents| + 1 <= height)
    ensures FrontierRoot(h, t, height) == MerkleRoot(h, leaves, height)
    ensures leaves != [] ==> |leaves| <= Pow2(height)
  {
    if leaves != [] {
      var n := |leaves| - 1;
      if n % 2 == 0 { assert Subtree(h, leaves, 0, n + 1) == h.uncommitted; }
      assert Subtree(h, leaves, 1, Shift(n, 1))
          == h.combine(0, t.left.value, if t.right.Some? then t.right.value else h.uncommitted);
      MergeReachesTop(h, t, leaves, 1);
      FillReachesTop(h, leaves, |t.parents| + 1, height);
      ShiftStaysZero(n, |t.parents| + 1, height);
      SmallShiftsToZero(n, height);
    }
  }

  /** The empty roots made for its height are enough for the frontier of any leaves that fit. */
  lemma FrontierIsComputable(h: Hasher, t: CTree, leaves: seq<Node>, height: nat, emptyRoots: seq<Node>)
    requires Represents(h, t, leaves) && (leaves != [] ==> |t.parents| + 1 <= height)
    requires height <= 255 && height < |emptyRoots|
    ensures Computable(t, height, emptyRoots)
  {
  }

  /** The root of a tree, with the empty roots made for it, is that of the plain tree. */
  method TreeRoot(t: CTree, ghost leaves: seq<Node>, height: nat, h: Hasher) returns (root: Option<Node>)
    requires Represents(h, t, leaves) && (leaves != [] ==> |t.parents| + 1 <= height) && height <= 255
    ensures root == Some(MerkleRoot(h, leaves, height))
  {
    hide FrontierRoot, Represents, Computable;
    var emptyRoots := EmptyRoots(h, height);
    FrontierIsComputable(h, t, leaves, height, emptyRoots);
    FrontierHasMerkleRoot(h, t, leaves, height);
    root := Root(t, height, emptyRoots, h);
  }

  lemma {:induction false} ShiftStaysZero(n: nat, j: nat, k: nat)
    requires j <= k && Shift(n, j) == 0
    ensures Shift(n, k) == 0
  {
    if j == k {
    } else {
      ShiftStaysZero(n, j, k - 1);
    }
  }

  // ------------------------------------------------------------------ position

  function ParentsValue(parents: seq<Option<Node>>): nat {
    if parents == [] then 0
    else 2 * ((if parents[0].Some? then 1 else 0) + ParentsValue(parents[1..]))
  }

  /** What `get_position` computes; despite its name, the number of leaves. */
  function LeafCount(t: CTree): nat {
    ParentsValue(t.parents) + (if t.left.Some? then 1 else 0) + (if t.right.Some? then 1 else 0)
  }

  /** The largest position: the code counts in a word of 64 bits. */
  const USIZE_MAX: nat := 0xFFFF_FFFF_FFFF_FFFF

  lemma {:induction false} ParentsValueGrows(parents: seq<Option<Node>>, i: nat)
    requires i <= |parents|
    ensures ParentsValue(parents[i..]) <= ParentsValue(parents)
  {
    if i == 0 {
      assert parents[0..] == parents;
    } else {
      assert parents[i..] == parents[1..][i - 1..];
      ParentsValueGrows(parents[1..], i - 1);
    }
  }

  /** `None` stands for an overflow, which happens just when the number does not fit the word. */
  method GetPosition(t: CTree) returns (position: Option<nat>)
    ensures position == if LeafCount(t) <= USIZE_MAX then Some(LeafCount(t)) else None
  {
    var p := 0;
    var i := |t.parents|;
    while i > 0
      invariant 0 <= i <= |t.parents|
      invariant p == ParentsValue(t.parents[i..]) && p <= USIZE_MAX
    {
      i := i - 1;
      ParentsValueGrows(t.parents, i);
      assert t.parents[i..][1..] == t.parents[i + 1..];
      if t.parents[i].Some? {
        if p == USIZE_MAX { return None; }
        p := p + 1;
      }
      if p * 2 > USIZE_MAX { return None; }
      p := p * 2;
    }
    assert t.parents[0..] == t.parents;
    if t.left.Some? {
      if p == USIZE_MAX { return None; }
      p := p + 1;
    }
    if t.right.Some? {
      if p == USIZE_MAX { return None; }
      p := p + 1;
    }
    return Some(p);
  }

  /** The tree keeps a left sibling of its own at this level. */
  predicate Own(t: CTree, level: nat) {
    if level == 0 then t.right.Some? else level <= |t.parents| && t.parents[level - 1].Some?
  }

  lemma ParentsHalf(parents: seq<Option<Node>>, low: nat)
    requires low <= 1
    ensures (ParentsValue(parents) + low) % 2 == low
    ensures parents != [] ==>
              (ParentsValue(parents) + low) / 2 == ParentsValue(parents[1..]) + if parents[0].Some? then 1 else 0
  {
    if parents == [] {
      Doubled(0, low);
    } else {
      Doubled(ParentsValue(parents[1..]) + if parents[0].Some? then 1 else 0, low);
    }
  }

  lemma Doubled(x: nat, low: nat)
    requires low <= 1
    ensures (2 * x + low) / 2 == x && (2 * x + low) % 2 == low
  {
  }

  lemma NoParents()
    ensures ParentsValue([]) == 0
  {
  }

  lemma {:induction false} ParentsBits(parents: seq<Option<Node>>, low: nat, level: nat)
    requires low <= 1
    ensures Bit(ParentsValue(parents) + low, level)
            <==> if level == 0 then low == 1 else level <= |parents| && parents[level - 1].Some?
    decreases level
  {
    hide ParentsValue;
    ParentsHalf(parents, low);
    if level == 0 {
    } else {
      if parents == [] {
        NoParents();
        Pow2AtLeastTwo(level);
        SmallShiftsToZero(low, level);
      } else {
        ShiftPeel(ParentsValue(parents) + low, level);
        ParentsBits(parents[1..], if parents[0].Some? then 1 else 0, level - 1);
      }
    }
  }

  lemma {:induction false} Pow2AtLeastTwo(k: nat)
    requires k >= 1
    ensures Pow2(k) >= 2
  {
    if k > 1 { Pow2AtLeastTwo(k - 1); }
  }

  lemma {:induction false} ShiftPeel(n: nat, k: nat)
    requires k >= 1
    ensures Shift(n, k) == Shift(n / 2, k - 1)
  {
    if k > 1 { ShiftPeel(n, k - 1); }
  }

  /**
   * In any non-empty tree the bits of the position say at which levels the tree keeps a left
   * sibling of its own.
   */
  lemma PositionBits(t: CTree, level: nat)
    requires t.left.Some?
    ensures Bit(LeafCount(t) - 1, level) <==> Own(t, level)
  {
    hide ParentsValue, Bit;
    var low := if t.right.Some? then 1 else 0;
    assert LeafCount(t) - 1 == ParentsValue(t.parents) + low;
    ParentsBits(t.parents, low, level);
  }

  /** Numbers with the same bits are the same. */
  lemma {:induction false} SameBits(m: nat, n: nat, k: nat)
    requires Shift(m, k) == Shift(n, k) && forall j: nat | j < k :: Bit(m, j) <==> Bit(n, j)
    ensures m == n
  {
    if k == 0 {
    } else {
      assert Bit(m, k - 1) <==> Bit(n, k - 1);
      SameBits(m, n, k - 1);
    }
  }

  /** The frontier of `leaves` counts them. */
  lemma PositionIsLeafCount(h: Hasher, t: CTree, leaves: seq<Node>)
    requires Represents(h, t, leaves)
    ensures LeafCount(t) == |leaves|
  {
    if leaves != [] {
      var m, n, top := LeafCount(t) - 1, |leaves| - 1, |t.parents| + 1;
      forall j: nat | j < top ensures Bit(m, j) <==> Bit(n, j) {
        PositionBits(t, j);
        if j > 0 { assert t.parents[j - 1].Some? <==> Bit(n, j); }
      }
      ParentsFit(t.parents, if t.right.Some? then 1 else 0);
      SmallShiftsToZero(m, top);
      SameBits(m, n, top);
    }
  }

  lemma {:induction false} ParentsFit(parents: seq<Option<Node>>, low: nat)
    requires low <= 1
    ensures ParentsValue(parents) + low < Pow2(|parents| + 1)
  {
    if parents != [] {
      ParentsFit(parents[1..], 1);
    } else {
      assert Pow2(1) == 2;
    }
  }

  /** Only a tree with nothing in it counts no leaves. */
  lemma CountsNothingWhenEmpty(t: CTree)
    ensures LeafCount(t) == 0 <==> t.left.None? && t.right.None? && forall p | p in t.parents :: p.None?
  {
    NoParentsValue(t.parents);
  }

  lemma {:induction false} NoParentsValue(parents: seq<Option<Node>>)
    ensures ParentsValue(parents) == 0 <==> forall p | p in parents :: p.None?
  {
    if parents == [] {
    } else {
      NoParentsValue(parents[1..]);
      assert parents == [parents[0]] + parents[1..];
      assert (forall p | p in parents :: p.None?) <==> parents[0].None? && forall p | p in parents[1..] :: p.None?;
    }
  }

  /** Trimmed frontiers are no taller than their leaves need. */
  lemma TrimmedFits(h: Hasher, t: CTree, leaves: seq<Node>, level: nat)
    requires leaves != [] && Represents(h, t, leaves) && Trimmed(t) && |leaves| <= Pow2(level) && level >= 1
    ensures |t.parents| + 1 <= level
  {
    if t.parents != [] {
      var top := |t.parents|;
      assert t.parents[top - 1].Some?;
      assert Shift(|leaves| - 1, top) != 0;
      if top >= level {
        SmallShiftsToZero(|leaves| - 1, level);
        ShiftStaysZero(|leaves| - 1, level, top);
      }
    }
  }
}
