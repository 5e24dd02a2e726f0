/** Witnesses: the authentication path of one leaf, rebuilt from a frontier, fillers and a cursor. */
module Witnesses {
  import opened Powers
  import opened Wrappers
  import opened CommitmentTree

  /**
   * The tree as it was when the leaf was added, the siblings that filled up since, and the
   * partial tree that is filling up the next one.
   */
  datatype Witness = Witness(position: nat, tree: CTree, filled: seq<Node>, cursor: CTree)

  /**
   * A witness as it is read: the position is one less than the leaf count of the tree. There is
   * none where counting overflows, or where subtracting one does.
   */
  function ReadWitness(tree: CTree, filled: seq<Node>, cursor: Option<CTree>): Option<Witness> {
    if LeafCount(tree) > USIZE_MAX || LeafCount(tree) == 0 then None
    else Some(Witness(LeafCount(tree) - 1, tree, filled, if cursor.Some? then cursor.value else NEW_TREE))
  }

  method Read(tree: CTree, filled: seq<Node>, cursor: Option<CTree>) returns (w: Option<Witness>)
    ensures w == ReadWitness(tree, filled, cursor)
    ensures w.None? <==> LeafCount(tree) > USIZE_MAX
                         || (tree.left.None? && tree.right.None? && forall p | p in tree.parents :: p.None?)
  {
    CountsNothingWhenEmpty(tree);
    var count := GetPosition(tree);
    if count.None? || count.value == 0 { return None; }
    return Some(Witness(count.value - 1, tree, filled, if cursor.Some? then cursor.value else NEW_TREE));
  }

  // ------------------------------------------------------------------ the path, as computed

  /** How many levels below `level` take a filler; an empty tree pushes nothing for level 0. */
  function FillersBelow(t: CTree, level: nat): nat {
    if level == 0 then 0
    else FillersBelow(t, level - 1)
         + if Own(t, level - 1) || (level == 1 && t.left.None?) then 0 else 1
  }

  function Filler(h: Hasher, w: Witness, k: nat, level: nat): Node {
    if k < |w.filled| then w.filled[k]
    else if k == |w.filled| then FrontierRoot(h, w.cursor, level)
    else EmptyRoot(h, level)
  }

  function PathNode(h: Hasher, w: Witness, level: nat): Node
    requires w.tree.left.Some? || level > 0
  {
    if Own(w.tree, level) then
      if level == 0 then w.tree.left.value else w.tree.parents[level - 1].value
    else Filler(h, w, FillersBelow(w.tree, level), level)
  }

  /** The nodes pushed for the levels below `level`: none for level 0 of an empty tree. */
  function PathBelow(h: Hasher, w: Witness, level: nat): seq<Node> {
    if level == 0 then []
    else PathBelow(h, w, level - 1)
         + if level == 1 && w.tree.left.None? then [] else [PathNode(h, w, level - 1)]
  }

  /** Level 0 is pushed whatever the height. */
  function AuthPath(h: Hasher, w: Witness, height: nat): seq<Node> {
    PathBelow(h, w, if height == 0 then 1 else height)
  }

  /** Filler number `k` can be had at this level. */
  ghost predicate FillerComputable(w: Witness, k: nat, level: nat, emptyRoots: seq<Node>) {
    && (k == |w.filled| ==> Computable(w.cursor, level, emptyRoots))
    && (k > |w.filled| ==> level < |emptyRoots|)
  }

  /** What is pushed for this level can be had. */
  ghost predicate LevelComputable(w: Witness, level: nat, emptyRoots: seq<Node>) {
    !Own(w.tree, level) && (level == 0 ==> w.tree.left.Some?)
    ==> FillerComputable(w, FillersBelow(w.tree, level), level, emptyRoots)
  }

  ghost predicate PathComputable(w: Witness, height: nat, emptyRoots: seq<Node>) {
    forall level: nat | level < height || level == 0 :: LevelComputable(w, level, emptyRoots)
  }

  /**
   * One use of the filler closure, whose captured variables are passed in and out, in terms of
   * how many fillers came before. `None` stands for a panic.
   */
  method NextFiller(w: Witness, ghost before: nat, next: nat, cursorUsed: bool, depth: nat,
                    emptyRoots: seq<Node>, h: Hasher)
    returns (node: Option<Node>, next': nat, cursorUsed': bool)
    requires IsEmptyRoots(h, emptyRoots) && Used(w, before, next, cursorUsed)
    ensures node == if FillerComputable(w, before, depth, emptyRoots) then Some(Filler(h, w, before, depth)) else None
    ensures Used(w, before + 1, next', cursorUsed')
  {
    hide Computable, FrontierRoot;
    next', cursorUsed' := next, cursorUsed;
    if next < |w.filled| {
      node := Some(w.filled[next]);
      next' := next + 1;
    } else if !cursorUsed {
      cursorUsed' := true;
      node := Root(w.cursor, depth, emptyRoots, h);
    } else {
      node := if depth < |emptyRoots| then Some(emptyRoots[depth]) else None;
    }
  }

  /** The fillers handed out so far, as the closure's variables record them. */
  ghost predicate Used(w: Witness, fillers: nat, next: nat, cursorUsed: bool) {
    && next == (if fillers <= |w.filled| then fillers else |w.filled|)
    && (cursorUsed <==> fillers > |w.filled|)
  }

  method ComputeAuthPath(w: Witness, height: nat, emptyRoots: seq<Node>, h: Hasher) returns (path: Option<seq<Node>>)
    requires IsEmptyRoots(h, emptyRoots)
    ensures path == if PathComputable(w, height, emptyRoots) then Some(AuthPath(h, w, height)) else None
  {
    hide FillerComputable, Filler, IsEmptyRoots;
    var next, cursorUsed := 0, false;
    var pushed := [];
    if w.tree.left.Some? {
      if w.tree.right.Some? {
        pushed := [w.tree.left.value];
      } else {
        var node;
        node, next, cursorUsed := NextFiller(w, 0, next, cursorUsed, 0, emptyRoots, h);
        if node.None? {
          assert !LevelComputable(w, 0, emptyRoots);
          return None;
        }
        pushed := [node.value];
      }
    }
    assert LevelComputable(w, 0, emptyRoots);
    var i: nat := 1;
    while i < height
      invariant 1 <= i && (i <= height || i == 1)
      invariant pushed == PathBelow(h, w, i)
      invariant Used(w, FillersBelow(w.tree, i), next, cursorUsed)
      invariant forall level: nat | level < i :: LevelComputable(w, level, emptyRoots)
    {
      var p := if i - 1 < |w.tree.parents| then w.tree.parents[i - 1] else None;
      if p.Some? {
        pushed := pushed + [p.value];
      } else {
        var node;
        node, next, cursorUsed := NextFiller(w, FillersBelow(w.tree, i), next, cursorUsed, i, emptyRoots, h);
        if node.None? {
          assert !LevelComputable(w, i, emptyRoots);
          return None;
        }
        pushed := pushed + [node.value];
      }
      i := i + 1;
    }
    return Some(pushed);
  }

  /** For a non-empty tree the path has one node per level, in order. */
  lemma {:induction false} PathNodes(h: Hasher, w: Witness, level: nat)
    requires w.tree.left.Some?
    ensures |PathBelow(h, w, level)| == level
    ensures forall d | 0 <= d < level :: PathBelow(h, w, level)[d] == PathNode(h, w, d)
  {
    if level == 0 {
    } else {
      PathNodes(h, w, level - 1);
    }
  }

  lemma {:induction false} EmptyTreePath(h: Hasher, w: Witness, level: nat)
    requires w.tree.left.None? && level > 0
    ensures |PathBelow(h, w, level)| == level - 1
  {
    if level > 1 { EmptyTreePath(h, w, level - 1); }
  }

  /** The path has as many nodes as levels except on an empty tree, which misses one, and at height 0. */
  lemma PathLength(h: Hasher, w: Witness, height: nat)
    ensures |AuthPath(h, w, height)| == height <==> (w.tree.left.Some? <==> height > 0)
  {
    var level := if height == 0 then 1 else height;
    if w.tree.left.Some? { PathNodes(h, w, level); } else { EmptyTreePath(h, w, level); }
  }

  // ------------------------------------------------------------------ what a witness stands for

  /** The first leaf after the block of 2^level leaves that holds leaf `p`. */
  function BlockEnd(p: nat, level: nat): nat { (Shift(p, level) + 1) * Pow2(level) }

  /** How many levels below `level` the path of leaf `p` is a left child at. */
  function LeftTurns(p: nat, level: nat): nat {
    if level == 0 then 0 else LeftTurns(p, level - 1) + if Bit(p, level - 1) then 0 else 1
  }

  /** The right sibling at level `d`, if any, is where the order of the fillers puts it. */
  ghost predicate SiblingKept(h: Hasher, w: Witness, leaves: seq<Node>, p: nat, d: nat) {
    !Bit(p, d) ==>
      && (LeftTurns(p, d) < |w.filled| ==>
            && Shift(p, d) + 1 < Shift(|leaves|, d)
            && w.filled[LeftTurns(p, d)] == Subtree(h, leaves, d, Shift(p, d) + 1))
      && (LeftTurns(p, d) == |w.filled| ==>
            && BlockEnd(p, d) <= |leaves| < BlockEnd(p, d) + Pow2(d)
            && Represents(h, w.cursor, leaves[BlockEnd(p, d)..]) && Trimmed(w.cursor))
  }

  /**
   * `w` witnesses leaf `p` of `leaves`: its tree is the frontier at that leaf; at the levels
   * where the leaf's path is a left child, its right siblings come in order: complete ones in
   * `filled`, then a strictly partial one whose leaves are in the cursor.
   */
  ghost predicate Witnesses(h: Hasher, w: Witness, leaves: seq<Node>, p: nat) {
    && p < |leaves|
    && Represents(h, w.tree, leaves[..p + 1])
    && forall d: nat :: SiblingKept(h, w, leaves, p, d)
  }

  /** The block next to the one with this index, under the same parent. */
  function Sibling(index: nat): nat { if index % 2 == 1 then index - 1 else index + 1 }

  lemma {:induction false} BlockEndMonotone(p: nat, d: nat, e: nat)
    requires d <= e
    ensures BlockEnd(p, d) <= BlockEnd(p, e)
  {
    if d == e {
    } else {
      BlockEndMonotone(p, d, e - 1);
      var q, w := Shift(p, e - 1), Pow2(e - 1);
      Product(q + 1, 2 * (q / 2) + 2, w);
      assert (2 * (q / 2) + 2) * w == BlockEnd(p, e);
    }
  }

  /** A right sibling ends where the block of the next level does. */
  lemma SiblingEnd(p: nat, d: nat)
    requires !Bit(p, d)
    ensures BlockEnd(p, d) + Pow2(d) == BlockEnd(p, d + 1)
  {
    var q, w := Shift(p, d), Pow2(d);
    assert q == 2 * (q / 2);
    assert (q + 1) * w + w == (q + 2) * w == (q / 2 + 1) * (2 * w);
  }

  /** The level of the k-th left turn. */
  lemma {:induction false} TurnExists(p: nat, level: nat, k: nat) returns (d: nat)
    requires LeftTurns(p, level) > k
    ensures d < level && !Bit(p, d) && LeftTurns(p, d) == k
  {
    if LeftTurns(p, level - 1) > k {
      d := TurnExists(p, level - 1, k);
    } else {
      d := level - 1;
    }
  }

  lemma TreeOfWitness(h: Hasher, w: Witness, leaves: seq<Node>, p: nat, d: nat)
    requires Witnesses(h, w, leaves, p)
    ensures w.tree.left.Some? && LeafCount(w.tree) == p + 1
    ensures Own(w.tree, d) <==> Bit(p, d)
    ensures FillersBelow(w.tree, d) == LeftTurns(p, d)
  {
    PositionIsLeafCount(h, w.tree, leaves[..p + 1]);
    PositionBits(w.tree, d);
    SameTurns(w.tree, p, d);
  }

  lemma {:induction false} SameTurns(t: CTree, p: nat, level: nat)
    requires t.left.Some? && LeafCount(t) == p + 1
    ensures FillersBelow(t, level) == LeftTurns(p, level)
  {
    if level == 0 {
    } else {
      PositionBits(t, level - 1);
      SameTurns(t, p, level - 1);
    }
  }

  /** Where the path turns right, the tree itself holds the left sibling. */
  lemma OwnSibling(h: Hasher, t: CTree, leaves: seq<Node>, p: nat, d: nat)
    requires p < |leaves| && Represents(h, t, leaves[..p + 1]) && Bit(p, d) && Own(t, d)
    ensures Some(Subtree(h, leaves, d, Shift(p, d) - 1)) == if d == 0 then t.left else t.parents[d - 1]
  {
    if d > 0 {
      ShiftMonotone(p, p + 1, d);
      CompleteBlock(h, leaves[..p + 1], leaves, d, Shift(p, d) - 1);
    }
  }

  /** A trimmed cursor with fewer leaves than its level holds has the root of those leaves. */
  lemma CursorRoot(h: Hasher, cursor: CTree, tail: seq<Node>, d: nat)
    requires Represents(h, cursor, tail) && Trimmed(cursor) && |tail| < Pow2(d)
    ensures FrontierRoot(h, cursor, d) == MerkleRoot(h, tail, d)
  {
    hide Represents, FrontierRoot, Subtree;
    if tail != [] { TrimmedFits(h, cursor, tail, d); }
    FrontierHasMerkleRoot(h, cursor, tail, d);
  }

  /** The partial sibling, as the cursor has it. */
  lemma CursorSibling(h: Hasher, cursor: CTree, leaves: seq<Node>, d: nat, index: nat, start: nat)
    requires start == index * Pow2(d) && start <= |leaves| < start + Pow2(d)
    requires Represents(h, cursor, leaves[start..]) && Trimmed(cursor)
    ensures FrontierRoot(h, cursor, d) == Subtree(h, leaves, d, index)
  {
    hide Represents, FrontierRoot, Subtree, Pow2;
    DroppedBlocks(h, leaves, start, d, index, 0);
    CursorRoot(h, cursor, leaves[start..], d);
  }

  /** Beyond the partial sibling there are no leaves. */
  lemma LateSibling(h: Hasher, leaves: seq<Node>, p: nat, c: nat, d: nat)
    requires leaves != [] && c < d && !Bit(p, c) && |leaves| < BlockEnd(p, c) + Pow2(c)
    ensures Subtree(h, leaves, d, Shift(p, d) + 1) == EmptyRoot(h, d)
  {
    SiblingEnd(p, c);
    BlockEndMonotone(p, c + 1, d);
    ShiftBounds(|leaves| - 1, d);
    var last := Shift(|leaves| - 1, d);
    if last > Shift(p, d) {
      Product(Shift(p, d) + 1, last, Pow2(d));
    }
    EmptyBlock(h, leaves, d, Shift(p, d) + 1);
  }

  /** Entry `d` of the path is the root of the sibling at level `d`. */
  lemma PathEntryIsSibling(h: Hasher, w: Witness, leaves: seq<Node>, p: nat, d: nat)
    requires Witnesses(h, w, leaves, p)
    ensures w.tree.left.Some? && PathNode(h, w, d) == Subtree(h, leaves, d, Sibling(Shift(p, d)))
  {
    TreeOfWitness(h, w, leaves, p, d);
    assert SiblingKept(h, w, leaves, p, d);
    if Bit(p, d) {
      OwnSibling(h, w.tree, leaves, p, d);
    } else if LeftTurns(p, d) == |w.filled| {
      CursorSibling(h, w.cursor, leaves, d, Shift(p, d) + 1, BlockEnd(p, d));
    } else if LeftTurns(p, d) > |w.filled| {
      var c := TurnExists(p, d, |w.filled|);
      assert SiblingKept(h, w, leaves, p, c);
      LateSibling(h, leaves, p, c, d);
    }
  }

  /** Hashing a node up the path: the bits of `p` say on which side each sibling goes. */
  function FoldPath(h: Hasher, node: Node, p: nat, path: seq<Node>, level: nat): Node
    requires level <= |path|
    decreases |path| - level
  {
    if level == |path| then node
    else FoldPath(h, if Bit(p, level) then h.combine(AsU8(level), path[level], node)
                     else h.combine(AsU8(level), node, path[level]),
                  p, path, level + 1)
  }

  /** Every entry is the root of the sibling of the block that holds leaf `p`. */
  ghost predicate SiblingPath(h: Hasher, leaves: seq<Node>, p: nat, path: seq<Node>) {
    forall d | 0 <= d < |path| :: path[d] == Subtree(h, leaves, d, Sibling(Shift(p, d)))
  }

  lemma FoldStep(h: Hasher, leaves: seq<Node>, p: nat, path: seq<Node>, level: nat)
    requires level < |path| && SiblingPath(h, leaves, p, path)
    ensures var node := Subtree(h, leaves, level, Shift(p, level));
            Subtree(h, leaves, level + 1, Shift(p, level + 1))
            == if Bit(p, level) then h.combine(AsU8(level), path[level], node)
               else h.combine(AsU8(level), node, path[level])
  {
    var q := Shift(p, level);
    assert if q % 2 == 1 then q == 2 * (q / 2) + 1 else q == 2 * (q / 2);
  }

  lemma {:induction false} FoldReachesRoot(h: Hasher, leaves: seq<Node>, p: nat, path: seq<Node>, level: nat)
    requires level <= |path|
    requires SiblingPath(h, leaves, p, path)
    ensures FoldPath(h, Subtree(h, leaves, level, Shift(p, level)), p, path, level)
         == Subtree(h, leaves, |path|, Shift(p, |path|))
    decreases |path| - level
  {
    if level == |path| {
    } else {
      FoldStep(h, leaves, p, path, level);
      FoldReachesRoot(h, leaves, p, path, level + 1);
    }
  }

  /**
   * The authentication path of any leaf has one node per level, each the root of the leaf's
   * sibling block there, and hashing the leaf up it gives the root of the whole tree.
   */
  lemma WitnessIsCorrect(h: Hasher, w: Witness, leaves: seq<Node>, p: nat, height: nat)
    requires Witnesses(h, w, leaves, p) && height > 0 && |leaves| <= Pow2(height)
    requires w.position == LeafCount(w.tree) - 1
    ensures w.tree.left.Some? && w.position == p
    ensures var path := AuthPath(h, w, height);
            && |path| == height
            && SiblingPath(h, leaves, p, path)
            && FoldPath(h, leaves[p], w.position, path, 0) == MerkleRoot(h, leaves, height)
  {
    TreeOfWitness(h, w, leaves, p, 0);
    var path := AuthPath(h, w, height);
    PathNodes(h, w, height);
    forall d | 0 <= d < height ensures path[d] == Subtree(h, leaves, d, Sibling(Shift(p, d))) {
      PathEntryIsSibling(h, w, leaves, p, d);
    }
    FoldReachesRoot(h, leaves, p, path, 0);
    SmallShiftsToZero(p, height);
  }

  /** The cursor fits below the level it fills, and so do the empty roots above it. */
  lemma WitnessIsComputable(h: Hasher, w: Witness, leaves: seq<Node>, p: nat, height: nat, emptyRoots: seq<Node>)
    requires Witnesses(h, w, leaves, p) && height <= 255 && height < |emptyRoots|
    ensures PathComputable(w, height, emptyRoots)
  {
    hide Computable;
    forall level: nat | level < height || level == 0 ensures LevelComputable(w, level, emptyRoots) {
      TreeOfWitness(h, w, leaves, p, level);
      if !Bit(p, level) && LeftTurns(p, level) == |w.filled| {
        assert SiblingKept(h, w, leaves, p, level);
        CursorIsComputable(h, w.cursor, leaves[BlockEnd(p, level)..], level, emptyRoots);
      }
    }
  }

  lemma CursorIsComputable(h: Hasher, cursor: CTree, tail: seq<Node>, level: nat, emptyRoots: seq<Node>)
    requires Represents(h, cursor, tail) && Trimmed(cursor) && |tail| < Pow2(level)
    requires level <= 255 && level < |emptyRoots|
    ensures Computable(cursor, level, emptyRoots)
  {
    hide Computable, Represents;
    if tail == [] {
      FrontierIsComputable(h, cursor, tail, level, emptyRoots);
    } else {
      TrimmedFits(h, cursor, tail, level);
      FrontierIsComputable(h, cursor, tail, level, emptyRoots);
    }
  }

  /** Tree, filled nodes and cursor, if there is one, as they are read, are a witness of leaf `p`. */
  ghost predicate ReadWitnesses(h: Hasher, tree: CTree, filled: seq<Node>, cursor: Option<CTree>,
                                leaves: seq<Node>, p: nat)
  {
    match cursor
    case Some(c) => Witnesses(h, Witness(p, tree, filled, c), leaves, p)
    case None => Witnesses(h, Witness(p, tree, filled, CTree(None, None, [])), leaves, p)
  }

  /** Reading finds the leaf's own position, and an empty cursor where there is none. */
  lemma ReadIsWitness(h: Hasher, tree: CTree, filled: seq<Node>, cursor: Option<CTree>, leaves: seq<Node>, p: nat)
    requires ReadWitnesses(h, tree, filled, cursor, leaves, p) && p < USIZE_MAX
    ensures LeafCount(tree) == p + 1 && ReadWitness(tree, filled, cursor).Some?
    ensures var w := ReadWitness(tree, filled, cursor).value;
            w.position == p && w.tree == tree && w.filled == filled && Witnesses(h, w, leaves, p)
  {
    hide Witnesses;
    var c := if cursor.Some? then cursor.value else CTree(None, None, []);
    TreeOfWitness(h, Witness(p, tree, filled, c), leaves, p, 0);
  }

  /**
   * With the empty roots made for it, every witness that is read yields a path without a panic,
   * and the path leads from its leaf to the root of the plain tree.
   */
  method AuthenticateLeaf(h: Hasher, tree: CTree, filled: seq<Node>, cursor: Option<CTree>,
                          ghost leaves: seq<Node>, ghost p: nat, height: nat)
    returns (position: nat, path: Option<seq<Node>>)
    requires ReadWitnesses(h, tree, filled, cursor, leaves, p) && p < USIZE_MAX && p < |leaves|
    requires 0 < height <= 255 && |leaves| <= Pow2(height)
    ensures position == p && path.Some? && |path.value| == height && SiblingPath(h, leaves, p, path.value)
    ensures FoldPath(h, leaves[p], position, path.value, 0) == MerkleRoot(h, leaves, height)
  {
    hide Witnesses, PathComputable, ReadWitness, ReadWitnesses;
    ReadIsWitness(h, tree, filled, cursor, leaves, p);
    var read := Read(tree, filled, cursor);
    var w := read.value;
    WitnessIsCorrect(h, w, leaves, p, height);
    position := w.position;
    var emptyRoots := EmptyRoots(h, height);
    WitnessIsComputable(h, w, leaves, p, height, emptyRoots);
    path := ComputeAuthPath(w, height, emptyRoots, h);
  }

  // ------------------------------------------------------------------ every leaf has a witness

  function ParentsFrom(h: Hasher, leaves: seq<Node>, n: nat, level: nat): seq<Option<Node>>
    requires level >= 1
    decreases Shift(n, level)
  {
    if Shift(n, level) == 0 then []
    else [if Bit(n, level) then Some(Subtree(h, leaves, level, Shift(n, level) - 1)) else None]
         + ParentsFrom(h, leaves, n, level + 1)
  }

  /** The frontier of any sequence of leaves. */
  function Frontier(h: Hasher, leaves: seq<Node>): CTree {
    if leaves == [] then NEW_TREE
    else
      var n := |leaves| - 1;
      CTree(Some(if Bit(n, 0) then leaves[n - 1] else leaves[n]), if Bit(n, 0) then Some(leaves[n]) else None,
            ParentsFrom(h, leaves, n, 1))
  }

  lemma {:induction false} ParentsFromLevel(h: Hasher, leaves: seq<Node>, n: nat, level: nat)
    requires level >= 1
    ensures var ps := ParentsFrom(h, leaves, n, level);
            && Shift(n, level + |ps|) == 0
            && (ps != [] ==> ps[|ps| - 1].Some?)
            && forall i | 0 <= i < |ps| ::
                 ps[i] == if Bit(n, level + i)
                          then Some(Subtree(h, leaves, level + i, Shift(n, level + i) - 1)) else None
    decreases Shift(n, level)
  {
    if Shift(n, level) != 0 {
      ParentsFromLevel(h, leaves, n, level + 1);
      var ps, rest := ParentsFrom(h, leaves, n, level), ParentsFrom(h, leaves, n, level + 1);
      forall i | 0 <= i < |ps|
        ensures ps[i] == if Bit(n, level + i)
                         then Some(Subtree(h, leaves, level + i, Shift(n, level + i) - 1)) else None
      {
        if i > 0 { assert ps[i] == rest[i - 1]; }
      }
    }
  }

  lemma FrontierRepresents(h: Hasher, leaves: seq<Node>)
    ensures Represents(h, Frontier(h, leaves), leaves) && Trimmed(Frontier(h, leaves))
  {
    if leaves != [] { ParentsFromLevel(h, leaves, |leaves| - 1, 1); }
  }

  /** The complete right siblings of leaf `p` from `level` up, and the level of the first partial one. */
  function FilledFrom(h: Hasher, leaves: seq<Node>, p: nat, level: nat): (seq<Node>, nat)
    requires Shift(p, level) < Shift(|leaves|, level)
    decreases Shift(|leaves|, level)
  {
    if Bit(p, level) then FilledFrom(h, leaves, p, level + 1)
    else if Shift(p, level) + 1 < Shift(|leaves|, level) then
      var (rest, top) := FilledFrom(h, leaves, p, level + 1);
      ([Subtree(h, leaves, level, Shift(p, level) + 1)] + rest, top)
    else ([], level)
  }

  /** At level `d` the sibling is complete and is the filler its turn selects. */
  ghost predicate FilledAt(h: Hasher, leaves: seq<Node>, p: nat, filled: seq<Node>, base: nat, d: nat) {
    !Bit(p, d) && LeftTurns(p, d) < base + |filled| ==>
      && base <= LeftTurns(p, d)
      && Shift(p, d) + 1 < Shift(|leaves|, d)
      && filled[LeftTurns(p, d) - base] == Subtree(h, leaves, d, Shift(p, d) + 1)
  }

  lemma {:induction false} FilledFromLevel(h: Hasher, leaves: seq<Node>, p: nat, level: nat, d: nat)
    requires Shift(p, level) < Shift(|leaves|, level) && d >= level
    ensures var (filled, top) := FilledFrom(h, leaves, p, level);
            && top >= level && !Bit(p, top) && LeftTurns(p, top) == LeftTurns(p, level) + |filled|
            && Shift(p, top) + 1 == Shift(|leaves|, top)
            && FilledAt(h, leaves, p, filled, LeftTurns(p, level), d)
    decreases Shift(|leaves|, level)
  {
    LeftTurnsMonotone(p, level, d);
    if Bit(p, level) || Shift(p, level) + 1 < Shift(|leaves|, level) {
      FilledFromLevel(h, leaves, p, level + 1, if d > level then d else level + 1);
      if d > level { LeftTurnsMonotone(p, level + 1, d); }
    }
  }

  lemma {:induction false} LeftTurnsMonotone(p: nat, d: nat, e: nat)
    requires d <= e
    ensures LeftTurns(p, d) <= LeftTurns(p, e)
    ensures d < e && !Bit(p, d) ==> LeftTurns(p, d) < LeftTurns(p, e)
  {
    if d == e {
    } else {
      LeftTurnsMonotone(p, d, e - 1);
    }
  }

  function WitnessFor(h: Hasher, leaves: seq<Node>, p: nat): Witness
    requires p < |leaves|
  {
    var (filled, top) := FilledFrom(h, leaves, p, 0);
    var start := BlockEnd(p, top);
    Witness(p, Frontier(h, leaves[..p + 1]), filled, Frontier(h, if start <= |leaves| then leaves[start..] else []))
  }

  lemma FirstPartialSibling(h: Hasher, leaves: seq<Node>, p: nat)
    requires p < |leaves|
    ensures var top := FilledFrom(h, leaves, p, 0).1;
            BlockEnd(p, top) <= |leaves| < BlockEnd(p, top) + Pow2(top)
  {
    var top := FilledFrom(h, leaves, p, 0).1;
    FilledFromLevel(h, leaves, p, 0, 0);
    ShiftBounds(|leaves|, top);
    OneBlockMore(|leaves|, Shift(p, top) + 1, Pow2(top));
  }

  lemma OneBlockMore(n: nat, q: nat, w: nat)
    requires q * w <= n < (q + 1) * w
    ensures n < q * w + w
  {
  }

  lemma SiblingOfWitness(h: Hasher, leaves: seq<Node>, p: nat, d: nat)
    requires p < |leaves|
    ensures SiblingKept(h, WitnessFor(h, leaves, p), leaves, p, d)
  {
    var (filled, top) := FilledFrom(h, leaves, p, 0);
    FilledFromLevel(h, leaves, p, 0, d);
    FirstPartialSibling(h, leaves, p);
    if d < top { LeftTurnsMonotone(p, d, top); }
    if d > top { LeftTurnsMonotone(p, top, d); }
    FrontierRepresents(h, leaves[BlockEnd(p, top)..]);
  }

  /** Every leaf of every tree has a witness, so the results above speak about something. */
  lemma EveryLeafHasAWitness(h: Hasher, leaves: seq<Node>, p: nat)
    requires p < |leaves|
    ensures var w := WitnessFor(h, leaves, p);
            && Witnesses(h, w, leaves, p)
            && (Some(w) == ReadWitness(w.tree, w.filled, Some(w.cursor)) <==> p < USIZE_MAX)
  {
    FrontierRepresents(h, leaves[..p + 1]);
    forall d: nat ensures SiblingKept(h, WitnessFor(h, leaves, p), leaves, p, d) {
      SiblingOfWitness(h, leaves, p, d);
    }
    TreeOfWitness(h, WitnessFor(h, leaves, p), leaves, p, 0);
  }

  /**
   * Every leaf whose position fits has a witness that can be read; and if no sibling of the leaf
   * is partly filled, one that is read without a cursor.
   */
  lemma EveryLeafIsRead(h: Hasher, leaves: seq<Node>, p: nat)
    requires p < |leaves| && p < USIZE_MAX
    ensures var w := WitnessFor(h, leaves, p);
            && ReadWitnesses(h, w.tree, w.filled, Some(w.cursor), leaves, p)
            && (BlockEnd(p, FilledFrom(h, leaves, p, 0).1) == |leaves| ==>
                  ReadWitnesses(h, w.tree, w.filled, None, leaves, p))
  {
    EveryLeafHasAWitness(h, leaves, p);
    var top := FilledFrom(h, leaves, p, 0).1;
    if BlockEnd(p, top) == |leaves| {
      assert leaves[BlockEnd(p, top)..] == [];
    }
  }
}
