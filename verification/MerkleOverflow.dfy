/** What the incremental Merkle tree does past its capacity: nothing stops further insertions. */
module MerkleOverflow {
  import opened Arithmetic
  import opened MerkleTree

  lemma {:induction false} ClimbLeavesRest(h: TwoToOne, hashes: Hashes, parent: nat, i: nat)
    requires i > parent
    ensures TreeValue(Climb(h, hashes, parent), i) == TreeValue(hashes, i)
    decreases parent
  {
    if parent == 0 {
    } else {
      var hashes' := hashes[parent := h(TreeValue(hashes, 2 * parent), TreeValue(hashes, 2 * parent + 1))];
      ClimbLeavesRest(h, hashes', parent / 2, i);
    }
  }

  lemma InsertBesideFirst(h: TwoToOne, hashes: Hashes, first: nat, leaf: nat, value: MerkleHash)
    requires first < leaf < 2 * first
    ensures TreeValue(InsertLeaf(h, hashes, leaf, value), first) == TreeValue(hashes, first)
  {
    ClimbLeavesRest(h, hashes[leaf := value], leaf / 2, first);
  }

  lemma InsertBelowFirst(h: TwoToOne, hashes: Hashes, first: nat, value: MerkleHash)
    requires first > 0 && 2 * first + 1 !in hashes
    ensures TreeValue(InsertLeaf(h, hashes, 2 * first, value), first) == h(value, ZERO)
  {
    var written := hashes[2 * first := value];
    assert InsertLeaf(h, hashes, 2 * first, value) == Climb(h, written, first)
           == Climb(h, written[first := h(value, ZERO)], first / 2);
    ClimbLeavesRest(h, written[first := h(value, ZERO)], first / 2, first);
  }

  /** Nothing stops an insertion into a full tree, and it writes over the first leaf: that leaf
      survives exactly when the tree had room, or the overwriting hash happens to equal it. */
  lemma FirstLeafSurvivesIff(h: TwoToOne, hashes: Hashes, height: nat, leaves: seq<MerkleHash>, value: MerkleHash)
    requires Represents(h, hashes, height, leaves) && leaves != []
    ensures var after := InsertLeaf(h, hashes, Pow2(height) + |leaves|, value);
            TreeValue(after, Pow2(height)) == leaves[0]
            <==> |leaves| < Pow2(height) || h(value, ZERO) == leaves[0]
  {
    LeafSlot(h, hashes, height, leaves, 0);
    if |leaves| < Pow2(height) {
      InsertBesideFirst(h, hashes, Pow2(height), Pow2(height) + |leaves|, value);
    } else {
      InsertBelowFirst(h, hashes, Pow2(height), value);
    }
  }

  // An insertion past capacity goes to the level below the leaves, and its climb starts by writing the
  // hash of two such values over a leaf.

  function At(values: seq<MerkleHash>, k: nat): MerkleHash {
    if k < |values| then values[k] else ZERO
  }

  /** The leaves as the further values overwrite them: value `j` overwrites leaf `j / 2`. */
  function Overwritten(h: TwoToOne, full: seq<MerkleHash>, extra: seq<MerkleHash>): seq<MerkleHash> {
    seq(|full|, k requires 0 <= k < |full| =>
      if 2 * k < |extra| then h(extra[2 * k], At(extra, 2 * k + 1)) else full[k])
  }

  lemma OverwriteOne(h: TwoToOne, full: seq<MerkleHash>, extra: seq<MerkleHash>, value: MerkleHash)
    requires |extra| < 2 * |full|
    ensures var k, more := |extra| / 2, extra + [value];
            Overwritten(h, full, more) == Overwritten(h, full, extra)[k := h(At(more, 2 * k), At(more, 2 * k + 1))]
  {
    var k, more := |extra| / 2, extra + [value];
    var one, other := Overwritten(h, full, more), Overwritten(h, full, extra);
    forall j | 0 <= j < |full| && j != k ensures one[j] == other[j] {
      assert 2 * j < |more| <==> 2 * j < |extra|;
    }
  }

  /** The `width` nodes from index `width` on carry the given values and are otherwise empty. */
  ghost predicate LevelHolds(hashes: Hashes, width: nat, extra: seq<MerkleHash>) {
    forall k: nat :: k < width ==> TreeValue(hashes, width + k) == At(extra, k)
  }

  /** A full tree of leaves, and the further values on the level below. */
  ghost predicate Overflowing(h: TwoToOne, hashes: Hashes, height: nat, full: seq<MerkleHash>, extra: seq<MerkleHash>) {
    && |full| == Pow2(height) && |extra| <= 2 * Pow2(height)
    && (forall i :: i in hashes ==> i < 4 * Pow2(height))
    && LevelHolds(hashes, 2 * Pow2(height), extra)
    && IsTree(h, hashes, height, Overwritten(h, full, extra))
  }

  lemma NodesBelow(height: nat, t: nat, i: nat)
    requires IsNode(height, t, i)
    ensures i < 2 * Pow2(height)
  {
    Pow2Monotone(height - t, height);
  }

  lemma WriteBeyondTree(h: TwoToOne, hashes: Hashes, height: nat, leaves: seq<MerkleHash>, index: nat, value: MerkleHash)
    requires IsTree(h, hashes, height, leaves) && index >= 2 * Pow2(height)
    ensures IsTree(h, hashes[index := value], height, leaves)
  {
    forall t: nat, i: nat | IsNode(height, t, i)
      ensures TreeValue(hashes[index := value], i) == NodeRoot(h, leaves, height, t, i)
    {
      NodesBelow(height, t, i);
    }
  }

  lemma OverflowStarts(h: TwoToOne, hashes: Hashes, height: nat, full: seq<MerkleHash>)
    requires Represents(h, hashes, height, full) && |full| == Pow2(height)
    ensures Overflowing(h, hashes, height, full, [])
  {
    assert Overwritten(h, full, []) == full;
  }

  /** The climb of an insertion at `leaf` is an insertion of a hash at the leaf's parent. */
  lemma InsertAtParent(h: TwoToOne, hashes: Hashes, leaf: nat, value: MerkleHash, p: nat)
    requires p > 0 && leaf / 2 == p
    ensures var written := hashes[leaf := value];
            InsertLeaf(h, hashes, leaf, value)
            == InsertLeaf(h, written, p, h(TreeValue(written, 2 * p), TreeValue(written, 2 * p + 1)))
  {}

  /** What the level below the leaves holds after one more value. */
  lemma WrittenBelow(hashes: Hashes, width: nat, extra: seq<MerkleHash>, value: MerkleHash, k: nat)
    requires TreeValue(hashes, width + k) == At(extra, k)
    ensures TreeValue(hashes[width + |extra| := value], width + k) == At(extra + [value], k)
  {}

  lemma LevelBelow(h: TwoToOne, hashes: Hashes, width: nat, extra: seq<MerkleHash>, value: MerkleHash, k: nat)
    requires |extra| < width && k < width && TreeValue(hashes, width + k) == At(extra, k)
    ensures TreeValue(InsertLeaf(h, hashes, width + |extra|, value), width + k) == At(extra + [value], k)
  {
    WrittenBelow(hashes, width, extra, value, k);
    ClimbLeavesRest(h, hashes[width + |extra| := value], (width + |extra|) / 2, width + k);
  }

  /** An insertion below the leaves puts a hash over a leaf. */
  lemma InsertBelowLeaf(h: TwoToOne, hashes: Hashes, height: nat, leaves: seq<MerkleHash>, leaves': seq<MerkleHash>,
                        leaf: nat, value: MerkleHash, k: nat)
    requires IsTree(h, hashes, height, leaves) && k < |leaves| && leaf / 2 == Pow2(height) + k
    requires var written, p := hashes[leaf := value], Pow2(height) + k;
             leaves' == leaves[k := h(TreeValue(written, 2 * p), TreeValue(written, 2 * p + 1))]
    ensures IsTree(h, InsertLeaf(h, hashes, leaf, value), height, leaves')
  {
    var written, p := hashes[leaf := value], Pow2(height) + k;
    InsertAtParent(h, hashes, leaf, value, p);
    WriteBeyondTree(h, hashes, height, leaves, leaf, value);
    PutKeepsTree(h, written, height, leaves, k, h(TreeValue(written, 2 * p), TreeValue(written, 2 * p + 1)));
  }

  /** The leaves after that, when the level below holds the further values. */
  lemma LeavesAfter(h: TwoToOne, hashes: Hashes, first: nat, full: seq<MerkleHash>, extra: seq<MerkleHash>,
                    value: MerkleHash, leaf: nat, k: nat)
    requires first == |full| && |extra| < 2 * first && LevelHolds(hashes, 2 * first, extra)
    requires leaf == 2 * first + |extra| && k == |extra| / 2
    ensures var written, p := hashes[leaf := value], first + k;
            Overwritten(h, full, extra + [value])
            == Overwritten(h, full, extra)[k := h(TreeValue(written, 2 * p), TreeValue(written, 2 * p + 1))]
  {
    assert 2 * (first + k) == 2 * first + 2 * k;
    WrittenBelow(hashes, 2 * first, extra, value, 2 * k);
    WrittenBelow(hashes, 2 * first, extra, value, 2 * k + 1);
    OverwriteOne(h, full, extra, value);
  }

  lemma OverflowLevel(h: TwoToOne, hashes: Hashes, width: nat, extra: seq<MerkleHash>, value: MerkleHash)
    requires |extra| < width && LevelHolds(hashes, width, extra)
    ensures LevelHolds(InsertLeaf(h, hashes, width + |extra|, value), width, extra + [value])
  {
    forall k: nat | k < width
      ensures TreeValue(InsertLeaf(h, hashes, width + |extra|, value), width + k) == At(extra + [value], k)
    {
      LevelBelow(h, hashes, width, extra, value, k);
    }
  }

  /** THE `j`-TH VALUE PAST CAPACITY overwrites leaf `j / 2` with a hash, and the tree is the tree over the
      leaves so replaced. */
  lemma OverflowStep(h: TwoToOne, hashes: Hashes, height: nat, full: seq<MerkleHash>, extra: seq<MerkleHash>, value: MerkleHash)
    requires Overflowing(h, hashes, height, full, extra) && |extra| < 2 * Pow2(height)
    ensures Overflowing(h, InsertLeaf(h, hashes, 2 * Pow2(height) + |extra|, value), height, full, extra + [value])
  {
    var width, k := 2 * Pow2(height), |extra| / 2;
    var leaf := width + |extra|;
    OverflowLevel(h, hashes, width, extra, value);
    LeavesAfter(h, hashes, Pow2(height), full, extra, value, leaf, k);
    InsertBelowLeaf(h, hashes, height, Overwritten(h, full, extra), Overwritten(h, full, extra + [value]), leaf, value, k);
    ClimbBounded(h, hashes[leaf := value], leaf / 2, 2 * width);
  }

  lemma {:induction false} OverflowRun(h: TwoToOne, hashes: Hashes, height: nat, full: seq<MerkleHash>, extra: seq<MerkleHash>)
    requires Represents(h, hashes, height, full) && |full| == Pow2(height) && |extra| <= 2 * Pow2(height)
    ensures Overflowing(h, Inserted(h, hashes, 2 * Pow2(height), extra), height, full, extra)
    decreases |extra|
  {
    if extra == [] {
      OverflowStarts(h, hashes, height, full);
    } else {
      var n := |extra| - 1;
      OverflowRun(h, hashes, height, full, extra[..n]);
      OverflowStep(h, Inserted(h, hashes, 2 * Pow2(height), extra[..n]), height, full, extra[..n], extra[n]);
      assert extra[..n] + [extra[n]] == extra;
    }
  }

  // Once the level below is full as well, the tree has doubled.

  function Pairs(h: TwoToOne, values: seq<MerkleHash>): seq<MerkleHash> {
    seq(|values| / 2, k requires 0 <= k < |values| / 2 => h(values[2 * k], values[2 * k + 1]))
  }

  lemma PairsJoin(h: TwoToOne, a: seq<MerkleHash>, b: seq<MerkleHash>)
    requires |a| % 2 == 0
    ensures Pairs(h, a + b) == Pairs(h, a) + Pairs(h, b)
  {}

  // The root as a function of which only this much is known: a single leaf stands for itself, and the
  // root of two full halves is the hash of theirs.

  type RootOf = (seq<MerkleHash>, nat) -> MerkleHash

  predicate Joins(h: TwoToOne, root: RootOf, a: seq<MerkleHash>, b: seq<MerkleHash>, t: nat) {
    |a| == |b| == Pow2(t) ==> root(a + b, t + 1) == h(root(a, t), root(b, t))
  }

  ghost predicate RootLaw(h: TwoToOne, root: RootOf) {
    && (forall a: seq<MerkleHash>, b: seq<MerkleHash>, t: nat :: Joins(h, root, a, b, t))
    && (forall a: seq<MerkleHash> :: |a| == 1 ==> root(a, 0) == a[0])
  }

  lemma RootsJoin(h: TwoToOne, a: seq<MerkleHash>, b: seq<MerkleHash>, t: nat)
    requires |a| == |b| == Pow2(t)
    ensures MerkleRoot(h, a + b, t + 1) == h(MerkleRoot(h, a, t), MerkleRoot(h, b, t))
  {
    assert (a + b)[..|a|] == a && (a + b)[|a|..] == b;
  }

  lemma RootFunction(h: TwoToOne) returns (root: RootOf)
    ensures RootLaw(h, root)
    ensures forall s: seq<MerkleHash>, t: nat {:trigger root(s, t)} :: root(s, t) == MerkleRoot(h, s, t)
  {
    root := (s: seq<MerkleHash>, t: nat) => MerkleRoot(h, s, t);
    forall a: seq<MerkleHash>, b: seq<MerkleHash>, t: nat
      ensures Joins(h, root, a, b, t)
    {
      if |a| == |b| == Pow2(t) {
        RootsJoin(h, a, b, t);
      }
    }
  }

  lemma {:induction false} PairsKeepRoot(h: TwoToOne, root: RootOf, values: seq<MerkleHash>, t: nat)
    requires RootLaw(h, root) && |values| == 2 * Pow2(t)
    ensures root(Pairs(h, values), t) == root(values, t + 1)
    decreases t
  {
    var a, b := values[..Pow2(t)], values[Pow2(t)..];
    assert a + b == values;
    assert Joins(h, root, a, b, t);
    if t == 0 {
      assert Pairs(h, values) == [h(a[0], b[0])];
    } else {
      PairsKeepRoot(h, root, a, t - 1);
      PairsKeepRoot(h, root, b, t - 1);
      PairsJoin(h, a, b);
      assert Joins(h, root, Pairs(h, a), Pairs(h, b), t - 1);
    }
  }

  /** Hashing the leaves in pairs first does not change the root of a full tree. */
  lemma PairsRoot(h: TwoToOne, values: seq<MerkleHash>, t: nat)
    requires |values| == 2 * Pow2(t)
    ensures MerkleRoot(h, Pairs(h, values), t) == MerkleRoot(h, values, t + 1)
  {
    var root := RootFunction(h);
    PairsKeepRoot(h, root, values, t);
    assert root(values, t + 1) == MerkleRoot(h, values, t + 1);
  }

  lemma {:induction false} SlotsDouble(t: nat, i: nat)
    ensures FirstSlot(t + 1, i) == 2 * FirstSlot(t, i)
    decreases t
  {
    if t == 0 {
    } else {
      SlotsDouble(t - 1, 2 * i);
    }
  }

  lemma PairsSlice(h: TwoToOne, values: seq<MerkleHash>, lo: nat, width: nat)
    requires 2 * (lo + width) <= |values|
    ensures |Slice(values, 2 * lo, 2 * width)| == 2 * width
    ensures Slice(Pairs(h, values), lo, width) == Pairs(h, Slice(values, 2 * lo, 2 * width))
  {}

  /** Where a node's slots lie, also when the tree is one level higher. */
  lemma SlotsOneHigher(height: nat, t: nat, i: nat) returns (lo: nat)
    requires IsNode(height, t, i)
    ensures FirstSlot(t, i) == Pow2(height) + lo && lo + Pow2(t) <= Pow2(height)
    ensures FirstSlot(t + 1, i) == Pow2(height + 1) + 2 * lo
  {
    SlotsInRange(height, t, i);
    SlotsDouble(t, i);
    lo := FirstSlot(t, i) - Pow2(height);
  }

  lemma BelowAt(values: seq<MerkleHash>, height: nat, t: nat, i: nat, lo: nat, width: nat)
    requires FirstSlot(t, i) == Pow2(height) + lo && Pow2(t) == width
    ensures Below(values, height, t, i) == Slice(values, lo, width)
  {}

  lemma BelowOneHigher(h: TwoToOne, height: nat, values: seq<MerkleHash>, t: nat, i: nat)
    requires |values| == 2 * Pow2(height) && IsNode(height, t, i)
    ensures |Below(values, height + 1, t + 1, i)| == 2 * Pow2(t)
    ensures Below(Pairs(h, values), height, t, i) == Pairs(h, Below(values, height + 1, t + 1, i))
  {
    var lo := SlotsOneHigher(height, t, i);
    var width := Pow2(t);
    BelowAt(Pairs(h, values), height, t, i, lo, width);
    BelowAt(values, height + 1, t + 1, i, 2 * lo, 2 * width);
    PairsSlice(h, values, lo, width);
  }

  lemma PairsNodeRoot(h: TwoToOne, height: nat, values: seq<MerkleHash>, t: nat, i: nat)
    requires |values| == 2 * Pow2(height) && IsNode(height, t, i)
    ensures NodeRoot(h, Pairs(h, values), height, t, i) == NodeRoot(h, values, height + 1, t + 1, i)
  {
    BelowOneHigher(h, height, values, t, i);
    PairsRoot(h, Below(values, height + 1, t + 1, i), t);
  }

  lemma DoubledSlot(h: TwoToOne, hashes: Hashes, height: nat, extra: seq<MerkleHash>, i: nat)
    requires LevelHolds(hashes, Pow2(height), extra) && Pow2(height) <= i < 2 * Pow2(height)
    ensures TreeValue(hashes, i) == NodeRoot(h, extra, height, 0, i)
  {
    var k := i - Pow2(height);
    assert TreeValue(hashes, Pow2(height) + k) == At(extra, k);
    SlotRoot(h, extra, height, k);
  }

  lemma DoubledInner(h: TwoToOne, hashes: Hashes, height: nat, extra: seq<MerkleHash>, t: nat, i: nat)
    requires IsTree(h, hashes, height, Pairs(h, extra)) && |extra| == 2 * Pow2(height) && IsNode(height, t, i)
    ensures TreeValue(hashes, i) == NodeRoot(h, extra, height + 1, t + 1, i)
  {
    PairsNodeRoot(h, height, extra, t, i);
  }

  lemma DoubledTree(h: TwoToOne, hashes: Hashes, height: nat, higher: nat, extra: seq<MerkleHash>)
    requires higher == height + 1 && |extra| == Pow2(higher)
    requires LevelHolds(hashes, Pow2(higher), extra) && IsTree(h, hashes, height, Pairs(h, extra))
    ensures IsTree(h, hashes, higher, extra)
  {
    forall t: nat, i: nat | IsNode(higher, t, i)
      ensures TreeValue(hashes, i) == NodeRoot(h, extra, higher, t, i)
    {
      if t == 0 {
        DoubledSlot(h, hashes, higher, extra, i);
      } else {
        DoubledInner(h, hashes, height, extra, t - 1, i);
      }
    }
  }

  /** THE TREE DOUBLES: with the level below full, it is a tree one level higher over that level. */
  lemma TreeDoubles(h: TwoToOne, hashes: Hashes, height: nat, full: seq<MerkleHash>, extra: seq<MerkleHash>)
    requires Overflowing(h, hashes, height, full, extra) && |extra| == 2 * Pow2(height)
    ensures Represents(h, hashes, height + 1, extra)
  {
    assert Overwritten(h, full, extra) == Pairs(h, extra);
    DoubledTree(h, hashes, height, height + 1, extra);
  }

  /** The root after further values have been inserted into a full tree. */
  function RootPastCapacity(h: TwoToOne, height: nat, full: seq<MerkleHash>, rest: seq<MerkleHash>): MerkleHash
    requires |full| == Pow2(height)
    decreases |rest|
  {
    var width := 2 * Pow2(height);
    if |rest| <= width then MerkleRoot(h, Overwritten(h, full, rest), height)
    else RootPastCapacity(h, height + 1, rest[..width], rest[width..])
  }

  /** Filling the level below leaves a full tree one level higher. */
  lemma FilledOnce(h: TwoToOne, hashes: Hashes, height: nat, full: seq<MerkleHash>, next: seq<MerkleHash>)
    requires Represents(h, hashes, height, full) && |full| == Pow2(height) && |next| == 2 * Pow2(height)
    ensures Represents(h, Inserted(h, hashes, 2 * Pow2(height), next), height + 1, next)
  {
    OverflowRun(h, hashes, height, full, next);
    TreeDoubles(h, Inserted(h, hashes, 2 * Pow2(height), next), height, full, next);
  }

  lemma {:induction false} StoredPastCapacity(h: TwoToOne, hashes: Hashes, height: nat, full: seq<MerkleHash>, rest: seq<MerkleHash>)
    requires Represents(h, hashes, height, full) && |full| == Pow2(height)
    ensures TreeValue(Inserted(h, hashes, 2 * Pow2(height), rest), 1) == RootPastCapacity(h, height, full, rest)
    decreases |rest|
  {
    var width := 2 * Pow2(height);
    if |rest| <= width {
      OverflowRun(h, hashes, height, full, rest);
      TreeRoot(h, Inserted(h, hashes, width, rest), height, Overwritten(h, full, rest));
    } else {
      var next, more := rest[..width], rest[width..];
      FilledOnce(h, hashes, height, full, next);
      InsertedAppend(h, hashes, width, next, more);
      assert next + more == rest;
      StoredPastCapacity(h, Inserted(h, hashes, width, next), height + 1, next, more);
    }
  }

  lemma BuiltPastCapacity(h: TwoToOne, height: nat, full: seq<MerkleHash>, rest: seq<MerkleHash>)
    requires |full| == Pow2(height)
    ensures TreeValue(Built(h, height, full + rest), 1) == RootPastCapacity(h, height, full, rest)
  {
    BuiltRepresents(h, height, full);
    InsertedAppend(h, map[], Pow2(height), full, rest);
    StoredPastCapacity(h, Built(h, height, full), height, full, rest);
  }

  /** THE STORED ROOT AFTER ANY NUMBER OF INSERTIONS. Up to capacity it is the recursive root. Past it, it
      is the recursive root of the leaves with value `j` beyond capacity overwriting leaf `j / 2`, until
      there are twice as many of these as leaves; then they are the leaves of a tree one level higher. */
  lemma StoredRootAlways(h: TwoToOne, height: nat, values: seq<MerkleHash>)
    ensures var capacity := Pow2(height);
            TreeValue(Built(h, height, values), 1)
            == if |values| <= capacity then MerkleRoot(h, values, height)
               else RootPastCapacity(h, height, values[..capacity], values[capacity..])
  {
    var capacity := Pow2(height);
    if |values| <= capacity {
      StoredRoot(h, height, values);
    } else {
      assert values[..capacity] + values[capacity..] == values;
      BuiltPastCapacity(h, height, values[..capacity], values[capacity..]);
    }
  }
}
