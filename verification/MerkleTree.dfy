/** The incremental Merkle tree: a heap-indexed map in which inserting a leaf rewrites one path. */
module MerkleTree {
  import opened Arithmetic

  datatype MerkleHash = MerkleHash(w0: nat, w1: nat, w2: nat, w3: nat)

  const ZERO: MerkleHash := MerkleHash(0, 0, 0, 0)

  /** The two-to-one hash is a parameter: nothing below depends on which function it is. */
  type TwoToOne = (MerkleHash, MerkleHash) -> MerkleHash

  type Hashes = map<nat, MerkleHash>

  function TreeValue(hashes: Hashes, index: nat): MerkleHash {
    if index in hashes then hashes[index] else ZERO
  }

  /** Recomputes a node and then its ancestors up to the root, node 1. */
  function Climb(h: TwoToOne, hashes: Hashes, parent: nat): Hashes
    decreases parent
  {
    if parent == 0 then hashes else
    Climb(h, hashes[parent := h(TreeValue(hashes, 2 * parent), TreeValue(hashes, 2 * parent + 1))], parent / 2)
  }

  function InsertLeaf(h: TwoToOne, hashes: Hashes, leaf: nat, value: MerkleHash): Hashes {
    Climb(h, hashes[leaf := value], leaf / 2)
  }

  function Pow2(n: nat): (p: nat)
    ensures p >= 1
  {
    if n == 0 then 1 else 2 * Pow2(n - 1)
  }

  // ---------------------------------------------------------------- the reference: a recursive root

  /** The root over a list of leaves: an empty subtree counts as zero, a single leaf stands for
      itself, and otherwise the two halves are hashed together. */
  function MerkleRoot(h: TwoToOne, leaves: seq<MerkleHash>, height: nat): MerkleHash
    decreases height
  {
    if leaves == [] then ZERO
    else if height == 0 then leaves[0]
    else
      var cut := Min(Pow2(height - 1), |leaves|);
      h(MerkleRoot(h, leaves[..cut], height - 1), MerkleRoot(h, leaves[cut..], height - 1))
  }

  // ---------------------------------------------------------------- which leaves lie below a node

  /** `i` is the index of a node `t` levels above the leaves of a tree of the given height. */
  predicate IsNode(height: nat, t: nat, i: nat) {
    t <= height && Pow2(height - t) <= i < 2 * Pow2(height - t)
  }

  /** The index of the leftmost leaf slot below a node. */
  function FirstSlot(t: nat, i: nat): nat {
    if t == 0 then i else FirstSlot(t - 1, 2 * i)
  }

  /** Those of the positions `lo`, ..., `lo + width - 1` that a list reaches. */
  function Slice(leaves: seq<MerkleHash>, lo: nat, width: nat): seq<MerkleHash> {
    var n := Min(width, Monus(|leaves|, lo));
    seq(n, i requires 0 <= i < n => leaves[lo + i])
  }

  lemma SliceSplit(leaves: seq<MerkleHash>, lo: nat, half: nat)
    ensures var whole := Slice(leaves, lo, 2 * half);
            var cut := Min(half, |whole|);
            whole[..cut] == Slice(leaves, lo, half) && whole[cut..] == Slice(leaves, lo + half, half)
  {}

  /** A list with one more leaf, or with one of its leaves replaced. */
  function Put(leaves: seq<MerkleHash>, k: nat, value: MerkleHash): seq<MerkleHash>
    requires k <= |leaves|
  {
    if k < |leaves| then leaves[k := value] else leaves + [value]
  }

  lemma SlicePut(leaves: seq<MerkleHash>, k: nat, value: MerkleHash, lo: nat, width: nat)
    requires k <= |leaves|
    ensures lo <= k < lo + width ==> Slice(Put(leaves, k, value), lo, width) != []
    ensures !(lo <= k < lo + width) ==> Slice(Put(leaves, k, value), lo, width) == Slice(leaves, lo, width)
  {}

  /** The leaves stored below a node: slots are filled from the left. */
  function Below(leaves: seq<MerkleHash>, height: nat, t: nat, i: nat): seq<MerkleHash> {
    Slice(leaves, Monus(FirstSlot(t, i), Pow2(height)), Pow2(t))
  }

  /** What a node of the tree is meant to carry: the recursive root over the leaves below it. */
  function NodeRoot(h: TwoToOne, leaves: seq<MerkleHash>, height: nat, t: nat, i: nat): MerkleHash {
    MerkleRoot(h, Below(leaves, height, t, i), t)
  }

  lemma {:induction false} NextSlots(t: nat, i: nat)
    ensures FirstSlot(t, i + 1) == FirstSlot(t, i) + Pow2(t)
    decreases t
  {
    if t == 0 {
    } else {
      NextSlots(t - 1, 2 * i);
      NextSlots(t - 1, 2 * i + 1);
    }
  }

  lemma {:induction false} SlotsInRange(height: nat, t: nat, i: nat)
    requires IsNode(height, t, i)
    ensures Pow2(height) <= FirstSlot(t, i)
    ensures FirstSlot(t, i) + Pow2(t) <= 2 * Pow2(height)
    decreases t
  {
    if t == 0 {
    } else {
      SlotsInRange(height, t - 1, 2 * i);
      SlotsInRange(height, t - 1, 2 * i + 1);
      NextSlots(t - 1, 2 * i);
    }
  }

  lemma {:induction false} Pow2Monotone(a: nat, b: nat)
    requires a <= b
    ensures Pow2(a) <= Pow2(b)
    decreases b - a
  {
    if a >= b {
    } else {
      Pow2Monotone(a, b - 1);
    }
  }

  /** A node index occurs on one level only. */
  lemma LevelUnique(height: nat, t: nat, u: nat, i: nat)
    requires IsNode(height, t, i) && IsNode(height, u, i)
    ensures t == u
  {
    if t < u {
      Pow2Monotone(height - u + 1, height - t);
    } else if u < t {
      Pow2Monotone(height - t + 1, height - u);
    }
  }

  lemma Children(height: nat, t: nat, i: nat)
    requires t > 0 && IsNode(height, t, i)
    ensures IsNode(height, t - 1, 2 * i) && IsNode(height, t - 1, 2 * i + 1)
    ensures FirstSlot(t, i) == FirstSlot(t - 1, 2 * i)
    ensures FirstSlot(t - 1, 2 * i + 1) == FirstSlot(t - 1, 2 * i) + Pow2(t - 1)
    ensures Pow2(height) <= FirstSlot(t, i)
  {
    NextSlots(t - 1, 2 * i);
    SlotsInRange(height, t, i);
  }

  /** The leaves below a node are those below its left child followed by those below its right one. */
  lemma ChildrenSplit(leaves: seq<MerkleHash>, height: nat, t: nat, i: nat)
    requires t > 0 && IsNode(height, t, i)
    ensures var below := Below(leaves, height, t, i);
            var cut := Min(Pow2(t - 1), |below|);
            && below[..cut] == Below(leaves, height, t - 1, 2 * i)
            && below[cut..] == Below(leaves, height, t - 1, 2 * i + 1)
  {
    Children(height, t, i);
    SliceSplit(leaves, FirstSlot(t, i) - Pow2(height), Pow2(t - 1));
  }

  /** A hash of two children's roots is the root over the leaves of both. */
  lemma RootOfChildren(h: TwoToOne, leaves: seq<MerkleHash>, height: nat, t: nat, i: nat)
    requires t > 0 && IsNode(height, t, i) && Below(leaves, height, t, i) != []
    ensures NodeRoot(h, leaves, height, t, i)
            == h(NodeRoot(h, leaves, height, t - 1, 2 * i), NodeRoot(h, leaves, height, t - 1, 2 * i + 1))
  {
    ChildrenSplit(leaves, height, t, i);
  }

  /** The node `t` levels above a leaf slot on the way to the root. */
  function Ancestor(leaf: nat, t: nat): nat {
    if t == 0 then leaf else Ancestor(leaf, t - 1) / 2
  }

  lemma {:induction false} AncestorIsNode(height: nat, leaf: nat, t: nat)
    requires Pow2(height) <= leaf < 2 * Pow2(height) && t <= height
    ensures IsNode(height, t, Ancestor(leaf, t))
    decreases t
  {
    if t == 0 {
    } else {
      AncestorIsNode(height, leaf, t - 1);
    }
  }

  /** A node is an ancestor of a slot exactly when the slot is one of the node's own. */
  lemma {:induction false} AncestorIffSlot(leaf: nat, t: nat, i: nat)
    ensures i == Ancestor(leaf, t) <==> FirstSlot(t, i) <= leaf < FirstSlot(t, i) + Pow2(t)
    decreases t
  {
    if t == 0 {
    } else {
      AncestorIffSlot(leaf, t - 1, 2 * i);
      AncestorIffSlot(leaf, t - 1, 2 * i + 1);
      NextSlots(t - 1, 2 * i);
    }
  }

  /** Slot `n` is one of a node's own exactly when the node is one of its ancestors. */
  lemma OwnSlots(height: nat, n: nat, t: nat, i: nat)
    requires IsNode(height, t, i)
    ensures Pow2(height) <= FirstSlot(t, i)
    ensures var lo := FirstSlot(t, i) - Pow2(height);
            i == Ancestor(Pow2(height) + n, t) <==> lo <= n < lo + Pow2(t)
  {
    AncestorIffSlot(Pow2(height) + n, t, i);
    SlotsInRange(height, t, i);
  }

  /** A leaf put into a slot lands below the slot's ancestors and below no other node. */
  lemma PutBelow(leaves: seq<MerkleHash>, k: nat, value: MerkleHash, height: nat, t: nat, i: nat)
    requires k <= |leaves| && IsNode(height, t, i)
    ensures i == Ancestor(Pow2(height) + k, t) ==> Below(Put(leaves, k, value), height, t, i) != []
    ensures i != Ancestor(Pow2(height) + k, t) ==> Below(Put(leaves, k, value), height, t, i) == Below(leaves, height, t, i)
  {
    OwnSlots(height, k, t, i);
    SlicePut(leaves, k, value, FirstSlot(t, i) - Pow2(height), Pow2(t));
  }

  /** A leaf slot holds its own leaf and nothing else. */
  lemma SlotRoot(h: TwoToOne, leaves: seq<MerkleHash>, height: nat, k: nat)
    ensures NodeRoot(h, leaves, height, 0, Pow2(height) + k) == if k < |leaves| then leaves[k] else ZERO
  {
    assert Below(leaves, height, 0, Pow2(height) + k) == Slice(leaves, k, 1);
  }

  /** A leaf put into a slot does not change what nodes off its path are meant to carry. */
  lemma RootOffPath(h: TwoToOne, leaves: seq<MerkleHash>, k: nat, value: MerkleHash, height: nat, t: nat, i: nat)
    requires k <= |leaves| && IsNode(height, t, i) && i != Ancestor(Pow2(height) + k, t)
    ensures NodeRoot(h, Put(leaves, k, value), height, t, i) == NodeRoot(h, leaves, height, t, i)
  {
    PutBelow(leaves, k, value, height, t, i);
  }

  /** On its path they are meant to carry the hash of their children's. */
  lemma RootOnPath(h: TwoToOne, leaves: seq<MerkleHash>, k: nat, value: MerkleHash, height: nat, t: nat)
    requires k <= |leaves| && k < Pow2(height) && 0 < t <= height
    ensures var p, after := Ancestor(Pow2(height) + k, t), Put(leaves, k, value);
            NodeRoot(h, after, height, t, p)
            == h(NodeRoot(h, after, height, t - 1, 2 * p), NodeRoot(h, after, height, t - 1, 2 * p + 1))
  {
    var p := Ancestor(Pow2(height) + k, t);
    AncestorIsNode(height, Pow2(height) + k, t);
    PutBelow(leaves, k, value, height, t, p);
    RootOfChildren(h, Put(leaves, k, value), height, t, p);
  }

  // ---------------------------------------------------------------- the map is the tree

  /** Every node of the tree carries the recursive root over the leaves below it. */
  ghost predicate IsTree(h: TwoToOne, hashes: Hashes, height: nat, leaves: seq<MerkleHash>) {
    && |leaves| <= Pow2(height)
    && (forall t: nat, i: nat :: IsNode(height, t, i) ==> TreeValue(hashes, i) == NodeRoot(h, leaves, height, t, i))
  }

  /** The map holds the tree and nothing else. */
  ghost predicate Represents(h: TwoToOne, hashes: Hashes, height: nat, leaves: seq<MerkleHash>) {
    IsTree(h, hashes, height, leaves) && forall i :: i in hashes ==> i < 2 * Pow2(height)
  }

  // The climb works for whatever value each node is meant to have and along whatever path of halving
  // indices, as long as the values on the path are the hashes of their children's.

  type Meant = (nat, nat) -> MerkleHash
  type Path = nat -> nat

  /** As meant everywhere except possibly on the path from level `t` up. */
  ghost predicate SettledBelow(hashes: Hashes, meant: Meant, height: nat, path: Path, t: nat) {
    forall u: nat, i: nat :: IsNode(height, u, i) && (u < t || i != path(u)) ==> TreeValue(hashes, i) == meant(u, i)
  }

  /** The path passes level `t` at a node of that level whose value is the hash of its children's. */
  predicate PathHashes(h: TwoToOne, meant: Meant, height: nat, path: Path, t: nat) {
    && path(t + 1) == path(t) / 2
    && IsNode(height, t, path(t))
    && (t > 0 ==> meant(t, path(t)) == h(meant(t - 1, 2 * path(t)), meant(t - 1, 2 * path(t) + 1)))
  }

  /** Recomputing one ancestor settles its level and disturbs no other node. */
  lemma SettleLevel(h: TwoToOne, hashes: Hashes, meant: Meant, height: nat, path: Path, t: nat)
    requires 0 < t <= height && PathHashes(h, meant, height, path, t)
    requires SettledBelow(hashes, meant, height, path, t)
    ensures var p := path(t);
            SettledBelow(hashes[p := h(TreeValue(hashes, 2 * p), TreeValue(hashes, 2 * p + 1))],
                         meant, height, path, t + 1)
  {
    var p := path(t);
    var hashes' := hashes[p := h(TreeValue(hashes, 2 * p), TreeValue(hashes, 2 * p + 1))];
    assert IsNode(height, t - 1, 2 * p) && IsNode(height, t - 1, 2 * p + 1);
    forall u: nat, i: nat | IsNode(height, u, i) && (u < t + 1 || i != path(u))
      ensures TreeValue(hashes', i) == meant(u, i)
    {
      if i == p {
        LevelUnique(height, t, u, i);
      }
    }
  }

  lemma {:induction false} ClimbSettles(h: TwoToOne, hashes: Hashes, meant: Meant, height: nat, path: Path, t: nat)
    requires 0 < t <= height + 1
    requires forall u: nat :: u <= height ==> PathHashes(h, meant, height, path, u)
    requires SettledBelow(hashes, meant, height, path, t)
    ensures SettledBelow(Climb(h, hashes, path(t)), meant, height, path, height + 1)
    decreases height + 1 - t
  {
    var p := path(t);
    if t <= height {
      assert PathHashes(h, meant, height, path, t);
      SettleLevel(h, hashes, meant, height, path, t);
      ClimbSettles(h, hashes[p := h(TreeValue(hashes, 2 * p), TreeValue(hashes, 2 * p + 1))],
                   meant, height, path, t + 1);
    } else {
      assert PathHashes(h, meant, height, path, height);
      assert Pow2(0) == 1;
    }
  }

  lemma {:induction false} ClimbBounded(h: TwoToOne, hashes: Hashes, parent: nat, bound: nat)
    requires parent < bound && forall i :: i in hashes ==> i < bound
    ensures forall i :: i in Climb(h, hashes, parent) ==> i < bound
    decreases parent
  {
    if parent == 0 {
    } else {
      ClimbBounded(h, hashes[parent := h(TreeValue(hashes, 2 * parent), TreeValue(hashes, 2 * parent + 1))],
                   parent / 2, bound);
    }
  }

  /** Carries what is meant at every node. */
  ghost predicate Carries(hashes: Hashes, meant: Meant, height: nat) {
    forall t: nat, i: nat :: IsNode(height, t, i) ==> TreeValue(hashes, i) == meant(t, i)
  }

  /** Writing a leaf and climbing turns a tree that carries `before` into one that carries `after`, when
      the two agree off the path. */
  lemma InsertCarries(h: TwoToOne, hashes: Hashes, before: Meant, after: Meant, height: nat, path: Path, value: MerkleHash)
    requires Carries(hashes, before, height)
    requires forall t: nat, i: nat :: IsNode(height, t, i) && i != path(t) ==> after(t, i) == before(t, i)
    requires after(0, path(0)) == value
    requires forall t: nat :: t <= height ==> PathHashes(h, after, height, path, t)
    ensures Carries(InsertLeaf(h, hashes, path(0), value), after, height)
  {
    var leaf := path(0);
    assert PathHashes(h, after, height, path, 0);
    assert SettledBelow(hashes[leaf := value], after, height, path, 1) by {
      forall u: nat, i: nat | IsNode(height, u, i) && (u < 1 || i != path(u))
        ensures TreeValue(hashes[leaf := value], i) == after(u, i)
      {
        if i == leaf {
          LevelUnique(height, 0, u, i);
        }
      }
    }
    ClimbSettles(h, hashes[leaf := value], after, height, path, 1);
    assert InsertLeaf(h, hashes, leaf, value) == Climb(h, hashes[leaf := value], path(1));
  }

  lemma PlanOnPath(h: TwoToOne, height: nat, leaves: seq<MerkleHash>, k: nat, value: MerkleHash,
                   after: Meant, path: Path, t: nat)
    requires k <= |leaves| && k < Pow2(height) && t <= height
    requires path(t) == Ancestor(Pow2(height) + k, t) && path(t + 1) == Ancestor(Pow2(height) + k, t + 1)
    requires after(t, path(t)) == NodeRoot(h, Put(leaves, k, value), height, t, path(t))
    requires t > 0 ==>
      && after(t - 1, 2 * path(t)) == NodeRoot(h, Put(leaves, k, value), height, t - 1, 2 * path(t))
      && after(t - 1, 2 * path(t) + 1) == NodeRoot(h, Put(leaves, k, value), height, t - 1, 2 * path(t) + 1)
    ensures PathHashes(h, after, height, path, t)
  {
    AncestorIsNode(height, Pow2(height) + k, t);
    if t > 0 {
      RootOnPath(h, leaves, k, value, height, t);
    }
  }

  /** The recursive roots before and after a leaf is put, and the path above it, as functions. */
  lemma InsertionPlan(h: TwoToOne, height: nat, leaves: seq<MerkleHash>, k: nat, value: MerkleHash)
    returns (before: Meant, after: Meant, path: Path)
    requires k <= |leaves| && k < Pow2(height)
    ensures forall t: nat, i: nat {:trigger before(t, i)} :: before(t, i) == NodeRoot(h, leaves, height, t, i)
    ensures forall t: nat, i: nat {:trigger after(t, i)} :: after(t, i) == NodeRoot(h, Put(leaves, k, value), height, t, i)
    ensures forall t: nat {:trigger path(t)} :: path(t) == Ancestor(Pow2(height) + k, t)
    ensures forall t: nat :: t <= height ==> PathHashes(h, after, height, path, t)
  {
    before := (t: nat, i: nat) => NodeRoot(h, leaves, height, t, i);
    after := (t: nat, i: nat) => NodeRoot(h, Put(leaves, k, value), height, t, i);
    path := (t: nat) => Ancestor(Pow2(height) + k, t);
    forall t: nat | t <= height
      ensures PathHashes(h, after, height, path, t)
    {
      PlanOnPath(h, height, leaves, k, value, after, path, t);
    }
  }

  /** Writing any slot, new or old, and rewriting the one path above it leaves every node of the tree, on
      the path or off it, equal to the recursive root over the leaves below it. */
  lemma PutKeepsTree(h: TwoToOne, hashes: Hashes, height: nat, leaves: seq<MerkleHash>, k: nat, value: MerkleHash)
    requires IsTree(h, hashes, height, leaves) && k <= |leaves| && k < Pow2(height)
    ensures IsTree(h, InsertLeaf(h, hashes, Pow2(height) + k, value), height, Put(leaves, k, value))
  {
    var before, after, path := InsertionPlan(h, height, leaves, k, value);
    forall t: nat, i: nat | IsNode(height, t, i) && i != path(t)
      ensures after(t, i) == before(t, i)
    {
      RootOffPath(h, leaves, k, value, height, t, i);
    }
    assert path(0) == Pow2(height) + k;
    SlotRoot(h, Put(leaves, k, value), height, k);
    InsertCarries(h, hashes, before, after, height, path, value);
  }

  /** INSERTION KEEPS THE TREE: every node is the recursive root over the leaves below it, with the new
      leaf last. */
  lemma InsertKeepsTree(h: TwoToOne, hashes: Hashes, height: nat, leaves: seq<MerkleHash>, value: MerkleHash)
    requires Represents(h, hashes, height, leaves) && |leaves| < Pow2(height)
    ensures Represents(h, InsertLeaf(h, hashes, Pow2(height) + |leaves|, value), height, leaves + [value])
  {
    var leaf := Pow2(height) + |leaves|;
    PutKeepsTree(h, hashes, height, leaves, |leaves|, value);
    ClimbBounded(h, hashes[leaf := value], leaf / 2, 2 * Pow2(height));
  }

  /** The map after inserting a list of leaves one by one from index `first` on. */
  function Inserted(h: TwoToOne, hashes: Hashes, first: nat, values: seq<MerkleHash>): Hashes {
    if values == [] then hashes else
    var n := |values| - 1;
    InsertLeaf(h, Inserted(h, hashes, first, values[..n]), first + n, values[n])
  }

  lemma {:induction false} InsertedAppend(h: TwoToOne, hashes: Hashes, first: nat, a: seq<MerkleHash>, b: seq<MerkleHash>)
    ensures Inserted(h, hashes, first, a + b) == Inserted(h, Inserted(h, hashes, first, a), first + |a|, b)
    decreases |b|
  {
    if b == [] {
      assert a + b == a;
    } else {
      var n := |b| - 1;
      InsertedAppend(h, hashes, first, a, b[..n]);
      assert (a + b)[..|a + b| - 1] == a + b[..n] && (a + b)[|a + b| - 1] == b[n];
    }
  }

  /** Insertion into an empty tree. */
  function Built(h: TwoToOne, height: nat, leaves: seq<MerkleHash>): Hashes {
    Inserted(h, map[], Pow2(height), leaves)
  }

  lemma EmptyRepresents(h: TwoToOne, height: nat)
    ensures Represents(h, map[], height, [])
  {}

  lemma {:induction false} BuiltRepresents(h: TwoToOne, height: nat, leaves: seq<MerkleHash>)
    requires |leaves| <= Pow2(height)
    ensures Represents(h, Built(h, height, leaves), height, leaves)
  {
    if leaves != [] {
      var n := |leaves| - 1;
      BuiltRepresents(h, height, leaves[..n]);
      InsertKeepsTree(h, Built(h, height, leaves[..n]), height, leaves[..n], leaves[n]);
      assert leaves[..n] + [leaves[n]] == leaves;
    } else {
      EmptyRepresents(h, height);
    }
  }

  lemma WholeTree(leaves: seq<MerkleHash>, height: nat)
    requires |leaves| <= Pow2(height)
    ensures IsNode(height, height, 1) && Below(leaves, height, height, 1) == leaves
  {
    assert Pow2(0) == 1;
    SlotsInRange(height, height, 1);
  }

  lemma TreeRoot(h: TwoToOne, hashes: Hashes, height: nat, leaves: seq<MerkleHash>)
    requires IsTree(h, hashes, height, leaves)
    ensures TreeValue(hashes, 1) == MerkleRoot(h, leaves, height)
  {
    WholeTree(leaves, height);
    assert TreeValue(hashes, 1) == NodeRoot(h, leaves, height, height, 1);
  }

  /** THE STORED ROOT IS THE RECURSIVE ROOT, after every number of insertions up to capacity. */
  lemma StoredRoot(h: TwoToOne, height: nat, leaves: seq<MerkleHash>)
    requires |leaves| <= Pow2(height)
    ensures TreeValue(Built(h, height, leaves), 1) == MerkleRoot(h, leaves, height)
  {
    BuiltRepresents(h, height, leaves);
    TreeRoot(h, Built(h, height, leaves), height, leaves);
  }

  /** Locally: an inner node is the hash of its children when a leaf lies below it, and zero otherwise. */
  lemma InnerNode(h: TwoToOne, hashes: Hashes, height: nat, leaves: seq<MerkleHash>, t: nat, i: nat)
    requires Represents(h, hashes, height, leaves) && IsNode(height, t, i) && t > 0
    ensures TreeValue(hashes, i) == if Below(leaves, height, t, i) == [] then MerkleHash(0, 0, 0, 0)
                                    else h(TreeValue(hashes, 2 * i), TreeValue(hashes, 2 * i + 1))
  {
    if Below(leaves, height, t, i) != [] {
      Children(height, t, i);
      RootOfChildren(h, leaves, height, t, i);
    }
  }

  /** The leaf slots hold the leaves in order. */
  lemma LeafSlot(h: TwoToOne, hashes: Hashes, height: nat, leaves: seq<MerkleHash>, k: nat)
    requires Represents(h, hashes, height, leaves) && k < Pow2(height)
    ensures TreeValue(hashes, Pow2(height) + k) == if k < |leaves| then leaves[k] else MerkleHash(0, 0, 0, 0)
  {
    assert IsNode(height, 0, Pow2(height) + k);
    SlotRoot(h, leaves, height, k);
  }

  // ---------------------------------------------------------------- the contract object

  predicate IsPowerOfTwo(n: nat) {
    exists k: nat :: k <= n && n == Pow2(k)
  }

  const FIRST_LEAF: MerkleHash := MerkleHash(1, 7, 2, 9)

  class PoseidonTree {
    const twoToOneHash: TwoToOne
    var hashes: Hashes
    var nextFreeLeaf: u32

    /** The storage is a tree of the given height over the given leaves, and the next leaf goes after them. */
    ghost predicate Holds(height: nat, leaves: seq<MerkleHash>)
      reads this
    {
      nextFreeLeaf == Pow2(height) + |leaves| && Represents(twoToOneHash, hashes, height, leaves)
    }

    constructor (twoToOneHash: TwoToOne, maxLeaves: u32)
      requires IsPowerOfTwo(maxLeaves)
      ensures this.twoToOneHash == twoToOneHash
      ensures forall height :: maxLeaves == Pow2(height) ==> Holds(height, [MerkleHash(1, 7, 2, 9)])
    {
      this.twoToOneHash := twoToOneHash;
      hashes := map[];
      nextFreeLeaf := maxLeaves;
      new;
      forall height | maxLeaves == Pow2(height)
        ensures Holds(height, [])
      {
        EmptyRepresents(twoToOneHash, height);
      }
      var _ := CreateNewLeaf(FIRST_LEAF);
      assert [] + [FIRST_LEAF] == [FIRST_LEAF];
    }

    /** Stores the leaf and recomputes the path above it; false is the trap when the 32-bit counter of
        leaves overflows, which undoes everything. */
    method CreateNewLeaf(value: MerkleHash) returns (ok: bool)
      modifies this`hashes, this`nextFreeLeaf
      ensures ok <==> old(nextFreeLeaf) < U32_MAX
      ensures ok ==> hashes == InsertLeaf(twoToOneHash, old(hashes), old(nextFreeLeaf), value)
                     && nextFreeLeaf == old(nextFreeLeaf) + 1
      ensures ok ==> forall height: nat, leaves: seq<MerkleHash> ::
                old(Holds(height, leaves)) && |leaves| < Pow2(height) ==> Holds(height, leaves + [value])
      ensures !ok ==> hashes == old(hashes) && nextFreeLeaf == old(nextFreeLeaf)
    {
      var before := hashes;
      hashes := hashes[nextFreeLeaf := value];
      var parent: u32 := nextFreeLeaf / 2;
      while parent > 0
        invariant parent <= nextFreeLeaf / 2
        invariant Climb(twoToOneHash, hashes, parent) == InsertLeaf(twoToOneHash, old(hashes), old(nextFreeLeaf), value)
        invariant nextFreeLeaf == old(nextFreeLeaf)
        decreases parent
      {
        var leftIndex: u32, rightIndex: u32 := 2 * parent, 2 * parent + 1;
        var left := TreeValue(hashes, leftIndex);
        var right := TreeValue(hashes, rightIndex);
        hashes := hashes[parent := twoToOneHash(left, right)];
        parent := parent / 2;
      }
      if nextFreeLeaf == U32_MAX {
        hashes := before;
        return false;
      }
      nextFreeLeaf := nextFreeLeaf + 1;
      forall height: nat, leaves: seq<MerkleHash> | old(Holds(height, leaves)) && |leaves| < Pow2(height)
        ensures Holds(height, leaves + [value])
      {
        InsertKeepsTree(twoToOneHash, old(hashes), height, leaves, value);
      }
      return true;
    }
  }
}
