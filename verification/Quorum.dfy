/** Multisignatures: when a set of signatures completes a message, and why two completed messages
    cannot contradict each other. */
module Quorum {
  import opened Arithmetic

  type AuthorityId = nat
  type Message = seq<nat>
  type Signature = nat
  type NodeIndex = nat

  /** Signature verification is a parameter. */
  type Check = (AuthorityId, Message, Signature) -> bool

  datatype Verifier = Verifier(authorities: seq<AuthorityId>, check: Check)

  predicate Verify(v: Verifier, msg: Message, sgn: Signature, index: NodeIndex) {
    index < |v.authorities| && v.check(v.authorities[index], msg, sgn)
  }

  function Threshold(v: Verifier): nat {
    2 * |v.authorities| / 3 + 1
  }

  /** Enough signatures, each valid for the node it is filed under. */
  predicate IsComplete(v: Verifier, msg: Message, partial: map<NodeIndex, Signature>) {
    |partial| >= Threshold(v) && forall i :: i in partial ==> Verify(v, msg, partial[i], i)
  }

  /** A signature made with the key of the very node it is filed under. */
  predicate SignedByNode(v: Verifier, msg: Message, sgn: Signature, i: NodeIndex) {
    i < |v.authorities| && v.check(v.authorities[i], msg, sgn)
  }

  /** COMPLETE MEANS MORE THAN TWO THIRDS of the authorities, with every signature under its node's own key. */
  lemma CompleteIff(v: Verifier, msg: Message, partial: map<NodeIndex, Signature>)
    ensures IsComplete(v, msg, partial)
            <==> 3 * |partial| > 2 * |v.authorities| && forall i :: i in partial ==> SignedByNode(v, msg, partial[i], i)
  {
    if IsComplete(v, msg, partial) {
      forall i | i in partial ensures SignedByNode(v, msg, partial[i], i) {
        assert Verify(v, msg, partial[i], i);
      }
    } else if 3 * |partial| > 2 * |v.authorities| {
      var i :| i in partial && !Verify(v, msg, partial[i], i);
      assert !SignedByNode(v, msg, partial[i], i);
    }
  }

  /** The number of faulty authorities the protocol tolerates. */
  function MaxFaulty(v: Verifier): int {
    (|v.authorities| - 1) / 3
  }

  lemma UnionAndOverlap(a: set<nat>, b: set<nat>)
    ensures |a| + |b| == |a + b| + |a * b|
  {
    assert a + b == a + (b - a);
    assert b == (b - a) + a * b;
    assert |b| == |b - a| + |a * b|;
  }

  /** TWO QUORUMS OVERLAP in more nodes than can be faulty. */
  lemma QuorumsOverlap(v: Verifier, msg: Message, one: map<NodeIndex, Signature>,
                       msg': Message, other: map<NodeIndex, Signature>)
    requires IsComplete(v, msg, one) && IsComplete(v, msg', other)
    ensures |v.authorities| >= 1
    ensures |one.Keys * other.Keys| >= MaxFaulty(v) + 1
  {
    var n := |v.authorities|;
    assert |one.Keys| == |one| && |other.Keys| == |other|;
    forall i | i in one.Keys + other.Keys
      ensures 0 <= i <= n - 1
    {
      if i in one {
        assert Verify(v, msg, one[i], i);
      } else {
        assert Verify(v, msg', other[i], i);
      }
    }
    UnionAndOverlap(one.Keys, other.Keys);
    BoundedSetSize(one.Keys + other.Keys, 0, n - 1);
  }

  /** Who has signed what, according to honest nodes' own conduct. */
  ghost predicate Unforgeable(v: Verifier, honest: set<NodeIndex>, signed: iset<(NodeIndex, Message)>) {
    forall i, msg, sgn :: i in honest && SignedByNode(v, msg, sgn, i) ==> (i, msg) in signed
  }

  /** FINALITY IS SAFE. If at most a third of the authorities are faulty, honest ones sign only what
      they mean to, and none of them signs both messages, then the two are not both completed. */
  lemma NoConflictingQuorums(v: Verifier, honest: set<NodeIndex>, signed: iset<(NodeIndex, Message)>,
                             msg: Message, one: map<NodeIndex, Signature>,
                             msg': Message, other: map<NodeIndex, Signature>)
    requires |(set i: NodeIndex | i < |v.authorities| && i !in honest)| <= MaxFaulty(v)
    requires Unforgeable(v, honest, signed)
    requires forall i :: i in honest ==> !((i, msg) in signed && (i, msg') in signed)
    ensures !(IsComplete(v, msg, one) && IsComplete(v, msg', other))
  {
    if IsComplete(v, msg, one) && IsComplete(v, msg', other) {
      QuorumsOverlap(v, msg, one, msg', other);
      CompleteIff(v, msg, one);
      CompleteIff(v, msg', other);
      var faulty := set i: NodeIndex | i < |v.authorities| && i !in honest;
      var overlap := one.Keys * other.Keys;
      assert overlap <= faulty by {
        forall i | i in overlap
          ensures i in faulty
        {
          assert SignedByNode(v, msg, one[i], i) && SignedByNode(v, msg', other[i], i);
        }
      }
      SubsetSize(overlap, faulty);
    }
  }

  /** FINALITY IS REACHABLE: valid signatures of all but the tolerated number of authorities complete
      the message. */
  lemma HonestQuorumCompletes(v: Verifier, msg: Message, partial: map<NodeIndex, Signature>)
    requires |v.authorities| >= 1
    requires |partial| >= |v.authorities| - MaxFaulty(v)
    requires forall i :: i in partial ==> SignedByNode(v, msg, partial[i], i)
    ensures IsComplete(v, msg, partial)
  {
    CompleteIff(v, msg, partial);
  }

  // ---------------------------------------------------------------- why this threshold

  /** The numbers from `lo` up to, but not including, `hi`. */
  function Range(lo: nat, hi: int): (r: set<nat>)
    ensures forall i: nat :: i in r <==> lo <= i < hi
    ensures |r| == if lo <= hi then hi - lo else 0
    decreases hi - lo
  {
    if lo < hi then Range(lo, hi - 1) + {hi - 1} else {}
  }

  /** Any two sets of at least `q` of `n` nodes share more than the tolerated number of faulty ones. */
  ghost predicate SizeSafe(n: nat, q: nat) {
    forall a: set<nat>, b: set<nat> ::
      a <= Range(0, n) && b <= Range(0, n) && |a| >= q && |b| >= q ==> |a * b| > (n - 1) / 3
  }

  lemma OverlapAtLeast(n: nat, q: nat, a: set<nat>, b: set<nat>)
    requires a <= Range(0, n) && b <= Range(0, n) && |a| >= q && |b| >= q
    ensures |a * b| >= 2 * q - n
  {
    UnionAndOverlap(a, b);
    SubsetSize(a + b, Range(0, n));
  }

  /** The first and the last `q` of `n` nodes overlap as little as possible. */
  lemma LeastOverlap(n: nat, q: nat) returns (a: set<nat>, b: set<nat>)
    requires q <= n
    ensures a <= Range(0, n) && b <= Range(0, n) && |a| == |b| == q
    ensures |a * b| == if 2 * q <= n then 0 else 2 * q - n
  {
    a, b := Range(0, q), Range(n - q, n);
    assert a * b == Range(n - q, q);
  }

  lemma SizeSafeIff(n: nat, q: nat)
    requires q <= n && n >= 1
    ensures SizeSafe(n, q) <==> 2 * q - n > (n - 1) / 3
  {
    if 2 * q - n > (n - 1) / 3 {
      forall a: set<nat>, b: set<nat> | a <= Range(0, n) && b <= Range(0, n) && |a| >= q && |b| >= q
        ensures |a * b| > (n - 1) / 3
      {
        OverlapAtLeast(n, q, a, b);
      }
    } else {
      var a, b := LeastOverlap(n, q);
      assert |a * b| <= (n - 1) / 3;
    }
  }

  lemma ThresholdArithmetic(n: nat, k: nat, r: nat, q: nat)
    requires n == 3 * k + r && r < 3 && n >= 1
    ensures 2 * q - n > (n - 1) / 3 <==> q >= 2 * n / 3 + 1 || (r == 0 && q + 1 == 2 * n / 3 + 1)
  {
    RemainderIs(2 * n, 3, if r == 2 then 2 * k + 1 else 2 * k, if r == 2 then 1 else 2 * r);
    RemainderIs(n - 1, 3, if r == 0 then k - 1 else k, if r == 0 then 2 else r - 1);
  }

  /** THE THRESHOLD IS THE RIGHT ONE. Quorums of its size overlap safely and smaller ones do not, except
      that one signature less would do when three divides the number of authorities. */
  lemma ThresholdLeast(v: Verifier, q: nat)
    requires |v.authorities| >= 1 && q <= |v.authorities|
    ensures SizeSafe(|v.authorities|, q)
            <==> q >= Threshold(v) || (|v.authorities| % 3 == 0 && q + 1 == Threshold(v))
  {
    var n := |v.authorities|;
    SizeSafeIff(n, q);
    ThresholdArithmetic(n, n / 3, n % 3, q);
  }

  /** With no authorities nothing is ever complete. */
  lemma NothingCompleteAlone(v: Verifier, msg: Message, partial: map<NodeIndex, Signature>)
    requires v.authorities == []
    ensures !IsComplete(v, msg, partial)
  {
    if IsComplete(v, msg, partial) {
      QuorumsOverlap(v, msg, partial, msg, partial);
    }
  }
}
