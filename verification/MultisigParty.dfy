/** Multisig parties: signatories in canonical order, and the co-signers of each of them. */
module MultisigParty {
  import opened Arithmetic

  datatype PartyError = TooFewSignatories | ThresholdTooHigh | ThresholdTooLow

  datatype Party = Party(signatories: seq<AccountId>, threshold: nat)

  datatype Creation = Created(party: Party) | Refused(error: PartyError)

  predicate Sorted(s: seq<AccountId>) {
    forall i, j :: 0 <= i < j < |s| ==> s[i] <= s[j]
  }

  predicate Strict(s: seq<AccountId>) {
    forall i, j :: 0 <= i < j < |s| ==> s[i] < s[j]
  }

  function Members(s: seq<AccountId>): set<AccountId> {
    set a | a in s
  }

  function InsertSorted(a: AccountId, s: seq<AccountId>): seq<AccountId> {
    if s == [] then [a]
    else if a <= s[0] then [a] + s
    else [s[0]] + InsertSorted(a, s[1..])
  }

  function Sort(s: seq<AccountId>): seq<AccountId> {
    if s == [] then [] else InsertSorted(s[0], Sort(s[1..]))
  }

  /** Removes all but the last of each run of equal neighbours. */
  function Dedup(s: seq<AccountId>): seq<AccountId> {
    if |s| <= 1 then s
    else if s[0] == s[1] then Dedup(s[1..])
    else [s[0]] + Dedup(s[1..])
  }

  function NewParty(signatories: seq<AccountId>, threshold: nat): Creation {
    var sorted := Dedup(Sort(signatories));
    if |sorted| <= 1 then Refused(TooFewSignatories)
    else if |sorted| < threshold then Refused(ThresholdTooHigh)
    else if threshold < 2 then Refused(ThresholdTooLow)
    else Created(Party(sorted, threshold))
  }

  // ---------------------------------------------------------------- canonical order

  lemma {:induction false} InsertKeepsSorted(a: AccountId, s: seq<AccountId>)
    requires Sorted(s)
    ensures Sorted(InsertSorted(a, s))
    ensures forall b :: b in InsertSorted(a, s) <==> b == a || b in s
  {
    if s == [] || a <= s[0] {
    } else {
      InsertKeepsSorted(a, s[1..]);
      var rest := InsertSorted(a, s[1..]);
      assert s == [s[0]] + s[1..];
      forall i | 0 <= i < |rest| ensures s[0] <= rest[i] {
        assert rest[i] in rest;
        assert rest[i] == a || rest[i] in s[1..];
      }
    }
  }

  lemma {:induction false} SortSorts(s: seq<AccountId>)
    ensures Sorted(Sort(s))
    ensures forall b :: b in Sort(s) <==> b in s
  {
    if s == [] {
    } else {
      SortSorts(s[1..]);
      InsertKeepsSorted(s[0], Sort(s[1..]));
      assert s == [s[0]] + s[1..];
    }
  }

  lemma {:induction false} DedupMakesStrict(s: seq<AccountId>)
    requires Sorted(s)
    ensures Strict(Dedup(s))
    ensures forall b :: b in Dedup(s) <==> b in s
  {
    if |s| <= 1 {
    } else {
      DedupMakesStrict(s[1..]);
      assert s == [s[0]] + s[1..];
      if s[0] == s[1] {
        assert s[1] in s[1..];
      } else {
        var rest := Dedup(s[1..]);
        forall i | 0 <= i < |rest| ensures s[0] < rest[i] {
          assert rest[i] in s[1..];
          var k :| 0 <= k < |s[1..]| && s[1..][k] == rest[i];
          assert s[1] <= s[k + 1];
        }
      }
    }
  }

  lemma {:induction false} StrictSize(s: seq<AccountId>)
    requires Strict(s)
    ensures |Members(s)| == |s|
  {
    if s == [] {
    } else {
      StrictSize(s[1..]);
      assert s == [s[0]] + s[1..];
      assert Members(s) == {s[0]} + Members(s[1..]);
      assert s[0] !in s[1..];
    }
  }

  /** A strictly sorted list is determined by its members. */
  lemma {:induction false} StrictUnique(s: seq<AccountId>, t: seq<AccountId>)
    requires Strict(s) && Strict(t) && Members(s) == Members(t)
    ensures s == t
  {
    StrictSize(s);
    StrictSize(t);
    if s == [] {
    } else {
      assert s[0] in Members(t) && t[0] in Members(s);
      var i :| 0 <= i < |t| && t[i] == s[0];
      var j :| 0 <= j < |s| && s[j] == t[0];
      assert s[0] == t[0];
      assert s == [s[0]] + s[1..] && t == [t[0]] + t[1..];
      assert s[0] !in s[1..] && t[0] !in t[1..];
      assert Members(s[1..]) == Members(s) - {s[0]};
      assert Members(t[1..]) == Members(t) - {t[0]};
      StrictUnique(s[1..], t[1..]);
    }
  }

  /** A party is made exactly when the threshold lies between two and the number of different
      signatories, and then lists those once each in increasing order. */
  lemma PartyCanonical(signatories: seq<AccountId>, threshold: nat)
    ensures var n := |Members(signatories)|;
            match NewParty(signatories, threshold)
            case Created(p) => && 2 <= threshold <= n && p.threshold == threshold
                               && Strict(p.signatories) && Members(p.signatories) == Members(signatories)
            case Refused(TooFewSignatories) => n <= 1
            case Refused(ThresholdTooHigh) => 1 < n < threshold
            case Refused(ThresholdTooLow) => 1 < n && threshold < 2
  {
    SortSorts(signatories);
    DedupMakesStrict(Sort(signatories));
    var sorted := Dedup(Sort(signatories));
    StrictSize(sorted);
    assert Members(sorted) == Members(signatories);
  }

  /** Order and repetitions in the list do not matter: the same people form the same party. */
  lemma PartyIndependentOfOrder(one: seq<AccountId>, other: seq<AccountId>, threshold: nat)
    requires Members(one) == Members(other)
    ensures NewParty(one, threshold) == NewParty(other, threshold)
  {
    SortSorts(one);
    SortSorts(other);
    DedupMakesStrict(Sort(one));
    DedupMakesStrict(Sort(other));
    var a, b := Dedup(Sort(one)), Dedup(Sort(other));
    assert Members(a) == Members(one) && Members(b) == Members(other);
    StrictUnique(a, b);
  }

  // ---------------------------------------------------------------- co-signers

  /** Halving search for `a` in `s[lo..hi]`. */
  function BinarySearch(s: seq<AccountId>, a: AccountId, lo: nat, hi: nat): (r: Option<nat>)
    requires lo <= hi <= |s|
    ensures r.Some? ==> lo <= r.value < hi && s[r.value] == a
    decreases hi - lo
  {
    if lo == hi then None else
    var mid := (lo + hi) / 2;
    if s[mid] == a then Some(mid)
    else if s[mid] < a then BinarySearch(s, a, mid + 1, hi)
    else BinarySearch(s, a, lo, mid)
  }

  lemma SearchRight(s: seq<AccountId>, a: AccountId, lo: nat, mid: nat, hi: nat)
    requires Strict(s) && lo <= mid < hi <= |s| && s[mid] < a
    ensures a in s[lo..hi] <==> a in s[mid + 1..hi]
  {
    assert s[lo..hi] == s[lo..mid + 1] + s[mid + 1..hi];
    assert forall k :: lo <= k <= mid ==> s[k] < a;
  }

  lemma SearchLeft(s: seq<AccountId>, a: AccountId, lo: nat, mid: nat, hi: nat)
    requires Strict(s) && lo <= mid < hi <= |s| && a < s[mid]
    ensures a in s[lo..hi] <==> a in s[lo..mid]
  {
    assert s[lo..hi] == s[lo..mid] + s[mid..hi];
    assert forall k :: mid <= k < hi ==> a < s[k];
  }

  lemma {:induction false} BinarySearchFinds(s: seq<AccountId>, a: AccountId, lo: nat, hi: nat)
    requires Strict(s) && lo <= hi <= |s|
    ensures BinarySearch(s, a, lo, hi).Some? <==> a in s[lo..hi]
    decreases hi - lo
  {
    if lo >= hi {
    } else {
      var mid := (lo + hi) / 2;
      if s[mid] < a {
        BinarySearchFinds(s, a, mid + 1, hi);
        SearchRight(s, a, lo, mid, hi);
      } else if s[mid] > a {
        BinarySearchFinds(s, a, lo, mid);
        SearchLeft(s, a, lo, mid, hi);
      } else {
        assert s[lo..hi][mid - lo] == a;
      }
    }
  }

  /** The other signatories, provided the signer is one of the party. */
  function CoSigners(p: Party, signer: AccountId): Option<seq<AccountId>> {
    match BinarySearch(p.signatories, signer, 0, |p.signatories|)
    case None => None
    case Some(i) => Some(p.signatories[..i] + p.signatories[i + 1..])
  }

  lemma RemoveOne(s: seq<AccountId>, i: nat)
    requires Strict(s) && i < |s|
    ensures Strict(s[..i] + s[i + 1..])
    ensures Members(s[..i] + s[i + 1..]) == Members(s) - {s[i]}
  {
    var rest := s[..i] + s[i + 1..];
    assert s == s[..i] + [s[i]] + s[i + 1..];
    assert s[i] !in s[..i] && s[i] !in s[i + 1..];
    assert forall k :: 0 <= k < |rest| ==> rest[k] == s[if k < i then k else k + 1];
  }

  /** The list passed on is the party without the signer, still strictly sorted, and there is one
      exactly for the members of the party. */
  lemma CoSignersCorrect(p: Party, signer: AccountId)
    requires Strict(p.signatories)
    ensures CoSigners(p, signer).Some? <==> signer in p.signatories
    ensures CoSigners(p, signer).Some? ==>
              && Strict(CoSigners(p, signer).value)
              && Members(CoSigners(p, signer).value) == Members(p.signatories) - {signer}
  {
    var s := p.signatories;
    BinarySearchFinds(s, signer, 0, |s|);
    assert s[0..|s|] == s;
    if CoSigners(p, signer).Some? {
      var i := BinarySearch(s, signer, 0, |s|).value;
      RemoveOne(s, i);
    }
  }
}
