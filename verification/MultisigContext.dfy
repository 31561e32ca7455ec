/** The client-side context of a signature aggregation, from its start to its closing. Contexts are
    values that each call consumes and returns, as the typestate API does. */
module MultisigContext {
  import opened Arithmetic
  import opened MultisigParty

  type Call = nat
  type CallHash = nat
  /** The hash of calls is a parameter. */
  type HashOf = Call -> CallHash

  datatype Context = Context(
    party: Party,
    author: AccountId,
    timepoint: nat,
    maxWeight: nat,
    call: Option<Call>,
    callHash: CallHash,
    approvers: set<AccountId>)

  datatype AfterUse = Ongoing(context: Context) | Closed(context: Context)

  function NewContext(party: Party, author: AccountId, timepoint: nat, maxWeight: nat, call: Option<Call>,
                      callHash: CallHash): Context {
    Context(party, author, timepoint, maxWeight, call, callHash, {author})
  }

  function SetCall(hash: HashOf, c: Context, call: Call): Option<Context> {
    if c.callHash == hash(call) then Some(c.(call := Some(call))) else None
  }

  function AddApproval(c: Context, approver: AccountId): AfterUse {
    var c' := c.(approvers := c.approvers + {approver});
    if c'.call.Some? && |c'.approvers| >= c'.party.threshold then Closed(c') else Ongoing(c')
  }

  // The calls of the contextual API. `accepted` is whether the chain took the transaction; `None`
  // stands for any error.

  function Initiate(party: Party, signer: AccountId, maxWeight: nat, callHash: CallHash,
                    timepoint: nat, accepted: bool): Option<Context> {
    if CoSigners(party, signer).Some? && accepted
    then Some(NewContext(party, signer, timepoint, maxWeight, None, callHash)) else None
  }

  function InitiateWithCall(hash: HashOf, party: Party, signer: AccountId, maxWeight: nat, call: Call,
                            timepoint: nat, accepted: bool): Option<Context> {
    if CoSigners(party, signer).Some? && accepted
    then Some(NewContext(party, signer, timepoint, maxWeight, Some(call), hash(call))) else None
  }

  function Approve(c: Context, signer: AccountId, accepted: bool): Option<AfterUse> {
    if CoSigners(c.party, signer).Some? && accepted then Some(AddApproval(c, signer)) else None
  }

  function ApproveWithCall(hash: HashOf, c: Context, signer: AccountId, call: Option<Call>, accepted: bool): Option<AfterUse> {
    if CoSigners(c.party, signer).None? then None else
    var withCall :=
      match (call, c.call)
      case (None, None) => None
      case (None, Some(_)) => Some(c)
      case (Some(given), None) => SetCall(hash, c, given)
      case (Some(given), Some(stored)) => if given == stored then Some(c) else None;
    if withCall.Some? && accepted then Some(AddApproval(withCall.value, signer)) else None
  }

  function Cancel(c: Context, signer: AccountId, accepted: bool): Option<Context> {
    if CoSigners(c.party, signer).Some? && signer == c.author && accepted then Some(c) else None
  }

  // ---------------------------------------------------------------- runs

  datatype Use =
    | ApproveBy(signer: AccountId, accepted: bool)
    | ApproveWithCallBy(signer: AccountId, call: Option<Call>, accepted: bool)
    | CancelBy(signer: AccountId, accepted: bool)
    | ChangeMaxWeight(maxWeight: nat)

  datatype Phase = Live(context: Context) | Approved(context: Context) | Cancelled(context: Context, canceller: AccountId)

  function PhaseOf(c: Context, after: Option<AfterUse>): Phase {
    match after
    case None => Live(c)
    case Some(Ongoing(c')) => Live(c')
    case Some(Closed(c')) => Approved(c')
  }

  /** A failed call leaves the caller with the context as it was; a closed one accepts no calls. */
  function UseOnce(hash: HashOf, p: Phase, u: Use): Phase {
    if !p.Live? then p else
    match u
    case ApproveBy(signer, accepted) => PhaseOf(p.context, Approve(p.context, signer, accepted))
    case ApproveWithCallBy(signer, call, accepted) =>
      PhaseOf(p.context, ApproveWithCall(hash, p.context, signer, call, accepted))
    case CancelBy(signer, accepted) =>
      (match Cancel(p.context, signer, accepted)
       case Some(c) => Cancelled(c, signer)
       case None => p)
    case ChangeMaxWeight(w) => Live(p.context.(maxWeight := w))
  }

  function UseAll(hash: HashOf, p: Phase, uses: seq<Use>): Phase
    decreases |uses|
  {
    if uses == [] then p else UseAll(hash, UseOnce(hash, p, uses[0]), uses[1..])
  }

  predicate ValidParty(p: Party) {
    Strict(p.signatories) && 2 <= p.threshold <= |p.signatories|
  }

  lemma CreatedIsValid(signatories: seq<AccountId>, party: Party)
    requires NewParty(signatories, party.threshold) == Created(party)
    ensures ValidParty(party) && Members(party.signatories) == Members(signatories)
  {
    PartyCanonical(signatories, party.threshold);
    StrictSize(party.signatories);
  }

  /** What holds of a context at any time: approvers are members of the party and include the author,
      and a stored call is the one whose hash was registered. */
  predicate Faithful(hash: HashOf, c: Context) {
    && ValidParty(c.party)
    && c.author in c.approvers
    && c.approvers <= Members(c.party.signatories)
    && (c.call.Some? ==> hash(c.call.value) == c.callHash)
  }

  predicate PhaseOk(hash: HashOf, p: Phase) {
    && Faithful(hash, p.context)
    && match p
       case Live(c) => c.call.Some? ==> |c.approvers| < c.party.threshold
       case Approved(c) => c.call.Some? && |c.approvers| >= c.party.threshold
       case Cancelled(c, canceller) => canceller == c.author
  }

  /** Two contexts of the same aggregation, the second with at least the approvals of the first. */
  predicate Continues(c: Context, c': Context) {
    && c'.party == c.party && c'.author == c.author && c'.callHash == c.callHash && c'.timepoint == c.timepoint
    && c.approvers <= c'.approvers
  }

  lemma ApprovalKeepsPhase(hash: HashOf, c: Context, signer: AccountId)
    requires Faithful(hash, c) && signer in c.party.signatories
    ensures var p := PhaseOf(c, Some(AddApproval(c, signer))); PhaseOk(hash, p) && Continues(c, p.context)
  {}

  lemma ApproveKeepsPhase(hash: HashOf, c: Context, signer: AccountId, accepted: bool)
    requires PhaseOk(hash, Live(c))
    ensures var p := PhaseOf(c, Approve(c, signer, accepted)); PhaseOk(hash, p) && Continues(c, p.context)
  {
    if Approve(c, signer, accepted).Some? {
      CoSignersCorrect(c.party, signer);
      ApprovalKeepsPhase(hash, c, signer);
    }
  }

  lemma ApproveWithCallKeepsPhase(hash: HashOf, c: Context, signer: AccountId, call: Option<Call>, accepted: bool)
    requires PhaseOk(hash, Live(c))
    ensures var p := PhaseOf(c, ApproveWithCall(hash, c, signer, call, accepted)); PhaseOk(hash, p) && Continues(c, p.context)
  {
    if ApproveWithCall(hash, c, signer, call, accepted).Some? {
      CoSignersCorrect(c.party, signer);
      var withCall := if c.call.None? then c.(call := call) else c;
      assert ApproveWithCall(hash, c, signer, call, accepted) == Some(AddApproval(withCall, signer));
      ApprovalKeepsPhase(hash, withCall, signer);
    }
  }

  lemma UseKeepsPhase(hash: HashOf, p: Phase, u: Use)
    requires PhaseOk(hash, p)
    ensures PhaseOk(hash, UseOnce(hash, p, u)) && Continues(p.context, UseOnce(hash, p, u).context)
  {
    if p.Live? {
      match u
      case ApproveBy(signer, accepted) => ApproveKeepsPhase(hash, p.context, signer, accepted);
      case ApproveWithCallBy(signer, call, accepted) =>
        ApproveWithCallKeepsPhase(hash, p.context, signer, call, accepted);
      case CancelBy(_, _) =>
      case ChangeMaxWeight(_) =>
    }
  }

  lemma {:induction false} UsesKeepPhase(hash: HashOf, p: Phase, uses: seq<Use>)
    requires PhaseOk(hash, p)
    ensures var end := UseAll(hash, p, uses);
            PhaseOk(hash, end) && Continues(p.context, end.context)
    decreases |uses|
  {
    if uses == [] {
    } else {
      UseKeepsPhase(hash, p, uses[0]);
      UsesKeepPhase(hash, UseOnce(hash, p, uses[0]), uses[1..]);
    }
  }

  /** A context is started exactly by a member whose transaction the chain accepts, with the author as its
      only approver and everything else as given. */
  lemma StartedIff(hash: HashOf, party: Party, signer: AccountId, maxWeight: nat, call: Call, callHash: CallHash,
                   timepoint: nat, accepted: bool)
    requires ValidParty(party)
    ensures Initiate(party, signer, maxWeight, callHash, timepoint, accepted)
            == if signer in party.signatories && accepted
                 then Some(Context(party, signer, timepoint, maxWeight, None, callHash, {signer})) else None
    ensures InitiateWithCall(hash, party, signer, maxWeight, call, timepoint, accepted)
            == if signer in party.signatories && accepted
                 then Some(Context(party, signer, timepoint, maxWeight, Some(call), hash(call), {signer})) else None
  {
    CoSignersCorrect(party, signer);
  }

  /** The weight limit changes only on demand, and only while the context is open. */
  lemma WeightFollows(hash: HashOf, p: Phase, u: Use)
    ensures UseOnce(hash, p, u).context.maxWeight
            == if p.Live? && u.ChangeMaxWeight? then u.maxWeight else p.context.maxWeight
  {}

  predicate KeepWeight(uses: seq<Use>) {
    forall i :: 0 <= i < |uses| ==> !uses[i].ChangeMaxWeight?
  }

  lemma {:induction false} WeightKept(hash: HashOf, p: Phase, uses: seq<Use>)
    requires KeepWeight(uses)
    ensures UseAll(hash, p, uses).context.maxWeight == p.context.maxWeight
    decreases |uses|
  {
    if uses == [] {
    } else {
      WeightFollows(hash, p, uses[0]);
      WeightKept(hash, UseOnce(hash, p, uses[0]), uses[1..]);
    }
  }

  /** CONTEXTS STAY FAITHFUL. However a context was started and used, its approvers are members
      including the author, its call matches the hash it was started for, it is still open only while a
      stored call lacks approvals, and it closes by approval only with a call and a met threshold, or
      by cancelling only at the author's hand. */
  lemma ContextStaysFaithful(hash: HashOf, signatories: seq<AccountId>, party: Party, signer: AccountId, maxWeight: nat,
                             call: Option<Call>, callHash: CallHash, timepoint: nat, uses: seq<Use>)
    requires NewParty(signatories, party.threshold) == Created(party)
    requires signer in signatories
    ensures var started := if call.Some? then InitiateWithCall(hash, party, signer, maxWeight, call.value, timepoint, true)
                           else Initiate(party, signer, maxWeight, callHash, timepoint, true);
            && started.Some?
            && var end := UseAll(hash, Live(started.value), uses);
               && PhaseOk(hash, end)
               && end.context.party == party && end.context.author == signer
               && end.context.callHash == (if call.Some? then hash(call.value) else callHash)
               && end.context.timepoint == timepoint
               && (KeepWeight(uses) ==> end.context.maxWeight == maxWeight)
  {
    CreatedIsValid(signatories, party);
    CoSignersCorrect(party, signer);
    assert signer in Members(party.signatories);
    var started := if call.Some? then InitiateWithCall(hash, party, signer, maxWeight, call.value, timepoint, true)
                   else Initiate(party, signer, maxWeight, callHash, timepoint, true);
    UsesKeepPhase(hash, Live(started.value), uses);
    if KeepWeight(uses) {
      WeightKept(hash, Live(started.value), uses);
    }
  }

  // ---------------------------------------------------------------- the documented bound

  /** The bound documented for the set of approvers of any context, open or closed: always fewer than
      the threshold. */
  predicate BelowThreshold(c: Context) {
    |c.approvers| < c.party.threshold
  }

  /** The approval of a new signer reaches the threshold. */
  predicate Completes(c: Context, signer: AccountId) {
    signer !in c.approvers && |c.approvers| + 1 >= c.party.threshold
  }

  lemma AddedApprover(c: Context, signer: AccountId)
    ensures BelowThreshold(AddApproval(c, signer).context) <==> BelowThreshold(c) && !Completes(c, signer)
    ensures AddApproval(c, signer).Closed? <==> c.call.Some? && !BelowThreshold(AddApproval(c, signer).context)
  {
    if signer in c.approvers {
      assert c.approvers + {signer} == c.approvers;
    }
  }

  /** An approval leads to a context beyond the documented bound exactly when it was beyond it before or
      a new member meets the threshold; that context is still open exactly when no call is stored. */
  lemma BoundBrokenIff(c: Context, signer: AccountId)
    requires ValidParty(c.party)
    ensures Approve(c, signer, true).Some? <==> signer in c.party.signatories
    ensures Approve(c, signer, true).Some? ==>
              var after := Approve(c, signer, true).value;
              && (!BelowThreshold(after.context) <==> !BelowThreshold(c) || Completes(c, signer))
              && (!BelowThreshold(after.context) ==> (after.Ongoing? <==> c.call == None))
              && (BelowThreshold(after.context) ==> after.Ongoing?)
  {
    CoSignersCorrect(c.party, signer);
    AddedApprover(c, signer);
  }

  /** The call an approval with a call goes by, if there is one: the stored one, or the one passed when
      its hash is the registered one. */
  function AgreedCall(hash: HashOf, callHash: CallHash, stored: Option<Call>, passed: Option<Call>): Option<Call> {
    match (passed, stored)
    case (None, _) => stored
    case (Some(call), None) => if hash(call) == callHash then passed else None
    case (Some(call), Some(kept)) => if call == kept then stored else None
  }

  /** The same for an approval with a call, which closes every context it takes beyond the bound. */
  lemma BoundBrokenWithCallIff(hash: HashOf, c: Context, signer: AccountId, call: Option<Call>)
    requires ValidParty(c.party)
    ensures ApproveWithCall(hash, c, signer, call, true).Some?
            <==> signer in c.party.signatories && AgreedCall(hash, c.callHash, c.call, call).Some?
    ensures ApproveWithCall(hash, c, signer, call, true).Some? ==>
              var after := ApproveWithCall(hash, c, signer, call, true).value;
              && after.context.call == AgreedCall(hash, c.callHash, c.call, call)
              && (!BelowThreshold(after.context) <==> !BelowThreshold(c) || Completes(c, signer))
              && (after.Closed? <==> !BelowThreshold(after.context))
  {
    CoSignersCorrect(c.party, signer);
    var agreed := AgreedCall(hash, c.callHash, c.call, call);
    if signer in c.party.signatories && agreed.Some? {
      var withCall := c.(call := agreed);
      assert ApproveWithCall(hash, c, signer, call, true) == Some(AddApproval(withCall, signer));
      AddedApprover(withCall, signer);
    }
  }

  // The run as seen from outside: which calls count, with no regard to thresholds and to closing.

  datatype Tally = Tally(call: Option<Call>, signers: set<AccountId>)

  /** An accepted call by a member whose call, if it needs one, is the agreed one. */
  function Counted(hash: HashOf, party: Party, callHash: CallHash, t: Tally, u: Use): Tally {
    match u
    case ApproveBy(signer, accepted) =>
      if accepted && signer in party.signatories then t.(signers := t.signers + {signer}) else t
    case ApproveWithCallBy(signer, call, accepted) =>
      var agreed := AgreedCall(hash, callHash, t.call, call);
      if accepted && signer in party.signatories && agreed.Some? then Tally(agreed, t.signers + {signer}) else t
    case _ => t
  }

  predicate Cancels(author: AccountId, u: Use) {
    u.CancelBy? && u.accepted && u.signer == author
  }

  /** Everything that counts before the author cancels. */
  function Count(hash: HashOf, party: Party, author: AccountId, callHash: CallHash, t: Tally, uses: seq<Use>): Tally
    decreases |uses|
  {
    if uses == [] || Cancels(author, uses[0]) then t
    else Count(hash, party, author, callHash, Counted(hash, party, callHash, t, uses[0]), uses[1..])
  }

  lemma {:induction false} CountGrows(hash: HashOf, party: Party, author: AccountId, callHash: CallHash, t: Tally, uses: seq<Use>)
    ensures var end := Count(hash, party, author, callHash, t, uses);
            t.signers <= end.signers && (t.call.Some? ==> end.call == t.call)
    decreases |uses|
  {
    if uses == [] || Cancels(author, uses[0]) {
    } else {
      CountGrows(hash, party, author, callHash, Counted(hash, party, callHash, t, uses[0]), uses[1..]);
    }
  }

  function TallyOf(c: Context): Tally {
    Tally(c.call, c.approvers)
  }

  lemma ApproveCounts(hash: HashOf, c: Context, signer: AccountId, accepted: bool)
    requires ValidParty(c.party)
    ensures TallyOf(PhaseOf(c, Approve(c, signer, accepted)).context)
            == Counted(hash, c.party, c.callHash, TallyOf(c), ApproveBy(signer, accepted))
  {
    CoSignersCorrect(c.party, signer);
  }

  lemma ApproveWithCallCounts(hash: HashOf, c: Context, signer: AccountId, call: Option<Call>, accepted: bool)
    requires ValidParty(c.party)
    ensures TallyOf(PhaseOf(c, ApproveWithCall(hash, c, signer, call, accepted)).context)
            == Counted(hash, c.party, c.callHash, TallyOf(c), ApproveWithCallBy(signer, call, accepted))
  {
    CoSignersCorrect(c.party, signer);
  }

  lemma UseCounts(hash: HashOf, c: Context, u: Use)
    requires ValidParty(c.party) && !Cancels(c.author, u)
    ensures var p := UseOnce(hash, Live(c), u);
            && !p.Cancelled?
            && TallyOf(p.context) == Counted(hash, c.party, c.callHash, TallyOf(c), u)
  {
    match u
    case ApproveBy(signer, accepted) => ApproveCounts(hash, c, signer, accepted);
    case ApproveWithCallBy(signer, call, accepted) => ApproveWithCallCounts(hash, c, signer, call, accepted);
    case CancelBy(_, _) =>
    case ChangeMaxWeight(_) =>
  }

  lemma {:induction false} ClosedStays(hash: HashOf, p: Phase, uses: seq<Use>)
    requires !p.Live?
    ensures UseAll(hash, p, uses) == p
    decreases |uses|
  {
    if uses == [] {
    } else {
      ClosedStays(hash, p, uses[1..]);
    }
  }

  lemma CancelUse(hash: HashOf, c: Context, u: Use)
    requires PhaseOk(hash, Live(c)) && Cancels(c.author, u)
    ensures UseOnce(hash, Live(c), u) == Cancelled(c, c.author)
  {
    CoSignersCorrect(c.party, c.author);
    assert c.author in Members(c.party.signatories);
  }

  /** The context a run ends in is beyond the bound exactly when enough members counted, and it was closed
      by approval exactly when besides a call was agreed on. */
  predicate EndsAsCounted(end: Phase, t: Tally) {
    && (!BelowThreshold(end.context) <==> |t.signers| >= end.context.party.threshold)
    && (end.Approved? <==> |t.signers| >= end.context.party.threshold && t.call.Some?)
  }

  lemma {:induction false} RunEndsAsCounted(hash: HashOf, c: Context, uses: seq<Use>)
    requires PhaseOk(hash, Live(c))
    ensures EndsAsCounted(UseAll(hash, Live(c), uses),
                          Count(hash, c.party, c.author, c.callHash, TallyOf(c), uses))
    decreases |uses|
  {
    if uses == [] {
    } else if Cancels(c.author, uses[0]) {
      CancelUse(hash, c, uses[0]);
      ClosedStays(hash, Cancelled(c, c.author), uses[1..]);
    } else {
      var p := UseOnce(hash, Live(c), uses[0]);
      UseCounts(hash, c, uses[0]);
      UseKeepsPhase(hash, Live(c), uses[0]);
      if p.Live? {
        RunEndsAsCounted(hash, p.context, uses[1..]);
      } else {
        ClosedStays(hash, p, uses[1..]);
        CountGrows(hash, c.party, c.author, c.callHash, TallyOf(p.context), uses[1..]);
        SubsetSize(p.context.approvers, Count(hash, c.party, c.author, c.callHash, TallyOf(p.context), uses[1..]).signers);
      }
    }
  }

  /** WHEN THE DOCUMENTED BOUND FAILS. However a context was started and used, it ends beyond the bound
      exactly when the author and the members whose approvals count before a cancellation reach the
      threshold, and then it is closed by approval exactly when a call was agreed on. */
  lemma BoundBrokenInRun(hash: HashOf, signatories: seq<AccountId>, party: Party, signer: AccountId, maxWeight: nat,
                         call: Option<Call>, callHash: CallHash, timepoint: nat, uses: seq<Use>)
    requires NewParty(signatories, party.threshold) == Created(party)
    requires signer in signatories
    ensures var started := if call.Some? then InitiateWithCall(hash, party, signer, maxWeight, call.value, timepoint, true)
                           else Initiate(party, signer, maxWeight, callHash, timepoint, true);
            && started.Some?
            && EndsAsCounted(UseAll(hash, Live(started.value), uses),
                             Count(hash, party, signer, if call.Some? then hash(call.value) else callHash,
                                   Tally(call, {signer}), uses))
  {
    ContextStaysFaithful(hash, signatories, party, signer, maxWeight, call, callHash, timepoint, []);
    var started := if call.Some? then InitiateWithCall(hash, party, signer, maxWeight, call.value, timepoint, true)
                   else Initiate(party, signer, maxWeight, callHash, timepoint, true);
    RunEndsAsCounted(hash, started.value, uses);
  }

  /** Two of three members break it, with the context still open when they approve a hash and with the
      context closed when they approve a call. */
  lemma BoundBroken(hash: HashOf, call: Call)
    ensures var party := Party([1, 2, 3], 2);
            && ValidParty(party)
            && Initiate(party, 1, 0, 7, 0, true).Some? && InitiateWithCall(hash, party, 1, 0, call, 0, true).Some?
            && var open, closed := Approve(Initiate(party, 1, 0, 7, 0, true).value, 2, true),
                                   Approve(InitiateWithCall(hash, party, 1, 0, call, 0, true).value, 2, true);
               && open.Some? && open.value.Ongoing? && !BelowThreshold(open.value.context)
               && closed.Some? && closed.value.Closed? && !BelowThreshold(closed.value.context)
  {
    var party := Party([1, 2, 3], 2);
    CoSignersCorrect(party, 1);
    BoundBrokenIff(NewContext(party, 1, 0, 0, None, 7), 2);
    BoundBrokenIff(NewContext(party, 1, 0, 0, Some(call), hash(call)), 2);
  }

  /** Once its call is stored a context meets the bound for as long as it is open. */
  lemma BoundHoldsWithCall(hash: HashOf, p: Phase, uses: seq<Use>)
    requires PhaseOk(hash, p) && p.context.call.Some?
    ensures UseAll(hash, p, uses).Live? ==> BelowThreshold(UseAll(hash, p, uses).context)
  {
    UsesKeepPhase(hash, p, uses);
    CallStaysStored(hash, p, uses);
  }

  lemma {:induction false} CallStaysStored(hash: HashOf, p: Phase, uses: seq<Use>)
    requires p.context.call.Some?
    ensures UseAll(hash, p, uses).context.call == p.context.call
    decreases |uses|
  {
    if uses == [] {
    } else {
      CallStaysStored(hash, UseOnce(hash, p, uses[0]), uses[1..]);
    }
  }

  // ---------------------------------------------------------------- the context object

  class OngoingContext {
    const party: Party
    const author: AccountId
    const timepoint: nat
    const callHash: CallHash
    var maxWeight: nat
    var call: Option<Call>
    var approvers: set<AccountId>

    ghost function Value(): Context
      reads this
    {
      Context(party, author, timepoint, maxWeight, call, callHash, approvers)
    }

    constructor (party: Party, author: AccountId, timepoint: nat, maxWeight: nat, call: Option<Call>, callHash: CallHash)
      ensures Value() == NewContext(party, author, timepoint, maxWeight, call, callHash)
    {
      this.party, this.author, this.timepoint, this.callHash := party, author, timepoint, callHash;
      this.maxWeight, this.call, this.approvers := maxWeight, call, {author};
    }

    method ChangeMaxWeight(maxWeight: nat)
      modifies this`maxWeight
      ensures Value() == old(Value()).(maxWeight := maxWeight)
    {
      this.maxWeight := maxWeight;
    }

    /** Stores the call if its hash is the registered one. */
    method StoreCall(hash: HashOf, call: Call) returns (ok: bool)
      modifies this`call
      ensures match SetCall(hash, old(Value()), call)
              case Some(c) => ok && Value() == c
              case None => !ok && Value() == old(Value())
      ensures Faithful(hash, old(Value())) ==> Faithful(hash, Value())
    {
      ok := callHash == hash(call);
      if ok {
        this.call := Some(call);
      }
    }

    /** Registers an approval; tells whether the aggregation is now closed. */
    method RegisterApproval(approver: AccountId) returns (closed: bool)
      modifies this`approvers
      ensures AddApproval(old(Value()), approver) == if closed then Closed(Value()) else Ongoing(Value())
    {
      approvers := approvers + {approver};
      closed := call.Some? && |approvers| >= party.threshold;
    }
  }
}
