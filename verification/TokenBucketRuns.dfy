/** What a token bucket guarantees over whole runs: conservation of tokens and the rate bound. */
module TokenBucketRuns {
  import opened Arithmetic
  import opened TokenBucket

  datatype Call = Call(units: usize, at: nat)

  /** The bucket after a run of calls, and the answer of the last one. */
  function After(rate: usize, start: nat, calls: seq<Call>): (b: Bucket)
    requires rate > 0
    ensures Sound(b) && b.rate == rate
    decreases |calls|, 1
  {
    if calls == [] then NewBucket(rate, start) else Answer(rate, start, calls).0
  }

  function Answer(rate: usize, start: nat, calls: seq<Call>): (r: (Bucket, Option<nat>))
    requires rate > 0 && calls != []
    ensures Sound(r.0) && r.0.rate == rate
    decreases |calls|, 0
  {
    var before := After(rate, start, Front(calls));
    RateLimitKeepsSound(before, Last(calls).units, Last(calls).at);
    RateLimited(before, Last(calls).units, Last(calls).at)
  }

  function Front(calls: seq<Call>): seq<Call>
    requires calls != []
  {
    calls[..|calls| - 1]
  }

  function Last(calls: seq<Call>): Call
    requires calls != []
  {
    calls[|calls| - 1]
  }

  function Total(calls: seq<Call>): nat {
    if calls == [] then 0 else Total(Front(calls)) + Last(calls).units
  }

  /** The earliest instant a caller who waits out every returned delay makes its next call. */
  function Ready(rate: usize, start: nat, calls: seq<Call>): nat
    requires rate > 0
  {
    if calls == [] then start else
    match Answer(rate, start, calls).1
    case None => Last(calls).at
    case Some(micros) => Last(calls).at + micros * NANOS_PER_MICRO
  }

  /** No call is made before the delay returned by the previous one has elapsed. */
  predicate Compliant(rate: usize, start: nat, calls: seq<Call>)
    requires rate > 0
  {
    calls != [] ==>
      && Compliant(rate, start, Front(calls))
      && Last(calls).at >= Ready(rate, start, Front(calls))
  }

  /** Calls are made in order of time, with no regard to the delays. */
  predicate Chronological(start: nat, calls: seq<Call>) {
    calls != [] ==>
      && Chronological(start, Front(calls))
      && Last(calls).at >= (if Front(calls) == [] then start else Last(Front(calls)).at)
  }

  /** Whole tokens a source of `rate` per second produces between two instants. */
  function Produced(rate: nat, from: nat, to: nat): nat {
    MulNonNegative(rate, Micros(from, to));
    rate * Micros(from, to) / MICROS_PER_SECOND
  }

  // ---------------------------------------------------------------- conservation

  /** Tokens added by the refill of a call, and tokens thrown away by its cap. */
  function Gain(b: Bucket, call: Call): nat {
    if NeedsUpdate(b, call.units) then SatAdd(b.available, NewUnits(b, call.at), USIZE_MAX) - b.available else 0
  }

  function Spill(b: Bucket, call: Call): nat {
    if NeedsUpdate(b, call.units) then
      Monus(Monus(b.available + Gain(b, call), b.requested), b.rate)
    else 0
  }

  function TotalGain(rate: usize, start: nat, calls: seq<Call>): nat
    requires rate > 0
  {
    if calls == [] then 0 else
    TotalGain(rate, start, Front(calls)) + Gain(After(rate, start, Front(calls)), Last(calls))
  }

  function TotalSpill(rate: usize, start: nat, calls: seq<Call>): nat
    requires rate > 0
  {
    if calls == [] then 0 else
    TotalSpill(rate, start, Front(calls)) + Spill(After(rate, start, Front(calls)), Last(calls))
  }

  /** The debt a call would leave if nothing were available: what the bucket may have to record. */
  function Owed(b: Bucket, call: Call): nat {
    (if NeedsUpdate(b, call.units) then Refilled(b, call.at).requested else 0) + call.units
  }

  predicate OwedWithin(rate: usize, start: nat, calls: seq<Call>, limit: nat)
    requires rate > 0
  {
    calls != [] ==>
      && OwedWithin(rate, start, Front(calls), limit)
      && Owed(After(rate, start, Front(calls)), Last(calls)) <= limit
  }

  /** Debts up to this size have delays that do not saturate. */
  const MAX_DEBT: nat := USIZE_MAX / MICROS_PER_SECOND

  lemma {:induction false} OwedWithinMore(rate: usize, start: nat, calls: seq<Call>, limit: nat, more: nat)
    requires rate > 0 && limit <= more && OwedWithin(rate, start, calls, limit)
    ensures OwedWithin(rate, start, calls, more)
  {
    if calls == [] {
    } else {
      OwedWithinMore(rate, start, Front(calls), limit, more);
    }
  }

  /** Debt that a saturated counter does not record. */
  function Forgiven(b: Bucket, call: Call): nat {
    Monus(Owed(b, call), USIZE_MAX)
  }

  function TotalForgiven(rate: usize, start: nat, calls: seq<Call>): nat
    requires rate > 0
  {
    if calls == [] then 0 else
    TotalForgiven(rate, start, Front(calls)) + Forgiven(After(rate, start, Front(calls)), Last(calls))
  }

  lemma {:induction false} NothingForgiven(rate: usize, start: nat, calls: seq<Call>)
    requires rate > 0
    ensures TotalForgiven(rate, start, calls) == 0 <==> OwedWithin(rate, start, calls, USIZE_MAX)
  {
    if calls == [] {
    } else {
      NothingForgiven(rate, start, Front(calls));
    }
  }

  lemma CallConserves(b: Bucket, call: Call)
    requires Sound(b) && b.rate > 0
    ensures var b' := RateLimited(b, call.units, call.at).0;
            b'.available - b'.requested
            == b.available - b.requested + Gain(b, call) - Spill(b, call) - call.units + Forgiven(b, call)
  {}

  /** Tokens are neither created nor lost: the balance is the initial stock plus every refill, minus
      what the cap discarded, minus every request, plus what a saturated counter forgave. */
  lemma {:induction false} TokensConserved(rate: usize, start: nat, calls: seq<Call>)
    requires rate > 0
    ensures var b := After(rate, start, calls);
            b.available - b.requested
            == rate + TotalGain(rate, start, calls) - TotalSpill(rate, start, calls) - Total(calls)
               + TotalForgiven(rate, start, calls)
    ensures TotalForgiven(rate, start, calls) == 0 <==> OwedWithin(rate, start, calls, USIZE_MAX)
  {
    NothingForgiven(rate, start, calls);
    if calls == [] {
    } else {
      TokensConserved(rate, start, Front(calls));
      CallConserves(After(rate, start, Front(calls)), Last(calls));
    }
  }

  // ---------------------------------------------------------------- what a call answers

  /** What a bucket is worth at an instant, negative in debt: its balance and the production since its last
      update, within the burst and the counter. Times are nanoseconds, of which whole microseconds count. */
  function Credit(b: Bucket, now: nat): int {
    var micros := Monus(now, b.lastUpdate) / 1_000;
    MulNonNegative(b.rate, micros);
    Min(b.rate, Min(b.available + b.rate * micros / 1_000_000, USIZE_MAX) - b.requested)
  }

  lemma UnitsExact(b: Bucket, now: nat)
    ensures NewUnits(b, now) == Min(b.rate * (Monus(now, b.lastUpdate) / 1_000) / 1_000_000, USIZE_MAX)
  {
    var micros := Monus(now, b.lastUpdate) / 1_000;
    assert micros * b.rate == b.rate * micros;
    MulNonNegative(b.rate, micros);
    if b.rate * micros > U128_MAX {
      FloorMonotone(U128_MAX, b.rate * micros, 1_000_000);
    }
  }

  /** A refill brings the bucket to what it is worth, with debt or without. */
  lemma RefillExact(b: Bucket, now: nat)
    requires Sound(b)
    ensures var u := Refilled(b, now);
            && u.available - u.requested == Credit(b, now)
            && (u.available == 0 || u.requested == 0)
            && u.rate == b.rate && u.lastUpdate == now
  {
    UnitsExact(b, now);
    FloorAtLeast(b.rate * (Monus(now, b.lastUpdate) / 1_000), 1_000_000, 0);
  }

  lemma CallAnswer(b: Bucket, call: Call)
    requires Sound(b) && b.rate > 0
    ensures var answer := RateLimited(b, call.units, call.at).1;
            && (answer == None <==> call.units == 0 || call.units <= Credit(b, call.at))
            && (answer.Some? && call.units - Credit(b, call.at) <= MAX_DEBT ==>
                  answer.value == (call.units - Credit(b, call.at)) * 1_000_000 / b.rate)
  {
    RefillExact(b, call.at);
    FloorAtLeast(b.rate * (Monus(call.at, b.lastUpdate) / 1_000), 1_000_000, 0);
  }

  /** A call the stock covers takes its tokens and leaves the clock alone; any other one settles the bucket
      at what it is worth now, less the request. */
  lemma CallBalance(b: Bucket, call: Call)
    requires Sound(b) && b.rate > 0
    ensures var after := RateLimited(b, call.units, call.at).0;
            if b.requested == 0 && call.units <= b.available then
              after == Bucket(b.rate, b.available - call.units, 0, b.lastUpdate)
            else
              after.rate == b.rate && after.lastUpdate == call.at
              && after.available - after.requested == Credit(b, call.at) - call.units + Forgiven(b, call)
  {
    RefillExact(b, call.at);
  }

  /** THE ANSWER IS EXACT. In every run a call goes through at once exactly when what the bucket is worth
      covers it, and otherwise is told to wait for as long as the rate takes to produce what is missing. */
  lemma AnswerExact(rate: usize, start: nat, calls: seq<Call>)
    requires rate > 0 && calls != []
    ensures var call, answer := Last(calls), Answer(rate, start, calls).1;
            var credit := Credit(After(rate, start, Front(calls)), call.at);
            && (answer == None <==> call.units == 0 || call.units <= credit)
            && (answer.Some? && call.units - credit <= MAX_DEBT ==>
                  answer.value == (call.units - credit) * 1_000_000 / rate)
  {
    CallAnswer(After(rate, start, Front(calls)), Last(calls));
  }

  /** Every request is within the burst and at least a second after the one before. */
  predicate Spaced(rate: nat, start: nat, calls: seq<Call>) {
    calls != [] ==>
      && Spaced(rate, start, Front(calls))
      && Last(calls).units <= rate
      && Last(calls).at >= (if Front(calls) == [] then start else Last(Front(calls)).at + 1_000_000_000)
  }

  lemma FullAfterSecond(b: Bucket, now: nat)
    requires Sound(b) && b.requested == 0 && now >= b.lastUpdate + 1_000_000_000
    ensures Credit(b, now) == b.rate
  {
    var micros := (now - b.lastUpdate) / 1_000;
    FloorAtLeast(now - b.lastUpdate, 1_000, 1_000_000);
    MulMonotone(1_000_000, micros, b.rate);
    FloorAtLeast(b.rate * micros, 1_000_000, b.rate);
  }

  /** NO NEEDLESS WAITING. A caller that asks for no more than the burst once a second is never delayed. */
  lemma {:induction false} SpacedNeverDelayed(rate: usize, start: nat, calls: seq<Call>)
    requires rate > 0 && Spaced(rate, start, calls)
    ensures After(rate, start, calls).requested == 0
    ensures start <= After(rate, start, calls).lastUpdate <= (if calls == [] then start else Last(calls).at)
    ensures calls != [] ==> Answer(rate, start, calls).1 == None
  {
    if calls == [] {
    } else {
      var b, call := After(rate, start, Front(calls)), Last(calls);
      SpacedNeverDelayed(rate, start, Front(calls));
      if Front(calls) == [] {
        assert b == NewBucket(rate, start);
      } else {
        FullAfterSecond(b, call.at);
        CallAnswer(b, call);
        RefillExact(b, call.at);
      }
    }
  }

  // ---------------------------------------------------------------- the rate bound

  lemma {:induction false} LastUpdateInOrder(rate: usize, start: nat, calls: seq<Call>)
    requires rate > 0 && Chronological(start, calls)
    ensures start <= After(rate, start, calls).lastUpdate
    ensures After(rate, start, calls).lastUpdate <= (if calls == [] then start else Last(calls).at)
  {
    if calls == [] {
    } else {
      LastUpdateInOrder(rate, start, Front(calls));
    }
  }

  lemma {:induction false} CompliantIsChronological(rate: usize, start: nat, calls: seq<Call>)
    requires rate > 0 && Compliant(rate, start, calls)
    ensures Chronological(start, calls)
  {
    if calls == [] {
    } else {
      CompliantIsChronological(rate, start, Front(calls));
    }
  }

  /** Production over adjoining intervals: rounding twice never yields more than rounding once. */
  lemma ProducedSplits(rate: nat, a: nat, b: nat, c: nat)
    requires a <= b <= c
    ensures Produced(rate, a, b) + Produced(rate, b, c) <= Produced(rate, a, c)
  {
    var left, right, whole := Micros(a, b), Micros(b, c), Micros(a, c);
    FloorSum(b - a, c - b, NANOS_PER_MICRO);
    assert rate * (left + right) == rate * left + rate * right;
    MulMonotone(left + right, whole, rate);
    FloorSum(rate * left, rate * right, MICROS_PER_SECOND);
    FloorMonotone(rate * (left + right), rate * whole, MICROS_PER_SECOND);
  }

  lemma NewUnitsBounded(b: Bucket, now: nat)
    ensures NewUnits(b, now) <= Produced(b.rate, b.lastUpdate, now)
  {
    var micros := Micros(b.lastUpdate, now);
    assert micros * b.rate == b.rate * micros;
    MulNonNegative(b.rate, micros);
    FloorMonotone(SatMul(micros, b.rate, U128_MAX), b.rate * micros, MICROS_PER_SECOND);
  }

  lemma GainBounded(b: Bucket, call: Call)
    requires Sound(b) && b.rate > 0
    ensures var updated := RateLimited(b, call.units, call.at).0.lastUpdate;
            && (updated == b.lastUpdate || updated == call.at)
            && Gain(b, call) <= Produced(b.rate, b.lastUpdate, updated)
  {
    if NeedsUpdate(b, call.units) {
      NewUnitsBounded(b, call.at);
    }
  }

  /** In any run in order of time, requests are covered by the initial stock, the production up to
      the last refill, the recorded debt and the forgiven one. */
  lemma {:induction false} RequestsCovered(rate: usize, start: nat, calls: seq<Call>)
    requires rate > 0 && Chronological(start, calls)
    ensures var b := After(rate, start, calls);
            Total(calls) <= rate + Produced(rate, start, b.lastUpdate) + b.requested - b.available
                            + TotalForgiven(rate, start, calls)
  {
    if calls == [] {
    } else {
      var before, after := After(rate, start, Front(calls)), After(rate, start, calls);
      RequestsCovered(rate, start, Front(calls));
      LastUpdateInOrder(rate, start, Front(calls));
      CallConserves(before, Last(calls));
      GainBounded(before, Last(calls));
      assert Answer(rate, start, calls) == RateLimited(before, Last(calls).units, Last(calls).at);
      ProducedSplits(rate, start, before.lastUpdate, after.lastUpdate);
    }
  }

  lemma SlackCovers(produced: nat, debt: nat, paid: nat, slack: nat, m: nat)
    requires m > 0 && m * debt <= paid + m * slack
    ensures produced / m + debt <= (produced + paid) / m + slack
  {
    FloorAddMultiple(produced, debt, m);
    FloorMonotone(produced + m * debt, produced + paid + m * slack, m);
    FloorAddMultiple(produced + paid, slack, m);
  }

  lemma RoundedDebt(rate: nat, debt: nat, slack: nat, m: nat)
    requires rate > 0 && debt * m % rate <= m * slack
    ensures m * debt <= rate * (debt * m / rate) + m * slack
  {
    FloorBounds(debt * m, rate);
    assert m * debt == debt * m;
  }

  /** When a debt incurred at `from` has been waited out. */
  function DelayEnd(rate: usize, from: nat, debt: nat): nat
    requires rate > 0
  {
    from + debt * MICROS_PER_SECOND / rate * NANOS_PER_MICRO
  }

  lemma ProducedAfter(rate: nat, start: nat, from: nat, micros: nat)
    requires start <= from
    ensures Produced(rate, start, from + micros * NANOS_PER_MICRO)
            == (rate * Micros(start, from) + rate * micros) / MICROS_PER_SECOND
  {
    var elapsed := Micros(start, from);
    FloorAddMultiple(from - start, micros, NANOS_PER_MICRO);
    assert rate * (elapsed + micros) == rate * elapsed + rate * micros;
  }

  lemma ProducedByDelayEnd(rate: usize, start: nat, from: nat, debt: nat)
    requires rate > 0 && start <= from
    ensures Produced(rate, start, DelayEnd(rate, from, debt))
            == (rate * Micros(start, from) + rate * (debt * MICROS_PER_SECOND / rate)) / MICROS_PER_SECOND
  {
    FloorAtLeast(debt * MICROS_PER_SECOND, rate, 0);
    ProducedAfter(rate, start, from, debt * MICROS_PER_SECOND / rate);
  }

  /** A debt is covered by what is produced during the delay it causes, up to `slack`. */
  ghost predicate DelaysPay(rate: usize, start: nat, slack: nat)
    requires rate > 0
  {
    forall from: nat, debt: nat :: start <= from ==>
      Produced(rate, start, from) + debt <= Produced(rate, start, DelayEnd(rate, from, debt)) + slack
  }

  /** A wait that produces a debt up to a slack covers it up to that slack. */
  lemma WaitPays(rate: nat, start: nat, from: nat, debt: nat, micros: nat, slack: nat)
    requires start <= from && MICROS_PER_SECOND * debt <= rate * micros + MICROS_PER_SECOND * slack
    ensures Produced(rate, start, from) + debt <= Produced(rate, start, from + micros * NANOS_PER_MICRO) + slack
  {
    ProducedAfter(rate, start, from, micros);
    SlackCovers(rate * Micros(start, from), debt, rate * micros, slack, MICROS_PER_SECOND);
  }

  lemma DelayPays(rate: usize, start: nat, from: nat, debt: nat, slack: nat)
    requires rate > 0 && start <= from
    requires MICROS_PER_SECOND * debt <= rate * (debt * MICROS_PER_SECOND / rate) + MICROS_PER_SECOND * slack
    ensures Produced(rate, start, from) + debt <= Produced(rate, start, DelayEnd(rate, from, debt)) + slack
  {
    FloorAtLeast(debt * MICROS_PER_SECOND, rate, 0);
    WaitPays(rate, start, from, debt, debt * MICROS_PER_SECOND / rate, slack);
  }

  /** The rounding slack: the largest remainder that dividing by the rate can drop, in whole tokens. */
  function RoundingSlack(rate: nat, m: nat): nat
    requires rate > 0 && m > 0
  {
    MultipleRemainder(rate, m, 0);
    CeilDiv(rate - Gcd(rate, m), m)
  }

  function LeastSlack(rate: nat): nat
    requires rate > 0
  {
    RoundingSlack(rate, MICROS_PER_SECOND)
  }

  lemma SlackCoversRemainder(rate: nat, debt: nat, m: nat)
    requires rate > 0 && m > 0
    ensures m * debt <= rate * (debt * m / rate) + m * RoundingSlack(rate, m)
  {
    MultipleRemainder(rate, m, debt);
    CeilAtMost(rate - Gcd(rate, m), m, RoundingSlack(rate, m));
    RoundedDebt(rate, debt, RoundingSlack(rate, m), m);
  }

  /** Rounding the delay down and then the production down costs at most this slack. */
  lemma DelaysPayWithSlack(rate: usize, start: nat)
    requires rate > 0
    ensures DelaysPay(rate, start, LeastSlack(rate))
  {
    forall from: nat, debt: nat | start <= from
      ensures Produced(rate, start, from) + debt
              <= Produced(rate, start, DelayEnd(rate, from, debt)) + LeastSlack(rate)
    {
      SlackCoversRemainder(rate, debt, MICROS_PER_SECOND);
      DelayPays(rate, start, from, debt, LeastSlack(rate));
    }
  }

  lemma SlackBounded(rate: nat, m: nat)
    requires rate > 0 && m > 0
    ensures RoundingSlack(rate, m) <= CeilDiv(rate - 1, m)
  {
    FloorMonotone(rate - Gcd(rate, m) + m - 1, rate - 1 + m - 1, m);
  }

  lemma ProducedMonotone(rate: nat, from: nat, a: nat, b: nat)
    requires from <= a <= b
    ensures Produced(rate, from, a) <= Produced(rate, from, b)
  {
    ProducedSplits(rate, from, a, b);
  }

  /** A total is within the burst, the production up to `ready`, and the slack. */
  predicate Within(rate: usize, start: nat, total: nat, ready: nat, slack: nat) {
    start <= ready && total <= rate + Produced(rate, start, ready) + slack
  }

  lemma WithinLater(rate: usize, start: nat, total: nat, ready: nat, later: nat, slack: nat)
    requires Within(rate, start, total, ready, slack) && ready <= later
    ensures Within(rate, start, total, later, slack)
  {
    ProducedMonotone(rate, start, ready, later);
  }

  /** One more call keeps the bound: it leaves a debt whose delay has to be waited out, or no debt, or
      it was an empty request that left an earlier debt standing. */
  lemma CallKeepsBound(rate: usize, start: nat, calls: seq<Call>, slack: nat)
    requires rate > 0 && calls != [] && Compliant(rate, start, calls)
    requires OwedWithin(rate, start, calls, MAX_DEBT)
    requires DelaysPay(rate, start, slack)
    requires Within(rate, start, Total(Front(calls)), Ready(rate, start, Front(calls)), slack)
    ensures Within(rate, start, Total(calls), Ready(rate, start, calls), slack)
  {
    CompliantIsChronological(rate, start, calls);
    OwedWithinMore(rate, start, calls, MAX_DEBT, USIZE_MAX);
    NothingForgiven(rate, start, calls);
    RequestsCovered(rate, start, calls);
    LastUpdateInOrder(rate, start, calls);
    var b := After(rate, start, calls);
    if Answer(rate, start, calls).1.Some? {
      var debt := b.requested - b.available;
      assert Ready(rate, start, calls) == DelayEnd(rate, b.lastUpdate, debt);
    } else if b.requested == 0 {
      WithinLater(rate, start, Total(calls), b.lastUpdate, Last(calls).at, slack);
    } else {
      assert Last(calls).units == 0;
      WithinLater(rate, start, Total(calls), Ready(rate, start, Front(calls)), Last(calls).at, slack);
    }
  }

  /** The bound holds at the moment the caller becomes entitled to call again. */
  lemma {:induction false} BoundAtReady(rate: usize, start: nat, calls: seq<Call>, slack: nat)
    requires rate > 0 && Compliant(rate, start, calls) && OwedWithin(rate, start, calls, MAX_DEBT)
    requires DelaysPay(rate, start, slack)
    ensures Within(rate, start, Total(calls), Ready(rate, start, calls), slack)
  {
    if calls == [] {
    } else {
      BoundAtReady(rate, start, Front(calls), slack);
      CallKeepsBound(rate, start, calls, slack);
    }
  }

  // ---------------------------------------------------------------- waiting keeps the debt small

  /** The most tokens a caller that waits out its delay can still owe. */
  function Residue(rate: nat): nat
    requires rate > 0
  {
    CeilDiv(rate - 1, MICROS_PER_SECOND)
  }

  /** Every single request is small enough for its delay not to saturate. */
  predicate Modest(rate: nat, calls: seq<Call>)
    requires rate > 0
  {
    forall i :: 0 <= i < |calls| ==> calls[i].units + Residue(rate) <= MAX_DEBT
  }

  lemma DelayProduces(debt: nat, rate: nat, micros: nat, residue: nat, m: nat)
    requires rate > 0 && m > 0 && rate - 1 <= m * residue && micros >= debt * m / rate
    ensures m * (debt - residue) <= micros * rate
  {
    FloorBounds(debt * m, rate);
    MulMonotone(debt * m / rate, micros, rate);
    assert m * (debt - residue) == debt * m - m * residue;
  }

  lemma WaitingPays(b: Bucket, at: nat)
    requires Sound(b) && 0 < b.requested <= MAX_DEBT
    requires at >= b.lastUpdate + Delay(b) * NANOS_PER_MICRO
    ensures Refilled(b, at).requested <= Residue(b.rate)
  {
    var debt, micros, residue := b.requested - b.available, Micros(b.lastUpdate, at), Residue(b.rate);
    FloorAtLeast(at - b.lastUpdate, NANOS_PER_MICRO, Delay(b));
    CeilAtMost(b.rate - 1, MICROS_PER_SECOND, residue);
    DelayProduces(debt, b.rate, micros, residue, MICROS_PER_SECOND);
    FloorAtLeast(SatMul(micros, b.rate, U128_MAX), MICROS_PER_SECOND, debt - residue);
  }

  /** A caller that has waited out its delay owes next to nothing, however long the run. */
  lemma {:induction false} LittleOwed(rate: usize, start: nat, calls: seq<Call>, at: nat)
    requires rate > 0 && Compliant(rate, start, calls) && OwedWithin(rate, start, calls, MAX_DEBT)
    requires at >= Ready(rate, start, calls)
    ensures Refilled(After(rate, start, calls), at).requested <= Residue(rate)
  {
    if calls == [] {
    } else {
      if Answer(rate, start, calls).1.Some? {
        WaitingPays(After(rate, start, calls), at);
      } else {
        LittleOwed(rate, start, Front(calls), Last(calls).at);
      }
    }
  }

  lemma {:induction false} ModestCallsFit(rate: usize, start: nat, calls: seq<Call>)
    requires rate > 0 && Compliant(rate, start, calls) && Modest(rate, calls)
    ensures OwedWithin(rate, start, calls, MAX_DEBT)
  {
    if calls == [] {
    } else {
      ModestCallsFit(rate, start, Front(calls));
      LittleOwed(rate, start, Front(calls), Last(calls).at);
    }
  }

  /** THE RATE BOUND. Whenever a caller that waits out the returned delays makes its next call, all
      its earlier requests together are within one second's burst, plus what the rate produces over
      the elapsed time, plus the rounding slack. The run may be of any length. */
  lemma RateBound(rate: usize, start: nat, calls: seq<Call>, now: nat)
    requires rate > 0 && Compliant(rate, start, calls) && Modest(rate, calls)
    requires now >= Ready(rate, start, calls)
    ensures now >= start
    ensures Total(calls) <= rate + Produced(rate, start, now) + LeastSlack(rate)
    ensures Total(calls) <= rate + Produced(rate, start, now) + CeilDiv(rate - 1, MICROS_PER_SECOND)
  {
    ModestCallsFit(rate, start, calls);
    DelaysPayWithSlack(rate, start);
    BoundAtReady(rate, start, calls, LeastSlack(rate));
    WithinLater(rate, start, Total(calls), Ready(rate, start, calls), now, LeastSlack(rate));
    SlackBounded(rate, MICROS_PER_SECOND);
  }

  // ---------------------------------------------------------------- the slack is exact

  /** The bound with a given slack, for every run and at every moment the next call becomes possible. */
  ghost predicate BoundHolds(rate: usize, start: nat, slack: nat)
    requires rate > 0
  {
    forall calls :: Compliant(rate, start, calls) && Modest(rate, calls) ==>
      Total(calls) <= rate + Produced(rate, start, Ready(rate, start, calls)) + slack
  }

  /** One request that empties the bucket and one that goes into debt, both at the start. */
  function BurstAndDebt(rate: usize, start: nat, debt: usize): seq<Call> {
    [Call(rate, start), Call(debt, start)]
  }

  lemma BurstTaken(rate: usize, start: nat)
    requires rate > 0
    ensures var calls := [Call(rate, start)];
            Compliant(rate, start, calls) && Total(calls) == rate && Ready(rate, start, calls) == start
            && After(rate, start, calls) == Bucket(rate, 0, 0, start)
  {
    var calls := [Call(rate, start)];
    assert Front(calls) == [];
    assert After(rate, start, []) == NewBucket(rate, start);
    assert Answer(rate, start, calls) == (Bucket(rate, 0, 0, start), None);
  }

  lemma DebtTaken(rate: usize, start: nat, debt: usize)
    requires rate > 0 && 0 < debt <= MAX_DEBT
    ensures var calls := BurstAndDebt(rate, start, debt);
            Compliant(rate, start, calls) && Total(calls) == rate + debt
            && Ready(rate, start, calls) == DelayEnd(rate, start, debt)
  {
    var calls := BurstAndDebt(rate, start, debt);
    BurstTaken(rate, start);
    assert Front(calls) == [Call(rate, start)];
    assert Micros(start, start) == 0;
    assert RateLimited(Bucket(rate, 0, 0, start), debt, start)
           == (Bucket(rate, 0, debt, start), Some(debt * MICROS_PER_SECOND / rate));
    assert Answer(rate, start, calls) == RateLimited(After(rate, start, Front(calls)), debt, start);
  }

  lemma NegatedFloor(r: int, c: int, m: int)
    requires m > 0 && r >= 0 && c == CeilDiv(r, m)
    ensures (0 - r) / m == 0 - c
  {
    CeilAtMost(r, m, c);
    assert m * (0 - c) == 0 - m * c;
    FloorAtLeast(0 - r, m, 0 - c);
    assert m * (1 - c) == m - m * c;
    FloorAtLeast(0 - r, m, 1 - c);
    if c > 0 {
      CeilAtMost(r, m, c - 1);
      assert m * (c - 1) == m * c - m;
    }
  }

  lemma DroppedTokens(debt: nat, rate: nat, r: nat, m: nat)
    requires rate > 0 && m > 0 && r == debt * m % rate
    ensures rate * (debt * m / rate) / m == debt - CeilDiv(r, m)
  {
    assert rate * (debt * m / rate) == 0 - r + m * debt;
    FloorAddMultiple(0 - r, debt, m);
    NegatedFloor(r, CeilDiv(r, m), m);
  }

  /** A debt exceeds the slack-free bound by the tokens its delay dropped. */
  lemma DebtExcess(rate: usize, start: nat, debt: usize, dropped: nat)
    requires rate > 0 && 0 < debt <= MAX_DEBT && dropped == debt * MICROS_PER_SECOND % rate
    ensures var calls := BurstAndDebt(rate, start, debt);
            && Compliant(rate, start, calls)
            && Total(calls) == rate + Produced(rate, start, Ready(rate, start, calls))
                               + CeilDiv(dropped, MICROS_PER_SECOND)
  {
    DebtTaken(rate, start, debt);
    ProducedByDelayEnd(rate, start, start, debt);
    assert Micros(start, start) == 0;
    DroppedTokens(debt, rate, dropped, MICROS_PER_SECOND);
  }

  /** The debt whose delay drops the most. */
  lemma WorstDebt(rate: nat, m: nat) returns (debt: nat, dropped: nat)
    requires rate > 0 && m > 0
    ensures debt < rate && dropped == debt * m % rate && (dropped > 0 ==> debt > 0)
    ensures CeilDiv(dropped, m) == RoundingSlack(rate, m)
  {
    debt := LargestRemainder(rate, m);
    dropped := rate - Gcd(rate, m);
  }

  /** For every rate whose burst is itself a modest request there is a run that uses the slack up. */
  lemma SlackReached(rate: usize, start: nat) returns (calls: seq<Call>)
    requires rate > 0 && rate + Residue(rate) <= MAX_DEBT
    ensures Compliant(rate, start, calls) && Modest(rate, calls)
    ensures Total(calls) == rate + Produced(rate, start, Ready(rate, start, calls)) + LeastSlack(rate)
  {
    var debt, dropped := WorstDebt(rate, MICROS_PER_SECOND);
    if dropped == 0 {
      calls := [Call(rate, start)];
      BurstTaken(rate, start);
      assert Micros(start, start) == 0;
    } else {
      calls := BurstAndDebt(rate, start, debt);
      DebtExcess(rate, start, debt, dropped);
    }
  }

  lemma MultipleOfMultiple(n: nat, m: nat, k: nat)
    requires n > 0 && m % n == 0
    ensures k * m % n == 0
  {
    var q := m / n;
    assert k * m == n * (k * q) by {
      assert k * (n * q) == n * (k * q);
    }
    RemainderIs(k * m, n, k * q, 0);
  }

  lemma NoSlackIff(rate: nat, m: nat)
    requires rate > 0 && m > 0
    ensures RoundingSlack(rate, m) == 0 <==> m % rate == 0
  {
    MultipleRemainder(rate, m, 1);
    CeilAtMost(rate - Gcd(rate, m), m, 0);
    if m % rate == 0 {
      var k := LargestRemainder(rate, m);
      MultipleOfMultiple(rate, m, k);
    }
  }

  /** THE SLACK IS EXACT: the bound holds with a given slack if and only if that is at least the
      rounding slack. In particular it holds with none exactly for the rates that divide a million. */
  lemma SlackExact(rate: usize, start: nat, slack: nat)
    requires rate > 0 && rate + Residue(rate) <= MAX_DEBT
    ensures BoundHolds(rate, start, slack) <==> slack >= LeastSlack(rate)
    ensures LeastSlack(rate) == 0 <==> MICROS_PER_SECOND % rate == 0
  {
    NoSlackIff(rate, MICROS_PER_SECOND);
    if slack >= LeastSlack(rate) {
      forall calls | Compliant(rate, start, calls) && Modest(rate, calls)
        ensures Total(calls) <= rate + Produced(rate, start, Ready(rate, start, calls)) + slack
      {
        RateBound(rate, start, calls, Ready(rate, start, calls));
      }
    } else {
      var calls := SlackReached(rate, start);
    }
  }

  predicate ClearedAfter(b: Bucket, micros: nat) {
    Refilled(b, b.lastUpdate + micros * NANOS_PER_MICRO).requested == 0
  }

  /** After `micros` microseconds the debt is gone exactly when the rate has produced it. */
  lemma DebtClearedIff(b: Bucket, micros: nat)
    requires Sound(b) && b.requested > 0
    ensures ClearedAfter(b, micros) <==> b.rate * micros >= (b.requested - b.available) * MICROS_PER_SECOND
  {
    var now := b.lastUpdate + micros * NANOS_PER_MICRO;
    FloorAddMultiple(0, micros, NANOS_PER_MICRO);
    assert Micros(b.lastUpdate, now) == micros;
    assert micros * b.rate == b.rate * micros;
    var debt := b.requested - b.available;
    FloorAtLeast(SatMul(micros, b.rate, U128_MAX), MICROS_PER_SECOND, debt);
  }

  /** The returned delay is the right one: no shorter wait clears the debt, it does itself exactly when
      neither its product saturated nor its division left a remainder, and every longer wait does unless
      the product saturated. */
  lemma DelayClearsDebt(b: Bucket, micros: nat)
    requires Sound(b) && b.requested > 0
    ensures var owed := (b.requested - b.available) * MICROS_PER_SECOND;
            && (micros < Delay(b) ==> !ClearedAfter(b, micros))
            && (micros == Delay(b) ==> (ClearedAfter(b, micros) <==> owed <= USIZE_MAX && owed % b.rate == 0))
            && (micros > Delay(b) && owed <= USIZE_MAX ==> ClearedAfter(b, micros))
  {
    var owed := (b.requested - b.available) * MICROS_PER_SECOND;
    var product := Min(owed, USIZE_MAX);
    DebtClearedIff(b, micros);
    CeilAtMost(product, b.rate, micros);
    CeilIsFloorPlus(product, b.rate);
    FloorAtLeast(product, b.rate, micros);
  }
}
