/** The token bucket: its state, its two transitions and the object that carries them out. */
module TokenBucket {
  import opened Arithmetic

  const MICROS_PER_SECOND: nat := 1_000_000
  const NANOS_PER_MICRO: nat := 1_000

  /** Instants are nanoseconds since an arbitrary origin. */
  datatype Bucket = Bucket(rate: usize, available: usize, requested: usize, lastUpdate: nat)

  function NewBucket(rate: usize, now: nat): Bucket {
    Bucket(rate, rate, 0, now)
  }

  /** What every reachable bucket satisfies; it is what keeps the subtractions from underflowing. */
  predicate Sound(b: Bucket) {
    && b.available <= b.rate
    && (b.requested == 0 || b.requested > b.available)
    && (b.rate == 0 ==> b.requested == 0)
  }

  /** Microseconds the bucket sees between two instants. */
  function Micros(from: nat, to: nat): nat {
    Monus(to, from) / NANOS_PER_MICRO
  }

  function NewUnits(b: Bucket, now: nat): usize {
    Min(SatMul(Micros(b.lastUpdate, now), b.rate, U128_MAX) / MICROS_PER_SECOND, USIZE_MAX)
  }

  /** The delay, in microseconds, after which the outstanding debt is meant to be paid off. */
  function Delay(b: Bucket): nat
    requires b.requested >= b.available && b.rate > 0
  {
    SatMul(b.requested - b.available, MICROS_PER_SECOND, USIZE_MAX) / b.rate
  }

  function Refilled(b: Bucket, now: nat): Bucket {
    var available := SatAdd(b.available, NewUnits(b, now), USIZE_MAX);
    var used := Min(available, b.requested);
    Bucket(b.rate, Min(available - used, b.rate), b.requested - used, now)
  }

  predicate NeedsUpdate(b: Bucket, units: usize) {
    b.requested > 0 || b.available < units
  }

  function RateLimited(b: Bucket, units: usize, now: nat): (Bucket, Option<nat>)
    requires Sound(b)
    requires b.rate > 0 || units == 0
  {
    var u := if NeedsUpdate(b, units) then Refilled(b, now) else b;
    if u.available < units then
      var debtor := u.(requested := SatAdd(u.requested, units, USIZE_MAX));
      (debtor, Some(Delay(debtor)))
    else
      (u.(available := Min(u.available - units, u.rate)), None)
  }

  lemma RefillKeepsSound(b: Bucket, now: nat)
    requires Sound(b)
    ensures Sound(Refilled(b, now))
    ensures var u := Refilled(b, now); u.requested > 0 ==> u.available == 0
  {}

  lemma RateLimitKeepsSound(b: Bucket, units: usize, now: nat)
    requires Sound(b)
    requires b.rate > 0 || units == 0
    ensures Sound(RateLimited(b, units, now).0)
  {}

  /** The bucket object. */
  class TokenBucket {
    const ratePerSecond: usize
    var available: usize
    var requested: usize
    var lastUpdate: nat

    ghost function Value(): Bucket
      reads this
    {
      Bucket(ratePerSecond, available, requested, lastUpdate)
    }

    constructor (rate: usize, now: nat)
      ensures Value() == NewBucket(rate, now)
      ensures Sound(Value())
    {
      ratePerSecond := rate;
      available := rate;
      requested := 0;
      lastUpdate := now;
    }

    method CalculateDelay() returns (micros: nat)
      requires requested >= available && ratePerSecond > 0
      ensures micros == Delay(Value())
      ensures micros <= U64_MAX
    {
      var product := SatMul(requested - available, MICROS_PER_SECOND, USIZE_MAX);
      micros := product / ratePerSecond;
      FloorAtLeast(product, ratePerSecond, micros);
      MulMonotone(1, ratePerSecond, micros);
    }

    method UpdateUnits(now: nat) returns (units: usize)
      requires Sound(Value())
      modifies this`available, this`requested, this`lastUpdate
      ensures Value() == Refilled(old(Value()), now)
      ensures units == available
    {
      var newUnits := NewUnits(Bucket(ratePerSecond, available, requested, lastUpdate), now);
      available := SatAdd(available, newUnits, USIZE_MAX);
      lastUpdate := now;
      var used := Min(available, requested);
      available := available - used;
      requested := requested - used;
      available := Min(available, ratePerSecond);
      units := available;
    }

    /** `now` may lie before the last update only when the stored tokens already cover the request. */
    method RateLimit(units: usize, now: nat) returns (delay: Option<nat>)
      requires Sound(Value())
      requires ratePerSecond > 0 || units == 0
      requires NeedsUpdate(Value(), units) ==> now >= lastUpdate
      modifies this`available, this`requested, this`lastUpdate
      ensures (Value(), delay) == RateLimited(old(Value()), units, now)
      ensures Sound(Value())
    {
      if requested > 0 || available < units {
        var current := UpdateUnits(now);
        if current < units {
          requested := SatAdd(requested, units, USIZE_MAX);
          var d := CalculateDelay();
          return Some(d);
        }
      }
      available := available - units;
      available := Min(available, ratePerSecond);
      return None;
    }
  }
}
