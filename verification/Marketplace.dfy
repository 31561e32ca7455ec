/** The ticket auction: a piecewise price curve and the record of sales that sets where it starts. */
module Marketplace {
  import opened Arithmetic

  /** The line from `(xStart, yStart)` down to `(xEnd, yEnd)`, cut off at both ends, in saturating
      128-bit arithmetic; `None` is the division by zero of a flat line. */
  function LinearDecrease(xStart: nat, yStart: nat, xEnd: nat, yEnd: nat, x: nat): Option<nat> {
    var steps := Monus(x, xStart);
    var xSpan := Monus(xEnd, xStart);
    var ySpan := Monus(yStart, yEnd);
    if x >= xEnd then Some(yEnd)
    else if x <= xStart then Some(yStart)
    else if ySpan > xSpan then Some(Monus(yStart, SatMul(steps, ySpan / xSpan, U128_MAX)))
    else if ySpan == 0 then None
    else
      SlopeAtLeastOne(xSpan, ySpan);
      Some(Monus(yStart, steps / (xSpan / ySpan)))
  }

  lemma SlopeAtLeastOne(xSpan: nat, ySpan: nat)
    requires 0 < ySpan <= xSpan
    ensures xSpan / ySpan >= 1
  {
    FloorAtLeast(xSpan, ySpan, 1);
  }

  datatype Market = Market(
    minPrice: nat,
    saleMultiplier: nat,
    auctionLength: nat,
    startBlock: nat,
    totalProceeds: u128,
    ticketsSold: u128)

  function NewMarket(startingPrice: u128, minPrice: u128, saleMultiplier: u128, auctionLength: nat, now: nat): Market
    requires saleMultiplier > 0
  {
    MulMonotone(1, saleMultiplier, startingPrice / saleMultiplier);
    FloorBounds(startingPrice, saleMultiplier);
    Market(minPrice, saleMultiplier, auctionLength, now, startingPrice / saleMultiplier, 1)
  }

  function AveragePrice(d: Market): nat
    requires d.ticketsSold > 0
  {
    d.totalProceeds / d.ticketsSold
  }

  function StartPrice(d: Market): nat
    requires d.ticketsSold > 0
  {
    SatMul(AveragePrice(d), d.saleMultiplier, U128_MAX)
  }

  function CurrentPrice(d: Market, now: nat): Option<nat>
    requires d.ticketsSold > 0
  {
    match LinearDecrease(d.startBlock, StartPrice(d), SatAdd(d.startBlock, d.auctionLength, U32_MAX), d.minPrice, now)
    case None => None
    case Some(y) => Some(Max(y, d.minPrice))
  }

  function Sold(d: Market, price: nat, now: nat): Market {
    d.(totalProceeds := SatAdd(d.totalProceeds, price, U128_MAX),
       ticketsSold := SatAdd(d.ticketsSold, 1, U128_MAX),
       startBlock := now)
  }

  function Restarted(d: Market, now: nat): Market {
    d.(startBlock := now)
  }

  // ---------------------------------------------------------------- the price curve

  lemma UndefinedIff(xStart: nat, yStart: nat, xEnd: nat, yEnd: nat, x: nat)
    ensures LinearDecrease(xStart, yStart, xEnd, yEnd, x) == None
            <==> xStart < x < xEnd && yStart <= yEnd
  {}

  predicate Steep(xStart: nat, yStart: nat, xEnd: nat, yEnd: nat, x: nat) {
    xStart < x < xEnd && yStart - yEnd > xEnd - xStart
  }

  predicate Shallow(xStart: nat, yStart: nat, xEnd: nat, yEnd: nat, x: nat) {
    xStart < x < xEnd && 0 < yStart - yEnd <= xEnd - xStart
  }

  /** On a steep line the price drops by the rounded-down slope per block and never saturates. */
  lemma SteepPrice(xStart: nat, yStart: nat, xEnd: nat, yEnd: nat, x: nat)
    requires Steep(xStart, yStart, xEnd, yEnd, x) && yStart <= U128_MAX
    ensures var slope := (yStart - yEnd) / (xEnd - xStart);
            && 0 <= (x - xStart) * slope <= yStart - yEnd
            && LinearDecrease(xStart, yStart, xEnd, yEnd, x) == Some(yStart - (x - xStart) * slope)
  {
    var ySpan, xSpan, steps := yStart - yEnd, xEnd - xStart, x - xStart;
    FloorBounds(ySpan, xSpan);
    MulMonotone(steps, xSpan, ySpan / xSpan);
    MulNonNegative(steps, ySpan / xSpan);
  }

  /** There it is never below the exact line, and above it by less than one unit per elapsed block.
      Both sides are multiplied by the line's length to stay in integers. */
  lemma SteepNearLine(xStart: nat, yStart: nat, xEnd: nat, yEnd: nat, x: nat)
    requires Steep(xStart, yStart, xEnd, yEnd, x) && yStart <= U128_MAX
    ensures LinearDecrease(xStart, yStart, xEnd, yEnd, x).Some?
    ensures var y := LinearDecrease(xStart, yStart, xEnd, yEnd, x).value;
            var xSpan := xEnd - xStart;
            var line := yStart * xSpan - (x - xStart) * (yStart - yEnd);
            line <= y * xSpan < line + (x - xStart) * xSpan
  {
    SteepPrice(xStart, yStart, xEnd, yEnd, x);
    SteepDrop(yStart, xEnd - xStart, yStart - yEnd, x - xStart);
  }

  lemma SteepDrop(y: nat, xSpan: nat, ySpan: nat, steps: nat)
    requires xSpan > 0 && steps > 0
    ensures var drop := steps * (ySpan / xSpan);
            var line := y * xSpan - steps * ySpan;
            line <= (y - drop) * xSpan < line + steps * xSpan
  {
    var slope := ySpan / xSpan;
    var exact := xSpan * slope;
    FloorBounds(ySpan, xSpan);
    assert steps * slope * xSpan == steps * exact;
    assert (y - steps * slope) * xSpan == y * xSpan - steps * exact;
    MulMonotone(exact, ySpan, steps);
    MulMonotone(ySpan + 1, exact + xSpan, steps);
    assert steps * (exact + xSpan) == steps * exact + steps * xSpan;
    assert steps * (ySpan + 1) == steps * ySpan + steps;
  }

  /** On a shallow line the price is less than one unit above the exact line. */
  lemma ShallowNearLine(xStart: nat, yStart: nat, xEnd: nat, yEnd: nat, x: nat)
    requires Shallow(xStart, yStart, xEnd, yEnd, x)
    ensures LinearDecrease(xStart, yStart, xEnd, yEnd, x).Some?
    ensures var y := LinearDecrease(xStart, yStart, xEnd, yEnd, x).value;
            var xSpan := xEnd - xStart;
            y * xSpan < yStart * xSpan - (x - xStart) * (yStart - yEnd) + xSpan
  {
    var ySpan, xSpan, steps := yStart - yEnd, xEnd - xStart, x - xStart;
    SlopeAtLeastOne(xSpan, ySpan);
    var perUnit := xSpan / ySpan;
    var drop := steps / perUnit;
    ShallowDrop(xSpan, ySpan, steps);
    if drop <= yStart {
      assert (yStart - drop) * xSpan == yStart * xSpan - drop * xSpan;
    } else {
      MulMonotone(steps, xSpan, ySpan);
      MulMonotone(ySpan, yStart, xSpan);
      assert xSpan * ySpan == ySpan * xSpan;
    }
  }

  /** On a shallow line the price drops a unit every `xSpan / ySpan` blocks, until it is zero. */
  lemma ShallowPrice(xStart: nat, yStart: nat, xEnd: nat, yEnd: nat, x: nat)
    requires Shallow(xStart, yStart, xEnd, yEnd, x)
    ensures (xEnd - xStart) / (yStart - yEnd) >= 1
    ensures var perUnit := (xEnd - xStart) / (yStart - yEnd);
            forall drop: nat :: perUnit * drop <= x - xStart < perUnit * (drop + 1) ==>
              LinearDecrease(xStart, yStart, xEnd, yEnd, x) == Some(Monus(yStart, drop))
  {
    var perUnit := (xEnd - xStart) / (yStart - yEnd);
    SlopeAtLeastOne(xEnd - xStart, yStart - yEnd);
    forall drop: nat | perUnit * drop <= x - xStart < perUnit * (drop + 1)
      ensures LinearDecrease(xStart, yStart, xEnd, yEnd, x) == Some(Monus(yStart, drop))
    {
      FloorAtLeast(x - xStart, perUnit, drop);
      FloorAtLeast(x - xStart, perUnit, drop + 1);
    }
  }

  lemma ShallowDropAtMost(xSpan: nat, ySpan: nat, steps: nat)
    requires 0 < ySpan <= xSpan
    ensures xSpan / ySpan >= 1
    ensures var drop := steps / (xSpan / ySpan); drop * xSpan <= steps * ySpan + drop * (xSpan % ySpan)
  {
    SlopeAtLeastOne(xSpan, ySpan);
    var perUnit, r := xSpan / ySpan, xSpan % ySpan;
    var drop := steps / perUnit;
    FloorBounds(steps, perUnit);
    assert xSpan == ySpan * perUnit + r;
    assert drop * (ySpan * perUnit + r) == drop * (ySpan * perUnit) + drop * r;
    assert drop * (ySpan * perUnit) == (perUnit * drop) * ySpan;
    MulMonotone(perUnit * drop, steps, ySpan);
  }

  /** And below it by at most one remainder of the two spans per unit dropped, on the line's scale. */
  lemma ShallowNotFarBelow(xStart: nat, yStart: nat, xEnd: nat, yEnd: nat, x: nat)
    requires Shallow(xStart, yStart, xEnd, yEnd, x)
    ensures LinearDecrease(xStart, yStart, xEnd, yEnd, x).Some? && (xEnd - xStart) / (yStart - yEnd) >= 1
    ensures var y := LinearDecrease(xStart, yStart, xEnd, yEnd, x).value;
            var xSpan, ySpan, steps := xEnd - xStart, yStart - yEnd, x - xStart;
            y * xSpan >= yStart * xSpan - steps * ySpan - steps / (xSpan / ySpan) * (xSpan % ySpan)
  {
    var xSpan, ySpan, steps := xEnd - xStart, yStart - yEnd, x - xStart;
    ShallowDropAtMost(xSpan, ySpan, steps);
    var drop := steps / (xSpan / ySpan);
    assert (yStart - drop) * xSpan == yStart * xSpan - drop * xSpan;
    if drop > yStart {
      MulMonotone(yStart, drop, xSpan);
    }
  }

  /** The rounded drop falls short of the exact one by less than a unit. */
  lemma ShallowDrop(xSpan: nat, ySpan: nat, steps: nat)
    requires 0 < ySpan <= xSpan
    ensures xSpan / ySpan >= 1
    ensures steps / (xSpan / ySpan) * xSpan > steps * ySpan - xSpan
  {
    SlopeAtLeastOne(xSpan, ySpan);
    var perUnit := xSpan / ySpan;
    var drop := steps / perUnit;
    FloorBounds(xSpan, ySpan);
    FloorBounds(steps, perUnit);
    // steps < perUnit * (drop + 1), and ySpan * perUnit <= xSpan
    assert perUnit * (drop + 1) == perUnit * drop + perUnit;
    MulMonotone(steps + 1, perUnit * (drop + 1), ySpan);
    assert (steps + 1) * ySpan == steps * ySpan + ySpan;
    assert perUnit * (drop + 1) * ySpan == (ySpan * perUnit) * (drop + 1);
    MulMonotone(ySpan * perUnit, xSpan, drop + 1);
    assert xSpan * (drop + 1) == drop * xSpan + xSpan;
  }

  /** How long a shallow line takes to drop a number of units. */
  lemma ShallowDropAtLeast(xSpan: nat, ySpan: nat, steps: nat, units: nat)
    requires 0 < ySpan <= xSpan
    ensures xSpan / ySpan >= 1
    ensures steps / (xSpan / ySpan) >= units <==> steps >= xSpan / ySpan * units
  {
    SlopeAtLeastOne(xSpan, ySpan);
    FloorAtLeast(steps, xSpan / ySpan, units);
  }

  /** WHEN A SHALLOW LINE UNDERSHOOTS. Before it is cut off it is below its end exactly from the block
      on that a line dropping a unit every `xSpan / ySpan` blocks needs for one unit more than `ySpan`. */
  lemma ShallowBelowEndIff(xStart: nat, yStart: nat, xEnd: nat, yEnd: nat, x: nat)
    requires Shallow(xStart, yStart, xEnd, yEnd, x)
    ensures LinearDecrease(xStart, yStart, xEnd, yEnd, x).Some?
    ensures LinearDecrease(xStart, yStart, xEnd, yEnd, x).value < yEnd
            <==> yEnd > 0 && x - xStart >= (xEnd - xStart) / (yStart - yEnd) * (yStart - yEnd + 1)
  {
    ShallowDropAtLeast(xEnd - xStart, yStart - yEnd, x - xStart, yStart - yEnd + 1);
  }

  /** What the last block before the end has dropped, by the remainder of the two spans. */
  lemma LastBlockDrop(xSpan: nat, ySpan: nat)
    requires 0 < ySpan <= xSpan
    ensures xSpan - 1 >= xSpan / ySpan * (ySpan + 1) <==> xSpan % ySpan > xSpan / ySpan
    ensures xSpan - 1 >= xSpan / ySpan * ySpan <==> xSpan % ySpan != 0
  {
    var perUnit := xSpan / ySpan;
    assert perUnit * (ySpan + 1) == perUnit * ySpan + perUnit;
    assert perUnit * ySpan == ySpan * perUnit == xSpan - xSpan % ySpan;
  }

  /** Some block of a line undershoots exactly when the line is shallow, ends above zero, and its
      remaining blocks outnumber those it spends on one unit. */
  lemma UndershootsIff(xStart: nat, yStart: nat, xEnd: nat, yEnd: nat)
    requires xStart < xEnd && yStart > yEnd && yStart <= U128_MAX
    ensures var xSpan, ySpan := xEnd - xStart, yStart - yEnd;
            (exists x: nat :: xStart < x < xEnd && LinearDecrease(xStart, yStart, xEnd, yEnd, x).value < yEnd)
            <==> yEnd > 0 && ySpan <= xSpan && xSpan % ySpan > xSpan / ySpan
  {
    var xSpan, ySpan := xEnd - xStart, yStart - yEnd;
    if ySpan <= xSpan {
      LastBlockDrop(xSpan, ySpan);
      if yEnd > 0 && xSpan % ySpan > xSpan / ySpan {
        ShallowDropAtLeast(xSpan, ySpan, xSpan - 1, ySpan + 1);
        MulMonotone(1, xSpan / ySpan, ySpan + 1);
        ShallowBelowEndIff(xStart, yStart, xEnd, yEnd, xEnd - 1);
      }
    }
    forall x: nat | xStart < x < xEnd && LinearDecrease(xStart, yStart, xEnd, yEnd, x).value < yEnd
      ensures yEnd > 0 && ySpan <= xSpan && xSpan % ySpan > xSpan / ySpan
    {
      if ySpan > xSpan {
        SteepPrice(xStart, yStart, xEnd, yEnd, x);
      } else {
        ShallowBelowEndIff(xStart, yStart, xEnd, yEnd, x);
      }
    }
  }

  /** For instance over five blocks from four down to one. */
  lemma ShallowUndershoots()
    ensures Shallow(0, 4, 5, 1, 4) && LinearDecrease(0, 4, 5, 1, 4) == Some(0)
  {
    ShallowBelowEndIff(0, 4, 5, 1, 4);
  }

  function Clamped(xStart: nat, yStart: nat, xEnd: nat, yEnd: nat, x: nat): nat
    requires yStart > yEnd
  {
    Max(LinearDecrease(xStart, yStart, xEnd, yEnd, x).value, yEnd)
  }

  lemma ClampedInRange(xStart: nat, yStart: nat, xEnd: nat, yEnd: nat, x: nat)
    requires yStart > yEnd
    ensures yEnd <= Clamped(xStart, yStart, xEnd, yEnd, x) <= yStart
    ensures x >= xEnd ==> Clamped(xStart, yStart, xEnd, yEnd, x) == yEnd
    ensures x < xEnd && x <= xStart ==> Clamped(xStart, yStart, xEnd, yEnd, x) == yStart
  {}

  lemma InsideDescends(xStart: nat, yStart: nat, xEnd: nat, yEnd: nat, x: nat, later: nat)
    requires yStart > yEnd && yStart <= U128_MAX
    requires xStart < x <= later < xEnd
    ensures Clamped(xStart, yStart, xEnd, yEnd, x) >= Clamped(xStart, yStart, xEnd, yEnd, later)
  {
    var ySpan, xSpan := yStart - yEnd, xEnd - xStart;
    if ySpan > xSpan {
      SteepPrice(xStart, yStart, xEnd, yEnd, x);
      SteepPrice(xStart, yStart, xEnd, yEnd, later);
      FloorAtLeast(ySpan, xSpan, 0);
      MulMonotone(x - xStart, later - xStart, ySpan / xSpan);
    } else {
      SlopeAtLeastOne(xSpan, ySpan);
      FloorMonotone(x - xStart, later - xStart, xSpan / ySpan);
    }
  }

  /** THE PRICE ONLY FALLS. Across all branches the price charged does not rise with the block. */
  lemma PriceDescends(xStart: nat, yStart: nat, xEnd: nat, yEnd: nat, x: nat, later: nat)
    requires yStart > yEnd && yStart <= U128_MAX && x <= later
    ensures Clamped(xStart, yStart, xEnd, yEnd, x) >= Clamped(xStart, yStart, xEnd, yEnd, later)
  {
    ClampedInRange(xStart, yStart, xEnd, yEnd, x);
    ClampedInRange(xStart, yStart, xEnd, yEnd, later);
    if xStart < x && later < xEnd {
      InsideDescends(xStart, yStart, xEnd, yEnd, x, later);
    }
  }

  lemma SteepStaysAbove(xSpan: nat, ySpan: nat, steps: nat)
    requires 0 < steps < xSpan < ySpan
    ensures steps * (ySpan / xSpan) < ySpan
  {
    FloorAtLeast(ySpan, xSpan, 1);
    FloorBounds(ySpan, xSpan);
    MulMonotone(steps + 1, xSpan, ySpan / xSpan);
    assert (steps + 1) * (ySpan / xSpan) == steps * (ySpan / xSpan) + ySpan / xSpan;
  }

  /** WHEN THE MINIMUM IS REACHED. Inside the line the clamped price is the end price exactly on a shallow
      line and from the block on at which the rounded slope has dropped all of `ySpan`. */
  lemma MinimumReachedIff(xStart: nat, yStart: nat, xEnd: nat, yEnd: nat, x: nat)
    requires yStart > yEnd && yStart <= U128_MAX && xStart < x < xEnd
    ensures var xSpan, ySpan := xEnd - xStart, yStart - yEnd;
            Clamped(xStart, yStart, xEnd, yEnd, x) == yEnd
            <==> ySpan <= xSpan && x - xStart >= xSpan / ySpan * ySpan
  {
    var xSpan, ySpan := xEnd - xStart, yStart - yEnd;
    if ySpan > xSpan {
      SteepPrice(xStart, yStart, xEnd, yEnd, x);
      SteepStaysAbove(xSpan, ySpan, x - xStart);
    } else {
      ShallowDropAtLeast(xSpan, ySpan, x - xStart, ySpan);
    }
  }

  /** The price reaches its minimum before the end exactly on shallow lines whose length is not a multiple
      of their drop. */
  lemma ReachedEarlyIff(xStart: nat, yStart: nat, xEnd: nat, yEnd: nat)
    requires xStart < xEnd && yStart > yEnd && yStart <= U128_MAX
    ensures var xSpan, ySpan := xEnd - xStart, yStart - yEnd;
            (exists x: nat :: xStart < x < xEnd && Clamped(xStart, yStart, xEnd, yEnd, x) == yEnd)
            <==> ySpan <= xSpan && xSpan % ySpan != 0
  {
    var xSpan, ySpan := xEnd - xStart, yStart - yEnd;
    if ySpan <= xSpan {
      LastBlockDrop(xSpan, ySpan);
      if xSpan % ySpan != 0 {
        SlopeAtLeastOne(xSpan, ySpan);
        MulMonotone(1, xSpan / ySpan, ySpan);
        MinimumReachedIff(xStart, yStart, xEnd, yEnd, xEnd - 1);
      }
    }
    forall x: nat | xStart < x < xEnd && Clamped(xStart, yStart, xEnd, yEnd, x) == yEnd
      ensures ySpan <= xSpan && xSpan % ySpan != 0
    {
      MinimumReachedIff(xStart, yStart, xEnd, yEnd, x);
    }
  }

  // ---------------------------------------------------------------- runs of sales

  datatype Sale = Buy(now: nat) | Reset(now: nat)

  function AfterSale(d: Market, s: Sale): (r: Market)
    requires d.ticketsSold > 0
    ensures r.ticketsSold > 0
  {
    match s
    case Buy(now) =>
      (match CurrentPrice(d, now)
       case Some(price) => Sold(d, price, now)
       case None => d)
    case Reset(now) => Restarted(d, now)
  }

  function AfterSales(d: Market, sales: seq<Sale>): (r: Market)
    requires d.ticketsSold > 0
    ensures r.ticketsSold > 0
    decreases |sales|
  {
    if sales == [] then d else AfterSales(AfterSale(d, sales[0]), sales[1..])
  }

  /** The parameters the auction is set up with: the first start price is a proper multiple. */
  predicate Wellpriced(d: Market) {
    d.minPrice >= 1 && 2 * d.minPrice <= U128_MAX && d.saleMultiplier >= 2
  }

  /** As long as the record can hold it at all, the proceeds cover the minimal price of every sale. */
  predicate Covered(d: Market) {
    && d.ticketsSold > 0
    && (d.ticketsSold * d.minPrice <= U128_MAX ==> d.totalProceeds >= d.ticketsSold * d.minPrice)
  }

  lemma AverageAboveMinIff(d: Market)
    requires Covered(d)
    ensures AveragePrice(d) >= d.minPrice <==> d.ticketsSold * d.minPrice <= U128_MAX
  {
    FloorAtLeast(d.totalProceeds, d.ticketsSold, d.minPrice);
  }

  lemma CoverGrows(t: nat, minPrice: nat, total: nat, price: nat, limit: nat)
    requires t * minPrice <= limit ==> total >= t * minPrice
    requires price >= minPrice
    ensures (t + 1) * minPrice <= limit ==> Min(total + price, limit) >= (t + 1) * minPrice
  {
    assert (t + 1) * minPrice == t * minPrice + minPrice;
  }

  lemma SoldKeepsCovered(d: Market, price: nat, now: nat)
    requires Covered(d) && price >= d.minPrice
    ensures Covered(Sold(d, price, now))
  {
    var t := d.ticketsSold;
    if t < U128_MAX {
      CoverGrows(t, d.minPrice, d.totalProceeds, price, U128_MAX);
      assert Sold(d, price, now).ticketsSold == t + 1;
    } else {
      assert Sold(d, price, now).ticketsSold == t;
    }
  }

  lemma {:induction false} SalesKeepCovered(d: Market, sales: seq<Sale>)
    requires Covered(d)
    ensures var r := AfterSales(d, sales);
            && Covered(r) && r.minPrice == d.minPrice && r.saleMultiplier == d.saleMultiplier
            && r.auctionLength == d.auctionLength
    decreases |sales|
  {
    if sales == [] {
    } else {
      if sales[0].Buy? && CurrentPrice(d, sales[0].now).Some? {
        SoldKeepsCovered(d, CurrentPrice(d, sales[0].now).value, sales[0].now);
      }
      SalesKeepCovered(AfterSale(d, sales[0]), sales[1..]);
    }
  }

  /** With the average at or above the minimum the next auction starts strictly above it, its price
      is always defined, and what is charged lies between the two. */
  lemma PriceSound(d: Market, now: nat)
    requires Covered(d) && Wellpriced(d) && AveragePrice(d) >= d.minPrice
    ensures StartPrice(d) > d.minPrice
    ensures CurrentPrice(d, now).Some?
    ensures d.minPrice <= CurrentPrice(d, now).value <= StartPrice(d)
  {
    MulMonotone(2, d.saleMultiplier, AveragePrice(d));
    MulMonotone(d.minPrice, AveragePrice(d), 2);
    UndefinedIff(d.startBlock, StartPrice(d), SatAdd(d.startBlock, d.auctionLength, U32_MAX), d.minPrice, now);
    ClampedInRange(d.startBlock, StartPrice(d), SatAdd(d.startBlock, d.auctionLength, U32_MAX), d.minPrice, now);
  }

  /** THE AUCTION STAYS SOUND. Set up so that the first average is at least the minimal price, in
      every run of purchases and restarts the average stays there exactly as long as the minimal
      price of all tickets sold still fits the counter, and then every price is sound. */
  lemma AuctionSound(startingPrice: u128, minPrice: u128, saleMultiplier: u128, auctionLength: nat, now: nat,
                     sales: seq<Sale>, later: nat)
    requires saleMultiplier >= 2 && 1 <= minPrice <= startingPrice / saleMultiplier
    ensures var d := AfterSales(NewMarket(startingPrice, minPrice, saleMultiplier, auctionLength, now), sales);
            && (AveragePrice(d) >= minPrice <==> d.ticketsSold * minPrice <= U128_MAX)
            && (d.ticketsSold * minPrice <= U128_MAX ==>
                  && StartPrice(d) > minPrice
                  && CurrentPrice(d, later).Some?
                  && minPrice <= CurrentPrice(d, later).value <= StartPrice(d))
  {
    var d0 := NewMarket(startingPrice, minPrice, saleMultiplier, auctionLength, now);
    FloorAtLeast(startingPrice, saleMultiplier, minPrice);
    MulMonotone(2, saleMultiplier, minPrice);
    assert Covered(d0) && Wellpriced(d0);
    SalesKeepCovered(d0, sales);
    var d := AfterSales(d0, sales);
    AverageAboveMinIff(d);
    if d.ticketsSold * minPrice <= U128_MAX {
      PriceSound(d, later);
    }
  }

  /** The counter does run out: at the largest minimal price allowed, the second purchase already
      pulls the average below it. */
  lemma AverageCanFall()
    ensures var minPrice := U128_MAX / 2;
            var d := AfterSales(NewMarket(U128_MAX, minPrice, 2, 0, 0), [Buy(0), Buy(0)]);
            AveragePrice(d) < minPrice
  {
    var minPrice := U128_MAX / 2;
    var d0 := NewMarket(U128_MAX, minPrice, 2, 0, 0);
    assert CurrentPrice(d0, 0) == Some(minPrice);
    var d1 := AfterSale(d0, Buy(0));
    assert CurrentPrice(d1, 0) == Some(minPrice);
    var d2 := AfterSale(d1, Buy(0));
    assert d2.totalProceeds == U128_MAX && d2.ticketsSold == 3;
    assert [Buy(0), Buy(0)][1..] == [Buy(0)] && [Buy(0)][1..] == [];
    assert AfterSales(d1, [Buy(0)]) == AfterSales(d2, []);
  }

  /** Between two sales the price charged only falls as blocks pass. */
  lemma AuctionDescends(d: Market, now: nat, later: nat)
    requires Covered(d) && Wellpriced(d) && AveragePrice(d) >= d.minPrice && now <= later
    ensures CurrentPrice(d, now).Some? && CurrentPrice(d, later).Some?
    ensures CurrentPrice(d, now).value >= CurrentPrice(d, later).value
  {
    PriceSound(d, now);
    PriceSound(d, later);
    PriceDescends(d.startBlock, StartPrice(d), SatAdd(d.startBlock, d.auctionLength, U32_MAX), d.minPrice, now, later);
  }

  /** What a running auction charges is the minimal price exactly from its last block on, or earlier on
      a shallow line. */
  lemma AuctionAtMinimumIff(d: Market, now: nat)
    requires Covered(d) && Wellpriced(d) && AveragePrice(d) >= d.minPrice
    ensures CurrentPrice(d, now).Some?
    ensures var xEnd := SatAdd(d.startBlock, d.auctionLength, U32_MAX);
            var xSpan, ySpan := xEnd - d.startBlock, StartPrice(d) - d.minPrice;
            && ySpan > 0
            && (CurrentPrice(d, now).value == d.minPrice
                <==> now >= xEnd || (d.startBlock < now && ySpan <= xSpan && now - d.startBlock >= xSpan / ySpan * ySpan))
  {
    var xEnd := SatAdd(d.startBlock, d.auctionLength, U32_MAX);
    PriceSound(d, now);
    ClampedInRange(d.startBlock, StartPrice(d), xEnd, d.minPrice, now);
    if d.startBlock < now < xEnd {
      MinimumReachedIff(d.startBlock, StartPrice(d), xEnd, d.minPrice, now);
    }
  }

  /** The price at a block of an auction that starts there: its start price, unless it is over at once. */
  lemma StartingPrice(d: Market)
    requires d.ticketsSold > 0
    ensures CurrentPrice(d, d.startBlock)
            == Some(if d.auctionLength > 0 && d.startBlock < U32_MAX then Max(StartPrice(d), d.minPrice) else d.minPrice)
  {}

  /** WHERE THE NEXT AUCTION STARTS. Right after a sale or a restart the price is the average over all sales
      times the multiplier, unless the minimum is higher or the auction has no length. */
  lemma NextAuctionPrice(d: Market, price: nat, now: nat)
    requires d.ticketsSold > 0 && d.auctionLength > 0 && now < U32_MAX
    requires d.totalProceeds + price <= U128_MAX && d.ticketsSold < U128_MAX
    ensures CurrentPrice(Restarted(d, now), now)
            == Some(Max(Min(d.totalProceeds / d.ticketsSold * d.saleMultiplier, U128_MAX), d.minPrice))
    ensures CurrentPrice(Sold(d, price, now), now)
            == Some(Max(Min((d.totalProceeds + price) / (d.ticketsSold + 1) * d.saleMultiplier, U128_MAX), d.minPrice))
  {
    StartingPrice(Restarted(d, now));
    StartingPrice(Sold(d, price, now));
  }

  /** The first auction starts at the starting price, rounded down to a multiple of the multiplier. */
  lemma FirstAuctionPrice(startingPrice: u128, minPrice: u128, saleMultiplier: u128, auctionLength: nat, now: nat)
    requires saleMultiplier > 0 && auctionLength > 0 && now < U32_MAX
    ensures CurrentPrice(NewMarket(startingPrice, minPrice, saleMultiplier, auctionLength, now), now)
            == Some(Max(startingPrice - startingPrice % saleMultiplier, minPrice))
  {
    var d := NewMarket(startingPrice, minPrice, saleMultiplier, auctionLength, now);
    StartingPrice(d);
    FloorBounds(startingPrice, saleMultiplier);
    assert startingPrice / saleMultiplier * saleMultiplier == startingPrice - startingPrice % saleMultiplier;
  }
}
