/** The constant-product exchange: quotes, swaps over token ledgers, and the contract object. */
module SimpleDex {
  import opened Arithmetic
  import opened Psp22

  type TokenId = nat

  datatype DexError =
    | Halted
    | NotEnoughLiquidityOf(token: TokenId)
    | UnsupportedSwapPair(from: TokenId, target: TokenId)
    | InsufficientAllowanceOf(token: TokenId)
    | Arithmetic
    | TooMuchSlippage
    | Psp22Failure

  datatype Dex = Dex(self: AccountId, tokens: map<TokenId, Ledger>, pairs: set<(TokenId, TokenId)>, halted: bool)

  const NO_LEDGER: Ledger := Ledger(map[], map[])

  function LedgerOf(tokens: map<TokenId, Ledger>, token: TokenId): Ledger {
    if token in tokens then tokens[token] else NO_LEDGER
  }

  function Pool(dex: Dex, token: TokenId): nat {
    BalanceOf(LedgerOf(dex.tokens, token), dex.self)
  }

  /** `balanceOut * amountIn / (balanceIn + amountIn)`, in checked 128-bit arithmetic. */
  function OutGivenIn(amountIn: nat, balanceIn: nat, balanceOut: nat): Option<nat> {
    MulNonNegative(balanceOut, amountIn);
    if balanceOut * amountIn > U128_MAX then None
    else if balanceIn + amountIn > U128_MAX then None
    else if balanceIn + amountIn == 0 then None
    else Some(balanceOut * amountIn / (balanceIn + amountIn))
  }

  /** `balanceIn * amountOut / (balanceOut - amountOut)`, in checked 128-bit arithmetic. */
  function InGivenOut(amountOut: nat, balanceIn: nat, balanceOut: nat): Option<nat> {
    MulNonNegative(balanceIn, amountOut);
    if balanceIn * amountOut > U128_MAX then None
    else if balanceOut < amountOut then None
    else if balanceOut - amountOut == 0 then None
    else Some(balanceIn * amountOut / (balanceOut - amountOut))
  }

  datatype SwapCall = SwapCall(caller: AccountId, tokenIn: TokenId, tokenOut: TokenId, amountIn: u128, minOut: u128)

  /** A swap: the amount paid out and the ledgers afterwards, or the error that undoes everything. */
  function Swapped(dex: Dex, c: SwapCall): Result<(Dex, nat), DexError> {
    if dex.halted then Err(Halted)
    else if Pool(dex, c.tokenOut) < c.minOut then Err(NotEnoughLiquidityOf(c.tokenOut))
    else if (c.tokenIn, c.tokenOut) !in dex.pairs then Err(UnsupportedSwapPair(c.tokenIn, c.tokenOut))
    else if Allowance(LedgerOf(dex.tokens, c.tokenIn), c.caller, dex.self) < c.amountIn then
      Err(InsufficientAllowanceOf(c.tokenIn))
    else
      match OutGivenIn(c.amountIn, Pool(dex, c.tokenIn), Pool(dex, c.tokenOut))
      case None => Err(Arithmetic)
      case Some(amountOut) =>
        if amountOut < c.minOut then Err(TooMuchSlippage) else
        match TransferFrom(LedgerOf(dex.tokens, c.tokenIn), dex.self, c.caller, dex.self, c.amountIn)
        case None => Err(Psp22Failure)
        case Some(paid) =>
          var tokens := dex.tokens[c.tokenIn := paid];
          match Transfer(LedgerOf(tokens, c.tokenOut), dex.self, c.caller, amountOut)
          case None => Err(Psp22Failure)
          case Some(received) =>
            Ok((dex.(tokens := tokens[c.tokenOut := received]), amountOut))
  }

  // ---------------------------------------------------------------- one swap on the curve

  /** A quote never gives away more than the curve allows: the product of the two balances does not
      shrink, and the pool is emptied only when it held none of the token paid in. */
  lemma QuoteKeepsProduct(a: nat, balanceIn: nat, balanceOut: nat)
    requires OutGivenIn(a, balanceIn, balanceOut).Some?
    ensures var out := OutGivenIn(a, balanceIn, balanceOut).value;
            && out <= balanceOut
            && (balanceIn + a) * (balanceOut - out) >= balanceIn * balanceOut
            && (balanceOut > 0 ==> (out < balanceOut <==> balanceIn > 0))
  {
    var sum := balanceIn + a;
    var out := balanceOut * a / sum;
    FloorBounds(balanceOut * a, sum);
    assert sum * balanceOut == balanceIn * balanceOut + balanceOut * a;
    assert sum * (balanceOut - out) == sum * balanceOut - sum * out;
    MulNonNegative(balanceIn, balanceOut);
    assert sum * (balanceOut + 1) == sum * balanceOut + sum;
    FloorAtLeast(balanceOut * a, sum, balanceOut + 1);
    FloorAtLeast(balanceOut * a, sum, balanceOut);
    if balanceIn > 0 && balanceOut > 0 {
      MulMonotone(1, balanceIn, balanceOut);
    }
  }

  /** Paying in and out of one and the same token never costs the pool anything. */
  lemma SameTokenQuote(a: nat, balance: nat)
    requires OutGivenIn(a, balance, balance).Some?
    ensures OutGivenIn(a, balance, balance).value <= a
  {
    assert (balance + a) * (a + 1) == balance * a + balance + a * a + a;
    MulNonNegative(a, a);
    FloorAtLeast(balance * a, balance + a, a + 1);
  }

  /** An input buys at least `o` exactly when it covers `o`'s share of the curve. */
  lemma OutAtLeastIff(a: nat, balanceIn: nat, balanceOut: nat, o: nat)
    requires OutGivenIn(a, balanceIn, balanceOut).Some?
    ensures OutGivenIn(a, balanceIn, balanceOut).value >= o
            <==> (balanceOut - o) * a >= balanceIn * o
  {
    FloorAtLeast(balanceOut * a, balanceIn + a, o);
    assert (balanceIn + a) * o == balanceIn * o + a * o;
    assert (balanceOut - o) * a == balanceOut * a - a * o;
  }

  /** QUOTES ARE EXACT. The inputs that buy at least `o` are those from `InGivenOut(o)` on, or from
      one above it when its division left a remainder. */
  lemma QuoteExact(o: nat, balanceIn: nat, balanceOut: nat, a: nat)
    requires InGivenOut(o, balanceIn, balanceOut).Some?
    requires OutGivenIn(a, balanceIn, balanceOut).Some?
    ensures var quote := InGivenOut(o, balanceIn, balanceOut).value;
            var dust := if balanceIn * o % (balanceOut - o) == 0 then 0 else 1;
            OutGivenIn(a, balanceIn, balanceOut).value >= o <==> a >= quote + dust
  {
    OutAtLeastIff(a, balanceIn, balanceOut, o);
    CeilAtMost(balanceIn * o, balanceOut - o, a);
    CeilIsFloorPlus(balanceIn * o, balanceOut - o);
  }

  /** What an input buys, priced back, does not overflow. */
  lemma QuoteBackFits(a: nat, balanceIn: nat, balanceOut: nat)
    requires OutGivenIn(a, balanceIn, balanceOut).Some?
    ensures balanceIn * OutGivenIn(a, balanceIn, balanceOut).value <= U128_MAX
  {
    var sum, out := balanceIn + a, OutGivenIn(a, balanceIn, balanceOut).value;
    FloorBounds(balanceOut * a, sum);
    FloorAtLeast(balanceOut * a, sum, 0);
    MulMonotone(balanceIn, sum, out);
  }

  /** Quoting back what an input bought succeeds exactly when the pool holds both tokens, and never asks
      for more than the input. */
  lemma QuoteBackAtMost(a: nat, balanceIn: nat, balanceOut: nat)
    requires OutGivenIn(a, balanceIn, balanceOut).Some?
    ensures var back := InGivenOut(OutGivenIn(a, balanceIn, balanceOut).value, balanceIn, balanceOut);
            && (back.Some? <==> balanceIn > 0 && balanceOut > 0)
            && (back.Some? ==> back.value <= a)
  {
    var out := OutGivenIn(a, balanceIn, balanceOut).value;
    QuoteKeepsProduct(a, balanceIn, balanceOut);
    QuoteBackFits(a, balanceIn, balanceOut);
    if InGivenOut(out, balanceIn, balanceOut).Some? {
      QuoteExact(out, balanceIn, balanceOut, a);
    }
  }

  /** The documented integer formula for the output, with a fee in percent. */
  function DocumentedOut(amountIn: nat, balanceIn: nat, balanceOut: nat, fee: nat): int
    requires 100 * (balanceIn + amountIn) > amountIn * fee
  {
    balanceOut - 100 * balanceOut * balanceIn / (100 * (balanceIn + amountIn) - amountIn * fee)
  }

  lemma CancelHundred(p: nat, sum: nat)
    requires sum > 0
    ensures 100 * p / (100 * sum) == p / sum
  {
    FloorBounds(p, sum);
    var q, r := p / sum, p % sum;
    assert p == sum * q + r;
    assert 100 * p == (100 * sum) * q + 100 * r;
    RemainderIs(100 * p, 100 * sum, q, 100 * r);
  }

  lemma CeilOfComplement(total: nat, part: nat, rest: nat, sum: nat)
    requires sum > 0 && part + rest == sum * total
    ensures total - rest / sum == CeilDiv(part, sum)
  {
    var q, r := rest / sum, rest % sum;
    assert rest == sum * q + r;
    FloorAddMultiple(sum - 1 - r, total - q, sum);
    assert sum * (total - q) == sum * total - sum * q;
    assert part + sum - 1 == sum - 1 - r + sum * (total - q);
    RemainderIs(sum - 1 - r, sum, 0, sum - 1 - r);
  }

  /** Even without a fee the documented formula rounds up where the code rounds down: they agree exactly
      when the division leaves no remainder, and otherwise the code pays one unit less. */
  lemma DocumentedQuote(a: nat, balanceIn: nat, balanceOut: nat)
    requires OutGivenIn(a, balanceIn, balanceOut).Some?
    ensures DocumentedOut(a, balanceIn, balanceOut, 0)
            == OutGivenIn(a, balanceIn, balanceOut).value
               + (if balanceOut * a % (balanceIn + a) == 0 then 0 else 1)
  {
    var sum := balanceIn + a;
    MulNonNegative(balanceOut, balanceIn);
    assert 100 * balanceOut * balanceIn == 100 * (balanceOut * balanceIn);
    CancelHundred(balanceOut * balanceIn, sum);
    assert balanceOut * a + balanceOut * balanceIn == sum * balanceOut;
    CeilOfComplement(balanceOut, balanceOut * a, balanceOut * balanceIn, sum);
    CeilIsFloorPlus(balanceOut * a, sum);
  }

  /** Swapping there and back never returns more than was paid. */
  lemma RoundTripNeverPays(a: nat, balanceIn: nat, balanceOut: nat)
    requires OutGivenIn(a, balanceIn, balanceOut).Some?
    requires OutGivenIn(a, balanceIn, balanceOut).value <= balanceOut
    requires balanceIn > 0
    requires OutGivenIn(OutGivenIn(a, balanceIn, balanceOut).value,
                        balanceOut - OutGivenIn(a, balanceIn, balanceOut).value, balanceIn + a).Some?
    ensures OutGivenIn(OutGivenIn(a, balanceIn, balanceOut).value,
                       balanceOut - OutGivenIn(a, balanceIn, balanceOut).value, balanceIn + a).value <= a
  {
    var out := OutGivenIn(a, balanceIn, balanceOut).value;
    var back := OutGivenIn(out, balanceOut - out, balanceIn + a).value;
    QuoteKeepsProduct(a, balanceIn, balanceOut);
    QuoteKeepsProduct(out, balanceOut - out, balanceIn + a);
    assert balanceOut * (balanceIn + a - back) >= (balanceIn + a) * (balanceOut - out);
    MulCancel(balanceIn, balanceIn + a - back, balanceOut);
  }

  // ---------------------------------------------------------------- splitting an order

  function Sum(amounts: seq<nat>): nat {
    if amounts == [] then 0 else amounts[0] + Sum(amounts[1..])
  }

  /** What a list of swaps in one direction pays out in all. */
  function SplitOut(amounts: seq<nat>, balanceIn: nat, balanceOut: nat): Option<nat>
    decreases |amounts|
  {
    if amounts == [] then Some(0) else
    match OutGivenIn(amounts[0], balanceIn, balanceOut)
    case None => None
    case Some(out) =>
      QuoteKeepsProduct(amounts[0], balanceIn, balanceOut);
      match SplitOut(amounts[1..], balanceIn + amounts[0], balanceOut - out)
      case None => None
      case Some(rest) => Some(out + rest)
  }

  lemma {:induction false} SplitKeepsProduct(amounts: seq<nat>, balanceIn: nat, balanceOut: nat)
    requires SplitOut(amounts, balanceIn, balanceOut).Some?
    ensures var out := SplitOut(amounts, balanceIn, balanceOut).value;
            && out <= balanceOut
            && (balanceIn + Sum(amounts)) * (balanceOut - out) >= balanceIn * balanceOut
    decreases |amounts|
  {
    if amounts == [] {
    } else {
      var out := OutGivenIn(amounts[0], balanceIn, balanceOut).value;
      QuoteKeepsProduct(amounts[0], balanceIn, balanceOut);
      SplitKeepsProduct(amounts[1..], balanceIn + amounts[0], balanceOut - out);
    }
  }

  lemma CurveShare(balanceIn: nat, balanceOut: nat, a: nat, out: nat)
    requires (balanceIn + a) * (balanceOut - out) >= balanceIn * balanceOut
    ensures (balanceOut - out) * a >= balanceIn * out
  {
    var left := balanceOut - out;
    assert (balanceIn + a) * left == balanceIn * left + left * a;
    assert balanceIn * left == balanceIn * balanceOut - balanceIn * out;
  }

  /** SPLITTING NEVER PAYS. Any list of swaps in one direction pays out no more than a single swap of
      the whole amount. */
  lemma SplittingNeverPays(amounts: seq<nat>, balanceIn: nat, balanceOut: nat)
    requires SplitOut(amounts, balanceIn, balanceOut).Some?
    requires OutGivenIn(Sum(amounts), balanceIn, balanceOut).Some?
    ensures SplitOut(amounts, balanceIn, balanceOut).value <= OutGivenIn(Sum(amounts), balanceIn, balanceOut).value
  {
    var total, out := Sum(amounts), SplitOut(amounts, balanceIn, balanceOut).value;
    SplitKeepsProduct(amounts, balanceIn, balanceOut);
    OutAtLeastIff(total, balanceIn, balanceOut, out);
    CurveShare(balanceIn, balanceOut, total, out);
  }

  // ---------------------------------------------------------------- swaps on the ledgers

  /** What a swap does to the pool: it gains the amount paid in, loses the amount paid out, and
      every other token is untouched. */
  lemma SwapMovesPool(dex: Dex, c: SwapCall, token: TokenId)
    requires Swapped(dex, c).Ok? && c.caller != dex.self
    ensures var (after, out) := Swapped(dex, c).value;
            && OutGivenIn(c.amountIn, Pool(dex, c.tokenIn), Pool(dex, c.tokenOut)) == Some(out)
            && out >= c.minOut
            && Pool(after, token) == Pool(dex, token) + (if token == c.tokenIn then c.amountIn else 0)
                                     - (if token == c.tokenOut then out else 0)
  {}

  /** What a swap does to everybody else: the caller pays the input and receives the output, and nobody
      else's balance of any token changes. The input comes out of the allowance given to the exchange. */
  lemma SwapMovesBalances(dex: Dex, c: SwapCall, token: TokenId, who: AccountId)
    requires Swapped(dex, c).Ok? && who != dex.self
    ensures var (after, out) := Swapped(dex, c).value;
            var l, l' := LedgerOf(dex.tokens, token), LedgerOf(after.tokens, token);
            && BalanceOf(l', who) == BalanceOf(l, who) + (if who == c.caller && token == c.tokenOut then out else 0)
                                     - (if who == c.caller && token == c.tokenIn then c.amountIn else 0)
            && (forall owner: AccountId, spender: AccountId ::
                  Allowance(l', owner, spender)
                  == Allowance(l, owner, spender)
                     - (if token == c.tokenIn && owner == c.caller && spender == dex.self then c.amountIn else 0))
  {}

  /** An output quote exists exactly when nothing overflows and the pool or the input is not empty. */
  lemma QuoteDefinedIff(a: nat, balanceIn: nat, balanceOut: nat)
    ensures OutGivenIn(a, balanceIn, balanceOut).Some?
            <==> && 0 < balanceIn + a <= U128_MAX && balanceOut * a <= U128_MAX
  {
    MulNonNegative(balanceOut, a);
  }

  /** The amount the curve gives for an input, rounded down. */
  ghost predicate Buys(a: nat, balanceIn: nat, balanceOut: nat, o: nat) {
    (balanceIn + a) * o <= balanceOut * a
  }

  /** WHEN A SWAP SUCCEEDS: exactly when the exchange runs, offers the pair and can compute the quote, the
      input is allowed and owned, and the minimum asked for is within the quote. */
  lemma SwapSucceedsIff(dex: Dex, c: SwapCall)
    requires c.caller != dex.self
    ensures var balanceIn, balanceOut := Pool(dex, c.tokenIn), Pool(dex, c.tokenOut);
            Swapped(dex, c).Ok?
            <==> && !dex.halted && (c.tokenIn, c.tokenOut) in dex.pairs
                 && c.amountIn <= Allowance(LedgerOf(dex.tokens, c.tokenIn), c.caller, dex.self)
                 && c.amountIn <= BalanceOf(LedgerOf(dex.tokens, c.tokenIn), c.caller)
                 && 0 < balanceIn + c.amountIn <= U128_MAX && balanceOut * c.amountIn <= U128_MAX
                 && Buys(c.amountIn, balanceIn, balanceOut, c.minOut)
  {
    var balanceIn, balanceOut := Pool(dex, c.tokenIn), Pool(dex, c.tokenOut);
    var quote := OutGivenIn(c.amountIn, balanceIn, balanceOut);
    QuoteDefinedIff(c.amountIn, balanceIn, balanceOut);
    if quote.Some? {
      FloorAtLeast(balanceOut * c.amountIn, balanceIn + c.amountIn, c.minOut);
      QuoteKeepsProduct(c.amountIn, balanceIn, balanceOut);
    }
  }

  /** An error names what is wrong. */
  lemma SwapErrors(dex: Dex, c: SwapCall)
    requires Swapped(dex, c).Err? && c.caller != dex.self
    ensures match Swapped(dex, c).error
            case Halted => dex.halted
            case NotEnoughLiquidityOf(token) => token == c.tokenOut && Pool(dex, c.tokenOut) < c.minOut
            case UnsupportedSwapPair(from, target) => (from, target) == (c.tokenIn, c.tokenOut) && (from, target) !in dex.pairs
            case InsufficientAllowanceOf(token) =>
              token == c.tokenIn && Allowance(LedgerOf(dex.tokens, token), c.caller, dex.self) < c.amountIn
            case Arithmetic => OutGivenIn(c.amountIn, Pool(dex, c.tokenIn), Pool(dex, c.tokenOut)) == None
            case TooMuchSlippage => !Buys(c.amountIn, Pool(dex, c.tokenIn), Pool(dex, c.tokenOut), c.minOut)
            case Psp22Failure => BalanceOf(LedgerOf(dex.tokens, c.tokenIn), c.caller) < c.amountIn
  {
    var balanceIn, balanceOut := Pool(dex, c.tokenIn), Pool(dex, c.tokenOut);
    var quote := OutGivenIn(c.amountIn, balanceIn, balanceOut);
    if quote.Some? {
      FloorAtLeast(balanceOut * c.amountIn, balanceIn + c.amountIn, c.minOut);
      QuoteKeepsProduct(c.amountIn, balanceIn, balanceOut);
    }
  }

  /** A swap neither creates nor destroys any token. */
  lemma SwapConserves(dex: Dex, c: SwapCall, token: TokenId)
    requires Swapped(dex, c).Ok?
    ensures Supply(LedgerOf(Swapped(dex, c).value.0.tokens, token)) == Supply(LedgerOf(dex.tokens, token))
  {
    var (after, out) := Swapped(dex, c).value;
    TransferFromConserves(LedgerOf(dex.tokens, c.tokenIn), dex.self, c.caller, dex.self, c.amountIn);
    var paid := TransferFrom(LedgerOf(dex.tokens, c.tokenIn), dex.self, c.caller, dex.self, c.amountIn).value;
    TransferConserves(LedgerOf(dex.tokens[c.tokenIn := paid], c.tokenOut), dex.self, c.caller, out);
  }

  // ---------------------------------------------------------------- the contract object

  class SimpleDex {
    const self: AccountId
    var tokens: map<TokenId, Ledger>
    var swapPairs: set<(TokenId, TokenId)>
    var halted: bool

    ghost function Value(): Dex
      reads this
    {
      Dex(self, tokens, swapPairs, halted)
    }

    constructor (self: AccountId, tokens: map<TokenId, Ledger>)
      ensures Value() == Dex(self, tokens, {}, false)
    {
      this.self, this.tokens, this.swapPairs, this.halted := self, tokens, {}, false;
    }

    /** The ledgers move in sequence; a failing transfer puts them back as they were. */
    method Swap(caller: AccountId, tokenIn: TokenId, tokenOut: TokenId, amountIn: u128, minOut: u128)
      returns (result: Result<nat, DexError>)
      modifies this`tokens
      ensures match Swapped(old(Value()), SwapCall(caller, tokenIn, tokenOut, amountIn, minOut))
              case Ok((after, out)) => result == Ok(out) && Value() == after
              case Err(e) => result == Err(e) && Value() == old(Value())
    {
      if halted {
        return Err(Halted);
      }
      var balanceOut := BalanceOf(LedgerOf(tokens, tokenOut), self);
      if balanceOut < minOut {
        return Err(NotEnoughLiquidityOf(tokenOut));
      }
      if (tokenIn, tokenOut) !in swapPairs {
        return Err(UnsupportedSwapPair(tokenIn, tokenOut));
      }
      if Allowance(LedgerOf(tokens, tokenIn), caller, self) < amountIn {
        return Err(InsufficientAllowanceOf(tokenIn));
      }
      var quote := OutGivenIn(amountIn, BalanceOf(LedgerOf(tokens, tokenIn), self), balanceOut);
      if quote.None? {
        return Err(Arithmetic);
      }
      var amountOut := quote.value;
      if amountOut < minOut {
        return Err(TooMuchSlippage);
      }
      var before := tokens;
      var paid := TransferFrom(LedgerOf(tokens, tokenIn), self, caller, self, amountIn);
      if paid.None? {
        return Err(Psp22Failure);
      }
      tokens := tokens[tokenIn := paid.value];
      var received := Transfer(LedgerOf(tokens, tokenOut), self, caller, amountOut);
      if received.None? {
        tokens := before;
        return Err(Psp22Failure);
      }
      tokens := tokens[tokenOut := received.value];
      return Ok(amountOut);
    }

    /** The price of an amount: an error when the pool would be emptied, otherwise an input that is
        within one unit of the least sufficient one. */
    method InputFor(tokenIn: TokenId, tokenOut: TokenId, amountOut: u128) returns (result: Result<nat, DexError>)
      ensures Pool(Value(), tokenOut) <= amountOut ==> result == Err(NotEnoughLiquidityOf(tokenOut))
      ensures result.Ok? ==>
                forall a: nat :: OutGivenIn(a, Pool(Value(), tokenIn), Pool(Value(), tokenOut)).Some? ==>
                  && (a < result.value ==> OutGivenIn(a, Pool(Value(), tokenIn), Pool(Value(), tokenOut)).value < amountOut)
                  && (a > result.value ==> OutGivenIn(a, Pool(Value(), tokenIn), Pool(Value(), tokenOut)).value >= amountOut)
      ensures Pool(Value(), tokenOut) > amountOut && result.Err? ==>
                result == Err(Arithmetic) && Pool(Value(), tokenIn) * amountOut > U128_MAX
    {
      var balanceIn := BalanceOf(LedgerOf(tokens, tokenIn), self);
      var balanceOut := BalanceOf(LedgerOf(tokens, tokenOut), self);
      if balanceOut <= amountOut {
        return Err(NotEnoughLiquidityOf(tokenOut));
      }
      match InGivenOut(amountOut, balanceIn, balanceOut)
      case None =>
        return Err(Arithmetic);
      case Some(amount) =>
        forall a: nat | OutGivenIn(a, balanceIn, balanceOut).Some?
          ensures a < amount ==> OutGivenIn(a, balanceIn, balanceOut).value < amountOut
          ensures a > amount ==> OutGivenIn(a, balanceIn, balanceOut).value >= amountOut
        {
          QuoteExact(amountOut, balanceIn, balanceOut, a);
        }
        return Ok(amount);
    }
  }
}
