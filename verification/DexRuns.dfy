/** What every run of the exchange keeps: positive balances and a product that never shrinks. */
module DexRuns {
  import opened Arithmetic
  import opened Psp22
  import opened SimpleDex

  /** Anyone may swap, send tokens of their own anywhere (also into the pool) and set allowances; an
      administrator may offer and withdraw pairs and halt or resume the exchange. */
  datatype Event =
    | Swap(call: SwapCall)
    | Send(token: TokenId, source: AccountId, target: AccountId, amount: nat)
    | Allow(token: TokenId, owner: AccountId, spender: AccountId, amount: nat)
    | AddPair(from: TokenId, target: TokenId)
    | RemovePair(from: TokenId, target: TokenId)
    | SetHalted(halted: bool)

  function Step(dex: Dex, e: Event): Dex {
    match e
    case Swap(call) =>
      (match Swapped(dex, call)
       case Ok((after, _)) => after
       case Err(_) => dex)
    case Send(token, source, target, amount) =>
      (match Transfer(LedgerOf(dex.tokens, token), source, target, amount)
       case Some(l) => dex.(tokens := dex.tokens[token := l])
       case None => dex)
    case Allow(token, owner, spender, amount) =>
      dex.(tokens := dex.tokens[token := Approve(LedgerOf(dex.tokens, token), owner, spender, amount)])
    case AddPair(from, target) => dex.(pairs := dex.pairs + {(from, target)})
    case RemovePair(from, target) => dex.(pairs := dex.pairs - {(from, target)})
    case SetHalted(halted) => dex.(halted := halted)
  }

  function RunEvents(dex: Dex, events: seq<Event>): Dex
    decreases |events|
  {
    if events == [] then dex else RunEvents(Step(dex, events[0]), events[1..])
  }

  /** The exchange itself never acts as somebody's customer and never signs a plain transfer, and only
      listed tokens are put on offer. */
  predicate Admissible(self: AccountId, tokens: seq<TokenId>, e: Event) {
    match e
    case Swap(call) => call.caller != self
    case Send(_, source, _, _) => source != self
    case AddPair(from, target) => from in tokens && target in tokens
    case _ => true
  }

  // ---------------------------------------------------------------- products

  function Product(amounts: seq<nat>): nat {
    if amounts == [] then 1 else
    MulNonNegative(amounts[0], Product(amounts[1..]));
    amounts[0] * Product(amounts[1..])
  }

  /** Replacing one factor scales the product. */
  lemma {:induction false} ProductReplace(amounts: seq<nat>, i: nat, v: nat)
    requires i < |amounts|
    ensures Product(amounts[i := v]) * amounts[i] == Product(amounts) * v
  {
    var tail := Product(amounts[1..]);
    if i == 0 {
      assert amounts[0 := v][1..] == amounts[1..];
      MulRotate(v, tail, amounts[0]);
    } else {
      ProductReplace(amounts[1..], i - 1, v);
      assert amounts[i := v][1..] == amounts[1..][i - 1 := v];
      var tail' := Product(amounts[1..][i - 1 := v]);
      assert tail' * amounts[i] == tail * v;
      MulAssociates(amounts[0], tail', amounts[i]);
      MulAssociates(amounts[0], tail, v);
    }
  }

  predicate AllPositive(amounts: seq<nat>) {
    forall i :: 0 <= i < |amounts| ==> amounts[i] > 0
  }

  lemma {:induction false} ProductPositive(amounts: seq<nat>)
    requires AllPositive(amounts)
    ensures Product(amounts) > 0
  {
    if amounts == [] {
    } else {
      ProductPositive(amounts[1..]);
      MulMonotone(1, amounts[0], Product(amounts[1..]));
    }
  }

  lemma ReplaceOneGrows(amounts: seq<nat>, i: nat, v: nat)
    requires i < |amounts| && 0 < amounts[i] <= v
    ensures Product(amounts[i := v]) >= Product(amounts)
  {
    ProductReplace(amounts, i, v);
    MulMonotone(amounts[i], v, Product(amounts));
    MulCancel(Product(amounts), Product(amounts[i := v]), amounts[i]);
  }

  /** Replacing two factors by a pair with no smaller product does not shrink the whole product. */
  lemma ReplaceTwoGrows(amounts: seq<nat>, i: nat, j: nat, v: nat, w: nat)
    requires i < |amounts| && j < |amounts| && i != j
    requires amounts[i] > 0 && amounts[j] > 0
    requires v * w >= amounts[i] * amounts[j]
    ensures Product(amounts[i := v][j := w]) >= Product(amounts)
  {
    var mid := amounts[i := v];
    var p, p', p'' := Product(amounts), Product(mid), Product(mid[j := w]);
    var x, y := amounts[i], amounts[j];
    ProductReplace(amounts, i, v);
    ProductReplace(mid, j, w);
    calc {
      p'' * (x * y);
    == { MulAssociates(p'', y, x); assert x * y == y * x; }
      p'' * y * x;
    ==
      p' * w * x;
    == { MulExchange(p', w, x); }
      p' * x * w;
    ==
      p * v * w;
    == { MulAssociates(p, v, w); }
      p * (v * w);
    >= { MulMonotone(x * y, v * w, p); }
      p * (x * y);
    }
    MulMonotone(1, x, y);
    MulCancel(p, p'', x * y);
  }

  // ---------------------------------------------------------------- the pool over a run

  function PoolBalances(dex: Dex, tokens: seq<TokenId>): seq<nat> {
    seq(|tokens|, i requires 0 <= i < |tokens| => Pool(dex, tokens[i]))
  }

  /** The traded tokens are listed once each, and every pair on offer is among them. */
  predicate Lists(dex: Dex, tokens: seq<TokenId>) {
    && Distinct(tokens)
    && forall p :: p in dex.pairs ==> p.0 in tokens && p.1 in tokens
  }

  /** A quote's effect on a list of balances, wherever the two tokens stand in it. */
  lemma QuoteKeepsListProduct(before: seq<nat>, now: seq<nat>, i: nat, j: nat, a: nat, out: nat)
    requires |now| == |before| && i < |before| && j < |before| && AllPositive(before)
    requires OutGivenIn(a, before[i], before[j]) == Some(out)
    requires forall k :: 0 <= k < |before| ==>
               now[k] == before[k] + (if k == i then a else 0) - (if k == j then out else 0)
    ensures AllPositive(now) && Product(now) >= Product(before)
  {
    QuoteKeepsProduct(a, before[i], before[j]);
    if i == j {
      SameTokenQuote(a, before[i]);
      assert now == before[i := now[i]];
      ReplaceOneGrows(before, i, now[i]);
    } else {
      assert now == before[i := now[i]][j := now[j]];
      ReplaceTwoGrows(before, i, j, now[i], now[j]);
    }
  }

  lemma SwapKeepsProduct(dex: Dex, c: SwapCall, tokens: seq<TokenId>)
    requires Lists(dex, tokens) && AllPositive(PoolBalances(dex, tokens))
    requires c.caller != dex.self && Swapped(dex, c).Ok?
    ensures var after := Swapped(dex, c).value.0;
            && AllPositive(PoolBalances(after, tokens))
            && Product(PoolBalances(after, tokens)) >= Product(PoolBalances(dex, tokens))
  {
    var (after, out) := Swapped(dex, c).value;
    var before, now := PoolBalances(dex, tokens), PoolBalances(after, tokens);
    assert (c.tokenIn, c.tokenOut) in dex.pairs;
    var i :| 0 <= i < |tokens| && tokens[i] == c.tokenIn;
    var j :| 0 <= j < |tokens| && tokens[j] == c.tokenOut;
    SwapMovesPool(dex, c, c.tokenIn);
    forall k | 0 <= k < |tokens|
      ensures now[k] == before[k] + (if k == i then c.amountIn else 0) - (if k == j then out else 0)
    {
      SwapMovesPool(dex, c, tokens[k]);
    }
    QuoteKeepsListProduct(before, now, i, j, c.amountIn, out);
  }

  lemma {:induction false} PointwiseGrows(a: seq<nat>, b: seq<nat>)
    requires |a| == |b| && forall i :: 0 <= i < |a| ==> a[i] <= b[i]
    ensures Product(a) <= Product(b)
  {
    if a == [] {
    } else {
      PointwiseGrows(a[1..], b[1..]);
      MulMonotone(a[0], b[0], Product(b[1..]));
      MulMonotone(Product(a[1..]), Product(b[1..]), a[0]);
    }
  }

  lemma OthersKeepPool(dex: Dex, e: Event, tokens: seq<TokenId>, token: TokenId)
    requires Admissible(dex.self, tokens, e) && !e.Swap?
    ensures Pool(Step(dex, e), token) >= Pool(dex, token)
  {}

  lemma StepKeepsProduct(dex: Dex, e: Event, tokens: seq<TokenId>)
    requires Lists(dex, tokens) && AllPositive(PoolBalances(dex, tokens))
    requires Admissible(dex.self, tokens, e)
    ensures var after := Step(dex, e);
            && after.self == dex.self && Lists(after, tokens)
            && AllPositive(PoolBalances(after, tokens))
            && Product(PoolBalances(after, tokens)) >= Product(PoolBalances(dex, tokens))
  {
    if e.Swap? {
      if Swapped(dex, e.call).Ok? {
        SwapKeepsProduct(dex, e.call, tokens);
      }
    } else {
      var before, now := PoolBalances(dex, tokens), PoolBalances(Step(dex, e), tokens);
      forall k | 0 <= k < |tokens| ensures before[k] <= now[k] {
        OthersKeepPool(dex, e, tokens, tokens[k]);
      }
      PointwiseGrows(before, now);
    }
  }

  /** THE PRODUCT NEVER SHRINKS. In every run over any number of tokens that starts from positive
      balances, all balances stay positive and their product does not decrease. */
  lemma {:induction false} RunKeepsProduct(dex: Dex, events: seq<Event>, tokens: seq<TokenId>)
    requires Lists(dex, tokens) && AllPositive(PoolBalances(dex, tokens))
    requires forall i :: 0 <= i < |events| ==> Admissible(dex.self, tokens, events[i])
    ensures var end := RunEvents(dex, events);
            && AllPositive(PoolBalances(end, tokens))
            && Product(PoolBalances(end, tokens)) >= Product(PoolBalances(dex, tokens))
    decreases |events|
  {
    if events == [] {
    } else {
      StepKeepsProduct(dex, events[0], tokens);
      RunKeepsProduct(Step(dex, events[0]), events[1..], tokens);
    }
  }

  lemma {:induction false} EqualProducts(a: seq<nat>, b: seq<nat>)
    requires |a| == |b| && AllPositive(a) && AllPositive(b)
    requires forall i :: 0 <= i < |a| ==> b[i] <= a[i]
    requires Product(b) >= Product(a)
    ensures a == b
  {
    if a == [] {
    } else {
      var p, q := Product(a[1..]), Product(b[1..]);
      PointwiseGrows(b[1..], a[1..]);
      ProductPositive(a[1..]);
      MulMonotone(q, p, b[0]);
      MulCancel(a[0], b[0], p);
      MulCancel(p, q, a[0]);
      EqualProducts(a[1..], b[1..]);
      assert a == [a[0]] + a[1..];
      assert b == [b[0]] + b[1..];
    }
  }

  /** NO FREE LUNCH. No run, in particular no cycle of swaps, leaves the pool with no more of any
      token and less of some token. */
  lemma NoFreeLunch(dex: Dex, events: seq<Event>, tokens: seq<TokenId>)
    requires Lists(dex, tokens) && AllPositive(PoolBalances(dex, tokens))
    requires forall i :: 0 <= i < |events| ==> Admissible(dex.self, tokens, events[i])
    requires forall t :: t in tokens ==> Pool(RunEvents(dex, events), t) <= Pool(dex, t)
    ensures forall t :: t in tokens ==> Pool(RunEvents(dex, events), t) == Pool(dex, t)
  {
    var end := RunEvents(dex, events);
    var a, b := PoolBalances(dex, tokens), PoolBalances(end, tokens);
    RunKeepsProduct(dex, events, tokens);
    assert forall i :: 0 <= i < |tokens| ==> b[i] <= a[i];
    EqualProducts(a, b);
    forall t | t in tokens ensures Pool(end, t) == Pool(dex, t) {
      var i :| 0 <= i < |tokens| && tokens[i] == t;
      assert a[i] == b[i];
    }
  }

  /** Positive balances are needed: one unit paid into an empty side takes the whole other side. */
  lemma EmptySideDrains(balanceOut: nat)
    requires balanceOut <= U128_MAX
    ensures OutGivenIn(1, 0, balanceOut) == Some(balanceOut)
  {}

  /** Every run conserves the supply of every token. */
  lemma {:induction false} RunConserves(dex: Dex, events: seq<Event>, token: TokenId)
    ensures Supply(LedgerOf(RunEvents(dex, events).tokens, token)) == Supply(LedgerOf(dex.tokens, token))
    decreases |events|
  {
    if events == [] {
    } else {
      match events[0] {
        case Swap(call) =>
          if Swapped(dex, call).Ok? {
            SwapConserves(dex, call, token);
          }
        case Send(t, source, target, amount) =>
          if Transfer(LedgerOf(dex.tokens, t), source, target, amount).Some? {
            TransferConserves(LedgerOf(dex.tokens, t), source, target, amount);
          }
        case _ =>
      }
      RunConserves(Step(dex, events[0]), events[1..], token);
    }
  }
}
