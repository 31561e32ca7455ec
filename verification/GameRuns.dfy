/** What every run of the game and the auction together keeps. */
module GameRuns {
  import opened Arithmetic
  import opened Psp22
  import opened Marketplace
  import opened ButtonGame

  /** Players press, buy, hand tickets and reward tokens to each other and allow the game to take
      tickets; anyone may ask for the Pressiah's reward or the reset. */
  datatype Action =
    | DoPress(caller: AccountId)
    | DoReward
    | DoReset
    | DoBuy(caller: AccountId, maxPrice: Option<nat>)
    | DoAllow(owner: AccountId, amount: nat)
    | DoGive(source: AccountId, target: AccountId, amount: nat)
    | DoPay(source: AccountId, target: AccountId, amount: nat)

  datatype Command = Command(action: Action, at: nat)

  function Execute(cfg: Config, w: World, c: Command): Outcome
    requires w.market.ticketsSold > 0
  {
    match c.action
    case DoPress(caller) => Press(cfg, w, caller, c.at)
    case DoReward => RewardPressiah(cfg, w, c.at)
    case DoReset => ResetGame(cfg, w, c.at)
    case DoBuy(caller, maxPrice) => BuyTicket(cfg, w, caller, maxPrice, c.at)
    case DoAllow(owner, amount) => Done(w.(tickets := Approve(w.tickets, owner, cfg.game, amount)))
    case DoGive(source, target, amount) =>
      (match Transfer(w.tickets, source, target, amount)
       case None => Failed(GameError.Psp22Failure)
       case Some(tickets) => Done(w.(tickets := tickets)))
    case DoPay(source, target, amount) =>
      match Transfer(w.rewards, source, target, amount)
      case None => Failed(GameError.Psp22Failure)
      case Some(rewards) => Done(w.(rewards := rewards))
  }

  /** A failed message changes nothing. */
  function Step(cfg: Config, w: World, c: Command): (r: World)
    requires w.market.ticketsSold > 0
    ensures r.market.ticketsSold > 0
  {
    match Execute(cfg, w, c)
    case Done(r) => r
    case Failed(_) => w
  }

  function Play(cfg: Config, w: World, commands: seq<Command>): (r: World)
    requires w.market.ticketsSold > 0
    ensures r.market.ticketsSold > 0
    decreases |commands|
  {
    if commands == [] then w else Play(cfg, Step(cfg, w, commands[0]), commands[1..])
  }

  /** The game's own account presses nothing, buys nothing and gives no ticket away. */
  predicate Playable(cfg: Config, c: Command) {
    match c.action
    case DoPress(caller) => caller != cfg.game
    case DoBuy(caller, _) => caller != cfg.game
    case DoGive(source, _, _) => source != cfg.game
    case _ => true
  }

  /** Blocks do not go backwards. */
  predicate Ordered(commands: seq<Command>, clock: nat) {
    commands != [] ==> commands[0].at >= clock && Ordered(commands[1..], commands[0].at)
  }

  predicate AllPlayable(cfg: Config, commands: seq<Command>) {
    forall i :: 0 <= i < |commands| ==> Playable(cfg, commands[i])
  }

  // ---------------------------------------------------------------- reading the event log

  function PressTotal(log: seq<Event>, r: nat): nat {
    if log == [] then 0 else
    PressTotal(log[..|log| - 1], r)
    + match log[|log| - 1]
      case Pressed(round, _, reward) => if round == r then reward else 0
      case _ => 0
  }

  function PressCount(log: seq<Event>, r: nat): nat {
    if log == [] then 0 else
    PressCount(log[..|log| - 1], r)
    + match log[|log| - 1]
      case Pressed(round, _, _) => if round == r then 1 else 0
      case _ => 0
  }

  function LastPresserOf(log: seq<Event>, r: nat): Option<AccountId> {
    if log == [] then None else
    match log[|log| - 1]
    case Pressed(round, who, _) => if round == r then Some(who) else LastPresserOf(log[..|log| - 1], r)
    case _ => LastPresserOf(log[..|log| - 1], r)
  }

  function Payments(log: seq<Event>, r: nat): seq<(AccountId, nat)> {
    if log == [] then [] else
    Payments(log[..|log| - 1], r)
    + match log[|log| - 1]
      case PressiahPaid(round, who, reward) => if round == r then [(who, reward)] else []
      case _ => []
  }

  function Minted(log: seq<Event>): nat {
    if log == [] then 0 else
    Minted(log[..|log| - 1])
    + match log[|log| - 1]
      case Pressed(_, _, reward) => reward
      case PressiahPaid(_, _, reward) => reward
      case TicketBought(_, _) => 0
  }

  function Proceeds(log: seq<Event>): nat {
    if log == [] then 0 else
    Proceeds(log[..|log| - 1])
    + match log[|log| - 1]
      case TicketBought(_, price) => price
      case _ => 0
  }

  function Purchases(log: seq<Event>): nat {
    if log == [] then 0 else
    Purchases(log[..|log| - 1]) + (if log[|log| - 1].TicketBought? then 1 else 0)
  }

  lemma LogAppend(log: seq<Event>, e: Event)
    ensures Minted(log + [e]) == Minted(log) + (if e.TicketBought? then 0 else e.reward)
    ensures Proceeds(log + [e]) == Proceeds(log) + (if e.TicketBought? then e.price else 0)
    ensures Purchases(log + [e]) == Purchases(log) + (if e.TicketBought? then 1 else 0)
  {
    assert (log + [e])[..|log|] == log;
  }

  lemma RoundAppend(log: seq<Event>, e: Event, r: nat)
    ensures PressTotal(log + [e], r) == PressTotal(log, r) + (if e.Pressed? && e.round == r then e.reward else 0)
    ensures PressCount(log + [e], r) == PressCount(log, r) + (if e.Pressed? && e.round == r then 1 else 0)
    ensures LastPresserOf(log + [e], r) == if e.Pressed? && e.round == r then Some(e.presser) else LastPresserOf(log, r)
    ensures Payments(log + [e], r)
            == Payments(log, r) + (if e.PressiahPaid? && e.round == r then [(e.who, e.reward)] else [])
  {
    assert (log + [e])[..|log|] == log;
  }

  // ---------------------------------------------------------------- rounds and the Pressiah

  /** A round is settled: its last presser got half of its rewards, rounded down, once, and a round
      nobody pressed in paid nothing. */
  predicate Settled(log: seq<Event>, r: nat) {
    match LastPresserOf(log, r)
    case None => Payments(log, r) == []
    case Some(who) => Payments(log, r) == [(who, PressTotal(log, r) / 2)]
  }

  predicate Untouched(log: seq<Event>, r: nat) {
    PressTotal(log, r) == 0 && PressCount(log, r) == 0 && LastPresserOf(log, r) == None && Payments(log, r) == []
  }

  /** The current round is open with its presser unpaid, or the button is dead and it is settled, or
      nobody pressed yet. */
  predicate CurrentRound(cfg: Config, g: Game, log: seq<Event>, clock: nat) {
    && g.totalRewards == PressTotal(log, g.round)
    && g.presses == PressCount(log, g.round)
    && (g.lastPresser.Some? ==> LastPresserOf(log, g.round) == g.lastPresser && Payments(log, g.round) == [])
    && (g.lastPresser.None? ==> || Untouched(log, g.round)
                                || (Settled(log, g.round) && IsDead(cfg, g, clock)))
  }

  ghost predicate RoundsOk(cfg: Config, g: Game, log: seq<Event>, clock: nat) {
    && g.lastPress <= clock
    && CurrentRound(cfg, g, log, clock)
    && (forall r :: 0 <= r < g.round ==> Settled(log, r))
    && (forall r :: r > g.round ==> Untouched(log, r))
  }

  lemma ClockAdvances(cfg: Config, g: Game, log: seq<Event>, clock: nat, now: nat)
    requires RoundsOk(cfg, g, log, clock) && clock <= now
    ensures RoundsOk(cfg, g, log, now)
  {}

  lemma PressKeepsRounds(cfg: Config, g: Game, log: seq<Event>, now: nat, caller: AccountId, reward: nat)
    requires RoundsOk(cfg, g, log, now) && !IsDead(cfg, g, now)
    requires g.totalRewards + reward <= U128_MAX
    ensures RoundsOk(cfg, Game(Some(caller), now, g.totalRewards + reward, g.presses + 1, g.round),
                     log + [Pressed(g.round, caller, reward)], now)
  {
    var e := Pressed(g.round, caller, reward);
    RoundAppend(log, e, g.round);
    forall r | 0 <= r < g.round ensures Settled(log + [e], r) {
      assert Settled(log, r);
      RoundAppend(log, e, r);
    }
    forall r | r > g.round ensures Untouched(log + [e], r) {
      assert Untouched(log, r);
      RoundAppend(log, e, r);
    }
  }

  lemma PayKeepsRounds(cfg: Config, w: World, now: nat)
    requires RoundsOk(cfg, w.game, w.log, now) && IsDead(cfg, w.game, now)
    ensures RoundsOk(cfg, PayPressiah(w).game, PayPressiah(w).log, now)
    ensures Settled(PayPressiah(w).log, w.game.round)
  {
    var g, log := w.game, w.log;
    if g.lastPresser.Some? {
      var e := PressiahPaid(g.round, g.lastPresser.value, g.totalRewards / 2);
      RoundAppend(log, e, g.round);
      forall r | 0 <= r < g.round ensures Settled(log + [e], r) {
        assert Settled(log, r);
        RoundAppend(log, e, r);
      }
      forall r | r > g.round ensures Untouched(log + [e], r) {
        assert Untouched(log, r);
        RoundAppend(log, e, r);
      }
    }
  }

  lemma ResetKeepsRounds(cfg: Config, g: Game, log: seq<Event>, now: nat)
    requires RoundsOk(cfg, g, log, now) && Settled(log, g.round)
    ensures RoundsOk(cfg, Game(None, now, 0, 0, g.round + 1), log, now)
  {
    assert Untouched(log, g.round + 1);
  }

  lemma BuyKeepsRounds(cfg: Config, g: Game, log: seq<Event>, now: nat, e: Event)
    requires RoundsOk(cfg, g, log, now) && e.TicketBought?
    ensures RoundsOk(cfg, g, log + [e], now)
  {
    RoundAppend(log, e, g.round);
    forall r | 0 <= r < g.round ensures Settled(log + [e], r) {
      assert Settled(log, r);
      RoundAppend(log, e, r);
    }
    forall r | r > g.round ensures Untouched(log + [e], r) {
      assert Untouched(log, r);
      RoundAppend(log, e, r);
    }
  }

  /** A world's rounds as they stand at a block. */
  ghost predicate RoundsIn(cfg: Config, w: World, clock: nat) {
    RoundsOk(cfg, w.game, w.log, clock)
  }

  lemma PressStepKeepsRounds(cfg: Config, w: World, caller: AccountId, now: nat)
    requires RoundsIn(cfg, w, now) && Press(cfg, w, caller, now).Done?
    ensures RoundsIn(cfg, Press(cfg, w, caller, now).world, now)
  {
    PressKeepsRounds(cfg, w.game, w.log, now, caller, Reward(cfg, w.game, now).value);
  }

  lemma ResetStepKeepsRounds(cfg: Config, w: World, now: nat)
    requires RoundsIn(cfg, w, now) && ResetGame(cfg, w, now).Done?
    ensures RoundsIn(cfg, ResetGame(cfg, w, now).world, now)
  {
    PayKeepsRounds(cfg, w, now);
    ResetKeepsRounds(cfg, PayPressiah(w).game, PayPressiah(w).log, now);
  }

  lemma BuyStepKeepsRounds(cfg: Config, w: World, caller: AccountId, maxPrice: Option<nat>, now: nat)
    requires w.market.ticketsSold > 0
    requires RoundsIn(cfg, w, now) && BuyTicket(cfg, w, caller, maxPrice, now).Done?
    ensures RoundsIn(cfg, BuyTicket(cfg, w, caller, maxPrice, now).world, now)
  {
    BuyKeepsRounds(cfg, w.game, w.log, now, TicketBought(caller, CurrentPrice(w.market, now).value));
  }

  lemma StepKeepsRounds(cfg: Config, w: World, c: Command, clock: nat)
    requires w.market.ticketsSold > 0 && c.at >= clock
    requires RoundsIn(cfg, w, clock)
    ensures RoundsIn(cfg, Step(cfg, w, c), c.at)
  {
    ClockAdvances(cfg, w.game, w.log, clock, c.at);
    assert RoundsIn(cfg, w, c.at);
    if Execute(cfg, w, c).Done? {
      match c.action
      case DoPress(caller) => PressStepKeepsRounds(cfg, w, caller, c.at);
      case DoReward => PayKeepsRounds(cfg, w, c.at);
      case DoReset => ResetStepKeepsRounds(cfg, w, c.at);
      case DoBuy(caller, maxPrice) => BuyStepKeepsRounds(cfg, w, caller, maxPrice, c.at);
      case DoAllow(_, _) =>
      case DoGive(_, _, _) =>
      case DoPay(_, _, _) =>
    }
  }

  function FinalBlock(commands: seq<Command>, clock: nat): nat {
    if commands == [] then clock else FinalBlock(commands[1..], commands[0].at)
  }

  lemma {:induction false} PlayKeepsRounds(cfg: Config, w: World, commands: seq<Command>, clock: nat)
    requires w.market.ticketsSold > 0 && Ordered(commands, clock)
    requires RoundsIn(cfg, w, clock)
    ensures RoundsIn(cfg, Play(cfg, w, commands), FinalBlock(commands, clock))
    decreases |commands|
  {
    if commands == [] {
    } else {
      StepKeepsRounds(cfg, w, commands[0], clock);
      PlayKeepsRounds(cfg, Step(cfg, w, commands[0]), commands[1..], commands[0].at);
    }
  }

  /** A world in which the game has just been set up at block `now`. */
  predicate Fresh(cfg: Config, w: World, now: nat) {
    && cfg.game != cfg.market
    && w.game == Game(None, now, 0, 0, 0)
    && w.log == []
    && w.market.ticketsSold > 0
    && BalanceOf(w.tickets, cfg.game) == 0
  }

  /** THE PRESSIAH IS PAID ONCE. In every run, a finished round paid its last presser exactly half of
      the rewards of its presses, rounded down, and nobody else; the running round has paid nobody, or
      the same after the button's death; and the running total is the sum over the round's presses. */
  lemma PressiahPaidOnce(cfg: Config, w: World, commands: seq<Command>, now: nat, r: nat)
    requires Fresh(cfg, w, now) && Ordered(commands, now)
    ensures var end := Play(cfg, w, commands);
            && end.game.totalRewards == PressTotal(end.log, end.game.round)
            && end.game.presses == PressCount(end.log, end.game.round)
            && (r < end.game.round ==> Settled(end.log, r))
            && (r == end.game.round ==> Payments(end.log, r) == [] || Settled(end.log, r))
            && (r > end.game.round ==> Untouched(end.log, r))
  {
    assert RoundsIn(cfg, w, now);
    PlayKeepsRounds(cfg, w, commands, now);
  }

  // ---------------------------------------------------------------- rewards

  predicate TimedScoring(cfg: Config) {
    cfg.scoring != ThePressiahCometh && cfg.lifetime > 0 && cfg.minReward <= cfg.maxReward
  }

  predicate RewardsBounded(cfg: Config, log: seq<Event>) {
    forall i :: 0 <= i < |log| && log[i].Pressed? ==> cfg.minReward <= log[i].reward <= cfg.maxReward
  }

  /** The score of a press on a live button never exceeds the lifetime. */
  lemma TimedRewardInRange(cfg: Config, g: Game, now: nat)
    requires TimedScoring(cfg) && g.lastPress <= now && !IsDead(cfg, g, now)
    ensures Reward(cfg, g, now).Some?
    ensures cfg.minReward <= Reward(cfg, g, now).value <= cfg.maxReward
  {
    MapDomainInRange(Score(cfg, g, now), cfg.lifetime, cfg.minReward, cfg.maxReward);
  }

  lemma StepKeepsRewards(cfg: Config, w: World, c: Command, clock: nat)
    requires w.market.ticketsSold > 0 && c.at >= clock && w.game.lastPress <= clock
    requires TimedScoring(cfg) && RewardsBounded(cfg, w.log)
    ensures RewardsBounded(cfg, Step(cfg, w, c).log)
  {
    if c.action.DoPress? && Execute(cfg, w, c).Done? {
      TimedRewardInRange(cfg, w.game, c.at);
    }
  }

  /** EVERY TIMED REWARD IS IN RANGE, over whole runs and even where the product saturates. */
  lemma {:induction false} TimedRewards(cfg: Config, w: World, commands: seq<Command>, clock: nat)
    requires w.market.ticketsSold > 0 && Ordered(commands, clock) && w.game.lastPress <= clock
    requires TimedScoring(cfg) && RewardsBounded(cfg, w.log)
    ensures RewardsBounded(cfg, Play(cfg, w, commands).log)
    decreases |commands|
  {
    if commands == [] {
    } else {
      StepKeepsRewards(cfg, w, commands[0], clock);
      TimedRewards(cfg, Step(cfg, w, commands[0]), commands[1..], commands[0].at);
    }
  }

  /** The rewards of a round of `ThePressiahCometh` form an arithmetic series. */
  predicate Series(cfg: Config, g: Game) {
    2 * g.totalRewards == cfg.minReward * (g.presses * (g.presses + 1))
  }

  /** A reward that saturated cannot be booked: the round's total would overflow first. */
  lemma SaturatedRewardFails(cfg: Config, g: Game)
    requires Series(cfg, g)
    requires g.totalRewards + SatMul(g.presses + 1, cfg.minReward, U128_MAX) <= U128_MAX
    ensures SatMul(g.presses + 1, cfg.minReward, U128_MAX) == (g.presses + 1) * cfg.minReward
  {
    if g.presses > 0 && cfg.minReward > 0 {
      MulMonotone(1, g.presses, g.presses + 1);
      MulMonotone(1, cfg.minReward, g.presses * (g.presses + 1));
      assert g.totalRewards >= 1;
    }
  }

  lemma SeriesGrows(min: nat, n: nat)
    ensures min * ((n + 1) * (n + 2)) == min * (n * (n + 1)) + 2 * ((n + 1) * min)
  {
    assert (n + 1) * (n + 2) == n * (n + 1) + 2 * (n + 1);
  }

  lemma StepKeepsSeries(cfg: Config, w: World, c: Command)
    requires w.market.ticketsSold > 0 && cfg.scoring == ThePressiahCometh && Series(cfg, w.game)
    ensures Series(cfg, Step(cfg, w, c).game)
  {
    if Execute(cfg, w, c).Done? {
      if c.action.DoPress? {
        SaturatedRewardFails(cfg, w.game);
        SeriesGrows(cfg.minReward, w.game.presses);
      }
    }
  }

  /** THE PRESSIAH'S SERIES. After `n` presses in a round the total is `minReward * n * (n + 1) / 2`,
      with no assumption about saturation. */
  lemma {:induction false} PressiahSeries(cfg: Config, w: World, commands: seq<Command>)
    requires w.market.ticketsSold > 0 && cfg.scoring == ThePressiahCometh && Series(cfg, w.game)
    ensures Series(cfg, Play(cfg, w, commands).game)
    decreases |commands|
  {
    if commands == [] {
    } else {
      StepKeepsSeries(cfg, w, commands[0]);
      PressiahSeries(cfg, Step(cfg, w, commands[0]), commands[1..]);
    }
  }

  // ---------------------------------------------------------------- the two ledgers

  /** Tickets sent to the game without pressing, since its last reset. */
  function NextGifts(cfg: Config, w: World, c: Command, gifts: nat): nat
    requires w.market.ticketsSold > 0
  {
    if Execute(cfg, w, c).Failed? then gifts else
    match c.action
    case DoReset => 0
    case DoGive(_, target, amount) => if target == cfg.game then gifts + amount else gifts
    case _ => gifts
  }

  function Gifts(cfg: Config, w: World, commands: seq<Command>, gifts: nat): nat
    requires w.market.ticketsSold > 0
    decreases |commands|
  {
    if commands == [] then gifts else
    Gifts(cfg, Step(cfg, w, commands[0]), commands[1..], NextGifts(cfg, w, commands[0], gifts))
  }

  /** The books relative to where a run started: tickets, rewards, and the auction's counters. */
  ghost predicate Books(cfg: Config, start: World, w: World, gifts: nat) {
    && Supply(w.tickets) == Supply(start.tickets)
    && BalanceOf(w.tickets, cfg.game) == w.game.presses + gifts
    && Supply(w.rewards) + Proceeds(w.log) == Supply(start.rewards) + Minted(w.log)
    && w.market.totalProceeds == Min(start.market.totalProceeds + Proceeds(w.log), U128_MAX)
    && w.market.ticketsSold == Min(start.market.ticketsSold + Purchases(w.log), U128_MAX)
  }

  lemma PressKeepsBooks(cfg: Config, start: World, w: World, gifts: nat, caller: AccountId, now: nat)
    requires Books(cfg, start, w, gifts) && Press(cfg, w, caller, now).Done? && caller != cfg.game
    ensures Books(cfg, start, Press(cfg, w, caller, now).world, gifts)
  {
    var reward := Reward(cfg, w.game, now).value;
    TransferFromConserves(w.tickets, cfg.game, caller, cfg.game, 1);
    MintAndBurnSupply(w.rewards, caller, reward);
    LogAppend(w.log, Pressed(w.game.round, caller, reward));
  }

  lemma PayKeepsBooks(cfg: Config, start: World, w: World, gifts: nat)
    requires Books(cfg, start, w, gifts)
    ensures Books(cfg, start, PayPressiah(w), gifts)
  {
    if w.game.lastPresser.Some? {
      var who, reward := w.game.lastPresser.value, w.game.totalRewards / 2;
      MintAndBurnSupply(w.rewards, who, reward);
      LogAppend(w.log, PressiahPaid(w.game.round, who, reward));
    }
  }

  lemma ResetKeepsBooks(cfg: Config, start: World, w: World, gifts: nat, now: nat)
    requires Books(cfg, start, w, gifts) && ResetGame(cfg, w, now).Done? && cfg.game != cfg.market
    ensures Books(cfg, start, ResetGame(cfg, w, now).world, 0)
  {
    PayKeepsBooks(cfg, start, w, gifts);
    var paid := PayPressiah(w);
    TransferConserves(paid.tickets, cfg.game, cfg.market, BalanceOf(paid.tickets, cfg.game));
  }

  lemma BuyKeepsBooks(cfg: Config, start: World, w: World, gifts: nat,
                      caller: AccountId, maxPrice: Option<nat>, now: nat)
    requires Books(cfg, start, w, gifts) && w.market.ticketsSold > 0
    requires BuyTicket(cfg, w, caller, maxPrice, now).Done? && caller != cfg.game && cfg.game != cfg.market
    ensures Books(cfg, start, BuyTicket(cfg, w, caller, maxPrice, now).world, gifts)
  {
    var price := CurrentPrice(w.market, now).value;
    TransferConserves(w.tickets, cfg.market, caller, 1);
    MintAndBurnSupply(w.rewards, caller, price);
    LogAppend(w.log, TicketBought(caller, price));
  }

  lemma StepKeepsBooks(cfg: Config, start: World, w: World, gifts: nat, c: Command)
    requires Books(cfg, start, w, gifts) && w.market.ticketsSold > 0
    requires Playable(cfg, c) && cfg.game != cfg.market
    ensures Books(cfg, start, Step(cfg, w, c), NextGifts(cfg, w, c, gifts))
  {
    if Execute(cfg, w, c).Done? {
      match c.action
      case DoPress(caller) => PressKeepsBooks(cfg, start, w, gifts, caller, c.at);
      case DoReward => PayKeepsBooks(cfg, start, w, gifts);
      case DoReset => ResetKeepsBooks(cfg, start, w, gifts, c.at);
      case DoBuy(caller, maxPrice) => BuyKeepsBooks(cfg, start, w, gifts, caller, maxPrice, c.at);
      case DoAllow(_, _) =>
      case DoGive(source, target, amount) => TransferConserves(w.tickets, source, target, amount);
      case DoPay(source, target, amount) => TransferConserves(w.rewards, source, target, amount);
    }
  }

  lemma {:induction false} PlayKeepsBooks(cfg: Config, start: World, w: World, gifts: nat, commands: seq<Command>)
    requires Books(cfg, start, w, gifts) && w.market.ticketsSold > 0
    requires AllPlayable(cfg, commands) && cfg.game != cfg.market
    ensures Books(cfg, start, Play(cfg, w, commands), Gifts(cfg, w, commands, gifts))
    decreases |commands|
  {
    if commands == [] {
    } else {
      StepKeepsBooks(cfg, start, w, gifts, commands[0]);
      PlayKeepsBooks(cfg, start, Step(cfg, w, commands[0]), NextGifts(cfg, w, commands[0], gifts), commands[1..]);
    }
  }

  /** Nobody sends the game a ticket without pressing. */
  predicate NoGifts(cfg: Config, commands: seq<Command>) {
    forall i :: 0 <= i < |commands| && commands[i].action.DoGive? ==> commands[i].action.target != cfg.game
  }

  lemma {:induction false} GiftsOnlyGiven(cfg: Config, w: World, commands: seq<Command>)
    requires w.market.ticketsSold > 0 && NoGifts(cfg, commands)
    ensures Gifts(cfg, w, commands, 0) == 0
    decreases |commands|
  {
    if commands == [] {
    } else {
      GiftsOnlyGiven(cfg, Step(cfg, w, commands[0]), commands[1..]);
    }
  }

  /** THE BOOKS BALANCE. Across every interleaving: no ticket is made or lost, the game holds one per
      press since its last reset plus what it was given, reward tokens are what was there plus what was
      minted minus what the auction burnt, and the auction's counters are its seed plus its sales, up to
      saturation. */
  lemma BooksBalance(cfg: Config, w: World, commands: seq<Command>, now: nat)
    requires Fresh(cfg, w, now) && AllPlayable(cfg, commands)
    ensures var end := Play(cfg, w, commands);
            && Supply(end.tickets) == Supply(w.tickets)
            && BalanceOf(end.tickets, cfg.game) == end.game.presses + Gifts(cfg, w, commands, 0)
            && (NoGifts(cfg, commands) ==> BalanceOf(end.tickets, cfg.game) == end.game.presses)
            && Supply(end.rewards) == Supply(w.rewards) + Minted(end.log) - Proceeds(end.log)
            && end.market.totalProceeds == Min(w.market.totalProceeds + Proceeds(end.log), U128_MAX)
            && end.market.ticketsSold == Min(w.market.ticketsSold + Purchases(end.log), U128_MAX)
  {
    PlayKeepsBooks(cfg, w, w, 0, commands);
    if NoGifts(cfg, commands) {
      GiftsOnlyGiven(cfg, w, commands);
    }
  }

  // ---------------------------------------------------------------- whose rewards they are

  /** What the log says an account earned by pressing and as Pressiah, and what it paid for tickets. */
  function Earned(log: seq<Event>, who: AccountId): nat {
    if log == [] then 0 else
    Earned(log[..|log| - 1], who)
    + match log[|log| - 1]
      case Pressed(_, presser, reward) => if presser == who then reward else 0
      case PressiahPaid(_, pressiah, reward) => if pressiah == who then reward else 0
      case TicketBought(_, _) => 0
  }

  function Spent(log: seq<Event>, who: AccountId): nat {
    if log == [] then 0 else
    Spent(log[..|log| - 1], who)
    + match log[|log| - 1]
      case TicketBought(buyer, price) => if buyer == who then price else 0
      case _ => 0
  }

  /** Reward tokens an account got from others less those it gave away. */
  function NetPaid(cfg: Config, w: World, commands: seq<Command>, who: AccountId): int
    requires w.market.ticketsSold > 0
    decreases |commands|
  {
    if commands == [] then 0 else
    (match commands[0].action
     case DoPay(source, target, amount) =>
       if Execute(cfg, w, commands[0]).Done? then
         (if target == who then amount else 0) - (if source == who then amount else 0)
       else 0
     case _ => 0)
    + NetPaid(cfg, Step(cfg, w, commands[0]), commands[1..], who)
  }

  /** An account's rewards apart from payments among players. */
  function OwnRewards(w: World, who: AccountId): int {
    BalanceOf(w.rewards, who) - Earned(w.log, who) + Spent(w.log, who)
  }

  lemma AccountAppend(log: seq<Event>, e: Event, who: AccountId)
    ensures Earned(log + [e], who)
            == Earned(log, who) + (if (e.Pressed? && e.presser == who) || (e.PressiahPaid? && e.who == who) then e.reward else 0)
    ensures Spent(log + [e], who) == Spent(log, who) + (if e.TicketBought? && e.buyer == who then e.price else 0)
  {
    assert (log + [e])[..|log|] == log;
  }

  lemma PayKeepsOwn(w: World, who: AccountId)
    ensures OwnRewards(PayPressiah(w), who) == OwnRewards(w, who)
  {
    if w.game.lastPresser.Some? {
      AccountAppend(w.log, PressiahPaid(w.game.round, w.game.lastPresser.value, w.game.totalRewards / 2), who);
    }
  }

  lemma PressKeepsOwn(cfg: Config, w: World, caller: AccountId, now: nat, who: AccountId)
    requires Press(cfg, w, caller, now).Done?
    ensures OwnRewards(Press(cfg, w, caller, now).world, who) == OwnRewards(w, who)
  {
    AccountAppend(w.log, Pressed(w.game.round, caller, Reward(cfg, w.game, now).value), who);
  }

  lemma BuyKeepsOwn(cfg: Config, w: World, caller: AccountId, maxPrice: Option<nat>, now: nat, who: AccountId)
    requires w.market.ticketsSold > 0 && BuyTicket(cfg, w, caller, maxPrice, now).Done?
    ensures OwnRewards(BuyTicket(cfg, w, caller, maxPrice, now).world, who) == OwnRewards(w, who)
  {
    AccountAppend(w.log, TicketBought(caller, CurrentPrice(w.market, now).value), who);
  }

  lemma StepKeepsOwn(cfg: Config, w: World, c: Command, who: AccountId)
    requires w.market.ticketsSold > 0
    ensures OwnRewards(Step(cfg, w, c), who) == OwnRewards(w, who) + NetPaid(cfg, w, [c], who)
  {
    assert [c][1..] == [];
    if Execute(cfg, w, c).Done? {
      match c.action
      case DoPress(caller) => PressKeepsOwn(cfg, w, caller, c.at, who);
      case DoReward => PayKeepsOwn(w, who);
      case DoReset => PayKeepsOwn(w, who);
      case DoBuy(caller, maxPrice) => BuyKeepsOwn(cfg, w, caller, maxPrice, c.at, who);
      case DoAllow(_, _) =>
      case DoGive(_, _, _) =>
      case DoPay(source, target, amount) => TransferMoves(w.rewards, source, target, amount, who);
    }
  }

  lemma {:induction false} PlayKeepsOwn(cfg: Config, w: World, commands: seq<Command>, who: AccountId)
    requires w.market.ticketsSold > 0
    ensures OwnRewards(Play(cfg, w, commands), who) == OwnRewards(w, who) + NetPaid(cfg, w, commands, who)
    decreases |commands|
  {
    if commands == [] {
    } else {
      StepKeepsOwn(cfg, w, commands[0], who);
      PlayKeepsOwn(cfg, Step(cfg, w, commands[0]), commands[1..], who);
      assert [commands[0]][1..] == [];
    }
  }

  /** EVERYONE HAS WHAT THEY EARNED. In every run each account's reward tokens are those it had, plus its
      press rewards and its pay as Pressiah, minus the prices it paid, plus what players paid each other. */
  lemma RewardBalances(cfg: Config, w: World, commands: seq<Command>, now: nat, who: AccountId)
    requires Fresh(cfg, w, now)
    ensures var end := Play(cfg, w, commands);
            BalanceOf(end.rewards, who)
            == BalanceOf(w.rewards, who) + Earned(end.log, who) - Spent(end.log, who) + NetPaid(cfg, w, commands, who)
  {
    PlayKeepsOwn(cfg, w, commands, who);
  }

  // ---------------------------------------------------------------- prices during play

  lemma StepKeepsAuction(cfg: Config, w: World, c: Command)
    requires Covered(w.market)
    ensures var after := Step(cfg, w, c).market;
            && Covered(after)
            && after.minPrice == w.market.minPrice && after.saleMultiplier == w.market.saleMultiplier
  {
    if c.action.DoBuy? && Execute(cfg, w, c).Done? {
      SoldKeepsCovered(w.market, CurrentPrice(w.market, c.at).value, c.at);
    }
  }

  lemma {:induction false} PlayKeepsAuction(cfg: Config, w: World, commands: seq<Command>)
    requires Covered(w.market)
    ensures var after := Play(cfg, w, commands).market;
            && Covered(after)
            && after.minPrice == w.market.minPrice && after.saleMultiplier == w.market.saleMultiplier
    decreases |commands|
  {
    if commands == [] {
    } else {
      StepKeepsAuction(cfg, w, commands[0]);
      PlayKeepsAuction(cfg, Step(cfg, w, commands[0]), commands[1..]);
    }
  }

  /** Whatever was played before, a purchase burns a price between the minimal one and the auction's
      start, as long as the minimal price of all tickets sold fits the counter. */
  lemma PurchaseSound(cfg: Config, w: World, commands: seq<Command>, caller: AccountId, maxPrice: Option<nat>, now: nat)
    requires Covered(w.market) && Wellpriced(w.market)
    requires var market := Play(cfg, w, commands).market; market.ticketsSold * market.minPrice <= U128_MAX
    requires BuyTicket(cfg, Play(cfg, w, commands), caller, maxPrice, now).Done?
    ensures var before := Play(cfg, w, commands);
            var after := BuyTicket(cfg, before, caller, maxPrice, now).world;
            var price := BalanceOf(before.rewards, caller) - BalanceOf(after.rewards, caller);
            && w.market.minPrice <= price <= StartPrice(before.market)
            && (maxPrice.Some? ==> price <= maxPrice.value)
            && after.log == before.log + [TicketBought(caller, price)]
  {
    PlayKeepsAuction(cfg, w, commands);
    var before := Play(cfg, w, commands);
    AverageAboveMinIff(before.market);
    PriceSound(before.market, now);
  }
}
