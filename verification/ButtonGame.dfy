/** The button game and the ticket auction it feeds, over one ticket ledger and one reward ledger. */
module ButtonGame {
  import opened Arithmetic
  import opened Psp22
  import opened Marketplace

  datatype Scoring = EarlyBirdSpecial | BackToTheFuture | ThePressiahCometh

  /** What stays fixed during play: the two contracts' accounts and the game's parameters. */
  datatype Config = Config(
    game: AccountId,
    market: AccountId,
    lifetime: nat,
    scoring: Scoring,
    minReward: u128,
    maxReward: u128)

  datatype Game = Game(
    lastPresser: Option<AccountId>,
    lastPress: nat,
    totalRewards: u128,
    presses: nat,
    round: nat)

  /** The events the contracts emit. */
  datatype Event =
    | Pressed(round: nat, presser: AccountId, reward: nat)
    | PressiahPaid(round: nat, who: AccountId, reward: nat)
    | TicketBought(buyer: AccountId, price: nat)

  datatype World = World(game: Game, market: Market, tickets: Ledger, rewards: Ledger, log: seq<Event>)

  datatype GameError =
    | AfterDeadline
    | BeforeDeadline
    | Psp22Failure
    | Overflow
    | MarketplaceEmpty
    | MaxPriceExceeded
    | Trapped

  datatype Outcome = Done(world: World) | Failed(error: GameError)

  // ---------------------------------------------------------------- rewards

  /** Maps `[inMin, inMax]` to `[outMin, outMax]` in saturating arithmetic; `None` is a division by zero. */
  function MapDomain(value: nat, inMin: nat, inMax: nat, outMin: nat, outMax: nat): Option<nat> {
    var inRange := Monus(inMax, inMin);
    var outRange := Monus(outMax, outMin);
    if inRange == 0 then None else
    Some(SatAdd(outMin, SatMul(Monus(value, inMin), outRange, U128_MAX) / inRange, U128_MAX))
  }

  function Deadline(cfg: Config, g: Game): nat {
    g.lastPress + cfg.lifetime
  }

  function Score(cfg: Config, g: Game, now: nat): nat {
    match cfg.scoring
    case EarlyBirdSpecial => Monus(Deadline(cfg, g), now)
    case BackToTheFuture => Monus(now, g.lastPress)
    case ThePressiahCometh => g.presses + 1
  }

  function Reward(cfg: Config, g: Game, now: nat): Option<nat> {
    if cfg.scoring == ThePressiahCometh
    then Some(SatMul(Score(cfg, g, now), cfg.minReward, U128_MAX))
    else MapDomain(Score(cfg, g, now), 0, cfg.lifetime, cfg.minReward, cfg.maxReward)
  }

  /** A value inside the domain lands inside the range, whether or not the product saturates. */
  lemma MapDomainInRange(value: nat, inMax: nat, outMin: u128, outMax: u128)
    requires value <= inMax && inMax > 0 && outMin <= outMax
    ensures MapDomain(value, 0, inMax, outMin, outMax).Some?
    ensures outMin <= MapDomain(value, 0, inMax, outMin, outMax).value <= outMax
  {
    var outRange := outMax - outMin;
    var product := SatMul(value, outRange, U128_MAX);
    MulMonotone(value, inMax, outRange);
    FloorMonotone(product, inMax * outRange, inMax);
    FloorAddMultiple(0, outRange, inMax);
    FloorAtLeast(product, inMax, 0);
  }

  /** THE MAPPING IS THE STRAIGHT LINE, rounded down, up to where the product saturates. */
  lemma MapDomainExact(value: nat, inMax: nat, outMin: u128, outMax: u128)
    requires value <= inMax && inMax > 0 && outMin <= outMax
    ensures MapDomain(value, 0, inMax, outMin, outMax).Some?
    ensures var r, product := MapDomain(value, 0, inMax, outMin, outMax).value, Min(value * (outMax - outMin), U128_MAX);
            inMax * (r - outMin) <= product < inMax * (r - outMin) + inMax
  {
    var outRange := outMax - outMin;
    MulNonNegative(value, outRange);
    var product := Min(value * outRange, U128_MAX);
    MulMonotone(value, inMax, outRange);
    FloorBounds(product, inMax);
    FloorAtLeast(product, inMax, 0);
    FloorMonotone(product, inMax * outRange, inMax);
    FloorAddMultiple(0, outRange, inMax);
  }

  /** A zero score earns the least and a full one the most. */
  lemma MapDomainEnds(inMax: nat, outMin: u128, outMax: u128)
    requires inMax > 0 && outMin <= outMax
    ensures MapDomain(0, 0, inMax, outMin, outMax) == Some(outMin)
    ensures inMax * (outMax - outMin) <= U128_MAX ==> MapDomain(inMax, 0, inMax, outMin, outMax) == Some(outMax)
  {
    FloorAddMultiple(0, outMax - outMin, inMax);
    FloorAddMultiple(0, 0, inMax);
  }

  /** A higher score never earns less. */
  lemma MapDomainMonotone(value: nat, higher: nat, inMax: nat, outMin: u128, outMax: u128)
    requires value <= higher <= inMax && inMax > 0
    ensures MapDomain(value, 0, inMax, outMin, outMax).value <= MapDomain(higher, 0, inMax, outMin, outMax).value
  {
    var outRange := Monus(outMax, outMin);
    MulMonotone(value, higher, outRange);
    FloorMonotone(SatMul(value, outRange, U128_MAX), SatMul(higher, outRange, U128_MAX), inMax);
  }

  // ---------------------------------------------------------------- the messages

  /** `last_press + button_lifetime` is computed in 32 bits and traps on overflow. */
  predicate DeadlineOverflows(cfg: Config, g: Game) {
    Deadline(cfg, g) > U32_MAX
  }

  predicate IsDead(cfg: Config, g: Game, now: nat) {
    now > Deadline(cfg, g)
  }

  /** EARLY AND LATE. While the button lives, waiting never raises an early bird's reward and never lowers
      a latecomer's; without a timer the block does not matter and each press earns `minReward` more. */
  lemma RewardByBlock(cfg: Config, g: Game, now: nat, later: nat)
    requires g.lastPress <= now <= later && !IsDead(cfg, g, later)
    requires cfg.scoring != ThePressiahCometh ==> cfg.lifetime > 0
    ensures Reward(cfg, g, now).Some? && Reward(cfg, g, later).Some?
    ensures match cfg.scoring
            case EarlyBirdSpecial => Reward(cfg, g, now).value >= Reward(cfg, g, later).value
            case BackToTheFuture => Reward(cfg, g, now).value <= Reward(cfg, g, later).value
            case ThePressiahCometh => Reward(cfg, g, now) == Reward(cfg, g, later)
                                      == Some(Min((g.presses + 1) * cfg.minReward, U128_MAX))
  {
    match cfg.scoring
    case EarlyBirdSpecial =>
      MapDomainMonotone(Score(cfg, g, later), Score(cfg, g, now), cfg.lifetime, cfg.minReward, cfg.maxReward);
    case BackToTheFuture =>
      MapDomainMonotone(Score(cfg, g, now), Score(cfg, g, later), cfg.lifetime, cfg.minReward, cfg.maxReward);
    case ThePressiahCometh =>
  }

  /** How many blocks count for a timed press: those left, or those waited. */
  function TimedBlocks(cfg: Config, lastPress: nat, now: nat): int {
    if cfg.scoring == EarlyBirdSpecial then lastPress + cfg.lifetime - now else now - lastPress
  }

  /** TIMED REWARDS ARE LINEAR IN THE BLOCKS: proportional to the blocks that count, between the least and
      the highest reward, both of which are paid at the ends of the lifetime. */
  lemma TimedRewardExact(cfg: Config, g: Game, now: nat)
    requires cfg.scoring != ThePressiahCometh && cfg.lifetime > 0 && cfg.minReward <= cfg.maxReward
    requires g.lastPress <= now <= g.lastPress + cfg.lifetime
    ensures Reward(cfg, g, now).Some?
    ensures var r, blocks, range := Reward(cfg, g, now).value, TimedBlocks(cfg, g.lastPress, now), cfg.maxReward - cfg.minReward;
            && cfg.lifetime * (r - cfg.minReward) <= Min(blocks * range, U128_MAX) < cfg.lifetime * (r - cfg.minReward) + cfg.lifetime
            && (blocks == 0 ==> r == cfg.minReward)
            && (blocks == cfg.lifetime && blocks * range <= U128_MAX ==> r == cfg.maxReward)
  {
    var blocks := TimedBlocks(cfg, g.lastPress, now);
    MapDomainExact(blocks, cfg.lifetime, cfg.minReward, cfg.maxReward);
    MapDomainEnds(cfg.lifetime, cfg.minReward, cfg.maxReward);
  }

  function Press(cfg: Config, w: World, caller: AccountId, now: nat): Outcome {
    if DeadlineOverflows(cfg, w.game) then Failed(Trapped)
    else if IsDead(cfg, w.game, now) then Failed(AfterDeadline)
    else
      match TransferFrom(w.tickets, cfg.game, caller, cfg.game, 1)
      case None => Failed(Psp22Failure)
      case Some(tickets) =>
        match Reward(cfg, w.game, now)
        case None => Failed(Trapped)
        case Some(reward) =>
          if w.game.totalRewards + reward > U128_MAX then Failed(Overflow) else
          Done(World(
            Game(Some(caller), now, w.game.totalRewards + reward, w.game.presses + 1, w.game.round),
            w.market, tickets, Mint(w.rewards, caller, reward),
            w.log + [Pressed(w.game.round, caller, reward)]))
  }

  /** Pays half the round's rewards to the last presser, once. */
  function PayPressiah(w: World): World {
    match w.game.lastPresser
    case None => w
    case Some(who) =>
      var reward := w.game.totalRewards / 2;
      w.(game := w.game.(lastPresser := None),
         rewards := Mint(w.rewards, who, reward),
         log := w.log + [PressiahPaid(w.game.round, who, reward)])
  }

  function RewardPressiah(cfg: Config, w: World, now: nat): Outcome {
    if DeadlineOverflows(cfg, w.game) then Failed(Trapped)
    else if !IsDead(cfg, w.game, now) then Failed(BeforeDeadline)
    else Done(PayPressiah(w))
  }

  function ResetGame(cfg: Config, w: World, now: nat): Outcome {
    if DeadlineOverflows(cfg, w.game) then Failed(Trapped)
    else if !IsDead(cfg, w.game, now) then Failed(BeforeDeadline)
    else
      var paid := PayPressiah(w);
      match Transfer(paid.tickets, cfg.game, cfg.market, BalanceOf(paid.tickets, cfg.game))
      case None => Failed(Psp22Failure)
      case Some(tickets) =>
        if w.game.round + 1 > U64_MAX then Failed(Overflow) else
        Done(paid.(game := Game(None, now, 0, 0, w.game.round + 1),
                   market := Restarted(paid.market, now),
                   tickets := tickets))
  }

  function BuyTicket(cfg: Config, w: World, caller: AccountId, maxPrice: Option<nat>, now: nat): Outcome
    requires w.market.ticketsSold > 0
  {
    if BalanceOf(w.tickets, cfg.market) == 0 then Failed(MarketplaceEmpty) else
    match CurrentPrice(w.market, now)
    case None => Failed(Trapped)
    case Some(price) =>
      if maxPrice.Some? && price > maxPrice.value then Failed(MaxPriceExceeded) else
      match Burn(w.rewards, caller, price)
      case None => Failed(Psp22Failure)
      case Some(rewards) =>
        match Transfer(w.tickets, cfg.market, caller, 1)
        case None => Failed(Psp22Failure)
        case Some(tickets) =>
          Done(World(w.game, Sold(w.market, price, now), tickets, rewards, w.log + [TicketBought(caller, price)]))
  }

  // ---------------------------------------------------------------- what the messages do

  /** A plain transfer seen from one account. */
  lemma TransferMoves(l: Ledger, source: AccountId, target: AccountId, amount: nat, who: AccountId)
    ensures Transfer(l, source, target, amount).Some? <==> amount <= BalanceOf(l, source)
    ensures Transfer(l, source, target, amount).Some? ==>
              BalanceOf(Transfer(l, source, target, amount).value, who)
              == BalanceOf(l, who) + (if who == target then amount else 0) - (if who == source then amount else 0)
  {}

  /** A PRESS goes through exactly on a live button for somebody with a ticket the game may take, unless the
      round's total overflows. It takes that ticket into the game, pays the reward to the presser, and keeps
      the button alive for another lifetime. */
  lemma PressEffect(cfg: Config, w: World, caller: AccountId, now: nat, who: AccountId, later: nat)
    requires caller != cfg.game
    ensures var reward := Reward(cfg, w.game, now);
            Press(cfg, w, caller, now).Done?
            <==> && now <= w.game.lastPress + cfg.lifetime <= U32_MAX
                 && BalanceOf(w.tickets, caller) >= 1 && Allowance(w.tickets, caller, cfg.game) >= 1
                 && reward.Some? && w.game.totalRewards + reward.value <= U128_MAX
    ensures Press(cfg, w, caller, now).Done? ==>
              var after, reward := Press(cfg, w, caller, now).world, Reward(cfg, w.game, now).value;
              && BalanceOf(after.tickets, who)
                 == BalanceOf(w.tickets, who) + (if who == cfg.game then 1 else 0) - (if who == caller then 1 else 0)
              && Allowance(after.tickets, caller, cfg.game) == Allowance(w.tickets, caller, cfg.game) - 1
              && BalanceOf(after.rewards, who) == BalanceOf(w.rewards, who) + (if who == caller then reward else 0)
              && (IsDead(cfg, after.game, later) <==> later > now + cfg.lifetime)
              && after.market == w.market
  {}

  /** THE PRESSIAH'S PAY goes to the last presser and to nobody else, exactly after the deadline. */
  lemma PayEffect(cfg: Config, w: World, now: nat, who: AccountId)
    ensures RewardPressiah(cfg, w, now).Done? <==> w.game.lastPress + cfg.lifetime <= U32_MAX && now > w.game.lastPress + cfg.lifetime
    ensures RewardPressiah(cfg, w, now).Done? ==>
              var after := RewardPressiah(cfg, w, now).world;
              && BalanceOf(after.rewards, who)
                 == BalanceOf(w.rewards, who) + (if w.game.lastPresser == Some(who) then w.game.totalRewards / 2 else 0)
              && after.game == w.game.(lastPresser := None)
              && after.tickets == w.tickets && after.market == w.market
  {}

  /** A RESET is possible exactly after the deadline, up to the last round number. It pays the Pressiah,
      moves all the game's tickets to the marketplace, restarts the auction and opens a live round. */
  lemma ResetEffect(cfg: Config, w: World, now: nat, who: AccountId, later: nat)
    requires cfg.game != cfg.market
    ensures ResetGame(cfg, w, now).Done?
            <==> w.game.lastPress + cfg.lifetime <= U32_MAX && now > w.game.lastPress + cfg.lifetime && w.game.round < U64_MAX
    ensures ResetGame(cfg, w, now).Done? ==>
              var after, held := ResetGame(cfg, w, now).world, BalanceOf(w.tickets, cfg.game);
              && BalanceOf(after.tickets, who)
                 == (if who == cfg.game then 0 else BalanceOf(w.tickets, who) + if who == cfg.market then held else 0)
              && BalanceOf(after.rewards, who)
                 == BalanceOf(w.rewards, who) + (if w.game.lastPresser == Some(who) then w.game.totalRewards / 2 else 0)
              && (IsDead(cfg, after.game, later) <==> later > now + cfg.lifetime)
              && after.game.round == w.game.round + 1 && after.game.presses == 0 && after.game.lastPresser == None
              && after.market == w.market.(startBlock := now)
  {
    TransferMoves(w.tickets, cfg.game, cfg.market, BalanceOf(w.tickets, cfg.game), who);
  }

  /** A PURCHASE goes through exactly when the marketplace has a ticket, the price is defined and within the
      buyer's limit, and the buyer has it. The buyer's price is burnt and the ticket is the buyer's. */
  lemma BuyEffect(cfg: Config, w: World, caller: AccountId, maxPrice: Option<nat>, now: nat, who: AccountId)
    requires w.market.ticketsSold > 0
    ensures BuyTicket(cfg, w, caller, maxPrice, now).Done?
            <==> && BalanceOf(w.tickets, cfg.market) > 0 && CurrentPrice(w.market, now).Some?
                 && CurrentPrice(w.market, now).value <= BalanceOf(w.rewards, caller)
                 && (maxPrice.Some? ==> CurrentPrice(w.market, now).value <= maxPrice.value)
    ensures BuyTicket(cfg, w, caller, maxPrice, now).Done? ==>
              var after, price := BuyTicket(cfg, w, caller, maxPrice, now).world, CurrentPrice(w.market, now).value;
              && BalanceOf(after.tickets, who)
                 == BalanceOf(w.tickets, who) + (if who == caller then 1 else 0) - (if who == cfg.market then 1 else 0)
              && BalanceOf(after.rewards, who) == BalanceOf(w.rewards, who) - (if who == caller then price else 0)
              && after.game == w.game && after.market.startBlock == now
  {
    TransferMoves(w.tickets, cfg.market, caller, 1, who);
  }

  /** A reward is undefined exactly for a timed button without a lifetime. */
  lemma RewardDefinedIff(cfg: Config, g: Game, now: nat)
    ensures Reward(cfg, g, now).Some? <==> cfg.scoring == ThePressiahCometh || cfg.lifetime > 0
  {}

  /** A failed message names what is wrong. */
  lemma MessageErrors(cfg: Config, w: World, caller: AccountId, maxPrice: Option<nat>, now: nat)
    requires w.market.ticketsSold > 0
    ensures Press(cfg, w, caller, now).Failed? ==>
              match Press(cfg, w, caller, now).error
              case Trapped => w.game.lastPress + cfg.lifetime > U32_MAX || Reward(cfg, w.game, now) == None
              case AfterDeadline => now > w.game.lastPress + cfg.lifetime
              case Psp22Failure => BalanceOf(w.tickets, caller) < 1 || Allowance(w.tickets, caller, cfg.game) < 1
              case Overflow => Reward(cfg, w.game, now).Some? && w.game.totalRewards + Reward(cfg, w.game, now).value > U128_MAX
              case _ => false
    ensures RewardPressiah(cfg, w, now).Failed? ==>
              RewardPressiah(cfg, w, now).error
              == if w.game.lastPress + cfg.lifetime > U32_MAX then Trapped else BeforeDeadline
    ensures ResetGame(cfg, w, now).Failed? ==>
              ResetGame(cfg, w, now).error
              == if w.game.lastPress + cfg.lifetime > U32_MAX then Trapped
                 else if now <= w.game.lastPress + cfg.lifetime then BeforeDeadline else Overflow
    ensures BuyTicket(cfg, w, caller, maxPrice, now).Failed? ==>
              match BuyTicket(cfg, w, caller, maxPrice, now).error
              case MarketplaceEmpty => BalanceOf(w.tickets, cfg.market) == 0
              case Trapped => CurrentPrice(w.market, now) == None
              case MaxPriceExceeded => maxPrice.Some? && CurrentPrice(w.market, now).Some? && CurrentPrice(w.market, now).value > maxPrice.value
              case Psp22Failure => CurrentPrice(w.market, now).Some? && BalanceOf(w.rewards, caller) < CurrentPrice(w.market, now).value
              case _ => false
  {}

  // ---------------------------------------------------------------- the contracts' storage

  class GameChain {
    const cfg: Config
    var game: Game
    var market: Market
    var tickets: Ledger
    var rewards: Ledger
    var log: seq<Event>

    ghost function Value(): World
      reads this
    {
      World(game, market, tickets, rewards, log)
    }

    /** The game starts its first round at block `now`, over ledgers and an auction set up before. */
    constructor (cfg: Config, market: Market, tickets: Ledger, rewards: Ledger, now: nat)
      ensures this.cfg == cfg
      ensures Value() == World(Game(None, now, 0, 0, 0), market, tickets, rewards, [])
    {
      this.cfg, this.market, this.tickets, this.rewards := cfg, market, tickets, rewards;
      game := Game(None, now, 0, 0, 0);
      log := [];
    }

    /** Takes a ticket, mints the reward and records the press; a failure puts the ledgers back. */
    method PressButton(caller: AccountId, now: nat) returns (error: Option<GameError>)
      modifies this
      ensures match Press(cfg, old(Value()), caller, now)
              case Done(w) => error == None && Value() == w
              case Failed(e) => error == Some(e) && Value() == old(Value())
    {
      if DeadlineOverflows(cfg, game) {
        return Some(Trapped);
      }
      if IsDead(cfg, game, now) {
        return Some(AfterDeadline);
      }
      var ticketsBefore, rewardsBefore, logBefore := tickets, rewards, log;
      var moved := TransferFrom(tickets, cfg.game, caller, cfg.game, 1);
      if moved.None? {
        return Some(Psp22Failure);
      }
      tickets := moved.value;
      var data := game;
      var score := Score(cfg, data, now);
      var reward;
      match cfg.scoring {
        case ThePressiahCometh =>
          reward := SatMul(score, cfg.minReward, U128_MAX);
        case _ =>
          var mapped := MapDomain(score, 0, cfg.lifetime, cfg.minReward, cfg.maxReward);
          if mapped.None? {
            tickets := ticketsBefore;
            return Some(Trapped);
          }
          reward := mapped.value;
      }
      rewards := Mint(rewards, caller, reward);
      log := log + [Pressed(data.round, caller, reward)];
      if data.totalRewards + reward > U128_MAX {
        tickets, rewards, log := ticketsBefore, rewardsBefore, logBefore;
        return Some(Overflow);
      }
      data := data.(presses := data.presses + 1);
      data := data.(lastPresser := Some(caller));
      data := data.(lastPress := now);
      data := data.(totalRewards := data.totalRewards + reward);
      game := data;
      return None;
    }

    method DoRewardPressiah()
      modifies this
      ensures Value() == PayPressiah(old(Value()))
    {
      if game.lastPresser.Some? {
        var who := game.lastPresser.value;
        var reward := game.totalRewards / 2;
        rewards := Mint(rewards, who, reward);
        log := log + [PressiahPaid(game.round, who, reward)];
        game := game.(lastPresser := None);
      }
    }

    method RewardThePressiah(now: nat) returns (error: Option<GameError>)
      modifies this
      ensures match RewardPressiah(cfg, old(Value()), now)
              case Done(w) => error == None && Value() == w
              case Failed(e) => error == Some(e) && Value() == old(Value())
    {
      if DeadlineOverflows(cfg, game) {
        return Some(Trapped);
      }
      if !IsDead(cfg, game, now) {
        return Some(BeforeDeadline);
      }
      DoRewardPressiah();
      return None;
    }

    method Reset(now: nat) returns (error: Option<GameError>)
      modifies this
      ensures match ResetGame(cfg, old(Value()), now)
              case Done(w) => error == None && Value() == w
              case Failed(e) => error == Some(e) && Value() == old(Value())
    {
      if DeadlineOverflows(cfg, game) {
        return Some(Trapped);
      }
      if !IsDead(cfg, game, now) {
        return Some(BeforeDeadline);
      }
      var gameBefore, marketBefore, ticketsBefore := game, market, tickets;
      var rewardsBefore, logBefore := rewards, log;
      DoRewardPressiah();
      var moved := Transfer(tickets, cfg.game, cfg.market, BalanceOf(tickets, cfg.game));
      assert moved.Some?;  // the game can always part with all it holds
      tickets := moved.value;
      market := Restarted(market, now);
      if game.round + 1 > U64_MAX {
        game, market, tickets, rewards, log := gameBefore, marketBefore, ticketsBefore, rewardsBefore, logBefore;
        return Some(Overflow);
      }
      game := Game(None, now, 0, 0, game.round + 1);
      return None;
    }

    method Buy(caller: AccountId, maxPrice: Option<nat>, now: nat) returns (error: Option<GameError>)
      requires market.ticketsSold > 0
      modifies this
      ensures match BuyTicket(cfg, old(Value()), caller, maxPrice, now)
              case Done(w) => error == None && Value() == w
              case Failed(e) => error == Some(e) && Value() == old(Value())
    {
      if BalanceOf(tickets, cfg.market) == 0 {
        return Some(MarketplaceEmpty);
      }
      var quoted := CurrentPrice(market, now);
      if quoted.None? {
        return Some(Trapped);
      }
      var price := quoted.value;
      if maxPrice.Some? && price > maxPrice.value {
        return Some(MaxPriceExceeded);
      }
      var burnt := Burn(rewards, caller, price);
      if burnt.None? {
        return Some(Psp22Failure);
      }
      rewards := burnt.value;
      var given := Transfer(tickets, cfg.market, caller, 1);
      assert given.Some?;  // the marketplace holds a ticket
      tickets := given.value;
      var data := market;
      data := data.(totalProceeds := SatAdd(data.totalProceeds, price, U128_MAX));
      data := data.(ticketsSold := SatAdd(data.ticketsSold, 1, U128_MAX));
      data := data.(startBlock := now);
      market := data;
      log := log + [TicketBought(caller, price)];
      return None;
    }
  }
}
