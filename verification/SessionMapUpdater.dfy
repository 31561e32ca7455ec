/** The task that fills the session map: it catches up at start and then follows finality
    notifications, which may skip, repeat or go backwards. */
module SessionMapUpdater {
  import opened Arithmetic
  import opened SessionBoundaries
  import opened SharedSessionMap

  const PRUNING_THRESHOLD: nat := 10

  type Period = p: nat | p > 0 witness 1

  /** The session period and what the authority provider answers for a block and for the session
      after the block's. */
  datatype Chain = Chain(
    period: Period,
    authorityData: BlockNumber -> Option<AuthorityData>,
    nextAuthorityData: BlockNumber -> Option<AuthorityData>)

  function SessionAuthorities(chain: Chain, session: SessionId): Option<AuthorityData> {
    chain.authorityData(FirstBlock(chain.period, session))
  }

  function NextAuthorities(chain: Chain, session: SessionId): Option<AuthorityData> {
    chain.nextAuthorityData(FirstBlock(chain.period, session))
  }

  /** The locked operations a piece of the updater performs, and whether it then panics. */
  datatype Trace = Trace(ops: seq<Op>, panicked: bool)

  function Then(first: Trace, second: Trace): Trace {
    if first.panicked then first else Trace(first.ops + second.ops, second.panicked)
  }

  predicate Prunes(session: SessionId) {
    session > PRUNING_THRESHOLD && session % PRUNING_THRESHOLD == 0
  }

  /** Handling the first block of a session. */
  function Handle(chain: Chain, session: SessionId): Trace {
    match NextAuthorities(chain, session)
    case None => Trace([], true)
    case Some(data) =>
      Trace([Update(session + 1, data)]
            + (if Prunes(session) then [PruneBelow(session - PRUNING_THRESHOLD)] else []), false)
  }

  /** Handling the sessions `from`, `from + 1`, ..., `upTo` in turn. */
  function HandleAll(chain: Chain, from: SessionId, upTo: int): Trace
    decreases upTo
  {
    if upTo < from then Trace([], false) else Then(HandleAll(chain, from, upTo - 1), Handle(chain, upTo))
  }

  function StartingSession(current: SessionId): SessionId {
    Monus(current, PRUNING_THRESHOLD - 1)
  }

  /** Catching up on sessions before the current one stores whatever the provider still knows. */
  function PastOps(chain: Chain, from: SessionId, upTo: SessionId): seq<Op> {
    if upTo <= from then [] else
    PastOps(chain, from, upTo - 1)
    + match SessionAuthorities(chain, upTo - 1)
      case Some(data) => [Update(upTo - 1, data)]
      case None => []
  }

  function CurrentOps(chain: Chain, current: SessionId): Trace {
    match SessionAuthorities(chain, current)
    case Some(data) => Trace([Update(current, data)], false)
    case None => Trace([], true)
  }

  function CatchUp(chain: Chain, current: SessionId): Trace {
    Then(Then(Trace(PastOps(chain, StartingSession(current), current), false), CurrentOps(chain, current)),
         Handle(chain, current))
  }

  /** The sessions that notified blocks belong to. */
  function SessionsOf(chain: Chain, blocks: seq<BlockNumber>): seq<SessionId> {
    seq(|blocks|, i requires 0 <= i < |blocks| => SessionOfBlock(chain.period, blocks[i]))
  }

  /** The last session handled after a list of notifications. */
  function Reached(last: SessionId, sessions: seq<SessionId>): (s: SessionId)
    ensures last <= s
  {
    if sessions == [] then last else
    Max(Reached(last, sessions[..|sessions| - 1]), sessions[|sessions| - 1])
  }

  function Follow(chain: Chain, last: SessionId, sessions: seq<SessionId>): Trace {
    if sessions == [] then Trace([], false) else
    var earlier := sessions[..|sessions| - 1];
    Then(Follow(chain, last, earlier),
         HandleAll(chain, Reached(last, earlier) + 1, sessions[|sessions| - 1]))
  }

  function RunTrace(chain: Chain, lastFinalized: BlockNumber, blocks: seq<BlockNumber>): Trace {
    var current := SessionOfBlock(chain.period, lastFinalized);
    Then(CatchUp(chain, current), Follow(chain, current, SessionsOf(chain, blocks)))
  }

  // ---------------------------------------------------------------- batching

  lemma {:induction false} HandleAllSplits(chain: Chain, from: SessionId, mid: SessionId, upTo: SessionId)
    requires from <= mid + 1 && mid <= upTo
    ensures HandleAll(chain, from, upTo) == Then(HandleAll(chain, from, mid), HandleAll(chain, mid + 1, upTo))
    decreases upTo
  {
    if mid < upTo {
      HandleAllSplits(chain, from, mid, upTo - 1);
      var a, b, c := HandleAll(chain, from, mid), HandleAll(chain, mid + 1, upTo - 1), Handle(chain, upTo);
      assert a.ops + b.ops + c.ops == a.ops + (b.ops + c.ops);
    } else {
      assert HandleAll(chain, mid + 1, upTo) == Trace([], false);
      var a := HandleAll(chain, from, mid);
      assert a.ops + [] == a.ops;
    }
  }

  /** However the notifications arrive, the updater handles each session once, in order. */
  lemma {:induction false} FollowHandlesOnce(chain: Chain, last: SessionId, sessions: seq<SessionId>)
    ensures Follow(chain, last, sessions) == HandleAll(chain, last + 1, Reached(last, sessions))
  {
    if sessions == [] {
    } else {
      var earlier, s := sessions[..|sessions| - 1], sessions[|sessions| - 1];
      FollowHandlesOnce(chain, last, earlier);
      var mid := Reached(last, earlier);
      if s <= mid {
        var a := HandleAll(chain, last + 1, mid);
        assert a.ops + [] == a.ops;
      } else {
        HandleAllSplits(chain, last + 1, mid, s);
      }
    }
  }

  function MaxBlock(blocks: seq<BlockNumber>): BlockNumber
    requires blocks != []
  {
    if |blocks| == 1 then blocks[0] else Max(MaxBlock(blocks[..|blocks| - 1]), blocks[|blocks| - 1])
  }

  lemma {:induction false} ReachedByMax(chain: Chain, last: SessionId, blocks: seq<BlockNumber>)
    requires blocks != []
    ensures Reached(last, SessionsOf(chain, blocks)) == Max(last, SessionOfBlock(chain.period, MaxBlock(blocks)))
  {
    var earlier, b := blocks[..|blocks| - 1], blocks[|blocks| - 1];
    assert SessionsOf(chain, blocks)[..|blocks| - 1] == SessionsOf(chain, earlier);
    if |blocks| <= 1 {
    } else {
      ReachedByMax(chain, last, earlier);
      if b <= MaxBlock(earlier) {
        FloorMonotone(b, MaxBlock(earlier), chain.period);
      } else {
        FloorMonotone(MaxBlock(earlier), b, chain.period);
      }
    }
  }

  /** BATCHING DOES NOT MATTER. A list of notifications has the effect of its maximum alone. */
  lemma BatchingInsensitive(chain: Chain, last: SessionId, blocks: seq<BlockNumber>)
    requires blocks != []
    ensures Follow(chain, last, SessionsOf(chain, blocks)) == Follow(chain, last, SessionsOf(chain, [MaxBlock(blocks)]))
  {
    FollowHandlesOnce(chain, last, SessionsOf(chain, blocks));
    FollowHandlesOnce(chain, last, SessionsOf(chain, [MaxBlock(blocks)]));
    ReachedByMax(chain, last, blocks);
    ReachedByMax(chain, last, [MaxBlock(blocks)]);
  }

  lemma {:induction false} HandleAllPanicsIff(chain: Chain, from: SessionId, upTo: int)
    ensures HandleAll(chain, from, upTo).panicked
            <==> exists s: SessionId :: from <= s <= upTo && NextAuthorities(chain, s) == None
    decreases upTo
  {
    if from > upTo {
    } else {
      HandleAllPanicsIff(chain, from, upTo - 1);
    }
  }

  /** The updater panics exactly when the current session or some handled session's successor is
      missing from the provider; gaps further back are harmless. */
  lemma PanicsIff(chain: Chain, lastFinalized: BlockNumber, blocks: seq<BlockNumber>)
    ensures var current := SessionOfBlock(chain.period, lastFinalized);
            RunTrace(chain, lastFinalized, blocks).panicked
            <==> || SessionAuthorities(chain, current) == None
                 || exists s: SessionId :: current <= s <= Reached(current, SessionsOf(chain, blocks))
                                           && NextAuthorities(chain, s) == None
  {
    var current := SessionOfBlock(chain.period, lastFinalized);
    FollowHandlesOnce(chain, current, SessionsOf(chain, blocks));
    HandleAllPanicsIff(chain, current + 1, Reached(current, SessionsOf(chain, blocks)));
  }

  // ---------------------------------------------------------------- the window

  /** The highest bound pruned below once session `s` was handled. */
  function PrunedBelow(s: SessionId): SessionId {
    if s >= 20 then 10 * (s / 10) - 10 else 0
  }

  /** The lowest session kept: catch-up goes nine sessions back, and pruning moves on from there. */
  function Lowest(current: SessionId, s: SessionId): SessionId {
    Max(current - 9, PrunedBelow(s))
  }

  /** The data a session should have: what the provider says of its first block up to the session of
      catch-up, and what it says one session ahead afterwards. */
  function Expected(chain: Chain, current: SessionId, id: SessionId): Option<AuthorityData> {
    if id <= current then chain.authorityData(FirstBlock(chain.period, id))
    else chain.nextAuthorityData(FirstBlock(chain.period, id - 1))
  }

  function Window(chain: Chain, current: SessionId, s: SessionId): map<SessionId, AuthorityData> {
    map id | Lowest(current, s) <= id <= s + 1 && Expected(chain, current, id).Some?
      :: Expected(chain, current, id).value
  }

  /** Dropping the subscriptions of an interleaving leaves the updater's own operations. */
  function UpdaterOps(ops: seq<Op>): seq<Op> {
    if ops == [] then [] else
    (if ops[0].Subscribe? then [] else [ops[0]]) + UpdaterOps(ops[1..])
  }

  lemma {:induction false} SubscriptionsLeaveSessions(m: Shared, n: Shared, ops: seq<Op>)
    requires m.sessions == n.sessions
    ensures Run(m, ops).sessions == Run(n, UpdaterOps(ops)).sessions
    decreases |ops|
  {
    if ops == [] {
    } else {
      if ops[0].Subscribe? {
        assert UpdaterOps(ops) == UpdaterOps(ops[1..]);
        SubscriptionsLeaveSessions(Apply(m, ops[0]), n, ops[1..]);
      } else {
        assert UpdaterOps(ops)[1..] == UpdaterOps(ops[1..]);
        SubscriptionsLeaveSessions(Apply(m, ops[0]), Apply(n, ops[0]), ops[1..]);
      }
    }
  }

  lemma RunOne(m: Shared, op: Op)
    ensures Run(m, [op]) == Apply(m, op)
  {
    assert [op][1..] == [];
  }

  lemma ThenRuns(m: Shared, first: Trace, second: Trace)
    requires !first.panicked
    ensures Run(m, Then(first, second).ops) == Run(Run(m, first.ops), second.ops)
  {
    RunAppend(m, first.ops, second.ops);
  }

  lemma RunHandle(chain: Chain, m: Shared, session: SessionId)
    requires !Handle(chain, session).panicked
    ensures var inserted := Updated(m, session + 1, NextAuthorities(chain, session).value);
            Run(m, Handle(chain, session).ops)
            == if Prunes(session) then Pruned(inserted, session - PRUNING_THRESHOLD) else inserted
  {
    var op := Update(session + 1, NextAuthorities(chain, session).value);
    RunOne(m, op);
    if Prunes(session) {
      RunAppend(m, [op], [PruneBelow(session - PRUNING_THRESHOLD)]);
      RunOne(Apply(m, op), PruneBelow(session - PRUNING_THRESHOLD));
    } else {
      assert Handle(chain, session).ops == [op];
    }
  }

  /** What the provider knows of the sessions in a range. */
  function Known(chain: Chain, from: SessionId, below: SessionId): map<SessionId, AuthorityData> {
    map id | from <= id < below && SessionAuthorities(chain, id).Some? :: SessionAuthorities(chain, id).value
  }

  function WithSession(chain: Chain, held: map<SessionId, AuthorityData>, id: SessionId): map<SessionId, AuthorityData> {
    match SessionAuthorities(chain, id)
    case Some(data) => held[id := data]
    case None => held
  }

  lemma KnownStep(chain: Chain, from: SessionId, below: SessionId)
    requires from < below
    ensures Known(chain, from, below) == WithSession(chain, Known(chain, from, below - 1), below - 1)
  {}

  lemma KnownNothing(chain: Chain, from: SessionId)
    ensures Known(chain, from, from) == map[]
  {}

  lemma PastStep(chain: Chain, m: Shared, from: SessionId, upTo: SessionId)
    requires from < upTo
    ensures Run(m, PastOps(chain, from, upTo)).sessions
            == WithSession(chain, Run(m, PastOps(chain, from, upTo - 1)).sessions, upTo - 1)
  {
    var before := PastOps(chain, from, upTo - 1);
    match SessionAuthorities(chain, upTo - 1)
    case Some(data) =>
      assert PastOps(chain, from, upTo) == before + [Update(upTo - 1, data)];
      RunAppend(m, before, [Update(upTo - 1, data)]);
      RunOne(Run(m, before), Update(upTo - 1, data));
    case None =>
      assert PastOps(chain, from, upTo) == before;
  }

  lemma {:induction false} PastFillsWindow(chain: Chain, m: Shared, from: SessionId, upTo: SessionId)
    requires m.sessions == map[] && from <= upTo
    ensures Run(m, PastOps(chain, from, upTo)).sessions == Known(chain, from, upTo)
    decreases upTo
  {
    if from < upTo {
      PastFillsWindow(chain, m, from, upTo - 1);
      PastStep(chain, m, from, upTo);
      KnownStep(chain, from, upTo);
    } else {
      KnownNothing(chain, from);
    }
  }

  /** Handling the current session only adds the next one: nothing catch-up stored is old enough to prune. */
  lemma HandleCompletesWindow(chain: Chain, current: SessionId, m: Shared)
    requires !Handle(chain, current).panicked
    requires m.sessions == Known(chain, StartingSession(current), current + 1)
    ensures Run(m, Handle(chain, current).ops).sessions == Window(chain, current, current)
  {
    RunHandle(chain, m, current);
    assert Lowest(current, current) == StartingSession(current);
    assert Expected(chain, current, current + 1) == NextAuthorities(chain, current);
  }

  lemma CurrentJoins(chain: Chain, current: SessionId)
    requires !CurrentOps(chain, current).panicked
    ensures var stored := PastOps(chain, StartingSession(current), current) + CurrentOps(chain, current).ops;
            Run(EMPTY, stored).sessions == Known(chain, StartingSession(current), current + 1)
  {
    var from := StartingSession(current);
    var past := PastOps(chain, from, current);
    var op := Update(current, SessionAuthorities(chain, current).value);
    PastFillsWindow(chain, EMPTY, from, current);
    RunAppend(EMPTY, past, [op]);
    RunOne(Run(EMPTY, past), op);
    KnownStep(chain, from, current + 1);
  }

  lemma CatchUpFillsWindow(chain: Chain, current: SessionId)
    requires !CatchUp(chain, current).panicked
    ensures Run(EMPTY, CatchUp(chain, current).ops).sessions == Window(chain, current, current)
  {
    var stored := PastOps(chain, StartingSession(current), current) + CurrentOps(chain, current).ops;
    CurrentJoins(chain, current);
    ThenRuns(EMPTY, Trace(stored, false), Handle(chain, current));
    HandleCompletesWindow(chain, current, Run(EMPTY, stored));
  }

  /** CATCH-UP REACHES NINE SESSIONS BACK: it leaves the next session and those of the current one and the
      nine before it that the provider still knows, each with the provider's answer. */
  lemma CatchUpExact(chain: Chain, current: SessionId, id: SessionId)
    requires !CatchUp(chain, current).panicked
    ensures var held := Run(EMPTY, CatchUp(chain, current).ops).sessions;
            var answer := if id <= current then chain.authorityData(FirstBlock(chain.period, id))
                          else chain.nextAuthorityData(FirstBlock(chain.period, current));
            && (id in held <==> id == current + 1 || (id <= current < id + 10 && answer.Some?))
            && (id in held ==> answer == Some(held[id]))
  {
    CatchUpFillsWindow(chain, current);
    assert NextAuthorities(chain, current).Some?;
  }

  lemma LastTen(s: SessionId)
    requires s > 0
    ensures s / 10 == if s % 10 == 0 then (s - 1) / 10 + 1 else (s - 1) / 10
  {}

  lemma PruningStep(s: SessionId)
    requires s > 0
    ensures PrunedBelow(s) == if Prunes(s) then s - PRUNING_THRESHOLD else PrunedBelow(s - 1)
    ensures PrunedBelow(s - 1) <= PrunedBelow(s) <= s
  {
    LastTen(s);
  }

  function From(held: map<SessionId, AuthorityData>, lo: SessionId): map<SessionId, AuthorityData> {
    map id | id in held && id >= lo :: held[id]
  }

  /** The next window is the last one with the next session added and the too old ones gone. */
  lemma WindowStep(chain: Chain, current: SessionId, s: SessionId, data: AuthorityData)
    requires current < s && NextAuthorities(chain, s) == Some(data)
    ensures Window(chain, current, s) == From(Window(chain, current, s - 1)[s + 1 := data], PrunedBelow(s))
  {
    PruningStep(s);
    assert Expected(chain, current, s + 1) == Some(data);
  }

  /** Where nothing is pruned, nothing is too old. */
  lemma NothingTooOld(chain: Chain, current: SessionId, s: SessionId, data: AuthorityData)
    requires current < s && !Prunes(s)
    ensures var inserted := Window(chain, current, s - 1)[s + 1 := data]; From(inserted, PrunedBelow(s)) == inserted
  {
    PruningStep(s);
  }

  lemma HandleMovesWindow(chain: Chain, current: SessionId, m: Shared, s: SessionId)
    requires current < s && !Handle(chain, s).panicked
    requires m.sessions == Window(chain, current, s - 1)
    ensures Run(m, Handle(chain, s).ops).sessions == Window(chain, current, s)
  {
    var data := NextAuthorities(chain, s).value;
    RunHandle(chain, m, s);
    PruningStep(s);
    WindowStep(chain, current, s, data);
    if !Prunes(s) {
      NothingTooOld(chain, current, s, data);
    }
  }

  lemma {:induction false} HandleAllMovesWindow(chain: Chain, current: SessionId, m: Shared, s: SessionId)
    requires current <= s && !HandleAll(chain, current + 1, s).panicked
    requires m.sessions == Window(chain, current, current)
    ensures Run(m, HandleAll(chain, current + 1, s).ops).sessions == Window(chain, current, s)
    decreases s
  {
    if current >= s {
    } else {
      var before := HandleAll(chain, current + 1, s - 1);
      HandleAllMovesWindow(chain, current, m, s - 1);
      assert HandleAll(chain, current + 1, s).ops == before.ops + Handle(chain, s).ops;
      RunAppend(m, before.ops, Handle(chain, s).ops);
      HandleMovesWindow(chain, current, Run(m, before.ops), s);
    }
  }

  lemma WindowSize(chain: Chain, current: SessionId, s: SessionId)
    requires current <= s
    ensures |Window(chain, current, s)| <= 21
  {
    var lo := Lowest(current, s);
    assert s + 1 - lo <= 20;
    BoundedSetSize(Window(chain, current, s).Keys, lo, s + 1);
  }

  /** `ops` is what an updater that caught up at `current` and has handled sessions up to `last` did so
      far, interleaved with any subscriptions. */
  predicate Progress(chain: Chain, current: SessionId, last: SessionId, ops: seq<Op>) {
    var trace := Then(CatchUp(chain, current), HandleAll(chain, current + 1, last));
    current <= last && !trace.panicked && UpdaterOps(ops) == trace.ops
  }

  /** Every run of the updater that did not panic is in such a state. */
  lemma RunMakesProgress(chain: Chain, lastFinalized: BlockNumber, blocks: seq<BlockNumber>, ops: seq<Op>)
    requires !RunTrace(chain, lastFinalized, blocks).panicked
    requires UpdaterOps(ops) == RunTrace(chain, lastFinalized, blocks).ops
    ensures var current := SessionOfBlock(chain.period, lastFinalized);
            Progress(chain, current, Reached(current, SessionsOf(chain, blocks)), ops)
  {
    FollowHandlesOnce(chain, SessionOfBlock(chain.period, lastFinalized), SessionsOf(chain, blocks));
  }

  lemma ProgressFillsWindow(chain: Chain, current: SessionId, last: SessionId, ops: seq<Op>)
    requires Progress(chain, current, last, ops)
    ensures Run(EMPTY, ops).sessions == Window(chain, current, last)
  {
    SubscriptionsLeaveSessions(EMPTY, EMPTY, ops);
    CatchUpFillsWindow(chain, current);
    RunAppend(EMPTY, CatchUp(chain, current).ops, HandleAll(chain, current + 1, last).ops);
    HandleAllMovesWindow(chain, current, Run(EMPTY, CatchUp(chain, current).ops), last);
  }

  /** THE MAP IS THE WINDOW. After catch-up at `current` and any notifications, interleaved with any
      subscriptions, the map holds exactly the expected data of the sessions from the lowest kept one
      to the one after the last handled, and never more than 21 of them. */
  lemma MapIsWindow(chain: Chain, lastFinalized: BlockNumber, blocks: seq<BlockNumber>, ops: seq<Op>)
    requires !RunTrace(chain, lastFinalized, blocks).panicked
    requires UpdaterOps(ops) == RunTrace(chain, lastFinalized, blocks).ops
    ensures var current := SessionOfBlock(chain.period, lastFinalized);
            var held := Run(EMPTY, ops).sessions;
            && held == Window(chain, current, Reached(current, SessionsOf(chain, blocks)))
            && |held| <= 21
  {
    var current := SessionOfBlock(chain.period, lastFinalized);
    RunMakesProgress(chain, lastFinalized, blocks, ops);
    ProgressFillsWindow(chain, current, Reached(current, SessionsOf(chain, blocks)), ops);
    WindowSize(chain, current, Reached(current, SessionsOf(chain, blocks)));
  }

  /** The provider answers from one table of authorities, or not at all: for a block with the entry of its
      session, and one session ahead with the entry after that. */
  ghost predicate AnswersFrom(chain: Chain, table: SessionId -> AuthorityData) {
    forall block: BlockNumber ::
      && chain.authorityData(block) in {None, Some(table(SessionOfBlock(chain.period, block)))}
      && chain.nextAuthorityData(block) in {None, Some(table(SessionOfBlock(chain.period, block) + 1))}
  }

  lemma FirstBlockInSession(period: Period, session: SessionId)
    ensures SessionOfBlock(period, FirstBlock(period, session)) == session
  {
    MulMonotone(session, session + 1, period);
    BoundariesPartitionBlocks(period, session, FirstBlock(period, session));
  }

  lemma ExpectedFromTable(chain: Chain, table: SessionId -> AuthorityData, current: SessionId, id: SessionId)
    requires AnswersFrom(chain, table)
    ensures Expected(chain, current, id) in {None, Some(table(id))}
  {
    if id <= current {
      FirstBlockInSession(chain.period, id);
    } else {
      FirstBlockInSession(chain.period, id - 1);
    }
  }

  /** A run that did not panic got an answer for every session from the current one on. */
  lemma ExpectedKnown(chain: Chain, lastFinalized: BlockNumber, blocks: seq<BlockNumber>, id: SessionId)
    requires !RunTrace(chain, lastFinalized, blocks).panicked
    requires var current := SessionOfBlock(chain.period, lastFinalized);
             current <= id <= Reached(current, SessionsOf(chain, blocks)) + 1
    ensures Expected(chain, SessionOfBlock(chain.period, lastFinalized), id).Some?
  {
    PanicsIff(chain, lastFinalized, blocks);
    if id > SessionOfBlock(chain.period, lastFinalized) {
      assert NextAuthorities(chain, id - 1) != None;
    }
  }

  /** With such a provider the map agrees with the table, and only sessions before catch-up that the
      provider no longer knew are missing. */
  lemma MapAgreesWithTable(chain: Chain, table: SessionId -> AuthorityData,
                           lastFinalized: BlockNumber, blocks: seq<BlockNumber>, ops: seq<Op>, id: SessionId)
    requires AnswersFrom(chain, table)
    requires !RunTrace(chain, lastFinalized, blocks).panicked
    requires UpdaterOps(ops) == RunTrace(chain, lastFinalized, blocks).ops
    ensures var current := SessionOfBlock(chain.period, lastFinalized);
            var s := Reached(current, SessionsOf(chain, blocks));
            var held := Run(EMPTY, ops).sessions;
            && (id in held <==> && current - 9 <= id <= s + 1
                                && (s >= 20 ==> 10 * (s / 10) - 10 <= id)
                                && (id < current ==> chain.authorityData(FirstBlock(chain.period, id)).Some?))
            && (id in held ==> held[id] == table(id))
  {
    var current := SessionOfBlock(chain.period, lastFinalized);
    MapIsWindow(chain, lastFinalized, blocks, ops);
    ExpectedFromTable(chain, table, current, id);
    if current <= id <= Reached(current, SessionsOf(chain, blocks)) + 1 {
      ExpectedKnown(chain, lastFinalized, blocks, id);
    }
  }

  // ---------------------------------------------------------------- subscriptions ahead of the updater

  lemma {:induction false} FateIgnoresSubscriptions(id: SessionId, ops: seq<Op>)
    ensures FateOf(id, ops) == FateOf(id, UpdaterOps(ops))
  {
    if ops == [] {
    } else {
      FateIgnoresSubscriptions(id, ops[1..]);
      if ops[0].Subscribe? {
        assert UpdaterOps(ops) == UpdaterOps(ops[1..]);
      } else {
        assert UpdaterOps(ops)[1..] == UpdaterOps(ops[1..]);
      }
    }
  }

  lemma {:induction false} FateAppend(id: SessionId, a: seq<Op>, b: seq<Op>)
    ensures FateOf(id, a + b) == if FateOf(id, a) == Pending then FateOf(id, b) else FateOf(id, a)
  {
    if a == [] {
      assert a + b == b;
    } else {
      assert (a + b)[1..] == a[1..] + b;
      FateAppend(id, a[1..], b);
    }
  }

  lemma FateOfHandle(chain: Chain, id: SessionId, s: SessionId)
    requires id > s && !Handle(chain, s).panicked
    ensures FateOf(id, Handle(chain, s).ops)
            == if id == s + 1 then Delivered(NextAuthorities(chain, s).value) else Pending
  {
    var op := Update(s + 1, NextAuthorities(chain, s).value);
    assert FateOf(id, [op][1..]) == Pending;
    if Prunes(s) {
      var prune := PruneBelow(s - PRUNING_THRESHOLD);
      assert FateOf(id, [prune][1..]) == Pending;
      FateAppend(id, [op], [prune]);
    } else {
      assert Handle(chain, s).ops == [op];
    }
  }

  lemma {:induction false} FateOfHandleAll(chain: Chain, id: SessionId, from: SessionId, upTo: int)
    requires id > from && !HandleAll(chain, from, upTo).panicked
    ensures id <= upTo + 1 ==> NextAuthorities(chain, id - 1).Some?
    ensures FateOf(id, HandleAll(chain, from, upTo).ops)
            == if id <= upTo + 1 then Delivered(NextAuthorities(chain, id - 1).value) else Pending
    decreases upTo
  {
    if from > upTo {
    } else {
      FateOfHandleAll(chain, id, from, upTo - 1);
      FateAppend(id, HandleAll(chain, from, upTo - 1).ops, Handle(chain, upTo).ops);
      if id > upTo {
        FateOfHandle(chain, id, upTo);
      }
    }
  }

  lemma FateAhead(chain: Chain, id: SessionId, from: SessionId, later: seq<Op>, upTo: SessionId)
    requires id > from && !HandleAll(chain, from, upTo).panicked
    requires UpdaterOps(later) == HandleAll(chain, from, upTo).ops
    ensures id <= upTo + 1 ==> NextAuthorities(chain, id - 1).Some?
    ensures FateOf(id, later)
            == if id <= upTo + 1 then Delivered(NextAuthorities(chain, id - 1).value) else Pending
  {
    FateIgnoresSubscriptions(id, later);
    FateOfHandleAll(chain, id, from, upTo);
  }

  /** A SUBSCRIPTION AHEAD IS NEVER LOST. Made for a session beyond the one after the last handled,
      it stays queued until the session's predecessor is handled, and that step answers it. */
  lemma FutureSubscription(chain: Chain, current: SessionId, last: SessionId,
                           before: seq<Op>, id: SessionId, later: seq<Op>, upTo: SessionId)
    requires Progress(chain, current, last, before) && last + 1 < id
    requires !HandleAll(chain, last + 1, upTo).panicked
    requires UpdaterOps(later) == HandleAll(chain, last + 1, upTo).ops
    ensures id <= upTo + 1 ==> NextAuthorities(chain, id - 1).Some?
    ensures Shows(Run(EMPTY, before + [Subscribe(id)] + later), Run(EMPTY, before).issued, id,
                  if id <= upTo + 1 then Delivered(NextAuthorities(chain, id - 1).value) else Pending)
  {
    ProgressFillsWindow(chain, current, last, before);
    FateAhead(chain, id, last + 1, later, upTo);
    PendingFate(before, id, later);
  }

  // ---------------------------------------------------------------- the updater object

  /** What the loop over notifications has done before notification `i`. */
  ghost predicate Followed(chain: Chain, m: Shared, current: SessionId, sessions: seq<SessionId>, i: nat,
                           last: SessionId, done: Trace, now: Shared)
    requires i <= |sessions|
  {
    && last == Reached(current, sessions[..i])
    && done == Follow(chain, current, sessions[..i])
    && now == Run(m, done.ops)
  }

  lemma FollowExtends(chain: Chain, m: Shared, current: SessionId, sessions: seq<SessionId>, i: nat,
                      last: SessionId, done: Trace, now: Shared)
    requires i < |sessions| && Followed(chain, m, current, sessions, i, last, done, now) && !done.panicked
    ensures var next := HandleAll(chain, last + 1, sessions[i]);
            Followed(chain, m, current, sessions, i + 1, Max(last, sessions[i]), Then(done, next), Run(now, next.ops))
  {
    assert sessions[..i + 1][..i] == sessions[..i];
    ThenRuns(m, done, HandleAll(chain, last + 1, sessions[i]));
  }

  lemma {:induction false} FollowStopsAtPanic(chain: Chain, last: SessionId, sessions: seq<SessionId>, n: nat)
    requires n <= |sessions| && Follow(chain, last, sessions[..n]).panicked
    ensures Follow(chain, last, sessions) == Follow(chain, last, sessions[..n])
    decreases |sessions|
  {
    if n < |sessions| {
      var earlier := sessions[..|sessions| - 1];
      assert earlier[..n] == sessions[..n];
      FollowStopsAtPanic(chain, last, earlier, n);
    } else {
      assert sessions[..n] == sessions;
    }
  }

  class SessionMapUpdater {
    const chain: Chain
    const sessionMap: SharedSessionMap

    constructor (chain: Chain)
      ensures this.chain == chain
      ensures fresh(sessionMap) && sessionMap.Value() == EMPTY
    {
      this.chain := chain;
      sessionMap := new SharedSessionMap();
    }

    /** Stores the next session's authorities and prunes when due; false stands for the panic. */
    method HandleFirstBlockOfSession(session: SessionId) returns (ok: bool)
      modifies sessionMap
      ensures ok == !Handle(chain, session).panicked
      ensures sessionMap.Value() == Run(old(sessionMap.Value()), Handle(chain, session).ops)
    {
      var firstBlock := FirstBlock(chain.period, session);
      match chain.nextAuthorityData(firstBlock)
      case None =>
        ok := false;
      case Some(data) =>
        ghost var m := sessionMap.Value();
        RunHandle(chain, m, session);
        var _ := sessionMap.Update(session + 1, data);
        if session > PRUNING_THRESHOLD && session % PRUNING_THRESHOLD == 0 {
          sessionMap.PruneBelow(session - PRUNING_THRESHOLD);
        }
        ok := true;
    }

    method CatchUpWith(lastFinalized: BlockNumber) returns (current: SessionId, ok: bool)
      modifies sessionMap
      ensures current == SessionOfBlock(chain.period, lastFinalized)
      ensures ok == !CatchUp(chain, current).panicked
      ensures sessionMap.Value() == Run(old(sessionMap.Value()), CatchUp(chain, current).ops)
    {
      current := SessionOfBlock(chain.period, lastFinalized);
      var starting := StartingSession(current);
      ghost var m := sessionMap.Value();
      for session := starting to current
        invariant sessionMap.Value() == Run(m, PastOps(chain, starting, session))
      {
        ghost var past := PastOps(chain, starting, session);
        match chain.authorityData(FirstBlock(chain.period, session))
        case Some(data) =>
          RunAppend(m, past, [Update(session, data)]);
          RunOne(Run(m, past), Update(session, data));
          var _ := sessionMap.Update(session, data);
        case None =>
          assert past + [] == past;
      }
      ghost var past := PastOps(chain, starting, current);
      match chain.authorityData(FirstBlock(chain.period, current))
      case None =>
        assert past + [] == past;
        ok := false;
      case Some(data) =>
        RunAppend(m, past, [Update(current, data)]);
        RunOne(Run(m, past), Update(current, data));
        RunAppend(m, past + [Update(current, data)], Handle(chain, current).ops);
        var _ := sessionMap.Update(current, data);
        ok := HandleFirstBlockOfSession(current);
    }

    method HandleRange(from: SessionId, upTo: SessionId) returns (ok: bool)
      requires from <= upTo + 1
      modifies sessionMap
      ensures ok == !HandleAll(chain, from, upTo).panicked
      ensures sessionMap.Value() == Run(old(sessionMap.Value()), HandleAll(chain, from, upTo).ops)
    {
      ghost var m := sessionMap.Value();
      ok := true;
      for session := from to upTo + 1
        invariant !HandleAll(chain, from, session - 1).panicked
        invariant sessionMap.Value() == Run(m, HandleAll(chain, from, session - 1).ops)
      {
        RunAppend(m, HandleAll(chain, from, session - 1).ops, Handle(chain, session).ops);
        ok := HandleFirstBlockOfSession(session);
        if !ok {
          HandleAllSplits(chain, from, session, upTo);
          return;
        }
      }
    }

    /** A notification from `session`: the sessions up to it are handled, unless that was done before. */
    method HandleUpTo(lastUpdated: SessionId, session: SessionId) returns (updated: SessionId, ok: bool)
      modifies sessionMap
      ensures updated == Max(lastUpdated, session)
      ensures ok == !HandleAll(chain, lastUpdated + 1, session).panicked
      ensures sessionMap.Value() == Run(old(sessionMap.Value()), HandleAll(chain, lastUpdated + 1, session).ops)
    {
      if lastUpdated >= session {
        return lastUpdated, true;
      }
      ok := HandleRange(lastUpdated + 1, session);
      updated := session;
    }

    method FollowNotifications(current: SessionId, blocks: seq<BlockNumber>) returns (ok: bool)
      modifies sessionMap
      ensures ok == !Follow(chain, current, SessionsOf(chain, blocks)).panicked
      ensures sessionMap.Value() == Run(old(sessionMap.Value()), Follow(chain, current, SessionsOf(chain, blocks)).ops)
    {
      ghost var m, sessions, done := sessionMap.Value(), SessionsOf(chain, blocks), Trace([], false);
      var lastUpdated := current;
      ok := true;
      for i := 0 to |blocks|
        invariant ok && !done.panicked
        invariant Followed(chain, m, current, sessions, i, lastUpdated, done, sessionMap.Value())
      {
        var session := SessionOfBlock(chain.period, blocks[i]);
        assert session == sessions[i];
        FollowExtends(chain, m, current, sessions, i, lastUpdated, done, sessionMap.Value());
        done := Then(done, HandleAll(chain, lastUpdated + 1, session));
        lastUpdated, ok := HandleUpTo(lastUpdated, session);
        if !ok {
          FollowStopsAtPanic(chain, current, sessions, i + 1);
          return;
        }
      }
      assert sessions[..|blocks|] == sessions;
    }

    /** Catching up and then the main loop over the notifications that arrive; false stands for a panic. */
    method RunUpdater(lastFinalized: BlockNumber, blocks: seq<BlockNumber>) returns (ok: bool)
      modifies sessionMap
      ensures ok == !RunTrace(chain, lastFinalized, blocks).panicked
      ensures sessionMap.Value() == Run(old(sessionMap.Value()), RunTrace(chain, lastFinalized, blocks).ops)
    {
      ghost var m := sessionMap.Value();
      var current;
      current, ok := CatchUpWith(lastFinalized);
      if !ok {
        return;
      }
      RunAppend(m, CatchUp(chain, current).ops, Follow(chain, current, SessionsOf(chain, blocks)).ops);
      ok := FollowNotifications(current, blocks);
    }
  }
}
