/** The map of session authorities shared between the updater and its readers, with one-shot
    subscriptions. Every operation runs under the write lock, so each is one atomic step. */
module SharedSessionMap {
  import opened Arithmetic
  import opened SessionBoundaries

  datatype AuthorityData = AuthorityData(authorities: seq<nat>, emergencyFinalizer: Option<nat>)

  /** A subscription is named by its ticket: how many subscriptions were made before it. */
  type Ticket = nat

  /** `delivered` lists what was sent on the one-shot channels, in order. */
  datatype Shared = Shared(
    sessions: map<SessionId, AuthorityData>,
    subscribers: map<SessionId, seq<Ticket>>,
    delivered: seq<(Ticket, AuthorityData)>,
    issued: nat)

  const EMPTY: Shared := Shared(map[], map[], [], 0)

  datatype Op =
    | Update(id: SessionId, data: AuthorityData)
    | PruneBelow(id: SessionId)
    | Subscribe(id: SessionId)

  function Notices(senders: seq<Ticket>, data: AuthorityData): seq<(Ticket, AuthorityData)> {
    seq(|senders|, i requires 0 <= i < |senders| => (senders[i], data))
  }

  function Waiting(m: Shared, id: SessionId): seq<Ticket> {
    if id in m.subscribers then m.subscribers[id] else []
  }

  function Updated(m: Shared, id: SessionId, data: AuthorityData): Shared {
    Shared(m.sessions[id := data], m.subscribers - {id}, m.delivered + Notices(Waiting(m, id), data), m.issued)
  }

  function Pruned(m: Shared, id: SessionId): Shared {
    m.(sessions := map s | s in m.sessions && s >= id :: m.sessions[s],
       subscribers := map s | s in m.subscribers && s >= id :: m.subscribers[s])
  }

  function Subscribed(m: Shared, id: SessionId): Shared {
    if id in m.sessions then
      m.(delivered := m.delivered + [(m.issued, m.sessions[id])], issued := m.issued + 1)
    else
      m.(subscribers := m.subscribers[id := Waiting(m, id) + [m.issued]], issued := m.issued + 1)
  }

  function Apply(m: Shared, op: Op): Shared {
    match op
    case Update(id, data) => Updated(m, id, data)
    case PruneBelow(id) => Pruned(m, id)
    case Subscribe(id) => Subscribed(m, id)
  }

  function Run(m: Shared, ops: seq<Op>): Shared
    decreases |ops|
  {
    if ops == [] then m else Run(Apply(m, ops[0]), ops[1..])
  }

  lemma {:induction false} RunAppend(m: Shared, a: seq<Op>, b: seq<Op>)
    ensures Run(m, a + b) == Run(Run(m, a), b)
    decreases |a|
  {
    if a == [] {
      assert a + b == b;
    } else {
      assert (a + b)[1..] == a[1..] + b;
      RunAppend(Apply(m, a[0]), a[1..], b);
    }
  }

  // ---------------------------------------------------------------- subscriptions

  datatype Fate = Pending | Delivered(data: AuthorityData) | Dropped

  /** What becomes of a pending subscription to `id`: the first later update of `id` answers it, and
      the first pruning above `id` closes it, whichever comes first. */
  function FateOf(id: SessionId, later: seq<Op>): Fate {
    if later == [] then Pending else
    match later[0]
    case Update(i, data) => if i == id then Delivered(data) else FateOf(id, later[1..])
    case PruneBelow(i) => if i > id then Dropped else FateOf(id, later[1..])
    case Subscribe(_) => FateOf(id, later[1..])
  }

  function Tickets(log: seq<(Ticket, AuthorityData)>): seq<Ticket> {
    seq(|log|, i requires 0 <= i < |log| => log[i].0)
  }

  /** How often ticket `t` was sent to, and how often it stands in the queue of session `s`. */
  function Sent(m: Shared, t: Ticket): nat {
    multiset(Tickets(m.delivered))[t]
  }

  function Queued(m: Shared, t: Ticket, s: SessionId): nat {
    multiset(Waiting(m, s))[t]
  }

  ghost predicate QueuedOnlyAt(m: Shared, t: Ticket, id: SessionId) {
    forall s: SessionId :: Queued(m, t, s) == if s == id then 1 else 0
  }

  ghost predicate NotQueued(m: Shared, t: Ticket) {
    forall s: SessionId :: Queued(m, t, s) == 0
  }

  /** What the shared state shows of ticket `t` for session `id`; the three cases exclude each other. */
  ghost predicate Shows(m: Shared, t: Ticket, id: SessionId, fate: Fate) {
    && t < m.issued
    && match fate
       case Pending => id !in m.sessions && QueuedOnlyAt(m, t, id) && Sent(m, t) == 0
       case Delivered(data) => NotQueued(m, t) && Sent(m, t) == 1 && (t, data) in m.delivered
       case Dropped => NotQueued(m, t) && Sent(m, t) == 0
  }

  /** Tickets not yet handed out occur nowhere. */
  ghost predicate TicketsBounded(m: Shared) {
    forall t: Ticket :: t >= m.issued ==> Sent(m, t) == 0 && NotQueued(m, t)
  }

  lemma TicketsAppend(a: seq<(Ticket, AuthorityData)>, b: seq<(Ticket, AuthorityData)>, t: Ticket)
    ensures multiset(Tickets(a + b))[t] == multiset(Tickets(a))[t] + multiset(Tickets(b))[t]
  {
    assert Tickets(a + b) == Tickets(a) + Tickets(b);
  }

  lemma UpdatedCounts(m: Shared, id: SessionId, data: AuthorityData, t: Ticket)
    ensures var m' := Updated(m, id, data);
            && Sent(m', t) == Sent(m, t) + Queued(m, t, id)
            && (forall s: SessionId :: Queued(m', t, s) == if s == id then 0 else Queued(m, t, s))
  {
    var senders := Waiting(m, id);
    TicketsAppend(m.delivered, Notices(senders, data), t);
    assert Tickets(Notices(senders, data)) == senders;
  }

  lemma PrunedCounts(m: Shared, id: SessionId, t: Ticket)
    ensures var m' := Pruned(m, id);
            && Sent(m', t) == Sent(m, t)
            && (forall s: SessionId :: Queued(m', t, s) == if s < id then 0 else Queued(m, t, s))
  {}

  lemma SubscribedCounts(m: Shared, id: SessionId, t: Ticket)
    ensures var m' := Subscribed(m, id);
            var mine := if t == m.issued then 1 else 0;
            && Sent(m', t) == Sent(m, t) + (if id in m.sessions then mine else 0)
            && (forall s: SessionId ::
                  Queued(m', t, s) == Queued(m, t, s) + (if s == id && id !in m.sessions then mine else 0))
  {
    if id in m.sessions {
      var notice := [(m.issued, m.sessions[id])];
      TicketsAppend(m.delivered, notice, t);
      assert Tickets(notice) == [m.issued];
    }
  }

  lemma ApplyKeepsBounds(m: Shared, op: Op)
    requires TicketsBounded(m)
    ensures TicketsBounded(Apply(m, op))
  {
    var m' := Apply(m, op);
    forall t: Ticket | t >= m'.issued
      ensures Sent(m', t) == 0 && NotQueued(m', t)
    {
      match op
      case Update(id, data) => UpdatedCounts(m, id, data, t);
      case PruneBelow(id) => PrunedCounts(m, id, t);
      case Subscribe(id) => SubscribedCounts(m, id, t);
    }
  }

  lemma {:induction false} RunKeepsBounds(m: Shared, ops: seq<Op>)
    requires TicketsBounded(m)
    ensures TicketsBounded(Run(m, ops))
    decreases |ops|
  {
    if ops == [] {
    } else {
      ApplyKeepsBounds(m, ops[0]);
      RunKeepsBounds(Apply(m, ops[0]), ops[1..]);
    }
  }

  /** A settled subscription stays settled: it is not sent to again and not queued again. */
  lemma SettledStays(m: Shared, t: Ticket, id: SessionId, fate: Fate, op: Op)
    requires Shows(m, t, id, fate) && fate != Pending
    ensures Shows(Apply(m, op), t, id, fate)
  {
    match op
    case Update(s, data) => UpdatedCounts(m, s, data, t);
    case PruneBelow(s) => PrunedCounts(m, s, t);
    case Subscribe(s) => SubscribedCounts(m, s, t);
  }

  lemma PendingUpdated(m: Shared, t: Ticket, id: SessionId, s: SessionId, data: AuthorityData)
    requires Shows(m, t, id, Pending)
    ensures Shows(Updated(m, s, data), t, id, if s == id then Delivered(data) else Pending)
  {
    UpdatedCounts(m, s, data, t);
    if s == id {
      var senders := Waiting(m, id);
      assert Queued(m, t, id) == 1;
      assert t in senders;
      var i :| 0 <= i < |senders| && senders[i] == t;
      assert Notices(senders, data)[i] == (t, data);
    }
  }

  /** One step of a pending subscription follows `FateOf`. */
  lemma PendingStep(m: Shared, t: Ticket, id: SessionId, op: Op)
    requires Shows(m, t, id, Pending)
    ensures Shows(Apply(m, op), t, id, FateOf(id, [op]))
  {
    assert FateOf(id, [op][1..]) == Pending;
    match op
    case Update(s, data) => PendingUpdated(m, t, id, s, data);
    case PruneBelow(s) => PrunedCounts(m, s, t);
    case Subscribe(s) => SubscribedCounts(m, s, t);
  }

  lemma {:induction false} SettledForever(m: Shared, t: Ticket, id: SessionId, fate: Fate, ops: seq<Op>)
    requires Shows(m, t, id, fate) && fate != Pending
    ensures Shows(Run(m, ops), t, id, fate)
    decreases |ops|
  {
    if ops == [] {
    } else {
      SettledStays(m, t, id, fate, ops[0]);
      SettledForever(Apply(m, ops[0]), t, id, fate, ops[1..]);
    }
  }

  lemma {:induction false} PendingRun(m: Shared, t: Ticket, id: SessionId, ops: seq<Op>)
    requires Shows(m, t, id, Pending)
    ensures Shows(Run(m, ops), t, id, FateOf(id, ops))
    decreases |ops|
  {
    if ops == [] {
    } else {
      var m', step := Apply(m, ops[0]), FateOf(id, [ops[0]]);
      PendingStep(m, t, id, ops[0]);
      assert FateOf(id, [ops[0]][1..]) == Pending;
      if step == Pending {
        PendingRun(m', t, id, ops[1..]);
      } else {
        SettledForever(m', t, id, step, ops[1..]);
      }
    }
  }

  /** EVERY SUBSCRIPTION HAS ONE FATE. Take any interleaving of updates, prunings and subscriptions
      and any subscription in it: at the end it was answered once with the data present at the time
      or inserted first, or it is queued and its session absent, or a pruning above it closed it. */
  lemma SubscriptionFate(before: seq<Op>, id: SessionId, later: seq<Op>)
    ensures var m := Run(EMPTY, before);
            var end := Run(EMPTY, before + [Subscribe(id)] + later);
            Shows(end, m.issued, id, if id in m.sessions then Delivered(m.sessions[id]) else FateOf(id, later))
  {
    var m := Run(EMPTY, before);
    RunAppend(EMPTY, before + [Subscribe(id)], later);
    RunAppend(EMPTY, before, [Subscribe(id)]);
    assert [Subscribe(id)][1..] == [];
    var m' := Subscribed(m, id);
    RunKeepsBounds(EMPTY, before);
    SubscribedCounts(m, id, m.issued);
    if id in m.sessions {
      SettledForever(m', m.issued, id, Delivered(m.sessions[id]), later);
    } else {
      PendingRun(m', m.issued, id, later);
    }
  }

  lemma PendingFate(before: seq<Op>, id: SessionId, later: seq<Op>)
    requires id !in Run(EMPTY, before).sessions
    ensures Shows(Run(EMPTY, before + [Subscribe(id)] + later), Run(EMPTY, before).issued, id, FateOf(id, later))
  {
    SubscriptionFate(before, id, later);
  }

  lemma CountTwo(s: seq<Ticket>, i: nat, j: nat)
    requires i < j < |s| && s[i] == s[j]
    ensures multiset(s)[s[i]] >= 2
  {
    assert s == s[..i] + [s[i]] + s[i + 1..j] + [s[j]] + s[j + 1..];
  }

  /** The three situations a ticket can be in are mutually exclusive, and the data is the one sent. */
  lemma FatesExclude(m: Shared, t: Ticket, id: SessionId, one: Fate, other: Fate)
    requires Shows(m, t, id, one) && Shows(m, t, id, other)
    ensures one == other
  {
    assert Queued(m, t, id) == if one == Pending then 1 else 0;
    if one.Delivered? && other.Delivered? && one.data != other.data {
      var i :| 0 <= i < |m.delivered| && m.delivered[i] == (t, one.data);
      var j :| 0 <= j < |m.delivered| && m.delivered[j] == (t, other.data);
      CountTwo(Tickets(m.delivered), Min(i, j), Max(i, j));
    }
  }

  // ---------------------------------------------------------------- the shared object

  class SharedSessionMap {
    var sessions: map<SessionId, AuthorityData>
    var subscribers: map<SessionId, seq<Ticket>>
    var delivered: seq<(Ticket, AuthorityData)>
    var issued: nat

    ghost function Value(): Shared
      reads this
    {
      Shared(sessions, subscribers, delivered, issued)
    }

    constructor ()
      ensures Value() == EMPTY
    {
      sessions, subscribers, delivered, issued := map[], map[], [], 0;
    }

    /** Answers everyone waiting for the session, then stores its data; returns what it replaced. */
    method Update(id: SessionId, data: AuthorityData) returns (previous: Option<AuthorityData>)
      modifies this
      ensures Value() == Apply(old(Value()), Op.Update(id, data))
      ensures previous == if id in old(sessions) then Some(old(sessions)[id]) else None
    {
      if id in subscribers {
        var senders := subscribers[id];
        subscribers := subscribers - {id};
        for i := 0 to |senders|
          invariant delivered == old(delivered) + Notices(senders[..i], data)
          invariant subscribers == old(subscribers) - {id}
          invariant sessions == old(sessions) && issued == old(issued)
        {
          delivered := delivered + [(senders[i], data)];
          assert Notices(senders[..i + 1], data) == Notices(senders[..i], data) + [(senders[i], data)];
        }
        assert senders[..|senders|] == senders;
      } else {
        assert subscribers - {id} == subscribers;
        assert delivered == delivered + Notices([], data);
      }
      previous := if id in sessions then Some(sessions[id]) else None;
      sessions := sessions[id := data];
    }

    method PruneBelow(id: SessionId)
      modifies this
      ensures Value() == Apply(old(Value()), Op.PruneBelow(id))
    {
      sessions := map s | s in sessions && s >= id :: sessions[s];
      subscribers := map s | s in subscribers && s >= id :: subscribers[s];
    }

    method SubscribeToInsertion(id: SessionId) returns (ticket: Ticket)
      modifies this
      ensures Value() == Apply(old(Value()), Subscribe(id))
      ensures ticket == old(issued)
    {
      ticket := issued;
      issued := issued + 1;
      if id in sessions {
        delivered := delivered + [(ticket, sessions[id])];
      } else {
        var queue := if id in subscribers then subscribers[id] else [];
        subscribers := subscribers[id := queue + [ticket]];
      }
    }
  }
}
