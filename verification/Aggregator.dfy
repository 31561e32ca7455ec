/** The block signature aggregator: multisigned hashes leave it in the order their aggregation began. */
module Aggregator {
  import opened Arithmetic

  type BlockHash = nat
  type Multisignature = nat

  datatype State = State(
    signatures: map<BlockHash, Multisignature>,
    queue: seq<BlockHash>,
    started: set<BlockHash>,
    emitted: seq<(BlockHash, Multisignature)>)

  const INITIAL: State := State(map[], [], {}, [])

  datatype Event =
    | Start(hash: BlockHash)
    | Signed(hash: BlockHash, signature: Multisignature)
    | Pop

  predicate CanPop(s: State) {
    s.queue != [] && s.queue[0] in s.signatures
  }

  function Step(s: State, e: Event): State {
    match e
    case Start(hash) =>
      if hash in s.started then s
      else s.(started := s.started + {hash}, queue := s.queue + [hash])
    case Signed(hash, signature) =>
      s.(signatures := s.signatures[hash := signature])
    case Pop =>
      if CanPop(s) then
        State(s.signatures - {s.queue[0]}, s.queue[1..], s.started,
              s.emitted + [(s.queue[0], s.signatures[s.queue[0]])])
      else s
  }

  function Run(events: seq<Event>): State {
    if events == [] then INITIAL else Step(Run(events[..|events| - 1]), events[|events| - 1])
  }

  // ---------------------------------------------------------------- the reference

  /** The hashes started, each at its first start. */
  function FirstStarts(events: seq<Event>): seq<BlockHash> {
    if events == [] then [] else
    var before := FirstStarts(events[..|events| - 1]);
    match events[|events| - 1]
    case Start(hash) => if hash in before then before else before + [hash]
    case _ => before
  }

  function LatestSignature(events: seq<Event>, hash: BlockHash): Option<Multisignature> {
    if events == [] then None else
    match events[|events| - 1]
    case Signed(h, signature) =>
      if h == hash then Some(signature) else LatestSignature(events[..|events| - 1], hash)
    case _ => LatestSignature(events[..|events| - 1], hash)
  }

  function Hashes(emitted: seq<(BlockHash, Multisignature)>): seq<BlockHash> {
    seq(|emitted|, i requires 0 <= i < |emitted| => emitted[i].0)
  }

  /** All hashes that passed through, in order: those emitted and then those waiting. */
  function Line(s: State): seq<BlockHash> {
    Hashes(s.emitted) + s.queue
  }

  lemma PopKeepsLine(s: State)
    ensures Line(Step(s, Pop)) == Line(s)
  {
    if CanPop(s) {
      assert Hashes(Step(s, Pop).emitted) == Hashes(s.emitted) + [s.queue[0]];
      assert s.queue == [s.queue[0]] + s.queue[1..];
    }
  }

  lemma StartExtendsLine(s: State, hash: BlockHash)
    ensures Line(Step(s, Start(hash))) == if hash in s.started then Line(s) else Line(s) + [hash]
  {
    assert Hashes(s.emitted) + (s.queue + [hash]) == Line(s) + [hash];
  }

  /** ORDER IS KEPT. After any interleaving of starts, signatures and pops, the hashes emitted followed
      by those queued are the hashes started, in the order of their first start, each once. */
  lemma {:induction false} OrderKept(events: seq<Event>)
    ensures var s := Run(events);
            && Hashes(s.emitted) + s.queue == FirstStarts(events)
            && Distinct(FirstStarts(events))
            && (forall h :: h in s.started <==> h in FirstStarts(events))
  {
    if events == [] {
    } else {
      var before, e := events[..|events| - 1], events[|events| - 1];
      OrderKept(before);
      assert Line(Run(before)) == FirstStarts(before);
      match e
      case Start(hash) => StartExtendsLine(Run(before), hash);
      case Signed(_, _) =>
      case Pop => PopKeepsLine(Run(before));
      assert Line(Run(events)) == FirstStarts(events);
    }
  }

  lemma QueuedNotEmitted(events: seq<Event>, h: BlockHash)
    requires h in Run(events).queue
    ensures h !in Hashes(Run(events).emitted)
  {
    OrderKept(events);
    var s := Run(events);
    var k :| 0 <= k < |s.queue| && s.queue[k] == h;
    var all := Hashes(s.emitted) + s.queue;
    assert all[|s.emitted| + k] == h;
    forall i | 0 <= i < |s.emitted| ensures Hashes(s.emitted)[i] != h {
      assert all[i] == Hashes(s.emitted)[i];
    }
  }

  lemma EmittedGrow(s: State, e: Event)
    ensures forall h :: h in Hashes(s.emitted) ==> h in Hashes(Step(s, e).emitted)
    ensures e == Pop && CanPop(s) ==> s.queue[0] in Hashes(Step(s, e).emitted)
  {
    var s' := Step(s, e);
    if e == Pop && CanPop(s) {
      assert Hashes(s'.emitted) == Hashes(s.emitted) + [s.queue[0]];
    }
  }

  /** For a hash not yet emitted, the stored signature is the latest one received, however early. */
  lemma {:induction false} LatestStored(events: seq<Event>, h: BlockHash)
    requires h !in Hashes(Run(events).emitted)
    ensures h in Run(events).signatures <==> LatestSignature(events, h).Some?
    ensures h in Run(events).signatures ==> LatestSignature(events, h) == Some(Run(events).signatures[h])
  {
    if events == [] {
    } else {
      var before, e := events[..|events| - 1], events[|events| - 1];
      var s, s' := Run(before), Run(events);
      EmittedGrow(s, e);
      assert s' == Step(s, e);
      LatestStored(before, h);
    }
  }

  /** The hash the last event emitted, if it was a pop that succeeded. */
  function JustEmitted(events: seq<Event>): Option<BlockHash> {
    if events == [] || |Run(events).emitted| <= |Run(events[..|events| - 1]).emitted| then None
    else Some(Run(events).emitted[|Run(events).emitted| - 1].0)
  }

  /** The latest signature received for a hash since the hash was last emitted. */
  function Unused(events: seq<Event>, hash: BlockHash): Option<Multisignature> {
    if events == [] then None
    else if JustEmitted(events) == Some(hash) then None
    else
      match events[|events| - 1]
      case Signed(h, signature) => if h == hash then Some(signature) else Unused(events[..|events| - 1], hash)
      case _ => Unused(events[..|events| - 1], hash)
  }

  /** NOTHING IS KEPT TOO LONG. After any interleaving the stored signatures are exactly those received and
      not yet handed out, started hashes or not. */
  lemma {:induction false} StoredAreUnused(events: seq<Event>, h: BlockHash)
    ensures Unused(events, h) == if h in Run(events).signatures then Some(Run(events).signatures[h]) else None
  {
    if events == [] {
    } else {
      var before, e := events[..|events| - 1], events[|events| - 1];
      StoredAreUnused(before, h);
      assert Run(events) == Step(Run(before), e);
    }
  }

  /** What a pop emits is the earliest started hash still outstanding, with its latest signature. */
  lemma PopEmitsLatest(events: seq<Event>)
    requires CanPop(Run(events))
    ensures var s := Run(events);
            && |s.emitted| < |FirstStarts(events)|
            && s.queue[0] == FirstStarts(events)[|s.emitted|]
            && LatestSignature(events, s.queue[0]) == Some(s.signatures[s.queue[0]])
  {
    var s := Run(events);
    OrderKept(events);
    assert (Hashes(s.emitted) + s.queue)[|s.emitted|] == s.queue[0];
    QueuedNotEmitted(events, s.queue[0]);
    LatestStored(events, s.queue[0]);
  }

  /** The pop that emitted the `i`-th hash saw the hash's latest signature at that moment. */
  ghost predicate EmittedAt(events: seq<Event>, i: nat, k: nat) {
    && k < |events| && events[k] == Pop
    && i < |Run(events).emitted|
    && |Run(events[..k]).emitted| == i
    && LatestSignature(events[..k], Run(events).emitted[i].0) == Some(Run(events).emitted[i].1)
  }

  /** EVERY EMISSION CARRIES THE LATEST SIGNATURE received for its hash before the pop. */
  lemma {:induction false} EmittedCarryLatest(events: seq<Event>, i: nat)
    requires i < |Run(events).emitted|
    ensures exists k: nat :: EmittedAt(events, i, k)
  {
    var n := |events| - 1;
    var before := events[..n];
    var s := Run(before);
    if i < |s.emitted| {
      EmittedCarryLatest(before, i);
      var k: nat :| EmittedAt(before, i, k);
      assert events[..k] == before[..k];
      assert EmittedAt(events, i, k);
    } else {
      PopEmitsLatest(before);
      assert EmittedAt(events, i, n);
    }
  }

  /** A hash leaves at most once. */
  lemma EmittedOnce(events: seq<Event>, i: nat, j: nat)
    requires i < j < |Run(events).emitted|
    ensures Run(events).emitted[i].0 != Run(events).emitted[j].0
  {
    OrderKept(events);
    var s := Run(events);
    assert FirstStarts(events)[i] == Hashes(s.emitted)[i];
    assert FirstStarts(events)[j] == Hashes(s.emitted)[j];
  }

  function Pops(s: State, k: nat): State
    decreases k
  {
    if k == 0 then s else Pops(Step(s, Pop), k - 1)
  }

  /** When the first `k` queued hashes have signatures, the next `k` pops emit them in order. */
  lemma {:induction false} ReadyHashesLeave(s: State, k: nat)
    requires k <= |s.queue| && Distinct(s.queue)
    requires forall i :: 0 <= i < k ==> s.queue[i] in s.signatures
    ensures Pops(s, k).queue == s.queue[k..]
    ensures Pops(s, k).emitted
            == s.emitted + seq(k, i requires 0 <= i < k => (s.queue[i], s.signatures[s.queue[i]]))
    decreases k
  {
    if k == 0 {
    } else {
      var s' := Step(s, Pop);
      assert forall i :: 0 <= i < k - 1 ==> s'.queue[i] == s.queue[i + 1] && s'.queue[i] in s'.signatures;
      ReadyHashesLeave(s', k - 1);
    }
  }

  lemma {:induction false} PopsEnd(s: State, k: nat)
    ensures Pops(s, k + 1) == Step(Pops(s, k), Pop)
    decreases k
  {
    if k == 0 {
    } else {
      PopsEnd(Step(s, Pop), k - 1);
    }
  }

  function PopEvents(k: nat): seq<Event> {
    seq(k, i => Pop)
  }

  lemma {:induction false} RunPops(events: seq<Event>, k: nat)
    ensures Run(events + PopEvents(k)) == Pops(Run(events), k)
    decreases k
  {
    if k == 0 {
      assert events + PopEvents(0) == events;
    } else {
      var all := events + PopEvents(k);
      assert all[..|all| - 1] == events + PopEvents(k - 1) && all[|all| - 1] == Pop;
      RunPops(events, k - 1);
      PopsEnd(Run(events), k - 1);
    }
  }

  lemma QueueDistinct(events: seq<Event>)
    ensures Distinct(Run(events).queue)
  {
    OrderKept(events);
    var s := Run(events);
    assert forall i :: 0 <= i < |s.queue| ==> s.queue[i] == FirstStarts(events)[|s.emitted| + i];
  }

  /** READY HASHES LEAVE. After any interleaving, if signatures were received for the first `k` queued
      hashes, the next `k` pops emit exactly these, in order and with their latest signatures. */
  lemma ReadyHashesLeaveInRun(events: seq<Event>, k: nat)
    requires k <= |Run(events).queue|
    requires forall i :: 0 <= i < k ==> LatestSignature(events, Run(events).queue[i]).Some?
    ensures var s, after := Run(events), Run(events + PopEvents(k));
            && after.queue == s.queue[k..]
            && after.emitted == s.emitted + seq(k, i requires 0 <= i < k =>
                                  (s.queue[i], LatestSignature(events, s.queue[i]).value))
  {
    var s := Run(events);
    forall i | 0 <= i < k
      ensures s.queue[i] in s.signatures && s.signatures[s.queue[i]] == LatestSignature(events, s.queue[i]).value
    {
      QueuedNotEmitted(events, s.queue[i]);
      LatestStored(events, s.queue[i]);
    }
    QueueDistinct(events);
    RunPops(events, k);
    ReadyHashesLeave(s, k);
  }

  // ---------------------------------------------------------------- the aggregator object

  datatype AggregatorError = NoHashFound | DuplicateHash

  /** The state after a list of signatures arrives. */
  function Received(s: State, pairs: seq<(BlockHash, Multisignature)>): State {
    if pairs == [] then s else
    var n := |pairs| - 1;
    Step(Received(s, pairs[..n]), Signed(pairs[n].0, pairs[n].1))
  }

  class BlockSignatureAggregator {
    var signatures: map<BlockHash, Multisignature>
    var hashQueue: seq<BlockHash>
    var startedHashes: set<BlockHash>
    ghost var emitted: seq<(BlockHash, Multisignature)>

    ghost function Value(): State
      reads this
    {
      State(signatures, hashQueue, startedHashes, emitted)
    }

    constructor ()
      ensures Value() == INITIAL
    {
      signatures, hashQueue, startedHashes, emitted := map[], [], {}, [];
    }

    method OnStart(hash: BlockHash) returns (result: Result<(), AggregatorError>)
      modifies this
      ensures Value() == Step(old(Value()), Start(hash))
      ensures result == if hash in old(startedHashes) then Err(DuplicateHash) else Ok(())
    {
      if hash in startedHashes {
        return Err(DuplicateHash);
      }
      startedHashes := startedHashes + {hash};
      hashQueue := hashQueue + [hash];
      return Ok(());
    }

    method OnMultisignedHash(hash: BlockHash, signature: Multisignature)
      modifies this
      ensures Value() == Step(old(Value()), Signed(hash, signature))
    {
      signatures := signatures[hash := signature];
    }

    /** Takes the front hash out, and puts it back when its signature is still missing. */
    method TryPopHash() returns (result: Result<(BlockHash, Multisignature), AggregatorError>)
      modifies this
      ensures Value() == Step(old(Value()), Pop)
      ensures result == if old(CanPop(Value())) then Ok((old(hashQueue)[0], old(signatures)[old(hashQueue)[0]]))
                        else Err(NoHashFound)
    {
      if hashQueue == [] {
        return Err(NoHashFound);
      }
      var hash := hashQueue[0];
      hashQueue := hashQueue[1..];
      if hash in signatures {
        var signature := signatures[hash];
        signatures := signatures - {hash};
        emitted := emitted + [(hash, signature)];
        return Ok((hash, signature));
      }
      hashQueue := [hash] + hashQueue;
      return Err(NoHashFound);
    }

    /** Waits for the front hash's signature among those arriving until the network closes. It takes
        in no more of them than needed, and gives up only if none of them lets the front hash go. */
    method NextMultisignedHash(incoming: seq<(BlockHash, Multisignature)>)
      returns (result: Option<(BlockHash, Multisignature)>, used: nat)
      modifies this
      ensures used <= |incoming|
      ensures forall j :: 0 <= j < used ==> !CanPop(Received(old(Value()), incoming[..j]))
      ensures var s := Received(old(Value()), incoming[..used]);
              && Value() == Step(s, Pop)
              && (result.Some? <==> CanPop(s))
              && (result.Some? ==> result == Some((s.queue[0], s.signatures[s.queue[0]])))
      ensures result.None? ==> used == |incoming|
    {
      used, result := 0, None;
      assert incoming[..0] == [];
      while true
        invariant used <= |incoming| && result == None
        invariant Value() == Received(old(Value()), incoming[..used])
        invariant forall j :: 0 <= j < used ==> !CanPop(Received(old(Value()), incoming[..j]))
        decreases |incoming| - used
      {
        var popped := TryPopHash();
        if popped.Ok? {
          result := Some(popped.value);
          return;
        }
        if used == |incoming| {
          return;
        }
        assert incoming[..used + 1][..used] == incoming[..used];
        OnMultisignedHash(incoming[used].0, incoming[used].1);
        used := used + 1;
      }
    }
  }
}
