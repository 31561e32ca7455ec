/** Blocks and the sessions they belong to. */
module SessionBoundaries {
  import opened Arithmetic

  type SessionId = nat
  type BlockNumber = nat

  function SessionOfBlock(period: nat, block: BlockNumber): SessionId
    requires period > 0
  {
    block / period
  }

  function FirstBlock(period: nat, session: SessionId): BlockNumber {
    MulNonNegative(session, period);
    session * period
  }

  function LastBlock(period: nat, session: SessionId): BlockNumber
    requires period > 0
  {
    MulMonotone(1, session + 1, period);
    (session + 1) * period - 1
  }

  /** Sessions partition the blocks: a block lies between a session's boundaries iff it is the
      session computed for it. */
  lemma BoundariesPartitionBlocks(period: nat, session: SessionId, block: BlockNumber)
    requires period > 0
    ensures FirstBlock(period, session) <= block <= LastBlock(period, session)
            <==> SessionOfBlock(period, block) == session
    ensures LastBlock(period, session) + 1 == FirstBlock(period, session + 1)
    ensures FirstBlock(period, SessionOfBlock(period, block)) <= block
  {
    assert session * period == period * session;
    assert (session + 1) * period == period * (session + 1);
    FloorAtLeast(block, period, session);
    FloorAtLeast(block, period, session + 1);
    FloorBounds(block, period);
    assert (block / period) * period == period * (block / period);
  }
}
