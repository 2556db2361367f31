/** From the pool to the candidate: what a work request and a build call, as steps of the whole
    system, put into the block that is handed out. */
module Building {
  import opened Wrappers
  import opened ChainTypes
  import opened Execution
  import opened Packer
  import opened Completeness
  import opened Candidate
  import opened Pipeline

  /** A work request fills the environment with all that its pool offers and is due on the
      parent state, if that fits; nothing else of the system moves. */
  lemma WorkTakesAll(node: Node, s: System, parent: HeaderData, state: World, timestamp: nat, pool: Pool,
                     localSig: Signal, remoteSig: Signal, good: World -> bool)
    requires Metered(node.x) && Sequenced(node.x) && Completeness.Quiet(localSig) && Completeness.Quiet(remoteSig)
    requires Enabled(s, Work(parent, Some(state), timestamp, pool, localSig, remoteSig))
    requires PoolFits(node.x, node.cfg, FreshEnv(NewHeader(parent, timestamp), state), pool, s.core.coinbase, good, {})
    ensures var s' := Apply(node, s, Work(parent, Some(state), timestamp, pool, localSig, remoteSig));
            && s'.core.env.Some? && TakesPool(node.x, state, pool, s'.core.env.value.txs)
            && s' == s.(core := s.core.(env := s'.core.env))
  {
    FillTakesAll(node.x, node.cfg, FreshEnv(NewHeader(parent, timestamp), state), pool, s.core.coinbase,
                 localSig, remoteSig, good);
  }

  /** A build call with nothing in between returns a block with all that was packed before it,
      and all that the pool of its refill offers and is due, if that fits. */
  lemma BuiltTakesAll(node: Node, s: System, n: nat, pool: Pool, good: World -> bool) returns (steps: seq<Step>)
    requires Metered(node.x) && Sequenced(node.x) && Inv(node, s) && s.rpc.Idle? && s.head == n
    requires s.core.snap.Some? && NumberOf(s.core.snap.value.header) > n && s.core.env.Some?
    requires var e := s.core.env.value;
             PoolFits(node.x, node.cfg, e, pool, s.core.coinbase, good, e.processed)
    ensures IsRun(node, s, steps)
    ensures var s', e := RunOf(node, s, steps), s.core.env.value;
            && s'.cblock.Some? && NumberOf(s'.cblock.value.header) == n + 1
            && e.txs <= s'.cblock.value.txs && TakesPool(node.x, e.world, pool, s'.cblock.value.txs)
  {
    steps := UninterruptedBuild(node, s, n, pool);
    RefillTakesAll(node.x, node.cfg, s.core.env.value, pool, s.core.coinbase, good);
    CommittedSnapshotIsCandidate(node.cfg, Updated(node.x, node.cfg, s.core, pool));
  }

  /** Whatever is packed after the etherbase was set, in that cycle, is packed under it. */
  lemma PackedUnderEtherbase(node: Node, s: System, a: Address, parent: HeaderData, state: World, timestamp: nat,
                             pool: Pool, localSig: Signal, remoteSig: Signal)
    requires Metered(node.x) && Enabled(s, Work(parent, Some(state), timestamp, pool, localSig, remoteSig))
    ensures var s1 := Apply(node, s, SetEtherbase(a));
            && Enabled(s1, Work(parent, Some(state), timestamp, pool, localSig, remoteSig))
            && var s2 := Apply(node, s1, Work(parent, Some(state), timestamp, pool, localSig, remoteSig));
               s2.core.env.Some? && AllBy(s2.core.env.value.authors, a)
  {
    PackedUnderCoinbase(node.x, node.cfg, s.core.(coinbase := a), parent, state, timestamp, pool, localSig, remoteSig);
  }
}
