/** The batcher's state as a value, and what each of its operations does to it.  The class
    in Batcher.dfy is proved against these functions; Pipeline.dfy interleaves them. */
module Candidate {
  import opened Wrappers
  import opened ChainTypes
  import opened Execution
  import opened Packer
  import opened Blocks
  import ExtraData
  import ForkConfig

  const GAS_CEIL: nat := 0x8000000

  /** The placeholder "EcGeth Extra" of an unsealed header. */
  const DUMMY_EXTRA: seq<ExtraData.Rlp.byte> := [0x45, 0x63, 0x47, 0x65, 0x74, 0x68, 0x20, 0x45, 0x78, 0x74, 0x72, 0x61]

  /** What the candidate carries until it is sealed. */
  datatype TaskView = TaskView(receipts: seq<Receipt>, world: World, block: BlockView)

  datatype Core = Core(env: Option<Env>, task: Option<TaskView>, snap: Option<BlockView>, coinbase: Address)

  function NumberOf(h: HeaderData): nat {
    if h.number.None? then 0 else h.number.value
  }

  /** The header of a new cycle, after `Prepare`: note that the coinbase is zeroed again. */
  function NewHeader(parent: HeaderData, timestamp: nat): HeaderData {
    HeaderData(HeaderHash(parent), Zero, 0, Zero, Zero, Zero, [], Some(1), Some(NumberOf(parent) + 1),
               GAS_CEIL, 0, if parent.time >= timestamp then parent.time else timestamp, DUMMY_EXTRA, Zero, 0)
  }

  function Cleared(c: Core): Core {
    c.(task := None, snap := None)
  }

  /** The header of a new cycle: the next number on its parent, a time no earlier than the
      parent's or the clock's, the fixed gas limit, and no beneficiary. */
  lemma NewHeaderFollows(parent: HeaderData, timestamp: nat)
    ensures var h := NewHeader(parent, timestamp);
            && h.parentHash == HeaderHash(parent) && h.number == Some(NumberOf(parent) + 1)
            && h.time >= parent.time && h.time >= timestamp && (h.time == parent.time || h.time == timestamp)
            && h.gasLimit == 0x8000000 && h.gasUsed == 0 && h.difficulty == Some(1) && h.coinbase == 0
            && h.extra == DUMMY_EXTRA && h.bloom == [] && h.nonce == 0 && h.mixDigest == Zero
  {
  }

  /** `commitNewWork`: when the parent state cannot be opened the old environment stays. */
  function NewWork(x: Executor, cfg: ForkConfig.ChainConfig, c: Core, parent: HeaderData, state: Option<World>,
                   timestamp: nat,
                   pool: Pool, localSig: Signal, remoteSig: Signal): Core {
    if state.None? then c
    else c.(env := Some(FillNewWork(x, cfg, FreshEnv(NewHeader(parent, timestamp), state.value), pool, c.coinbase,
                                      localSig, remoteSig)))
  }

  function Snapshot(c: Core): Core
    requires c.env.Some?
  {
    var e := c.env.value;
    c.(snap := Some(BlockView(AssembledHeader(e.header, e.txs, e.receipts), e.txs)))
  }

  function Updated(x: Executor, cfg: ForkConfig.ChainConfig, c: Core, pool: Pool): Core
    requires c.env.Some?
  {
    c.(env := Some(UpdateNewWork(x, cfg, c.env.value, pool, c.coinbase)))
  }

  /** `commit`: finalize the environment's header, assemble the block, remember the task. */
  function Committed(cfg: ForkConfig.ChainConfig, c: Core): Core
    requires c.env.Some?
  {
    var e := c.env.value;
    var e' := e.(header := FinalizedHeader(cfg, e.header, e.world));
    var block := BlockView(AssembledHeader(e'.header, e.txs, e.receipts), e.txs);
    Snapshot(c.(env := Some(e'), task := Some(TaskView(e.receipts, e.world, block))))
  }

  // ---------------------------------------------------------------- what makes a good task

  /** The world is the state that the header's parent names by its root. */
  ghost predicate BuildsOn(h: HeaderData, state: World) {
    exists p: HeaderData, d: bool ::
      h.parentHash == HeaderHash(p) && p.root == OfWorld(state, d) && h.number == Some(NumberOf(p) + 1)
  }

  /** A task carries the outcome of executing its block: on the state of the parent that the
      block names, its transactions give the task's receipts and world, whose root the
      header names in turn. */
  ghost predicate TaskOk(x: Executor, cfg: ForkConfig.ChainConfig, t: TaskView) {
    && t.block.header.root == OfWorld(t.world, cfg.IsEIP158(t.block.header.number))
    && t.block.header == AssembledHeader(t.block.header, t.block.txs, t.receipts)
    && NamesContents(t.block.header, t.block.txs, t.receipts)
    && |t.block.txs| == |t.receipts| <= MAX_READY_TXS
    && exists state, authors :: BuildsOn(t.block.header, state) && ExecutesTo(x, t, state, authors)
  }

  ghost predicate ExecutesTo(x: Executor, t: TaskView, state: World, authors: seq<Address>) {
    && |authors| == |t.block.txs|
    && var run := Replay(x, ContextOf(t.block.header), state, t.block.txs, authors);
       run.Some? && run.value.world == t.world && run.value.receipts == t.receipts
       && run.value.gasUsed == t.block.header.gasUsed <= t.block.header.gasLimit
  }

  /** After a commit the snapshot is the candidate itself, and the environment goes on with the
      same transactions, receipts and state. */
  lemma CommittedSnapshotIsCandidate(cfg: ForkConfig.ChainConfig, c: Core)
    requires c.env.Some?
    ensures var r, e := Committed(cfg, c), c.env.value;
            && r.task.Some? && r.snap == Some(r.task.value.block) && r.coinbase == c.coinbase
            && r.task.value.block.txs == e.txs && r.task.value.receipts == e.receipts && r.task.value.world == e.world
            && r.env.Some? && r.env.value.(header := e.header) == e
  {
  }

  /** Whatever is packed, in a new cycle or a refill, is executed under the coinbase of the
      moment; nothing else of what is pending changes. */
  lemma PackedUnderCoinbase(x: Executor, cfg: ForkConfig.ChainConfig, c: Core, parent: HeaderData, state: World,
                            timestamp: nat, pool: Pool, localSig: Signal, remoteSig: Signal)
    requires Metered(x)
    ensures var r := NewWork(x, cfg, c, parent, Some(state), timestamp, pool, localSig, remoteSig);
            && r.(env := c.env) == c && r.env.Some? && AllBy(r.env.value.authors, c.coinbase)
            && r.env.value.parent == state
  {
    FillNewWorkKeeps(x, cfg, NewHeader(parent, timestamp), state, pool, c.coinbase, localSig, remoteSig);
    AllByExtends(FreshEnv(NewHeader(parent, timestamp), state),
                 NewWork(x, cfg, c, parent, Some(state), timestamp, pool, localSig, remoteSig).env.value, c.coinbase);
  }

  lemma RefilledUnderCoinbase(x: Executor, cfg: ForkConfig.ChainConfig, c: Core, pool: Pool)
    requires Metered(x) && c.env.Some? && EnvOk(x, c.env.value)
    ensures var r := Updated(x, cfg, c, pool);
            r.(env := c.env) == c && r.env.Some? && Extends(c.env.value, r.env.value, c.coinbase)
  {
    UpdateNewWorkKeeps(x, cfg, c.env.value, pool, c.coinbase);
  }

  lemma CommittedTaskOk(x: Executor, cfg: ForkConfig.ChainConfig, c: Core)
    requires Metered(x) && c.env.Some? && EnvOk(x, c.env.value) && BuildsOn(c.env.value.header, c.env.value.parent)
    requires c.env.value.header.bloom == []
    ensures TaskOk(x, cfg, Committed(cfg, c).task.value)
    ensures EnvOk(x, Committed(cfg, c).env.value)
  {
    var e := c.env.value;
    var t := Committed(cfg, c).task.value;
    assert ContextOf(t.block.header) == ContextOf(e.header);
    ReplayConservesGas(x, ContextOf(e.header), e.parent, e.txs, e.authors);
    SameParent(e.header, t.block.header, e.parent);
    AssembledNames(FinalizedHeader(cfg, e.header, e.world), e.txs, e.receipts);
    assert ExecutesTo(x, t, e.parent, e.authors);
  }

  lemma SameParent(h: HeaderData, h': HeaderData, state: World)
    requires BuildsOn(h, state) && h'.parentHash == h.parentHash && h'.number == h.number
    ensures BuildsOn(h', state)
  {
  }

  /** An unsealed header never reads as one that carries a proof. */
  lemma UnsealedExtraIsUnreadable()
    ensures ExtraData.ReadExtra(DUMMY_EXTRA).failed
  {
  }
}
