/** The batcher as the object it is: an environment that is filled in place, a snapshot and
    a pending task that must not change with it.  Models ecconnector/batcher.go and the two
    entry points of ecconnector/api.go. */
module Batcher {
  import opened Wrappers
  import opened ChainTypes
  import opened Execution
  import opened Packer
  import opened Blocks
  import opened Candidate
  import opened ExtraData
  import ForkConfig

  class TxIterator {
    var queues: TxQueues

    constructor (queues: TxQueues)
      ensures this.queues == queues
    {
      this.queues := queues;
    }

    method Peek() returns (tx: Option<Tx>)
      requires queues.Valid()
      ensures tx == queues.Peek()
    {
      tx := queues.Peek();
    }

    method Shift()
      requires queues.Valid() && |queues.lists| > 0
      modifies this
      ensures queues == old(queues).Shift()
    {
      queues := queues.Shift();
    }

    method Pop()
      requires queues.Valid() && |queues.lists| > 0
      modifies this
      ensures queues == old(queues).Pop()
    {
      queues := queues.Pop();
    }

    /** The switch on the result of an execution that both loops end with. */
    method Advance(err: Option<ExecError>)
      requires queues.Valid() && |queues.lists| > 0
      modifies this
      ensures queues == NextQueues(old(queues), err)
    {
      match err
      case Some(GasLimitReached) => Pop();
      case Some(NonceTooLow) => Shift();
      case Some(NonceTooHigh) => Pop();
      case None => Shift();
      case Some(TxTypeNotSupported) => Pop();
      case Some(OtherError) => Shift();
    }
  }

  class Environment {
    const header: Header
    var world: World
    var tcount: nat
    var gasPool: Option<nat>
    var txs: seq<Tx>
    var receipts: seq<Receipt>
    var processedTxs: set<nat>
    var fTcount_s: nat
    var pTcount_s: nat
    ghost const parent: World
    ghost var authors: seq<Address>

    ghost function View(): Env
      reads this, header
    {
      Env(header.data, parent, world, tcount, gasPool, txs, receipts, authors, processedTxs, fTcount_s, pTcount_s)
    }

    constructor (header: Header, world: World)
      requires header.data.gasUsed == 0
      ensures this.header == header && View() == FreshEnv(header.data, world)
    {
      this.header := header;
      this.world := world;
      parent := world;
      tcount, gasPool, txs, receipts, processedTxs, fTcount_s, pTcount_s := 0, None, [], [], {}, 0, 0;
      authors := [];
    }

    method CommitTransaction(x: Executor, tx: Tx, coinbase: Address) returns (err: Option<ExecError>)
      requires gasPool.Some?
      modifies this, header
      ensures (View(), err) == (var r := CommitTx(x, old(View()), tx, coinbase); (r.0.(tcount := old(tcount)), r.1))
    {
      var snap := world;
      var outcome := x.apply(ContextOf(header.data), coinbase, world, gasPool.value, header.data.gasUsed, tx, tcount);
      match outcome
      case Rejected(e, dirty, pool) =>
        world := dirty;
        gasPool := Some(pool);
        world := snap;
        err := Some(e);
      case Applied(w, receipt, pool) =>
        world := w;
        gasPool := Some(pool);
        header.data := header.data.(gasUsed := header.data.gasUsed + receipt.gasUsed);
        txs := txs + [tx];
        receipts := receipts + [receipt];
        authors := authors + [coinbase];
        err := None;
    }

    /** Execute one transaction and move the iterator on, as both loops do. */
    method ExecuteNext(x: Executor, tx: Tx, it: TxIterator, coinbase: Address)
      requires gasPool.Some? && it.queues.Valid() && |it.queues.lists| > 0
      modifies this, header, it
      ensures var r := CommitTx(x, old(View()), tx, coinbase);
              View() == r.0 && it.queues == NextQueues(old(it.queues), r.1)
    {
      var err := CommitTransaction(x, tx, coinbase);
      if err.None? {
        tcount := tcount + 1;
      }
      it.Advance(err);
    }

    method UpdateNextTransaction(x: Executor, cfg: ForkConfig.ChainConfig, tx: Tx, it: TxIterator, coinbase: Address)
      returns (full: bool)
      requires gasPool.Some? && it.queues.Valid() && it.queues.Peek() == Some(tx)
      modifies this, header, it
      ensures var r := UpdateNext(x, cfg, old(View()), old(it.queues), coinbase);
              View() == r.0 && (full <==> r.1.None?) && (!full ==> it.queues == r.1.value)
    {
      pTcount_s := pTcount_s + 1;
      if fTcount_s + pTcount_s > MAX_READY_TXS {
        return true;
      }
      PopShrinks(it.queues);
      if tx.hash !in processedTxs {
        if tx.replayProtected && !cfg.IsEIP155(header.data.number) {
          it.Pop();
          return false;
        }
        ExecuteNext(x, tx, it, coinbase);
      } else {
        it.Shift();
      }
      return false;
    }

    method UpdateTransactions(x: Executor, cfg: ForkConfig.ChainConfig, it: TxIterator, coinbase: Address)
      requires it.queues.Valid()
      modifies this, header, it
      ensures View() == UpdatePass(x, cfg, old(View()), old(it.queues), coinbase)
    {
      if gasPool.None? {
        gasPool := Some(header.data.gasLimit);
      }
      ghost var result := UpdatePass(x, cfg, old(View()), old(it.queues), coinbase);
      while true
        invariant it.queues.Valid() && gasPool.Some?
        invariant UpdateLoop(x, cfg, View(), it.queues, coinbase) == result
        decreases Total(it.queues.lists)
      {
        if gasPool.value < TX_GAS {
          break;
        }
        var tx := it.Peek();
        if tx.None? {
          break;
        }
        var full := UpdateNextTransaction(x, cfg, tx.value, it, coinbase);
        if full {
          break;
        }
      }
    }

    method CommitNextTransaction(x: Executor, cfg: ForkConfig.ChainConfig, tx: Tx, it: TxIterator, coinbase: Address)
      returns (full: bool)
      requires gasPool.Some? && it.queues.Valid() && it.queues.Peek() == Some(tx)
      modifies this, header, it
      ensures var r := CommitNext(x, cfg, old(View()), old(it.queues), coinbase);
              View() == r.0 && (full <==> r.1.None?) && (!full ==> it.queues == r.1.value)
    {
      processedTxs := processedTxs + {tx.hash};
      fTcount_s := fTcount_s + 1;
      if fTcount_s > MAX_READY_TXS {
        return true;
      }
      PopShrinks(it.queues);
      if tx.replayProtected && !cfg.IsEIP155(header.data.number) {
        it.Pop();
        return false;
      }
      ExecuteNext(x, tx, it, coinbase);
      return false;
    }

    /** Returns whether it was interrupted by a new head. */
    method CommitTransactions(x: Executor, cfg: ForkConfig.ChainConfig, it: TxIterator, coinbase: Address,
                              interrupt: Signal)
      returns (interrupted: bool)
      requires it.queues.Valid()
      modifies this, header, it
      ensures (View(), interrupted) == CommitPass(x, cfg, old(View()), old(it.queues), coinbase, interrupt)
    {
      if gasPool.None? {
        gasPool := Some(header.data.gasLimit);
      }
      ghost var result := CommitPass(x, cfg, old(View()), old(it.queues), coinbase, interrupt);
      var loads: nat := 0;
      while true
        invariant it.queues.Valid() && gasPool.Some?
        invariant CommitLoop(x, cfg, View(), it.queues, coinbase, interrupt, loads) == result
        decreases Total(it.queues.lists)
      {
        if interrupt.Some? && interrupt.value(loads) != INTERRUPT_NONE {
          return interrupt.value(loads + 1) == INTERRUPT_NEW_HEAD;
        }
        loads := loads + 1;
        if gasPool.value < TX_GAS {
          break;
        }
        var tx := it.Peek();
        if tx.None? {
          break;
        }
        var full := CommitNextTransaction(x, cfg, tx.value, it, coinbase);
        if full {
          break;
        }
      }
      return false;
    }

    /** Local accounts first; an interrupted pass leaves the environment half filled. */
    method Fill(x: Executor, cfg: ForkConfig.ChainConfig, pool: Pool, coinbase: Address, localSig: Signal,
                remoteSig: Signal)
      modifies this, header
      ensures View() == FillNewWork(x, cfg, old(View()), pool, coinbase, localSig, remoteSig)
    {
      if pool.None? {
        return;
      }
      var (local, remote) := pool.value;
      if |local.lists| > 0 {
        var it := new TxIterator(local);
        var interrupted := CommitTransactions(x, cfg, it, coinbase, localSig);
        if interrupted {
          return;
        }
      }
      if |remote.lists| > 0 {
        var it := new TxIterator(remote);
        var interrupted := CommitTransactions(x, cfg, it, coinbase, remoteSig);
      }
    }

    method Refill(x: Executor, cfg: ForkConfig.ChainConfig, pool: Pool, coinbase: Address)
      modifies this, header
      ensures View() == UpdateNewWork(x, cfg, old(View()), pool, coinbase)
    {
      if pool.None? {
        return;
      }
      var (local, remote) := pool.value;
      if |local.lists| > 0 {
        var it := new TxIterator(local);
        UpdateTransactions(x, cfg, it, coinbase);
      }
      if |remote.lists| > 0 {
        var it := new TxIterator(remote);
        UpdateTransactions(x, cfg, it, coinbase);
      }
    }
  }

  /** `Prepare` of the engine: the consensus fields, and the coinbase with them. */
  method Prepare(header: Header)
    modifies header
    ensures header.data == old(header.data).(difficulty := Some(1), nonce := 0, coinbase := 0, mixDigest := Zero)
  {
    header.data := header.data.(difficulty := Some(1), nonce := 0, coinbase := 0, mixDigest := Zero);
  }

  datatype Task = Task(receipts: seq<Receipt>, world: World, block: Block)

  class EcBatcher {
    const x: Executor
    const cfg: ForkConfig.ChainConfig
    var coinbase: Address
    var currentenv: Environment?
    var pendingTask: Option<Task>
    var snapshotBlock: Block?

    constructor (x: Executor, cfg: ForkConfig.ChainConfig)
      ensures Valid() && View() == Core(None, None, None, 0)
      ensures this.x == x && this.cfg == cfg && currentenv == null
    {
      this.x := x;
      this.cfg := cfg;
      coinbase := 0;
      currentenv := null;
      pendingTask := None;
      snapshotBlock := null;
    }

    /** No block shares its header with the environment that is still being filled. */
    ghost predicate Valid()
      reads this, Objects()
    {
      && (snapshotBlock != null ==> snapshotBlock.Valid())
      && (pendingTask.Some? ==> pendingTask.value.block.Valid())
      && (currentenv != null && snapshotBlock != null ==> snapshotBlock.header != currentenv.header)
      && (currentenv != null && pendingTask.Some? ==> pendingTask.value.block.header != currentenv.header)
    }

    ghost function Objects(): set<object>
      reads this
    {
      (if currentenv == null then {} else {currentenv, currentenv.header})
      + (if snapshotBlock == null then {} else {snapshotBlock, snapshotBlock.header})
      + (if pendingTask.None? then {} else {pendingTask.value.block, pendingTask.value.block.header})
    }

    ghost function View(): Core
      reads this, Objects()
    {
      Core(if currentenv == null then None else Some(currentenv.View()),
           if pendingTask.None? then None
           else Some(TaskView(pendingTask.value.receipts, pendingTask.value.world, pendingTask.value.block.View())),
           if snapshotBlock == null then None else Some(snapshotBlock.View()),
           coinbase)
    }

    method ClearPending()
      requires Valid()
      modifies this`pendingTask, this`snapshotBlock
      ensures Valid() && View() == Cleared(old(View()))
    {
      pendingTask := None;
      snapshotBlock := null;
    }

    method MakeHeader(parent: HeaderData, timestamp: nat) returns (header: Header)
      ensures fresh(header) && header.data == NewHeader(parent, timestamp)
    {
      var time := if parent.time >= timestamp then parent.time else timestamp;
      header := new Header(HeaderData(HeaderHash(parent), Zero, coinbase, Zero, Zero, Zero, [], None,
                                      Some(NumberOf(parent) + 1), GAS_CEIL, 0, time, DUMMY_EXTRA, Zero, 0));
      Prepare(header);
    }

    method CommitNewWork(parent: HeaderData, state: Option<World>, timestamp: nat, pool: Pool, localSig: Signal,
                         remoteSig: Signal)
      requires Valid()
      modifies this`currentenv
      ensures Valid() && View() == NewWork(x, cfg, old(View()), parent, state, timestamp, pool, localSig, remoteSig)
      ensures currentenv == old(currentenv) || (currentenv != null && fresh(currentenv) && fresh(currentenv.header))
    {
      var header := MakeHeader(parent, timestamp);
      if state.None? {
        return;
      }
      var env := new Environment(header, state.value);
      currentenv := env;
      env.Fill(x, cfg, pool, coinbase, localSig, remoteSig);
    }

    method UpdateSnapshot()
      requires Valid() && currentenv != null
      modifies this`snapshotBlock
      ensures Valid() && View() == Snapshot(old(View()))
      ensures snapshotBlock != null && fresh(snapshotBlock) && fresh(snapshotBlock.header)
    {
      snapshotBlock := new Block.Assemble(currentenv.header, currentenv.txs, currentenv.receipts);
    }

    method UpdateNewWork(pool: Pool)
      requires Valid() && currentenv != null
      modifies currentenv, currentenv.header
      ensures Valid() && View() == Updated(x, cfg, old(View()), pool)
    {
      currentenv.Refill(x, cfg, pool, coinbase);
    }

    method Commit() returns (block: Block)
      requires Valid() && currentenv != null
      modifies this`pendingTask, this`snapshotBlock, currentenv.header
      ensures Valid() && View() == Committed(cfg, old(View()))
      ensures fresh(block) && fresh(block.header)
      ensures pendingTask.Some? && pendingTask.value.block == block
      ensures old(currentenv.header.data).bloom == [] ==>
                NamesContents(block.header.data, currentenv.txs, currentenv.receipts)
    {
      currentenv.header.data := FinalizedHeader(cfg, currentenv.header.data, currentenv.world);
      block := new Block.Assemble(currentenv.header, currentenv.txs, currentenv.receipts);
      pendingTask := Some(Task(currentenv.receipts, currentenv.world, block));
      UpdateSnapshot();
    }

    method BuildBlock(cBlkNo: nat, pool: Pool) returns (block: Block?)
      requires Valid() && (snapshotBlock != null ==> currentenv != null)
      modifies this`pendingTask, this`snapshotBlock,
               if currentenv == null then {} else {currentenv, currentenv.header}
      ensures Valid()
      ensures block == null <==> old(snapshotBlock == null || NumberOf(snapshotBlock.header.data) <= cBlkNo)
      ensures block == null ==>
                View() == old(View()) && pendingTask == old(pendingTask) && snapshotBlock == old(snapshotBlock)
      ensures block != null ==>
                && View() == Committed(cfg, Updated(x, cfg, old(View()), pool))
                && fresh(block) && fresh(block.header)
                && pendingTask.Some? && pendingTask.value.block == block
    {
      if snapshotBlock == null || NumberOf(snapshotBlock.header.data) <= cBlkNo {
        return null;
      }
      UpdateNewWork(pool);
      block := Commit();
    }
  }

  // ---------------------------------------------------------------- the connector's API

  /** A block as written to the chain, with the receipts and state written beside it. */
  datatype Written = Written(block: BlockView, receipts: seq<Receipt>, world: World)

  datatype ApiError = NoCandidate | NoBlockForHash | Behind | Future | NotReady

  class EcConnector {
    const batcher: EcBatcher
    var cblock: Block?
    var written: seq<Written>      // successful calls of WriteBlockWithState
    var broadcast: seq<BlockView>  // calls of BroadcastBlockToAll

    constructor (batcher: EcBatcher)
      requires batcher.Valid() && batcher.pendingTask.None? && batcher.snapshotBlock == null
      ensures this.batcher == batcher && Valid() && written == [] && broadcast == []
    {
      this.batcher := batcher;
      cblock := null;
      written, broadcast := [], [];
    }

    /** The pending task is always the candidate's, and the candidate is beyond the reach of
        the environment. */
    ghost predicate Valid()
      reads this, batcher, batcher.Objects(), if cblock == null then {} else {cblock, cblock.header}
    {
      && batcher.Valid()
      && (batcher.snapshotBlock != null ==> batcher.currentenv != null)
      && (batcher.pendingTask.Some? ==> cblock == batcher.pendingTask.value.block)
      && (cblock != null ==> cblock.Valid())
      && (cblock != null && batcher.currentenv != null ==> cblock.header != batcher.currentenv.header)
    }

    method BuildBlock(cBlkNo: nat, head: nat, pool: Pool) returns (r: Option<Hash>, err: Option<ApiError>)
      requires Valid()
      modifies this`cblock, batcher`pendingTask, batcher`snapshotBlock,
               if batcher.currentenv == null then {} else {batcher.currentenv, batcher.currentenv.header}
      ensures Valid()
      ensures err == if head > cBlkNo then Some(Behind) else if head < cBlkNo then Some(Future)
                     else if old(batcher.snapshotBlock == null || NumberOf(batcher.snapshotBlock.header.data) <= cBlkNo)
                          then Some(NotReady)
                     else None
      ensures err.Some? ==> r.None? && cblock == old(cblock) && batcher.View() == old(batcher.View())
      // Filling the environment further never reaches a candidate handed out earlier.
      ensures old(cblock) != null ==> old(cblock).Valid() && old(cblock).View() == old(cblock.View())
      ensures err.None? ==>
                && batcher.View() == Committed(batcher.cfg, Updated(batcher.x, batcher.cfg, old(batcher.View()), pool))
                && cblock != null && fresh(cblock) && batcher.pendingTask.Some?
                && cblock == batcher.pendingTask.value.block
                && r == Some(HeaderHash(cblock.header.data))
    {
      if head > cBlkNo {
        return None, Some(Behind);
      }
      if head < cBlkNo {
        return None, Some(Future);
      }
      r := BuildCandidate(cBlkNo, pool);
      err := if r.None? then Some(NotReady) else None;
    }

    /** The part of the call that comes after the head checks. */
    method BuildCandidate(cBlkNo: nat, pool: Pool) returns (r: Option<Hash>)
      requires Valid()
      modifies this`cblock, batcher`pendingTask, batcher`snapshotBlock,
               if batcher.currentenv == null then {} else {batcher.currentenv, batcher.currentenv.header}
      ensures Valid()
      ensures r.None? <==> old(batcher.snapshotBlock == null || NumberOf(batcher.snapshotBlock.header.data) <= cBlkNo)
      ensures r.None? ==> cblock == old(cblock) && batcher.View() == old(batcher.View())
      ensures old(cblock) != null ==> old(cblock).Valid() && old(cblock).View() == old(cblock.View())
      ensures r.Some? ==>
                && batcher.View() == Committed(batcher.cfg, Updated(batcher.x, batcher.cfg, old(batcher.View()), pool))
                && cblock != null && fresh(cblock) && batcher.pendingTask.Some?
                && cblock == batcher.pendingTask.value.block
                && r == Some(HeaderHash(cblock.header.data))
    {
      var block := batcher.BuildBlock(cBlkNo, pool);
      if block == null {
        return None;
      }
      var h := TakeCandidate(block);
      r := Some(h);
    }

    /** The block just built becomes the candidate; hashing it fills its cache only. */
    method TakeCandidate(block: Block) returns (h: Hash)
      requires batcher.Valid() && batcher.pendingTask.Some? && block == batcher.pendingTask.value.block
      requires batcher.snapshotBlock != null ==> batcher.currentenv != null
      modifies this`cblock, block`hash
      ensures Valid() && cblock == block && h == HeaderHash(block.header.data)
      ensures batcher.View() == old(batcher.View())
    {
      cblock := block;
      h := block.Hash();
    }

    /** `writeOk` says whether the chain accepts the block.  The call reports no error when
        the insertion fails: it returns the error of the sealing step instead. */
    method SealBlock(bhash: Hash, proof: BlockProof, writeOk: bool) returns (err: Option<ApiError>)
      requires Valid() && Fits(Extra(None, Some(proof)))
      modifies this`written, this`broadcast
      modifies if cblock == null then {} else {cblock}
      ensures Valid() && cblock == old(cblock) && batcher.View() == old(batcher.View())
      ensures err == if cblock == null then Some(NoCandidate)
                     else if HeaderHash(cblock.header.data) != bhash then Some(NoBlockForHash)
                     else None
      ensures var inserts := err.None? && batcher.pendingTask.Some? && writeOk;
              if inserts then
                var task := batcher.View().task.value;
                var sealed := SealedView(task.block, proof, None);
                && task.block == cblock.View()
                && written == old(written) + [Written(sealed, task.receipts, task.world)]
                && broadcast == old(broadcast) + [sealed]
              else written == old(written) && broadcast == old(broadcast)
    {
      if cblock == null {
        return Some(NoCandidate);
      }
      var h := cblock.Hash();
      if h != bhash {
        return Some(NoBlockForHash);
      }
      var sealed := SealEcPonBada(cblock, proof, None);
      var inserted := InsertBlock(sealed, writeOk);
      if !inserted {
        return None;
      }
      broadcast := broadcast + [BlockView(sealed.header.data, sealed.txs)];
      return None;
    }

    /** Writes the sealed block with the receipts and the state of the pending task. */
    method InsertBlock(sealed: Block, writeOk: bool) returns (inserted: bool)
      requires Valid()
      modifies this`written
      ensures inserted <==> batcher.pendingTask.Some? && writeOk
      ensures written == if inserted
                         then old(written) + [Written(sealed.View(), batcher.pendingTask.value.receipts,
                                                      batcher.pendingTask.value.world)]
                         else old(written)
    {
      if batcher.pendingTask.None? || !writeOk {
        return false;
      }
      var task := batcher.pendingTask.value;
      written := written + [Written(BlockView(sealed.header.data, sealed.txs), task.receipts, task.world)];
      return true;
    }

    /** A head or start event clears what is pending; the candidate's bytes stay as they are. */
    method HandleHeadEvent()
      requires Valid()
      modifies batcher`pendingTask, batcher`snapshotBlock
      ensures Valid() && batcher.View() == Cleared(old(batcher.View()))
      ensures cblock != null ==> cblock.View() == old(cblock.View())
    {
      batcher.ClearPending();
    }

    /** One request of the main loop: a new cycle, then a new snapshot; the candidate's
        header is not the one the new cycle fills. */
    method HandleNewWork(parent: HeaderData, state: Option<World>, timestamp: nat, pool: Pool, localSig: Signal,
                         remoteSig: Signal)
      requires Valid() && (state.None? ==> batcher.currentenv != null)
      modifies batcher`currentenv, batcher`snapshotBlock
      ensures Valid()
      ensures batcher.View() == Snapshot(NewWork(batcher.x, batcher.cfg, old(batcher.View()), parent, state,
                                                   timestamp, pool, localSig, remoteSig))
      ensures cblock != null ==> cblock.View() == old(cblock.View())
      ensures batcher.currentenv == old(batcher.currentenv)
              || (batcher.currentenv != null && fresh(batcher.currentenv) && fresh(batcher.currentenv.header))
    {
      batcher.CommitNewWork(parent, state, timestamp, pool, localSig, remoteSig);
      batcher.UpdateSnapshot();
    }

    /** Candidates that were handed out earlier still say, and hash to, what they did then, and
        the environment cannot reach them; the last of them is the present candidate. */
    ghost predicate Held(handed: seq<Handed>)
      reads this`cblock, batcher`currentenv
      reads set h | h in handed :: h.block, set h | h in handed :: h.block.header
    {
      && (cblock == if |handed| == 0 then null else handed[|handed| - 1].block)
      && Unchanged(handed)
    }

    ghost predicate Unchanged(handed: seq<Handed>)
      reads batcher`currentenv, set h | h in handed :: h.block, set h | h in handed :: h.block.header
    {
      forall i | 0 <= i < |handed| ::
        && handed[i].block.Valid() && handed[i].block.View() == handed[i].view
        && (batcher.currentenv != null ==> handed[i].block.header != batcher.currentenv.header)
    }

    /** What was written and broadcast is what these seals put there. */
    predicate Logged(seals: seq<SealedTask>)
      reads this`written, this`broadcast
    {
      written == Writes(seals) && broadcast == Casts(seals)
    }

    ghost function Serving(handed: seq<Handed>, seals: seq<SealedTask>): Service
      reads batcher, batcher.Objects()
    {
      Service(batcher.View(), Views(handed), seals)
    }

    method ServeBuild(request: Request, ghost handed: seq<Handed>, ghost seals: seq<SealedTask>)
      returns (ghost more: seq<Handed>)
      requires Valid() && Held(handed) && request.Build?
      modifies this`cblock, batcher`pendingTask, batcher`snapshotBlock,
               if batcher.currentenv == null then {} else {batcher.currentenv, batcher.currentenv.header}
      ensures Valid() && Held(more) && handed <= more
      ensures Serving(more, seals) == Served(batcher.x, batcher.cfg, old(Serving(handed, seals)), request)
      ensures cblock == old(cblock) || (cblock != null && fresh(cblock))
    {
      ghost var s := Serving(handed, seals);
      ghost var built: bool;
      built, more := BuildAndHand(request.cBlkNo, request.head, request.pool, handed);
      BuildIsServed(batcher.x, batcher.cfg, s, request, built, batcher.View(), Views(more));
    }

    method BuildAndHand(cBlkNo: nat, head: nat, pool: Pool, ghost handed: seq<Handed>)
      returns (ghost built: bool, ghost more: seq<Handed>)
      requires Valid() && Held(handed)
      modifies this`cblock, batcher`pendingTask, batcher`snapshotBlock,
               if batcher.currentenv == null then {} else {batcher.currentenv, batcher.currentenv.header}
      ensures Valid() && Held(more) && handed <= more
      ensures built == CanBuild(old(batcher.View()), cBlkNo, head)
      ensures if built then
                && batcher.View() == Committed(batcher.cfg, Updated(batcher.x, batcher.cfg, old(batcher.View()), pool))
                && cblock != null && fresh(cblock) && batcher.View().task.Some?
                && Views(more) == Views(handed) + [batcher.View().task.value.block]
              else more == handed && cblock == old(cblock) && batcher.View() == old(batcher.View())
    {
      var done := Rebuild(cBlkNo, head, pool, handed);
      built := done;
      more := if built then handed + [Handed(cblock, cblock.View())] else handed;
      HandOut(handed, more, built);
    }

    lemma HandOut(handed: seq<Handed>, more: seq<Handed>, built: bool)
      requires Valid() && Unchanged(handed)
      requires if built then cblock != null && more == handed + [Handed(cblock, cblock.View())]
               else cblock == (if |handed| == 0 then null else handed[|handed| - 1].block) && more == handed
      ensures Held(more) && Views(more) == Views(handed) + if built then [cblock.View()] else []
    {
    }

    /** A build call, by its effect on the candidate. */
    method Rebuild(cBlkNo: nat, head: nat, pool: Pool, ghost handed: seq<Handed>) returns (built: bool)
      requires Valid() && Unchanged(handed)
      modifies this`cblock, batcher`pendingTask, batcher`snapshotBlock,
               if batcher.currentenv == null then {} else {batcher.currentenv, batcher.currentenv.header}
      ensures Valid() && Unchanged(handed)
      ensures built == CanBuild(old(batcher.View()), cBlkNo, head)
      ensures if built then
                && batcher.View() == Committed(batcher.cfg, Updated(batcher.x, batcher.cfg, old(batcher.View()), pool))
                && cblock != null && fresh(cblock) && Some(cblock.View()) == Pending(batcher.View())
              else cblock == old(cblock) && batcher.View() == old(batcher.View())
    {
      var r, err := BuildBlock(cBlkNo, head, pool);
      built := err.None?;
    }

    method ServeSeal(request: Request, ghost handed: seq<Handed>, ghost seals: seq<SealedTask>)
      returns (ghost more: seq<SealedTask>)
      requires Valid() && Held(handed) && Logged(seals) && request.Seal? && Fits(Extra(None, Some(request.proof)))
      modifies this`written, this`broadcast
      modifies if cblock == null then {} else {cblock}
      ensures Valid() && Held(handed) && Logged(more)
      ensures Serving(handed, more) == Served(batcher.x, batcher.cfg, old(Serving(handed, seals)), request)
    {
      ghost var s := Serving(handed, seals);
      more := SealHanded(request.bhash, request.proof, request.writeOk, handed, seals);
      SealIsServed(batcher.x, batcher.cfg, s, request, more);
    }

    /** A seal call, in terms of the last candidate handed out. */
    method SealHanded(bhash: Hash, proof: BlockProof, writeOk: bool,
                      ghost handed: seq<Handed>, ghost seals: seq<SealedTask>)
      returns (ghost more: seq<SealedTask>)
      requires Valid() && Held(handed) && Logged(seals) && Fits(Extra(None, Some(proof)))
      modifies this`written, this`broadcast
      modifies if cblock == null then {} else {cblock}
      ensures Valid() && Held(handed) && Logged(more) && batcher.View() == old(batcher.View())
      ensures more == SealedBy(Serving(handed, seals), bhash, proof, writeOk)
    {
      LastHanded(handed);
      more := SealLast(bhash, proof, writeOk, handed, seals);
    }

    lemma LastHanded(handed: seq<Handed>)
      requires Valid() && Held(handed)
      ensures cblock == null <==> |Views(handed)| == 0
      ensures cblock != null ==> Views(handed)[|Views(handed)| - 1] == cblock.View()
    {
    }

    /** A seal call, by its effect on the logs. */
    method SealLast(bhash: Hash, proof: BlockProof, writeOk: bool,
                    ghost handed: seq<Handed>, ghost seals: seq<SealedTask>)
      returns (ghost more: seq<SealedTask>)
      requires Valid() && Held(handed) && Logged(seals) && Fits(Extra(None, Some(proof)))
      modifies this`written, this`broadcast
      modifies if cblock == null then {} else {cblock}
      ensures Valid() && Held(handed) && Logged(more) && cblock == old(cblock) && batcher.View() == old(batcher.View())
      ensures more == if old(cblock != null && HeaderHash(cblock.header.data) == bhash
                             && batcher.View().task.Some?) && writeOk
                      then seals + [SealedTask(old(batcher.View()).task.value, proof)] else seals
    {
      var err := SealBlock(bhash, proof, writeOk);
      more := seals;
      if err.None? && batcher.pendingTask.Some? && writeOk {
        more := seals + [SealedTask(batcher.View().task.value, proof)];
        WritesMore(seals, batcher.View().task.value, proof);
      }
    }

    method ServeCycle(request: Request, ghost handed: seq<Handed>, ghost seals: seq<SealedTask>)
      requires Valid() && Held(handed) && request.NewCycle?
      modifies batcher`currentenv, batcher`snapshotBlock
      ensures Valid() && Held(handed)
      ensures Serving(handed, seals) == Served(batcher.x, batcher.cfg, old(Serving(handed, seals)), request)
      ensures batcher.currentenv == old(batcher.currentenv)
              || (batcher.currentenv != null && fresh(batcher.currentenv) && fresh(batcher.currentenv.header))
    {
      // Without an environment the source would stop at the snapshot.
      if request.state.Some? || batcher.currentenv != null {
        HandleNewWork(request.parent, request.state, request.timestamp, request.pool,
                      request.localSig, request.remoteSig);
      }
    }

    method ServeOne(request: Request, ghost handed: seq<Handed>, ghost seals: seq<SealedTask>)
      returns (ghost moreHanded: seq<Handed>, ghost moreSeals: seq<SealedTask>)
      requires Valid() && Held(handed) && Logged(seals)
      requires request.Seal? ==> Fits(Extra(None, Some(request.proof)))
      modifies this, batcher
      modifies if cblock == null then {} else {cblock}
      modifies if batcher.currentenv == null then {} else {batcher.currentenv, batcher.currentenv.header}
      ensures Valid() && Held(moreHanded) && handed <= moreHanded && Logged(moreSeals)
      ensures Serving(moreHanded, moreSeals) == Served(batcher.x, batcher.cfg, old(Serving(handed, seals)), request)
      ensures cblock == old(cblock) || (cblock != null && fresh(cblock))
      ensures batcher.currentenv == old(batcher.currentenv)
              || (batcher.currentenv != null && fresh(batcher.currentenv) && fresh(batcher.currentenv.header))
    {
      moreHanded, moreSeals := handed, seals;
      match request
      case Build(_, _, _) => moreHanded := ServeBuild(request, handed, seals);
      case Seal(_, _, _) => moreSeals := ServeSeal(request, handed, seals);
      case HeadEvent => HandleHeadEvent();
      case NewCycle(_, _, _, _, _, _) => ServeCycle(request, handed, seals);
    }

    /** One connector through any run of calls, head events and work requests.  What it does is
        what `Served` says of each request in turn, every candidate it ever handed out keeps
        its contents and its hash to the end, and its logs hold just the sealed candidates. */
    method Serve(requests: seq<Request>) returns (ghost handed: seq<Handed>, ghost seals: seq<SealedTask>)
      requires Valid() && cblock == null && batcher.currentenv == null && written == [] && broadcast == []
      requires forall i | 0 <= i < |requests| && requests[i].Seal? :: Fits(Extra(None, Some(requests[i].proof)))
      modifies this, batcher
      ensures Valid() && Held(handed) && Logged(seals)
      ensures Serving(handed, seals) == ServedAll(batcher.x, batcher.cfg, old(Serving([], [])), requests)
    {
      handed, seals := [], [];
      ghost var start := Serving([], []);
      for i := 0 to |requests|
        invariant Valid() && Held(handed) && Logged(seals)
        invariant Serving(handed, seals) == ServedAll(batcher.x, batcher.cfg, start, requests[..i])
        invariant batcher.currentenv != null ==> fresh(batcher.currentenv) && fresh(batcher.currentenv.header)
        invariant cblock != null ==> fresh(cblock)
      {
        handed, seals := ServeOne(requests[i], handed, seals);
        ServedNext(batcher.x, batcher.cfg, start, requests, i);
      }
      assert requests[..|requests|] == requests;
    }
  }

  // ---------------------------------------------------------------- runs of requests

  /** A task whose block was sealed with a proof, inserted and broadcast. */
  datatype SealedTask = SealedTask(task: TaskView, proof: BlockProof)

  function Inserted(t: SealedTask): Written {
    var proof := Extra(None, Some(t.proof));
    Written(if Fits(proof) then SealedView(t.task.block, t.proof, None) else t.task.block,
            t.task.receipts, t.task.world)
  }

  function Writes(seals: seq<SealedTask>): seq<Written> {
    seq(|seals|, i requires 0 <= i < |seals| => Inserted(seals[i]))
  }

  function Casts(seals: seq<SealedTask>): seq<BlockView> {
    seq(|seals|, i requires 0 <= i < |seals| => Inserted(seals[i]).block)
  }

  lemma WritesMore(seals: seq<SealedTask>, task: TaskView, proof: BlockProof)
    requires Fits(Extra(None, Some(proof)))
    ensures var more, sealed := seals + [SealedTask(task, proof)], SealedView(task.block, proof, None);
            && Writes(more) == Writes(seals) + [Written(sealed, task.receipts, task.world)]
            && Casts(more) == Casts(seals) + [sealed]
  {
  }

  /** What a connector has come to: the batcher's state, the candidates handed out, and the
      tasks that were sealed. */
  datatype Service = Service(core: Core, handed: seq<BlockView>, seals: seq<SealedTask>)

  function Pending(c: Core): Option<BlockView> {
    if c.task.None? then None else Some(c.task.value.block)
  }

  predicate CanBuild(c: Core, cBlkNo: nat, head: nat) {
    head == cBlkNo && c.snap.Some? && NumberOf(c.snap.value.header) > cBlkNo
  }

  function SealedBy(s: Service, bhash: Hash, proof: BlockProof, writeOk: bool): seq<SealedTask> {
    if |s.handed| > 0 && HeaderHash(s.handed[|s.handed| - 1].header) == bhash && s.core.task.Some? && writeOk
    then s.seals + [SealedTask(s.core.task.value, proof)]
    else s.seals
  }

  /** One request: a build that is not refused hands out the refilled environment's block; a
      seal that names the last candidate's hash has its task sealed, if that is still pending
      and the chain takes the block. */
  function Served(x: Executor, cfg: ForkConfig.ChainConfig, s: Service, request: Request): Service {
    match request
    case Build(cBlkNo, head, pool) =>
      if !CanBuild(s.core, cBlkNo, head) || s.core.env.None? then s
      else
        var core := Committed(cfg, Updated(x, cfg, s.core, pool));
        s.(core := core, handed := s.handed + [core.task.value.block])
    case Seal(bhash, proof, writeOk) =>
      s.(seals := SealedBy(s, bhash, proof, writeOk))
    case HeadEvent => s.(core := Cleared(s.core))
    case NewCycle(parent, state, timestamp, pool, localSig, remoteSig) =>
      if state.None? && s.core.env.None? then s
      else s.(core := Snapshot(NewWork(x, cfg, s.core, parent, state, timestamp, pool, localSig, remoteSig)))
  }

  function ServedAll(x: Executor, cfg: ForkConfig.ChainConfig, s: Service, requests: seq<Request>): Service {
    if |requests| == 0 then s
    else Served(x, cfg, ServedAll(x, cfg, s, requests[..|requests| - 1]), requests[|requests| - 1])
  }

  lemma ServedNext(x: Executor, cfg: ForkConfig.ChainConfig, s: Service, requests: seq<Request>, i: nat)
    requires i < |requests|
    ensures ServedAll(x, cfg, s, requests[..i + 1]) == Served(x, cfg, ServedAll(x, cfg, s, requests[..i]), requests[i])
  {
    assert requests[..i + 1][..i] == requests[..i];
  }

  /** The pending task is always that of the last candidate, and only what was handed out was
      ever sealed. */
  predicate SealsHanded(s: Service) {
    && (s.core.task.Some? ==> |s.handed| > 0 && s.core.task.value.block == s.handed[|s.handed| - 1])
    && forall i | 0 <= i < |s.seals| :: s.seals[i].task.block in s.handed
  }

  lemma RequestKeepsSeals(x: Executor, cfg: ForkConfig.ChainConfig, s: Service, request: Request)
    requires SealsHanded(s)
    ensures SealsHanded(Served(x, cfg, s, request))
  {
    var r := Served(x, cfg, s, request);
    assert s.handed <= r.handed;
    forall i | 0 <= i < |r.seals| ensures r.seals[i].task.block in r.handed {
      assert i < |s.seals| ==> r.seals[i] == s.seals[i];
    }
  }

  lemma {:induction false} SealedWereHandedOut(x: Executor, cfg: ForkConfig.ChainConfig, s: Service,
                                               requests: seq<Request>)
    requires SealsHanded(s)
    ensures SealsHanded(ServedAll(x, cfg, s, requests))
  {
    if |requests| > 0 {
      var n := |requests| - 1;
      SealedWereHandedOut(x, cfg, s, requests[..n]);
      RequestKeepsSeals(x, cfg, ServedAll(x, cfg, s, requests[..n]), requests[n]);
    }
  }

  lemma SealIsServed(x: Executor, cfg: ForkConfig.ChainConfig, s: Service, request: Request, seals: seq<SealedTask>)
    requires request.Seal? && seals == SealedBy(s, request.bhash, request.proof, request.writeOk)
    ensures s.(seals := seals) == Served(x, cfg, s, request)
  {
  }

  lemma BuildIsServed(x: Executor, cfg: ForkConfig.ChainConfig, s: Service, request: Request,
                      built: bool, core: Core, handed: seq<BlockView>)
    requires request.Build? && built == CanBuild(s.core, request.cBlkNo, request.head)
    requires s.core.snap.Some? ==> s.core.env.Some?
    requires if built then
               && core == Committed(cfg, Updated(x, cfg, s.core, request.pool))
               && handed == s.handed + [core.task.value.block]
             else core == s.core && handed == s.handed
    ensures s.(core := core, handed := handed) == Served(x, cfg, s, request)
  {
  }

  function Views(handed: seq<Handed>): (views: seq<BlockView>)
    ensures |views| == |handed|
  {
    seq(|handed|, i requires 0 <= i < |handed| => handed[i].view)
  }

  /** A candidate that was handed out, and what it said. */
  datatype Handed = Handed(block: Block, view: BlockView)

  datatype Request =
    | Build(cBlkNo: nat, head: nat, pool: Pool)
    | Seal(bhash: Hash, proof: BlockProof, writeOk: bool)
    | HeadEvent
    | NewCycle(parent: HeaderData, state: Option<World>, timestamp: nat, pool: Pool,
               localSig: Signal, remoteSig: Signal)
}
