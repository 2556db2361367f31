/** Packing a candidate block: the commit pass over the pool when a new head arrives, the
    update passes when the candidate is asked for, and why the result is a block that
    every other node can execute.  Models the packing half of ecconnector/batcher.go. */
module Packer {
  import opened Wrappers
  import opened ChainTypes
  import opened Execution
  import ForkConfig

  const MAX_READY_TXS: nat := 20 * 1024

  const INTERRUPT_NONE: int := 0
  const INTERRUPT_NEW_HEAD: int := 1

  // ---------------------------------------------------------------- the price/nonce iterator

  /** The pool's transactions, one non-empty nonce-ordered list per account.  `best` picks
      the account whose first transaction pays most; which one that is does not matter here. */
  datatype TxQueues = TxQueues(lists: seq<seq<Tx>>, best: seq<seq<Tx>> -> nat) {
    predicate Valid() {
      forall l | l in lists :: |l| > 0
    }

    function Top(): nat
      requires |lists| > 0
      ensures Top() < |lists|
    {
      best(lists) % |lists|
    }

    function Peek(): Option<Tx>
      requires Valid()
    {
      if |lists| == 0 then None else Some(lists[Top()][0])
    }

    /** Replace the best transaction by the next one of its account. */
    function Shift(): (q: TxQueues)
      requires Valid() && |lists| > 0
      ensures q.Valid() && Total(q.lists) == Total(lists) - 1
    {
      var rest := lists[Top()][1..];
      if |rest| == 0 then Pop()
      else
        TotalUpdate(lists, Top(), rest);
        TxQueues(lists[Top() := rest], best)
    }

    /** Drop the best transaction's account altogether. */
    function Pop(): (q: TxQueues)
      requires Valid() && |lists| > 0
      ensures q.Valid() && Total(q.lists) == Total(lists) - |lists[Top()]|
    {
      TotalRemove(lists, Top());
      TxQueues(lists[..Top()] + lists[Top() + 1..], best)
    }
  }

  function Total(lists: seq<seq<Tx>>): nat {
    if |lists| == 0 then 0 else |lists[0]| + Total(lists[1..])
  }

  lemma {:induction false} TotalRemove(lists: seq<seq<Tx>>, i: nat)
    requires i < |lists|
    ensures Total(lists[..i] + lists[i + 1..]) == Total(lists) - |lists[i]|
  {
    if i == 0 {
      assert lists[..0] + lists[1..] == lists[1..];
    } else {
      TotalRemove(lists[1..], i - 1);
      assert (lists[..i] + lists[i + 1..])[1..] == lists[1..][..i - 1] + lists[1..][i..];
    }
  }

  lemma {:induction false} TotalUpdate(lists: seq<seq<Tx>>, i: nat, l: seq<Tx>)
    requires i < |lists|
    ensures Total(lists[i := l]) == Total(lists) - |lists[i]| + |l|
  {
    if i > 0 {
      TotalUpdate(lists[1..], i - 1, l);
      assert lists[i := l][1..] == lists[1..][i - 1 := l];
    }
  }

  // ---------------------------------------------------------------- the environment

  /** The state of one packing cycle.  `parent` is the state it started from and `authors`
      the coinbase each transaction was executed under. */
  datatype Env = Env(
    header: HeaderData,
    parent: World,
    world: World,
    tcount: nat,
    gasPool: Option<nat>,
    txs: seq<Tx>,
    receipts: seq<Receipt>,
    authors: seq<Address>,
    processed: set<nat>,
    suggested: nat,
    pending: nat
  )

  function FreshEnv(header: HeaderData, parent: World): Env {
    Env(header.(gasUsed := 0), parent, parent, 0, None, [], [], [], {}, 0, 0)
  }

  function WithGasPool(e: Env): (e': Env)
    ensures e'.gasPool.Some?
  {
    if e.gasPool.None? then e.(gasPool := Some(e.header.gasLimit)) else e
  }

  /** `commitTransaction` and the count kept by its callers: execute on a snapshot, keep the
      result or revert. */
  function CommitTx(x: Executor, e: Env, tx: Tx, author: Address): (r: (Env, Option<ExecError>))
    requires e.gasPool.Some?
    ensures r.0.gasPool.Some?
  {
    match x.apply(ContextOf(e.header), author, e.world, e.gasPool.value, e.header.gasUsed, tx, e.tcount)
    case Applied(w, r, pool) =>
      (e.(world := w, gasPool := Some(pool), tcount := e.tcount + 1,
          header := e.header.(gasUsed := e.header.gasUsed + r.gasUsed),
          txs := e.txs + [tx], receipts := e.receipts + [r], authors := e.authors + [author]),
       None)
    case Rejected(err, _, pool) => (e.(gasPool := Some(pool)), Some(err))
  }

  /** Where the iterator goes after an execution. */
  function NextQueues(q: TxQueues, err: Option<ExecError>): (q': TxQueues)
    requires q.Valid() && |q.lists| > 0
    ensures q'.Valid() && Total(q'.lists) < Total(q.lists)
  {
    match err
    case None => q.Shift()
    case Some(GasLimitReached) => PopShrinks(q); q.Pop()
    case Some(NonceTooLow) => q.Shift()
    case Some(NonceTooHigh) => PopShrinks(q); q.Pop()
    case Some(TxTypeNotSupported) => PopShrinks(q); q.Pop()
    case Some(OtherError) => q.Shift()
  }

  lemma PopShrinks(q: TxQueues)
    requires q.Valid() && |q.lists| > 0
    ensures |q.lists[q.Top()]| > 0
  {
    assert q.lists[q.Top()] in q.lists;
  }

  predicate Ignored(cfg: ForkConfig.ChainConfig, e: Env, tx: Tx) {
    tx.replayProtected && !cfg.IsEIP155(e.header.number)
  }

  /** One turn of the loop of `updateTransactions`: the next transaction is counted, then
      skipped if the commit pass has seen it, ignored, or executed.  No queues left over
      means that the loop stops because too many were counted. */
  function UpdateNext(x: Executor, cfg: ForkConfig.ChainConfig, e: Env, q: TxQueues, author: Address)
    : (r: (Env, Option<TxQueues>))
    requires q.Valid() && e.gasPool.Some? && q.Peek().Some?
    ensures r.0.gasPool.Some?
    ensures r.1.Some? ==> r.1.value.Valid() && Total(r.1.value.lists) < Total(q.lists)
  {
    var tx, e1 := q.Peek().value, e.(pending := e.pending + 1);
    PopShrinks(q);
    if e1.suggested + e1.pending > MAX_READY_TXS then (e1, None)
    else if tx.hash in e.processed then (e1, Some(q.Shift()))
    else if Ignored(cfg, e, tx) then (e1, Some(q.Pop()))
    else
      var (e2, err) := CommitTx(x, e1, tx, author);
      (e2, Some(NextQueues(q, err)))
  }

  function UpdateLoop(x: Executor, cfg: ForkConfig.ChainConfig, e: Env, q: TxQueues, author: Address): (r: Env)
    requires q.Valid() && e.gasPool.Some?
    decreases Total(q.lists)
  {
    if e.gasPool.value < TX_GAS || q.Peek().None? then e
    else
      var (e', q') := UpdateNext(x, cfg, e, q, author);
      if q'.None? then e' else UpdateLoop(x, cfg, e', q'.value, author)
  }

  function UpdatePass(x: Executor, cfg: ForkConfig.ChainConfig, e: Env, q: TxQueues, author: Address): Env
    requires q.Valid()
  {
    UpdateLoop(x, cfg, WithGasPool(e), q, author)
  }

  /** The interrupt flag, as the value returned by each successive atomic load; None when
      no flag was passed. */
  type Signal = Option<nat -> int>

  /** One turn of the loop of `commitTransactions`: the next transaction is recorded and
      counted, then ignored or executed. */
  function CommitNext(x: Executor, cfg: ForkConfig.ChainConfig, e: Env, q: TxQueues, author: Address)
    : (r: (Env, Option<TxQueues>))
    requires q.Valid() && e.gasPool.Some? && q.Peek().Some?
    ensures r.0.gasPool.Some?
    ensures r.1.Some? ==> r.1.value.Valid() && Total(r.1.value.lists) < Total(q.lists)
  {
    var tx := q.Peek().value;
    var e1 := e.(processed := e.processed + {tx.hash}, suggested := e.suggested + 1);
    PopShrinks(q);
    if e1.suggested > MAX_READY_TXS then (e1, None)
    else if Ignored(cfg, e, tx) then (e1, Some(q.Pop()))
    else
      var (e2, err) := CommitTx(x, e1, tx, author);
      (e2, Some(NextQueues(q, err)))
  }

  /** `loads` counts the loads of the flag so far; the boolean says that the pass was
      interrupted by a new head. */
  function CommitLoop(x: Executor, cfg: ForkConfig.ChainConfig, e: Env, q: TxQueues, author: Address, sig: Signal,
                      loads: nat)
    : (r: (Env, bool))
    requires q.Valid() && e.gasPool.Some?
    decreases Total(q.lists)
  {
    if sig.Some? && sig.value(loads) != INTERRUPT_NONE then (e, sig.value(loads + 1) == INTERRUPT_NEW_HEAD)
    else if e.gasPool.value < TX_GAS || q.Peek().None? then (e, false)
    else
      var (e', q') := CommitNext(x, cfg, e, q, author);
      if q'.None? then (e', false) else CommitLoop(x, cfg, e', q'.value, author, sig, loads + 1)
  }

  function CommitPass(x: Executor, cfg: ForkConfig.ChainConfig, e: Env, q: TxQueues, author: Address, sig: Signal)
    : (Env, bool)
    requires q.Valid()
  {
    CommitLoop(x, cfg, WithGasPool(e), q, author, sig, 0)
  }

  // ---------------------------------------------------------------- what every pass keeps

  /** The environment is the in-order execution of its own transactions on the parent
      state, and stays within the packing limits. */
  ghost predicate EnvOk(x: Executor, e: Env) {
    && |e.txs| == |e.receipts| == |e.authors| == e.tcount <= MAX_READY_TXS
    && e.tcount <= e.suggested + e.pending
    && (e.gasPool.None? ==> e.txs == [])
    && (e.gasPool.Some? ==> e.gasPool.value + e.header.gasUsed <= e.header.gasLimit)
    && e.header.gasUsed == SumGas(e.receipts)
    && var run := Replay(x, ContextOf(e.header), e.parent, e.txs, e.authors);
       run.Some? && run.value.world == e.world && run.value.receipts == e.receipts
       && run.value.gasUsed == e.header.gasUsed
  }

  /** One more executed transaction extends the replay; a rejected one leaves it alone. */
  lemma CommitTxKeeps(x: Executor, e: Env, tx: Tx, author: Address)
    requires Metered(x) && EnvOk(x, e) && e.gasPool.Some?
    requires e.tcount < e.suggested + e.pending && e.tcount < MAX_READY_TXS
    ensures EnvOk(x, CommitTx(x, e, tx, author).0)
  {
    var ctx := ContextOf(e.header);
    var run := Replay(x, ctx, e.parent, e.txs, e.authors).value;
    ReplayConservesGas(x, ctx, e.parent, e.txs, e.authors);
    assert MeteredAt(x, ctx, author, e.world, e.gasPool.value, e.header.gasUsed, tx, e.tcount);
    var out := x.apply(ctx, author, e.world, e.gasPool.value, e.header.gasUsed, tx, e.tcount);
    if out.Applied? {
      assert x.apply(ctx, author, e.world, run.gasPool, e.header.gasUsed, tx, e.tcount).Applied?;
      var txs, authors := e.txs + [tx], e.authors + [author];
      assert txs[..e.tcount] == e.txs && authors[..e.tcount] == e.authors;
      assert (e.receipts + [out.receipt])[..e.tcount] == e.receipts;
    }
  }

  /** What a pass may change: it only appends, under its own coinbase, to the same block on
      the same parent. */
  ghost predicate Extends(e: Env, e': Env, author: Address) {
    && e'.parent == e.parent
    && e'.header == e.header.(gasUsed := e'.header.gasUsed)
    && e.txs <= e'.txs && e.receipts <= e'.receipts && e.authors <= e'.authors
    && forall i | |e.authors| <= i < |e'.authors| :: e'.authors[i] == author
  }

  lemma ExtendsTransitive(e: Env, e1: Env, e2: Env, author: Address)
    requires Extends(e, e1, author) && Extends(e1, e2, author)
    ensures Extends(e, e2, author)
  {
    assert forall i | |e.authors| <= i < |e1.authors| :: e2.authors[i] == e1.authors[i];
  }

  /** e1 is e with one more transaction counted. */
  predicate Counted(e: Env, e1: Env) {
    && e1 == e.(processed := e1.processed, suggested := e1.suggested, pending := e1.pending)
    && e1.suggested + e1.pending == e.suggested + e.pending + 1
  }

  /** P survives counting a transaction and, within the limit, executing it. */
  ghost predicate KeptByStep(x: Executor, author: Address, P: Env -> bool) {
    && (forall e, e1 {:trigger P(e), Counted(e, e1)} :: P(e) && Counted(e, e1) ==> P(e1))
    && (forall e, e1, tx {:trigger Counted(e, e1), CommitTx(x, e1, tx, author)} ::
          P(e) && e.gasPool.Some? && Counted(e, e1) && e1.suggested + e1.pending <= MAX_READY_TXS ==>
            P(CommitTx(x, e1, tx, author).0))
  }

  /** Both loops count, skip and execute one transaction at a time, so they keep whatever a
      single step keeps. */
  lemma {:induction false} UpdateLoopInduction(x: Executor, cfg: ForkConfig.ChainConfig, e: Env, q: TxQueues,
                                               author: Address, P: Env -> bool)
    requires q.Valid() && e.gasPool.Some? && KeptByStep(x, author, P) && P(e)
    ensures P(UpdateLoop(x, cfg, e, q, author))
    decreases Total(q.lists)
  {
    if e.gasPool.value >= TX_GAS && q.Peek().Some? {
      assert Counted(e, e.(pending := e.pending + 1));
      var (e', q') := UpdateNext(x, cfg, e, q, author);
      if q'.Some? {
        UpdateLoopInduction(x, cfg, e', q'.value, author, P);
      }
    }
  }

  lemma {:induction false} CommitLoopInduction(x: Executor, cfg: ForkConfig.ChainConfig, e: Env, q: TxQueues,
                                               author: Address, sig: Signal, loads: nat, P: Env -> bool)
    requires q.Valid() && e.gasPool.Some? && e.pending == 0 && KeptByStep(x, author, P) && P(e)
    ensures var r := CommitLoop(x, cfg, e, q, author, sig, loads).0; P(r) && r.pending == 0 && r.gasPool.Some?
    decreases Total(q.lists)
  {
    if sig.Some? && sig.value(loads) != INTERRUPT_NONE {
    } else if e.gasPool.value >= TX_GAS && q.Peek().Some? {
      assert Counted(e, e.(processed := e.processed + {q.Peek().value.hash}, suggested := e.suggested + 1));
      var (e', q') := CommitNext(x, cfg, e, q, author);
      if q'.Some? {
        CommitLoopInduction(x, cfg, e', q'.value, author, sig, loads + 1, P);
      }
    }
  }

  lemma CountedKeeps(x: Executor, e0: Env, e: Env, e1: Env, author: Address)
    requires EnvOk(x, e) && Extends(e0, e, author) && Counted(e, e1)
    ensures EnvOk(x, e1) && Extends(e0, e1, author) && e1.tcount < e1.suggested + e1.pending
    ensures e1.gasPool == e.gasPool
  {
  }

  lemma CommitTxExtends(x: Executor, e: Env, tx: Tx, author: Address)
    requires e.gasPool.Some? && |e.txs| == |e.receipts| == |e.authors|
    ensures Extends(e, CommitTx(x, e, tx, author).0, author)
  {
  }

  lemma CountedTxKeeps(x: Executor, e0: Env, e: Env, e1: Env, tx: Tx, author: Address)
    requires Metered(x) && EnvOk(x, e) && Extends(e0, e, author) && Counted(e, e1)
    requires e.gasPool.Some? && e1.suggested + e1.pending <= MAX_READY_TXS
    ensures var r := CommitTx(x, e1, tx, author).0; EnvOk(x, r) && Extends(e0, r, author)
  {
    CountedKeeps(x, e0, e, e1, author);
    CommitTxKeeps(x, e1, tx, author);
    CommitTxExtends(x, e1, tx, author);
    ExtendsTransitive(e0, e1, CommitTx(x, e1, tx, author).0, author);
  }

  /** A single step keeps the environment in order, as an extension of where it started. */
  lemma EnvStepKeeps(x: Executor, e0: Env, author: Address) returns (P: Env -> bool)
    requires Metered(x)
    ensures forall e :: P(e) <==> EnvOk(x, e) && Extends(e0, e, author)
    ensures KeptByStep(x, author, P)
  {
    P := e => EnvOk(x, e) && Extends(e0, e, author);
    forall e, e1 | P(e) && Counted(e, e1) ensures P(e1) {
      CountedKeeps(x, e0, e, e1, author);
    }
    forall e, e1, tx | P(e) && e.gasPool.Some? && Counted(e, e1) && e1.suggested + e1.pending <= MAX_READY_TXS
      ensures P(CommitTx(x, e1, tx, author).0)
    {
      CountedTxKeeps(x, e0, e, e1, tx, author);
    }
  }

  lemma UpdatePassKeeps(x: Executor, cfg: ForkConfig.ChainConfig, e: Env, q: TxQueues, author: Address)
    requires Metered(x) && EnvOk(x, e) && q.Valid()
    ensures var r := UpdatePass(x, cfg, e, q, author); EnvOk(x, r) && Extends(e, r, author)
  {
    var P := EnvStepKeeps(x, e, author);
    UpdateLoopInduction(x, cfg, WithGasPool(e), q, author, P);
  }

  lemma CommitPassKeeps(x: Executor, cfg: ForkConfig.ChainConfig, e: Env, q: TxQueues, author: Address, sig: Signal)
    requires Metered(x) && EnvOk(x, e) && q.Valid() && e.pending == 0
    ensures var r := CommitPass(x, cfg, e, q, author, sig).0; EnvOk(x, r) && Extends(e, r, author) && r.pending == 0
  {
    var P := EnvStepKeeps(x, e, author);
    CommitLoopInduction(x, cfg, WithGasPool(e), q, author, sig, 0, P);
  }

  // ---------------------------------------------------------------- what a pass selects

  predicate Queued(q: TxQueues, tx: Tx) {
    exists i :: 0 <= i < |q.lists| && tx in q.lists[i]
  }

  /** q' offers nothing that q does not. */
  ghost predicate Within(q': TxQueues, q: TxQueues) {
    forall tx | Queued(q', tx) :: Queued(q, tx)
  }

  lemma ShiftWithin(q: TxQueues)
    requires q.Valid() && |q.lists| > 0
    ensures Within(q.Shift(), q) && Within(q.Pop(), q) && Queued(q, q.Peek().value)
  {
    var t := q.Top();
    PopShrinks(q);
    forall tx | Queued(q.Shift(), tx) ensures Queued(q, tx) {
      var i :| 0 <= i < |q.Shift().lists| && tx in q.Shift().lists[i];
      if |q.lists[t]| > 1 {
        assert tx in q.lists[i];
      } else {
        assert tx in q.lists[if i < t then i else i + 1];
      }
    }
    forall tx | Queued(q.Pop(), tx) ensures Queued(q, tx) {
      var i :| 0 <= i < |q.Pop().lists| && tx in q.Pop().lists[i];
      assert tx in q.lists[if i < t then i else i + 1];
    }
  }

  /** The transactions added between e and r were offered by q, were not to be ignored, and
      have marked hashes, or unmarked ones. */
  ghost predicate Selects(cfg: ForkConfig.ChainConfig, e: Env, r: Env, q: TxQueues, marks: set<nat>, marked: bool) {
    && r.header.number == e.header.number && |e.txs| <= |r.txs|
    && forall i | |e.txs| <= i < |r.txs| ::
         Queued(q, r.txs[i]) && !Ignored(cfg, e, r.txs[i]) && (r.txs[i].hash in marks <==> marked)
  }

  lemma SelectsMore(cfg: ForkConfig.ChainConfig, e: Env, e1: Env, r: Env, q: TxQueues, q1: TxQueues, marks: set<nat>,
                    marked: bool)
    requires Selects(cfg, e, e1, q, marks, marked) && Selects(cfg, e1, r, q1, marks, marked)
             && Within(q1, q) && e1.txs <= r.txs
    ensures Selects(cfg, e, r, q, marks, marked)
  {
    forall i | |e.txs| <= i < |r.txs|
      ensures Queued(q, r.txs[i]) && !Ignored(cfg, e, r.txs[i]) && (r.txs[i].hash in marks <==> marked) {
      if i < |e1.txs| {
        assert r.txs[i] == e1.txs[i];
      }
    }
  }

  lemma UpdateNextSelects(x: Executor, cfg: ForkConfig.ChainConfig, e: Env, q: TxQueues, author: Address)
    requires q.Valid() && e.gasPool.Some? && q.Peek().Some?
    ensures var (e', q') := UpdateNext(x, cfg, e, q, author);
            && e'.processed == e.processed && e.txs <= e'.txs
            && Selects(cfg, e, e', q, e.processed, false)
            && (q'.Some? ==> Within(q'.value, q))
  {
    ShiftWithin(q);
  }

  lemma CommitNextSelects(x: Executor, cfg: ForkConfig.ChainConfig, e: Env, q: TxQueues, author: Address)
    requires q.Valid() && e.gasPool.Some? && q.Peek().Some?
    ensures var (e', q') := CommitNext(x, cfg, e, q, author);
            && e.processed <= e'.processed && e.txs <= e'.txs
            && Selects(cfg, e, e', q, e'.processed, true)
            && (q'.Some? ==> Within(q'.value, q))
  {
    ShiftWithin(q);
  }

  /** An update pass executes nothing that the commit pass has seen, whether or not that was
      included; it takes only what the pool offers, and no transaction that is replay
      protected before EIP-155. */
  lemma {:induction false} UpdateLoopSelects(x: Executor, cfg: ForkConfig.ChainConfig, e: Env, q: TxQueues,
                                             author: Address)
    requires q.Valid() && e.gasPool.Some?
    ensures var r := UpdateLoop(x, cfg, e, q, author);
            && r.processed == e.processed && e.txs <= r.txs
            && Selects(cfg, e, r, q, e.processed, false)
    decreases Total(q.lists)
  {
    if e.gasPool.value >= TX_GAS && q.Peek().Some? {
      var (e', q') := UpdateNext(x, cfg, e, q, author);
      UpdateNextSelects(x, cfg, e, q, author);
      if q'.Some? {
        UpdateLoopSelects(x, cfg, e', q'.value, author);
        var r := UpdateLoop(x, cfg, e', q'.value, author);
        assert Selects(cfg, e', r, q'.value, e.processed, false);
        SelectsMore(cfg, e, e', r, q, q'.value, e.processed, false);
      }
    }
  }

  /** A commit pass records what it executes, so that no update pass executes it again. */
  lemma {:induction false} CommitLoopSelects(x: Executor, cfg: ForkConfig.ChainConfig, e: Env, q: TxQueues,
                                             author: Address, sig: Signal, loads: nat)
    requires q.Valid() && e.gasPool.Some?
    ensures var r := CommitLoop(x, cfg, e, q, author, sig, loads).0;
            && e.processed <= r.processed && e.txs <= r.txs
            && Selects(cfg, e, r, q, r.processed, true)
    decreases Total(q.lists)
  {
    if sig.Some? && sig.value(loads) != INTERRUPT_NONE {
    } else if e.gasPool.value >= TX_GAS && q.Peek().Some? {
      var (e', q') := CommitNext(x, cfg, e, q, author);
      var r := CommitLoop(x, cfg, e, q, author, sig, loads).0;
      CommitNextSelects(x, cfg, e, q, author);
      if q'.Some? {
        CommitLoopSelects(x, cfg, e', q'.value, author, sig, loads + 1);
        assert Selects(cfg, e', r, q'.value, r.processed, true);
        assert Selects(cfg, e, e', q, r.processed, true);
        SelectsMore(cfg, e, e', r, q, q'.value, r.processed, true);
      }
    }
  }

  // ---------------------------------------------------------------- whole cycles

  /** The pool as it is handed out: the queues of local accounts, then the remote ones; None
      when it cannot be read. */
  type Pool = p: Option<(TxQueues, TxQueues)> | p.Some? ==> p.value.0.Valid() && p.value.1.Valid() witness None

  /** `updateNewWork`. */
  function UpdateNewWork(x: Executor, cfg: ForkConfig.ChainConfig, e: Env, pool: Pool, author: Address): Env {
    if pool.None? then e
    else
      var (local, remote) := pool.value;
      var e1 := if |local.lists| > 0 then UpdatePass(x, cfg, e, local, author) else e;
      if |remote.lists| > 0 then UpdatePass(x, cfg, e1, remote, author) else e1
  }

  /** The packing part of `commitNewWork`, on a fresh environment. */
  function FillNewWork(x: Executor, cfg: ForkConfig.ChainConfig, e: Env, pool: Pool, author: Address,
                       localSig: Signal, remoteSig: Signal): Env {
    if pool.None? then e
    else
      var (local, remote) := pool.value;
      var (e1, interrupted) := if |local.lists| > 0 then CommitPass(x, cfg, e, local, author, localSig) else (e, false);
      if interrupted || |remote.lists| == 0 then e1
      else CommitPass(x, cfg, e1, remote, author, remoteSig).0
  }

  lemma UpdateNewWorkKeeps(x: Executor, cfg: ForkConfig.ChainConfig, e: Env, pool: Pool, author: Address)
    requires Metered(x) && EnvOk(x, e)
    ensures var r := UpdateNewWork(x, cfg, e, pool, author); EnvOk(x, r) && Extends(e, r, author)
  {
    if pool.Some? {
      var (local, remote) := pool.value;
      UpdatePassKeeps(x, cfg, e, local, author);
      var e1 := if |local.lists| > 0 then UpdatePass(x, cfg, e, local, author) else e;
      UpdatePassKeeps(x, cfg, e1, remote, author);
      ExtendsTransitive(e, e1, UpdatePass(x, cfg, e1, remote, author), author);
    }
  }

  lemma FillNewWorkKeeps(x: Executor, cfg: ForkConfig.ChainConfig, header: HeaderData, parent: World, pool: Pool,
                         author: Address, localSig: Signal, remoteSig: Signal)
    requires Metered(x)
    ensures var e := FreshEnv(header, parent);
            var r := FillNewWork(x, cfg, e, pool, author, localSig, remoteSig);
            EnvOk(x, r) && Extends(e, r, author)
  {
    var e := FreshEnv(header, parent);
    if pool.Some? {
      var (local, remote) := pool.value;
      CommitPassKeeps(x, cfg, e, local, author, localSig);
      var (e1, interrupted) := if |local.lists| > 0 then CommitPass(x, cfg, e, local, author, localSig) else (e, false);
      CommitPassKeeps(x, cfg, e1, remote, author, remoteSig);
      ExtendsTransitive(e, e1, CommitPass(x, cfg, e1, remote, author, remoteSig).0, author);
    }
  }

  /** `Finalize` on the environment's header, before the block is assembled. */
  function FinalizedHeader(cfg: ForkConfig.ChainConfig, h: HeaderData, w: World): HeaderData {
    h.(root := OfWorld(w, cfg.IsEIP158(h.number)), uncleHash := EmptyUncles)
  }

  /** One visit of the environment by the code that asks for a candidate. */
  datatype Visit = Update(pool: Pool, author: Address) | Finalize

  function RunVisits(x: Executor, cfg: ForkConfig.ChainConfig, e: Env, visits: seq<Visit>): Env
    decreases |visits|
  {
    if |visits| == 0 then e
    else
      match visits[0]
      case Update(pool, author) => RunVisits(x, cfg, UpdateNewWork(x, cfg, e, pool, author), visits[1..])
      case Finalize => RunVisits(x, cfg, e.(header := FinalizedHeader(cfg, e.header, e.world)), visits[1..])
  }

  lemma {:induction false} RunVisitsKeeps(x: Executor, cfg: ForkConfig.ChainConfig, e: Env, visits: seq<Visit>)
    requires Metered(x) && EnvOk(x, e)
    ensures var r := RunVisits(x, cfg, e, visits);
            EnvOk(x, r) && r.parent == e.parent && ContextOf(r.header) == ContextOf(e.header) && e.txs <= r.txs
    decreases |visits|
  {
    if |visits| > 0 {
      match visits[0]
      case Update(pool, author) =>
        UpdateNewWorkKeeps(x, cfg, e, pool, author);
        RunVisitsKeeps(x, cfg, UpdateNewWork(x, cfg, e, pool, author), visits[1..]);
      case Finalize =>
        RunVisitsKeeps(x, cfg, e.(header := FinalizedHeader(cfg, e.header, e.world)), visits[1..]);
    }
  }

  /** A new cycle and the visits of its environment that follow. */
  function Cycle(x: Executor, cfg: ForkConfig.ChainConfig, header: HeaderData, parent: World, pool: Pool,
                 author: Address, localSig: Signal, remoteSig: Signal, visits: seq<Visit>): Env {
    RunVisits(x, cfg, FillNewWork(x, cfg, FreshEnv(header, parent), pool, author, localSig, remoteSig), visits)
  }

  /** Batched execution refines replay, over a whole cycle: whatever was packed, by however
      many passes, equals executing exactly those transactions in order on the parent state. */
  lemma CycleRefinesReplay(x: Executor, cfg: ForkConfig.ChainConfig, header: HeaderData, parent: World,
                           pool: Pool, author: Address, localSig: Signal, remoteSig: Signal, visits: seq<Visit>)
    requires Metered(x)
    ensures var e := Cycle(x, cfg, header, parent, pool, author, localSig, remoteSig, visits);
            && |e.txs| == |e.authors| == |e.receipts| <= MAX_READY_TXS
            && var run := Replay(x, ContextOf(header), parent, e.txs, e.authors);
               && run.Some? && run.value.world == e.world && run.value.receipts == e.receipts
               && run.value.gasUsed == e.header.gasUsed == SumGas(e.receipts) <= header.gasLimit
  {
    var e0 := FillNewWork(x, cfg, FreshEnv(header, parent), pool, author, localSig, remoteSig);
    FillNewWorkKeeps(x, cfg, header, parent, pool, author, localSig, remoteSig);
    RunVisitsKeeps(x, cfg, e0, visits);
    var e := RunVisits(x, cfg, e0, visits);
    ReplayConservesGas(x, ContextOf(header), parent, e.txs, e.authors);
  }

  /** Each sender's included nonces follow on from the parent state, so no transaction is in
      twice, even if candidates were asked for repeatedly. */
  lemma CycleHasNoRepeats(x: Executor, cfg: ForkConfig.ChainConfig, header: HeaderData, parent: World,
                          pool: Pool, author: Address, localSig: Signal, remoteSig: Signal, visits: seq<Visit>)
    requires Metered(x) && Sequenced(x)
    ensures var e := Cycle(x, cfg, header, parent, pool, author, localSig, remoteSig, visits);
            && (forall i | 0 <= i < |e.txs| ::
                  e.txs[i].nonce == x.nonce(parent, e.txs[i].from) + CountFrom(e.txs[..i], e.txs[i].from))
            && forall i, j | 0 <= i < j < |e.txs| :: e.txs[i] != e.txs[j]
  {
    CycleRefinesReplay(x, cfg, header, parent, pool, author, localSig, remoteSig, visits);
    var e := Cycle(x, cfg, header, parent, pool, author, localSig, remoteSig, visits);
    forall i | 0 <= i < |e.txs|
      ensures e.txs[i].nonce == x.nonce(parent, e.txs[i].from) + CountFrom(e.txs[..i], e.txs[i].from)
    {
      NoncesAreConsecutive(x, ContextOf(header), parent, e.txs, e.authors, i);
    }
    forall i, j | 0 <= i < j < |e.txs| ensures e.txs[i] != e.txs[j] {
      NoTransactionTwice(x, ContextOf(header), parent, e.txs, e.authors, i, j);
    }
  }

  // ---------------------------------------------------------------- the coinbase

  predicate AllBy(authors: seq<Address>, a: Address) {
    forall i | 0 <= i < |authors| :: authors[i] == a
  }

  predicate VisitsBy(visits: seq<Visit>, a: Address) {
    forall i | 0 <= i < |visits| && visits[i].Update? :: visits[i].author == a
  }

  lemma AllByExtends(e: Env, e': Env, a: Address)
    requires AllBy(e.authors, a) && Extends(e, e', a)
    ensures AllBy(e'.authors, a)
  {
    forall i | 0 <= i < |e'.authors| ensures e'.authors[i] == a {
      assert i < |e.authors| ==> e'.authors[i] == e.authors[i];
    }
  }

  lemma VisitsByTail(visits: seq<Visit>, a: Address)
    requires |visits| > 0 && VisitsBy(visits, a)
    ensures VisitsBy(visits[1..], a)
    ensures visits[0].Update? ==> visits[0].author == a
  {
  }

  lemma {:induction false} VisitsByOneAuthor(x: Executor, cfg: ForkConfig.ChainConfig, e: Env, visits: seq<Visit>,
                                             a: Address)
    requires Metered(x) && EnvOk(x, e) && AllBy(e.authors, a) && VisitsBy(visits, a)
    ensures AllBy(RunVisits(x, cfg, e, visits).authors, a)
    decreases |visits|
  {
    if |visits| > 0 {
      VisitsByTail(visits, a);
      match visits[0]
      case Update(pool, author) =>
        var e' := UpdateNewWork(x, cfg, e, pool, author);
        UpdateNewWorkKeeps(x, cfg, e, pool, author);
        AllByExtends(e, e', a);
        VisitsByOneAuthor(x, cfg, e', visits[1..], a);
      case Finalize =>
        VisitsByOneAuthor(x, cfg, e.(header := FinalizedHeader(cfg, e.header, e.world)), visits[1..], a);
    }
  }

  lemma AllByOne(authors: seq<Address>, a: Address)
    requires AllBy(authors, a)
    ensures authors == seq(|authors|, _ => a)
  {
  }

  lemma CycleByOneAuthor(x: Executor, cfg: ForkConfig.ChainConfig, header: HeaderData, parent: World,
                         pool: Pool, a: Address, localSig: Signal, remoteSig: Signal, visits: seq<Visit>)
    requires Metered(x) && VisitsBy(visits, a)
    ensures AllBy(Cycle(x, cfg, header, parent, pool, a, localSig, remoteSig, visits).authors, a)
  {
    var e0 := FillNewWork(x, cfg, FreshEnv(header, parent), pool, a, localSig, remoteSig);
    FillNewWorkKeeps(x, cfg, header, parent, pool, a, localSig, remoteSig);
    AllByExtends(FreshEnv(header, parent), e0, a);
    VisitsByOneAuthor(x, cfg, e0, visits, a);
  }

  /** If the coinbase did not change during a cycle, the block replays under that one
      coinbase throughout. */
  lemma OneCoinbaseReplays(x: Executor, cfg: ForkConfig.ChainConfig, header: HeaderData, parent: World,
                           pool: Pool, a: Address, localSig: Signal, remoteSig: Signal, visits: seq<Visit>)
    requires Metered(x) && VisitsBy(visits, a)
    ensures var e := Cycle(x, cfg, header, parent, pool, a, localSig, remoteSig, visits);
            var run := Replay(x, ContextOf(header), parent, e.txs, seq(|e.txs|, _ => a));
            run.Some? && run.value.world == e.world
  {
    var e := Cycle(x, cfg, header, parent, pool, a, localSig, remoteSig, visits);
    CycleByOneAuthor(x, cfg, header, parent, pool, a, localSig, remoteSig, visits);
    CycleRefinesReplay(x, cfg, header, parent, pool, a, localSig, remoteSig, visits);
    AllByOne(e.authors, a);
  }
}
