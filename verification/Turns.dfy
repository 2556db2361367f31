/** Where the iterator goes after each transaction, whose turn comes next, and who is left out:
    the branches of the two packing loops, told by the account lists alone. */
module Turns {
  import opened Wrappers
  import opened ChainTypes
  import opened Execution
  import opened Packer
  import ForkConfig

  // ---------------------------------------------------------------- one turn

  /** The account's next transaction takes the place of the one whose turn it was; an account
      without any is gone. */
  function WithoutHead(lists: seq<seq<Tx>>, t: nat): seq<seq<Tx>>
    requires t < |lists| && |lists[t]| > 0
  {
    lists[..t] + (if |lists[t]| > 1 then [lists[t][1..]] else []) + lists[t + 1..]
  }

  /** The account is dropped, with all that it offers. */
  function WithoutAccount(lists: seq<seq<Tx>>, t: nat): seq<seq<Tx>>
    requires t < |lists|
  {
    lists[..t] + lists[t + 1..]
  }

  /** The answers after which nothing more of the account can be executed in this block. */
  predicate EndsAccount(err: Option<ExecError>) {
    err == Some(GasLimitReached) || err == Some(NonceTooHigh) || err == Some(TxTypeNotSupported)
  }

  /** What the queues are after a turn. */
  predicate Moves(lists: seq<seq<Tx>>, t: nat, after: seq<seq<Tx>>, drop: bool)
    requires t < |lists| && |lists[t]| > 0
  {
    after == if drop then WithoutAccount(lists, t) else WithoutHead(lists, t)
  }

  lemma ShiftAndPop(q: TxQueues)
    requires q.Valid() && |q.lists| > 0
    ensures |q.lists[q.Top()]| > 0
    ensures q.Shift().lists == WithoutHead(q.lists, q.Top()) && q.Pop().lists == WithoutAccount(q.lists, q.Top())
  {
    PopShrinks(q);
  }

  /** After any turn of a commit pass the other accounts' lists are untouched.  The account
      itself is dropped if its transaction is replay protected too early, or if gas, nonce or
      type rule out the rest; in every other case - executed, nonce too low, any other error -
      its next transaction is up.  Too many transactions end the pass. */
  lemma CommitTurnMovesOn(x: Executor, cfg: ForkConfig.ChainConfig, e: Env, q: TxQueues, author: Address)
    requires q.Valid() && e.gasPool.Some? && |q.lists| > 0
    ensures var tx := q.lists[q.Top()][0];
            var e1 := e.(processed := e.processed + {tx.hash}, suggested := e.suggested + 1);
            var (e', q') := CommitNext(x, cfg, e, q, author);
            if e.suggested >= MAX_READY_TXS then e' == e1 && q'.None?
            else if tx.replayProtected && !cfg.IsEIP155(e.header.number) then
              e' == e1 && q'.Some? && Moves(q.lists, q.Top(), q'.value.lists, true)
            else
              var (e2, err) := CommitTx(x, e1, tx, author);
              e' == e2 && q'.Some? && Moves(q.lists, q.Top(), q'.value.lists, EndsAccount(err))
  {
    ShiftAndPop(q);
  }

  /** Likewise for an update pass, which passes by what the commit pass has seen. */
  lemma UpdateTurnMovesOn(x: Executor, cfg: ForkConfig.ChainConfig, e: Env, q: TxQueues, author: Address)
    requires q.Valid() && e.gasPool.Some? && |q.lists| > 0
    ensures var tx := q.lists[q.Top()][0];
            var e1 := e.(pending := e.pending + 1);
            var (e', q') := UpdateNext(x, cfg, e, q, author);
            if e.suggested + e.pending >= MAX_READY_TXS then e' == e1 && q'.None?
            else if tx.hash in e.processed then
              e' == e1 && q'.Some? && Moves(q.lists, q.Top(), q'.value.lists, false)
            else if tx.replayProtected && !cfg.IsEIP155(e.header.number) then
              e' == e1 && q'.Some? && Moves(q.lists, q.Top(), q'.value.lists, true)
            else
              var (e2, err) := CommitTx(x, e1, tx, author);
              e' == e2 && q'.Some? && Moves(q.lists, q.Top(), q'.value.lists, EndsAccount(err))
  {
    ShiftAndPop(q);
  }

  /** A transaction that is turned down costs the block nothing but the gas its attempt took
      from the pool; the state is as it was before. */
  lemma RejectedLeavesTheRest(x: Executor, e: Env, tx: Tx, author: Address)
    requires e.gasPool.Some? && CommitTx(x, e, tx, author).1.Some?
    ensures var e' := CommitTx(x, e, tx, author).0;
            var o := x.apply(ContextOf(e.header), author, e.world, e.gasPool.value, e.header.gasUsed, tx, |e.txs|);
            && e' == e.(gasPool := e'.gasPool)
            && (e.tcount == |e.txs| ==>
                  o.Rejected? && CommitTx(x, e, tx, author).1 == Some(o.err) && e'.gasPool == Some(o.gasPool))
  {
  }

  // ---------------------------------------------------------------- the rest of the pass

  /** One list for each sender. */
  predicate OneSenderPerList(lists: seq<seq<Tx>>) {
    && (forall i, k | 0 <= i < |lists| && 0 <= k < |lists[i]| :: lists[i][k].from == lists[i][0].from)
    && (forall i, j | 0 <= i < j < |lists| && |lists[i]| > 0 && |lists[j]| > 0 :: lists[i][0].from != lists[j][0].from)
  }

  predicate NoneFrom(txs: seq<Tx>, start: nat, a: Address)
    requires start <= |txs|
  {
    forall i | start <= i < |txs| :: txs[i].from != a
  }

  lemma DroppedIsNotQueued(q: TxQueues, q': TxQueues, tx: Tx)
    requires q.Valid() && |q.lists| > 0 && OneSenderPerList(q.lists)
    requires q'.lists == WithoutAccount(q.lists, q.Top()) && Queued(q', tx)
    ensures |q.lists[q.Top()]| > 0 && tx.from != q.lists[q.Top()][0].from
  {
    var t: nat, lists: seq<seq<Tx>> := q.Top(), q.lists;
    PopShrinks(q);
    var i :| 0 <= i < |q'.lists| && tx in q'.lists[i];
    var j := if i < t then i else i + 1;
    assert q'.lists[i] == lists[j];
    var k :| 0 <= k < |lists[j]| && lists[j][k] == tx;
    assert lists[j][k].from == lists[j][0].from;
    assert lists[j][0].from != lists[t][0].from;
  }

  /** After gas, nonce or type have ruled an account out, or replay protection has, a commit
      pass executes nothing more of it. */
  lemma CommitDropsSender(x: Executor, cfg: ForkConfig.ChainConfig, e: Env, q: TxQueues, author: Address,
                          sig: Signal, loads: nat)
    requires q.Valid() && e.gasPool.Some? && |q.lists| > 0 && OneSenderPerList(q.lists)
    requires var tx := q.Peek().value;
             var e1 := e.(processed := e.processed + {tx.hash}, suggested := e.suggested + 1);
             Ignored(cfg, e, tx) || EndsAccount(CommitTx(x, e1, tx, author).1)
    ensures var r := CommitLoop(x, cfg, e, q, author, sig, loads).0;
            e.txs <= r.txs && NoneFrom(r.txs, |e.txs|, q.Peek().value.from)
  {
    var (e', q') := CommitNext(x, cfg, e, q, author);
    CommitTurnMovesOn(x, cfg, e, q, author);
    PopShrinks(q);
    CommitLoopSelects(x, cfg, e, q, author, sig, loads);
    if q'.Some? {
      assert e'.txs == e.txs;
      var r := CommitLoop(x, cfg, e', q'.value, author, sig, loads + 1).0;
      CommitLoopSelects(x, cfg, e', q'.value, author, sig, loads + 1);
      forall i | |e.txs| <= i < |r.txs| ensures r.txs[i].from != q.Peek().value.from {
        DroppedIsNotQueued(q, q'.value, r.txs[i]);
      }
    }
  }

  /** Nor does an update pass. */
  lemma UpdateDropsSender(x: Executor, cfg: ForkConfig.ChainConfig, e: Env, q: TxQueues, author: Address)
    requires q.Valid() && e.gasPool.Some? && |q.lists| > 0 && OneSenderPerList(q.lists)
    requires var tx := q.Peek().value;
             && tx.hash !in e.processed
             && (Ignored(cfg, e, tx) || EndsAccount(CommitTx(x, e.(pending := e.pending + 1), tx, author).1))
    ensures var r := UpdateLoop(x, cfg, e, q, author);
            e.txs <= r.txs && NoneFrom(r.txs, |e.txs|, q.Peek().value.from)
  {
    var (e', q') := UpdateNext(x, cfg, e, q, author);
    UpdateTurnMovesOn(x, cfg, e, q, author);
    PopShrinks(q);
    UpdateLoopSelects(x, cfg, e, q, author);
    if q'.Some? {
      assert e'.txs == e.txs;
      var r := UpdateLoop(x, cfg, e', q'.value, author);
      UpdateLoopSelects(x, cfg, e', q'.value, author);
      forall i | |e.txs| <= i < |r.txs| ensures r.txs[i].from != q.Peek().value.from {
        DroppedIsNotQueued(q, q'.value, r.txs[i]);
      }
    }
  }

  // ---------------------------------------------------------------- local before remote

  /** The transactions from a up to b were offered by q. */
  ghost predicate FromQueue(txs: seq<Tx>, a: nat, b: nat, q: TxQueues)
    requires a <= b <= |txs|
  {
    forall i | a <= i < b :: Queued(q, txs[i])
  }

  /** A new cycle takes from the local accounts first, and then from the remote ones. */
  lemma FillTakesLocalsFirst(x: Executor, cfg: ForkConfig.ChainConfig, e: Env, pool: Pool, author: Address,
                             localSig: Signal, remoteSig: Signal) returns (k: nat)
    requires pool.Some?
    ensures var r := FillNewWork(x, cfg, e, pool, author, localSig, remoteSig);
            && e.txs <= r.txs && |e.txs| <= k <= |r.txs|
            && FromQueue(r.txs, |e.txs|, k, pool.value.0) && FromQueue(r.txs, k, |r.txs|, pool.value.1)
  {
    var (local, remote) := pool.value;
    var (e1, interrupted) := if |local.lists| > 0 then CommitPass(x, cfg, e, local, author, localSig) else (e, false);
    CommitLoopSelects(x, cfg, WithGasPool(e), local, author, localSig, 0);
    CommitLoopSelects(x, cfg, WithGasPool(e1), remote, author, remoteSig, 0);
    k := |e1.txs|;
    var r := FillNewWork(x, cfg, e, pool, author, localSig, remoteSig);
    assert forall i | |e.txs| <= i < k :: r.txs[i] == e1.txs[i];
  }

  lemma RefillTakesLocalsFirst(x: Executor, cfg: ForkConfig.ChainConfig, e: Env, pool: Pool, author: Address)
    returns (k: nat)
    requires pool.Some?
    ensures var r := UpdateNewWork(x, cfg, e, pool, author);
            && e.txs <= r.txs && |e.txs| <= k <= |r.txs|
            && FromQueue(r.txs, |e.txs|, k, pool.value.0) && FromQueue(r.txs, k, |r.txs|, pool.value.1)
  {
    var (local, remote) := pool.value;
    var e1 := if |local.lists| > 0 then UpdatePass(x, cfg, e, local, author) else e;
    UpdateLoopSelects(x, cfg, WithGasPool(e), local, author);
    UpdateLoopSelects(x, cfg, WithGasPool(e1), remote, author);
    k := |e1.txs|;
    var r := UpdateNewWork(x, cfg, e, pool, author);
    assert forall i | |e.txs| <= i < k :: r.txs[i] == e1.txs[i];
  }

  // ---------------------------------------------------------------- interrupts

  /** The flag goes up to a value at the m-th load, and stays there. */
  ghost predicate RisesAt(sig: Signal, m: nat, value: int) {
    && sig.Some? && value != INTERRUPT_NONE
    && forall n: nat :: sig.value(n) == if n < m then INTERRUPT_NONE else value
  }

  /** A pass looks at the flag before each transaction, so it takes at most m turns; it reports
      an interruption exactly if it was the flag that stopped it, for a new head. */
  lemma {:induction false} FlagStopsPass(x: Executor, cfg: ForkConfig.ChainConfig, e: Env, q: TxQueues, author: Address,
                                         sig: Signal, loads: nat, m: nat, value: int)
    requires q.Valid() && e.gasPool.Some? && loads <= m && RisesAt(sig, m, value)
    ensures var (r, interrupted) := CommitLoop(x, cfg, e, q, author, sig, loads);
            && r.suggested <= e.suggested + (m - loads)
            && (loads == m ==> r == e)
            && (interrupted ==> value == INTERRUPT_NEW_HEAD)
            && (loads == m && value == INTERRUPT_NEW_HEAD ==> interrupted)
    decreases m - loads
  {
    if loads < m && e.gasPool.value >= TX_GAS && q.Peek().Some? {
      var (e', q') := CommitNext(x, cfg, e, q, author);
      if q'.Some? {
        FlagStopsPass(x, cfg, e', q'.value, author, sig, loads + 1, m, value);
      }
    }
  }

  /** A new head that interrupts the local pass keeps the remote accounts out: all that is new
      came from the local ones. */
  lemma NewHeadKeepsRemotesOut(x: Executor, cfg: ForkConfig.ChainConfig, e: Env, pool: Pool, author: Address,
                               localSig: Signal, remoteSig: Signal)
    requires pool.Some? && |pool.value.0.lists| > 0
    requires CommitPass(x, cfg, e, pool.value.0, author, localSig).1
    ensures var r := FillNewWork(x, cfg, e, pool, author, localSig, remoteSig);
            && e.txs <= r.txs && FromQueue(r.txs, |e.txs|, |r.txs|, pool.value.0)
            && r == CommitPass(x, cfg, e, pool.value.0, author, localSig).0
  {
    CommitLoopSelects(x, cfg, WithGasPool(e), pool.value.0, author, localSig, 0);
  }

  /** If the head is already there when the cycle begins, nothing is packed at all; if the
      interruption is for another reason, the remote accounts still get their pass. */
  lemma FlagUpFromTheStart(x: Executor, cfg: ForkConfig.ChainConfig, e: Env, pool: Pool, author: Address,
                           localSig: Signal, remoteSig: Signal, value: int)
    requires pool.Some? && |pool.value.0.lists| > 0 && RisesAt(localSig, 0, value)
    ensures var r := FillNewWork(x, cfg, e, pool, author, localSig, remoteSig);
            if value == INTERRUPT_NEW_HEAD then r == WithGasPool(e)
            else r == if |pool.value.1.lists| == 0 then WithGasPool(e)
                      else CommitPass(x, cfg, WithGasPool(e), pool.value.1, author, remoteSig).0
  {
    FlagStopsPass(x, cfg, WithGasPool(e), pool.value.0, author, localSig, 0, 0, value);
  }
}
