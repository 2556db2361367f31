/** Packing leaves nothing out: a pool that fits is packed completely, by either pass and by
    a commit pass and a refill together. */
module Completeness {
  import opened Wrappers
  import opened ChainTypes
  import opened Execution
  import opened Packer
  import Coinbase
  import ForkConfig

  // ---------------------------------------------------------------- gas still needed

  /** A transaction whose turn has not passed: its nonce is the account's, or a later one. */
  predicate Due(x: Executor, w: World, tx: Tx) {
    tx.nonce >= x.nonce(w, tx.from)
  }

  /** The gas limits of the transactions that are due. */
  function GasOf(x: Executor, w: World, l: seq<Tx>): nat {
    if |l| == 0 then 0 else (if Due(x, w, l[0]) then l[0].gas else 0) + GasOf(x, w, l[1..])
  }

  function TotalGas(x: Executor, w: World, lists: seq<seq<Tx>>): nat {
    if |lists| == 0 then 0 else GasOf(x, w, lists[0]) + TotalGas(x, w, lists[1..])
  }

  lemma {:induction false} TotalGasRemove(x: Executor, w: World, lists: seq<seq<Tx>>, i: nat)
    requires i < |lists|
    ensures TotalGas(x, w, lists[..i] + lists[i + 1..]) == TotalGas(x, w, lists) - GasOf(x, w, lists[i])
  {
    if i == 0 {
      assert lists[..0] + lists[1..] == lists[1..];
    } else {
      TotalGasRemove(x, w, lists[1..], i - 1);
      assert (lists[..i] + lists[i + 1..])[1..] == lists[1..][..i - 1] + lists[1..][i..];
    }
  }

  lemma {:induction false} TotalGasUpdate(x: Executor, w: World, lists: seq<seq<Tx>>, i: nat, l: seq<Tx>)
    requires i < |lists|
    ensures TotalGas(x, w, lists[i := l]) == TotalGas(x, w, lists) - GasOf(x, w, lists[i]) + GasOf(x, w, l)
  {
    if i > 0 {
      TotalGasUpdate(x, w, lists[1..], i - 1, l);
      assert lists[i := l][1..] == lists[1..][i - 1 := l];
    }
  }

  lemma {:induction false} GasOfOne(x: Executor, w: World, l: seq<Tx>, k: nat)
    requires k < |l| && Due(x, w, l[k])
    ensures GasOf(x, w, l) >= l[k].gas
  {
    if k > 0 {
      GasOfOne(x, w, l[1..], k - 1);
    }
  }

  lemma QueuedNeedsGas(x: Executor, w: World, q: TxQueues, tx: Tx)
    requires Queued(q, tx) && Due(x, w, tx)
    ensures TotalGas(x, w, q.lists) >= tx.gas
  {
    var i :| 0 <= i < |q.lists| && tx in q.lists[i];
    var k :| 0 <= k < |q.lists[i]| && q.lists[i][k] == tx;
    GasOfOne(x, w, q.lists[i], k);
    TotalGasRemove(x, w, q.lists, i);
  }

  /** The same transactions are due in both states. */
  predicate SameDue(x: Executor, w: World, w': World, l: seq<Tx>) {
    forall k | 0 <= k < |l| :: Due(x, w, l[k]) <==> Due(x, w', l[k])
  }

  lemma {:induction false} SameGasOf(x: Executor, w: World, w': World, l: seq<Tx>)
    requires SameDue(x, w, w', l)
    ensures GasOf(x, w', l) == GasOf(x, w, l)
  {
    if |l| > 0 {
      assert SameDue(x, w, w', l[1..]);
      SameGasOf(x, w, w', l[1..]);
    }
  }

  lemma {:induction false} SameTotalGas(x: Executor, w: World, w': World, lists: seq<seq<Tx>>)
    requires forall i | 0 <= i < |lists| :: SameDue(x, w, w', lists[i])
    ensures TotalGas(x, w', lists) == TotalGas(x, w, lists)
  {
    if |lists| > 0 {
      SameGasOf(x, w, w', lists[0]);
      SameTotalGas(x, w, w', lists[1..]);
    }
  }

  /** Moving on takes exactly the best transaction off the queues. */
  lemma ShiftTakesBest(x: Executor, w: World, q: TxQueues)
    requires q.Valid() && |q.lists| > 0
    ensures var best := q.Peek().value;
            TotalGas(x, w, q.Shift().lists) == TotalGas(x, w, q.lists) - if Due(x, w, best) then best.gas else 0
    ensures forall tx | Queued(q, tx) :: tx == q.Peek().value || Queued(q.Shift(), tx)
  {
    var t := q.Top();
    var l := q.lists[t];
    PopShrinks(q);
    if |l| > 1 {
      TotalGasUpdate(x, w, q.lists, t, l[1..]);
    } else {
      TotalGasRemove(x, w, q.lists, t);
      assert GasOf(x, w, l[1..]) == 0;
    }
    forall tx | Queued(q, tx) && tx != l[0] ensures Queued(q.Shift(), tx) {
      var i :| 0 <= i < |q.lists| && tx in q.lists[i];
      if |l| > 1 {
        assert tx in q.Shift().lists[i];
      } else {
        assert tx in q.Shift().lists[if i < t then i else i - 1];
      }
    }
  }

  // ---------------------------------------------------------------- queues that can be executed

  /** On good states the executor turns down no offered transaction that has the right nonce
      and fits the pool, and executing it leads to a good state again.  A state may be good,
      for one, when every sender can still pay for the rest of its list. */
  ghost predicate Willing(x: Executor, ctx: HeaderData, author: Address, q: TxQueues, good: World -> bool) {
    forall w, pool: nat, used: nat, tx: Tx, i: nat {:trigger x.apply(ctx, author, w, pool, used, tx, i)} ::
      good(w) && Queued(q, tx) && x.nonce(w, tx.from) == tx.nonce && tx.gas <= pool ==>
        var o := x.apply(ctx, author, w, pool, used, tx, i); o.Applied? && good(o.world)
  }

  /** The nonce is checked before any gas is taken: one that has passed is too low. */
  ghost predicate ChecksNonceFirst(x: Executor, ctx: HeaderData, author: Address) {
    forall w, pool: nat, used: nat, tx: Tx, i: nat {:trigger x.apply(ctx, author, w, pool, used, tx, i)} ::
      !Due(x, w, tx) ==>
        var o := x.apply(ctx, author, w, pool, used, tx, i);
        o.Rejected? && o.err == NonceTooLow && o.gasPool == pool
  }

  /** One sender's list in nonce order, up to and from the account's nonce; nothing of it that
      was seen is still due. */
  predicate InSequence(x: Executor, w: World, l: seq<Tx>, seen: set<nat>) {
    && |l| > 0 && x.signs(l[0].from) && l[0].nonce <= x.nonce(w, l[0].from)
    && forall k | 0 <= k < |l| ::
         && l[k].from == l[0].from && l[k].nonce == l[0].nonce + k && l[k].gas >= TX_GAS
         && (l[k].hash in seen ==> !Due(x, w, l[k]))
  }

  predicate OneListPerSender(lists: seq<seq<Tx>>)
    requires forall l | l in lists :: |l| > 0
  {
    forall i, j | 0 <= i < j < |lists| :: lists[i][0].from != lists[j][0].from
  }

  predicate Ready(x: Executor, w: World, q: TxQueues, seen: set<nat>) {
    && q.Valid()
    && (forall i | 0 <= i < |q.lists| :: InSequence(x, w, q.lists[i], seen))
    && OneListPerSender(q.lists)
  }

  /** No sender has a list in both. */
  predicate Apart(q: TxQueues, o: TxQueues)
    requires q.Valid() && o.Valid()
  {
    forall i, j | 0 <= i < |q.lists| && 0 <= j < |o.lists| :: q.lists[i][0].from != o.lists[j][0].from
  }

  /** The nonces move on by one transaction or, if that was not due, not at all. */
  predicate NoncesAfter(x: Executor, w: World, w': World, tx: Tx, a: Address) {
    x.nonce(w', a) == x.nonce(w, a) + if Due(x, w, tx) && a == tx.from then 1 else 0
  }

  lemma RestInSequence(x: Executor, w: World, w': World, l: seq<Tx>, seen: set<nat>)
    requires InSequence(x, w, l, seen) && |l| > 1
    requires NoncesAfter(x, w, w', l[0], l[0].from)
    ensures InSequence(x, w', l[1..], seen) && l[1..][0].from == l[0].from && SameDue(x, w, w', l[1..])
  {
    var rest := l[1..];
    assert forall k | 0 <= k < |rest| :: rest[k] == l[k + 1];
  }

  lemma OtherInSequence(x: Executor, w: World, w': World, l: seq<Tx>, seen: set<nat>)
    requires InSequence(x, w, l, seen) && x.nonce(w', l[0].from) == x.nonce(w, l[0].from)
    ensures InSequence(x, w', l, seen) && SameDue(x, w, w', l)
  {
  }

  /** Whether it is executed or its turn had passed: past the best transaction the rest stays
      ready, and as due as it was. */
  lemma ShiftStaysReady(x: Executor, w: World, w': World, q: TxQueues, seen: set<nat>)
    requires Ready(x, w, q, seen) && |q.lists| > 0
    requires var best := q.Peek().value;
             forall a | x.signs(a) :: NoncesAfter(x, w, w', best, a)
    ensures Ready(x, w', q.Shift(), seen)
    ensures forall i | 0 <= i < |q.Shift().lists| :: SameDue(x, w, w', q.Shift().lists[i])
  {
    var t: nat, lists: seq<seq<Tx>> := q.Top(), q.Shift().lists;
    PopShrinks(q);
    assert InSequence(x, w, q.lists[t], seen);
    if |q.lists[t]| > 1 {
      RestInSequence(x, w, w', q.lists[t], seen);
      assert forall i | 0 <= i < |lists| :: lists[i][0].from == q.lists[i][0].from;
    }
    forall i | 0 <= i < |lists| ensures InSequence(x, w', lists[i], seen) && SameDue(x, w, w', lists[i]) {
      var j := if |q.lists[t]| > 1 || i < t then i else i + 1;
      assert InSequence(x, w, q.lists[j], seen);
      if j != t {
        assert NoncesAfter(x, w, w', q.lists[t][0], q.lists[j][0].from);
        OtherInSequence(x, w, w', q.lists[j], seen);
      }
    }
  }

  lemma ShiftStaysApart(q: TxQueues, o: TxQueues)
    requires q.Valid() && |q.lists| > 0 && o.Valid() && Apart(q, o)
    requires forall k | 0 <= k < |q.lists[q.Top()]| :: q.lists[q.Top()][k].from == q.lists[q.Top()][0].from
    ensures Apart(q.Shift(), o)
  {
    var t: nat, lists: seq<seq<Tx>> := q.Top(), q.Shift().lists;
    forall i, j | 0 <= i < |lists| && 0 <= j < |o.lists| ensures lists[i][0].from != o.lists[j][0].from {
      assert lists[i][0].from == q.lists[if |q.lists[t]| > 1 || i < t then i else i + 1][0].from;
    }
  }

  lemma OthersStayReady(x: Executor, w: World, w': World, q: TxQueues, o: TxQueues, seen: set<nat>)
    requires q.Valid() && |q.lists| > 0 && Ready(x, w, o, seen) && Apart(q, o)
    requires var best := q.Peek().value;
             forall a | x.signs(a) :: NoncesAfter(x, w, w', best, a)
    ensures Ready(x, w', o, seen) && TotalGas(x, w', o.lists) == TotalGas(x, w, o.lists)
    ensures SameDueIn(x, w, w', o)
  {
    forall j | 0 <= j < |o.lists| ensures InSequence(x, w', o.lists[j], seen) && SameDue(x, w, w', o.lists[j]) {
      assert InSequence(x, w, o.lists[j], seen);
      assert NoncesAfter(x, w, w', q.Peek().value, o.lists[j][0].from);
      OtherInSequence(x, w, w', o.lists[j], seen);
    }
    SameTotalGas(x, w, w', o.lists);
  }

  // ---------------------------------------------------------------- what fits

  /** A good state, in which all that the queues offer and is due can be executed with so much
      gas. */
  ghost predicate FitsIn(x: Executor, e: Env, q: TxQueues, author: Address, good: World -> bool, seen: set<nat>,
                         room: nat) {
    && good(e.world)
    && Willing(x, ContextOf(e.header), author, q, good) && ChecksNonceFirst(x, ContextOf(e.header), author)
    && Ready(x, e.world, q, seen) && TotalGas(x, e.world, q.lists) <= room
  }

  ghost predicate Fits(x: Executor, e: Env, q: TxQueues, author: Address, good: World -> bool, seen: set<nat>) {
    e.gasPool.Some? && FitsIn(x, e, q, author, good, seen, e.gasPool.value)
  }

  /** Two queues that fit one after the other. */
  ghost predicate FitBoth(x: Executor, e: Env, q: TxQueues, o: TxQueues, author: Address, good: World -> bool,
                          seen: set<nat>) {
    && Fits(x, e, q, author, good, seen) && Fits(x, e, o, author, good, seen)
    && Apart(q, o)
    && TotalGas(x, e.world, q.lists) + TotalGas(x, e.world, o.lists) <= e.gasPool.value
  }

  /** Of what a queue offers the same is due in both states. */
  ghost predicate SameDueIn(x: Executor, w: World, w': World, o: TxQueues) {
    forall tx | Queued(o, tx) :: Due(x, w, tx) <==> Due(x, w', tx)
  }

  /** What stays as due as it was, past the best transaction. */
  ghost predicate StaysDue(x: Executor, w: World, w': World, q: TxQueues) {
    forall tx | Queued(q, tx) && Due(x, w, tx) :: Due(x, w', tx)
  }

  /** The step that executing the best transaction, or passing it by, makes of the state. */
  lemma MovedOnFits(x: Executor, e: Env, e': Env, q: TxQueues, o: TxQueues, author: Address, good: World -> bool,
                    seen: set<nat>)
    requires FitBoth(x, e, q, o, author, good, seen) && |q.lists| > 0
    requires ContextOf(e'.header) == ContextOf(e.header) && good(e'.world) && e'.gasPool.Some?
    requires var best := q.Peek().value;
             && (forall a | x.signs(a) :: NoncesAfter(x, e.world, e'.world, best, a))
             && e'.gasPool.value >= e.gasPool.value - if Due(x, e.world, best) then best.gas else 0
    ensures FitBoth(x, e', q.Shift(), o, author, good, seen)
    ensures StaysDue(x, e.world, e'.world, q.Shift()) && SameDueIn(x, e.world, e'.world, o)
  {
    assert InSequence(x, e.world, q.lists[q.Top()], seen);
    ShiftTakesBest(x, e.world, q);
    ShiftWithin(q);
    ShiftStaysReady(x, e.world, e'.world, q, seen);
    SameTotalGas(x, e.world, e'.world, q.Shift().lists);
    ShiftStaysApart(q, o);
    OthersStayReady(x, e.world, e'.world, q, o, seen);
    forall tx | Queued(q.Shift(), tx) && Due(x, e.world, tx) ensures Due(x, e'.world, tx) {
      var i :| 0 <= i < |q.Shift().lists| && tx in q.Shift().lists[i];
      assert SameDue(x, e.world, e'.world, q.Shift().lists[i]);
    }
  }

  /** The best transaction is executed if it is due, and turned down for its nonce if not. */
  lemma BestIsExecuted(x: Executor, e: Env, q: TxQueues, o: TxQueues, author: Address, good: World -> bool,
                       seen: set<nat>)
    requires Metered(x) && Sequenced(x) && FitBoth(x, e, q, o, author, good, seen) && |q.lists| > 0
    ensures var best := q.Peek().value;
            var (e', err) := CommitTx(x, e, best, author);
            && (Due(x, e.world, best) ==> err.None? && e'.txs == e.txs + [best])
            && (!Due(x, e.world, best) ==> err == Some(NonceTooLow) && e' == e)
            && FitBoth(x, e', q.Shift(), o, author, good, seen)
            && StaysDue(x, e.world, e'.world, q.Shift()) && SameDueIn(x, e.world, e'.world, o)
  {
    var tx := q.Peek().value;
    var ctx := ContextOf(e.header);
    assert InSequence(x, e.world, q.lists[q.Top()], seen);
    ShiftWithin(q);
    var outcome := x.apply(ctx, author, e.world, e.gasPool.value, e.header.gasUsed, tx, e.tcount);
    assert MeteredAt(x, ctx, author, e.world, e.gasPool.value, e.header.gasUsed, tx, e.tcount);
    assert SequencedAt(x, ctx, author, e.world, e.gasPool.value, e.header.gasUsed, tx, e.tcount);
    if Due(x, e.world, tx) {
      QueuedNeedsGas(x, e.world, q, tx);
      assert outcome.Applied? && good(outcome.world);
    } else {
      assert outcome.Rejected?;
    }
    MovedOnFits(x, e, CommitTx(x, e, tx, author).0, q, o, author, good, seen);
  }

  /** A transaction that was seen is passed by. */
  lemma SeenTxIsPassed(x: Executor, e: Env, q: TxQueues, o: TxQueues, author: Address, good: World -> bool,
                       seen: set<nat>)
    requires FitBoth(x, e, q, o, author, good, seen)
    requires |q.lists| > 0 && q.Peek().value.hash in seen
    ensures FitBoth(x, e, q.Shift(), o, author, good, seen) && !Due(x, e.world, q.Peek().value)
  {
    assert InSequence(x, e.world, q.lists[q.Top()], seen);
    MovedOnFits(x, e, e, q, o, author, good, seen);
  }

  /** When not even the cheapest transaction would fit, nothing that is due is left. */
  lemma NothingDueLeft(x: Executor, w: World, q: TxQueues, seen: set<nat>, gas: nat)
    requires Ready(x, w, q, seen) && TotalGas(x, w, q.lists) <= gas < TX_GAS
    ensures forall tx | Queued(q, tx) :: !Due(x, w, tx)
  {
    forall tx | Queued(q, tx) ensures !Due(x, w, tx) {
      var i :| 0 <= i < |q.lists| && tx in q.lists[i];
      assert InSequence(x, w, q.lists[i], seen);
      if Due(x, w, tx) {
        QueuedNeedsGas(x, w, q, tx);
      }
    }
  }

  // ---------------------------------------------------------------- the two loops

  /** The interrupt flag stays down. */
  ghost predicate Quiet(sig: Signal) {
    sig.Some? ==> forall n: nat :: sig.value(n) == INTERRUPT_NONE
  }

  ghost predicate NoneIgnored(cfg: ForkConfig.ChainConfig, e: Env, q: TxQueues) {
    forall tx | Queued(q, tx) :: !Ignored(cfg, e, tx)
  }

  /** What a turn or a whole pass leaves alone. */
  predicate SameBlock(e: Env, r: Env) {
    e.txs <= r.txs && r.header.number == e.header.number && ContextOf(r.header) == ContextOf(e.header)
  }

  lemma CommitNextTakesBest(x: Executor, cfg: ForkConfig.ChainConfig, e: Env, q: TxQueues, o: TxQueues,
                            author: Address, good: World -> bool)
    requires Metered(x) && Sequenced(x) && FitBoth(x, e, q, o, author, good, {}) && |q.lists| > 0
    requires e.suggested < MAX_READY_TXS && !Ignored(cfg, e, q.Peek().value)
    ensures var (e', q') := CommitNext(x, cfg, e, q, author);
            && q' == Some(q.Shift()) && FitBoth(x, e', q.Shift(), o, author, good, {})
            && StaysDue(x, e.world, e'.world, q.Shift()) && SameDueIn(x, e.world, e'.world, o)
            && e'.txs == e.txs + (if Due(x, e.world, q.Peek().value) then [q.Peek().value] else []) && SameBlock(e, e')
            && e'.pending == e.pending && e'.suggested == e.suggested + 1
  {
    var tx := q.Peek().value;
    var e1 := e.(processed := e.processed + {tx.hash}, suggested := e.suggested + 1);
    BestIsExecuted(x, e1, q, o, author, good, {});
  }

  lemma UpdateNextTakesBest(x: Executor, cfg: ForkConfig.ChainConfig, e: Env, q: TxQueues, o: TxQueues,
                            author: Address, good: World -> bool)
    requires Metered(x) && Sequenced(x) && FitBoth(x, e, q, o, author, good, e.processed) && |q.lists| > 0
    requires e.suggested + e.pending < MAX_READY_TXS && !Ignored(cfg, e, q.Peek().value)
    ensures var (e', q') := UpdateNext(x, cfg, e, q, author);
            && q' == Some(q.Shift()) && FitBoth(x, e', q.Shift(), o, author, good, e.processed)
            && StaysDue(x, e.world, e'.world, q.Shift()) && SameDueIn(x, e.world, e'.world, o)
            && e'.txs == e.txs + (if Due(x, e.world, q.Peek().value) then [q.Peek().value] else []) && SameBlock(e, e')
            && e'.processed == e.processed
            && e'.suggested == e.suggested && e'.pending == e.pending + 1
  {
    var e1 := e.(pending := e.pending + 1);
    if q.Peek().value.hash in e.processed {
      SeenTxIsPassed(x, e1, q, o, author, good, e.processed);
    } else {
      BestIsExecuted(x, e1, q, o, author, good, e.processed);
    }
  }

  /** All that the queues offer and is due in w is among the transactions. */
  ghost predicate Takes(x: Executor, w: World, q: TxQueues, txs: seq<Tx>) {
    forall tx | Queued(q, tx) && Due(x, w, tx) :: tx in txs
  }

  lemma TakesFirst(x: Executor, w: World, w': World, q: TxQueues, txs: seq<Tx>, all: seq<Tx>)
    requires q.Valid() && |q.lists| > 0 && StaysDue(x, w, w', q.Shift()) && Takes(x, w', q.Shift(), all)
    requires txs <= all && (Due(x, w, q.Peek().value) ==> q.Peek().value in txs)
    ensures Takes(x, w, q, all)
  {
    ShiftTakesBest(x, w, q);
    forall tx | Queued(q, tx) && Due(x, w, tx) ensures tx in all {
      if tx == q.Peek().value {
        assert tx in txs;
      }
    }
  }

  /** Packing is complete: if the offered lists run up to and from their accounts' nonces, what
      is due of them can be executed and fits the gas, all fits the count, and nothing
      interrupts, then a commit pass includes all that is due, and leaves room for what was to
      fit behind it.  Transactions whose turn has passed do not stand in the way. */
  lemma {:induction false} CommitLoopTakesAll(x: Executor, cfg: ForkConfig.ChainConfig, e: Env, q: TxQueues,
                                              o: TxQueues, author: Address, sig: Signal, loads: nat,
                                              good: World -> bool)
    requires Metered(x) && Sequenced(x) && Quiet(sig) && FitBoth(x, e, q, o, author, good, {})
    requires e.suggested + Total(q.lists) <= MAX_READY_TXS
    requires NoneIgnored(cfg, e, q)
    ensures var (r, interrupted) := CommitLoop(x, cfg, e, q, author, sig, loads);
            && Takes(x, e.world, q, r.txs)
            && !interrupted && SameBlock(e, r)
            && Fits(x, r, o, author, good, {}) && SameDueIn(x, e.world, r.world, o)
            && r.suggested <= e.suggested + Total(q.lists) && r.pending == e.pending
    decreases Total(q.lists)
  {
    if e.gasPool.value < TX_GAS {
      NothingDueLeft(x, e.world, q, {}, e.gasPool.value);
    } else if |q.lists| > 0 {
      ShiftWithin(q);
      CommitNextTakesBest(x, cfg, e, q, o, author, good);
      var e' := CommitNext(x, cfg, e, q, author).0;
      CommitLoopTakesAll(x, cfg, e', q.Shift(), o, author, sig, loads + 1, good);
      TakesFirst(x, e.world, e'.world, q, e'.txs, CommitLoop(x, cfg, e, q, author, sig, loads).0.txs);
    }
  }

  /** So does an update pass; what it has seen must not be due any more. */
  lemma {:induction false} UpdateLoopTakesAll(x: Executor, cfg: ForkConfig.ChainConfig, e: Env, q: TxQueues,
                                              o: TxQueues, author: Address, good: World -> bool)
    requires Metered(x) && Sequenced(x) && FitBoth(x, e, q, o, author, good, e.processed)
    requires e.suggested + e.pending + Total(q.lists) <= MAX_READY_TXS
    requires NoneIgnored(cfg, e, q)
    ensures var r := UpdateLoop(x, cfg, e, q, author);
            && Takes(x, e.world, q, r.txs)
            && SameBlock(e, r) && r.processed == e.processed
            && Fits(x, r, o, author, good, e.processed) && SameDueIn(x, e.world, r.world, o)
            && r.suggested == e.suggested && r.pending <= e.pending + Total(q.lists)
    decreases Total(q.lists)
  {
    if e.gasPool.value < TX_GAS {
      NothingDueLeft(x, e.world, q, e.processed, e.gasPool.value);
    } else if |q.lists| > 0 {
      ShiftWithin(q);
      UpdateNextTakesBest(x, cfg, e, q, o, author, good);
      var e' := UpdateNext(x, cfg, e, q, author).0;
      UpdateLoopTakesAll(x, cfg, e', q.Shift(), o, author, good);
      TakesFirst(x, e.world, e'.world, q, e'.txs, UpdateLoop(x, cfg, e, q, author).txs);
    }
  }

  // ---------------------------------------------------------------- whole visits and cycles

  /** A pass is made only when there are transactions for it. */
  lemma CommitPassTakesAll(x: Executor, cfg: ForkConfig.ChainConfig, e: Env, q: TxQueues, o: TxQueues,
                           author: Address, sig: Signal, good: World -> bool)
    requires Metered(x) && Sequenced(x) && Quiet(sig) && FitBoth(x, WithGasPool(e), q, o, author, good, {})
    requires e.suggested + Total(q.lists) <= MAX_READY_TXS && NoneIgnored(cfg, e, q)
    ensures var (r, interrupted) := if |q.lists| > 0 then CommitPass(x, cfg, e, q, author, sig) else (e, false);
            && Takes(x, e.world, q, r.txs)
            && !interrupted && SameBlock(e, r)
            && Fits(x, WithGasPool(r), o, author, good, {}) && SameDueIn(x, e.world, r.world, o)
            && r.suggested <= e.suggested + Total(q.lists) && r.pending == e.pending
  {
    if |q.lists| > 0 {
      CommitLoopTakesAll(x, cfg, WithGasPool(e), q, o, author, sig, 0, good);
    }
  }

  lemma UpdatePassTakesAll(x: Executor, cfg: ForkConfig.ChainConfig, e: Env, q: TxQueues, o: TxQueues,
                           author: Address, good: World -> bool)
    requires Metered(x) && Sequenced(x) && FitBoth(x, WithGasPool(e), q, o, author, good, e.processed)
    requires e.suggested + e.pending + Total(q.lists) <= MAX_READY_TXS && NoneIgnored(cfg, e, q)
    ensures var r := if |q.lists| > 0 then UpdatePass(x, cfg, e, q, author) else e;
            && Takes(x, e.world, q, r.txs)
            && SameBlock(e, r) && r.processed == e.processed
            && Fits(x, WithGasPool(r), o, author, good, e.processed) && SameDueIn(x, e.world, r.world, o)
            && r.suggested == e.suggested && r.pending <= e.pending + Total(q.lists)
  {
    if |q.lists| > 0 {
      UpdateLoopTakesAll(x, cfg, WithGasPool(e), q, o, author, good);
    }
  }

  ghost predicate Offered(pool: Pool, tx: Tx) {
    pool.Some? && (Queued(pool.value.0, tx) || Queued(pool.value.1, tx))
  }

  /** The gas that is left for packing: all of the block's, while nothing was tried. */
  function Room(e: Env): nat {
    if e.gasPool.None? then e.header.gasLimit else e.gasPool.value
  }

  /** All that a pool offers and is due fits behind what the environment holds. */
  ghost predicate PoolFits(x: Executor, cfg: ForkConfig.ChainConfig, e: Env, pool: Pool, author: Address,
                           good: World -> bool, seen: set<nat>) {
    pool.Some? ==>
      var (local, remote) := pool.value;
      && FitsIn(x, e, local, author, good, seen, Room(e)) && FitsIn(x, e, remote, author, good, seen, Room(e))
      && Apart(local, remote)
      && TotalGas(x, e.world, local.lists) + TotalGas(x, e.world, remote.lists) <= Room(e)
      && e.suggested + e.pending + Total(local.lists) + Total(remote.lists) <= MAX_READY_TXS
      && NoneIgnored(cfg, e, local) && NoneIgnored(cfg, e, remote)
  }

  lemma PoolFitsBoth(x: Executor, cfg: ForkConfig.ChainConfig, e: Env, pool: Pool, author: Address,
                     good: World -> bool, seen: set<nat>)
    requires pool.Some? && PoolFits(x, cfg, e, pool, author, good, seen)
    ensures FitBoth(x, WithGasPool(e), pool.value.0, pool.value.1, author, good, seen)
  {
    assert WithGasPool(e).gasPool == Some(Room(e));
  }

  function NoQueues(q: TxQueues): (o: TxQueues)
    ensures o.Valid()
  {
    TxQueues([], q.best)
  }

  lemma FitsAlone(x: Executor, e: Env, q: TxQueues, author: Address, good: World -> bool, seen: set<nat>)
    requires Fits(x, e, q, author, good, seen)
    ensures FitBoth(x, e, q, NoQueues(q), author, good, seen)
  {
  }

  lemma IgnoredAsBefore(cfg: ForkConfig.ChainConfig, e: Env, r: Env, q: TxQueues)
    requires NoneIgnored(cfg, e, q) && r.header.number == e.header.number
    ensures NoneIgnored(cfg, r, q)
  {
  }

  lemma TakesLater(x: Executor, w: World, w': World, q: TxQueues, txs: seq<Tx>, all: seq<Tx>)
    requires txs <= all
    ensures Takes(x, w, q, txs) ==> Takes(x, w, q, all)
    ensures SameDueIn(x, w, w', q) && Takes(x, w', q, all) ==> Takes(x, w, q, all)
  {
  }

  ghost predicate TakesPool(x: Executor, w: World, pool: Pool, txs: seq<Tx>) {
    forall tx | Offered(pool, tx) && Due(x, w, tx) :: tx in txs
  }

  lemma BothTake(x: Executor, w: World, w': World, pool: Pool, txs: seq<Tx>, all: seq<Tx>)
    requires pool.Some? && txs <= all && Takes(x, w, pool.value.0, txs)
    requires SameDueIn(x, w, w', pool.value.1) && Takes(x, w', pool.value.1, all)
    ensures TakesPool(x, w, pool, all)
  {
    TakesLater(x, w, w', pool.value.0, txs, all);
    TakesLater(x, w, w', pool.value.1, txs, all);
  }

  /** A new cycle includes all that is due of a pool that fits. */
  lemma FillTakesAll(x: Executor, cfg: ForkConfig.ChainConfig, e: Env, pool: Pool, author: Address,
                     localSig: Signal, remoteSig: Signal, good: World -> bool)
    requires Metered(x) && Sequenced(x) && Quiet(localSig) && Quiet(remoteSig)
    requires PoolFits(x, cfg, e, pool, author, good, {})
    ensures var r := FillNewWork(x, cfg, e, pool, author, localSig, remoteSig);
            SameBlock(e, r) && TakesPool(x, e.world, pool, r.txs)
  {
    if pool.Some? {
      var (local, remote) := pool.value;
      PoolFitsBoth(x, cfg, e, pool, author, good, {});
      CommitPassTakesAll(x, cfg, e, local, remote, author, localSig, good);
      var e1 := if |local.lists| > 0 then CommitPass(x, cfg, e, local, author, localSig).0 else e;
      FitsAlone(x, WithGasPool(e1), remote, author, good, {});
      IgnoredAsBefore(cfg, e, e1, remote);
      CommitPassTakesAll(x, cfg, e1, remote, NoQueues(remote), author, remoteSig, good);
      var r := if |remote.lists| > 0 then CommitPass(x, cfg, e1, remote, author, remoteSig).0 else e1;
      BothTake(x, e.world, e1.world, pool, e1.txs, r.txs);
    }
  }

  /** A refill includes all that is due of a pool that fits - all of what is new, and what an
      earlier refill took does not stand in the way. */
  lemma RefillTakesAll(x: Executor, cfg: ForkConfig.ChainConfig, e: Env, pool: Pool, author: Address,
                       good: World -> bool)
    requires Metered(x) && Sequenced(x) && PoolFits(x, cfg, e, pool, author, good, e.processed)
    ensures var r := UpdateNewWork(x, cfg, e, pool, author);
            SameBlock(e, r) && r.processed == e.processed && TakesPool(x, e.world, pool, r.txs)
  {
    if pool.Some? {
      var (local, remote) := pool.value;
      PoolFitsBoth(x, cfg, e, pool, author, good, e.processed);
      UpdatePassTakesAll(x, cfg, e, local, remote, author, good);
      var e1 := if |local.lists| > 0 then UpdatePass(x, cfg, e, local, author) else e;
      FitsAlone(x, WithGasPool(e1), remote, author, good, e.processed);
      IgnoredAsBefore(cfg, e, e1, remote);
      UpdatePassTakesAll(x, cfg, e1, remote, NoQueues(remote), author, good);
      var r := if |remote.lists| > 0 then UpdatePass(x, cfg, e1, remote, author) else e1;
      BothTake(x, e.world, e1.world, pool, e1.txs, r.txs);
    }
  }

  /** Every pool that is met fits when its turn comes. */
  ghost predicate FitsThroughout(x: Executor, cfg: ForkConfig.ChainConfig, e: Env, visits: seq<Visit>,
                                 good: World -> bool)
    decreases |visits|
  {
    |visits| > 0 ==>
      match visits[0]
      case Update(pool, author) =>
        && PoolFits(x, cfg, e, pool, author, good, e.processed)
        && FitsThroughout(x, cfg, UpdateNewWork(x, cfg, e, pool, author), visits[1..], good)
      case Finalize =>
        FitsThroughout(x, cfg, e.(header := FinalizedHeader(cfg, e.header, e.world)), visits[1..], good)
  }

  /** All that was offered and due at its visit is among the transactions. */
  ghost predicate TakenThroughout(x: Executor, cfg: ForkConfig.ChainConfig, e: Env, visits: seq<Visit>, txs: seq<Tx>)
    decreases |visits|
  {
    |visits| > 0 ==>
      match visits[0]
      case Update(pool, author) =>
        && TakesPool(x, e.world, pool, txs)
        && TakenThroughout(x, cfg, UpdateNewWork(x, cfg, e, pool, author), visits[1..], txs)
      case Finalize =>
        TakenThroughout(x, cfg, e.(header := FinalizedHeader(cfg, e.header, e.world)), visits[1..], txs)
  }

  /** However often one environment is refilled and finalized: all that was offered and due at
      any of the visits is in it at the end. */
  lemma {:induction false} VisitsTakeAll(x: Executor, cfg: ForkConfig.ChainConfig, e: Env, visits: seq<Visit>,
                                         good: World -> bool)
    requires Metered(x) && Sequenced(x) && FitsThroughout(x, cfg, e, visits, good)
    ensures var r := RunVisits(x, cfg, e, visits);
            e.txs <= r.txs && TakenThroughout(x, cfg, e, visits, r.txs)
    decreases |visits|
  {
    if |visits| > 0 {
      match visits[0]
      case Update(pool, author) =>
        var e1 := UpdateNewWork(x, cfg, e, pool, author);
        RefillTakesAll(x, cfg, e, pool, author, good);
        VisitsTakeAll(x, cfg, e1, visits[1..], good);
      case Finalize =>
        VisitsTakeAll(x, cfg, e.(header := FinalizedHeader(cfg, e.header, e.world)), visits[1..], good);
    }
  }

  /** A whole cycle includes all that its pool offered and was due on the parent state, and all
      that any later visit offered and was due then. */
  lemma WholeCycleTakesAll(x: Executor, cfg: ForkConfig.ChainConfig, header: HeaderData, parent: World,
                           pool: Pool, author: Address, localSig: Signal, remoteSig: Signal,
                           visits: seq<Visit>, good: World -> bool)
    requires Metered(x) && Sequenced(x) && Quiet(localSig) && Quiet(remoteSig)
    requires PoolFits(x, cfg, FreshEnv(header, parent), pool, author, good, {})
    requires var e := FillNewWork(x, cfg, FreshEnv(header, parent), pool, author, localSig, remoteSig);
             FitsThroughout(x, cfg, e, visits, good)
    ensures var e := FillNewWork(x, cfg, FreshEnv(header, parent), pool, author, localSig, remoteSig);
            var r := Cycle(x, cfg, header, parent, pool, author, localSig, remoteSig, visits);
            TakesPool(x, parent, pool, r.txs) && TakenThroughout(x, cfg, e, visits, r.txs)
  {
    var e := FillNewWork(x, cfg, FreshEnv(header, parent), pool, author, localSig, remoteSig);
    FillTakesAll(x, cfg, FreshEnv(header, parent), pool, author, localSig, remoteSig, good);
    VisitsTakeAll(x, cfg, e, visits, good);
  }

  /** Checking the nonce first is what the plain executor does. */
  lemma PlainExecutorChecksNonceFirst(ctx: HeaderData, author: Address)
    ensures ChecksNonceFirst(Coinbase.PlainExecutor(), ctx, author)
  {
  }

  // ---------------------------------------------------------------- local accounts first

  /** When gas does not suffice for both, the local accounts are served: if what they offer
      fits, it is included, whatever the remote ones offer. */
  lemma FillTakesLocals(x: Executor, cfg: ForkConfig.ChainConfig, e: Env, pool: Pool, author: Address,
                        localSig: Signal, remoteSig: Signal, good: World -> bool)
    requires Metered(x) && Sequenced(x) && Quiet(localSig) && pool.Some?
    requires var local := pool.value.0;
             && FitsIn(x, e, local, author, good, {}, Room(e)) && NoneIgnored(cfg, e, local)
             && e.suggested + Total(local.lists) <= MAX_READY_TXS
    ensures var r := FillNewWork(x, cfg, e, pool, author, localSig, remoteSig);
            e.txs <= r.txs && Takes(x, e.world, pool.value.0, r.txs)
  {
    var (local, remote) := pool.value;
    assert WithGasPool(e).gasPool == Some(Room(e));
    FitsAlone(x, WithGasPool(e), local, author, good, {});
    CommitPassTakesAll(x, cfg, e, local, NoQueues(local), author, localSig, good);
    var e1 := if |local.lists| > 0 then CommitPass(x, cfg, e, local, author, localSig).0 else e;
    CommitLoopSelects(x, cfg, WithGasPool(e1), remote, author, remoteSig, 0);
    TakesLater(x, e.world, e.world, local, e1.txs, FillNewWork(x, cfg, e, pool, author, localSig, remoteSig).txs);
  }

  lemma RefillTakesLocals(x: Executor, cfg: ForkConfig.ChainConfig, e: Env, pool: Pool, author: Address,
                          good: World -> bool)
    requires Metered(x) && Sequenced(x) && pool.Some?
    requires var local := pool.value.0;
             && FitsIn(x, e, local, author, good, e.processed, Room(e)) && NoneIgnored(cfg, e, local)
             && e.suggested + e.pending + Total(local.lists) <= MAX_READY_TXS
    ensures var r := UpdateNewWork(x, cfg, e, pool, author);
            e.txs <= r.txs && Takes(x, e.world, pool.value.0, r.txs)
  {
    var (local, remote) := pool.value;
    assert WithGasPool(e).gasPool == Some(Room(e));
    FitsAlone(x, WithGasPool(e), local, author, good, e.processed);
    UpdatePassTakesAll(x, cfg, e, local, NoQueues(local), author, good);
    var e1 := if |local.lists| > 0 then UpdatePass(x, cfg, e, local, author) else e;
    UpdateLoopSelects(x, cfg, WithGasPool(e1), remote, author);
    TakesLater(x, e.world, e.world, local, e1.txs, UpdateNewWork(x, cfg, e, pool, author).txs);
  }

  // What is recorded as seen: nothing but what was offered.

  ghost predicate RecordsOnly(e: Env, r: Env, q: TxQueues) {
    && e.processed <= r.processed
    && forall h | h in r.processed && h !in e.processed :: exists tx :: Queued(q, tx) && tx.hash == h
  }

  lemma RecordsMore(e: Env, e': Env, r: Env, q: TxQueues, q': TxQueues)
    requires q.Valid() && |q.lists| > 0 && Within(q', q)
    requires e'.processed == e.processed + {q.Peek().value.hash} && RecordsOnly(e', r, q')
    ensures RecordsOnly(e, r, q)
  {
    ShiftWithin(q);
    forall h | h in r.processed && h !in e.processed ensures exists tx :: Queued(q, tx) && tx.hash == h {
      if h == q.Peek().value.hash {
        assert Queued(q, q.Peek().value);
      } else {
        var tx :| Queued(q', tx) && tx.hash == h;
        assert Queued(q, tx);
      }
    }
  }

  lemma {:induction false} CommitLoopRecords(x: Executor, cfg: ForkConfig.ChainConfig, e: Env, q: TxQueues,
                                             author: Address, sig: Signal, loads: nat)
    requires q.Valid() && e.gasPool.Some?
    ensures RecordsOnly(e, CommitLoop(x, cfg, e, q, author, sig, loads).0, q)
    decreases Total(q.lists)
  {
    if sig.Some? && sig.value(loads) != INTERRUPT_NONE {
    } else if e.gasPool.value >= TX_GAS && q.Peek().Some? {
      var (e', q') := CommitNext(x, cfg, e, q, author);
      ShiftWithin(q);
      if q'.Some? {
        CommitLoopRecords(x, cfg, e', q'.value, author, sig, loads + 1);
        RecordsMore(e, e', CommitLoop(x, cfg, e, q, author, sig, loads).0, q, q'.value);
      } else {
        assert Queued(q, q.Peek().value);
      }
    }
  }

  lemma BothRecordOnly(e: Env, e1: Env, r: Env, pool: Pool)
    requires pool.Some? && RecordsOnly(e, e1, pool.value.0)
    requires r == e1 || RecordsOnly(e1, r, pool.value.1)
    ensures forall h | h in r.processed && h !in e.processed :: exists tx :: Offered(pool, tx) && tx.hash == h
  {
    forall h | h in r.processed && h !in e.processed ensures exists tx :: Offered(pool, tx) && tx.hash == h {
      if h in e1.processed {
        var tx :| Queued(pool.value.0, tx) && tx.hash == h;
        assert Offered(pool, tx);
      } else {
        var tx :| Queued(pool.value.1, tx) && tx.hash == h;
        assert Offered(pool, tx);
      }
    }
  }

  /** Whatever happens during a new cycle, it records only what its pool offers. */
  lemma FillRecordsOnly(x: Executor, cfg: ForkConfig.ChainConfig, e: Env, pool: Pool, author: Address,
                        localSig: Signal, remoteSig: Signal)
    ensures var r := FillNewWork(x, cfg, e, pool, author, localSig, remoteSig);
            forall h | h in r.processed && h !in e.processed :: exists tx :: Offered(pool, tx) && tx.hash == h
  {
    if pool.Some? {
      var (local, remote) := pool.value;
      var (e1, interrupted) := if |local.lists| > 0 then CommitPass(x, cfg, e, local, author, localSig) else (e, false);
      CommitLoopRecords(x, cfg, WithGasPool(e), local, author, localSig, 0);
      CommitLoopRecords(x, cfg, WithGasPool(e1), remote, author, remoteSig, 0);
      BothRecordOnly(e, e1, FillNewWork(x, cfg, e, pool, author, localSig, remoteSig), pool);
    }
  }

  /** A cycle and the refill for its candidate, by hash: all that either pool offers is
      included, if the first offers nothing whose turn has passed, and the second nothing but
      what the first did. */
  lemma CycleTakesAll(x: Executor, cfg: ForkConfig.ChainConfig, header: HeaderData, parent: World,
                      pool: Pool, author: Address, localSig: Signal, remoteSig: Signal,
                      again: Pool, authorThen: Address, good: World -> bool)
    requires Metered(x) && Sequenced(x) && Quiet(localSig) && Quiet(remoteSig)
    requires PoolFits(x, cfg, FreshEnv(header, parent), pool, author, good, {})
    requires forall tx | Offered(pool, tx) :: Due(x, parent, tx)
    requires var e := FillNewWork(x, cfg, FreshEnv(header, parent), pool, author, localSig, remoteSig);
             && PoolFits(x, cfg, e, again, authorThen, good, e.processed)
             && forall tx | Offered(again, tx) && !Due(x, e.world, tx) :: tx.hash in e.processed
    ensures var r := Cycle(x, cfg, header, parent, pool, author, localSig, remoteSig, [Update(again, authorThen)]);
            forall tx | Offered(pool, tx) || Offered(again, tx) :: exists t :: t in r.txs && t.hash == tx.hash
  {
    var e := FillNewWork(x, cfg, FreshEnv(header, parent), pool, author, localSig, remoteSig);
    FillTakesAll(x, cfg, FreshEnv(header, parent), pool, author, localSig, remoteSig, good);
    FillRecordsOnly(x, cfg, FreshEnv(header, parent), pool, author, localSig, remoteSig);
    RefillTakesAll(x, cfg, e, again, authorThen, good);
    var r := UpdateNewWork(x, cfg, e, again, authorThen);
    assert [Update(again, authorThen)][1..] == [];
    assert RunVisits(x, cfg, e, [Update(again, authorThen)]) == r;
    forall tx | Offered(pool, tx) || Offered(again, tx) ensures exists t :: t in r.txs && t.hash == tx.hash {
      if tx in r.txs {
        assert tx in r.txs && tx.hash == tx.hash;
      } else if Offered(again, tx) {
        assert tx.hash in e.processed;
        var t :| Offered(pool, t) && t.hash == tx.hash;
        assert t in e.txs;
      }
    }
  }
}
