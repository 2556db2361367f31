/** The transaction executor, as an arbitrary function bound by a contract, and the plain
    in-order execution of a block that the packer is measured against. */
module Execution {
  import opened Wrappers
  import opened ChainTypes

  datatype ExecError = GasLimitReached | NonceTooLow | NonceTooHigh | TxTypeNotSupported | OtherError

  /** A rejected transaction may leave the state dirty and some gas taken from the pool. */
  datatype Outcome =
    | Applied(world: World, receipt: Receipt, gasPool: nat)
    | Rejected(err: ExecError, dirty: World, gasPool: nat)

  /** `apply(ctx, author, world, gasPool, gasUsed, tx, index)` is `core.ApplyTransaction`
      after `state.Prepare(tx.Hash(), {}, index)`; ctx is the part of the header that
      execution can see.  `signs` holds of the accounts that can send transactions. */
  datatype Executor = Executor(
    nonce: (World, Address) -> nat,
    signs: Address -> bool,
    apply: (HeaderData, Address, World, nat, nat, Tx, nat) -> Outcome
  )

  /** The fields of a header that do not change while its block is being filled. */
  function ContextOf(h: HeaderData): HeaderData {
    CopiedHeader(h).(root := Zero, uncleHash := Zero, txHash := Zero, receiptHash := Zero, bloom := [],
                     gasUsed := 0, extra := [])
  }

  /** Execution sees the parent, coinbase, difficulty, number, gas limit, time, digest and nonce of
      a header, and nothing that packing or sealing fills in. */
  lemma ContextCovers(a: HeaderData, b: HeaderData)
    ensures ContextOf(a) == ContextOf(b) <==>
              && a.parentHash == b.parentHash && a.coinbase == b.coinbase
              && OrZero(a.difficulty) == OrZero(b.difficulty) && OrZero(a.number) == OrZero(b.number)
              && a.gasLimit == b.gasLimit && a.time == b.time
              && a.mixDigest == b.mixDigest && a.nonce == b.nonce
  {
  }

  /** Gas: what is used is within the transaction's limit, which was within the pool, and a
      larger pool would have changed nothing.  A failure never returns gas to the pool. */
  ghost predicate MeteredAt(x: Executor, ctx: HeaderData, author: Address, w: World, pool: nat, used: nat, tx: Tx,
                            i: nat) {
    match x.apply(ctx, author, w, pool, used, tx, i)
    case Applied(w', r, pool') =>
      && r.gasUsed <= tx.gas <= pool
      && pool' == pool - r.gasUsed
      && r.txHash == tx.hash && r.index == i && r.cumulativeGasUsed == used + r.gasUsed
      && forall larger: nat ::
           pool <= larger ==> x.apply(ctx, author, w, larger, used, tx, i) == Applied(w', r, larger - r.gasUsed)
    case Rejected(_, _, pool') => pool' <= pool
  }

  ghost predicate Metered(x: Executor) {
    forall ctx, author, w, pool: nat, used: nat, tx, i: nat ::
      MeteredAt(x, ctx, author, w, pool, used, tx, i)
  }

  /** Nonces: on success the sender's matched and advances, and that of no other account with
      a key moves.  Contracts have no key: theirs start and advance as they are created. */
  ghost predicate SequencedAt(x: Executor, ctx: HeaderData, author: Address, w: World, pool: nat, used: nat, tx: Tx,
                              i: nat) {
    match x.apply(ctx, author, w, pool, used, tx, i)
    case Applied(w', r, pool') =>
      && x.signs(tx.from)
      && x.nonce(w, tx.from) == tx.nonce
      && forall a | x.signs(a) :: x.nonce(w', a) == x.nonce(w, a) + if a == tx.from then 1 else 0
    case Rejected(_, _, _) => true
  }

  ghost predicate Sequenced(x: Executor) {
    forall ctx, author, w, pool: nat, used: nat, tx, i: nat ::
      SequencedAt(x, ctx, author, w, pool, used, tx, i)
  }

  datatype Executed = Executed(world: World, receipts: seq<Receipt>, gasUsed: nat, gasPool: nat)

  /** Executing a list of transactions in order on a parent state, as every other node
      does with the finished block; None if one of them is rejected. */
  function Replay(x: Executor, ctx: HeaderData, parent: World, txs: seq<Tx>, authors: seq<Address>): Option<Executed>
    requires |txs| == |authors|
  {
    if |txs| == 0 then Some(Executed(parent, [], 0, ctx.gasLimit))
    else
      var n := |txs| - 1;
      match Replay(x, ctx, parent, txs[..n], authors[..n])
      case None => None
      case Some(e) =>
        Added(e, x.apply(ctx, authors[n], e.world, e.gasPool, e.gasUsed, txs[n], n))
  }

  function Added(e: Executed, o: Outcome): Option<Executed> {
    match o
    case Applied(w, r, pool) => Some(Executed(w, e.receipts + [r], e.gasUsed + r.gasUsed, pool))
    case Rejected(_, _, _) => None
  }

  function CountFrom(txs: seq<Tx>, a: Address): nat {
    if |txs| == 0 then 0 else CountFrom(txs[..|txs| - 1], a) + if txs[|txs| - 1].from == a then 1 else 0
  }

  function SumGas(receipts: seq<Receipt>): nat {
    if |receipts| == 0 then 0 else SumGas(receipts[..|receipts| - 1]) + receipts[|receipts| - 1].gasUsed
  }

  /** Conservation: what was used left the pool, and the total is the receipts' sum. */
  lemma {:induction false} ReplayConservesGas(x: Executor, ctx: HeaderData, parent: World, txs: seq<Tx>,
                                              authors: seq<Address>)
    requires Metered(x) && |txs| == |authors|
    requires Replay(x, ctx, parent, txs, authors).Some?
    ensures var e := Replay(x, ctx, parent, txs, authors).value;
            && |e.receipts| == |txs|
            && e.gasUsed == SumGas(e.receipts)
            && e.gasPool + e.gasUsed == ctx.gasLimit
  {
    if |txs| > 0 {
      var n := |txs| - 1;
      ReplayConservesGas(x, ctx, parent, txs[..n], authors[..n]);
      var e := Replay(x, ctx, parent, txs[..n], authors[..n]).value;
      assert MeteredAt(x, ctx, authors[n], e.world, e.gasPool, e.gasUsed, txs[n], n);
    }
  }

  /** The receipts of a replay are those of its transactions, in their order: each is numbered
      by its place, and its cumulative gas is the sum up to and with its own. */
  lemma {:induction false} ReceiptsAreInOrder(x: Executor, ctx: HeaderData, parent: World, txs: seq<Tx>,
                                              authors: seq<Address>, i: nat)
    requires Metered(x) && |txs| == |authors| && i < |txs|
    requires Replay(x, ctx, parent, txs, authors).Some?
    ensures var rs := Replay(x, ctx, parent, txs, authors).value.receipts;
            && |rs| == |txs|
            && rs[i].txHash == txs[i].hash && rs[i].index == i
            && rs[i].gasUsed <= txs[i].gas && rs[i].cumulativeGasUsed == SumGas(rs[..i + 1])
  {
    var n := |txs| - 1;
    ReplayConservesGas(x, ctx, parent, txs, authors);
    var e := Replay(x, ctx, parent, txs[..n], authors[..n]).value;
    ReplayConservesGas(x, ctx, parent, txs[..n], authors[..n]);
    assert MeteredAt(x, ctx, authors[n], e.world, e.gasPool, e.gasUsed, txs[n], n);
    var rs := Replay(x, ctx, parent, txs, authors).value.receipts;
    assert rs[..n] == e.receipts;
    if i == n {
      assert rs[..i + 1] == rs;
    } else {
      ReceiptsAreInOrder(x, ctx, parent, txs[..n], authors[..n], i);
      assert rs[..i + 1] == e.receipts[..i + 1];
    }
  }

  /** Nonces after a replay count the transactions of each account with a key. */
  lemma {:induction false} ReplayNonces(x: Executor, ctx: HeaderData, parent: World, txs: seq<Tx>,
                                        authors: seq<Address>, a: Address)
    requires Sequenced(x) && x.signs(a) && |txs| == |authors|
    requires Replay(x, ctx, parent, txs, authors).Some?
    ensures x.nonce(Replay(x, ctx, parent, txs, authors).value.world, a) == x.nonce(parent, a) + CountFrom(txs, a)
  {
    if |txs| > 0 {
      var n := |txs| - 1;
      ReplayNonces(x, ctx, parent, txs[..n], authors[..n], a);
      var e := Replay(x, ctx, parent, txs[..n], authors[..n]).value;
      assert SequencedAt(x, ctx, authors[n], e.world, e.gasPool, e.gasUsed, txs[n], n);
    }
  }

  /** Each sender's nonces are consecutive from the parent state. */
  lemma {:induction false} NoncesAreConsecutive(x: Executor, ctx: HeaderData, parent: World, txs: seq<Tx>,
                                                authors: seq<Address>, i: nat)
    requires Sequenced(x) && |txs| == |authors| && i < |txs|
    requires Replay(x, ctx, parent, txs, authors).Some?
    ensures x.signs(txs[i].from) && txs[i].nonce == x.nonce(parent, txs[i].from) + CountFrom(txs[..i], txs[i].from)
  {
    var n := |txs| - 1;
    if i == n {
      var e := Replay(x, ctx, parent, txs[..n], authors[..n]).value;
      assert SequencedAt(x, ctx, authors[n], e.world, e.gasPool, e.gasUsed, txs[n], n);
      ReplayNonces(x, ctx, parent, txs[..n], authors[..n], txs[n].from);
    } else {
      NoncesAreConsecutive(x, ctx, parent, txs[..n], authors[..n], i);
      assert txs[..n][..i] == txs[..i];
    }
  }

  lemma {:induction false} CountGrows(txs: seq<Tx>, i: nat, j: nat, a: Address)
    requires i <= j <= |txs|
    ensures CountFrom(txs[..i], a) <= CountFrom(txs[..j], a)
    decreases j
  {
    if i < j {
      CountGrows(txs, i, j - 1, a);
      assert txs[..j][..j - 1] == txs[..j - 1];
    }
  }

  /** Hence a block that replays contains no transaction twice. */
  lemma NoTransactionTwice(x: Executor, ctx: HeaderData, parent: World, txs: seq<Tx>, authors: seq<Address>, i: nat,
                           j: nat)
    requires Sequenced(x) && |txs| == |authors| && i < j < |txs|
    requires Replay(x, ctx, parent, txs, authors).Some?
    ensures txs[i] != txs[j]
  {
    var a := txs[i].from;
    NoncesAreConsecutive(x, ctx, parent, txs, authors, i);
    NoncesAreConsecutive(x, ctx, parent, txs, authors, j);
    CountGrows(txs, i + 1, j, a);
    assert txs[..i + 1][..i] == txs[..i];
  }
}
