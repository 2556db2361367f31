/** Who is paid for a block.  The batcher executes under its own coinbase; every other node
    executes the finished block under `Author(header)`, which is always the zero address. */
module Coinbase {
  import opened Wrappers
  import opened ChainTypes
  import opened Execution

  // ---------------------------------------------------------------- balances and fees

  function Balance(w: World, a: Address): nat {
    if a in w.balances then w.balances[a] else 0
  }

  function Credit(w: World, a: Address, amount: nat): World {
    if amount == 0 then w else w.(balances := w.balances[a := Balance(w, a) + amount])
  }

  function CreditAll(w: World, payees: seq<Address>, amounts: seq<nat>): World
    requires |payees| == |amounts|
  {
    if |payees| == 0 then w
    else
      var n := |payees| - 1;
      Credit(CreditAll(w, payees[..n], amounts[..n]), payees[n], amounts[n])
  }

  function Fee(tx: Tx, r: Receipt): nat {
    r.gasUsed * tx.gasPrice
  }

  function Fees(txs: seq<Tx>, receipts: seq<Receipt>): (fees: seq<nat>)
    requires |txs| == |receipts|
    ensures |fees| == |txs|
  {
    seq(|txs|, i requires 0 <= i < |txs| => Fee(txs[i], receipts[i]))
  }

  /** Execution up to, but without, the payment of the fee. */
  type Runner = (HeaderData, Address, World, nat, nat, Tx, nat) -> Outcome

  /** The last step of the source's state transition: the gas used, at the transaction's
      price, goes to the balance of the author. */
  ghost predicate PaysFees(x: Executor, run: Runner) {
    forall ctx, author, w, pool: nat, used: nat, tx: Tx, i: nat ::
      x.apply(ctx, author, w, pool, used, tx, i) ==
        match run(ctx, author, w, pool, used, tx, i)
        case Applied(w', r, pool') => Applied(Credit(w', author, Fee(tx, r)), r, pool')
        case Rejected(err, dirty, pool') => Rejected(err, dirty, pool')
  }

  // ---------------------------------------------------------------- not looking at who is paid

  /** One transaction, executed on a state w, looks neither at which of the payees the author
      is nor at how much the payees have been credited so far. */
  ghost predicate Overlooks(run: Runner, ctx: HeaderData, w: World, pool: nat, used: nat, tx: Tx, i: nat,
                            payees: set<Address>) {
    forall author: Address, who: seq<Address>, amounts: seq<nat> ::
      author in payees && |who| == |amounts| && (forall k | 0 <= k < |who| :: who[k] in payees) ==>
        run(ctx, author, CreditAll(w, who, amounts), pool, used, tx, i) ==
          match run(ctx, 0, w, pool, used, tx, i)
          case Applied(w', r, pool') => Applied(CreditAll(w', who, amounts), r, pool')
          case Rejected(err, dirty, pool') => Rejected(err, CreditAll(dirty, who, amounts), pool')
  }

  /** The same executor with all fees burnt. */
  function Burning(x: Executor, run: Runner): Executor {
    x.(apply := (ctx: HeaderData, author: Address, w: World, pool: nat, used: nat, tx: Tx, i: nat) =>
                  run(ctx, 0, w, pool, used, tx, i))
  }

  function Burnt(x: Executor, run: Runner, ctx: HeaderData, parent: World, txs: seq<Tx>): Option<Executed> {
    Replay(Burning(x, run), ctx, parent, txs, Zeros(|txs|))
  }

  function Zeros(n: nat): (z: seq<Address>)
    ensures |z| == n && forall i | 0 <= i < n :: z[i] == 0
  {
    seq(n, _ => 0)
  }

  /** No transaction of this list, where it stands in it, looks at the payees. */
  ghost predicate NobodyLooks(x: Executor, run: Runner, ctx: HeaderData, parent: World, txs: seq<Tx>,
                              payees: set<Address>) {
    forall i {:trigger txs[i]} | 0 <= i < |txs| ::
      var e := Burnt(x, run, ctx, parent, txs[..i]);
      e.Some? ==> Overlooks(run, ctx, e.value.world, e.value.gasPool, e.value.gasUsed, txs[i], i, payees)
  }

  lemma NobodyLooksBefore(x: Executor, run: Runner, ctx: HeaderData, parent: World, txs: seq<Tx>, payees: set<Address>)
    requires |txs| > 0 && NobodyLooks(x, run, ctx, parent, txs, payees)
    ensures NobodyLooks(x, run, ctx, parent, txs[..|txs| - 1], payees)
  {
    var front := txs[..|txs| - 1];
    assert forall i | 0 <= i < |front| :: front[i] == txs[i] && front[..i] == txs[..i];
  }

  lemma BurntStep(x: Executor, run: Runner, ctx: HeaderData, parent: World, txs: seq<Tx>)
    requires |txs| > 0
    ensures var n, front := |txs| - 1, Burnt(x, run, ctx, parent, txs[..|txs| - 1]);
            Burnt(x, run, ctx, parent, txs) ==
              if front.None? then None
              else Added(front.value, run(ctx, 0, front.value.world, front.value.gasPool,
                                           front.value.gasUsed, txs[n], n))
  {
    assert Zeros(|txs|)[..|txs| - 1] == Zeros(|txs| - 1);
  }

  lemma CreditMore(w: World, payees: seq<Address>, txs: seq<Tx>, receipts: seq<Receipt>)
    requires |payees| == |txs| == |receipts| > 0
    ensures var n := |txs| - 1;
            CreditAll(w, payees, Fees(txs, receipts)) ==
              Credit(CreditAll(w, payees[..n], Fees(txs[..n], receipts[..n])), payees[n], Fee(txs[n], receipts[n]))
  {
    assert Fees(txs, receipts)[..|txs| - 1] == Fees(txs[..|txs| - 1], receipts[..|txs| - 1]);
  }

  /** A run with burnt fees, with the fees handed out after all. */
  function Credited(e: Executed, txs: seq<Tx>, authors: seq<Address>): Executed
    requires |txs| == |authors| == |e.receipts|
  {
    e.(world := CreditAll(e.world, authors, Fees(txs, e.receipts)))
  }

  lemma CreditedStep(x: Executor, run: Runner, ctx: HeaderData, e: Executed, txs: seq<Tx>, authors: seq<Address>,
                     payees: set<Address>)
    requires |txs| == |authors| == |e.receipts| + 1
    requires PaysFees(x, run) && forall i | 0 <= i < |authors| :: authors[i] in payees
    requires Overlooks(run, ctx, e.world, e.gasPool, e.gasUsed, txs[|e.receipts|], |e.receipts|, payees)
    ensures var n := |e.receipts|;
            var after := Added(e, run(ctx, 0, e.world, e.gasPool, e.gasUsed, txs[n], n));
            var front := Credited(e, txs[..n], authors[..n]);
            && (after.Some? ==> |after.value.receipts| == |txs|)
            && Added(front, x.apply(ctx, authors[n], front.world, e.gasPool, e.gasUsed, txs[n], n)) ==
                 if after.None? then None else Some(Credited(after.value, txs, authors))
  {
    var n := |e.receipts|;
    var outcome := run(ctx, 0, e.world, e.gasPool, e.gasUsed, txs[n], n);
    if outcome.Applied? {
      var receipts := e.receipts + [outcome.receipt];
      assert receipts[..n] == e.receipts;
      CreditMore(outcome.world, authors, txs, receipts);
    }
  }

  /** Under any authors among the payees, a list that does not look runs as with burnt fees,
      and the fees end up with the authors. */
  lemma {:induction false} CreditedReplay(x: Executor, run: Runner, ctx: HeaderData, parent: World, txs: seq<Tx>,
                                          authors: seq<Address>, payees: set<Address>)
    requires PaysFees(x, run) && NobodyLooks(x, run, ctx, parent, txs, payees)
    requires |txs| == |authors| && forall i | 0 <= i < |authors| :: authors[i] in payees
    ensures var b := Burnt(x, run, ctx, parent, txs);
            && (b.Some? ==> |b.value.receipts| == |txs|)
            && Replay(x, ctx, parent, txs, authors) == if b.None? then None else Some(Credited(b.value, txs, authors))
  {
    if |txs| > 0 {
      var n := |txs| - 1;
      NobodyLooksBefore(x, run, ctx, parent, txs, payees);
      CreditedReplay(x, run, ctx, parent, txs[..n], authors[..n], payees);
      BurntStep(x, run, ctx, parent, txs);
      var front := Burnt(x, run, ctx, parent, txs[..n]);
      if front.Some? {
        assert Overlooks(run, ctx, front.value.world, front.value.gasPool, front.value.gasUsed, txs[n], n, payees);
        CreditedStep(x, run, ctx, front.value, txs, authors, payees);
      }
    }
  }

  // ---------------------------------------------------------------- telling the states apart

  function Earned(payees: seq<Address>, amounts: seq<nat>, a: Address): nat
    requires |payees| == |amounts|
  {
    if |payees| == 0 then 0
    else
      var n := |payees| - 1;
      Earned(payees[..n], amounts[..n], a) + if payees[n] == a then amounts[n] else 0
  }

  lemma {:induction false} BalanceGrows(w: World, payees: seq<Address>, amounts: seq<nat>, a: Address)
    requires |payees| == |amounts|
    ensures Balance(CreditAll(w, payees, amounts), a) == Balance(w, a) + Earned(payees, amounts, a)
  {
    if |payees| > 0 {
      BalanceGrows(w, payees[..|payees| - 1], amounts[..|payees| - 1], a);
    }
  }

  lemma {:induction false} EarnedAtLeast(payees: seq<Address>, amounts: seq<nat>, i: nat)
    requires |payees| == |amounts| && i < |payees|
    ensures Earned(payees, amounts, payees[i]) >= amounts[i]
  {
    if i < |payees| - 1 {
      EarnedAtLeast(payees[..|payees| - 1], amounts[..|payees| - 1], i);
    }
  }

  lemma {:induction false} ZerosEarnNothing(n: nat, amounts: seq<nat>, a: Address)
    requires n == |amounts| && a != 0
    ensures Earned(Zeros(n), amounts, a) == 0
  {
    if n > 0 {
      assert Zeros(n)[..n - 1] == Zeros(n - 1);
      ZerosEarnNothing(n - 1, amounts[..n - 1], a);
    }
  }

  /** Every amount goes to the zero address, or is nothing. */
  predicate NothingElsewhere(payees: seq<Address>, amounts: seq<nat>)
    requires |payees| == |amounts|
  {
    forall i | 0 <= i < |payees| :: payees[i] == 0 || amounts[i] == 0
  }

  lemma {:induction false} CreditZeros(w: World, payees: seq<Address>, amounts: seq<nat>)
    requires |payees| == |amounts| && NothingElsewhere(payees, amounts)
    ensures CreditAll(w, payees, amounts) == CreditAll(w, Zeros(|payees|), amounts)
  {
    if |payees| > 0 {
      var n := |payees| - 1;
      CreditZeros(w, payees[..n], amounts[..n]);
      assert Zeros(|payees|)[..n] == Zeros(n);
    }
  }

  lemma SameCredits(w: World, payees: seq<Address>, amounts: seq<nat>)
    requires |payees| == |amounts|
    ensures CreditAll(w, payees, amounts) == CreditAll(w, Zeros(|payees|), amounts) <==>
            NothingElsewhere(payees, amounts)
  {
    if NothingElsewhere(payees, amounts) {
      CreditZeros(w, payees, amounts);
    } else {
      var i :| 0 <= i < |payees| && payees[i] != 0 && amounts[i] != 0;
      BalanceGrows(w, payees, amounts, payees[i]);
      BalanceGrows(w, Zeros(|payees|), amounts, payees[i]);
      EarnedAtLeast(payees, amounts, i);
      ZerosEarnNothing(|payees|, amounts, payees[i]);
    }
  }

  /** A block packed under any coinbases is executed by other nodes with the same receipts;
      they reach the packed state exactly when every transaction that was packed under
      another address than zero paid no fee. */
  lemma AuthorAgreement(x: Executor, run: Runner, ctx: HeaderData, parent: World, txs: seq<Tx>, authors: seq<Address>)
    requires PaysFees(x, run) && |txs| == |authors|
    requires NobodyLooks(x, run, ctx, parent, txs, {0} + set a | a in authors)
    requires Replay(x, ctx, parent, txs, authors).Some?
    ensures var packed, other := Replay(x, ctx, parent, txs, authors).value, Replay(x, ctx, parent, txs, Zeros(|txs|));
            && other.Some? && other.value.receipts == packed.receipts && |packed.receipts| == |txs|
            && other.value.gasUsed == packed.gasUsed
            && (other.value.world == packed.world <==>
                  forall i | 0 <= i < |txs| :: authors[i] == 0 || Fee(txs[i], packed.receipts[i]) == 0)
  {
    var payees := {0} + set a | a in authors;
    CreditedReplay(x, run, ctx, parent, txs, authors, payees);
    CreditedReplay(x, run, ctx, parent, txs, Zeros(|txs|), payees);
    var b := Burnt(x, run, ctx, parent, txs).value;
    SameCredits(b.world, authors, Fees(txs, b.receipts));
  }

  // ---------------------------------------------------------------- an executor of this kind

  /** Plain payments to nobody: the sender buys gas, its nonce advances. */
  function PlainRun(ctx: HeaderData, author: Address, w: World, pool: nat, used: nat, tx: Tx, i: nat): Outcome {
    var nonce := if tx.from in w.nonces then w.nonces[tx.from] else 0;
    var cost := TX_GAS * tx.gasPrice;
    if nonce != tx.nonce then Rejected(if tx.nonce < nonce then NonceTooLow else NonceTooHigh, w, pool)
    else if pool < tx.gas then Rejected(GasLimitReached, w, pool)
    else if tx.gas < TX_GAS || Balance(w, tx.from) < cost then Rejected(OtherError, w, pool)
    else
      Applied(World(w.nonces[tx.from := nonce + 1], w.balances[tx.from := Balance(w, tx.from) - cost], w.rest),
              Receipt(tx.hash, i, TX_GAS, used + TX_GAS, 0), pool - TX_GAS)
  }

  function PlainExecutor(): Executor {
    Executor((w: World, a: Address) => if a in w.nonces then w.nonces[a] else 0,
             (a: Address) => true,
             (ctx: HeaderData, author: Address, w: World, pool: nat, used: nat, tx: Tx, i: nat) =>
               match PlainRun(ctx, author, w, pool, used, tx, i)
               case Applied(w', r, pool') => Applied(Credit(w', author, Fee(tx, r)), r, pool')
               case Rejected(err, dirty, pool') => Rejected(err, dirty, pool'))
  }

  /** The assumptions on executors can all be met at once. */
  lemma PlainExecutorIsMetered()
    ensures Metered(PlainExecutor())
  {
  }

  lemma PlainExecutorIsSequenced()
    ensures Sequenced(PlainExecutor())
  {
  }

  lemma PlainExecutorPaysFees()
    ensures PaysFees(PlainExecutor(), PlainRun)
  {
  }

  lemma {:induction false} CreditsPassBy(w: World, who: seq<Address>, amounts: seq<nat>, a: Address, nonce: nat,
                                         balance: nat)
    requires |who| == |amounts| && forall k | 0 <= k < |who| :: who[k] != a
    ensures var v := CreditAll(w, who, amounts);
            && v.nonces == w.nonces && v.rest == w.rest && Balance(v, a) == Balance(w, a)
            && CreditAll(World(w.nonces[a := nonce], w.balances[a := balance], w.rest), who, amounts) ==
                 World(v.nonces[a := nonce], v.balances[a := balance], v.rest)
  {
    if |who| > 0 {
      var n := |who| - 1;
      CreditsPassBy(w, who[..n], amounts[..n], a, nonce, balance);
      var v := CreditAll(w, who[..n], amounts[..n]);
      var c := Balance(v, who[n]) + amounts[n];
      assert v.balances[a := balance][who[n] := c] == v.balances[who[n] := c][a := balance];
    }
  }

  /** It looks at no payee but the sender. */
  lemma PlainRunOverlooks(ctx: HeaderData, w: World, pool: nat, used: nat, tx: Tx, i: nat, payees: set<Address>)
    requires tx.from !in payees
    ensures Overlooks(PlainRun, ctx, w, pool, used, tx, i, payees)
  {
    var nonce := if tx.from in w.nonces then w.nonces[tx.from] else 0;
    var cost := TX_GAS * tx.gasPrice;
    forall author: Address, who: seq<Address>, amounts: seq<nat>
      | author in payees && |who| == |amounts| && (forall k | 0 <= k < |who| :: who[k] in payees)
      ensures PlainRun(ctx, author, CreditAll(w, who, amounts), pool, used, tx, i) ==
                match PlainRun(ctx, 0, w, pool, used, tx, i)
                case Applied(w', r, pool') => Applied(CreditAll(w', who, amounts), r, pool')
                case Rejected(err, dirty, pool') => Rejected(err, CreditAll(dirty, who, amounts), pool')
    {
      CreditsPassBy(w, who, amounts, tx.from, nonce + 1,
                    if Balance(w, tx.from) < cost then 0 else Balance(w, tx.from) - cost);
    }
  }

  lemma ReplayOfOne(x: Executor, ctx: HeaderData, parent: World, tx: Tx, author: Address)
    ensures Replay(x, ctx, parent, [tx], [author]) ==
              Added(Executed(parent, [], 0, ctx.gasLimit), x.apply(ctx, author, parent, ctx.gasLimit, 0, tx, 0))
  {
    assert [tx][..0] == [] && [author][..0] == [];
    assert Replay(x, ctx, parent, [tx][..0], [author][..0]) == Some(Executed(parent, [], 0, ctx.gasLimit));
  }

  /** One transaction with a price of one, packed under coinbase 7: other nodes reach another
      state. */
  lemma FeeToAnotherCoinbase(ctx: HeaderData)
    requires ctx.gasLimit >= TX_GAS
    ensures var parent, tx := World(map[], map[1 := TX_GAS], 0), Tx(0, 1, 0, TX_GAS, 1, true);
            var packed, other := Replay(PlainExecutor(), ctx, parent, [tx], [7]),
                                 Replay(PlainExecutor(), ctx, parent, [tx], [0]);
            packed.Some? && other.Some? && packed.value.world != other.value.world
  {
    var parent, tx := World(map[], map[1 := TX_GAS], 0), Tx(0, 1, 0, TX_GAS, 1, true);
    ReplayOfOne(PlainExecutor(), ctx, parent, tx, 7);
    ReplayOfOne(PlainExecutor(), ctx, parent, tx, 0);
    var packed := Replay(PlainExecutor(), ctx, parent, [tx], [7]).value;
    var other := Replay(PlainExecutor(), ctx, parent, [tx], [0]).value;
    assert Balance(packed.world, 7) == TX_GAS && Balance(other.world, 7) == 0;
  }
}
