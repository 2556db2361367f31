/** Transactions, receipts, headers and their hashes.  Hashes are injective identifiers:
    a hash is written as the thing it was taken of. */
module ChainTypes {
  import opened Wrappers
  import opened Rlp

  type Address = nat

  const TX_GAS: nat := 21000

  /** The contents of the state database; `rest` stands for code, storage and the like. */
  datatype World = World(nonces: map<Address, nat>, balances: map<Address, nat>, rest: int)

  datatype Tx = Tx(hash: nat, from: Address, nonce: nat, gas: nat, gasPrice: nat, replayProtected: bool)

  datatype Receipt = Receipt(txHash: nat, index: nat, gasUsed: nat, cumulativeGasUsed: nat, outcome: int)

  datatype Hash =
    | Zero
    | EmptyRoot
    | EmptyUncles
    | OfHeader(header: HeaderData)
    | OfTxs(txs: seq<Tx>)
    | OfReceipts(receipts: seq<Receipt>)
    | OfWorld(world: World, deleteEmpty: bool)

  /** The fields of a header; difficulty and number are Go's `*big.Int`. */
  datatype HeaderData = HeaderData(
    parentHash: Hash,
    uncleHash: Hash,
    coinbase: Address,
    root: Hash,
    txHash: Hash,
    receiptHash: Hash,
    bloom: seq<Receipt>,
    difficulty: Option<nat>,
    number: Option<nat>,
    gasLimit: nat,
    gasUsed: nat,
    time: nat,
    extra: bytes,
    mixDigest: Hash,
    nonce: nat
  )

  /** What a deep copy of a header holds: unset numbers become zero. */
  function CopiedHeader(h: HeaderData): HeaderData {
    h.(difficulty := Some(if h.difficulty.None? then 0 else h.difficulty.value),
       number := Some(if h.number.None? then 0 else h.number.value))
  }

  /** The header's hash; its encoding writes an unset number as zero. */
  function HeaderHash(h: HeaderData): Hash {
    OfHeader(CopiedHeader(h))
  }

  /** The hash that sealing must not change: the extra data left out. */
  function HashForEcPon(h: HeaderData): Hash {
    HeaderHash(CopiedHeader(h).(extra := []))
  }

  /** The header `NewBlock` gives a block: derived fields are recomputed. */
  function AssembledHeader(h: HeaderData, txs: seq<Tx>, receipts: seq<Receipt>): HeaderData {
    CopiedHeader(h).(
      txHash := if |txs| == 0 then EmptyRoot else OfTxs(txs),
      receiptHash := if |receipts| == 0 then EmptyRoot else OfReceipts(receipts),
      bloom := if |receipts| == 0 then h.bloom else receipts,
      uncleHash := EmptyUncles)
  }

  /** A header names the contents of its block: by the root of its transactions, the root and
      the bloom of its receipts, and the hash of no uncles. */
  predicate NamesContents(h: HeaderData, txs: seq<Tx>, receipts: seq<Receipt>) {
    && h.txHash == (if |txs| == 0 then EmptyRoot else OfTxs(txs))
    && h.receiptHash == (if |receipts| == 0 then EmptyRoot else OfReceipts(receipts))
    && h.bloom == receipts
    && h.uncleHash == EmptyUncles
  }

  /** Assembling fills in the names, and leaves the rest as it is. */
  lemma AssembledNames(h: HeaderData, txs: seq<Tx>, receipts: seq<Receipt>)
    ensures var a := AssembledHeader(h, txs, receipts);
            && (h.bloom == [] ==> NamesContents(a, txs, receipts))
            && a.(txHash := h.txHash, receiptHash := h.receiptHash, bloom := h.bloom, uncleHash := h.uncleHash)
                 == CopiedHeader(h)
  {
  }

  /** Two lists that one header can name are the same. */
  lemma NamesOneContents(a: HeaderData, b: HeaderData, txsA: seq<Tx>, txsB: seq<Tx>, rsA: seq<Receipt>,
                         rsB: seq<Receipt>)
    requires NamesContents(a, txsA, rsA) && NamesContents(b, txsB, rsB)
    ensures a.txHash == b.txHash <==> txsA == txsB
    ensures a.receiptHash == b.receiptHash <==> rsA == rsB
  {
  }

  /** A block hash is a signing hash and an extra data field, no more and no less. */
  lemma SigningHashAndExtra(a: HeaderData, b: HeaderData)
    ensures HeaderHash(a) == HeaderHash(b) <==> HashForEcPon(a) == HashForEcPon(b) && a.extra == b.extra
  {
  }

  /** Two headers have one signing hash iff they agree on every field but the extra data; a
      number or difficulty that is not set counts as zero. */
  lemma SigningHashCoversTheRest(a: HeaderData, b: HeaderData)
    ensures HashForEcPon(a) == HashForEcPon(b) <==>
              && a.parentHash == b.parentHash && a.uncleHash == b.uncleHash && a.coinbase == b.coinbase
              && a.root == b.root && a.txHash == b.txHash && a.receiptHash == b.receiptHash && a.bloom == b.bloom
              && OrZero(a.difficulty) == OrZero(b.difficulty) && OrZero(a.number) == OrZero(b.number)
              && a.gasLimit == b.gasLimit && a.gasUsed == b.gasUsed && a.time == b.time
              && a.mixDigest == b.mixDigest && a.nonce == b.nonce
  {
  }

  function OrZero(n: Option<nat>): nat {
    if n.None? then 0 else n.value
  }
}
