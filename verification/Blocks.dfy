/** Headers and blocks as the mutable objects they are in core/types/block.go, and the
    sealing step of consensus/ecpon/ecponbada.go on top of them. */
module Blocks {
  import opened Wrappers
  import opened ChainTypes
  import opened ExtraData

  /** A header object; the packer keeps writing to the one in its environment. */
  class Header {
    var data: HeaderData

    constructor (data: HeaderData)
      ensures this.data == data
    {
      this.data := data;
    }

    method Copy() returns (cpy: Header)
      ensures fresh(cpy) && cpy.data == CopiedHeader(data)
    {
      cpy := new Header(CopiedHeader(data));
    }
  }

  /** What a block says, without its caches. */
  datatype BlockView = BlockView(header: HeaderData, txs: seq<Tx>)

  class Block {
    const header: Header
    const txs: seq<Tx>
    var hash: Option<Hash> // filled by the first call of Hash

    /** The cached hash, once there, is the hash of the block's own header. */
    ghost predicate Valid()
      reads this, header
    {
      hash.Some? ==> hash.value == HeaderHash(header.data)
    }

    ghost function View(): BlockView
      reads header
    {
      BlockView(header.data, txs)
    }

    constructor OfHeader(header: Header, txs: seq<Tx>)
      ensures this.header == header && this.txs == txs && hash == None && Valid()
    {
      this.header := header;
      this.txs := txs;
      hash := None;
    }

    /** `NewBlock`: the block gets its own copy of the header, so that the caller may go on
        changing the original. */
    constructor Assemble(original: Header, txs: seq<Tx>, receipts: seq<Receipt>)
      ensures fresh(header) && Valid()
      ensures View() == BlockView(AssembledHeader(original.data, txs, receipts), txs)
      // The header names the block's contents, and is the original otherwise.
      ensures original.data.bloom == [] ==> NamesContents(header.data, txs, receipts)
      ensures header.data.(txHash := original.data.txHash, receiptHash := original.data.receiptHash,
                           bloom := original.data.bloom, uncleHash := original.data.uncleHash)
                == CopiedHeader(original.data)
    {
      this.header := new Header(AssembledHeader(original.data, txs, receipts));
      this.txs := txs;
      hash := None;
    }

    method Hash() returns (h: Hash)
      requires Valid()
      modifies this`hash
      ensures Valid() && h == HeaderHash(header.data) && hash == Some(h)
    {
      if hash.None? {
        hash := Some(HeaderHash(header.data));
      }
      h := hash.value;
    }

    /** `Header()` always hands out a copy. */
    method HeaderCopy() returns (cpy: Header)
      ensures fresh(cpy) && cpy.data == CopiedHeader(header.data)
    {
      cpy := header.Copy();
    }

    method WithSeal(sealed: Header) returns (b: Block)
      ensures fresh(b) && fresh(b.header) && b.Valid()
      ensures b.View() == BlockView(sealed.data, txs)
    {
      var cpy := new Header(sealed.data);
      b := new Block.OfHeader(cpy, txs);
    }
  }

  /** The block that carries a seal: only the extra data differs. */
  function SealedView(v: BlockView, proof: BlockProof, committee: Option<ConsensusGroup>): BlockView
    requires Fits(Extra(committee, Some(proof)))
  {
    BlockView(CopiedHeader(v.header).(extra := EncodeExtra(Extra(committee, Some(proof)))), v.txs)
  }

  method SealEcPonBada(block: Block, proof: BlockProof, committee: Option<ConsensusGroup>) returns (sealed: Block)
    requires Fits(Extra(committee, Some(proof)))
    ensures fresh(sealed) && fresh(sealed.header) && sealed.Valid()
    ensures sealed.View() == SealedView(block.View(), proof, committee)
    ensures ReadExtra(sealed.header.data.extra) == ReadResult(committee, Some(proof), false)
    ensures HashForEcPon(sealed.header.data) == HashForEcPon(block.header.data)
  {
    var x := Extra(committee, Some(proof));
    var header := block.HeaderCopy();
    header.data := header.data.(extra := EncodeExtra(x));
    sealed := block.WithSeal(header);
    ExtraRoundTrip(x);
  }

  /** Sealing changes the block hash exactly when it changes the extra data, and never the
      hash that the committee signs; the seal reads back as it was given. */
  lemma SealOnlyChangesExtra(v: BlockView, proof: BlockProof, committee: Option<ConsensusGroup>)
    requires Fits(Extra(committee, Some(proof)))
    ensures var s := SealedView(v, proof, committee);
            && s.txs == v.txs
            && s.header == CopiedHeader(v.header).(extra := s.header.extra)
            && HashForEcPon(s.header) == HashForEcPon(v.header)
            && (HeaderHash(s.header) == HeaderHash(v.header) <==> s.header.extra == v.header.extra)
            && ReadExtra(s.header.extra) == ReadResult(committee, Some(proof), false)
  {
    ExtraRoundTrip(Extra(committee, Some(proof)));
  }

  /** Two seals of one block are told apart by their headers: distinct proofs or committees
      give distinct block hashes under one signing hash. */
  lemma SealsAreDistinct(v: BlockView, p1: BlockProof, c1: Option<ConsensusGroup>, p2: BlockProof,
                         c2: Option<ConsensusGroup>)
    requires Fits(Extra(c1, Some(p1))) && Fits(Extra(c2, Some(p2)))
    ensures HashForEcPon(SealedView(v, p1, c1).header) == HashForEcPon(SealedView(v, p2, c2).header)
    ensures HeaderHash(SealedView(v, p1, c1).header) == HeaderHash(SealedView(v, p2, c2).header) <==>
            p1 == p2 && c1 == c2
  {
    ExtraRoundTrip(Extra(c1, Some(p1)));
    ExtraRoundTrip(Extra(c2, Some(p2)));
  }
}
