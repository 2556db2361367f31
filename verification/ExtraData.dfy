/** The seal carried in a header's extra data: an optional next committee and an optional
    block proof, each behind a pointer tagged `rlp:"nil"` (a nil pointer to a struct is
    the empty list).  Models consensus/ecpon/extradata.go. */
module ExtraData {
  import opened Wrappers
  import opened Rlp

  type uint64 = x: nat | x < UINT64_LIMIT

  datatype ConsensusGroup = ConsensusGroup(blockNo: uint64, validators: seq<bytes>)

  datatype BlockProof = BlockProof(pubKeys: bytes, checksum: bytes, r: bytes, s: bytes)

  datatype Extra = Extra(nextCommittee: Option<ConsensusGroup>, blkProof: Option<BlockProof>)

  // ---------------------------------------------------------------- sizes Go can hold

  predicate GroupFits(g: ConsensusGroup) {
    && TotalSize(g.validators) < UINT64_LIMIT
    && |EncodeStrings(g.validators)| < UINT64_LIMIT
    && |GroupPayload(g)| < UINT64_LIMIT
  }

  predicate ProofFits(p: BlockProof) {
    && TotalSize(Fields(p)) < UINT64_LIMIT
    && |EncodeStrings(Fields(p))| < UINT64_LIMIT
  }

  /** No length exceeds 64 bits; every value a Go program can hold satisfies this. */
  predicate Fits(x: Extra) {
    && (x.nextCommittee.Some? ==> GroupFits(x.nextCommittee.value))
    && (x.blkProof.Some? ==> ProofFits(x.blkProof.value))
    && |ExtraPayload(x)| < UINT64_LIMIT
  }

  // ---------------------------------------------------------------- encoding

  function Fields(p: BlockProof): seq<bytes> {
    [p.pubKeys, p.checksum, p.r, p.s]
  }

  function GroupPayload(g: ConsensusGroup): bytes
    requires TotalSize(g.validators) < UINT64_LIMIT && |EncodeStrings(g.validators)| < UINT64_LIMIT
  {
    EightBytes(g.blockNo);
    Encode(Bytes(BigEndian(g.blockNo))) + Encode(List(EncodeStrings(g.validators)))
  }

  function CommitteeItem(g: Option<ConsensusGroup>): Item
    requires g.Some? ==> GroupFits(g.value)
  {
    List(if g.None? then [] else GroupPayload(g.value))
  }

  function ProofItem(p: Option<BlockProof>): Item
    requires p.Some? ==> ProofFits(p.value)
  {
    List(if p.None? then [] else EncodeStrings(Fields(p.value)))
  }

  function ExtraPayload(x: Extra): bytes
    requires x.nextCommittee.Some? ==> GroupFits(x.nextCommittee.value)
    requires x.blkProof.Some? ==> ProofFits(x.blkProof.value)
  {
    Encode(CommitteeItem(x.nextCommittee)) + Encode(ProofItem(x.blkProof))
  }

  function EncodeExtra(x: Extra): bytes
    requires Fits(x)
  {
    Encode(List(ExtraPayload(x)))
  }

  // ---------------------------------------------------------------- decoding

  /** A 64-bit integer: at most eight bytes, no leading zero. */
  function DecodeUint64(c: bytes): Option<uint64> {
    if |c| > 8 || (|c| > 0 && c[0] == 0) then None
    else
      BigEndianOfNumber(c); EightBytes(Number(c));
      Some(Number(c))
  }

  function DecodeGroup(payload: bytes): Option<ConsensusGroup> {
    match Read(payload)
    case Some((Bytes(c), tail)) =>
      (match ReadWhole(tail)
       case Some(List(q)) =>
         var no, vs := DecodeUint64(c), ReadStrings(q);
         if no.None? || vs.None? then None else Some(ConsensusGroup(no.value, vs.value))
       case _ => None)
    case _ => None
  }

  function DecodeProof(payload: bytes): Option<BlockProof> {
    var fs := ReadStrings(payload);
    if fs.None? || |fs.value| != 4 then None
    else Some(BlockProof(fs.value[0], fs.value[1], fs.value[2], fs.value[3]))
  }

  /** A `rlp:"nil"` pointer: the empty list is nil, a string of any length is an error. */
  function DecodePointer<T>(i: Item, decode: bytes -> Option<T>): Option<Option<T>> {
    match i
    case Bytes(_) => None
    case List(p) =>
      if |p| == 0 then Some(None)
      else match decode(p) case None => None case Some(v) => Some(Some(v))
  }

  function DecodeExtra(b: bytes): Option<Extra> {
    match ReadWhole(b)
    case Some(List(p)) =>
      (match Read(p)
       case Some((ci, tail)) =>
         var pi := ReadWhole(tail);
         if pi.None? then None
         else
           var committee, proof := DecodePointer(ci, DecodeGroup), DecodePointer(pi.value, DecodeProof);
           if committee.None? || proof.None? then None else Some(Extra(committee.value, proof.value))
       case None => None)
    case _ => None
  }

  datatype ReadResult = ReadResult(committee: Option<ConsensusGroup>, proof: Option<BlockProof>, failed: bool)

  function ReadExtra(extra: bytes): ReadResult {
    match DecodeExtra(extra)
    case Some(x) => ReadResult(x.nextCommittee, x.blkProof, false)
    case None => ReadResult(None, None, true)
  }

  // ---------------------------------------------------------------- round trips

  lemma Uint64RoundTrip(n: uint64)
    ensures DecodeUint64(BigEndian(n)) == Some(n)
  {
    EightBytes(n);
    NumberOfBigEndian(n);
  }

  lemma GroupFromParts(no: bytes, vs: seq<bytes>)
    requires |no| < UINT64_LIMIT && TotalSize(vs) < UINT64_LIMIT && |EncodeStrings(vs)| < UINT64_LIMIT
    requires DecodeUint64(no).Some?
    ensures DecodeGroup(Encode(Bytes(no)) + Encode(List(EncodeStrings(vs)))) ==
              Some(ConsensusGroup(DecodeUint64(no).value, vs))
  {
    var second := List(EncodeStrings(vs));
    ReadEncoded(Bytes(no), Encode(second));
    ReadWholeEncoded(second);
    ReadEncodedStrings(vs);
  }

  lemma GroupRoundTrip(g: ConsensusGroup)
    requires GroupFits(g)
    ensures DecodeGroup(GroupPayload(g)) == Some(g)
  {
    EightBytes(g.blockNo);
    Uint64RoundTrip(g.blockNo);
    GroupFromParts(BigEndian(g.blockNo), g.validators);
  }

  lemma ProofRoundTrip(p: BlockProof)
    requires ProofFits(p)
    ensures DecodeProof(EncodeStrings(Fields(p))) == Some(p)
  {
    ReadEncodedStrings(Fields(p));
  }

  lemma ExtraFromParts(ci: Item, pi: Item, committee: Option<ConsensusGroup>, proof: Option<BlockProof>)
    requires ci.List? && |ci.payload| < UINT64_LIMIT && pi.List? && |pi.payload| < UINT64_LIMIT
    requires |Encode(ci) + Encode(pi)| < UINT64_LIMIT
    requires DecodePointer(ci, DecodeGroup) == Some(committee) && DecodePointer(pi, DecodeProof) == Some(proof)
    ensures DecodeExtra(Encode(List(Encode(ci) + Encode(pi)))) == Some(Extra(committee, proof))
  {
    ReadWholeEncoded(List(Encode(ci) + Encode(pi)));
    ReadEncoded(ci, Encode(pi));
    ReadWholeEncoded(pi);
  }

  /** Encoding and reading back any extra data, with either pointer nil or not. */
  lemma ExtraRoundTrip(x: Extra)
    requires Fits(x)
    ensures DecodeExtra(EncodeExtra(x)) == Some(x)
    ensures ReadExtra(EncodeExtra(x)) == ReadResult(x.nextCommittee, x.blkProof, false)
  {
    if x.nextCommittee.Some? {
      GroupRoundTrip(x.nextCommittee.value);
    }
    if x.blkProof.Some? {
      ProofRoundTrip(x.blkProof.value);
    }
    ExtraFromParts(CommitteeItem(x.nextCommittee), ProofItem(x.blkProof), x.nextCommittee, x.blkProof);
  }

  lemma Uint64IsCanonical(no: bytes)
    requires DecodeUint64(no).Some?
    ensures BigEndian(DecodeUint64(no).value) == no
  {
    BigEndianOfNumber(no);
  }

  /** The two items of a group: its number and its list of validators. */
  lemma GroupItems(payload: bytes) returns (no: bytes, q: bytes)
    requires DecodeGroup(payload).Some? && |payload| < UINT64_LIMIT
    ensures |no| < UINT64_LIMIT && |q| < UINT64_LIMIT
    ensures payload == Encode(Bytes(no)) + Encode(List(q)) && |q| <= |payload|
    ensures DecodeUint64(no).Some? && ReadStrings(q).Some?
    ensures DecodeGroup(payload).value == ConsensusGroup(DecodeUint64(no).value, ReadStrings(q).value)
  {
    ReadIsCanonical(payload);
    var (i, tail) := Read(payload).value;
    no := i.content;
    q := ListItem(tail);
  }

  lemma ListItem(b: bytes) returns (q: bytes)
    requires |b| < UINT64_LIMIT && ReadWhole(b).Some? && ReadWhole(b).value.List?
    ensures ReadWhole(b) == Some(List(q)) && |q| < UINT64_LIMIT && |q| <= |b| && b == Encode(List(q))
  {
    ReadWholeIsCanonical(b);
    q := ReadWhole(b).value.payload;
  }

  lemma GroupOfItems(g: ConsensusGroup, no: bytes, q: bytes)
    requires no == BigEndian(g.blockNo) && TotalSize(g.validators) < UINT64_LIMIT && q == EncodeStrings(g.validators)
    requires |no| < UINT64_LIMIT && |q| < UINT64_LIMIT
    ensures GroupPayload(g) == Encode(Bytes(no)) + Encode(List(q))
  {
  }

  lemma DecodedGroupIsCanonical(payload: bytes)
    requires DecodeGroup(payload).Some? && |payload| < UINT64_LIMIT
    ensures var g := DecodeGroup(payload).value; GroupFits(g) && GroupPayload(g) == payload
  {
    var no, q := GroupItems(payload);
    Uint64IsCanonical(no);
    ReadStringsIsCanonical(q);
    GroupOfItems(DecodeGroup(payload).value, no, q);
  }

  lemma DecodedProofIsCanonical(payload: bytes)
    requires DecodeProof(payload).Some? && |payload| < UINT64_LIMIT
    ensures var p := DecodeProof(payload).value; ProofFits(p) && EncodeStrings(Fields(p)) == payload
  {
    ReadStringsIsCanonical(payload);
    assert Fields(DecodeProof(payload).value) == ReadStrings(payload).value;
  }

  /** Extra data that reads without error has one spelling only: the encoder's. */
  lemma DecodedExtraIsCanonical(b: bytes)
    requires DecodeExtra(b).Some? && |b| < UINT64_LIMIT
    ensures var x := DecodeExtra(b).value; Fits(x) && EncodeExtra(x) == b
  {
    ReadWholeIsCanonical(b);
    var p := ReadWhole(b).value.payload;
    ReadIsCanonical(p);
    var (ci, tail) := Read(p).value;
    ReadWholeIsCanonical(tail);
    var pi := ReadWhole(tail).value;
    if |ci.payload| > 0 {
      DecodedGroupIsCanonical(ci.payload);
    }
    if |pi.payload| > 0 {
      DecodedProofIsCanonical(pi.payload);
    }
  }

  /** Where things are: the committee before the proof, a nil pointer as the empty list, the
      block number before the validators, the proof's strings in their declared order. */
  lemma KnownProofLayout()
    ensures var x := Extra(None, Some(BlockProof([1], [2], [3], [4])));
            Fits(x) && EncodeExtra(x) == [0xC6, 0xC0, 0xC4, 1, 2, 3, 4]
  {
    FourStrings(1, 2, 3, 4);
    ShortLists([], [1, 2, 3, 4], [0xC0, 0xC4, 1, 2, 3, 4]);
  }

  lemma KnownCommitteeLayout()
    ensures var x := Extra(Some(ConsensusGroup(5, [[7], [8]])), None);
            Fits(x) && EncodeExtra(x) == [0xC6, 0xC4, 5, 0xC2, 7, 8, 0xC0]
  {
    var g := ConsensusGroup(5, [[7], [8]]);
    CommitteeBytes(g);
    ShortLists([7, 8], [5, 0xC2, 7, 8], [0xC4, 5, 0xC2, 7, 8, 0xC0]);
    assert Encode(CommitteeItem(Some(g))) == [0xC4, 5, 0xC2, 7, 8];
  }

  lemma CommitteeBytes(g: ConsensusGroup)
    requires g == ConsensusGroup(5, [[7], [8]])
    ensures GroupFits(g) && GroupPayload(g) == [5, 0xC2, 7, 8]
  {
    StringsOfBytes(7, 8);
    ShortLists([7, 8], [], []);
    assert BigEndian(5) == [5];
  }

  lemma ShortLists(a: bytes, b: bytes, c: bytes)
    requires |a| < 56 && |b| < 56 && |c| < 56
    ensures Encode(List(a)) == [0xC0 + |a|] + a && Encode(List(b)) == [0xC0 + |b|] + b
    ensures Encode(List(c)) == [0xC0 + |c|] + c && Encode(List([])) == [0xC0]
  {
  }

  lemma StringsOfBytes(a: byte, b: byte)
    requires a < 0x80 && b < 0x80
    ensures TotalSize([[a], [b]]) == 2 && EncodeStrings([[a], [b]]) == [a, b]
  {
    assert [[a], [b]][1..] == [[b]] && [[b]][1..] == [];
    assert TotalSize([[b]]) == 1 && EncodeStrings([[b]]) == [b] + EncodeStrings([]);
    assert EncodeStrings([[a], [b]]) == [a] + EncodeStrings([[b]]);
  }

  lemma FourStrings(a: byte, b: byte, c: byte, d: byte)
    requires a < 0x80 && b < 0x80 && c < 0x80 && d < 0x80
    ensures TotalSize([[a], [b], [c], [d]]) == 4 && EncodeStrings([[a], [b], [c], [d]]) == [a, b, c, d]
  {
    StringsOfBytes(c, d);
    assert [[b], [c], [d]][1..] == [[c], [d]] && [[a], [b], [c], [d]][1..] == [[b], [c], [d]];
    assert EncodeStrings([[b], [c], [d]]) == [b] + EncodeStrings([[c], [d]]);
    assert EncodeStrings([[a], [b], [c], [d]]) == [a] + EncodeStrings([[b], [c], [d]]);
  }
}
