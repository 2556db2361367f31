/** Recursive Length Prefix items, as in Appendix B of the Ethereum Yellow Paper, with
    the canonical-form checks of the Go `rlp` decoder (that package is not part of this
    model): shortest length prefix, no leading zeros, nothing left over. */
module Rlp {
  import opened Wrappers

  type byte = x: int | 0 <= x < 256
  type bytes = seq<byte>

  datatype Item = Bytes(content: bytes) | List(payload: bytes)

  // ---------------------------------------------------------------- big-endian numbers

  function BigEndian(n: nat): (b: bytes)
    ensures n > 0 ==> |b| > 0 && b[0] != 0
    ensures |b| == 0 <==> n == 0
  {
    if n == 0 then [] else BigEndian(n / 256) + [n % 256]
  }

  function Number(b: bytes): nat {
    if |b| == 0 then 0 else Number(b[..|b| - 1]) * 256 + b[|b| - 1]
  }

  lemma {:induction false} NumberOfBigEndian(n: nat)
    ensures Number(BigEndian(n)) == n
  {
    if n > 0 {
      NumberOfBigEndian(n / 256);
      assert BigEndian(n)[..|BigEndian(n)| - 1] == BigEndian(n / 256);
    }
  }

  /** Without a leading zero the bytes are the shortest, hence the encoder's own. */
  lemma {:induction false} BigEndianOfNumber(b: bytes)
    requires |b| > 0 ==> b[0] != 0
    ensures BigEndian(Number(b)) == b
  {
    if |b| > 0 {
      var front := b[..|b| - 1];
      BigEndianOfNumber(front);
      assert Number(b) / 256 == Number(front) && Number(b) % 256 == b[|b| - 1];
      if |b| > 1 {
        assert Number(front) > 0;
      }
      assert b == front + [b[|b| - 1]];
    }
  }

  function Pow256(k: nat): (p: nat)
    ensures p > 0
  {
    if k == 0 then 1 else 256 * Pow256(k - 1)
  }

  /** k bytes hold exactly the numbers below 256^k. */
  lemma {:induction false} BigEndianWidth(n: nat, k: nat)
    ensures |BigEndian(n)| <= k <==> n < Pow256(k)
  {
    if n > 0 && k > 0 {
      BigEndianWidth(n / 256, k - 1);
    }
  }

  /** Eight bytes hold exactly the 64-bit numbers. */
  lemma EightBytes(n: nat)
    ensures |BigEndian(n)| <= 8 <==> n < UINT64_LIMIT
  {
    BigEndianWidth(n, 8);
    assert Pow256(4) == 0x1_0000_0000;
    assert Pow256(8) == UINT64_LIMIT;
  }

  // ---------------------------------------------------------------- one item

  /** The prefix that announces n bytes of payload; base is 0x80 or 0xC0. */
  function Prefix(base: byte, n: nat): bytes
    requires base == 0x80 || base == 0xC0
    requires n < UINT64_LIMIT
  {
    if n < 56 then [base + n]
    else
      EightBytes(n);
      [base + 55 + |BigEndian(n)|] + BigEndian(n)
  }

  function Encode(i: Item): (b: bytes)
    requires (if i.Bytes? then |i.content| else |i.payload|) < UINT64_LIMIT
    ensures |b| > 0
  {
    match i
    case Bytes(c) => if |c| == 1 && c[0] < 0x80 then c else Prefix(0x80, |c|) + c
    case List(p) => Prefix(0xC0, |p|) + p
  }

  /** The payload length announced by a tag with offset d from its base, and how many bytes
      after the tag announced it. */
  function ReadLength(d: nat, rest: bytes): (r: Option<(nat, nat)>)
    requires d < 0x40
    ensures r.Some? ==> r.value.0 + r.value.1 <= |rest|
  {
    if d < 56 then
      if d <= |rest| then Some((d, 0)) else None
    else
      var w := d - 55;
      if |rest| < w || rest[0] == 0 then None
      else
        var n := Number(rest[..w]);
        if n < 56 || |rest| - w < n then None else Some((n, w))
  }

  function Read(b: bytes): (r: Option<(Item, bytes)>)
    ensures r.Some? ==> |r.value.1| < |b|
  {
    if |b| == 0 then None
    else if b[0] < 0x80 then Some((Bytes(b[..1]), b[1..]))
    else
      var rest := b[1..];
      match ReadLength(if b[0] >= 0xC0 then b[0] - 0xC0 else b[0] - 0x80, rest)
      case None => None
      case Some((n, w)) =>
        var content := rest[w..w + n];
        if b[0] >= 0xC0 then Some((List(content), rest[w + n..]))
        else if n == 1 && content[0] < 0x80 then None
        else Some((Bytes(content), rest[w + n..]))
  }

  lemma LongPrefix(base: byte, n: nat) returns (be: bytes)
    requires base == 0x80 || base == 0xC0
    requires 56 <= n < UINT64_LIMIT
    ensures 0 < |be| <= 8 && be[0] != 0 && Number(be) == n
    ensures Prefix(base, n) == [base + 55 + |be|] + be
  {
    EightBytes(n);
    NumberOfBigEndian(n);
    be := BigEndian(n);
  }

  lemma ReadLongLength(be: bytes, tail: bytes)
    requires 0 < |be| <= 8 && be[0] != 0
    requires 56 <= Number(be) <= |tail|
    ensures ReadLength(55 + |be|, be + tail) == Some((Number(be), |be|))
  {
    assert (be + tail)[..|be|] == be;
  }

  lemma ReadPrefix(base: byte, n: nat, tail: bytes)
    requires base == 0x80 || base == 0xC0
    requires n < UINT64_LIMIT && n <= |tail|
    ensures var b := Prefix(base, n) + tail;
            && base <= b[0] < base + 0x40
            && ReadLength(b[0] - base, b[1..]) == Some((n, |Prefix(base, n)| - 1))
  {
    if n >= 56 {
      var be := LongPrefix(base, n);
      ReadLongLength(be, tail);
      Headed(base + 55 + |be|, be, tail);
    } else {
      assert Prefix(base, n) == [base + n] + [];
      Headed(base + n, [], tail);
      assert [] + tail == tail;
    }
  }

  lemma Headed(x: byte, s: bytes, tail: bytes)
    ensures var b := [x] + s + tail; b[0] == x && b[1..] == s + tail
  {
  }

  lemma Slices(p: bytes, c: bytes, tail: bytes)
    requires |p| > 0
    ensures var b := p + c + tail;
            var w := |p| - 1;
            && b == p + (c + tail)
            && b[1..][w..w + |c|] == c
            && b[1..][w + |c|..] == tail
  {
  }

  lemma ReadTagged(base: byte, p: bytes, c: bytes, tail: bytes)
    requires base == 0x80 || base == 0xC0
    requires |p| > 0 && base <= p[0] < base + 0x40
    requires ReadLength(p[0] - base, (p + (c + tail))[1..]) == Some((|c|, |p| - 1))
    requires base == 0x80 ==> !(|c| == 1 && c[0] < 0x80)
    ensures Read(p + c + tail) == Some((if base == 0xC0 then List(c) else Bytes(c), tail))
  {
    Slices(p, c, tail);
    assert (p + c + tail)[0] == p[0];
  }

  /** Reading an encoded item gives it back and leaves the bytes that follow. */
  lemma ReadEncoded(i: Item, tail: bytes)
    requires (if i.Bytes? then |i.content| else |i.payload|) < UINT64_LIMIT
    ensures Read(Encode(i) + tail) == Some((i, tail))
  {
    if i.Bytes? && |i.content| == 1 && i.content[0] < 0x80 {
      assert (i.content + tail)[..1] == i.content && (i.content + tail)[1..] == tail;
    } else {
      var base, c := if i.Bytes? then 0x80 else 0xC0, if i.Bytes? then i.content else i.payload;
      ReadPrefix(base, |c|, c + tail);
      ReadTagged(base, Prefix(base, |c|), c, tail);
    }
  }

  lemma LengthIsCanonical(base: byte, d: nat, rest: bytes)
    requires base == 0x80 || base == 0xC0
    requires d < 0x40 && |rest| < UINT64_LIMIT
    requires ReadLength(d, rest).Some?
    ensures var (n, w) := ReadLength(d, rest).value;
            n < UINT64_LIMIT && Prefix(base, n) == [base + d] + rest[..w]
  {
    var (n, w) := ReadLength(d, rest).value;
    if w > 0 {
      BigEndianOfNumber(rest[..w]);
    }
  }

  lemma Reassembled(b: bytes, w: nat, n: nat)
    requires |b| > w + n
    ensures b == [b[0]] + b[1..][..w] + b[1..][w..w + n] + b[1..][w + n..]
  {
  }

  /** What a successful read of a tagged item took its input apart into. */
  lemma ReadParts(b: bytes) returns (base: byte, n: nat, w: nat, content: bytes, tail: bytes)
    requires Read(b).Some? && b[0] >= 0x80
    ensures base == (if b[0] >= 0xC0 then 0xC0 else 0x80)
    ensures ReadLength(b[0] - base, b[1..]) == Some((n, w))
    ensures w + n <= |b| - 1 && |content| == n
    ensures b == [b[0]] + b[1..][..w] + content + tail
    ensures Read(b).value == (if base == 0xC0 then List(content) else Bytes(content), tail)
    ensures base == 0x80 ==> !(n == 1 && content[0] < 0x80)
  {
    base := if b[0] >= 0xC0 then 0xC0 else 0x80;
    var (n', w') := ReadLength(b[0] - base, b[1..]).value;
    n, w := n', w';
    content, tail := b[1..][w..w + n], b[1..][w + n..];
    Reassembled(b, w, n);
  }

  /** Whatever is read was the canonical encoding: the decoder accepts nothing else. */
  lemma ReadIsCanonical(b: bytes)
    requires Read(b).Some? && |b| <= UINT64_LIMIT
    ensures var (i, tail) := Read(b).value;
            && (if i.Bytes? then |i.content| else |i.payload|) < UINT64_LIMIT
            && b == Encode(i) + tail
  {
    if b[0] >= 0x80 {
      var base, n, w, content, tail := ReadParts(b);
      LengthIsCanonical(base, b[0] - base, b[1..]);
    } else {
      assert b == b[..1] + b[1..];
    }
  }

  /** An item that must fill its input: trailing bytes are an error. */
  function ReadWhole(b: bytes): Option<Item> {
    match Read(b)
    case Some((i, tail)) => if |tail| == 0 then Some(i) else None
    case None => None
  }

  lemma ReadWholeEncoded(i: Item)
    requires (if i.Bytes? then |i.content| else |i.payload|) < UINT64_LIMIT
    ensures ReadWhole(Encode(i)) == Some(i)
  {
    ReadEncoded(i, []);
    assert Encode(i) + [] == Encode(i);
  }

  lemma ReadWholeIsCanonical(b: bytes)
    requires ReadWhole(b).Some? && |b| <= UINT64_LIMIT
    ensures var i := ReadWhole(b).value;
            (if i.Bytes? then |i.content| else |i.payload|) < UINT64_LIMIT && b == Encode(i)
  {
    ReadIsCanonical(b);
    assert Encode(Read(b).value.0) + [] == Encode(Read(b).value.0);
  }

  // ---------------------------------------------------------------- runs of strings

  function TotalSize(ss: seq<bytes>): nat {
    if |ss| == 0 then 0 else |ss[0]| + TotalSize(ss[1..])
  }

  function EncodeStrings(ss: seq<bytes>): bytes
    requires TotalSize(ss) < UINT64_LIMIT
  {
    if |ss| == 0 then [] else Encode(Bytes(ss[0])) + EncodeStrings(ss[1..])
  }

  function ReadStrings(b: bytes): Option<seq<bytes>>
    decreases |b|
  {
    if |b| == 0 then Some([])
    else
      match Read(b)
      case Some((Bytes(c), tail)) =>
        (match ReadStrings(tail)
         case Some(ss) => Some([c] + ss)
         case None => None)
      case _ => None
  }

  lemma {:induction false} ReadEncodedStrings(ss: seq<bytes>)
    requires TotalSize(ss) < UINT64_LIMIT
    ensures ReadStrings(EncodeStrings(ss)) == Some(ss)
  {
    if |ss| > 0 {
      ReadEncoded(Bytes(ss[0]), EncodeStrings(ss[1..]));
      ReadEncodedStrings(ss[1..]);
      assert [ss[0]] + ss[1..] == ss;
    }
  }

  lemma {:induction false} ReadStringsIsCanonical(b: bytes)
    requires ReadStrings(b).Some? && |b| < UINT64_LIMIT
    ensures var ss := ReadStrings(b).value; TotalSize(ss) <= |b| && b == EncodeStrings(ss)
    decreases |b|
  {
    if |b| > 0 {
      ReadIsCanonical(b);
      var (i, tail) := Read(b).value;
      ReadStringsIsCanonical(tail);
      var ss := ReadStrings(b).value;
      assert ss[1..] == ReadStrings(tail).value;
    }
  }

  // ---------------------------------------------------------------- known encodings

  /** The examples that come with the format: "dog", the empty string and list, a byte that
      stands for itself and one that does not. */
  lemma KnownShortEncodings()
    ensures Encode(Bytes([0x64, 0x6F, 0x67])) == [0x83, 0x64, 0x6F, 0x67]
    ensures Encode(Bytes([])) == [0x80] && Encode(List([])) == [0xC0]
    ensures Encode(Bytes([0x0F])) == [0x0F] && Encode(Bytes([0x80])) == [0x81, 0x80]
  {
  }

  /** The number 1024, most significant byte first. */
  lemma KnownNumber()
    ensures BigEndian(1024) == [0x04, 0x00] && Encode(Bytes([0x04, 0x00])) == [0x82, 0x04, 0x00]
  {
    assert BigEndian(1024) == BigEndian(4) + [0] && BigEndian(4) == [4];
  }

  /** The list of "cat" and "dog". */
  lemma KnownList()
    ensures TotalSize([[0x63, 0x61, 0x74], [0x64, 0x6F, 0x67]]) == 6
    ensures EncodeStrings([[0x63, 0x61, 0x74], [0x64, 0x6F, 0x67]]) == [0x83, 0x63, 0x61, 0x74, 0x83, 0x64, 0x6F, 0x67]
    ensures Encode(List([0x83, 0x63, 0x61, 0x74, 0x83, 0x64, 0x6F, 0x67])) ==
              [0xC8, 0x83, 0x63, 0x61, 0x74, 0x83, 0x64, 0x6F, 0x67]
  {
    var cat, dog: bytes := [0x63, 0x61, 0x74], [0x64, 0x6F, 0x67];
    TwoStrings(cat, dog);
  }

  lemma TwoStrings(a: bytes, b: bytes)
    requires 1 < |a| < 56 && 1 < |b| < 56
    ensures TotalSize([a, b]) == |a| + |b| && EncodeStrings([a, b]) == [0x80 + |a|] + a + [0x80 + |b|] + b
  {
    assert [a, b][1..] == [b] && [b][1..] == [];
    assert TotalSize([b]) == |b| + TotalSize([]);
    assert EncodeStrings([b]) == Encode(Bytes(b)) + EncodeStrings([]);
    assert EncodeStrings([a, b]) == Encode(Bytes(a)) + EncodeStrings([b]);
  }

  /** From 56 bytes on the length has bytes of its own. */
  lemma KnownLengths(b: bytes)
    ensures |b| == 55 ==> Encode(Bytes(b)) == [0xB7] + b && Encode(List(b)) == [0xF7] + b
    ensures |b| == 56 ==> Encode(Bytes(b)) == [0xB8, 56] + b && Encode(List(b)) == [0xF8, 56] + b
    ensures |b| == 1024 ==> Encode(Bytes(b)) == [0xB9, 4, 0] + b && Encode(List(b)) == [0xF9, 4, 0] + b
  {
    assert BigEndian(56) == [56];
    assert BigEndian(1024) == BigEndian(4) + [0] && BigEndian(4) == [4];
  }
}
