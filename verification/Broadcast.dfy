/** Spreading new transactions: each goes in full to the square root of the peers that lack
    it and as an announcement to the others.  Models `BroadcastTransactions` of
    eth/handler.go. */
module Broadcast {
  import opened MapSums

  type Peer = nat
  type TxHash = nat

  /** `int(math.Sqrt(float64(n)))`, for as many peers as a node can have. */
  function ISqrt(n: nat): (r: nat)
    ensures r <= n
  {
    if n == 0 then 0
    else
      var r := ISqrt(n - 1);
      if r < n && (r + 1) * (r + 1) <= n then r + 1 else r
  }

  lemma {:induction false} ISqrtRoundsDown(n: nat)
    ensures ISqrt(n) * ISqrt(n) <= n < (ISqrt(n) + 1) * (ISqrt(n) + 1)
  {
    if n > 0 {
      var r := ISqrt(n - 1);
      ISqrtRoundsDown(n - 1);
      assert (r + 1) * (r + 1) <= n ==> r < n;
      assert (r + 2) * (r + 2) == (r + 1) * (r + 1) + 2 * r + 3;
    }
  }

  /** The root is the only number with that property. */
  lemma ISqrtIsUnique(n: nat, r: nat)
    ensures r * r <= n < (r + 1) * (r + 1) <==> r == ISqrt(n)
  {
    ISqrtRoundsDown(n);
    var s := ISqrt(n);
    if r < s {
      SquareMonotonic(r + 1, s);
    } else if s < r {
      SquareMonotonic(s + 1, r);
    }
  }

  lemma SquareMonotonic(a: nat, b: nat)
    requires a <= b
    ensures a * a <= b * b
  {
    assert b * b == a * a + (b - a) * (b + a);
  }

  predicate Distinct(peers: seq<Peer>) {
    forall i, j | 0 <= i < j < |peers| :: peers[i] != peers[j]
  }

  type NoRepeats = peers: seq<Peer> | Distinct(peers) witness []

  /** One transaction of the list, with what `peersWithoutTransaction` answers at its turn.  It
      reads a map of peers: no peer twice, but in an order that may differ when the same
      transaction comes again. */
  datatype Offer = Offer(hash: TxHash, lacking: NoRepeats)

  function Everyone(o: Offer): NoRepeats {
    o.lacking
  }

  /** The peers that are sent a transaction in full. */
  function Direct(o: Offer): NoRepeats {
    o.lacking[..ISqrt(|o.lacking|)]
  }

  /** The peers that are only told about it. */
  function Announce(o: Offer): NoRepeats {
    o.lacking[ISqrt(|o.lacking|)..]
  }

  /** Each peer that lacks a transaction is on exactly one of the two sides. */
  lemma SidesPartition(o: Offer, p: Peer)
    ensures p in o.lacking <==> p in Direct(o) || p in Announce(o)
    ensures !(p in Direct(o) && p in Announce(o))
    ensures |Direct(o)| == ISqrt(|o.lacking|)
    ensures |Direct(o)| + |Announce(o)| == |o.lacking| && o.lacking == Direct(o) + Announce(o)
  {
    assert o.lacking == Direct(o) + Announce(o);
  }

  type Side = Offer -> NoRepeats

  type Batches = map<Peer, seq<TxHash>>

  function BatchOf(m: Batches, p: Peer): seq<TxHash> {
    if p in m then m[p] else []
  }

  function Lengths(m: Batches): map<Peer, nat> {
    map p | p in m :: |m[p]|
  }

  /** The transactions, in order, for which a peer is among the chosen ones. */
  function Chosen(offers: seq<Offer>, side: Side, p: Peer): seq<TxHash> {
    if |offers| == 0 then []
    else
      var n := |offers| - 1;
      Chosen(offers[..n], side, p) + if p in side(offers[n]) then [offers[n].hash] else []
  }

  function Placements(offers: seq<Offer>, side: Side): nat {
    if |offers| == 0 then 0 else Placements(offers[..|offers| - 1], side) + |side(offers[|offers| - 1])|
  }

  /** `m[peer] = append(m[peer], h)` over a list of peers. */
  method AppendAll(m: Batches, peers: seq<Peer>, h: TxHash) returns (r: Batches)
    requires Distinct(peers)
    ensures forall p :: BatchOf(r, p) == BatchOf(m, p) + if p in peers then [h] else []
    ensures Sum(Lengths(r)) == Sum(Lengths(m)) + |peers|
  {
    r := m;
    for i := 0 to |peers|
      invariant forall p :: BatchOf(r, p) == BatchOf(m, p) + if p in peers[..i] then [h] else []
      invariant Sum(Lengths(r)) == Sum(Lengths(m)) + i
    {
      var p := peers[i];
      ghost var before := r;
      r := r[p := BatchOf(r, p) + [h]];
      AppendLength(before, p, h);
      assert p !in peers[..i];
      assert peers[..i + 1] == peers[..i] + [p];
    }
    assert peers[..|peers|] == peers;
  }

  lemma AppendLength(m: Batches, p: Peer, h: TxHash)
    ensures Sum(Lengths(m[p := BatchOf(m, p) + [h]])) == Sum(Lengths(m)) + 1
  {
    var l := Lengths(m);
    SumUpdate(l, p, |BatchOf(m, p)| + 1);
    assert Lengths(m[p := BatchOf(m, p) + [h]]) == l[p := |BatchOf(m, p)| + 1];
    if p in m {
      SumWithout(l, p);
    } else {
      assert l - {p} == l;
    }
  }

  /** The counting loop over a batch map. */
  method Count(m: Batches) returns (hashes: nat)
    ensures hashes == Sum(Lengths(m))
  {
    hashes := 0;
    var rest := m;
    while |rest| > 0
      invariant hashes + Sum(Lengths(rest)) == Sum(Lengths(m))
      decreases |rest.Keys|
    {
      assert rest.Keys != {};
      var p :| p in rest;
      SumWithout(Lengths(rest), p);
      assert Lengths(rest) - {p} == Lengths(rest - {p});
      assert (rest - {p}).Keys == rest.Keys - {p} && p in rest.Keys;
      hashes := hashes + |rest[p]|;
      rest := rest - {p};
    }
    assert rest == map[];
  }

  /** The batches hold, for every peer, what was chosen for it out of some transactions. */
  ghost predicate Holds(m: Batches, offers: seq<Offer>, side: Side) {
    && (forall p :: BatchOf(m, p) == Chosen(offers, side, p))
    && Sum(Lengths(m)) == Placements(offers, side)
  }

  method Place(m: Batches, ghost done: seq<Offer>, o: Offer, peers: NoRepeats, ghost side: Side) returns (r: Batches)
    requires Holds(m, done, side) && peers == side(o)
    ensures Holds(r, done + [o], side)
  {
    r := AppendAll(m, peers, o.hash);
    assert (done + [o])[..|done|] == done;
  }

  /** The first loop: fill the two maps, transaction by transaction. */
  method Distribute(offers: seq<Offer>) returns (txset: Batches, annos: Batches)
    ensures Holds(txset, offers, Direct) && Holds(annos, offers, Announce)
  {
    txset, annos := map[], map[];
    for i := 0 to |offers|
      invariant Holds(txset, offers[..i], Direct) && Holds(annos, offers[..i], Announce)
    {
      var o := offers[i];
      var numDirect := ISqrt(|o.lacking|);
      txset := Place(txset, offers[..i], o, o.lacking[..numDirect], Direct);
      annos := Place(annos, offers[..i], o, o.lacking[numDirect..], Announce);
      assert offers[..i + 1] == offers[..i] + [o];
    }
    assert offers[..|offers|] == offers;
  }

  /** Every peer receives, in order, exactly the transactions it was chosen for, and the
      counters add up to every pair of an offer and a peer that lacks it. */
  method BroadcastTransactions(offers: seq<Offer>)
    returns (txset: Batches, annos: Batches, directCount: nat, annoCount: nat)
    ensures forall p :: BatchOf(txset, p) == Chosen(offers, Direct, p)
    ensures forall p :: BatchOf(annos, p) == Chosen(offers, Announce, p)
    ensures directCount == Placements(offers, Direct)
    ensures directCount + annoCount == Placements(offers, Everyone)
  {
    txset, annos := Distribute(offers);
    directCount := Count(txset);
    annoCount := Count(annos);
    PlacementsAddUp(offers);
  }

  lemma {:induction false} PlacementsAddUp(offers: seq<Offer>)
    ensures Placements(offers, Direct) + Placements(offers, Announce) == Placements(offers, Everyone)
  {
    if |offers| > 0 {
      PlacementsAddUp(offers[..|offers| - 1]);
    }
  }

  // ---------------------------------------------------------------- where each occurrence goes

  /** The occurrences that make up a peer's list, in order. */
  function Places(offers: seq<Offer>, side: Side, p: Peer): seq<nat>
  {
    if |offers| == 0 then []
    else
      var n: nat := |offers| - 1;
      Places(offers[..n], side, p) + if p in side(offers[n]) then [n] else []
  }

  /** A list of hashes is, in order, that of just those occurrences at which p was chosen. */
  predicate InOrder(offers: seq<Offer>, side: Side, p: Peer, at: seq<nat>, list: seq<TxHash>) {
    && |list| == |at|
    && (forall k | 0 <= k < |at| :: at[k] < |offers| && list[k] == offers[at[k]].hash)
    && (forall k, l | 0 <= k < l < |at| :: at[k] < at[l])
    && (forall i | 0 <= i < |offers| :: i in at <==> p in side(offers[i]))
  }

  lemma InOrderGrows(offers: seq<Offer>, side: Side, p: Peer, at: seq<nat>, list: seq<TxHash>, o: Offer)
    requires InOrder(offers, side, p, at, list)
    ensures if p in side(o) then InOrder(offers + [o], side, p, at + [|offers|], list + [o.hash])
            else InOrder(offers + [o], side, p, at, list)
  {
    var n := |offers|;
    assert forall i | 0 <= i < n :: (offers + [o])[i] == offers[i];
    assert n !in at;
    if p in side(o) {
      assert forall i | 0 <= i < n :: i in at + [n] <==> i in at;
      assert (at + [n])[|at|] == n;
    }
  }

  lemma {:induction false} ChosenInOrder(offers: seq<Offer>, side: Side, p: Peer)
    ensures InOrder(offers, side, p, Places(offers, side, p), Chosen(offers, side, p))
  {
    if |offers| > 0 {
      var n := |offers| - 1;
      ChosenInOrder(offers[..n], side, p);
      InOrderGrows(offers[..n], side, p, Places(offers[..n], side, p), Chosen(offers[..n], side, p), offers[n]);
      assert offers[..n] + [offers[n]] == offers;
      assert Places(offers[..n], side, p) + [] == Places(offers[..n], side, p);
      assert Chosen(offers[..n], side, p) + [] == Chosen(offers[..n], side, p);
    }
  }

  /** Every occurrence of a transaction that a peer lacks is in exactly one of the peer's two
      lists; nothing else is. */
  lemma NothingLostOrDoubled(offers: seq<Offer>, p: Peer, i: nat)
    requires i < |offers|
    ensures var direct, announced := i in Places(offers, Direct, p), i in Places(offers, Announce, p);
            && (direct || announced <==> p in offers[i].lacking)
            && !(direct && announced)
  {
    ChosenInOrder(offers, Direct, p);
    ChosenInOrder(offers, Announce, p);
    SidesPartition(offers[i], p);
  }

  /** No peer gets a hash both in full and as an announcement. */
  ghost predicate OneWay(offers: seq<Offer>) {
    forall p: Peer, h: TxHash :: !(h in Chosen(offers, Direct, p) && h in Chosen(offers, Announce, p))
  }

  /** The offers that can be made of a caller's list of transactions. */
  predicate OffersOf(offers: seq<Offer>, hs: seq<TxHash>) {
    |offers| == |hs| && forall k | 0 <= k < |hs| :: offers[k].hash == hs[k]
  }

  predicate NoRepeatedHash(hs: seq<TxHash>) {
    forall i, j | 0 <= i < j < |hs| :: hs[i] != hs[j]
  }

  /** Where a hash of a peer's list comes from. */
  lemma PlaceOf(offers: seq<Offer>, side: Side, p: Peer, h: TxHash) returns (i: nat)
    requires h in Chosen(offers, side, p)
    ensures i < |offers| && offers[i].hash == h && p in side(offers[i])
  {
    ChosenInOrder(offers, side, p);
    var k :| 0 <= k < |Chosen(offers, side, p)| && Chosen(offers, side, p)[k] == h;
    i := Places(offers, side, p)[k];
    assert i in Places(offers, side, p);
  }

  /** In a list without repeats, then, no hash goes to a peer both ways. */
  lemma NoHashBothWays(offers: seq<Offer>, hs: seq<TxHash>, p: Peer, h: TxHash)
    requires OffersOf(offers, hs) && NoRepeatedHash(hs)
    ensures !(h in Chosen(offers, Direct, p) && h in Chosen(offers, Announce, p))
  {
    if h in Chosen(offers, Direct, p) && h in Chosen(offers, Announce, p) {
      var i := PlaceOf(offers, Direct, p, h);
      var j := PlaceOf(offers, Announce, p, h);
      SidesPartition(offers[i], p);
    }
  }

  /** With a repeat one can: the two occurrences may see two peers in different orders. */
  lemma RepeatGoesBothWays(hs: seq<TxHash>, i: nat, j: nat) returns (offers: seq<Offer>)
    requires i < j < |hs| && hs[i] == hs[j]
    ensures OffersOf(offers, hs)
    ensures hs[i] in Chosen(offers, Direct, 1) && hs[i] in Chosen(offers, Announce, 1)
  {
    offers := seq(|hs|, k requires 0 <= k < |hs| => Offer(hs[k], if k <= i then [1, 2] else [2, 1]));
    assert ISqrt(2) == 1 by {
      ISqrtIsUnique(2, 1);
    }
    assert Direct(offers[i])[0] == 1 && Announce(offers[j])[0] == 1;
    AmongChosen(offers, Direct, 1, i);
    AmongChosen(offers, Announce, 1, j);
  }

  /** Exactly when a broadcast list is safe from that, whatever peers its transactions meet:
      when no transaction is listed twice. */
  lemma OneWayExactly(hs: seq<TxHash>)
    ensures (forall offers | OffersOf(offers, hs) :: OneWay(offers)) <==> NoRepeatedHash(hs)
  {
    if NoRepeatedHash(hs) {
      forall offers, p: Peer, h: TxHash | OffersOf(offers, hs)
        ensures !(h in Chosen(offers, Direct, p) && h in Chosen(offers, Announce, p))
      {
        NoHashBothWays(offers, hs, p, h);
      }
    } else {
      var i, j :| 0 <= i < j < |hs| && hs[i] == hs[j];
      var offers := RepeatGoesBothWays(hs, i, j);
      assert !OneWay(offers);
    }
  }

  lemma AmongChosen(offers: seq<Offer>, side: Side, p: Peer, i: nat)
    requires i < |offers| && p in side(offers[i])
    ensures offers[i].hash in Chosen(offers, side, p)
  {
    ChosenInOrder(offers, side, p);
    var k :| 0 <= k < |Places(offers, side, p)| && Places(offers, side, p)[k] == i;
    assert Chosen(offers, side, p)[k] == offers[i].hash;
  }
}
