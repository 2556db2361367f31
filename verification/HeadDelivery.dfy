/** Telling the external consensus about new heads, with a retry for the latest one.
    Models the new-head and timer branches of ecconnector/ecconnector.go. */
module HeadDelivery {
  import opened Wrappers
  import opened ChainTypes
  import opened Rlp
  import opened ExtraData

  datatype Head = Head(blkno: nat, bhash: Hash, bproof: Option<BlockProof>)

  /** A new block with the outcome of the send it causes, or a tick of the resend timer. */
  datatype Event =
    | NewHead(blkno: nat, bhash: Hash, extra: bytes, sendOk: bool)
    | Tick(sendOk: bool)

  /** `arrivals` are the heads whose extra data could be read, `delivered` the heads whose
      send succeeded, both as they happened. */
  datatype Link = Link(usnewhead: Option<Head>, arrivals: seq<Head>, delivered: seq<Head>)

  /** A readable head: delivered, or kept for later in place of any older one. */
  function Offer(l: Link, h: Head, sendOk: bool): Link {
    Link(if sendOk then None else Some(h), l.arrivals + [h], if sendOk then l.delivered + [h] else l.delivered)
  }

  function Resend(l: Link, sendOk: bool): Link {
    if l.usnewhead.Some? && sendOk then Link(None, l.arrivals, l.delivered + [l.usnewhead.value]) else l
  }

  function Next(l: Link, ev: Event): Link {
    match ev
    case NewHead(blkno, bhash, extra, sendOk) =>
      var read := ReadExtra(extra);
      if read.failed then l else Offer(l, Head(blkno, bhash, read.proof), sendOk)
    case Tick(sendOk) => Resend(l, sendOk)
  }

  function Run(l: Link, evs: seq<Event>): Link {
    if |evs| == 0 then l else Next(Run(l, evs[..|evs| - 1]), evs[|evs| - 1])
  }

  /** `at` says which arrival each delivery was: in order, none twice. */
  predicate Deliveries(l: Link, at: seq<nat>) {
    && |at| == |l.delivered|
    && (forall i | 0 <= i < |at| :: at[i] < |l.arrivals| && l.delivered[i] == l.arrivals[at[i]])
    && (forall i, j | 0 <= i < j < |at| :: at[i] < at[j])
  }

  predicate LatestDelivered(l: Link, at: seq<nat>) {
    |l.arrivals| == 0 || (|at| > 0 && at[|at| - 1] == |l.arrivals| - 1)
  }

  predicate LinkOk(l: Link, at: seq<nat>) {
    && Deliveries(l, at)
    && (l.usnewhead.None? <==> LatestDelivered(l, at))
    && (l.usnewhead.Some? ==> |l.arrivals| > 0 && l.usnewhead.value == l.arrivals[|l.arrivals| - 1])
  }

  /** A delivery of the latest arrival extends the subsequence. */
  lemma DeliveredLast(l: Link, at: seq<nat>)
    requires Deliveries(l, at) && |l.arrivals| > 0
    requires forall i | 0 <= i < |at| :: at[i] < |l.arrivals| - 1
    ensures var last := |l.arrivals| - 1;
            Deliveries(l.(delivered := l.delivered + [l.arrivals[last]]), at + [last])
  {
    var last := |l.arrivals| - 1;
    var at' := at + [last];
    var delivered := l.delivered + [l.arrivals[last]];
    assert forall i | 0 <= i < |at| :: at'[i] == at[i] && delivered[i] == l.delivered[i];
  }

  lemma ArrivalKeeps(l: Link, at: seq<nat>, h: Head)
    requires Deliveries(l, at)
    ensures var l' := l.(arrivals := l.arrivals + [h]);
            Deliveries(l', at) && forall i | 0 <= i < |at| :: at[i] < |l'.arrivals| - 1
  {
    assert forall k | 0 <= k < |l.arrivals| :: (l.arrivals + [h])[k] == l.arrivals[k];
  }

  lemma OfferKeeps(l: Link, at: seq<nat>, h: Head, sendOk: bool) returns (at': seq<nat>)
    requires LinkOk(l, at)
    ensures LinkOk(Offer(l, h, sendOk), at')
  {
    var arrived := l.(arrivals := l.arrivals + [h]);
    ArrivalKeeps(l, at, h);
    at' := at;
    if sendOk {
      DeliveredLast(arrived, at);
      at' := at + [|l.arrivals|];
    }
    assert Deliveries(Offer(l, h, sendOk), at');
  }

  lemma ResendKeeps(l: Link, at: seq<nat>, sendOk: bool) returns (at': seq<nat>)
    requires LinkOk(l, at)
    ensures LinkOk(Resend(l, sendOk), at')
  {
    at' := at;
    if l.usnewhead.Some? && sendOk {
      var last := |l.arrivals| - 1;
      forall i | 0 <= i < |at| ensures at[i] < last {
        assert at[|at| - 1] != last;
        assert i < |at| - 1 ==> at[i] < at[|at| - 1];
      }
      DeliveredLast(l, at);
      at' := at + [last];
    }
  }

  /** Over every run: deliveries are a subsequence of the arrivals, each arrival at most
      once; nothing is kept for resending exactly when the latest arrival was delivered (or
      none came), and otherwise what is kept is the latest arrival. */
  lemma {:induction false} NewHeadsAreDelivered(evs: seq<Event>) returns (at: seq<nat>)
    ensures var l := Run(Link(None, [], []), evs);
            && Deliveries(l, at)
            && (l.usnewhead.None? <==> LatestDelivered(l, at))
            && (l.usnewhead.Some? ==> |l.arrivals| > 0 && l.usnewhead.value == l.arrivals[|l.arrivals| - 1])
  {
    if |evs| == 0 {
      at := [];
    } else {
      var before, ev := Run(Link(None, [], []), evs[..|evs| - 1]), evs[|evs| - 1];
      at := NewHeadsAreDelivered(evs[..|evs| - 1]);
      if ev.Tick? {
        at := ResendKeeps(before, at, ev.sendOk);
      } else if !ReadExtra(ev.extra).failed {
        at := OfferKeeps(before, at, Head(ev.blkno, ev.bhash, ReadExtra(ev.extra).proof), ev.sendOk);
      }
    }
  }

  // ---------------------------------------------------------------- from the events alone

  /** The head that an event announces, if its extra data can be read. */
  function HeadOf(ev: Event): Option<Head> {
    match ev
    case NewHead(blkno, bhash, extra, _) =>
      if ReadExtra(extra).failed then None else Some(Head(blkno, bhash, ReadExtra(extra).proof))
    case Tick(_) => None
  }

  function ReadableHeads(evs: seq<Event>): seq<Head> {
    if |evs| == 0 then []
    else
      var n := |evs| - 1;
      ReadableHeads(evs[..n]) + if HeadOf(evs[n]).None? then [] else [HeadOf(evs[n]).value]
  }

  /** The arrivals are the readable heads, all of them and in order; when every send succeeds
      they are all delivered. */
  lemma {:induction false} ArrivalsAreReadable(evs: seq<Event>)
    ensures var l := Run(Link(None, [], []), evs);
            && l.arrivals == ReadableHeads(evs)
            && ((forall i | 0 <= i < |evs| :: evs[i].sendOk) ==> l.delivered == ReadableHeads(evs) && l.usnewhead.None?)
  {
    if |evs| > 0 {
      ArrivalsAreReadable(evs[..|evs| - 1]);
    }
  }

  /** The j-th event is the latest readable head, and every send since has failed. */
  predicate Waits(evs: seq<Event>, j: nat) {
    && j < |evs| && HeadOf(evs[j]).Some? && !evs[j].sendOk
    && (forall k | j < k < |evs| :: HeadOf(evs[k]).None?)
    && (forall k | j < k < |evs| && evs[k].Tick? :: !evs[k].sendOk)
  }

  lemma KeptNext(evs: seq<Event>, ev: Event)
    ensures var kept, next := Run(Link(None, [], []), evs).usnewhead, Run(Link(None, [], []), evs + [ev]).usnewhead;
            next == if HeadOf(ev).Some? then (if ev.sendOk then None else HeadOf(ev))
                    else if ev.Tick? && ev.sendOk then None else kept
  {
    assert (evs + [ev])[..|evs|] == evs;
  }

  lemma WaitsBefore(evs: seq<Event>, ev: Event, j: nat)
    requires j < |evs|
    ensures Waits(evs + [ev], j) <==> Waits(evs, j) && HeadOf(ev).None? && (ev.Tick? ==> !ev.sendOk)
  {
    var more := evs + [ev];
    assert more[|evs|] == ev && forall k | 0 <= k < |evs| :: more[k] == evs[k];
  }

  /** What is kept for resending is the latest readable head, if no send has got it through,
      by its own send or a later tick. */
  lemma {:induction false} KeptWaits(evs: seq<Event>) returns (j: nat)
    requires Run(Link(None, [], []), evs).usnewhead.Some?
    ensures Waits(evs, j) && HeadOf(evs[j]) == Run(Link(None, [], []), evs).usnewhead
  {
    var n := |evs| - 1;
    assert evs == evs[..n] + [evs[n]];
    j := n;
    if HeadOf(evs[n]).None? {
      j := KeptWaits(evs[..n]);
      WaitsBefore(evs[..n], evs[n], j);
    }
  }

  /** And whatever waits in that sense is kept. */
  lemma {:induction false} WaitingIsKept(evs: seq<Event>, j: nat)
    requires Waits(evs, j)
    ensures Run(Link(None, [], []), evs).usnewhead == HeadOf(evs[j])
  {
    var n := |evs| - 1;
    var front, ev := evs[..n], evs[n];
    assert evs == front + [ev];
    KeptNext(front, ev);
    if j < n {
      WaitsBefore(front, ev, j);
      WaitingIsKept(front, j);
      assert front[j] == evs[j];
    }
  }

  /** What one more event delivers: the head it announces or, at a tick, the one that waits -
      if its send succeeds, and otherwise nothing. */
  lemma DeliversExactly(evs: seq<Event>, ev: Event)
    ensures var l, l' := Run(Link(None, [], []), evs), Run(Link(None, [], []), evs + [ev]);
            && (!ev.sendOk ==> l'.delivered == l.delivered)
            && (ev.sendOk && HeadOf(ev).Some? ==> l'.delivered == l.delivered + [HeadOf(ev).value])
            && (ev.sendOk && ev.Tick? ==>
                  && l'.usnewhead.None?
                  && l'.delivered == if l.usnewhead.Some? then l.delivered + [l.usnewhead.value] else l.delivered)
            && (ev.NewHead? && HeadOf(ev).None? ==> l' == l)
  {
    assert (evs + [ev])[..|evs|] == evs;
  }

  /** The variable of the event loop, with the two histories beside it. */
  class HeadLink {
    var usnewhead: Option<Head>
    ghost var arrivals: seq<Head>
    ghost var delivered: seq<Head>

    ghost function View(): Link
      reads this
    {
      Link(usnewhead, arrivals, delivered)
    }

    constructor ()
      ensures View() == Link(None, [], [])
    {
      usnewhead, arrivals, delivered := None, [], [];
    }

    method SendNewHead(h: Head, sendOk: bool) returns (ok: bool)
      modifies this`delivered
      ensures ok == sendOk && delivered == if ok then old(delivered) + [h] else old(delivered)
    {
      ok := sendOk;
      if ok {
        delivered := delivered + [h];
      }
    }

    method OnNewHead(blkno: nat, bhash: Hash, extra: bytes, sendOk: bool)
      modifies this
      ensures View() == Next(old(View()), NewHead(blkno, bhash, extra, sendOk))
    {
      var read := ReadExtra(extra);
      if !read.failed {
        var h := Head(blkno, bhash, read.proof);
        arrivals := arrivals + [h];
        var ok := SendNewHead(h, sendOk);
        if !ok {
          usnewhead := Some(h);
        } else {
          usnewhead := None;
        }
      }
    }

    method OnTick(sendOk: bool)
      modifies this
      ensures View() == Next(old(View()), Tick(sendOk))
    {
      if usnewhead.Some? {
        var ok := SendNewHead(usnewhead.value, sendOk);
        if ok {
          usnewhead := None;
        }
      }
    }
  }
}
