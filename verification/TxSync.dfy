/** The initial transaction sync: every new peer's list is dripped to it in packs, one pack
    in flight at a time.  Models `txsyncLoop64` of eth/sync.go. */
module TxSync {
  import opened Wrappers
  import opened MapSums

  type PeerId = nat
  datatype SizedTx = SizedTx(hash: nat, size: nat)

  const PACK_SIZE: nat := 100 * 1024

  function SizeOf(txs: seq<SizedTx>): nat {
    if |txs| == 0 then 0 else SizeOf(txs[..|txs| - 1]) + txs[|txs| - 1].size
  }

  /** k transactions from the front make a pack: the loop goes on while the size so far is
      below the target and something is left. */
  predicate IsPack(txs: seq<SizedTx>, k: nat) {
    && k <= |txs|
    && (forall j | 0 <= j < k :: SizeOf(txs[..j]) < PACK_SIZE)
    && (k == |txs| || SizeOf(txs[..k]) >= PACK_SIZE)
  }

  lemma PackIsUnique(txs: seq<SizedTx>, k: nat, l: nat)
    requires IsPack(txs, k) && IsPack(txs, l)
    ensures k == l
  {
  }

  function PackLength(txs: seq<SizedTx>): (k: nat)
    ensures IsPack(txs, k)
    ensures |txs| > 0 ==> k > 0
  {
    GrowPack(txs, 0)
  }

  function GrowPack(txs: seq<SizedTx>, k: nat): (l: nat)
    requires k <= |txs| && forall j | 0 <= j < k :: SizeOf(txs[..j]) < PACK_SIZE
    ensures IsPack(txs, l) && k <= l
    ensures k < |txs| && SizeOf(txs[..k]) < PACK_SIZE ==> k < l
    decreases |txs| - k
  {
    if k < |txs| && SizeOf(txs[..k]) < PACK_SIZE then GrowPack(txs, k + 1) else k
  }

  // ---------------------------------------------------------------- the machine as a value

  /** What one txsync was given, and what has been sent of it so far. */
  datatype History = History(original: seq<SizedTx>, sent: seq<SizedTx>)

  /** `histories` remembers, beside the state of the loop, every txsync that was neither
      replaced by a newer one of its peer nor dropped after a failed send. */
  datatype Drip = Drip(pending: map<PeerId, seq<SizedTx>>, sending: bool, packPeer: PeerId,
                       pack: seq<SizedTx>, histories: map<PeerId, History>)

  /** A peer's list with its first k transactions taken off; an empty list goes altogether. */
  function TakeOff(pending: map<PeerId, seq<SizedTx>>, p: PeerId, k: nat): map<PeerId, seq<SizedTx>>
    requires p in pending && k <= |pending[p]|
  {
    if k == |pending[p]| then pending - {p} else pending[p := pending[p][k..]]
  }

  /** Send the first k transactions of a peer's list. */
  function SendFirst(d: Drip, p: PeerId, k: nat): Drip
    requires p in d.pending && p in d.histories && k <= |d.pending[p]|
  {
    var txs, h := d.pending[p], d.histories[p];
    Drip(TakeOff(d.pending, p, k), true, p, txs[..k],
         d.histories[p := History(h.original, h.sent + txs[..k])])
  }

  function Send(d: Drip, p: PeerId): Drip
    requires p in d.pending && p in d.histories
  {
    SendFirst(d, p, PackLength(d.pending[p]))
  }

  function Arrive(d: Drip, p: PeerId, txs: seq<SizedTx>): Drip {
    var d1 := d.(pending := d.pending[p := txs], histories := d.histories[p := History(txs, [])]);
    if d.sending then d1 else Send(d1, p)
  }

  /** A send has ended; `next` is the pick among what is left. */
  function Complete(d: Drip, failed: bool, next: Option<PeerId>): Drip
    requires next.Some? ==> next.value in Settled(d, failed).pending && next.value in Settled(d, failed).histories
  {
    if next.None? then Settled(d, failed) else Send(Settled(d, failed), next.value)
  }

  function Settled(d: Drip, failed: bool): Drip {
    if failed then d.(sending := false, pending := d.pending - {d.packPeer}, histories := d.histories - {d.packPeer})
    else d.(sending := false)
  }

  function Remaining(d: Drip, p: PeerId): seq<SizedTx> {
    if p in d.pending then d.pending[p] else []
  }

  predicate DripOk(d: Drip) {
    && (!d.sending ==> d.pending == map[])
    && (forall p | p in d.pending :: |d.pending[p]| > 0 && p in d.histories)
    && (d.sending ==> |d.pack| > 0 && IsPack(d.pack, |d.pack|))
    && (forall p | p in d.histories :: d.histories[p].original == d.histories[p].sent + Remaining(d, p))
  }

  /** Taking the pack off the front of the list keeps the books balanced. */
  lemma SendKeeps(d: Drip, p: PeerId, k: nat)
    requires p in d.pending && 0 < k <= |d.pending[p]| && IsPack(d.pending[p][..k], k)
    requires forall q | q in d.pending :: |d.pending[q]| > 0 && q in d.histories
    requires forall q | q in d.histories :: d.histories[q].original == d.histories[q].sent + Remaining(d, q)
    ensures DripOk(SendFirst(d, p, k))
  {
    var txs := d.pending[p];
    assert txs == txs[..k] + txs[k..];
  }

  lemma PackIsPack(txs: seq<SizedTx>, k: nat)
    requires IsPack(txs, k)
    ensures IsPack(txs[..k], k)
  {
    assert forall j | 0 <= j < k :: txs[..k][..j] == txs[..j];
  }

  lemma ArriveKeeps(d: Drip, p: PeerId, txs: seq<SizedTx>)
    requires DripOk(d) && |txs| > 0
    ensures DripOk(Arrive(d, p, txs))
  {
    var d1 := d.(pending := d.pending[p := txs], histories := d.histories[p := History(txs, [])]);
    assert [] + txs == txs;
    if !d.sending {
      PackIsPack(txs, PackLength(txs));
      SendKeeps(d1, p, PackLength(txs));
    }
  }

  /** The pick takes some pending txsync whenever there is one. */
  predicate IsPick(d: Drip, next: Option<PeerId>) {
    if next.None? then d.pending == map[] else next.value in d.pending
  }

  lemma CompleteKeeps(d: Drip, failed: bool, next: Option<PeerId>)
    requires DripOk(d) && d.sending && IsPick(Settled(d, failed), next)
    ensures DripOk(Complete(d, failed, next))
  {
    var d1 := Settled(d, failed);
    if next.Some? {
      var txs := d1.pending[next.value];
      PackIsPack(txs, PackLength(txs));
      SendKeeps(d1, next.value, PackLength(txs));
    }
  }

  // ---------------------------------------------------------------- whole runs

  datatype Event =
    | Arrival(peer: PeerId, txs: seq<SizedTx>)
    | Completion(failed: bool, next: Option<PeerId>)

  /** Only non-empty lists are queued, and only a running send completes. */
  predicate CanHappen(d: Drip, ev: Event) {
    match ev
    case Arrival(_, txs) => |txs| > 0
    case Completion(failed, next) => d.sending && IsPick(Settled(d, failed), next)
  }

  function After(d: Drip, ev: Event): Drip
    requires DripOk(d) && CanHappen(d, ev)
  {
    match ev
    case Arrival(p, txs) => Arrive(d, p, txs)
    case Completion(failed, next) => Complete(d, failed, next)
  }

  ghost predicate IsRun(d: Drip, evs: seq<Event>)
    requires DripOk(d)
    decreases |evs|, 0
  {
    |evs| > 0 ==>
      var n := |evs| - 1;
      IsRun(d, evs[..n]) && CanHappen(EndOf(d, evs[..n]), evs[n])
  }

  /** The state at the end of a run, which is again in order, whatever the events. */
  ghost function EndOf(d: Drip, evs: seq<Event>): (e: Drip)
    requires DripOk(d) && IsRun(d, evs)
    ensures DripOk(e)
    decreases |evs|, 1
  {
    if |evs| == 0 then d
    else
      var n := |evs| - 1;
      EventKeeps(EndOf(d, evs[..n]), evs[n]);
      After(EndOf(d, evs[..n]), evs[n])
  }

  lemma EventKeeps(d: Drip, ev: Event)
    requires DripOk(d) && CanHappen(d, ev)
    ensures DripOk(After(d, ev))
  {
    match ev
    case Arrival(p, txs) => ArriveKeeps(d, p, txs);
    case Completion(failed, next) => CompleteKeeps(d, failed, next);
  }

  lemma RunExtends(d: Drip, evs: seq<Event>, ev: Event)
    requires DripOk(d) && IsRun(d, evs) && CanHappen(EndOf(d, evs), ev)
    ensures IsRun(d, evs + [ev]) && EndOf(d, evs + [ev]) == After(EndOf(d, evs), ev)
  {
    assert (evs + [ev])[..|evs|] == evs;
  }

  const START := Drip(map[], false, 0, [], map[])

  /** Conservation and safety over every run from the start: each txsync that was neither
      replaced nor dropped has been sent a front part of its list, in order, and exactly the
      rest is pending; nothing is pending unless a send is running; the pack in flight is
      not empty and all but its last transaction stay below the target size. */
  lemma DripConserves(evs: seq<Event>)
    requires IsRun(START, evs)
    ensures var d := EndOf(START, evs);
            && (forall p | p in d.histories :: d.histories[p].original == d.histories[p].sent + Remaining(d, p))
            && (forall p | p in d.pending :: p in d.histories && |d.pending[p]| > 0)
            && (!d.sending ==> d.pending == map[])
            && (d.sending ==> |d.pack| > 0 && SizeOf(d.pack[..|d.pack| - 1]) < PACK_SIZE)
  {
  }

  function Lengths(pending: map<PeerId, seq<SizedTx>>): map<PeerId, nat> {
    map p | p in pending :: |pending[p]|
  }

  /** The number of pending transactions. */
  ghost function Work(d: Drip): nat {
    Sum(Lengths(d.pending))
  }

  lemma WorkOfRemoval(d: Drip, p: PeerId)
    ensures Sum(Lengths(d.pending - {p})) == Work(d) - |Remaining(d, p)|
  {
    if p in d.pending {
      SumWithout(Lengths(d.pending), p);
      assert Lengths(d.pending) - {p} == Lengths(d.pending - {p});
    } else {
      assert d.pending - {p} == d.pending;
    }
  }

  lemma SendDoesWork(d: Drip, p: PeerId)
    requires p in d.pending && p in d.histories && |d.pending[p]| > 0
    ensures Work(Send(d, p)) == Work(d) - |Send(d, p).pack| < Work(d)
  {
    var txs := d.pending[p];
    var k := PackLength(txs);
    WorkOfRemoval(d, p);
    if k < |txs| {
      SumUpdate(Lengths(d.pending), p, |txs| - k);
      assert Lengths(d.pending)[p := |txs| - k] == Lengths(d.pending[p := txs[k..]]);
      assert Lengths(d.pending) - {p} == Lengths(d.pending - {p});
    }
  }

  lemma CompletionDoesWork(d: Drip, failed: bool, next: Option<PeerId>)
    requires DripOk(d) && CanHappen(d, Completion(failed, next))
    ensures var e := Complete(d, failed, next); e.pending == map[] || Work(e) < Work(d)
  {
    WorkOfRemoval(d, d.packPeer);
    var d1 := Settled(d, failed);
    if next.Some? {
      SendDoesWork(d1, next.value);
    }
  }

  /** Without new arrivals the pending lists are empty after at most as many completions as
      there were pending transactions. */
  lemma {:induction false} DripDrains(d: Drip, evs: seq<Event>)
    requires DripOk(d) && IsRun(d, evs)
    requires forall i | 0 <= i < |evs| :: evs[i].Completion?
    ensures EndOf(d, evs).pending == map[] || Work(EndOf(d, evs)) + |evs| <= Work(d)
    ensures |evs| >= Work(d) && |evs| > 0 ==> EndOf(d, evs).pending == map[]
    decreases |evs|
  {
    if |evs| > 0 {
      var n := |evs| - 1;
      var before, e := EndOf(d, evs[..n]), EndOf(d, evs);
      DripDrains(d, evs[..n]);
      assert evs[n].Completion?;
      CompletionDoesWork(before, evs[n].failed, evs[n].next);
      if before.pending == map[] {
        assert Lengths(before.pending) == map[];
      }
      if e.pending != map[] {
        WorkIsPositive(e);
      }
    }
  }

  lemma WorkIsPositive(d: Drip)
    requires d.pending != map[] && forall p | p in d.pending :: |d.pending[p]| > 0
    ensures Work(d) > 0
  {
    var p :| p in d.pending;
    SumWithout(Lengths(d.pending), p);
  }

  // ---------------------------------------------------------------- what makes the events

  /** What the loop meets: a peer with the transactions it is to be sent, or the end of the
      running send. */
  datatype Happening = Joins(peer: PeerId, txs: seq<SizedTx>) | SendEnds(failed: bool)

  predicate Matches(h: Happening, ev: Event) {
    match h
    case Joins(p, txs) => ev == Arrival(p, txs)
    case SendEnds(failed) => ev.Completion? && ev.failed == failed
  }

  /** Whether a send is running after an event: an arrival starts one if none was, a completion
      the next one if there is any. */
  predicate SendsAfter(ev: Event) {
    ev.Arrival? || ev.next.Some?
  }

  /** Whether one is running at the end of a run from the start. */
  predicate SendsAfterAll(evs: seq<Event>) {
    |evs| > 0 && SendsAfter(evs[|evs| - 1])
  }

  /** The events of a run from the start answer to what happened, one by one; the end of a send
      is met while one is running, and otherwise means nothing. */
  ghost predicate Answers(hs: seq<Happening>, evs: seq<Event>)
    decreases |hs|
  {
    if |hs| == 0 then |evs| == 0
    else
      var n, m := |hs| - 1, |evs| - 1;
      || (hs[n].SendEnds? && !SendsAfterAll(evs) && Answers(hs[..n], evs))
      || (m >= 0 && Matches(hs[n], evs[m]) && (hs[n].Joins? || SendsAfterAll(evs[..m])) && Answers(hs[..n], evs[..m]))
  }

  lemma EventSends(d: Drip, ev: Event)
    requires DripOk(d) && CanHappen(d, ev)
    ensures After(d, ev).sending == SendsAfter(ev)
  {
  }

  lemma RunSends(evs: seq<Event>)
    requires IsRun(START, evs)
    ensures EndOf(START, evs).sending == SendsAfterAll(evs)
  {
    if |evs| > 0 {
      EventSends(EndOf(START, evs[..|evs| - 1]), evs[|evs| - 1]);
    }
  }

  /** The machine has come to d from the start, by events that answer to what happened. */
  ghost predicate Serves(hs: seq<Happening>, evs: seq<Event>, d: Drip) {
    IsRun(START, evs) && Answers(hs, evs) && EndOf(START, evs) == d
  }

  lemma ServesMore(hs: seq<Happening>, evs: seq<Event>, d: Drip, h: Happening, ev: Event)
    requires Serves(hs, evs, d) && CanHappen(d, ev) && (h.Joins? || d.sending) && Matches(h, ev)
    requires DripOk(d)
    ensures Serves(hs + [h], evs + [ev], After(d, ev))
  {
    RunSends(evs);
    RunExtends(START, evs, ev);
    assert (hs + [h])[..|hs|] == hs && (evs + [ev])[..|evs|] == evs;
  }

  lemma ServesIdle(hs: seq<Happening>, evs: seq<Event>, d: Drip, h: Happening)
    requires Serves(hs, evs, d) && h.SendEnds? && !d.sending
    ensures Serves(hs + [h], evs, d)
  {
    RunSends(evs);
    assert (hs + [h])[..|hs|] == hs;
  }

  // ---------------------------------------------------------------- who stays, and with what

  /** A peer is tracked with the same list in both. */
  predicate SameBooks(d: Drip, e: Drip, p: PeerId) {
    && (p in d.histories <==> p in e.histories)
    && (p in d.histories ==>
          && e.histories[p].original == d.histories[p].original
          && e.histories[p].sent + Remaining(e, p) == d.histories[p].sent + Remaining(d, p))
  }

  lemma SameBooksTwice(d: Drip, e: Drip, f: Drip, p: PeerId)
    requires SameBooks(d, e, p) && SameBooks(e, f, p)
    ensures SameBooks(d, f, p)
  {
  }

  /** What goes on the wire is what is counted as sent: the next pack of the peer's list. */
  lemma SendIsCounted(d: Drip, p: PeerId)
    requires p in d.pending && p in d.histories
    ensures var e := Send(d, p);
            && e.sending && e.packPeer == p && IsPack(d.pending[p], |e.pack|) && e.pack == d.pending[p][..|e.pack|]
            && e.histories[p].sent == d.histories[p].sent + e.pack
            && Remaining(e, p) == d.pending[p][|e.pack|..]
  {
  }

  /** A send changes nobody's books, and touches nobody else's list. */
  lemma SendKeepsBooks(d: Drip, p: PeerId, q: PeerId)
    requires p in d.pending && p in d.histories
    ensures SameBooks(d, Send(d, p), q)
    ensures q != p ==> Remaining(Send(d, p), q) == Remaining(d, q)
  {
    if p == q {
      SendIsCounted(d, p);
      var txs, k, sent := d.pending[p], |Send(d, p).pack|, d.histories[p].sent;
      assert sent + txs[..k] + txs[k..] == sent + (txs[..k] + txs[k..]) && txs[..k] + txs[k..] == txs;
    }
  }

  /** A send that succeeded costs nobody anything; one that failed drops its peer, and only
      that peer. */
  lemma CompletionKeepsBooks(d: Drip, failed: bool, next: Option<PeerId>, q: PeerId)
    requires DripOk(d) && CanHappen(d, Completion(failed, next))
    ensures var e := Complete(d, failed, next);
            if failed && q == d.packPeer then q !in e.histories && q !in e.pending else SameBooks(d, e, q)
  {
    var s := Settled(d, failed);
    if next.Some? {
      SendKeepsBooks(s, next.value, q);
      if !(failed && q == d.packPeer) {
        SameBooksTwice(d, s, Send(s, next.value), q);
      }
    }
  }

  /** An arrival opens new books for its peer, in place of any older ones, and no others. */
  lemma ArrivalOpensBooks(d: Drip, p: PeerId, txs: seq<SizedTx>, q: PeerId)
    requires DripOk(d) && |txs| > 0
    ensures var e := Arrive(d, p, txs);
            if q == p then
              p in e.histories && e.histories[p].original == txs && e.histories[p].sent + Remaining(e, p) == txs
            else SameBooks(d, e, q)
  {
    var d1 := d.(pending := d.pending[p := txs], histories := d.histories[p := History(txs, [])]);
    assert [] + txs == txs;
    if !d.sending {
      SendKeepsBooks(d1, p, q);
      if q != p {
        SameBooksTwice(d, d1, Send(d1, p), q);
      }
    }
  }

  /** The list a peer last joined with. */
  function LastJoin(hs: seq<Happening>, p: PeerId): Option<seq<SizedTx>> {
    if |hs| == 0 then None
    else
      var h := hs[|hs| - 1];
      if h.Joins? && h.peer == p then Some(h.txs) else LastJoin(hs[..|hs| - 1], p)
  }

  predicate NoSendFails(hs: seq<Happening>) {
    forall i | 0 <= i < |hs| && hs[i].SendEnds? :: !hs[i].failed
  }

  lemma EventBooks(d: Drip, h: Happening, ev: Event, p: PeerId)
    requires DripOk(d) && CanHappen(d, ev) && Matches(h, ev) && (h.SendEnds? ==> !h.failed)
    ensures var e := After(d, ev);
            if h.Joins? && h.peer == p then p in e.histories && e.histories[p].original == h.txs
            else SameBooks(d, e, p)
  {
    match ev
    case Arrival(q, txs) => ArrivalOpensBooks(d, q, txs, p);
    case Completion(failed, next) => CompletionKeepsBooks(d, failed, next, p);
  }

  /** What p is owed: the list it last joined with, and nothing if it never joined. */
  predicate Owed(d: Drip, p: PeerId, join: Option<seq<SizedTx>>) {
    && (p in d.histories <==> join.Some?)
    && (p in d.histories ==> d.histories[p].original == join.value)
  }

  /** While no send fails, every peer that joined is tracked with the list it last joined with,
      and nobody else is. */
  lemma {:induction false} JoinsAreTracked(hs: seq<Happening>, evs: seq<Event>, p: PeerId)
    requires IsRun(START, evs) && Answers(hs, evs) && NoSendFails(hs)
    ensures Owed(EndOf(START, evs), p, LastJoin(hs, p))
    decreases |hs|
  {
    if |hs| > 0 {
      var n, m := |hs| - 1, |evs| - 1;
      assert hs[n].SendEnds? ==> !hs[n].failed;
      assert NoSendFails(hs[..n]);
      if hs[n].SendEnds? && !SendsAfterAll(evs) && Answers(hs[..n], evs) {
        JoinsAreTracked(hs[..n], evs, p);
      } else {
        JoinsAreTracked(hs[..n], evs[..m], p);
        EventBooks(EndOf(START, evs[..m]), hs[n], evs[m], p);
      }
    }
  }

  /** From the happenings alone: while no send fails, a peer is owed exactly the list it last
      joined with; it has been sent a front part of it, in order, the rest is pending, and once
      nothing is pending it has been sent all of it. */
  lemma JoinsAreServed(hs: seq<Happening>, evs: seq<Event>, p: PeerId)
    requires IsRun(START, evs) && Answers(hs, evs) && NoSendFails(hs)
    ensures var e := EndOf(START, evs);
            && (p in e.histories <==> LastJoin(hs, p).Some?)
            && (LastJoin(hs, p).Some? ==>
                  && e.histories[p].sent + Remaining(e, p) == LastJoin(hs, p).value
                  && (e.pending == map[] ==> e.histories[p].sent == LastJoin(hs, p).value))
  {
    JoinsAreTracked(hs, evs, p);
    DripConserves(evs);
    var e := EndOf(START, evs);
    if p in e.histories {
      assert e.pending == map[] ==> Remaining(e, p) == [];
      assert e.histories[p].sent + [] == e.histories[p].sent;
    }
  }

  // ---------------------------------------------------------------- the loop in place

  /** One peer's list: a slice of a buffer whose front is cut off by moving the rest down. */
  class PeerSync {
    const peer: PeerId
    const buf: array<SizedTx>
    var len: nat

    ghost predicate Valid()
      reads this
    {
      len <= buf.Length
    }

    ghost function Txs(): seq<SizedTx>
      requires Valid()
      reads this, buf
    {
      buf[..len]
    }

    constructor (peer: PeerId, buf: array<SizedTx>)
      ensures this.peer == peer && this.buf == buf && len == buf.Length
    {
      this.peer := peer;
      this.buf := buf;
      len := buf.Length;
    }

    method FillPack() returns (pack: seq<SizedTx>)
      requires Valid()
      ensures pack == Txs()[..PackLength(Txs())]
    {
      pack := [];
      var size, i := 0, 0;
      while i < len && size < PACK_SIZE
        invariant 0 <= i <= len
        invariant pack == buf[..i] && size == SizeOf(buf[..i])
        invariant forall j | 0 <= j < i :: SizeOf(buf[..j]) < PACK_SIZE
      {
        assert buf[..i + 1][..i] == buf[..i];
        pack := pack + [buf[i]];
        size := size + buf[i].size;
        i := i + 1;
      }
      assert forall j | 0 <= j <= i :: Txs()[..j] == buf[..j];
      PackIsUnique(Txs(), i, PackLength(Txs()));
    }

    /** `s.txs = s.txs[:copy(s.txs, s.txs[k:])]`: source and destination overlap. */
    method DropFront(k: nat)
      requires Valid() && k <= len
      modifies this`len, buf
      ensures Valid() && Txs() == old(Txs())[k..]
    {
      var n := len - k;
      ghost var was := buf[..];
      var i := 0;
      while i < n
        invariant 0 <= i <= n
        invariant forall j | 0 <= j < i :: buf[j] == was[k + j]
        invariant forall j | i <= j < buf.Length :: buf[j] == was[j]
      {
        buf[i] := buf[i + k];
        i := i + 1;
      }
      len := n;
    }
  }

  /** Nothing is tracked that was not tracked before. */
  ghost predicate Kept(before: map<PeerId, PeerSync>, after: map<PeerId, PeerSync>) {
    forall p | p in after :: p in before && after[p] == before[p]
  }

  class TxSyncLoop {
    var pending: map<PeerId, PeerSync>
    var sending: bool
    var packPeer: PeerId
    var packTxs: seq<SizedTx>
    ghost var histories: map<PeerId, History>

    ghost function Objects(): set<object>
      reads this`pending
    {
      (set p | p in pending :: pending[p] as object) + (set p | p in pending :: pending[p].buf as object)
    }

    /** No two peers share a list or a buffer. */
    ghost predicate Separate()
      reads this`pending, Objects()
    {
      && (forall p | p in pending :: pending[p].peer == p && pending[p].Valid())
      && (forall p, q | p in pending && q in pending && p != q ::
             pending[p] != pending[q] && pending[p].buf != pending[q].buf)
    }

    /** What is pending for each peer. */
    ghost function Lists(): map<PeerId, seq<SizedTx>>
      requires Separate()
      reads this`pending, Objects()
    {
      map p | p in pending :: pending[p].Txs()
    }

    ghost function View(): Drip
      requires Separate()
      reads this, Objects()
    {
      Drip(Lists(), sending, packPeer, packTxs, histories)
    }

    constructor ()
      ensures Separate() && View() == START
    {
      pending, sending, packPeer, packTxs, histories := map[], false, 0, [], map[];
    }

    /** Cut the next pack off one pending list; the others are in other buffers. */
    method CutPack(s: PeerSync) returns (pack: seq<SizedTx>, ghost k: nat)
      requires Separate() && s.peer in pending && pending[s.peer] == s
      modifies s, s.buf
      ensures Separate()
      ensures var txs := old(s.Txs());
              && k == PackLength(txs)
              && k <= |txs|
              && pack == txs[..k]
              && s.len == |txs| - k
              && Lists() == old(Lists())[s.peer := txs[k..]]
    {
      k := PackLength(s.Txs());
      pack := s.FillPack();
      s.DropFront(|pack|);
    }

    method Untrack(p: PeerId)
      requires Separate()
      modifies this`pending
      ensures Separate() && Lists() == old(Lists()) - {p} && pending == old(pending) - {p}
    {
      pending := pending - {p};
    }

    method TakePack(s: PeerSync) returns (pack: seq<SizedTx>, ghost k: nat)
      requires Separate() && s.peer in pending && pending[s.peer] == s
      modifies this`pending, s, s.buf
      ensures Separate()
      ensures var txs := old(s.Txs());
              && k == PackLength(txs)
              && k <= |txs|
              && pack == txs[..k]
              && old(Lists())[s.peer] == txs
              && Lists() == TakeOff(old(Lists()), s.peer, k)
      ensures Kept(old(pending), pending)
    {
      var p := s.peer;
      ghost var lists, txs := Lists(), s.Txs();
      pack, k := CutPack(s);
      assert lists[p := txs[k..]] - {p} == lists - {p};
      if s.len == 0 {
        Untrack(p);
      }
    }

    method SendPack(p: PeerId) returns (ghost k: nat)
      requires Separate() && p in pending && p in histories
      modifies this, pending[p], pending[p].buf
      ensures Separate()
      ensures k == PackLength(old(Lists())[p]) <= |old(Lists())[p]|
      ensures Lists() == TakeOff(old(Lists()), p, k)
      ensures Kept(old(pending), pending)
      ensures sending && packPeer == p && packTxs == old(Lists())[p][..k]
      ensures histories == old(histories)[p := History(old(histories)[p].original, old(histories)[p].sent + packTxs)]
    {
      ghost var h := histories;
      var pack;
      pack, k := TakePack(pending[p]);
      assert histories == h;
      Note(p, pack);
    }

    method Note(p: PeerId, pack: seq<SizedTx>)
      requires Separate() && p in histories
      modifies this`sending, this`packPeer, this`packTxs, this`histories
      ensures Separate() && Lists() == old(Lists())
      ensures sending && packPeer == p && packTxs == pack
      ensures histories == old(histories)[p := History(old(histories)[p].original, old(histories)[p].sent + pack)]
    {
      packPeer, packTxs, sending := p, pack, true;
      histories := histories[p := History(histories[p].original, histories[p].sent + pack)];
    }

    method NoteDone(failed: bool)
      requires Separate()
      modifies this`sending, this`histories
      ensures Separate() && Lists() == old(Lists()) && !sending
      ensures histories == if failed then old(histories) - {packPeer} else old(histories)
    {
      sending := false;
      histories := if failed then histories - {packPeer} else histories;
    }

    /** A txsync arrives; it replaces an older one of the same peer. */
    method HandleSync(s: PeerSync)
      requires Separate() && s.Valid() && s !in Objects() && s.buf !in Objects() && (s as object) != this
      modifies this, s, s.buf
      ensures Separate() && View() == Arrive(old(View()), s.peer, old(s.Txs()))
      ensures Kept(old(pending)[s.peer := s], pending)
    {
      Track(s);
      if !sending {
        ghost var k := SendPack(s.peer);
      }
    }

    method Track(s: PeerSync)
      requires Separate() && s.Valid() && s !in Objects() && s.buf !in Objects()
      modifies this`pending, this`histories
      ensures Separate() && Lists() == old(Lists())[s.peer := s.Txs()]
      ensures pending == old(pending)[s.peer := s] && histories == old(histories)[s.peer := History(s.Txs(), [])]
    {
      ghost var lists := Lists();
      pending := pending[s.peer := s];
      histories := histories[s.peer := History(s.Txs(), [])];
      assert Lists() == lists[s.peer := s.Txs()];
    }

    /** A peer whose send failed is no longer tracked. */
    method Settle(failed: bool)
      requires Separate()
      modifies this`sending, this`pending, this`histories
      ensures Separate() && !sending
      ensures pending == if failed then old(pending) - {packPeer} else old(pending)
      ensures Lists() == if failed then old(Lists()) - {packPeer} else old(Lists())
      ensures histories == if failed then old(histories) - {packPeer} else old(histories)
    {
      NoteDone(failed);
      if failed {
        Untrack(packPeer);
      }
    }

    /** The next send goes to any peer still pending. */
    method SendNext() returns (next: Option<PeerId>)
      requires Separate() && pending.Keys <= histories.Keys
      modifies this, Objects()
      ensures IsPick(old(View()), next)
      ensures Separate() && View() == if next.None? then old(View()) else Send(old(View()), next.value)
      ensures Kept(old(pending), pending)
    {
      if |pending| == 0 {
        assert pending == map[];
        return None;
      }
      assert pending.Keys != {};
      var p :| p in pending;
      next := Some(p);
      assert Lists()[p] == pending[p].Txs();
      ghost var k := SendPack(p);
    }

    /** The running send has ended. */
    method HandleDone(failed: bool) returns (next: Option<PeerId>)
      requires Separate() && sending && pending.Keys <= histories.Keys
      modifies this, Objects()
      ensures IsPick(Settled(old(View()), failed), next)
      ensures next.Some? ==> next.value in Settled(old(View()), failed).histories
      ensures Separate() && View() == Complete(old(View()), failed, next)
      ensures Kept(old(pending), pending)
    {
      Settle(failed);
      next := SendNext();
    }

    /** A peer joins with what it is to be sent. */
    method ServeJoin(p: PeerId, txs: seq<SizedTx>)
      requires Separate() && DripOk(View()) && |txs| > 0
      modifies this
      ensures Separate() && View() == Arrive(old(View()), p, txs)
      ensures forall q | q in pending :: (fresh(pending[q]) && fresh(pending[q].buf))
                                         || (q in old(pending) && pending[q] == old(pending)[q])
    {
      var s := NewSync(p, txs);
      HandleSync(s);
    }

    static method NewSync(p: PeerId, txs: seq<SizedTx>) returns (s: PeerSync)
      ensures fresh(s) && fresh(s.buf) && s.peer == p && s.Valid() && s.Txs() == txs
    {
      var buf := new SizedTx[|txs|](j requires 0 <= j < |txs| => txs[j]);
      s := new PeerSync(p, buf);
    }

    /** The running send ends. */
    method ServeEnd(failed: bool) returns (next: Option<PeerId>)
      requires Separate() && DripOk(View()) && sending
      modifies this, Objects()
      ensures CanHappen(old(View()), Completion(failed, next))
      ensures Separate() && View() == Complete(old(View()), failed, next) && Kept(old(pending), pending)
    {
      assert pending.Keys == Lists().Keys;
      next := HandleDone(failed);
    }

    /** One happening, after any run of them. */
    method ServeOne(h: Happening, ghost hs: seq<Happening>, ghost evs: seq<Event>) returns (ghost more: seq<Event>)
      requires Separate() && Serves(hs, evs, View()) && (h.Joins? ==> |h.txs| > 0)
      modifies this, Objects()
      ensures Separate() && Serves(hs + [h], more, View())
      ensures forall q | q in pending :: (fresh(pending[q]) && fresh(pending[q].buf))
                                         || (q in old(pending) && pending[q] == old(pending)[q])
    {
      ghost var before := View();
      match h
      case Joins(p, txs) =>
        ServesMore(hs, evs, before, h, Arrival(p, txs));
        ServeJoin(p, txs);
        more := evs + [Arrival(p, txs)];
      case SendEnds(failed) =>
        if sending {
          var next := ServeEnd(failed);
          ServesMore(hs, evs, before, h, Completion(failed, next));
          more := evs + [Completion(failed, next)];
        } else {
          ServesIdle(hs, evs, before, h);
          more := evs;
        }
    }

    /** The loop of one node: peers join with the pool's transactions, running sends end.  What
        happens makes a run of the machine above, with one arrival for each join and one
        completion for each end of a running send; at its end what a peer was sent and what is
        still pending for it are the transactions it joined with, in order, and nothing is
        pending unless a send is running. */
    method Serve(happenings: seq<Happening>) returns (ghost evs: seq<Event>)
      requires Separate() && View() == START
      requires forall i | 0 <= i < |happenings| && happenings[i].Joins? :: |happenings[i].txs| > 0
      modifies this
      ensures Separate() && IsRun(START, evs) && View() == EndOf(START, evs) && Answers(happenings, evs)
      ensures forall p | p in histories ::
                histories[p].original == histories[p].sent + if p in pending then pending[p].Txs() else []
      ensures !sending ==> pending == map[]
      ensures NoSendFails(happenings) ==>
                forall p | LastJoin(happenings, p).Some? ::
                  && p in histories
                  && LastJoin(happenings, p).value ==
                       histories[p].sent + if p in pending then pending[p].Txs() else []
    {
      evs := [];
      assert pending.Keys == Lists().Keys == {};
      for i := 0 to |happenings|
        invariant Separate() && Serves(happenings[..i], evs, View())
        invariant forall p | p in pending :: fresh(pending[p]) && fresh(pending[p].buf)
      {
        evs := ServeOne(happenings[i], happenings[..i], evs);
        assert happenings[..i + 1] == happenings[..i] + [happenings[i]];
      }
      assert happenings[..|happenings|] == happenings;
      Balance();
      Joined(happenings, evs);
    }

    /** What the machine's invariant says about the objects. */
    lemma Balance()
      requires Separate() && DripOk(View())
      ensures forall p | p in histories ::
                histories[p].original == histories[p].sent + if p in pending then pending[p].Txs() else []
      ensures !sending ==> pending == map[]
    {
      assert pending.Keys == Lists().Keys;
      assert forall p | p in histories :: Remaining(View(), p) == if p in pending then pending[p].Txs() else [];
    }

    /** What they hold of the lists that peers joined with. */
    lemma Joined(happenings: seq<Happening>, evs: seq<Event>)
      requires Separate() && DripOk(View()) && Serves(happenings, evs, View())
      ensures NoSendFails(happenings) ==>
                forall p | LastJoin(happenings, p).Some? ::
                  && p in histories
                  && LastJoin(happenings, p).value ==
                       histories[p].sent + if p in pending then pending[p].Txs() else []
    {
      if NoSendFails(happenings) {
        Balance();
        forall p | LastJoin(happenings, p).Some?
          ensures p in histories && histories[p].original == LastJoin(happenings, p).value
        {
          JoinsAreTracked(happenings, evs, p);
        }
      }
    }
  }
}
