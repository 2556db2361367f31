/** Verifying headers by asking the external consensus, with its one-entry cache of the last
    accepted seal.  Models the verification half of consensus/ecpon/ecponbada.go and
    `SendVerifySeal` of ecconnector/ecrpcclient.go. */
module VerifySeal {
  import opened Wrappers
  import opened ChainTypes
  import opened Rlp
  import opened ExtraData

  /** What comes back from one HTTP request. */
  datatype Reply = Unreachable | Status(code: int)

  predicate Accepted(r: Reply) {
    r.Status? && (r.code == 200 || r.code == 201 || r.code == 204)
  }

  datatype Entry = Entry(blkno: nat, bhash: Hash, bproof: bytes)
  datatype Exchange = Exchange(request: Entry, reply: Reply)

  /** The client's cache, and the log of every request that went out. */
  datatype Client = Client(cachesvs: Option<Entry>, log: seq<Exchange>)

  /** JSON of number, hash and proof; None when it cannot be encoded. */
  type Marshal = (nat, Hash, Option<BlockProof>) -> Option<bytes>

  function SendVerifySeal(marshal: Marshal, c: Client, blkno: nat, bhash: Hash, proof: Option<BlockProof>,
                          reply: Reply): (Client, bool) {
    var json := marshal(blkno, bhash, proof);
    var entry := Entry(blkno, bhash, if json.None? then [] else json.value);
    if c.cachesvs == Some(entry) then (c, true)
    else if json.None? then (c, false)
    else
      var log := c.log + [Exchange(entry, reply)];
      if Accepted(reply) then (Client(Some(entry), log), true) else (Client(c.cachesvs, log), false)
  }

  datatype VerifyError = UnknownBlock | FutureBlock | InvalidUncleHash | ForkHashMismatch
      | BadExtraData | RemoteNotReady | NotAccepted

  /** What a verification depends on besides the header and the client: the clock, the fork
      hash check, and whether a remote handler is set. */
  datatype Context = Context(now: nat, forkHashOk: HeaderData -> bool, remoteSet: bool, marshal: Marshal)

  /** `verifyHeader` down to `verifySeal`; note `Number.Uint64()`, the low 64 bits. */
  function VerifyHeader(ctx: Context, c: Client, h: HeaderData, reply: Reply): (Client, Option<VerifyError>) {
    if h.number.None? then (c, Some(UnknownBlock))
    else if h.time > ctx.now + 2 then (c, Some(FutureBlock))
    else if h.uncleHash != EmptyUncles then (c, Some(InvalidUncleHash))
    else if !ctx.forkHashOk(h) then (c, Some(ForkHashMismatch))
    else
      var number := h.number.value % UINT64_LIMIT;
      if number == 0 then (c, None) // "genesis"
      else
        var read := ReadExtra(h.extra);
        if read.failed then (c, Some(BadExtraData))
        else if !ctx.remoteSet then (c, Some(RemoteNotReady))
        else
          var (c', ok) := SendVerifySeal(ctx.marshal, c, number, HeaderHash(h), read.proof, reply);
          (c', if ok then None else Some(NotAccepted))
  }

  // ---------------------------------------------------------------- traces

  /** One verification, with the clock and the answer it meets. */
  datatype Query = Query(ctx: Context, header: HeaderData, reply: Reply)

  function After(c: Client, qs: seq<Query>): Client {
    if |qs| == 0 then c
    else
      var q := qs[|qs| - 1];
      VerifyHeader(q.ctx, After(c, qs[..|qs| - 1]), q.header, q.reply).0
  }

  predicate Backed(log: seq<Exchange>, e: Entry) {
    exists i :: 0 <= i < |log| && log[i].request == e && Accepted(log[i].reply)
  }

  predicate CacheOk(c: Client) {
    c.cachesvs.Some? ==> Backed(c.log, c.cachesvs.value)
  }

  /** What a query asks the remote to vouch for. */
  function RequestOf(q: Query): Entry
    requires q.header.number.Some?
  {
    var no := q.header.number.value % UINT64_LIMIT;
    var json := q.ctx.marshal(no, HeaderHash(q.header), ReadExtra(q.header.extra).proof);
    Entry(no, HeaderHash(q.header), if json.None? then [] else json.value)
  }

  lemma BackedGrows(log: seq<Exchange>, x: Exchange, e: Entry)
    requires Backed(log, e)
    ensures Backed(log + [x], e)
  {
    var i :| 0 <= i < |log| && log[i].request == e && Accepted(log[i].reply);
    assert (log + [x])[i] == log[i];
  }

  lemma SendIsBacked(marshal: Marshal, c: Client, blkno: nat, bhash: Hash, proof: Option<BlockProof>, reply: Reply)
    requires CacheOk(c)
    ensures var (c', ok) := SendVerifySeal(marshal, c, blkno, bhash, proof, reply);
            var json := marshal(blkno, bhash, proof);
            && CacheOk(c')
            && c.log <= c'.log
            && (ok ==> Backed(c'.log, Entry(blkno, bhash, if json.None? then [] else json.value)))
  {
    var (c', ok) := SendVerifySeal(marshal, c, blkno, bhash, proof, reply);
    if c'.log != c.log {
      var x := c'.log[|c.log|];
      assert c'.log == c.log + [x];
      if c.cachesvs.Some? {
        BackedGrows(c.log, x, c.cachesvs.value);
      }
      assert Accepted(x.reply) ==> Backed(c'.log, x.request);
    }
  }

  /** One verification keeps the cache honest, and says nil for a header with a non-zero
      number only if the remote accepted this very request, now or before. */
  lemma VerifyIsBacked(c: Client, q: Query)
    requires CacheOk(c)
    ensures var (c', err) := VerifyHeader(q.ctx, c, q.header, q.reply);
            && CacheOk(c')
            && c.log <= c'.log
            && (err.None? && q.header.number.value % UINT64_LIMIT != 0 ==> Backed(c'.log, RequestOf(q)))
  {
    if q.header.number.Some? {
      var r := RequestOf(q);
      SendIsBacked(q.ctx.marshal, c, r.blkno, r.bhash, ReadExtra(q.header.extra).proof, q.reply);
    }
  }

  lemma {:induction false} CacheAgreesWithHistory(qs: seq<Query>)
    ensures CacheOk(After(Client(None, []), qs))
  {
    if |qs| > 0 {
      CacheAgreesWithHistory(qs[..|qs| - 1]);
      VerifyIsBacked(After(Client(None, []), qs[..|qs| - 1]), qs[|qs| - 1]);
    }
  }

  /** Nobody is ever asked about block 0. */
  predicate NeverAsksForZero(log: seq<Exchange>) {
    forall i | 0 <= i < |log| :: log[i].request.blkno != 0
  }

  lemma SendAsks(marshal: Marshal, c: Client, blkno: nat, bhash: Hash, proof: Option<BlockProof>, reply: Reply)
    requires NeverAsksForZero(c.log) && blkno != 0
    ensures NeverAsksForZero(SendVerifySeal(marshal, c, blkno, bhash, proof, reply).0.log)
  {
  }

  lemma VerifyAsks(c: Client, q: Query)
    requires NeverAsksForZero(c.log)
    ensures NeverAsksForZero(VerifyHeader(q.ctx, c, q.header, q.reply).0.log)
  {
    if q.header.number.Some? && q.header.number.value % UINT64_LIMIT != 0 {
      SendAsks(q.ctx.marshal, c, q.header.number.value % UINT64_LIMIT,
               HeaderHash(q.header), ReadExtra(q.header.extra).proof, q.reply);
    }
  }

  lemma {:induction false} ZeroIsNeverAsked(qs: seq<Query>)
    ensures NeverAsksForZero(After(Client(None, []), qs).log)
  {
    if |qs| > 0 {
      ZeroIsNeverAsked(qs[..|qs| - 1]);
      VerifyAsks(After(Client(None, []), qs[..|qs| - 1]), qs[|qs| - 1]);
    }
  }

  // ---------------------------------------------------------------- what is accepted

  predicate Encodable(q: Query)
    requires q.header.number.Some?
  {
    q.ctx.marshal(q.header.number.value % UINT64_LIMIT, HeaderHash(q.header), ReadExtra(q.header.extra).proof).Some?
  }

  /** The remote's answer as it is known after one query: cached, or just received. */
  predicate VouchedFor(c: Client, q: Query)
    requires q.header.number.Some?
  {
    c.cachesvs == Some(RequestOf(q)) || (Encodable(q) && Accepted(q.reply))
  }

  /** Exactly the headers that are accepted, by any client: the remote's acceptance is needed,
      and with the header's own checks it is enough. */
  lemma AcceptedExactly(c: Client, q: Query)
    ensures VerifyHeader(q.ctx, c, q.header, q.reply).1.None? <==>
              && PassesAlone(q.ctx, q.header)
              && (|| q.header.number.value % UINT64_LIMIT == 0
                  || (!ReadExtra(q.header.extra).failed && q.ctx.remoteSet && VouchedFor(c, q)))
  {
  }

  /** A refusal names the first check that fails, and only the last one asks the remote. */
  lemma RefusalNamesFirstFailure(c: Client, q: Query)
    ensures var (c', err) := VerifyHeader(q.ctx, c, q.header, q.reply);
            var h := q.header;
            && (err.Some? && err != Some(NotAccepted) ==> c' == c)
            && (err == Some(UnknownBlock) <==> h.number.None?)
            && (err == Some(FutureBlock) <==> h.number.Some? && h.time > q.ctx.now + 2)
            && (err == Some(InvalidUncleHash) <==>
                  h.number.Some? && h.time <= q.ctx.now + 2 && h.uncleHash != EmptyUncles)
            && (err == Some(ForkHashMismatch) <==>
                  h.number.Some? && h.time <= q.ctx.now + 2 && h.uncleHash == EmptyUncles && !q.ctx.forkHashOk(h))
            && (err == Some(BadExtraData) <==>
                  PassesAlone(q.ctx, h) && h.number.value % UINT64_LIMIT != 0 && ReadExtra(h.extra).failed)
            && (err == Some(RemoteNotReady) <==>
                  && PassesAlone(q.ctx, h) && h.number.value % UINT64_LIMIT != 0
                  && !ReadExtra(h.extra).failed && !q.ctx.remoteSet)
  {
  }

  /** What a query that gets as far as the remote leaves behind: an acceptance is cached, and
      the same header again is accepted without asking; a refusal leaves the cache alone. */
  lemma AnswerIsKept(c: Client, q: Query, later: Reply)
    requires PassesAlone(q.ctx, q.header) && q.header.number.value % UINT64_LIMIT != 0
    requires !ReadExtra(q.header.extra).failed && q.ctx.remoteSet
    ensures var (c', err) := VerifyHeader(q.ctx, c, q.header, q.reply);
            && (c.cachesvs == Some(RequestOf(q)) ==> c' == c)
            && (c.cachesvs != Some(RequestOf(q)) ==>
                  && c'.log == (if Encodable(q) then c.log + [Exchange(RequestOf(q), q.reply)] else c.log)
                  && c'.cachesvs == (if err.None? then Some(RequestOf(q)) else c.cachesvs))
            && (err.None? ==> VerifyHeader(q.ctx, c', q.header, later) == (c', None))
            && (err.Some? ==> err == Some(NotAccepted))
  {
  }

  /** The checks of a header that need nobody else. */
  predicate PassesAlone(ctx: Context, h: HeaderData) {
    && h.number.Some?
    && h.time <= ctx.now + 2
    && h.uncleHash == EmptyUncles
    && ctx.forkHashOk(h)
  }

  /** In every trace, a nil result is backed - the remote has accepted the same number, hash
      and payload, now or earlier - exactly when the header's number is not zero in its low
      64 bits.  The others are accepted unasked, and include more than genesis. */
  lemma AcceptedIsBacked(before: seq<Query>, q: Query)
    ensures var c := After(Client(None, []), before);
            var (c', err) := VerifyHeader(q.ctx, c, q.header, q.reply);
            err.None? ==>
              && PassesAlone(q.ctx, q.header)
              && (Backed(c'.log, RequestOf(q)) <==> q.header.number.value % UINT64_LIMIT != 0)
  {
    CacheAgreesWithHistory(before);
    VerifyIsBacked(After(Client(None, []), before), q);
    ZeroIsNeverAsked(before + [q]);
    assert (before + [q])[..|before|] == before;
  }

  /** Which headers are accepted although the remote never accepted them: those that pass on
      their own and are zero in the low 64 bits, whatever was asked and answered before. */
  lemma UnaskedAcceptance(before: seq<Query>, q: Query)
    ensures var c := After(Client(None, []), before);
            var (c', err) := VerifyHeader(q.ctx, c, q.header, q.reply);
            err.None? && !Backed(c'.log, RequestOf(q)) <==>
              PassesAlone(q.ctx, q.header) && q.header.number.value % UINT64_LIMIT == 0
  {
    AcceptedIsBacked(before, q);
    ZeroIsNeverAsked(before);
  }

  /** A header that no chain numbers zero, accepted by a client that has never asked. */
  lemma BeyondGenesis(ctx: Context, h: HeaderData, reply: Reply)
    requires PassesAlone(ctx, h) && h.number == Some(UINT64_LIMIT)
    ensures VerifyHeader(ctx, Client(None, []), h, reply) == (Client(None, []), None)
  {
  }

  // ---------------------------------------------------------------- batches

  /** The in-order results of a batch. */
  function Results(c: Client, qs: seq<Query>): (rs: seq<Option<VerifyError>>)
    ensures |rs| == |qs|
  {
    if |qs| == 0 then []
    else
      var n, q := |qs| - 1, qs[|qs| - 1];
      Results(c, qs[..n]) + [VerifyHeader(q.ctx, After(c, qs[..n]), q.header, q.reply).1]
  }

  lemma ResultsStep(c: Client, qs: seq<Query>, i: nat)
    requires i < |qs|
    ensures var q := qs[i];
            var (c', err) := VerifyHeader(q.ctx, After(c, qs[..i]), q.header, q.reply);
            After(c, qs[..i + 1]) == c' && Results(c, qs[..i + 1]) == Results(c, qs[..i]) + [err]
  {
    assert qs[..i + 1][..i] == qs[..i];
  }

  lemma {:induction false} ResultsPrefix(c: Client, qs: seq<Query>, i: nat)
    requires i <= |qs|
    ensures Results(c, qs[..i]) <= Results(c, qs)
    decreases |qs|
  {
    if i < |qs| {
      var n := |qs| - 1;
      ResultsPrefix(c, qs[..n], i);
      assert qs[..n][..i] == qs[..i];
    } else {
      assert qs[..i] == qs;
    }
  }

  /** Each nil of a batch, but for numbers that are zero in the low 64 bits, is backed. */
  ghost predicate EmittedAreBacked(log: seq<Exchange>, qs: seq<Query>, emitted: seq<Option<VerifyError>>) {
    |emitted| <= |qs| && forall i | 0 <= i < |emitted| :: IsBackedAs(log, qs[i], emitted[i])
  }

  ghost predicate IsBackedAs(log: seq<Exchange>, q: Query, err: Option<VerifyError>) {
    err.None? ==>
      q.header.number.Some? && (q.header.number.value % UINT64_LIMIT != 0 ==> Backed(log, RequestOf(q)))
  }

  lemma MoreAreBacked(log: seq<Exchange>, log': seq<Exchange>, qs: seq<Query>, emitted: seq<Option<VerifyError>>,
                      err: Option<VerifyError>)
    requires log <= log' && |emitted| < |qs|
    requires EmittedAreBacked(log, qs, emitted) && IsBackedAs(log', qs[|emitted|], err)
    ensures EmittedAreBacked(log', qs, emitted) && EmittedAreBacked(log', qs, emitted + [err])
  {
    forall i | 0 <= i < |emitted| ensures IsBackedAs(log', qs[i], emitted[i]) {
      assert IsBackedAs(log, qs[i], emitted[i]);
      if emitted[i].None? && qs[i].header.number.value % UINT64_LIMIT != 0 {
        var k :| 0 <= k < |log| && log[k].request == RequestOf(qs[i]) && Accepted(log[k].reply);
        assert log'[k] == log[k];
      }
    }
  }

  lemma NextIsBacked(c: Client, qs: seq<Query>, emitted: seq<Option<VerifyError>>)
    requires CacheOk(c) && EmittedAreBacked(c.log, qs, emitted) && |emitted| < |qs|
    ensures var q := qs[|emitted|];
            var (c', err) := VerifyHeader(q.ctx, c, q.header, q.reply);
            CacheOk(c') && EmittedAreBacked(c'.log, qs, emitted + [err])
  {
    var q := qs[|emitted|];
    var (c', err) := VerifyHeader(q.ctx, c, q.header, q.reply);
    VerifyIsBacked(c, q);
    MoreAreBacked(c.log, c'.log, qs, emitted, err);
  }

  /** A batch that starts from an honest cache ends with one, and its results are backed. */
  lemma {:induction false} BatchIsBacked(c: Client, qs: seq<Query>)
    requires CacheOk(c)
    ensures CacheOk(After(c, qs)) && EmittedAreBacked(After(c, qs).log, qs, Results(c, qs))
  {
    if |qs| > 0 {
      var n := |qs| - 1;
      BatchIsBacked(c, qs[..n]);
      FewerAreBacked(After(c, qs[..n]).log, qs, n, Results(c, qs[..n]), Results(c, qs[..n]));
      NextIsBacked(After(c, qs[..n]), qs, Results(c, qs[..n]));
      ResultsStep(c, qs, n);
      assert qs[..n + 1] == qs;
    }
  }

  lemma FewerAreBacked(log: seq<Exchange>, qs: seq<Query>, n: nat, results: seq<Option<VerifyError>>,
                       emitted: seq<Option<VerifyError>>)
    requires n <= |qs| && EmittedAreBacked(log, qs[..n], results) && emitted <= results
    ensures EmittedAreBacked(log, qs, emitted)
  {
    forall i | 0 <= i < |emitted| ensures IsBackedAs(log, qs[i], emitted[i]) {
      assert IsBackedAs(log, qs[..n][i], results[i]);
    }
  }

  /** What a batch leaves behind that emitted k results and verified n headers. */
  lemma EmittedFromBatch(c: Client, qs: seq<Query>, k: nat, n: nat)
    requires k <= n <= |qs|
    ensures Results(c, qs[..k]) <= Results(c, qs)
    ensures CacheOk(c) ==>
              CacheOk(After(c, qs[..n])) && EmittedAreBacked(After(c, qs[..n]).log, qs, Results(c, qs[..k]))
  {
    ResultsPrefix(c, qs, k);
    ResultsPrefix(c, qs[..n], k);
    assert qs[..n][..k] == qs[..k];
    if CacheOk(c) {
      BatchIsBacked(c, qs[..n]);
      FewerAreBacked(After(c, qs[..n]).log, qs, n, Results(c, qs[..n]), Results(c, qs[..k]));
    }
  }

  class RpcClient {
    var cachesvs: Option<Entry>
    ghost var log: seq<Exchange>

    ghost function View(): Client
      reads this
    {
      Client(cachesvs, log)
    }

    constructor ()
      ensures View() == Client(None, [])
    {
      cachesvs, log := None, [];
    }

    method Send(marshal: Marshal, blkno: nat, bhash: Hash, proof: Option<BlockProof>, reply: Reply) returns (ok: bool)
      modifies this
      ensures (View(), ok) == SendVerifySeal(marshal, old(View()), blkno, bhash, proof, reply)
    {
      var json := marshal(blkno, bhash, proof);
      var payload := if json.None? then [] else json.value;
      if cachesvs.Some? {
        if cachesvs.value.blkno == blkno && cachesvs.value.bhash == bhash && cachesvs.value.bproof == payload {
          return true;
        }
      }
      if json.None? {
        return false;
      }
      log := log + [Exchange(Entry(blkno, bhash, payload), reply)];
      if reply.Unreachable? {
        return false;
      }
      if reply.code == 200 || reply.code == 201 || reply.code == 204 {
        cachesvs := Some(Entry(blkno, bhash, payload));
        return true;
      }
      return false;
    }

    method Verify(q: Query) returns (err: Option<VerifyError>)
      modifies this
      ensures (View(), err) == VerifyHeader(q.ctx, old(View()), q.header, q.reply)
    {
      var h := q.header;
      if h.number.None? {
        return Some(UnknownBlock);
      }
      if h.time > q.ctx.now + 2 {
        return Some(FutureBlock);
      }
      if h.uncleHash != EmptyUncles {
        return Some(InvalidUncleHash);
      }
      if !q.ctx.forkHashOk(h) {
        return Some(ForkHashMismatch);
      }
      var number := h.number.value % UINT64_LIMIT;
      if number == 0 {
        return None;
      }
      var read := ReadExtra(h.extra);
      if read.failed {
        return Some(BadExtraData);
      }
      if !q.ctx.remoteSet {
        return Some(RemoteNotReady);
      }
      var ok := Send(q.ctx.marshal, number, HeaderHash(h), read.proof, q.reply);
      return if ok then None else Some(NotAccepted);
    }

    /** The goroutine of `VerifyHeaders`: `aborts(i)` says whether the i-th select takes the
        abort branch instead of emitting. */
    method VerifyHeaders(qs: seq<Query>, aborts: nat -> bool) returns (emitted: seq<Option<VerifyError>>)
      modifies this
      ensures emitted <= Results(old(View()), qs)
      // An aborted batch has verified one header more than it emitted.
      ensures View() == After(old(View()), qs[..if |emitted| < |qs| then |emitted| + 1 else |qs|])
      ensures CacheOk(old(View())) ==> CacheOk(View()) && EmittedAreBacked(View().log, qs, emitted)
      ensures (forall i: nat | i < |qs| :: !aborts(i)) ==> emitted == Results(old(View()), qs)
      ensures |emitted| < |qs| ==> aborts(|emitted|)
    {
      ghost var c := View();
      emitted := [];
      var i: nat := 0;
      while i < |qs|
        invariant i <= |qs| && emitted == Results(c, qs[..i]) && View() == After(c, qs[..i])
        invariant forall j: nat | j < i :: !aborts(j)
      {
        var err := Verify(qs[i]);
        ResultsStep(c, qs, i);
        if aborts(i) {
          EmittedFromBatch(c, qs, i, i + 1);
          return;
        }
        emitted := emitted + [err];
        i := i + 1;
      }
      EmittedFromBatch(c, qs, i, i);
      assert qs[..i] == qs;
    }
  }
}
