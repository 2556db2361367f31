/** The light client's reorg walk: from the last head it saw to a new one, roll back the
    abandoned headers and announce the new ones.  Models eth/filters/filter_system.go. */
module LightFilter {
  import opened Wrappers

  /** Hashes are injective identifiers: a hash is the header it was taken of. */
  datatype HeaderId = Zero | Keccak(header: LightHeader)
  datatype LightHeader = LightHeader(parent: HeaderId, number: nat, payload: int)

  datatype Call = Call(header: LightHeader, remove: bool)

  /** `rawdb.ReadHeader`: a stored header is found under its hash and its own number. */
  function ReadHeader(db: set<LightHeader>, h: HeaderId, number: int): (r: Option<LightHeader>)
    ensures r.Some? ==> h == Keccak(r.value) && r.value.number == number
  {
    if h.Keccak? && h.header in db && h.header.number == number then Some(h.header) else None
  }

  function Parent(db: set<LightHeader>, h: LightHeader): Option<LightHeader> {
    ReadHeader(db, h.parent, h.number - 1)
  }

  /** The chain that ends in a header, oldest first. */
  function Chain(h: LightHeader): (c: seq<LightHeader>)
    ensures |c| > 0 && c[|c| - 1] == h
  {
    (if h.number > 0 && h.parent.Keccak? then Chain(h.parent.header) else []) + [h]
  }

  /** Each header of a chain names the one before it. */
  predicate Linked(c: seq<LightHeader>) {
    forall i | 0 < i < |c| :: c[i].parent == Keccak(c[i - 1])
  }

  lemma {:induction false} ChainIsLinked(h: LightHeader)
    ensures Linked(Chain(h))
  {
    if h.number > 0 && h.parent.Keccak? {
      ChainIsLinked(h.parent.header);
    }
  }

  /** The whole ancestry of h, down to a genesis, can be read. */
  predicate Complete(db: set<LightHeader>, h: LightHeader)
    decreases h.number
  {
    h.number == 0 || (Parent(db, h).Some? && Complete(db, Parent(db, h).value))
  }

  function Reverse<T>(s: seq<T>): seq<T> {
    seq(|s|, i requires 0 <= i < |s| => s[|s| - 1 - i])
  }

  /** How far two chains agree. */
  function Common(a: seq<LightHeader>, b: seq<LightHeader>): (k: nat)
    ensures k <= |a| && k <= |b|
    ensures a[..k] == b[..k]
    ensures k < |a| && k < |b| ==> a[k] != b[k]
  {
    if |a| > 0 && |b| > 0 && a[0] == b[0] then
      var k := Common(a[1..], b[1..]);
      assert a[..k + 1] == [a[0]] + a[1..][..k];
      assert b[..k + 1] == [b[0]] + b[1..][..k];
      k + 1
    else 0
  }

  function Calls(hs: seq<LightHeader>, remove: bool): seq<Call> {
    seq(|hs|, i requires 0 <= i < |hs| => Call(hs[i], remove))
  }

  /** The specification: roll back what only the old chain has, tip first, then announce
      what only the new chain has, oldest first. */
  function Script(a: seq<LightHeader>, b: seq<LightHeader>): seq<Call> {
    var k := Common(a, b);
    Calls(Reverse(a[k..]), true) + Calls(b[k..], false)
  }

  class EventSystem {
    var lastHead: Option<LightHeader>

    constructor ()
      ensures lastHead == None
    {
      lastHead := None;
    }

    /** None stands for the nil dereference that stops the program. */
    method LightFilterNewHead(db: set<LightHeader>, newHeader: LightHeader) returns (calls: Option<seq<Call>>)
      modifies this
      ensures lastHead == Some(newHeader)
      ensures old(lastHead).None? ==> calls == Some([])
      ensures old(lastHead).Some? ==> (calls.None? <==> Panics(db, old(lastHead).value, newHeader))
      ensures old(lastHead).Some? && Complete(db, old(lastHead).value) && Complete(db, newHeader)
              && SameGenesis(old(lastHead).value, newHeader) ==>
                calls == Some(Script(Chain(old(lastHead).value), Chain(newHeader)))
      // Whatever is stored, this is what is reported.
      ensures old(lastHead).Some? && calls.Some? ==> calls.value == Report(db, old(lastHead).value, newHeader)
      // It always rolls back, and announces, an end of the respective chain.
      ensures old(lastHead).Some? && calls.Some? ==>
                exists removed, added ::
                  && calls.value == Calls(Reverse(removed), true) + Calls(added, false)
                  && IsSuffix(removed, Chain(old(lastHead).value))
                  && IsSuffix(added, Chain(newHeader))
    {
      var last := lastHead;
      lastHead := Some(newHeader);
      if last.None? {
        return Some([]);
      }
      var path := Walk(db, last.value, newHeader);
      PanicsExactly(db, last.value, newHeader);
      if Complete(db, last.value) && Complete(db, newHeader) && SameGenesis(last.value, newHeader) {
        PathMeets(db, last.value, newHeader);
      }
      if path.None? {
        return None;
      }
      var (oldHeaders, newHeaders) := path.value;
      PathIsSuffix(db, last.value, newHeader);
      PathIsReport(db, last.value, newHeader);
      ReverseTwice(oldHeaders);
      var script := Announce(oldHeaders, newHeaders);
      calls := Some(script);
    }

    /** A run of head events, each with the database as it is by then: while ancestries are
        complete, the callbacks of all of them keep a replaying stack equal to the chain of
        the last head. */
    method FollowHeads(events: seq<NewHead>) returns (calls: seq<Call>)
      requires lastHead.Some? && forall i | 0 <= i < |events| :: CanFollow(events, lastHead.value, i)
      modifies this
      ensures lastHead == Some(HeadBefore(events, old(lastHead).value, |events|))
      ensures calls == ScriptsUpTo(events, old(lastHead).value, |events|)
      ensures Replay(Chain(old(lastHead).value), calls) == Some(Chain(lastHead.value))
    {
      ghost var first := lastHead.value;
      calls := [];
      for i := 0 to |events|
        invariant lastHead == Some(HeadBefore(events, first, i))
        invariant calls == ScriptsUpTo(events, first, i)
        invariant Replay(Chain(first), calls) == Some(Chain(lastHead.value))
      {
        ghost var before := lastHead.value;
        assert CanFollow(events, first, i);
        var more := LightFilterNewHead(events[i].db, events[i].header);
        ScriptTurnsOldIntoNew(before, events[i].header);
        ReplayAppend(Chain(first), calls, more.value);
        calls := calls + more.value;
      }
    }

    static method Announce(oldHeaders: seq<LightHeader>, newHeaders: seq<LightHeader>) returns (calls: seq<Call>)
      ensures calls == Calls(oldHeaders, true) + Calls(Reverse(newHeaders), false)
    {
      calls := [];
      for i := 0 to |oldHeaders|
        invariant |calls| == i && forall j | 0 <= j < i :: calls[j] == Call(oldHeaders[j], true)
      {
        calls := calls + [Call(oldHeaders[i], true)];
      }
      var i := |newHeaders|;
      while i > 0
        invariant 0 <= i <= |newHeaders|
        invariant |calls| == |oldHeaders| + |newHeaders| - i
        invariant forall j | 0 <= j < |oldHeaders| :: calls[j] == Call(oldHeaders[j], true)
        invariant forall j | |oldHeaders| <= j < |calls| ::
                    calls[j] == Call(newHeaders[|newHeaders| - 1 - (j - |oldHeaders|)], false)
      {
        i := i - 1;
        calls := calls + [Call(newHeaders[i], false)];
      }
    }

    /** The search for the common ancestor: both lists tip first. */
    static method Walk(db: set<LightHeader>, oldTip: LightHeader, newTip: LightHeader) returns (path: Option<Lists>)
      ensures path == Path(db, oldTip, newTip)
    {
      var oldh, newh := oldTip, newTip;
      var oldHeaders, newHeaders := [], [];
      PrependedTwice([], [], [], [], Path(db, oldh, newh));
      while oldh != newh
        invariant Prepended(oldHeaders, newHeaders, Path(db, oldh, newh)) == Path(db, oldTip, newTip)
        decreases oldh.number + newh.number, oldh != newh
      {
        ghost var o, n, next := OldTurn(oldh, newh), NewTurn(oldh, newh), NextOld(db, oldh, newh);
        if next.Some? {
          PrependedTwice(oldHeaders, newHeaders, o, n, Path(db, next.value, NextNew(db, oldh, newh)));
        }
        ghost var olds, news := oldHeaders + o, newHeaders + n;
        if oldh.number >= newh.number {
          oldHeaders := oldHeaders + [oldh];
          var parent := ReadHeader(db, oldh.parent, oldh.number - 1);
          if parent.None? {
            return None; // the next comparison reads its number
          }
          oldh := parent.value;
        }
        if oldh.number < newh.number {
          newHeaders := newHeaders + [newh];
          var parent := ReadHeader(db, newh.parent, newh.number - 1);
          newh := if parent.None? then oldh else parent.value;
        }
        assert oldHeaders == olds && newHeaders == news;
      }
      assert oldHeaders + [] == oldHeaders && newHeaders + [] == newHeaders;
      path := Some((oldHeaders, newHeaders));
    }
  }

  datatype NewHead = NewHead(db: set<LightHeader>, header: LightHeader)

  function HeadBefore(events: seq<NewHead>, first: LightHeader, i: nat): LightHeader
    requires i <= |events|
  {
    if i == 0 then first else events[i - 1].header
  }

  /** What the first i events report, one script after the other. */
  function ScriptsUpTo(events: seq<NewHead>, first: LightHeader, i: nat): seq<Call>
    requires i <= |events|
  {
    if i == 0 then []
    else
      ScriptsUpTo(events, first, i - 1) + Script(Chain(HeadBefore(events, first, i - 1)), Chain(events[i - 1].header))
  }

  /** The ancestries of the i-th head and of the one before it can be read by then. */
  predicate CanFollow(events: seq<NewHead>, first: LightHeader, i: nat)
    requires i < |events|
  {
    var last := HeadBefore(events, first, i);
    Complete(events[i].db, last) && Complete(events[i].db, events[i].header) && SameGenesis(last, events[i].header)
  }

  predicate SameGenesis(oldh: LightHeader, newh: LightHeader) {
    Chain(oldh)[0] == Chain(newh)[0]
  }

  type Lists = (seq<LightHeader>, seq<LightHeader>)

  function Prepended(olds: seq<LightHeader>, news: seq<LightHeader>, rest: Option<Lists>): Option<Lists> {
    if rest.None? then None else Some((olds + rest.value.0, news + rest.value.1))
  }

  lemma PrependedTwice(olds: seq<LightHeader>, news: seq<LightHeader>, o: seq<LightHeader>, n: seq<LightHeader>,
                       rest: Option<Lists>)
    ensures Prepended(olds, news, Prepended(o, n, rest)) == Prepended(olds + o, news + n, rest)
    ensures Prepended([], [], rest) == rest
  {
    if rest.Some? {
      assert olds + (o + rest.value.0) == olds + o + rest.value.0
          && news + (n + rest.value.1) == news + n + rest.value.1;
      assert [] + rest.value.0 == rest.value.0 && [] + rest.value.1 == rest.value.1;
    }
  }

  /** One turn of the walk: which sides step down, and to where.  When the new side has no
      parent to step to, it jumps to the old one, which ends the walk. */
  function OldTurn(oldh: LightHeader, newh: LightHeader): seq<LightHeader> {
    if oldh.number >= newh.number then [oldh] else []
  }

  function NewTurn(oldh: LightHeader, newh: LightHeader): seq<LightHeader> {
    if oldh.number <= newh.number then [newh] else []
  }

  function NextOld(db: set<LightHeader>, oldh: LightHeader, newh: LightHeader): Option<LightHeader> {
    if oldh.number >= newh.number then Parent(db, oldh) else Some(oldh)
  }

  function NextNew(db: set<LightHeader>, oldh: LightHeader, newh: LightHeader): LightHeader
    requires NextOld(db, oldh, newh).Some?
  {
    if oldh.number > newh.number then newh
    else if Parent(db, newh).None? then NextOld(db, oldh, newh).value
    else Parent(db, newh).value
  }

  /** The two lists of the walk, as a recursion on the headers; None if it steps onto a
      missing ancestor of the old head. */
  function Path(db: set<LightHeader>, oldh: LightHeader, newh: LightHeader): Option<Lists>
    decreases oldh.number + newh.number
  {
    if oldh == newh then Some(([], []))
    else if NextOld(db, oldh, newh).None? then None
    else
      Prepended(OldTurn(oldh, newh), NewTurn(oldh, newh),
                Path(db, NextOld(db, oldh, newh).value, NextNew(db, oldh, newh)))
  }

  // ---------------------------------------------------------------- when the walk fails

  /** The earliest ancestor that can still be read. */
  function Lowest(db: set<LightHeader>, h: LightHeader): LightHeader
    decreases h.number
  {
    if Parent(db, h).None? then h else Lowest(db, Parent(db, h).value)
  }

  function AncestorAt(db: set<LightHeader>, h: LightHeader, number: nat): Option<LightHeader>
    decreases h.number
  {
    if h.number <= number then (if h.number == number then Some(h) else None)
    else if Parent(db, h).None? then None
    else AncestorAt(db, Parent(db, h).value, number)
  }

  /** The old ancestry gives out while the new one goes on past it, or never came up to it. */
  predicate Panics(db: set<LightHeader>, oldh: LightHeader, newh: LightHeader) {
    var lowest := Lowest(db, oldh);
    var across := AncestorAt(db, newh, lowest.number);
    newh.number < lowest.number || (across.Some? && across.value != lowest)
  }

  lemma {:induction false} LowestIsAncestor(db: set<LightHeader>, h: LightHeader)
    ensures AncestorAt(db, h, Lowest(db, h).number) == Some(Lowest(db, h)) && Lowest(db, h).number <= h.number
    decreases h.number
  {
    if Parent(db, h).Some? {
      LowestIsAncestor(db, Parent(db, h).value);
    }
  }

  lemma {:induction false} PanicsExactly(db: set<LightHeader>, oldh: LightHeader, newh: LightHeader)
    ensures Path(db, oldh, newh).None? <==> Panics(db, oldh, newh)
    decreases oldh.number + newh.number
  {
    LowestIsAncestor(db, oldh);
    if oldh != newh && NextOld(db, oldh, newh).Some? {
      LowestIsAncestor(db, NextOld(db, oldh, newh).value);
      PanicsExactly(db, NextOld(db, oldh, newh).value, NextNew(db, oldh, newh));
    }
  }

  /** An old head whose parent is missing, and a new head below it. */
  lemma CanPanic()
    ensures Panics({}, LightHeader(Zero, 5, 0), LightHeader(Zero, 3, 0))
  {
  }

  // ---------------------------------------------------------------- what the walk finds

  /** The part of an ancestry that can be read, from some number up, oldest first. */
  function ReadableFrom(db: set<LightHeader>, h: LightHeader, number: nat): seq<LightHeader>
    decreases h.number
  {
    if h.number < number then []
    else (if Parent(db, h).None? then [] else ReadableFrom(db, Parent(db, h).value, number)) + [h]
  }

  function Readable(db: set<LightHeader>, h: LightHeader): seq<LightHeader> {
    ReadableFrom(db, h, 0)
  }

  /** The callbacks of a walk that does not fail.  Ancestries that can be read down to the same
      header meet, and give the script between their readable parts.  Otherwise the new one
      gives out first: all that can be read of it is announced, and what the old one has from
      the same number up is rolled back. */
  function Report(db: set<LightHeader>, oldh: LightHeader, newh: LightHeader): seq<Call> {
    if Lowest(db, oldh) == Lowest(db, newh) then Script(Readable(db, oldh), Readable(db, newh))
    else Calls(Reverse(ReadableFrom(db, oldh, Lowest(db, newh).number)), true) + Calls(Readable(db, newh), false)
  }

  ghost predicate IsSuffix(s: seq<LightHeader>, c: seq<LightHeader>) {
    |s| <= |c| && c[|c| - |s|..] == s
  }

  lemma ReverseTwice<T>(s: seq<T>)
    ensures Reverse(Reverse(s)) == s
  {
  }

  lemma {:induction false} CommonOfLonger(a: seq<LightHeader>, b: seq<LightHeader>, x: LightHeader)
    requires |b| <= |a|
    ensures Common(a + [x], b) == Common(a, b) && Common(b, a + [x]) == Common(b, a)
  {
    if |b| > 0 && a[0] == b[0] {
      assert (a + [x])[1..] == a[1..] + [x];
      CommonOfLonger(a[1..], b[1..], x);
    }
  }

  lemma {:induction false} CommonOfParting(a: seq<LightHeader>, b: seq<LightHeader>, x: LightHeader, y: LightHeader)
    requires |a| == |b| && x != y
    ensures Common(a + [x], b + [y]) == Common(a, b)
  {
    if |a| > 0 && a[0] == b[0] {
      assert (a + [x])[1..] == a[1..] + [x] && (b + [y])[1..] == b[1..] + [y];
      CommonOfParting(a[1..], b[1..], x, y);
    }
  }

  lemma ExtendSuffix(list: seq<LightHeader>, c: seq<LightHeader>, h: LightHeader)
    requires IsSuffix(Reverse(list), c)
    ensures IsSuffix(Reverse([h] + list), c + [h])
  {
    assert Reverse([h] + list) == Reverse(list) + [h];
  }

  lemma ChainOfParent(db: set<LightHeader>, h: LightHeader)
    requires Parent(db, h).Some?
    ensures h.number > 0 && h.parent == Keccak(Parent(db, h).value)
    ensures Chain(h) == Chain(Parent(db, h).value) + [h] && Chain(Parent(db, h).value)[0] == Chain(h)[0]
  {
  }

  lemma TipIsSuffix(h: LightHeader)
    ensures IsSuffix(Reverse([h]), Chain(h)) && IsSuffix(Reverse([]), Chain(h))
  {
    assert Reverse([h]) == [h] && Reverse<LightHeader>([]) == [];
  }

  lemma SuffixThroughParent(db: set<LightHeader>, h: LightHeader, list: seq<LightHeader>)
    requires Parent(db, h).Some? && IsSuffix(Reverse(list), Chain(Parent(db, h).value))
    ensures IsSuffix(Reverse([h] + list), Chain(h))
  {
    ChainOfParent(db, h);
    ExtendSuffix(list, Chain(Parent(db, h).value), h);
  }

  /** The walk collects the end of each chain, whether or not an ancestor is missing. */
  lemma {:induction false} PathIsSuffix(db: set<LightHeader>, oldh: LightHeader, newh: LightHeader)
    requires Path(db, oldh, newh).Some?
    ensures var (olds, news) := Path(db, oldh, newh).value;
            IsSuffix(Reverse(olds), Chain(oldh)) && IsSuffix(Reverse(news), Chain(newh))
    decreases oldh.number + newh.number
  {
    TipIsSuffix(oldh);
    TipIsSuffix(newh);
    if oldh != newh {
      var oldh', newh' := NextOld(db, oldh, newh).value, NextNew(db, oldh, newh);
      PathIsSuffix(db, oldh', newh');
      var (olds, news) := Path(db, oldh', newh').value;
      OldListIsSuffix(db, oldh, newh, olds);
      NewListIsSuffix(db, oldh, newh, news);
    }
  }

  lemma OldListIsSuffix(db: set<LightHeader>, oldh: LightHeader, newh: LightHeader, olds: seq<LightHeader>)
    requires NextOld(db, oldh, newh).Some? && IsSuffix(Reverse(olds), Chain(NextOld(db, oldh, newh).value))
    ensures IsSuffix(Reverse(OldTurn(oldh, newh) + olds), Chain(oldh))
  {
    if oldh.number >= newh.number {
      SuffixThroughParent(db, oldh, olds);
    } else {
      assert [] + olds == olds;
    }
  }

  lemma NewListIsSuffix(db: set<LightHeader>, oldh: LightHeader, newh: LightHeader, news: seq<LightHeader>)
    requires NextOld(db, oldh, newh).Some? && IsSuffix(Reverse(news), Chain(NextNew(db, oldh, newh)))
    requires oldh.number <= newh.number && Parent(db, newh).None? ==> news == []
    ensures IsSuffix(Reverse(NewTurn(oldh, newh) + news), Chain(newh))
  {
    if oldh.number > newh.number {
      assert [] + news == news;
    } else if Parent(db, newh).None? {
      TipIsSuffix(newh);
      assert [newh] + news == [newh];
    } else {
      SuffixThroughParent(db, newh, news);
    }
  }

  /** How many headers of a readable ancestry have at least some number. */
  function Span(h: LightHeader, number: nat): nat {
    if h.number < number then 0 else h.number - number + 1
  }

  lemma GrowSuffix(s: seq<LightHeader>, c: seq<LightHeader>, h: LightHeader)
    requires IsSuffix(s, c)
    ensures IsSuffix(s + [h], c + [h])
  {
  }

  lemma {:induction false} ReadableIsSuffix(db: set<LightHeader>, h: LightHeader, number: nat)
    ensures IsSuffix(ReadableFrom(db, h, number), Chain(h))
    decreases h.number
  {
    if h.number >= number && Parent(db, h).Some? {
      ReadableIsSuffix(db, Parent(db, h).value, number);
      ChainOfParent(db, h);
      GrowSuffix(ReadableFrom(db, Parent(db, h).value, number), Chain(Parent(db, h).value), h);
    } else {
      TipIsSuffix(h);
      assert Reverse([h]) == [h] == [] + [h] && Reverse<LightHeader>([]) == [];
    }
  }

  lemma {:induction false} ReadableLength(db: set<LightHeader>, h: LightHeader, number: nat)
    ensures |ReadableFrom(db, h, number)| ==
              Span(h, if number < Lowest(db, h).number then Lowest(db, h).number else number)
    decreases h.number
  {
    LowestIsAncestor(db, h);
    if h.number >= number && Parent(db, h).Some? {
      ReadableLength(db, Parent(db, h).value, number);
      LowestIsAncestor(db, Parent(db, h).value);
    }
  }

  /** Two ends of one list are the same if they are as long. */
  lemma SameSuffix(s: seq<LightHeader>, t: seq<LightHeader>, c: seq<LightHeader>)
    requires IsSuffix(s, c) && IsSuffix(t, c) && |s| == |t|
    ensures s == t
  {
  }

  /** Readable ancestries that begin alike meet at the end of their common part. */
  lemma {:induction false} PathMeetsReadable(db: set<LightHeader>, oldh: LightHeader, newh: LightHeader)
    requires Lowest(db, oldh) == Lowest(db, newh)
    ensures Path(db, oldh, newh).Some?
    ensures var a, b := Readable(db, oldh), Readable(db, newh);
            && |Path(db, oldh, newh).value.0| == |a| - Common(a, b)
            && |Path(db, oldh, newh).value.1| == |b| - Common(a, b)
    decreases oldh.number + newh.number
  {
    ReadableLength(db, oldh, 0);
    ReadableLength(db, newh, 0);
    LowestIsAncestor(db, oldh);
    LowestIsAncestor(db, newh);
    if oldh == newh {
      CommonOfSelf(Readable(db, oldh));
    } else if oldh.number > newh.number {
      var p := Parent(db, oldh).value;
      PathMeetsReadable(db, p, newh);
      CommonOfLonger(Readable(db, p), Readable(db, newh), oldh);
    } else if oldh.number < newh.number {
      var p := Parent(db, newh).value;
      PathMeetsReadable(db, oldh, p);
      CommonOfLonger(Readable(db, p), Readable(db, oldh), newh);
    } else if Parent(db, oldh).Some? && Parent(db, newh).Some? {
      var p, q := Parent(db, oldh).value, Parent(db, newh).value;
      PathMeetsReadable(db, p, q);
      CommonOfParting(Readable(db, p), Readable(db, q), oldh, newh);
    }
  }

  /** Otherwise the walk, unless it fails, goes down to where the new ancestry gives out. */
  lemma {:induction false} PathGivesOut(db: set<LightHeader>, oldh: LightHeader, newh: LightHeader)
    requires Lowest(db, oldh) != Lowest(db, newh) && Path(db, oldh, newh).Some?
    ensures Lowest(db, oldh).number < Lowest(db, newh).number
    ensures |Path(db, oldh, newh).value.0| == Span(oldh, Lowest(db, newh).number)
    ensures |Path(db, oldh, newh).value.1| == Span(newh, Lowest(db, newh).number)
    decreases oldh.number + newh.number
  {
    LowestIsAncestor(db, oldh);
    LowestIsAncestor(db, newh);
    PanicsExactly(db, oldh, newh);
    var oldh', newh' := NextOld(db, oldh, newh).value, NextNew(db, oldh, newh);
    if oldh.number > newh.number || Parent(db, newh).Some? {
      PathGivesOut(db, oldh', newh');
      LowestIsAncestor(db, oldh');
    } else {
      assert Path(db, oldh', newh') == Some(([], []));
    }
  }

  /** The walk finds exactly what is reported. */
  lemma PathIsReport(db: set<LightHeader>, oldh: LightHeader, newh: LightHeader)
    requires Path(db, oldh, newh).Some?
    ensures var (olds, news) := Path(db, oldh, newh).value;
            Calls(olds, true) + Calls(Reverse(news), false) == Report(db, oldh, newh)
  {
    var (olds, news) := Path(db, oldh, newh).value;
    PathIsSuffix(db, oldh, newh);
    ReverseTwice(olds);
    var a, b := Readable(db, oldh), Readable(db, newh);
    ReadableIsSuffix(db, oldh, 0);
    ReadableIsSuffix(db, newh, 0);
    ReadableLength(db, oldh, 0);
    ReadableLength(db, newh, 0);
    if Lowest(db, oldh) == Lowest(db, newh) {
      PathMeetsReadable(db, oldh, newh);
      var k := Common(a, b);
      SameSuffix(Reverse(olds), a[k..], Chain(oldh));
      SameSuffix(Reverse(news), b[k..], Chain(newh));
    } else {
      var n := Lowest(db, newh).number;
      PathGivesOut(db, oldh, newh);
      ReadableIsSuffix(db, oldh, n);
      ReadableLength(db, oldh, n);
      SameSuffix(Reverse(olds), ReadableFrom(db, oldh, n), Chain(oldh));
      SameSuffix(Reverse(news), b, Chain(newh));
    }
  }

  lemma {:induction false} CompleteIsReadable(db: set<LightHeader>, h: LightHeader)
    requires Complete(db, h)
    ensures Readable(db, h) == Chain(h) && Lowest(db, h) == Chain(h)[0]
    decreases h.number
  {
    if h.number > 0 {
      CompleteIsReadable(db, Parent(db, h).value);
      ChainOfParent(db, h);
    }
  }

  /** When both ancestries are stored, it stops exactly at the end of the common part. */
  lemma PathMeets(db: set<LightHeader>, oldh: LightHeader, newh: LightHeader)
    requires Complete(db, oldh) && Complete(db, newh) && SameGenesis(oldh, newh)
    ensures Path(db, oldh, newh).Some?
    ensures var k := Common(Chain(oldh), Chain(newh));
            && |Path(db, oldh, newh).value.0| == |Chain(oldh)| - k
            && |Path(db, oldh, newh).value.1| == |Chain(newh)| - k
  {
    CompleteIsReadable(db, oldh);
    CompleteIsReadable(db, newh);
    PathMeetsReadable(db, oldh, newh);
  }

  // ---------------------------------------------------------------- what the script does

  /** The callbacks as operations on a stack of headers: removing anything but the top, or
      announcing a header whose parent is not the top, is an error. */
  function Replay(stack: seq<LightHeader>, calls: seq<Call>): Option<seq<LightHeader>>
    decreases |calls|
  {
    if |calls| == 0 then Some(stack)
    else
      var c := calls[0];
      if c.remove then
        if |stack| > 0 && stack[|stack| - 1] == c.header then Replay(stack[..|stack| - 1], calls[1..]) else None
      else if |stack| == 0 || c.header.parent == Keccak(stack[|stack| - 1]) then Replay(stack + [c.header], calls[1..])
      else None
  }

  lemma {:induction false} ReplayAppend(stack: seq<LightHeader>, first: seq<Call>, second: seq<Call>)
    requires Replay(stack, first).Some?
    ensures Replay(stack, first + second) == Replay(Replay(stack, first).value, second)
    decreases |first|
  {
    if |first| > 0 {
      var c := first[0];
      assert (first + second)[1..] == first[1..] + second;
      ReplayAppend(if c.remove then stack[..|stack| - 1] else stack + [c.header], first[1..], second);
    } else {
      assert first + second == second;
    }
  }

  lemma {:induction false} ReplayRemovals(base: seq<LightHeader>, top: seq<LightHeader>)
    ensures Replay(base + top, Calls(Reverse(top), true)) == Some(base)
  {
    if |top| > 0 {
      var rest := top[..|top| - 1];
      var calls := Calls(Reverse(top), true);
      assert calls[1..] == Calls(Reverse(rest), true);
      assert (base + top)[..|base + top| - 1] == base + rest;
      ReplayRemovals(base, rest);
    } else {
      assert base + top == base;
    }
  }

  lemma {:induction false} ReplayAdditions(base: seq<LightHeader>, top: seq<LightHeader>)
    requires Linked(base + top)
    ensures Replay(base, Calls(top, false)) == Some(base + top)
    decreases |top|
  {
    if |top| > 0 {
      assert Calls(top, false)[1..] == Calls(top[1..], false);
      assert base + [top[0]] + top[1..] == base + top;
      assert |base| > 0 ==> (base + top)[|base|].parent == Keccak((base + top)[|base| - 1]);
      ReplayAdditions(base + [top[0]], top[1..]);
    } else {
      assert base + top == base;
    }
  }

  /** The script turns the old head's chain into the new head's: every header rolled back is
      the tip of what is left, every header announced extends it. */
  lemma ScriptTurnsOldIntoNew(oldTip: LightHeader, newTip: LightHeader)
    ensures Replay(Chain(oldTip), Script(Chain(oldTip), Chain(newTip))) == Some(Chain(newTip))
  {
    ChainIsLinked(newTip);
    ReplayScript(Chain(oldTip), Chain(newTip));
  }

  lemma ReplayScript(a: seq<LightHeader>, b: seq<LightHeader>)
    requires Linked(b)
    ensures Replay(a, Script(a, b)) == Some(b)
  {
    var k := Common(a, b);
    assert a == a[..k] + a[k..] && b == b[..k] + b[k..];
    ReplayRemovals(a[..k], a[k..]);
    ReplayAppend(a, Calls(Reverse(a[k..]), true), Calls(b[k..], false));
    ReplayAdditions(a[..k], b[k..]);
  }

  lemma {:induction false} CommonOfExtension(a: seq<LightHeader>, b: seq<LightHeader>, x: LightHeader)
    ensures Common(a, b) <= Common(a + [x], b) <= Common(a, b) + 1
  {
    if |a| > 0 && |b| > 0 && a[0] == b[0] {
      CommonOfExtension(a[1..], b[1..], x);
      assert (a + [x])[1..] == a[1..] + [x];
    } else if |a| == 0 && |b| > 0 {
      assert (a + [x])[1..] == [];
    }
  }

  /** No valid script is shorter: every call changes the distance to the target by at most one. */
  lemma {:induction false} ScriptIsShortest(a: seq<LightHeader>, b: seq<LightHeader>, calls: seq<Call>)
    requires Replay(a, calls) == Some(b)
    ensures |Script(a, b)| == |a| + |b| - 2 * Common(a, b) <= |calls|
    decreases |calls|
  {
    if |calls| > 0 {
      var c := calls[0];
      if c.remove {
        var shorter := a[..|a| - 1];
        assert a == shorter + [c.header];
        CommonOfExtension(shorter, b, c.header);
        ScriptIsShortest(shorter, b, calls[1..]);
      } else {
        CommonOfExtension(a, b, c.header);
        ScriptIsShortest(a + [c.header], b, calls[1..]);
      }
    } else {
      CommonOfSelf(a);
    }
  }

  lemma {:induction a} CommonOfSelf(a: seq<LightHeader>)
    ensures Common(a, a) == |a|
  {
  }

  /** A header fixes the chain below it. */
  lemma {:induction false} ChainBelow(h: LightHeader, i: nat)
    requires i < |Chain(h)|
    ensures Chain(Chain(h)[i]) == Chain(h)[..i + 1]
  {
    var c := Chain(h);
    if i == |c| - 1 {
      assert c[..i + 1] == c;
    } else {
      ChainBelow(h.parent.header, i);
      assert c[..i + 1] == Chain(h.parent.header)[..i + 1];
    }
  }

  lemma {:induction false} ReadableBelow(db: set<LightHeader>, h: LightHeader, i: nat)
    requires i < |Readable(db, h)|
    ensures Readable(db, Readable(db, h)[i]) == Readable(db, h)[..i + 1]
    ensures Lowest(db, Readable(db, h)[i]) == Lowest(db, h)
    decreases h.number
  {
    var c := Readable(db, h);
    if i == |c| - 1 {
      assert c[..i + 1] == c;
    } else {
      ReadableBelow(db, Parent(db, h).value, i);
      assert c[..i + 1] == Readable(db, Parent(db, h).value)[..i + 1];
    }
  }

  /** Wherever two chains hold the same header they agree up to it. */
  predicate MeetForGood(a: seq<LightHeader>, b: seq<LightHeader>) {
    forall i, j | 0 <= i < |a| && 0 <= j < |b| && a[i] == b[j] :: a[..i + 1] == b[..j + 1]
  }

  lemma ChainsMeetForGood(oldTip: LightHeader, newTip: LightHeader)
    ensures MeetForGood(Chain(oldTip), Chain(newTip))
  {
    var a, b := Chain(oldTip), Chain(newTip);
    forall i, j | 0 <= i < |a| && 0 <= j < |b| && a[i] == b[j] ensures a[..i + 1] == b[..j + 1] {
      ChainBelow(oldTip, i);
      ChainBelow(newTip, j);
    }
  }

  lemma ReadableMeetForGood(db: set<LightHeader>, oldh: LightHeader, newh: LightHeader)
    ensures MeetForGood(Readable(db, oldh), Readable(db, newh))
  {
    var a, b := Readable(db, oldh), Readable(db, newh);
    forall i, j | 0 <= i < |a| && 0 <= j < |b| && a[i] == b[j] ensures a[..i + 1] == b[..j + 1] {
      ReadableBelow(db, oldh, i);
      ReadableBelow(db, newh, j);
    }
  }

  lemma RemovedIndex(a: seq<LightHeader>, b: seq<LightHeader>, h: LightHeader) returns (i: nat)
    requires Call(h, true) in Script(a, b)
    ensures Common(a, b) <= i < |a| && a[i] == h
  {
    var m: nat :| m < |Script(a, b)| && Script(a, b)[m] == Call(h, true);
    i := |a| - 1 - m;
  }

  lemma AddedIndex(a: seq<LightHeader>, b: seq<LightHeader>, h: LightHeader) returns (j: nat)
    requires Call(h, false) in Script(a, b)
    ensures Common(a, b) <= j < |b| && b[j] == h
  {
    var m: nat :| m < |Script(a, b)| && Script(a, b)[m] == Call(h, false);
    j := m - |a| + 2 * Common(a, b);
  }

  lemma PartedForGood(a: seq<LightHeader>, b: seq<LightHeader>, i: nat, j: nat)
    requires MeetForGood(a, b) && Common(a, b) <= i < |a| && Common(a, b) <= j < |b|
    ensures a[i] != b[j]
  {
    var k := Common(a, b);
    assert a[..i + 1][k] == a[k] && b[..j + 1][k] == b[k];
  }

  lemma ScriptNeverReAdds(a: seq<LightHeader>, b: seq<LightHeader>, h: LightHeader)
    requires MeetForGood(a, b)
    ensures Call(h, true) !in Script(a, b) || Call(h, false) !in Script(a, b)
  {
    if Call(h, true) in Script(a, b) && Call(h, false) in Script(a, b) {
      var i := RemovedIndex(a, b, h);
      var j := AddedIndex(a, b, h);
      PartedForGood(a, b, i, j);
    }
  }

  /** No header is both rolled back and announced. */
  lemma NothingIsRolledBackAndReAdded(oldTip: LightHeader, newTip: LightHeader, h: LightHeader)
    ensures var script := Script(Chain(oldTip), Chain(newTip));
            Call(h, true) !in script || Call(h, false) !in script
  {
    ChainsMeetForGood(oldTip, newTip);
    ScriptNeverReAdds(Chain(oldTip), Chain(newTip), h);
  }

  lemma {:induction false} ReadableFromReads(db: set<LightHeader>, h: LightHeader, number: nat, x: LightHeader)
    requires x in ReadableFrom(db, h, number)
    ensures Lowest(db, x) == Lowest(db, h)
    decreases h.number
  {
    if x != h {
      ReadableFromReads(db, Parent(db, h).value, number, x);
    }
  }

  /** Nor is it in any report, whatever part of the two ancestries can be read. */
  lemma NothingReportedTwice(db: set<LightHeader>, oldh: LightHeader, newh: LightHeader, h: LightHeader)
    ensures var report := Report(db, oldh, newh);
            Call(h, true) !in report || Call(h, false) !in report
  {
    if Lowest(db, oldh) == Lowest(db, newh) {
      ReadableMeetForGood(db, oldh, newh);
      ScriptNeverReAdds(Readable(db, oldh), Readable(db, newh), h);
    } else if Call(h, true) in Report(db, oldh, newh) && Call(h, false) in Report(db, oldh, newh) {
      var removed, added := ReadableFrom(db, oldh, Lowest(db, newh).number), Readable(db, newh);
      CallsOf(removed, added, h);
      ReadableFromReads(db, oldh, Lowest(db, newh).number, h);
      ReadableFromReads(db, newh, 0, h);
    }
  }

  lemma CallsOf(removed: seq<LightHeader>, added: seq<LightHeader>, h: LightHeader)
    ensures var calls := Calls(Reverse(removed), true) + Calls(added, false);
            (Call(h, true) in calls ==> h in removed) && (Call(h, false) in calls ==> h in added)
  {
  }
}
