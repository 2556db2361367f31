/** The build-seal-insert protocol under every interleaving: the chain head advances, head
    events clear what is pending, work requests start new cycles, and one RPC call at a time
    builds or seals, each of its own steps interleaved with all of that. */
module Pipeline {
  import opened Wrappers
  import opened ChainTypes
  import opened Execution
  import opened Packer
  import opened Blocks
  import opened Candidate
  import opened ExtraData
  import opened Batcher
  import ForkConfig

  /** What does not change while a node runs: how it executes, its configuration, and how its
      engine seals.  `SealedView` is the sealing of this engine. */
  datatype Node = Node(x: Executor, cfg: ForkConfig.ChainConfig, seal: (BlockView, BlockProof) -> BlockView)

  ghost predicate SealsExtra(node: Node) {
    forall v, proof | Fits(Extra(None, Some(proof))) :: node.seal(v, proof) == SealedView(v, proof, None)
  }

  /** Where the RPC thread stands. */
  datatype Rpc =
    | Idle
    | HeadChecked(n: nat)
    | SnapshotChecked(n: nat)
    | Refilled(n: nat)
    | Built(n: nat, task: TaskView, headThen: nat)
    | Sealing(bhash: Hash, proof: BlockProof, pending: BlockView)
    | Inserted(sealed: BlockView)

  /** What one seal call wrote, beside the hash and the proof it was called with. */
  datatype Insertion = Insertion(content: Written, bhash: Hash, proof: BlockProof)

  /** `returned` remembers every candidate a build call handed out, with the task behind it. */
  datatype System = System(
    head: nat,
    core: Core,
    cblock: Option<BlockView>,
    rpc: Rpc,
    returned: seq<TaskView>,
    written: seq<Insertion>,
    broadcast: seq<BlockView>
  )

  datatype Step =
    | AdvanceHead(to: nat)
    | ClearEvent
    | Work(parent: HeaderData, state: Option<World>, timestamp: nat, pool: Pool, localSig: Signal, remoteSig: Signal)
    | TakeSnapshot
    | SetEtherbase(a: Address)
    | BuildCall(number: nat)
    | CheckSnapshot
    | Refill(refill: Pool)
    | Assemble
    | BuildReturn
    | SealCall(bhash: Hash, proof: BlockProof)
    | Insert(writeOk: bool, newHead: nat)
    | Broadcast

  function Init(head: nat): System {
    System(head, Core(None, None, None, 0), None, Idle, [], [], [])
  }

  /** A work request reads the current block as parent and opens the state at its root; its
      snapshot is a step of its own.  One RPC call runs at a time.  Steps that would
      dereference a missing environment are not taken. */
  predicate Enabled(s: System, step: Step) {
    match step
    case AdvanceHead(to) => s.head <= to
    case Work(parent, state, _, _, _, _) =>
      && NumberOf(parent) == s.head
      && (state.Some? ==> parent.root.OfWorld? && parent.root.world == state.value)
    case TakeSnapshot => s.core.env.Some?
    case BuildCall(_) => s.rpc.Idle?
    case CheckSnapshot => s.rpc.HeadChecked?
    case Refill(_) => s.rpc.SnapshotChecked? && s.core.env.Some?
    case Assemble => s.rpc.Refilled? && s.core.env.Some?
    case BuildReturn => s.rpc.Built?
    case SealCall(_, _) => s.rpc.Idle?
    case Insert(_, newHead) => s.rpc.Sealing? && s.head <= newHead
    case Broadcast => s.rpc.Inserted?
    case _ => true
  }

  function Apply(node: Node, s: System, step: Step): System
    requires Enabled(s, step)
  {
    match step
    case AdvanceHead(to) => s.(head := to)
    case ClearEvent => s.(core := Cleared(s.core))
    case Work(parent, state, timestamp, pool, localSig, remoteSig) =>
      s.(core := NewWork(node.x, node.cfg, s.core, parent, state, timestamp, pool, localSig, remoteSig))
    case TakeSnapshot => s.(core := Snapshot(s.core))
    case SetEtherbase(a) => s.(core := s.core.(coinbase := a))
    case BuildCall(n) => if s.head == n then s.(rpc := HeadChecked(n)) else s
    case CheckSnapshot =>
      var n := s.rpc.n;
      s.(rpc := if s.core.snap.None? || NumberOf(s.core.snap.value.header) <= n then Idle else SnapshotChecked(n))
    case Refill(pool) => s.(core := Updated(node.x, node.cfg, s.core, pool), rpc := Refilled(s.rpc.n))
    case Assemble =>
      var core := Committed(node.cfg, s.core);
      s.(core := core, rpc := Built(s.rpc.n, core.task.value, s.head))
    case BuildReturn => s.(cblock := Some(s.rpc.task.block), returned := s.returned + [s.rpc.task], rpc := Idle)
    case SealCall(bhash, proof) =>
      if s.cblock.None? || HeaderHash(s.cblock.value.header) != bhash then s
      else s.(rpc := Sealing(bhash, proof, node.seal(s.cblock.value, proof)))
    case Insert(writeOk, newHead) =>
      if s.core.task.None? || !writeOk then s.(rpc := Idle)
      else
        var sealed := s.rpc.pending;
        s.(head := newHead, rpc := Inserted(sealed),
           written := s.written + [Insertion(Written(sealed, s.core.task.value.receipts, s.core.task.value.world),
                                              s.rpc.bhash, s.rpc.proof)])
    case Broadcast => s.(broadcast := s.broadcast + [s.rpc.sealed], rpc := Idle)
  }

  // ---------------------------------------------------------------- the invariant

  /** What is written is the seal of a candidate that a build call returned, made because
      the seal call named that candidate's hash, with the receipts and state of its task. */
  predicate WrittenOk(node: Node, returned: seq<TaskView>, w: Insertion) {
    exists i :: 0 <= i < |returned| && IsSealOf(node, w, returned[i])
  }

  predicate IsSealOf(node: Node, w: Insertion, t: TaskView) {
    && w.bhash == HeaderHash(t.block.header)
    && w.content == Written(node.seal(t.block, w.proof), t.receipts, t.world)
  }

  predicate IsWritten(written: seq<Insertion>, b: BlockView) {
    exists i :: 0 <= i < |written| && written[i].content.block == b
  }

  /** The number of the block that is being filled; 0 when there is none. */
  function EnvNumber(c: Core): nat {
    if c.env.None? then 0 else NumberOf(c.env.value.header)
  }

  predicate NumbersOk(head: nat, c: Core) {
    && EnvNumber(c) <= head + 1
    && (c.snap.Some? ==> c.env.Some? && NumberOf(c.snap.value.header) <= EnvNumber(c))
  }

  predicate RpcOk(node: Node, s: System) {
    match s.rpc
    case HeadChecked(n) => n <= s.head
    case SnapshotChecked(n) => n <= s.head && s.core.env.Some? && n < EnvNumber(s.core)
    case Refilled(n) => n <= s.head && s.core.env.Some? && n < EnvNumber(s.core)
    case Built(n, task, headThen) => n <= headThen <= s.head && n < NumberOf(task.block.header) <= headThen + 1
    case Sealing(bhash, proof, pending) =>
      s.cblock.Some? && bhash == HeaderHash(s.cblock.value.header) && pending == node.seal(s.cblock.value, proof)
    case Inserted(sealed) => IsWritten(s.written, sealed)
    case Idle => true
  }

  function Last(returned: seq<TaskView>): Option<TaskView> {
    if |returned| == 0 then None else Some(returned[|returned| - 1])
  }

  /** The candidate is the last one returned, and the pending task, if any, is its task;
      during the return of a build, the task of the block being returned. */
  predicate CandidateOk(s: System) {
    && s.cblock == (if Last(s.returned).None? then None else Some(Last(s.returned).value.block))
    && (s.core.task.Some? ==> s.core.task == if s.rpc.Built? then Some(s.rpc.task) else Last(s.returned))
  }

  predicate Shape(node: Node, s: System) {
    NumbersOk(s.head, s.core) && RpcOk(node, s) && CandidateOk(s)
  }

  ghost predicate EnvBuilds(node: Node, c: Core) {
    c.env.Some? ==>
      && EnvOk(node.x, c.env.value) && BuildsOn(c.env.value.header, c.env.value.parent)
      && c.env.value.header.bloom == []
  }

  ghost predicate TasksOk(node: Node, s: System) {
    && (s.rpc.Built? ==> TaskOk(node.x, node.cfg, s.rpc.task))
    && forall i | 0 <= i < |s.returned| :: TaskOk(node.x, node.cfg, s.returned[i])
  }

  predicate LogOk(node: Node, returned: seq<TaskView>, written: seq<Insertion>, broadcast: seq<BlockView>) {
    && (forall i | 0 <= i < |written| :: WrittenOk(node, returned, written[i]))
    && (forall i | 0 <= i < |broadcast| :: IsWritten(written, broadcast[i]))
  }

  ghost predicate Inv(node: Node, s: System) {
    && Shape(node, s)
    && EnvBuilds(node, s.core)
    && TasksOk(node, s)
    && LogOk(node, s.returned, s.written, s.broadcast)
  }

  lemma WorkKeeps(node: Node, head: nat, c: Core, parent: HeaderData, state: World, timestamp: nat,
                  pool: Pool, localSig: Signal, remoteSig: Signal)
    requires Metered(node.x) && NumberOf(parent) == head && parent.root.OfWorld? && parent.root.world == state
    ensures var e := NewWork(node.x, node.cfg, c, parent, Some(state), timestamp, pool, localSig, remoteSig).env.value;
            EnvOk(node.x, e) && BuildsOn(e.header, e.parent) && NumberOf(e.header) == head + 1 && e.header.bloom == []
  {
    var header := NewHeader(parent, timestamp);
    FillNewWorkKeeps(node.x, node.cfg, header, state, pool, c.coinbase, localSig, remoteSig);
    assert header.parentHash == HeaderHash(parent) && parent.root == OfWorld(state, parent.root.deleteEmpty);
    assert BuildsOn(header, state);
    var e := NewWork(node.x, node.cfg, c, parent, Some(state), timestamp, pool, localSig, remoteSig).env.value;
    SameParent(header, e.header, state);
  }

  /** What a step makes of the environment: only work that could open its state moves on to
      another block, the one after the head. */
  lemma EnvStep(node: Node, s: System, step: Step)
    requires Metered(node.x) && EnvBuilds(node, s.core) && Enabled(s, step)
    ensures var s' := Apply(node, s, step);
            && EnvBuilds(node, s'.core)
            && EnvMoved(s, s', step)
            && (step.Assemble? ==> TaskOk(node.x, node.cfg, s'.core.task.value))
  {
    match step
    case Work(parent, state, timestamp, pool, localSig, remoteSig) =>
      if state.Some? {
        WorkKeeps(node, s.head, s.core, parent, state.value, timestamp, pool, localSig, remoteSig);
      }
    case Refill(pool) =>
      var e := s.core.env.value;
      UpdateNewWorkKeeps(node.x, node.cfg, e, pool, s.core.coinbase);
      SameParent(e.header, UpdateNewWork(node.x, node.cfg, e, pool, s.core.coinbase).header, e.parent);
    case Assemble =>
      var e := s.core.env.value;
      CommittedTaskOk(node.x, node.cfg, s.core);
      SameParent(e.header, Committed(node.cfg, s.core).env.value.header, e.parent);
    case _ =>
  }

  /** The step moved the environment as `EnvStep` says. */
  predicate EnvMoved(s: System, s': System, step: Step) {
    && (s.core.env.Some? ==> s'.core.env.Some?)
    && EnvNumber(s'.core) == if step.Work? && step.state.Some? then s.head + 1 else EnvNumber(s.core)
  }

  lemma NumbersKeep(node: Node, s: System, step: Step)
    requires NumbersOk(s.head, s.core) && Enabled(s, step) && EnvMoved(s, Apply(node, s, step), step)
    ensures var s' := Apply(node, s, step); NumbersOk(s'.head, s'.core)
  {
  }

  lemma RpcKeeps(node: Node, s: System, step: Step)
    requires Shape(node, s) && Enabled(s, step) && EnvMoved(s, Apply(node, s, step), step)
    ensures RpcOk(node, Apply(node, s, step))
  {
    if step.Insert? && s.core.task.Some? && step.writeOk {
      var written := Apply(node, s, step).written;
      assert written[|s.written|].content.block == s.rpc.pending;
    }
  }

  lemma CandidateKeeps(node: Node, s: System, step: Step)
    requires CandidateOk(s) && Enabled(s, step)
    ensures CandidateOk(Apply(node, s, step))
  {
  }

  lemma ShapeKeeps(node: Node, s: System, step: Step)
    requires Shape(node, s) && Enabled(s, step) && EnvMoved(s, Apply(node, s, step), step)
    ensures Shape(node, Apply(node, s, step))
  {
    NumbersKeep(node, s, step);
    RpcKeeps(node, s, step);
    CandidateKeeps(node, s, step);
  }

  lemma TasksKeep(node: Node, s: System, step: Step)
    requires TasksOk(node, s) && Enabled(s, step)
    requires step.Assemble? ==> TaskOk(node.x, node.cfg, Apply(node, s, step).core.task.value)
    ensures TasksOk(node, Apply(node, s, step))
  {
    var s' := Apply(node, s, step);
    forall i | 0 <= i < |s'.returned| ensures TaskOk(node.x, node.cfg, s'.returned[i]) {
      assert i < |s.returned| ==> s'.returned[i] == s.returned[i];
    }
  }

  lemma ReturnedGrows(node: Node, returned: seq<TaskView>, t: TaskView, written: seq<Insertion>,
                      broadcast: seq<BlockView>)
    requires LogOk(node, returned, written, broadcast)
    ensures LogOk(node, returned + [t], written, broadcast)
  {
    forall i | 0 <= i < |written| ensures WrittenOk(node, returned + [t], written[i]) {
      var j :| 0 <= j < |returned| && IsSealOf(node, written[i], returned[j]);
      assert (returned + [t])[j] == returned[j];
    }
  }

  lemma WrittenGrows(node: Node, returned: seq<TaskView>, written: seq<Insertion>, broadcast: seq<BlockView>,
                     w: Insertion)
    requires LogOk(node, returned, written, broadcast) && WrittenOk(node, returned, w)
    ensures LogOk(node, returned, written + [w], broadcast)
  {
    forall i | 0 <= i < |broadcast| ensures IsWritten(written + [w], broadcast[i]) {
      var j :| 0 <= j < |written| && written[j].content.block == broadcast[i];
      assert (written + [w])[j].content.block == broadcast[i];
    }
  }

  lemma LogKeeps(node: Node, s: System, step: Step)
    requires Shape(node, s) && LogOk(node, s.returned, s.written, s.broadcast) && Enabled(s, step)
    ensures var s' := Apply(node, s, step); LogOk(node, s'.returned, s'.written, s'.broadcast)
  {
    if step.BuildReturn? {
      ReturnedGrows(node, s.returned, s.rpc.task, s.written, s.broadcast);
    } else if step.Insert? && s.core.task.Some? && step.writeOk {
      var t := s.core.task.value;
      var w := Insertion(Written(s.rpc.pending, t.receipts, t.world), s.rpc.bhash, s.rpc.proof);
      assert IsSealOf(node, w, s.returned[|s.returned| - 1]);
      WrittenGrows(node, s.returned, s.written, s.broadcast, w);
    }
  }

  /** Every step keeps the invariant. */
  lemma StepKeeps(node: Node, s: System, step: Step)
    requires Metered(node.x) && Inv(node, s) && Enabled(s, step)
    ensures Inv(node, Apply(node, s, step))
  {
    EnvStep(node, s, step);
    ShapeKeeps(node, s, step);
    TasksKeep(node, s, step);
    LogKeeps(node, s, step);
  }

  // ---------------------------------------------------------------- runs

  predicate IsRun(node: Node, s: System, steps: seq<Step>)
    decreases |steps|
  {
    |steps| > 0 ==> Enabled(s, steps[0]) && IsRun(node, Apply(node, s, steps[0]), steps[1..])
  }

  function RunOf(node: Node, s: System, steps: seq<Step>): System
    requires IsRun(node, s, steps)
    decreases |steps|
  {
    if |steps| == 0 then s else RunOf(node, Apply(node, s, steps[0]), steps[1..])
  }

  lemma {:induction false} RunKeeps(node: Node, s: System, steps: seq<Step>)
    requires Metered(node.x) && Inv(node, s) && IsRun(node, s, steps)
    ensures Inv(node, RunOf(node, s, steps))
    decreases |steps|
  {
    if |steps| > 0 {
      StepKeeps(node, s, steps[0]);
      RunKeeps(node, Apply(node, s, steps[0]), steps[1..]);
    }
  }

  /** In every reachable state the snapshot is no newer than the environment, which extends
      at most the head; and a build call for block n yields a block beyond n and at most
      one beyond the head it was assembled at. */
  lemma CandidateExtendsHead(node: Node, head: nat, steps: seq<Step>)
    requires Metered(node.x) && IsRun(node, Init(head), steps)
    ensures var s := RunOf(node, Init(head), steps);
            && (s.core.snap.Some? ==>
                  s.core.env.Some? && NumberOf(s.core.snap.value.header) <= NumberOf(s.core.env.value.header))
            && (s.core.env.Some? ==> NumberOf(s.core.env.value.header) <= s.head + 1)
            && (s.rpc.Built? ==> s.rpc.n < NumberOf(s.rpc.task.block.header) <= s.rpc.headThen + 1)
            && (s.rpc.Built? && s.rpc.headThen == s.rpc.n ==> NumberOf(s.rpc.task.block.header) == s.rpc.n + 1)
  {
    RunKeeps(node, Init(head), steps);
  }

  /** In every reachable state between calls the pending task is nil or the candidate's, and
      the candidate is the last block a build call returned.  Everything written is the seal
      of a returned candidate, named by its hash in the seal call that wrote it, with the
      receipts and state it executes to, under the root its header names; and only written
      blocks were broadcast. */
  lemma SealAgreesWithBuild(node: Node, head: nat, steps: seq<Step>)
    requires Metered(node.x) && IsRun(node, Init(head), steps)
    ensures var s := RunOf(node, Init(head), steps);
            && (s.rpc.Idle? && s.core.task.Some? ==>
                  s.core.task == Last(s.returned) && s.cblock == Some(s.core.task.value.block))
            && (forall i | 0 <= i < |s.returned| :: TaskOk(node.x, node.cfg, s.returned[i]))
            && (forall i | 0 <= i < |s.written| :: WrittenOk(node, s.returned, s.written[i]))
            && (forall i | 0 <= i < |s.broadcast| :: IsWritten(s.written, s.broadcast[i]))
  {
    RunKeeps(node, Init(head), steps);
  }

  /** Sealing changes neither what a block executes to nor the root that its header names. */
  lemma SealKeepsRoot(node: Node, w: Insertion, t: TaskView)
    requires SealsExtra(node) && Fits(Extra(None, Some(w.proof)))
    requires TaskOk(node.x, node.cfg, t) && IsSealOf(node, w, t)
    ensures w.content.block == SealedView(t.block, w.proof, None)
    ensures TaskOk(node.x, node.cfg, TaskView(w.content.receipts, w.content.world, w.content.block))
  {
    var sealed := TaskView(w.content.receipts, w.content.world, w.content.block);
    var state, authors :| BuildsOn(t.block.header, state) && ExecutesTo(node.x, t, state, authors);
    SameParent(t.block.header, sealed.block.header, state);
    assert ExecutesTo(node.x, sealed, state, authors);
  }

  /** So every block ever written executes, from the state of the parent it names, to the
      receipts and state written with it, and its header names that state's root. */
  lemma WrittenBlocksExecute(node: Node, head: nat, steps: seq<Step>, i: nat)
    requires Metered(node.x) && SealsExtra(node) && IsRun(node, Init(head), steps)
    requires i < |RunOf(node, Init(head), steps).written|
    requires Fits(Extra(None, Some(RunOf(node, Init(head), steps).written[i].proof)))
    ensures var w := RunOf(node, Init(head), steps).written[i].content;
            && NamesContents(w.block.header, w.block.txs, w.receipts)
            && TaskOk(node.x, node.cfg, TaskView(w.receipts, w.world, w.block))
            && w.block.header.root == OfWorld(w.world, node.cfg.IsEIP158(w.block.header.number))
  {
    SealAgreesWithBuild(node, head, steps);
    var s := RunOf(node, Init(head), steps);
    var j :| 0 <= j < |s.returned| && IsSealOf(node, s.written[i], s.returned[j]);
    SealKeepsRoot(node, s.written[i], s.returned[j]);
  }

  lemma RunCons(node: Node, s: System, step: Step, rest: seq<Step>)
    requires Enabled(s, step) && IsRun(node, Apply(node, s, step), rest)
    ensures IsRun(node, s, [step] + rest)
    ensures RunOf(node, s, [step] + rest) == RunOf(node, Apply(node, s, step), rest)
  {
    assert ([step] + rest)[1..] == rest;
  }

  /** Two written blocks with one transaction root carry the same transactions. */
  lemma TxHashNamesTransactions(node: Node, head: nat, steps: seq<Step>, i: nat, j: nat)
    requires Metered(node.x) && SealsExtra(node) && IsRun(node, Init(head), steps)
    requires var written := RunOf(node, Init(head), steps).written;
             && i < |written| && j < |written|
             && Fits(Extra(None, Some(written[i].proof))) && Fits(Extra(None, Some(written[j].proof)))
    ensures var s := RunOf(node, Init(head), steps);
            var a, b := s.written[i].content, s.written[j].content;
            && (a.block.header.txHash == b.block.header.txHash <==> a.block.txs == b.block.txs)
            && (a.block.header.receiptHash == b.block.header.receiptHash <==> a.receipts == b.receipts)
  {
    var s := RunOf(node, Init(head), steps);
    var a, b := s.written[i].content, s.written[j].content;
    WrittenBlocksExecute(node, head, steps, i);
    WrittenBlocksExecute(node, head, steps, j);
    NamesOneContents(a.block.header, b.block.header, a.block.txs, b.block.txs, a.receipts, b.receipts);
  }

  /** A seal call with nothing in between, for a candidate whose task is still pending, on a
      willing chain: it writes exactly the sealed candidate and broadcasts what it wrote. */
  lemma UninterruptedSeal(node: Node, s: System, proof: BlockProof, newHead: nat) returns (steps: seq<Step>)
    requires Inv(node, s) && s.rpc.Idle? && s.core.task.Some? && s.head <= newHead
    ensures IsRun(node, s, steps) && s.cblock == Some(s.core.task.value.block)
    ensures var t, bhash := s.core.task.value, HeaderHash(s.cblock.value.header);
            var sealed := node.seal(t.block, proof);
            RunOf(node, s, steps) ==
              s.(head := newHead,
                 written := s.written + [Insertion(Written(sealed, t.receipts, t.world), bhash, proof)],
                 broadcast := s.broadcast + [sealed])
  {
    var call := SealCall(HeaderHash(s.cblock.value.header), proof);
    var s1 := Apply(node, s, call);
    var s2 := Apply(node, s1, Insert(true, newHead));
    RunCons(node, s2, Broadcast, []);
    steps := [Broadcast] + [];
    RunCons(node, s1, Insert(true, newHead), steps);
    steps := [Insert(true, newHead)] + steps;
    RunCons(node, s, call, steps);
    steps := [call] + steps;
  }

  /** A seal call for any other hash, or without a candidate, changes nothing. */
  lemma WrongHashSealsNothing(node: Node, s: System, bhash: Hash, proof: BlockProof)
    requires s.rpc.Idle? && (s.cblock.None? || HeaderHash(s.cblock.value.header) != bhash)
    ensures Apply(node, s, SealCall(bhash, proof)) == s
  {
  }

  /** A build call for any number but the head's changes nothing. */
  lemma WrongNumberBuildsNothing(node: Node, s: System, n: nat)
    requires s.rpc.Idle? && s.head != n
    ensures Apply(node, s, BuildCall(n)) == s
  {
  }

  /** One for the head's number goes on exactly if there is a snapshot of a later block. */
  lemma SnapshotDecides(node: Node, s: System, n: nat)
    requires s.rpc.Idle? && s.head == n
    ensures var called := Apply(node, s, BuildCall(n));
            && called == s.(rpc := HeadChecked(n))
            && (s.core.snap.Some? && NumberOf(s.core.snap.value.header) > n ==>
                  Apply(node, called, CheckSnapshot) == s.(rpc := SnapshotChecked(n)))
            && (s.core.snap.None? || NumberOf(s.core.snap.value.header) <= n ==>
                  Apply(node, called, CheckSnapshot) == s)
  {
  }

  /** After a head event a build call is refused until there is a new snapshot. */
  lemma ClearedRefusesBuild(node: Node, s: System, n: nat)
    requires s.rpc.Idle? && s.head == n
    ensures var cleared := Apply(node, s, ClearEvent);
            cleared.core.task.None? && Apply(node, Apply(node, cleared, BuildCall(n)), CheckSnapshot) == cleared
  {
  }

  /** A seal call that names the right hash and meets a willing chain still writes nothing if
      a head event came first: the call then ends like one that wrote. */
  lemma SealCanWriteNothing(node: Node, s: System, proof: BlockProof)
    requires s.rpc.Idle? && s.cblock.Some?
    ensures var s1 := Apply(node, s, ClearEvent);
            var s2 := Apply(node, s1, SealCall(HeaderHash(s.cblock.value.header), proof));
            && s2.rpc.Sealing?
            && var s3 := Apply(node, s2, Insert(true, s.head));
               s3.rpc.Idle? && s3.written == s.written && s3.broadcast == s.broadcast
  {
  }

  /** The second half of a build call, from its refill on. */
  lemma FinishBuild(node: Node, s: System, pool: Pool) returns (steps: seq<Step>)
    requires s.rpc.SnapshotChecked? && s.core.env.Some?
    ensures IsRun(node, s, steps)
    ensures var s' := RunOf(node, s, steps);
            && s'.core == Committed(node.cfg, Updated(node.x, node.cfg, s.core, pool))
            && s' == s.(core := s'.core, cblock := Some(s'.core.task.value.block),
                        returned := s.returned + [s'.core.task.value], rpc := Idle)
  {
    var s1 := Apply(node, s, Refill(pool));
    var s2 := Apply(node, s1, Assemble);
    RunCons(node, s2, BuildReturn, []);
    steps := [BuildReturn] + [];
    RunCons(node, s1, Assemble, steps);
    steps := [Assemble] + steps;
    RunCons(node, s, Refill(pool), steps);
    steps := [Refill(pool)] + steps;
  }

  /** A build call with nothing in between is what `EcConnector.BuildBlock` does to its
      objects, and returns block n + 1, however old the snapshot it found was. */
  lemma UninterruptedBuild(node: Node, s: System, n: nat, pool: Pool) returns (steps: seq<Step>)
    requires Metered(node.x) && Inv(node, s) && s.rpc.Idle? && s.head == n
    requires s.core.snap.Some? && NumberOf(s.core.snap.value.header) > n
    ensures IsRun(node, s, steps)
    ensures var s' := RunOf(node, s, steps);
            && s.core.env.Some?
            && s'.core == Committed(node.cfg, Updated(node.x, node.cfg, s.core, pool))
            && s' == s.(core := s'.core, cblock := Some(s'.core.task.value.block),
                        returned := s.returned + [s'.core.task.value])
            && NumberOf(s'.cblock.value.header) == n + 1
  {
    var e := s.core.env.value;
    assert NumberOf(e.header) == n + 1;
    UpdateNewWorkKeeps(node.x, node.cfg, e, pool, s.core.coinbase);
    assert UpdateNewWork(node.x, node.cfg, e, pool, s.core.coinbase).header.number == e.header.number;
    var s1 := Apply(node, s, BuildCall(n));
    var s2 := Apply(node, s1, CheckSnapshot);
    steps := FinishBuild(node, s2, pool);
    RunCons(node, s1, CheckSnapshot, steps);
    steps := [CheckSnapshot] + steps;
    RunCons(node, s, BuildCall(n), steps);
    steps := [BuildCall(n)] + steps;
  }

  // ---------------------------------------------------------------- being overtaken

  /** New work on a later head than n, which could open its state. */
  predicate Overtakes(n: nat, step: Step) {
    step.Work? && step.state.Some? && NumberOf(step.parent) > n
  }

  predicate AnyOvertakes(n: nat, steps: seq<Step>) {
    exists i :: 0 <= i < |steps| && Overtakes(n, steps[i])
  }

  /** Since the call for block n passed its head check: what is being filled lies beyond
      block n + 1 exactly when some work has overtaken the call. */
  predicate InCall(s: System, n: nat, overtaken: bool) {
    && n <= s.head
    && (s.rpc.HeadChecked? || s.rpc.SnapshotChecked? || s.rpc.Refilled? ==> s.rpc.n == n)
    && (if overtaken then EnvNumber(s.core) > n + 1 else EnvNumber(s.core) <= n + 1)
  }

  lemma StepInCall(node: Node, s: System, n: nat, overtaken: bool, step: Step)
    requires Metered(node.x) && EnvBuilds(node, s.core) && NumbersOk(s.head, s.core)
    requires Enabled(s, step) && !step.BuildCall?
    requires InCall(s, n, overtaken)
    ensures InCall(Apply(node, s, step), n, overtaken || Overtakes(n, step))
  {
    EnvStep(node, s, step);
  }

  lemma OvertakenAtOnceOrLater(n: nat, steps: seq<Step>)
    requires |steps| > 0
    ensures AnyOvertakes(n, steps) <==> Overtakes(n, steps[0]) || AnyOvertakes(n, steps[1..])
  {
    if AnyOvertakes(n, steps[1..]) {
      var i :| 0 <= i < |steps[1..]| && Overtakes(n, steps[1..][i]);
      assert Overtakes(n, steps[i + 1]);
    }
    assert forall i | 0 < i < |steps| :: steps[i] == steps[1..][i - 1];
  }

  lemma {:induction false} RunInCall(node: Node, s: System, n: nat, overtaken: bool, steps: seq<Step>)
    requires Metered(node.x) && Inv(node, s) && IsRun(node, s, steps)
    requires forall i | 0 <= i < |steps| :: !steps[i].BuildCall?
    requires InCall(s, n, overtaken)
    ensures InCall(RunOf(node, s, steps), n, overtaken || AnyOvertakes(n, steps))
    decreases |steps|
  {
    if |steps| > 0 {
      assert !steps[0].BuildCall?;
      StepKeeps(node, s, steps[0]);
      StepInCall(node, s, n, overtaken, steps[0]);
      RunInCall(node, Apply(node, s, steps[0]), n, overtaken || Overtakes(n, steps[0]), steps[1..]);
      OvertakenAtOnceOrLater(n, steps);
    }
  }

  /** Exactly when `BuildBlock(n)` returns block n + 1, over every interleaving of its steps
      with everything else: no work on a later head has started since its head check. */
  lemma BuildYieldsNextBlock(node: Node, s: System, n: nat, steps: seq<Step>)
    requires Metered(node.x) && Inv(node, s) && s.rpc.Idle? && s.head == n
    requires var called := Apply(node, s, BuildCall(n));
             IsRun(node, called, steps) && Enabled(RunOf(node, called, steps), Assemble)
    requires forall i | 0 <= i < |steps| :: !steps[i].BuildCall?
    ensures var built := Apply(node, RunOf(node, Apply(node, s, BuildCall(n)), steps), Assemble);
            && built.rpc.Built? && built.rpc.n == n
            && (NumberOf(built.rpc.task.block.header) == n + 1 <==> !AnyOvertakes(n, steps))
  {
    var called := Apply(node, s, BuildCall(n));
    StepKeeps(node, s, BuildCall(n));
    RunKeeps(node, called, steps);
    RunInCall(node, called, n, false, steps);
  }

  /** A new head and the work for it, just before the refill of a running build call. */
  lemma Overtake(node: Node, s: System, p: HeaderData, w: World) returns (steps: seq<Step>)
    requires s.rpc.SnapshotChecked? && s.head < NumberOf(p) && p.root == OfWorld(w, false)
    ensures IsRun(node, s, steps)
    ensures var s' := RunOf(node, s, steps);
            s'.rpc.Built? && s'.rpc.n == s.rpc.n && NumberOf(s'.rpc.task.block.header) == NumberOf(p) + 1
  {
    var none: Signal := None;
    var work := Work(p, Some(w), 0, None, none, none);
    var s1 := Apply(node, s, AdvanceHead(NumberOf(p)));
    var s2 := Apply(node, s1, work);
    var s3 := Apply(node, s2, Refill(None));
    RunCons(node, s3, Assemble, []);
    steps := [Assemble] + [];
    RunCons(node, s2, Refill(None), steps);
    steps := [Refill(None)] + steps;
    RunCons(node, s1, work, steps);
    steps := [work] + steps;
    RunCons(node, s, AdvanceHead(NumberOf(p)), steps);
    steps := [AdvanceHead(NumberOf(p))] + steps;
  }

  /** Between its own steps a build call can be overtaken: called for block 0, it may return
      block 2 when a head and a work request arrive after its snapshot check. */
  lemma BuildCanBeOvertaken(node: Node, p0: HeaderData, p1: HeaderData, w: World)
    returns (steps: seq<Step>)
    requires p0.number == Some(0) && p1.number == Some(1)
    requires p0.root == OfWorld(w, false) && p1.root == OfWorld(w, false)
    ensures IsRun(node, Init(0), steps)
    ensures var s := RunOf(node, Init(0), steps);
            s.rpc.Built? && s.rpc.n == 0 && NumberOf(s.rpc.task.block.header) == 2
  {
    var none: Signal := None;
    var s0 := Init(0);
    var work := Work(p0, Some(w), 0, None, none, none);
    var s1 := Apply(node, s0, work);
    var s2 := Apply(node, s1, TakeSnapshot);
    var s3 := Apply(node, s2, BuildCall(0));
    var s4 := Apply(node, s3, CheckSnapshot);
    steps := Overtake(node, s4, p1, w);
    RunCons(node, s3, CheckSnapshot, steps);
    steps := [CheckSnapshot] + steps;
    RunCons(node, s2, BuildCall(0), steps);
    steps := [BuildCall(0)] + steps;
    RunCons(node, s1, TakeSnapshot, steps);
    steps := [TakeSnapshot] + steps;
    RunCons(node, s0, work, steps);
    steps := [work] + steps;
  }
}
