/** What this node writes, others can verify: the header of a sealed candidate meets the checks
    that other nodes make of it, and carries the proof that they ask the remote about. */
module Acceptance {
  import opened Wrappers
  import opened ChainTypes
  import opened Execution
  import opened Blocks
  import opened Candidate
  import opened ExtraData
  import opened Pipeline
  import VerifySeal

  /** Any client accepts a written header exactly when its clock and its fork hash check allow
      it and the remote vouches for this number, hash and proof - but for numbers that are
      zero in their low 64 bits, about which nobody is asked. */
  lemma WrittenIsVerifiable(node: Node, head: nat, steps: seq<Step>, i: nat, c: VerifySeal.Client,
                            ctx: VerifySeal.Context, reply: VerifySeal.Reply)
    requires Metered(node.x) && SealsExtra(node) && IsRun(node, Init(head), steps)
    requires i < |RunOf(node, Init(head), steps).written|
    requires Fits(Extra(None, Some(RunOf(node, Init(head), steps).written[i].proof)))
    ensures var w := RunOf(node, Init(head), steps).written[i];
            var h := w.content.block.header;
            var q := VerifySeal.Query(ctx, h, reply);
            && h.number.Some?
            && ReadExtra(h.extra) == ReadResult(None, Some(w.proof), false)
            && (VerifySeal.VerifyHeader(ctx, c, h, reply).1.None? <==>
                  && h.time <= ctx.now + 2 && ctx.forkHashOk(h)
                  && (h.number.value % UINT64_LIMIT == 0 || (ctx.remoteSet && VerifySeal.VouchedFor(c, q))))
  {
    var w := RunOf(node, Init(head), steps).written[i];
    var h := w.content.block.header;
    WrittenBlocksExecute(node, head, steps, i);
    WrittenCarriesProof(node, head, steps, i);
    VerifySeal.AcceptedExactly(c, VerifySeal.Query(ctx, h, reply));
  }

  lemma WrittenCarriesProof(node: Node, head: nat, steps: seq<Step>, i: nat)
    requires Metered(node.x) && SealsExtra(node) && IsRun(node, Init(head), steps)
    requires i < |RunOf(node, Init(head), steps).written|
    requires Fits(Extra(None, Some(RunOf(node, Init(head), steps).written[i].proof)))
    ensures var w := RunOf(node, Init(head), steps).written[i];
            && w.content.block.header.number.Some?
            && ReadExtra(w.content.block.header.extra) == ReadResult(None, Some(w.proof), false)
  {
    SealAgreesWithBuild(node, head, steps);
    var s := RunOf(node, Init(head), steps);
    var j :| 0 <= j < |s.returned| && IsSealOf(node, s.written[i], s.returned[j]);
    SealKeepsRoot(node, s.written[i], s.returned[j]);
    SealOnlyChangesExtra(s.returned[j].block, s.written[i].proof, None);
  }
}
