/** The node's copy of the contract is the contract: sync, on the log of any run, against the storage. */
module Refinement {
  import opened Common
  import opened Events
  import opened Protocol
  import opened Invariant
  import opened Runs
  import opened NodeTypes
  import opened InputFold
  import opened SealedFold
  import opened FinalizedFold
  import opened EpochFold

  // The node's inputs are those whose digests the contract keeps in a box.
  ghost predicate Hashed(inputs: EpochInputState, epoch: nat, box: seq<Digest>) {
    && inputs.epochNumber == epoch
    && |inputs.inputs| == |box|
    && forall i :: 0 <= i < |box| ==>
         box[i] == Digest(inputs.inputs[i].sender, inputs.inputs[i].timestamp, inputs.inputs[i].payload)
  }

  lemma SyncIsHashed(log: seq<Entry>, epoch: nat)
    ensures Hashed(InputSync(log, epoch), epoch, Digests(log, epoch))
  {
    InputsHaveDigests(log, epoch);
  }

  lemma RunIsGapless(d: Deployment, blocks: seq<Block>)
    requires ValidBlocks(d, blocks)
    ensures var s := Run(d, blocks);
            && |FinalsOf(s.log)| == |s.epochHashes|
            && Gapless(FinalsOf(s.log), 0)
            && forall k :: 0 <= k < |s.epochHashes| ==> FinalsOf(s.log)[k].event.finalHash == s.epochHashes[k]
  {
    RestingClaims(Run(d, blocks), d, Now(d, blocks));
  }

  // The node's finalized epochs are a window on the contract's hashes, with all the inputs of each; it
  // reaches the contract's last epoch exactly when it does not start beyond it.
  lemma FinalizedRefines(d: Deployment, blocks: seq<Block>, initial: nat, k: nat)
    requires ValidBlocks(d, blocks)
    ensures var s := Run(d, blocks); var r := FinalizedSync(s.log, initial);
            && r.Some?
            && (r.value.NextEpoch() == |s.epochHashes| <==> initial <= |s.epochHashes|)
            && (r.value.GetEpoch(k).Some? <==> initial <= k < |s.epochHashes|)
            && (r.value.GetEpoch(k).Some? ==>
                  var e := r.value.GetEpoch(k).value;
                  && e.epochNumber == k && e.hash == s.epochHashes[k] && Hashed(e.inputs, k, Digests(s.log, k))
                  && k < |Query(s.log, Finalizations)| && e.finalized == Query(s.log, Finalizations)[k].at)
  {
    var s := Run(d, blocks);
    RunIsGapless(d, blocks);
    SyncIsWindow(s.log, initial);
    WindowIsFaithful(s.log, initial, k);
    SyncIsHashed(s.log, k);
  }

  lemma LastChangeIsPhase(s: State, d: Deployment, now: uint256)
    requires PhaseInv(s) && TimeInv(s, d, now)
    ensures match LastChange(s.log)
            case None => s.phase.InputAccumulation? && LastMove(s.log, d.creation) == d.creation
            case Some((p, t)) => p == s.phase && LastMove(s.log, d.creation) == t
    ensures s.phase.InputAccumulation? ==> s.accumulationStart == LastMove(s.log, d.creation)
  {
  }

  // What the node should know of the sealed epoch: its inputs, and who has claimed what for it.
  ghost predicate SealedRefines(sealed: SealedEpochState, s: State) {
    var n := |s.epochHashes|;
    && sealed.EpochNumber() == n
    && Hashed(sealed.GetInputs(), n, s.inbox.Sealed())
    && (sealed.GetClaims().None? <==> s.manager.currentClaim == ZERO_HASH)
    && (forall h: Hash, v: Address :: v in SenderOf(sealed.GetClaims(), h) <==> (v, h) in Votes(s.log, n))
    && (forall i :: i in s.manager.goal ==>
          && i < |s.manager.validators|
          && (i in s.manager.agreement <==>
                s.manager.validators[i] in SenderOf(sealed.GetClaims(), s.manager.currentClaim)))
    && (sealed.GetClaims().Some? ==>
          && Query(s.log, Claims(n)) != []
          && sealed.GetClaims().value.firstClaimTimestamp == Query(s.log, Claims(n))[0].at.time)
  }

  lemma SealedSyncRefines(s: State)
    requires InboxInv(s) && ClaimsInv(s) && MaskInv(s) && !s.phase.InputAccumulation?
    ensures SealedRefines(SealedSync(s.log, |s.epochHashes|), s)
  {
    var n := |s.epochHashes|;
    SyncIsHashed(s.log, n);
    AddClaimsIsVotes(s.log, n);
    QueryMatches(s.log, Claims(n));
  }

  // The node's copy has the contract's phase, epochs, boxes, claims and times.
  ghost predicate Mirrors(e: EpochState, s: State, d: Deployment) {
    && e.finalizedEpochs.NextEpoch() == |s.epochHashes|
    && e.currentEpoch.epochNumber == s.CurrentEpoch()
    && Hashed(e.currentEpoch.inputs, s.CurrentEpoch(), s.inbox.Active())
    && !e.currentPhase.ContractAwaitsDispute?
    && (e.currentPhase.ContractAccumulates? <==> s.phase.InputAccumulation?)
    && (e.currentPhase.ContractAwaitsConsensus? ==> SealedRefines(e.currentPhase.sealedEpoch, s))
    && var move := (match e.phaseChangeTimestamp case None => d.creation case Some(t) => t);
       && move == LastMove(s.log, d.creation)
       && (s.phase.InputAccumulation? ==> move == s.accumulationStart)
       && (e.currentPhase.ContractAwaitsConsensus? ==> e.currentPhase.roundStart == move)
  }

  // Off chain refines on chain.
  lemma NodeRefinesContract(d: Deployment, blocks: seq<Block>, initial: nat)
    requires ValidBlocks(d, blocks)
    ensures var s := Run(d, blocks); var r := EpochSync(s.log, initial);
            initial <= |s.epochHashes| ==>
              && r.Some?
              && r.value.initialEpoch == initial
              && r.value.finalizedEpochs == FinalizedSync(s.log, initial).value
              && Mirrors(r.value, s, d)
  {
    hide SealedSync, Run, SealedRefines, Hashed, Query;
    var s, now := Run(d, blocks), Now(d, blocks);
    FinalizedRefines(d, blocks, initial, 0);
    RestingPhase(s, d, now);
    RestingTimes(s, d, now);
    RestingInbox(s, d, now);
    LastChangeIsPhase(s, d, now);
    SyncIsHashed(s.log, s.CurrentEpoch());
    if !s.phase.InputAccumulation? {
      RestingClaims(s, d, now);
      RestingMasks(s, d, now);
      SealedSyncRefines(s);
    }
  }

  // The phase the node reads is the contract's phase, wherever its window starts.
  lemma NodeNeverFails(d: Deployment, blocks: seq<Block>, initial: nat)
    requires ValidBlocks(d, blocks)
    ensures var s := Run(d, blocks); var r := EpochSync(s.log, initial);
            && r.Some?
            && !r.value.currentPhase.ContractAwaitsDispute?
            && (r.value.currentPhase.ContractAccumulates? <==> s.phase.InputAccumulation?)
  {
    hide SealedSync, Run;
    var s, now := Run(d, blocks), Now(d, blocks);
    FinalizedRefines(d, blocks, initial, 0);
    RestingPhase(s, d, now);
    RestingTimes(s, d, now);
    LastChangeIsPhase(s, d, now);
  }
}
