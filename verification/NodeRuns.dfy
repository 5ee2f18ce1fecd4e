/** Folding the blocks of a run one at a time gives the same as reading the whole log at the last one. */
module NodeRuns {
  import opened Common
  import opened Events
  import opened Protocol
  import opened Invariant
  import opened Steps
  import opened Runs
  import opened Theorems
  import opened Refinement
  import opened NodeTypes
  import opened InputFold
  import opened SealedFold
  import opened FinalizedFold
  import opened EpochFold

  function LogAt(d: Deployment, blocks: seq<Block>, k: nat): seq<Entry>
    requires ValidBlocks(d, blocks) && k <= |blocks|
  {
    Run(d, blocks[..k]).log
  }

  // The events of block k.
  function DeltaAt(d: Deployment, blocks: seq<Block>, k: nat): seq<Entry>
    requires ValidBlocks(d, blocks) && k < |blocks|
  {
    DeltaFollows(d, blocks, k);
    LogAt(d, blocks, k + 1)[|LogAt(d, blocks, k)|..]
  }

  // The on-chain invariants that the incremental reading relies on.
  lemma DeltaFollows(d: Deployment, blocks: seq<Block>, k: nat)
    requires ValidBlocks(d, blocks) && k < |blocks|
    ensures LogAt(d, blocks, k) <= LogAt(d, blocks, k + 1)
    ensures var delta := LogAt(d, blocks, k + 1)[|LogAt(d, blocks, k)|..];
            && LogAt(d, blocks, k + 1) == LogAt(d, blocks, k) + delta
            && Continues(LogAt(d, blocks, k), delta, blocks[k].at)
            && forall e: nat :: e < Run(d, blocks[..k]).CurrentEpoch() ==> Query(delta, Inputs(e)) == []
  {
    var past, upto := blocks[..k], blocks[..k + 1];
    assert upto[..|upto| - 1] == past;
    RunExtends(d, upto);
    var s, t := Run(d, past), Run(d, upto);
    RestingClaims(s, d, Now(d, past));
    RestingClaims(t, d, Now(d, upto));
    BlockContinues(s, t, blocks[k].at);
  }

  lemma BlockContinues(s: State, t: State, at: Moment)
    requires Extends(s, t, at) && FinalsInv(s) && FinalsInv(t)
    ensures var delta := t.log[|s.log|..];
            t.log == s.log + delta && Continues(s.log, delta, at)
  {
    var delta := t.log[|s.log|..];
    assert t.log == s.log + delta;
    QueryConcat(s.log, delta, Finalizations);
    assert Gapless(FinalsOf(s.log + delta), 0);
  }

  // What a node does that starts from scratch after `start` blocks and then folds block by block.
  ghost function Folded<S>(sync: seq<Entry> -> S, step: (S, Bloom, seq<Entry>, seq<Entry>, Moment) -> S,
                           d: Deployment, blocks: seq<Block>, blooms: seq<Bloom>, start: nat, k: nat): S
    requires ValidBlocks(d, blocks) && |blooms| == |blocks| && start <= k <= |blocks|
    decreases k
  {
    if k == start then sync(LogAt(d, blocks, k))
    else
      step(Folded(sync, step, d, blocks, blooms, start, k - 1), blooms[k - 1],
           LogAt(d, blocks, k), DeltaAt(d, blocks, k - 1), blocks[k - 1].at)
  }

  // Folding block k into what is right before it gives what is right after it.
  ghost predicate Sound<S(!new)>(sync: seq<Entry> -> S, step: (S, Bloom, seq<Entry>, seq<Entry>, Moment) -> S,
                                 d: Deployment, blocks: seq<Block>, blooms: seq<Bloom>, k: nat)
    requires ValidBlocks(d, blocks) && |blooms| == |blocks| && k < |blocks|
  {
    step(sync(LogAt(d, blocks, k)), blooms[k], LogAt(d, blocks, k + 1), DeltaAt(d, blocks, k), blocks[k].at)
    == sync(LogAt(d, blocks, k + 1))
  }

  lemma {:induction false} FoldIsSync<S(!new)>(
      sync: seq<Entry> -> S, step: (S, Bloom, seq<Entry>, seq<Entry>, Moment) -> S,
      d: Deployment, blocks: seq<Block>, blooms: seq<Bloom>, start: nat, k: nat)
    requires ValidBlocks(d, blocks) && |blooms| == |blocks| && start <= k <= |blocks|
    requires forall j: nat :: start <= j < k ==> Sound(sync, step, d, blocks, blooms, j)
    ensures Folded(sync, step, d, blocks, blooms, start, k) == sync(LogAt(d, blocks, k))
    decreases k
  {
    if k > start {
      FoldIsSync(sync, step, d, blocks, blooms, start, k - 1);
      assert Sound(sync, step, d, blocks, blooms, k - 1);
    }
  }

  // Every block's bloom reports at least the events of the block.
  ghost predicate Honest(d: Deployment, blocks: seq<Block>, blooms: seq<Bloom>) {
    && ValidBlocks(d, blocks)
    && |blooms| == |blocks|
    && forall k: nat :: k < |blocks| ==> NoFalseNegatives(blooms[k], DeltaAt(d, blocks, k))
  }

  // The four delegates, each as a sync and a step; a failed one stays failed.

  function InputReader(epoch: nat): seq<Entry> -> EpochInputState {
    log => InputSync(log, epoch)
  }

  function InputFolder(): (EpochInputState, Bloom, seq<Entry>, seq<Entry>, Moment) -> EpochInputState {
    (s, bloom: Bloom, log, delta, at) => InputStep(s, bloom, delta)
  }

  function SealedReader(epoch: nat): seq<Entry> -> SealedEpochState {
    log => SealedSync(log, epoch)
  }

  function SealedFolder(): (SealedEpochState, Bloom, seq<Entry>, seq<Entry>, Moment) -> SealedEpochState {
    (s, bloom: Bloom, log, delta, at) => SealedStep(s, bloom, delta)
  }

  function FinalizedReader(initial: nat): seq<Entry> -> Option<FinalizedEpochs> {
    log => FinalizedSync(log, initial)
  }

  function FinalizedFolder(): (Option<FinalizedEpochs>, Bloom, seq<Entry>, seq<Entry>, Moment) -> Option<FinalizedEpochs> {
    (s: Option<FinalizedEpochs>, bloom: Bloom, log, delta, at) => if s.None? then None else FinalizedStep(s.value, bloom, log, delta)
  }

  function EpochReader(initial: nat): seq<Entry> -> Option<EpochState> {
    log => EpochSync(log, initial)
  }

  function EpochFolder(): (Option<EpochState>, Bloom, seq<Entry>, seq<Entry>, Moment) -> Option<EpochState> {
    (s: Option<EpochState>, bloom: Bloom, log, delta, at) => if s.None? then None else EpochStep(s.value, bloom, log, delta, at)
  }

  lemma InputNodeAgrees(d: Deployment, blocks: seq<Block>, blooms: seq<Bloom>, start: nat, epoch: nat)
    requires Honest(d, blocks, blooms) && start <= |blocks|
    ensures Folded(InputReader(epoch), InputFolder(), d, blocks, blooms, start, |blocks|)
         == InputSync(Run(d, blocks).log, epoch)
  {
    forall j: nat | start <= j < |blocks|
      ensures Sound(InputReader(epoch), InputFolder(), d, blocks, blooms, j)
    {
      DeltaFollows(d, blocks, j);
      InputStepIsSync(LogAt(d, blocks, j), epoch, blooms[j], DeltaAt(d, blocks, j));
    }
    FoldIsSync(InputReader(epoch), InputFolder(), d, blocks, blooms, start, |blocks|);
    assert blocks[..|blocks|] == blocks;
  }

  lemma FinalizedNodeAgrees(d: Deployment, blocks: seq<Block>, blooms: seq<Bloom>, start: nat, initial: nat)
    requires Honest(d, blocks, blooms) && start <= |blocks|
    ensures FinalizedSync(Run(d, blocks).log, initial).Some?
    ensures Folded(FinalizedReader(initial), FinalizedFolder(), d, blocks, blooms, start, |blocks|)
         == FinalizedSync(Run(d, blocks).log, initial)
  {
    hide Run, FinalizedSync;
    FinalizedRefines(d, blocks, initial, 0);
    forall j: nat | start <= j < |blocks|
      ensures Sound(FinalizedReader(initial), FinalizedFolder(), d, blocks, blooms, j)
    {
      DeltaFollows(d, blocks, j);
      RunIsGapless(d, blocks[..j]);
      SyncIsWindow(LogAt(d, blocks, j), initial);
      FinalizedStepIsSync(LogAt(d, blocks, j), initial, blooms[j], DeltaAt(d, blocks, j));
    }
    FoldIsSync(FinalizedReader(initial), FinalizedFolder(), d, blocks, blooms, start, |blocks|);
    assert blocks[..|blocks|] == blocks;
  }

  // The sealed epoch's node keeps the inputs it started with.
  lemma {:induction false} SealedNodeIsStale(d: Deployment, blocks: seq<Block>, blooms: seq<Bloom>, start: nat, k: nat, epoch: nat)
    requires Honest(d, blocks, blooms) && start <= k <= |blocks|
    ensures Folded(SealedReader(epoch), SealedFolder(), d, blocks, blooms, start, k)
         == Sealed(epoch, InputSync(LogAt(d, blocks, start), epoch), AddClaims(None, ClaimsOf(LogAt(d, blocks, k), epoch)))
    decreases k
  {
    hide Run, InputSync, ClaimsOf, AddClaims, SealedStep;
    if k > start {
      SealedNodeIsStale(d, blocks, blooms, start, k - 1, epoch);
      DeltaFollows(d, blocks, k - 1);
      SealedStepAddsClaims(LogAt(d, blocks, k - 1), epoch, InputSync(LogAt(d, blocks, start), epoch),
                           blooms[k - 1], DeltaAt(d, blocks, k - 1));
    }
  }

  // So it is right exactly when the epoch gets no input after the start, as when it starts sealed.
  lemma SealedNodeAgrees(d: Deployment, blocks: seq<Block>, blooms: seq<Bloom>, start: nat, epoch: nat)
    requires Honest(d, blocks, blooms) && start <= |blocks|
    ensures var before, after := Run(d, blocks[..start]), Run(d, blocks);
            && (Folded(SealedReader(epoch), SealedFolder(), d, blocks, blooms, start, |blocks|) == SealedSync(after.log, epoch)
                <==> Digests(before.log, epoch) == Digests(after.log, epoch))
            && (epoch < before.CurrentEpoch() ==> Digests(before.log, epoch) == Digests(after.log, epoch))
  {
    hide Run, AddClaims;
    SealedNodeIsStale(d, blocks, blooms, start, |blocks|, epoch);
    assert blocks[..|blocks|] == blocks;
    RunIsLater(d, blocks, start);
    var before, after := Run(d, blocks[..start]).log, Run(d, blocks).log;
    SameDigestsSameInputs(before, after, epoch);
    if epoch < Run(d, blocks[..start]).CurrentEpoch() {
      SameQuerySameDigests(before, after, epoch);
    }
  }

  // A bloom that reports a change of phase that did not happen, while an epoch was sealed.
  ghost predicate FalseAlarm(d: Deployment, blocks: seq<Block>, blooms: seq<Bloom>, k: nat)
    requires ValidBlocks(d, blocks) && |blooms| == |blocks| && k < |blocks|
  {
    && PhaseHit(blooms[k])
    && Query(DeltaAt(d, blocks, k), PhaseChanges) == []
    && !Run(d, blocks[..k]).phase.InputAccumulation?
  }

  // One block: the epoch node goes wrong exactly at a false alarm.
  lemma EpochNodeStep(d: Deployment, blocks: seq<Block>, blooms: seq<Bloom>, k: nat, initial: nat)
    requires Honest(d, blocks, blooms) && k < |blocks|
    ensures Sound(EpochReader(initial), EpochFolder(), d, blocks, blooms, k) <==> !FalseAlarm(d, blocks, blooms, k)
  {
    hide Run, EpochSync, EpochStep;
    DeltaFollows(d, blocks, k);
    NodeNeverFails(d, blocks[..k], initial);
    EpochStepIsSync(LogAt(d, blocks, k), initial, blooms[k], DeltaAt(d, blocks, k), blocks[k].at);
  }

  // A false alarm misleads the node until the next change of phase.
  ghost predicate Misled(d: Deployment, blocks: seq<Block>, blooms: seq<Bloom>, start: nat, k: nat)
    requires ValidBlocks(d, blocks) && |blooms| == |blocks| && start <= k <= |blocks|
    decreases k
  {
    && k > start
    && Query(DeltaAt(d, blocks, k - 1), PhaseChanges) == []
    && (FalseAlarm(d, blocks, blooms, k - 1) || Misled(d, blocks, blooms, start, k - 1))
  }

  lemma PhaseStays(d: Deployment, blocks: seq<Block>, k: nat)
    requires ValidBlocks(d, blocks) && k < |blocks| && Query(DeltaAt(d, blocks, k), PhaseChanges) == []
    ensures Run(d, blocks[..k + 1]).phase == Run(d, blocks[..k]).phase
  {
    var past, upto := blocks[..k], blocks[..k + 1];
    assert upto[..|upto| - 1] == past;
    RunExtends(d, upto);
  }

  // A change of phase makes the node read everything again, whatever it believed before.
  lemma ChangeHeals(d: Deployment, blocks: seq<Block>, blooms: seq<Bloom>, k: nat, initial: nat, previous: EpochState)
    requires Honest(d, blocks, blooms) && k < |blocks|
    requires Query(DeltaAt(d, blocks, k), PhaseChanges) != [] && previous.initialEpoch == initial
    ensures EpochStep(previous, blooms[k], LogAt(d, blocks, k + 1), DeltaAt(d, blocks, k), blocks[k].at)
         == EpochSync(LogAt(d, blocks, k + 1), initial)
  {
    hide Run, FinalizedSync, ReadPhase;
    DeltaFollows(d, blocks, k);
    LastChangeGrows(LogAt(d, blocks, k), DeltaAt(d, blocks, k), blocks[k].at);
    if !PhaseHit(blooms[k]) {
      PhaseMiss(blooms[k], DeltaAt(d, blocks, k));
      assert false;
    }
  }

  lemma MisledStaysMisled(previous: EpochState, bloom: Bloom, log: seq<Entry>, delta: seq<Entry>, at: Moment)
    requires Query(delta, PhaseChanges) == [] && FinalizedSync(log, previous.initialEpoch).Some?
    requires PhaseHit(bloom) || previous.currentPhase.ContractAccumulates?
    ensures var r := EpochStep(previous, bloom, log, delta, at);
            r.Some? && r.value.initialEpoch == previous.initialEpoch && r.value.currentPhase.ContractAccumulates?
  {
    assert LastChange(delta).None?;
  }

  // What the node believes after k blocks: the truth, unless it is misled; then it takes a sealed epoch
  // for one that accumulates.
  ghost predicate Believes(r: Option<EpochState>, d: Deployment, blocks: seq<Block>, k: nat, initial: nat, misled: bool)
    requires ValidBlocks(d, blocks) && k <= |blocks|
  {
    && r.Some?
    && r.value.initialEpoch == initial
    && (r == EpochSync(LogAt(d, blocks, k), initial) <==> !misled)
    && (misled ==> r.value.currentPhase.ContractAccumulates? && !Run(d, blocks[..k]).phase.InputAccumulation?)
  }

  lemma BeliefMoves(d: Deployment, blocks: seq<Block>, blooms: seq<Bloom>, k: nat, initial: nat, previous: EpochState, misled: bool)
    requires Honest(d, blocks, blooms) && k < |blocks|
    requires Believes(Some(previous), d, blocks, k, initial, misled)
    ensures var delta := DeltaAt(d, blocks, k);
            Believes(EpochStep(previous, blooms[k], LogAt(d, blocks, k + 1), delta, blocks[k].at), d, blocks, k + 1, initial,
                     Query(delta, PhaseChanges) == [] && (FalseAlarm(d, blocks, blooms, k) || misled))
  {
    hide Run, EpochSync, EpochStep, FinalizedSync, Query;
    var log, delta := LogAt(d, blocks, k + 1), DeltaAt(d, blocks, k);
    NodeNeverFails(d, blocks[..k + 1], initial);
    SyncKeepsInitial(log, initial);
    if Query(delta, PhaseChanges) != [] {
      ChangeHeals(d, blocks, blooms, k, initial, previous);
    } else {
      PhaseStays(d, blocks, k);
      EpochNodeStep(d, blocks, blooms, k, initial);
      if misled || FalseAlarm(d, blocks, blooms, k) {
        NodeNeverFails(d, blocks[..k], initial);
        FinalizedRefines(d, blocks[..k + 1], initial, 0);
        MisledStaysMisled(previous, blooms[k], log, delta, blocks[k].at);
      }
    }
  }

  // Block by block equals from scratch exactly when no false alarm has come since the last change of phase.
  lemma {:induction false} EpochNodeAgrees(d: Deployment, blocks: seq<Block>, blooms: seq<Bloom>, start: nat, k: nat, initial: nat)
    requires Honest(d, blocks, blooms) && start <= k <= |blocks|
    ensures Believes(Folded(EpochReader(initial), EpochFolder(), d, blocks, blooms, start, k), d, blocks, k, initial,
                     Misled(d, blocks, blooms, start, k))
    decreases k
  {
    hide Run, EpochSync, EpochStep, FinalizedSync, Query;
    if k == start {
      NodeNeverFails(d, blocks[..k], initial);
      SyncKeepsInitial(LogAt(d, blocks, k), initial);
    } else {
      EpochNodeAgrees(d, blocks, blooms, start, k - 1, initial);
      var previous := Folded(EpochReader(initial), EpochFolder(), d, blocks, blooms, start, k - 1).value;
      BeliefMoves(d, blocks, blooms, k - 1, initial, previous, Misled(d, blocks, blooms, start, k - 1));
    }
  }

  lemma SyncKeepsInitial(log: seq<Entry>, initial: nat)
    ensures EpochSync(log, initial).Some? ==> EpochSync(log, initial).value.initialEpoch == initial
  {
  }
}
