/** The node's copy of the contract's state: from scratch, and one block at a time. */
module EpochFold {
  import opened Common
  import opened Events
  import opened NodeTypes
  import opened InputFold
  import opened SealedFold
  import opened FinalizedFold

  datatype ContractPhase =
    | ContractAccumulates
    | ContractAwaitsConsensus(sealedEpoch: SealedEpochState, roundStart: uint256)
    | ContractAwaitsDispute(claimedEpoch: EpochWithClaims)

  datatype EpochState = EpochState(
    currentPhase: ContractPhase,
    phaseChangeTimestamp: Option<uint256>,
    initialEpoch: nat,
    finalizedEpochs: FinalizedEpochs,
    currentEpoch: AccumulatingEpoch)

  // sync of the accumulating-epoch delegate
  function AccumulatingSync(log: seq<Entry>, epoch: nat): AccumulatingEpoch {
    AccumulatingEpoch(epoch, InputSync(log, epoch))
  }

  // The last PhaseChange event of a log or a block, with the time of its block.
  function LastChange(log: seq<Entry>): Option<(Phase, uint256)> {
    var q := Query(log, PhaseChanges);
    QueryMatches(log, PhaseChanges);
    if q == [] then None else Some((q[|q| - 1].event.newPhase, q[|q| - 1].at.time))
  }

  // The phase and the current epoch that the last change stands for, read from the sub-delegates; no
  // change at all stands for InputAccumulation. None: a dispute about an epoch without claims.
  function ReadPhase(log: seq<Entry>, change: Option<(Phase, uint256)>, next: nat): Option<(ContractPhase, AccumulatingEpoch)> {
    match change
    case None => Some((ContractAccumulates, AccumulatingSync(log, next)))
    case Some((InputAccumulation, _)) => Some((ContractAccumulates, AccumulatingSync(log, next)))
    case Some((AwaitingConsensus, time)) =>
      Some((ContractAwaitsConsensus(SealedSync(log, next), time), AccumulatingSync(log, next + 1)))
    case Some((AwaitingDispute, _)) =>
      match SealedSync(log, next)
      case SealedEpochNoClaims(_) => None
      case SealedEpochWithClaims(c) => Some((ContractAwaitsDispute(c), AccumulatingSync(log, next + 1)))
  }

  function EpochSync(log: seq<Entry>, initial: nat): Option<EpochState> {
    match FinalizedSync(log, initial)
    case None => None
    case Some(finalized) =>
      var change := LastChange(log);
      var time := match change case None => None case Some((_, t)) => Some(t);
      match ReadPhase(log, change, finalized.NextEpoch())
      case None => None
      case Some((phase, current)) => Some(EpochState(phase, time, initial, finalized, current))
  }

  predicate PhaseHit(bloom: Bloom) {
    bloom(AddressKey(DescartesContract)) && bloom(SignatureKey(PhaseChangeSignature))
  }

  // No change of phase: the sub-states are read again under the epoch numbers they had.
  function Refresh(log: seq<Entry>, phase: ContractPhase): Option<ContractPhase> {
    match phase
    case ContractAccumulates => Some(ContractAccumulates)
    case ContractAwaitsConsensus(e, start) => Some(ContractAwaitsConsensus(SealedSync(log, e.EpochNumber()), start))
    case ContractAwaitsDispute(e) =>
      match SealedSync(log, e.epochNumber)
      case SealedEpochNoClaims(_) => None
      case SealedEpochWithClaims(c) => Some(ContractAwaitsDispute(c))
  }

  // The log is that of the whole chain up to the block, whose own events are `delta`.
  function EpochStep(previous: EpochState, bloom: Bloom, log: seq<Entry>, delta: seq<Entry>, at: Moment): Option<EpochState> {
    if !PhaseHit(bloom) then
      match Refresh(log, previous.currentPhase)
      case None => None
      case Some(phase) =>
        Some(previous.(currentPhase := phase,
                       currentEpoch := AccumulatingSync(log, previous.currentEpoch.epochNumber)))
    else
      match FinalizedSync(log, previous.initialEpoch)
      case None => None
      case Some(finalized) =>
        var last := LastChange(delta);
        var change := match last case None => None case Some((p, _)) => Some((p, at.time));
        match ReadPhase(log, change, finalized.NextEpoch())
        case None => None
        case Some((phase, current)) =>
          Some(EpochState(phase, if last.None? then previous.phaseChangeTimestamp else Some(at.time),
                          previous.initialEpoch, finalized, current))
  }

  // What is needed of the block at `at`: beyond Follows, only a block with a change of phase finalizes.
  ghost predicate Continues(log: seq<Entry>, delta: seq<Entry>, at: Moment) {
    && Follows(log, delta)
    && (forall i :: 0 <= i < |delta| ==> delta[i].at == at)
    && (Query(delta, PhaseChanges) == [] ==> Query(delta, Finalizations) == [])
  }

  lemma LastChangeGrows(log: seq<Entry>, delta: seq<Entry>, at: Moment)
    requires Continues(log, delta, at)
    ensures LastChange(log + delta) ==
      match LastChange(delta)
      case None => LastChange(log)
      case Some((p, _)) => Some((p, at.time))
  {
    QueryConcat(log, delta, PhaseChanges);
    QueryMatches(delta, PhaseChanges);
  }

  lemma NothingFinalized(log: seq<Entry>, delta: seq<Entry>, initial: nat)
    requires Follows(log, delta) && Query(delta, Finalizations) == []
    ensures FinalizedSync(log + delta, initial) == FinalizedSync(log, initial)
  {
    WindowGrows(log, initial, delta);
    SyncIsWindow(log, initial);
    SyncIsWindow(log + delta, initial);
    assert Window(log, initial).epochs + [] == Window(log, initial).epochs;
  }

  lemma PhaseMiss(bloom: Bloom, delta: seq<Entry>)
    requires NoFalseNegatives(bloom, delta) && !PhaseHit(bloom)
    ensures Query(delta, PhaseChanges) == []
  {
    if !bloom(AddressKey(DescartesContract)) {
      MissMeansNone(bloom, delta, PhaseChanges, AddressKey(DescartesContract));
    } else {
      MissMeansNone(bloom, delta, PhaseChanges, SignatureKey(PhaseChangeSignature));
    }
  }

  // Folding the block agrees with reading everything again, unless the bloom reports a change of phase
  // that did not happen while the contract was not accumulating: then it never agrees.
  lemma EpochStepIsSync(log: seq<Entry>, initial: nat, bloom: Bloom, delta: seq<Entry>, at: Moment)
    requires NoFalseNegatives(bloom, delta) && Continues(log, delta, at) && EpochSync(log, initial).Some?
    ensures var previous := EpochSync(log, initial).value;
            EpochStep(previous, bloom, log + delta, delta, at) == EpochSync(log + delta, initial)
            <==> !(PhaseHit(bloom) && Query(delta, PhaseChanges) == [] && !previous.currentPhase.ContractAccumulates?)
  {
    hide FinalizedSync, SealedSync, InputSync, Query;
    LastChangeGrows(log, delta, at);
    if Query(delta, PhaseChanges) == [] {
      NothingFinalized(log, delta, initial);
      SealedKeepsItsNumber(log + delta, FinalizedSync(log, initial).value.NextEpoch());
      SealedKeepsItsNumber(log, FinalizedSync(log, initial).value.NextEpoch());
      assert LastChange(delta).None?;
    } else {
      if !PhaseHit(bloom) {
        PhaseMiss(bloom, delta);
        assert false;
      }
    }
  }

  lemma SealedKeepsItsNumber(log: seq<Entry>, epoch: nat)
    ensures var s := SealedSync(log, epoch);
            s.EpochNumber() == epoch && (s.SealedEpochWithClaims? ==> s.claimedEpoch.epochNumber == epoch)
  {
  }
}
