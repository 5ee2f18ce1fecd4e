/** The logical state the node acts on, and what it predicts of the contracts at a block's time. */
module LogicalView {
  import opened Common
  import opened Events
  import opened ConsensusRules
  import opened Protocol
  import opened Invariant
  import opened Steps
  import opened Runs
  import opened Theorems
  import opened NodeTypes
  import opened SealedFold
  import opened EpochFold
  import opened Refinement

  // convert_raw_to_logical; None is a panic: an overflowing deadline, or a dispute left open.
  function Logical(raw: EpochState, constants: ImmutableState, time: uint256): Option<DescartesV2State> {
    var view := (phase: PhaseState, current: AccumulatingEpoch) =>
      Some(DescartesV2State(constants, raw.initialEpoch, raw.finalizedEpochs, current, phase));
    match raw.currentPhase
    case ContractAccumulates =>
      (var start := match raw.phaseChangeTimestamp case Some(t) => t case None => constants.creation;
       match CheckedAdd(start, constants.inputDuration)
       case None => None
       case Some(deadline) =>
         if time > deadline
         then view(EpochSealedAwaitingFirstClaim(raw.currentEpoch), NewAccumulatingEpoch(raw.currentEpoch.epochNumber + 1))
         else view(AccumulatingInputs, raw.currentEpoch))
    case ContractAwaitsConsensus(SealedEpochNoClaims(sealed), _) =>
      view(EpochSealedAwaitingFirstClaim(sealed), raw.currentEpoch)
    case ContractAwaitsConsensus(SealedEpochWithClaims(claimed), roundStart) =>
      (var first := claimed.claims.firstClaimTimestamp;
       var lastMove := if first < roundStart then roundStart else first;
       match CheckedAdd(lastMove, constants.challengePeriod)
       case None => None
       case Some(deadline) =>
         view(if time > deadline then ConsensusTimeout(claimed)
              else if lastMove == first then AwaitingConsensusNoConflict(claimed)
              else AwaitingConsensusAfterConflict(claimed, roundStart),
              raw.currentEpoch))
    case ContractAwaitsDispute(_) => None
  }

  function Constants(d: Deployment): ImmutableState {
    ImmutableState(d.cfg.inputDuration, d.cfg.challengePeriod, d.creation)
  }

  // The logical state at a time after some blocks.
  function View(d: Deployment, blocks: seq<Block>, initial: nat, time: uint256): Option<DescartesV2State>
    requires ValidBlocks(d, blocks)
  {
    NodeNeverFails(d, blocks, initial);
    Logical(EpochSync(Run(d, blocks).log, initial).value, Constants(d), time)
  }

  // An epoch that has run out is sealed in the logical view before it is sealed on chain: in effect the
  // view is that of the contract after the phase change that the next input or claim will make.
  lemma ViewSealsAhead(d: Deployment, blocks: seq<Block>, initial: nat, at: Moment)
    requires ValidBlocks(d, blocks) && initial <= |Run(d, blocks).epochHashes| && Now(d, blocks) <= at.time
    ensures var s := Run(d, blocks); var v := View(d, blocks, initial, at.time);
            && (Overdue(s, d.cfg, at).None? ==> v.None?)
            && (v.Some? ==>
                  var b := Sealing(s, d.cfg, at);
                  && (b.phase.InputAccumulation? <==> v.value.currentPhase.AccumulatingInputs?)
                  && v.value.currentEpoch.epochNumber == b.CurrentEpoch()
                  && Hashed(v.value.currentEpoch.inputs, b.CurrentEpoch(), b.inbox.Active()))
  {
    hide EpochSync, Digests, Mirrors, Run, LastMove;
    var s := Run(d, blocks);
    NodeRefinesContract(d, blocks, initial);
    RestingInbox(s, d, Now(d, blocks));
    ViewPhase(s, EpochSync(s.log, initial).value, d, at);
  }

  lemma ViewPhase(s: State, raw: EpochState, d: Deployment, at: Moment)
    requires InboxInv(s) && Mirrors(raw, s, d)
    ensures var v := Logical(raw, Constants(d), at.time);
            && (Overdue(s, d.cfg, at).None? ==> v.None?)
            && (v.Some? ==>
                  var b := Sealing(s, d.cfg, at);
                  && (b.phase.InputAccumulation? <==> v.value.currentPhase.AccumulatingInputs?)
                  && v.value.currentEpoch.epochNumber == b.CurrentEpoch()
                  && Hashed(v.value.currentEpoch.inputs, b.CurrentEpoch(), b.inbox.Active()))
  {
  }

  // The sealed epoch of a logical phase, with its inputs.
  function SealedPart(p: PhaseState): Option<(nat, EpochInputState)> {
    match p
    case AccumulatingInputs => None
    case EpochSealedAwaitingFirstClaim(e) => Some((e.epochNumber, e.inputs))
    case AwaitingConsensusNoConflict(e) => Some((e.epochNumber, e.inputs))
    case AwaitingConsensusAfterConflict(e, _) => Some((e.epochNumber, e.inputs))
    case ConsensusTimeout(e) => Some((e.epochNumber, e.inputs))
  }

  lemma ViewSealed(s: State, raw: EpochState, d: Deployment, at: Moment)
    requires ClaimsInv(s) && InboxInv(s) && !s.phase.AwaitingDispute? && Mirrors(raw, s, d)
    ensures var v := Logical(raw, Constants(d), at.time);
            v.Some? && !v.value.currentPhase.AccumulatingInputs? ==>
              var p := v.value.currentPhase;
              && (p.EpochSealedAwaitingFirstClaim? <==> s.manager.currentClaim == ZERO_HASH)
              && SealedPart(p).value.0 == |s.epochHashes|
              && Hashed(SealedPart(p).value.1, |s.epochHashes|,
                        if s.phase.InputAccumulation? then s.inbox.Active() else s.inbox.Sealed())
  {
    hide Digests;
  }

  // An input sent at this time goes to the epoch that the view calls current, after the inputs that the
  // view gives it; only its size can make it fail.
  lemma ViewPredictsInputs(d: Deployment, blocks: seq<Block>, initial: nat, at: Moment, sender: Address, payload: Payload)
    requires ValidBlocks(d, blocks) && initial <= |Run(d, blocks).epochHashes| && Now(d, blocks) <= at.time
    requires View(d, blocks, initial, at.time).Some?
    ensures var s, view := Run(d, blocks), View(d, blocks, initial, at.time).value;
            var r := Apply(s, d.cfg, at, SendInput(sender, payload));
            && (r.Some? <==> 0 < |payload| <= d.cfg.driveSize)
            && (r.Some? ==>
                  var t, digest := r.value, Digest(sender, at.time, payload);
                  && t.log != []
                  && t.log[|t.log| - 1] == Entry(at, InputAdded(view.currentEpoch.epochNumber, sender, at.time, payload))
                  && t.CurrentEpoch() == view.currentEpoch.epochNumber
                  && t.inbox.Active() != []
                  && t.inbox.Active()[|t.inbox.Active()| - 1] == digest
                  && Hashed(view.currentEpoch.inputs, t.CurrentEpoch(), t.inbox.Active()[..|t.inbox.Active()| - 1]))
  {
    hide View, Run, Hashed;
    var s := Run(d, blocks);
    ViewSealsAhead(d, blocks, initial, at);
    if Apply(s, d.cfg, at, SendInput(sender, payload)).Some? {
      InputSteps(s, d.cfg, at, sender, payload);
      var b := Sealing(s, d.cfg, at);
      assert b.inbox.Push(Digest(sender, at.time, payload)).Active() == b.inbox.Active() + [Digest(sender, at.time, payload)];
    }
  }

  lemma AgreeingClaimIsAccepted(s: State, cfg: Config, at: Moment, slot: nat, hash: Hash)
    requires WellFormed(s.manager) && slot in s.manager.goal && !s.phase.AwaitingDispute?
    requires hash != ZERO_HASH && s.manager.currentClaim in {ZERO_HASH, hash}
    ensures slot < |s.manager.validators| && s.manager.validators[slot] != ZERO_ADDRESS
    ensures var sender := s.manager.validators[slot];
            var a := AcceptClaim(s, cfg, at, sender, hash);
            && (a.Some? <==> Overdue(s, cfg, at).Some? && Sealing(s, cfg, at).phase.AwaitingConsensus?)
            && (a.Some? <==> Apply(s, cfg, at, SendClaim(sender, hash)).Some?)
            && (a.Some? ==>
                  && a.value.0.log != []
                  && a.value.0.log[|a.value.0.log| - 1] == Entry(at, Event.Claim(|s.epochHashes|, sender, hash))
                  && a.value.0.inbox.Sealed() == if s.phase.InputAccumulation? then s.inbox.Active() else s.inbox.Sealed())
  {
    assert slot in Slots(s.manager.validators);
    assert IndexOf(s.manager.validators, s.manager.validators[slot]) == Some(slot);
    AcceptedIsReady(s, cfg, at, s.manager.validators[slot], hash);
  }

  // A claim by a remaining validator that does not contradict the standing one is accepted exactly when
  // the view has a sealed epoch; it is recorded for that epoch, whose inputs the view has, and it is the
  // epoch's first one exactly when the view is waiting for it.
  lemma ViewPredictsClaims(d: Deployment, blocks: seq<Block>, initial: nat, at: Moment, slot: nat, hash: Hash)
    requires ValidBlocks(d, blocks) && initial <= |Run(d, blocks).epochHashes| && Now(d, blocks) <= at.time
    requires View(d, blocks, initial, at.time).Some?
    requires slot in Run(d, blocks).manager.goal
    requires hash != ZERO_HASH && Run(d, blocks).manager.currentClaim in {ZERO_HASH, hash}
    ensures var s, p := Run(d, blocks), View(d, blocks, initial, at.time).value.currentPhase;
            && slot < |s.manager.validators| && s.manager.validators[slot] != ZERO_ADDRESS
            && var sender := s.manager.validators[slot];
               var a := AcceptClaim(s, d.cfg, at, sender, hash);
               && (a.Some? <==> !p.AccumulatingInputs?)
               && (Apply(s, d.cfg, at, SendClaim(sender, hash)).Some? <==> !p.AccumulatingInputs?)
               && (a.Some? ==>
                     var t := a.value.0;
                     && t.log != []
                     && t.log[|t.log| - 1] == Entry(at, Event.Claim(SealedPart(p).value.0, sender, hash))
                     && Hashed(SealedPart(p).value.1, |s.epochHashes|, t.inbox.Sealed())
                     && (p.EpochSealedAwaitingFirstClaim? <==> s.manager.currentClaim == ZERO_HASH))
  {
    hide Run, EpochSync, Hashed, Mirrors, LastMove, AcceptClaim, Apply;
    var s, now := Run(d, blocks), Now(d, blocks);
    NodeRefinesContract(d, blocks, initial);
    RestingInbox(s, d, now);
    RestingClaims(s, d, now);
    RestingMasks(s, d, now);
    RestingPhase(s, d, now);
    ViewSealed(s, EpochSync(s.log, initial).value, d, at);
    ViewSealsAhead(d, blocks, initial, at);
    AgreeingClaimIsAccepted(s, d.cfg, at, slot, hash);
  }

  function ClaimsPart(p: PhaseState): Option<EpochClaims> {
    match p
    case AccumulatingInputs => None
    case EpochSealedAwaitingFirstClaim(_) => None
    case AwaitingConsensusNoConflict(e) => Some(e.claims)
    case AwaitingConsensusAfterConflict(e, _) => Some(e.claims)
    case ConsensusTimeout(e) => Some(e.claims)
  }

  lemma ViewVotes(s: State, raw: EpochState, d: Deployment, time: uint256, claimer: Address, hash: Hash)
    requires Mirrors(raw, s, d)
    requires s.phase.InputAccumulation? ==> Votes(s.log, |s.epochHashes|) == {}
    ensures var v := Logical(raw, Constants(d), time);
            v.Some? ==>
              var claims := ClaimsPart(v.value.currentPhase);
              && (claimer in SenderOf(claims, hash) <==> (claimer, hash) in Votes(s.log, |s.epochHashes|))
              && (claims.Some? ==> Query(s.log, Claims(|s.epochHashes|)) != []
                                   && claims.value.firstClaimTimestamp == Query(s.log, Claims(|s.epochHashes|))[0].at.time)
  {
    hide Hashed, Votes, Query;
  }

  // The view knows exactly who has claimed what for the epoch to be finalized next, and since when.
  lemma ViewKnowsVotes(d: Deployment, blocks: seq<Block>, initial: nat, time: uint256, claimer: Address, hash: Hash)
    requires ValidBlocks(d, blocks)
    ensures var s, v := Run(d, blocks), View(d, blocks, initial, time);
            v.Some? && initial <= |s.epochHashes| ==>
              var claims := ClaimsPart(v.value.currentPhase);
              && (claimer in SenderOf(claims, hash) <==> (claimer, hash) in Votes(s.log, |s.epochHashes|))
              && (claims.Some? ==> Query(s.log, Claims(|s.epochHashes|)) != []
                                   && claims.value.firstClaimTimestamp == Query(s.log, Claims(|s.epochHashes|))[0].at.time)
  {
    hide Run, EpochSync, Hashed, Mirrors, LastMove, Logical, Query, Votes;
    var s := Run(d, blocks);
    if initial <= |s.epochHashes| {
      NodeRefinesContract(d, blocks, initial);
      RestingClaims(s, d, Now(d, blocks));
      VotesAreClaims(s.log, |s.epochHashes|);
      ViewVotes(s, EpochSync(s.log, initial).value, d, time, claimer, hash);
    }
  }

  // The view's last move is the later of the first claim and the last change of phase.
  lemma ViewTimeout(s: State, raw: EpochState, d: Deployment, at: Moment)
    requires Mirrors(raw, s, d)
    ensures var v, claims := Logical(raw, Constants(d), at.time), Query(s.log, Claims(|s.epochHashes|));
            v.Some? && v.value.currentPhase.ConsensusTimeout? <==>
              && !s.phase.InputAccumulation?
              && s.manager.currentClaim != ZERO_HASH
              && claims != []
              && at.time > claims[0].at.time + d.cfg.challengePeriod
              && at.time > LastMove(s.log, d.creation) + d.cfg.challengePeriod
  {
    hide Hashed, Query, LastMove;
  }

  // The view calls a timeout as soon as the challenge period has passed since the first claim and since
  // the last change of phase.
  lemma TimeoutExactly(d: Deployment, blocks: seq<Block>, initial: nat, at: Moment)
    requires ValidBlocks(d, blocks) && initial <= |Run(d, blocks).epochHashes| && Now(d, blocks) <= at.time
    ensures var s, v := Run(d, blocks), View(d, blocks, initial, at.time);
            var claims := Query(s.log, Claims(|s.epochHashes|));
            v.Some? && v.value.currentPhase.ConsensusTimeout? <==>
              && s.phase.AwaitingConsensus?
              && claims != []
              && at.time > claims[0].at.time + d.cfg.challengePeriod
              && at.time > LastMove(s.log, d.creation) + d.cfg.challengePeriod
  {
    hide Run, EpochSync, Hashed, Mirrors, LastMove, Logical;
    var s, now := Run(d, blocks), Now(d, blocks);
    NodeRefinesContract(d, blocks, initial);
    RestingPhase(s, d, now);
    RestingClaims(s, d, now);
    QueryMatches(s.log, Claims(|s.epochHashes|));
    ViewTimeout(s, EpochSync(s.log, initial).value, d, at);
  }

  lemma ViewConflict(s: State, raw: EpochState, d: Deployment, at: Moment)
    requires Mirrors(raw, s, d)
    requires Logical(raw, Constants(d), at.time).Some?
    ensures var p, claims := Logical(raw, Constants(d), at.time).value.currentPhase, Query(s.log, Claims(|s.epochHashes|));
            && (p.AwaitingConsensusAfterConflict? <==>
                  && !p.ConsensusTimeout?
                  && !s.phase.InputAccumulation?
                  && s.manager.currentClaim != ZERO_HASH
                  && claims != []
                  && claims[0].at.time < LastMove(s.log, d.creation))
            && (p.AwaitingConsensusAfterConflict? ==> p.challengePeriodBase == LastMove(s.log, d.creation))
  {
    hide Hashed, Query, LastMove;
  }

  // The view reports a conflict exactly when a dispute came later than the epoch's first claim: a dispute
  // in the very block of that claim goes unnoticed. The base of the challenge period is the last dispute.
  lemma ConflictExactly(d: Deployment, blocks: seq<Block>, initial: nat, at: Moment)
    requires ValidBlocks(d, blocks) && initial <= |Run(d, blocks).epochHashes| && Now(d, blocks) <= at.time
    requires View(d, blocks, initial, at.time).Some?
    ensures var s, p := Run(d, blocks), View(d, blocks, initial, at.time).value.currentPhase;
            var claims, dispute := Query(s.log, Claims(|s.epochHashes|)), LastDispute(s.log);
            && (p.AwaitingConsensusAfterConflict? <==>
                  !p.ConsensusTimeout? && claims != [] && dispute.Some? && claims[0].at.time < dispute.value)
            && (p.AwaitingConsensusAfterConflict? ==> Some(p.challengePeriodBase) == dispute)
  {
    hide Run, EpochSync, Hashed, Mirrors, LastMove, Logical;
    var s, now := Run(d, blocks), Now(d, blocks);
    NodeRefinesContract(d, blocks, initial);
    RestingPhase(s, d, now);
    RestingClaims(s, d, now);
    RestingTimes(s, d, now);
    DisputeSetsClock(s.log);
    QueryMatches(s.log, Claims(|s.epochHashes|));
    ViewConflict(s, EpochSync(s.log, initial).value, d, at);
  }

  lemma ViewExists(s: State, raw: EpochState, d: Deployment, time: uint256)
    requires Mirrors(raw, s, d)
    ensures var claims := Query(s.log, Claims(|s.epochHashes|)); var move := LastMove(s.log, d.creation);
            Logical(raw, Constants(d), time).Some? <==>
              if s.phase.InputAccumulation? then move + d.cfg.inputDuration <= UINT256_MAX
              else s.manager.currentClaim == ZERO_HASH || claims == []
                   || (claims[0].at.time + d.cfg.challengePeriod <= UINT256_MAX && move + d.cfg.challengePeriod <= UINT256_MAX)
  {
    hide Hashed, Query, LastMove;
  }

  // There is a logical state unless a deadline overflows: that of the accumulation, or of the claims.
  lemma ViewExistsExactly(d: Deployment, blocks: seq<Block>, initial: nat, time: uint256)
    requires ValidBlocks(d, blocks) && initial <= |Run(d, blocks).epochHashes|
    ensures var s := Run(d, blocks);
            var claims := Query(s.log, Claims(|s.epochHashes|)); var move := LastMove(s.log, d.creation);
            View(d, blocks, initial, time).Some? <==>
              if s.phase.InputAccumulation? then move + d.cfg.inputDuration <= UINT256_MAX
              else claims == []
                   || (claims[0].at.time + d.cfg.challengePeriod <= UINT256_MAX && move + d.cfg.challengePeriod <= UINT256_MAX)
  {
    hide Run, EpochSync, Hashed, Mirrors, LastMove, Logical;
    var s := Run(d, blocks);
    NodeRefinesContract(d, blocks, initial);
    RestingClaims(s, d, Now(d, blocks));
    QueryMatches(s.log, Claims(|s.epochHashes|));
    ViewExists(s, EpochSync(s.log, initial).value, d, time);
  }

  // When the epoch was sealed by a claim, or has had a dispute, the view calls a timeout exactly when
  // finalizeEpoch would succeed.
  lemma TimeoutIsFinalizable(d: Deployment, blocks: seq<Block>, initial: nat, at: Moment)
    requires ValidBlocks(d, blocks) && initial <= |Run(d, blocks).epochHashes| && Now(d, blocks) <= at.time
    requires Clock(Run(d, blocks).log).Some?
    ensures var v := View(d, blocks, initial, at.time);
            v.Some? && v.value.currentPhase.ConsensusTimeout? <==> Apply(Run(d, blocks), d.cfg, at, SendFinalize).Some?
  {
    hide Run, View, LastMove, Apply;
    TimeoutExactly(d, blocks, initial, at);
    FinalizeExactly(d, blocks, at);
    RestingTimes(Run(d, blocks), d, Now(d, blocks));
  }

  // When a claimed epoch was sealed by an input and has had no dispute, they agree only when neither a
  // timeout is seen nor finalizeEpoch would succeed, or, for epoch 0, both.
  lemma TimeoutWithoutClock(d: Deployment, blocks: seq<Block>, initial: nat, at: Moment)
    requires ValidBlocks(d, blocks) && initial <= |Run(d, blocks).epochHashes| && Now(d, blocks) <= at.time
    requires Clock(Run(d, blocks).log).None?
    requires Run(d, blocks).phase.AwaitingConsensus? && Query(Run(d, blocks).log, Claims(|Run(d, blocks).epochHashes|)) != []
    ensures var s, v := Run(d, blocks), View(d, blocks, initial, at.time);
            var due := Query(s.log, Claims(|s.epochHashes|))[0].at.time + d.cfg.challengePeriod;
            ((v.Some? && v.value.currentPhase.ConsensusTimeout?) == Apply(s, d.cfg, at, SendFinalize).Some?)
            <==> if s.epochHashes == [] then at.time <= d.cfg.challengePeriod || at.time > due else at.time <= due
  {
    hide Run, View, LastMove, Apply;
    TimeoutExactly(d, blocks, initial, at);
    FinalizeExactly(d, blocks, at);
    RestingTimes(Run(d, blocks), d, Now(d, blocks));
  }
}
