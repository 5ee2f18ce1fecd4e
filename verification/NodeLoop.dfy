/** The node over a whole run: at every block it reads the chain and catches its machine up. */
module NodeLoop {
  import opened Common
  import opened Events
  import opened Protocol
  import opened Invariant
  import opened Runs
  import opened Theorems
  import opened DueEpochs
  import opened ConsensusRules
  import opened Steps
  import opened Support
  import opened NodeTypes
  import opened InputFold
  import opened SealedFold
  import opened FinalizedFold
  import opened EpochFold
  import opened Refinement
  import opened LogicalView
  import opened CatchUp

  // The inputs of every epoch, as of a log.
  ghost function ChainOf(log: seq<Entry>): Chain {
    (e: nat) => InputsOf(log, e)
  }

  // Later blocks only add to the inputs of an epoch, and only while its time is not up.
  lemma ChainGrows(d: Deployment, blocks: seq<Block>, i: nat, epoch: nat)
    requires ValidBlocks(d, blocks) && i <= |blocks|
    ensures ValidBlocks(d, blocks[..i])
    ensures var s, t := Run(d, blocks[..i]), Run(d, blocks);
            && ChainOf(s.log)(epoch) <= ChainOf(t.log)(epoch)
            && (epoch < DueEpoch(s, d.cfg, Now(d, blocks[..i])) ==> ChainOf(s.log)(epoch) == ChainOf(t.log)(epoch))
  {
    hide Run, InputsOf, Query, DueEpoch, Now;
    RunIsLater(d, blocks, i);
    DueIsFinal(d, blocks, i);
    var s, t := Run(d, blocks[..i]), Run(d, blocks);
    var delta := t.log[|s.log|..];
    assert t.log == s.log + delta;
    InputsOfConcat(s.log, delta, epoch);
    if epoch < DueEpoch(s, d.cfg, Now(d, blocks[..i])) {
      SameQuerySameDigests(s.log, t.log, epoch);
      SameDigestsSameInputs(s.log, t.log, epoch);
    }
  }

  // A machine that was in step with the chain, and not ahead of it, still is at a later block.
  lemma StaysInStep(machine: Machine, d: Deployment, blocks: seq<Block>, i: nat, from: nat)
    requires ValidBlocks(d, blocks) && i <= |blocks| && ValidBlocks(d, blocks[..i])
    requires InStep(machine, d, blocks[..i], from)
    ensures InStep(machine, d, blocks, from)
  {
    hide Run, ChainOf, DueEpoch, Now;
    ChainGrows(d, blocks, i, machine.epoch);
    DueIsFinal(d, blocks, i);
    forall e: nat | from <= e < machine.epoch
      ensures e in machine.finished && machine.finished[e] == ChainOf(Run(d, blocks).log)(e)
    {
      ChainGrows(d, blocks, i, e);
    }
  }

  // The machine has only been given inputs of the chain, all of them for the epochs it has left, and it
  // has left none whose time is not up.
  ghost predicate InStep(machine: Machine, d: Deployment, blocks: seq<Block>, from: nat)
    requires ValidBlocks(d, blocks)
    reads machine
  {
    machine.Holds(ChainOf(Run(d, blocks).log), from) && machine.epoch <= DueEpoch(Run(d, blocks), d.cfg, Now(d, blocks))
  }

  lemma NodeKnows(d: Deployment, blocks: seq<Block>, initial: nat)
    requires ValidBlocks(d, blocks)
    ensures FinalizedSync(Run(d, blocks).log, initial).Some?
    ensures Knows(FinalizedSync(Run(d, blocks).log, initial).value, ChainOf(Run(d, blocks).log))
  {
    hide Run, FinalizedSync;
    RunIsGapless(d, blocks);
    SyncIsWindow(Run(d, blocks).log, initial);
    WindowKnows(Run(d, blocks).log, initial);
  }

  lemma WindowKnows(log: seq<Entry>, initial: nat)
    requires Gapless(FinalsOf(log), 0)
    ensures Knows(Window(log, initial), ChainOf(log))
  {
    hide Window, FinalsOf, InputsOf;
    var store := Window(log, initial);
    WindowIsFaithful(log, initial, initial);
    assert store.initialEpoch == initial by {
      KeepsInitial(log, initial);
    }
    forall e: nat | initial <= e < store.NextEpoch()
      ensures store.epochs[e - initial].inputs.inputs == ChainOf(log)(e)
    {
      WindowIsFaithful(log, initial, e);
    }
  }

  lemma KeepsInitial(log: seq<Entry>, initial: nat)
    ensures Window(log, initial).initialEpoch == initial
  {
  }

  // What the logical state says of the chain: the inputs of every epoch it shows, and the due epoch.
  ghost predicate Shows(v: DescartesV2State, n: nat, due: nat, chain: Chain) {
    var p := v.currentPhase;
    && v.finalizedEpochs.NextEpoch() == n
    && v.currentEpoch.epochNumber == due
    && v.currentEpoch.inputs.inputs == chain(due)
    && (if p.AccumulatingInputs? then due == n
        else due == n + 1 && SealedPart(p).value.0 == n && SealedPart(p).value.1.inputs == chain(n))
  }

  lemma ViewShows(d: Deployment, blocks: seq<Block>, initial: nat)
    requires ValidBlocks(d, blocks) && initial <= |Run(d, blocks).epochHashes|
    ensures var s, v := Run(d, blocks), View(d, blocks, initial, Now(d, blocks));
            v.Some? ==>
              && Some(v.value.finalizedEpochs) == FinalizedSync(s.log, initial)
              && v.value.finalizedEpochs.initialEpoch == initial && v.value.initialEpoch == initial
              && v.value.constants == ImmutableState(d.cfg.inputDuration, d.cfg.challengePeriod, d.creation)
              && Shows(v.value, |s.epochHashes|, DueEpoch(s, d.cfg, Now(d, blocks)), ChainOf(s.log))
  {
    hide Run, FinalizedSync, EpochSync, Logical, Mirrors, InputsOf, Query;
    var s, now := Run(d, blocks), Now(d, blocks);
    NodeNeverFails(d, blocks, initial);
    FinalizedRefines(d, blocks, initial, 0);
    RunIsGapless(d, blocks);
    SyncIsWindow(s.log, initial);
    NodeRefinesContract(d, blocks, initial);
    RestingInbox(s, d, now);
    RestingPhase(s, d, now);
    NoLaterInputs(s);
    ViewRaw(s, initial, d, now);
    KeepsInitial(s.log, initial);
  }

  lemma NoLaterInputs(s: State)
    requires InboxInv(s)
    ensures InputsOf(s.log, s.CurrentEpoch() + 1) == []
  {
  }

  lemma ViewRaw(s: State, initial: nat, d: Deployment, time: uint256)
    requires EpochSync(s.log, initial).Some? && Mirrors(EpochSync(s.log, initial).value, s, d) && !s.phase.AwaitingDispute?
    requires InputsOf(s.log, s.CurrentEpoch() + 1) == []
    ensures var v := Logical(EpochSync(s.log, initial).value, Constants(d), time);
            v.Some? ==>
              && Some(v.value.finalizedEpochs) == FinalizedSync(s.log, initial) && v.value.initialEpoch == initial
              && v.value.constants == ImmutableState(d.cfg.inputDuration, d.cfg.challengePeriod, d.creation)
              && Shows(v.value, |s.epochHashes|, DueEpoch(s, d.cfg, time), ChainOf(s.log))
  {
    hide FinalizedSync, InputsOf, LastMove, SealedRefines, Hashed, AddClaims;
  }

  // What comes of one block: waiting, a transaction, or one of four failures: no logical state, the end
  // of the code that is not written yet, a slice out of range, a request that the machine refuses.
  datatype Outcome =
    | Waits
    | SendsClaim(epoch: nat, claim: Hash)
    | SendsFinalize(epoch: nat)
    | NoState
    | Unwritten
    | BadSlice
    | BadRequest
  {
    predicate Fails() {
      NoState? || Unwritten? || BadSlice? || BadRequest?
    }
  }

  ghost predicate HasClaimed(p: PhaseState, sender: Address) {
    exists h: Hash :: sender in SenderOf(ClaimsPart(p), h)
  }

  // enqueue_remaning_inputs for the accumulating epoch, after the sealed one: the status is the one that
  // was read before the sealed epoch was finished, if it was finished.
  method FeedSealedThenCurrent(state: DescartesV2State, status: EpochStatus, machine: Machine, ghost chain: Chain, ghost from: nat)
      returns (ready: bool, fed: Feeding)
    requires var n, p := state.finalizedEpochs.NextEpoch(), state.currentPhase;
             !p.AccumulatingInputs? && Shows(state, n, n + 1, chain) && n <= machine.epoch <= n + 1
    requires machine.Holds(chain, from) && machine.Read(status)
    modifies machine
    ensures machine.Holds(chain, from) && old(machine.epoch) <= machine.epoch
    ensures var n := state.finalizedEpochs.NextEpoch();
            var sealed, current := |chain(n)|, |chain(n + 1)|;
            && (ready <==> machine.epoch == n + 1)
            && (old(machine.epoch) == n ==> (ready <==> status.processed == sealed))
            && machine.epoch <= n + 1
            && (!ready ==> machine.inputs == chain(n))
            && (ready && old(machine.epoch) == n + 1 ==> (fed.Complete? || fed.Sent?) && machine.inputs == chain(n + 1))
            && (ready && old(machine.epoch) == n ==>
                  && machine.inputs == []
                  && (fed.Refused? <==> sealed < current)
                  && (fed.OutOfRange? <==> sealed > current)
                  && (fed.Complete? <==> sealed == current))
  {
    var sealedEpochNumber := state.finalizedEpochs.NextEpoch();
    var sealed := SealedPart(state.currentPhase).value.1;
    if status.epochNumber == sealedEpochNumber {
      var finished := UpdateSealedEpoch(sealed.inputs, status, machine, chain, from);
      if !finished {
        return false, Complete;
      }
    }
    fed := EnqueueRemainingInputs(status, state.currentEpoch.inputs.inputs, machine);
    return true, fed;
  }

  // What one call of react does, given what was shown and where the machine was before and is after.
  ghost predicate Reacted(p: PhaseState, sender: Address, chain: Chain, n: nat, before: Session, after: Session,
                          claimOf: (nat, seq<Input>) -> Hash, r: Outcome)
  {
    var finishes, due := before.epoch <= n && after.epoch == n + 1, if p.AccumulatingInputs? then n else n + 1;
    var sealed, current := |chain(n)|, |chain(n + 1)|;
    // the machine never goes back, and never beyond the due epoch; it moves on when it has processed all
    && before.epoch <= after.epoch <= due
    && (before.epoch < due && before.processed == |chain(before.epoch)| ==> before.epoch < after.epoch)
    // a block that finishes the sealed epoch fails exactly when the next one has another number of inputs
    && (r.BadRequest? <==> finishes && sealed < current)
    && (r.BadSlice? <==> finishes && sealed > current)
    && (!r.BadRequest? && !r.BadSlice? ==>
          var claimed := HasClaimed(p, sender);
          && (r.SendsClaim? <==> after.epoch == n + 1 && !claimed)
          && (r.SendsFinalize? <==> after.epoch == n + 1 && claimed && p.ConsensusTimeout?)
          && (r.Unwritten? <==> after.epoch == n + 1 && claimed && !p.ConsensusTimeout?)
          && (r.Waits? <==> after.epoch <= n))
    // a claim is the machine's own, for the inputs of the sealed epoch
    && (r.SendsClaim? ==> r.epoch == n && r.claim == claimOf(n, chain(n)))
    && (r.SendsFinalize? ==> r.epoch == n)
    // unless it has just finished an epoch, the machine has all the inputs of the one it is on
    && after.inputs == (if finishes then [] else chain(after.epoch))
  }

  // react as it is written, every branch: the status that was read first is used to the end.
  method React(state: DescartesV2State, sender: Address, machine: Machine, ghost chain: Chain, ghost due: nat) returns (r: Outcome)
    requires var n := state.finalizedEpochs.NextEpoch(); Shows(state, n, due, chain) && machine.epoch <= due
    requires Knows(state.finalizedEpochs, chain) && state.finalizedEpochs.initialEpoch <= machine.epoch
    requires machine.Holds(chain, state.finalizedEpochs.initialEpoch)
    modifies machine
    ensures machine.Holds(chain, state.finalizedEpochs.initialEpoch) && old(machine.epoch) <= machine.epoch
    ensures !r.NoState? && machine.epoch <= due
    ensures Reacted(state.currentPhase, sender, chain, state.finalizedEpochs.NextEpoch(), old(machine.Held()), machine.Held(), machine.claimOf, r)
  {
    hide Knows, HasClaimed;
    ghost var from := state.finalizedEpochs.initialEpoch;
    var status := machine.GetCurrentEpochStatus();
    assert machine.Holds(chain, from);
    var proceed;
    proceed, status := EnqueueInputsOfFinalizedEpochs(state.finalizedEpochs, status, machine, chain, from);
    if !proceed {
      return Waits;
    }
    if state.currentPhase.AccumulatingInputs? {
      var fed := EnqueueRemainingInputs(status, state.currentEpoch.inputs.inputs, machine);
      assert fed.Complete? || fed.Sent?;
      return Waits;
    }
    r := ReactSealed(state, status, sender, machine, chain, from);
  }

  // The branches of react in which there is a sealed epoch, once the machine is past the finalized ones.
  method ReactSealed(state: DescartesV2State, status: EpochStatus, sender: Address, machine: Machine, ghost chain: Chain, ghost from: nat)
      returns (r: Outcome)
    requires var n := state.finalizedEpochs.NextEpoch();
             !state.currentPhase.AccumulatingInputs? && Shows(state, n, n + 1, chain) && from <= n <= machine.epoch <= n + 1
    requires machine.Holds(chain, from) && machine.Read(status)
    modifies machine
    ensures machine.Holds(chain, from) && old(machine.epoch) <= machine.epoch && !r.NoState?
    ensures Reacted(state.currentPhase, sender, chain, state.finalizedEpochs.NextEpoch(),
                    old(machine.Held()).(processed := status.processed), machine.Held(), machine.claimOf, r)
  {
    hide SealedPart, HasClaimed;
    var n := state.finalizedEpochs.NextEpoch();
    var ready, fed := FeedSealedThenCurrent(state, status, machine, chain, from);
    if !ready {
      return Waits;
    }
    if fed.OutOfRange? {
      return BadSlice;
    }
    if fed.Refused? {
      return BadRequest;
    }
    r := Decide(state.currentPhase, sender, n, machine);
  }

  // With the machine past the sealed epoch: claim, finalize, or fall through to what is not written yet.
  method Decide(p: PhaseState, sender: Address, n: nat, machine: Machine) returns (r: Outcome)
    requires machine.Valid() && n in machine.finished && !p.AccumulatingInputs?
    modifies machine`processed
    ensures machine.Valid() && old(machine.processed) <= machine.processed
    ensures if !HasClaimed(p, sender) then r == SendsClaim(n, machine.claimOf(n, machine.finished[n]))
            else r == if p.ConsensusTimeout? then SendsFinalize(n) else Unwritten
  {
    var claims := ClaimsPart(p);
    var senderClaim := None;
    if claims.Some? {
      senderClaim := GetSenderClaim(claims.value, sender);
    }
    if senderClaim.None? {
      var claim := machine.GetEpochClaim(n);
      return SendsClaim(n, claim);
    }
    assert sender in SenderOf(ClaimsPart(p), senderClaim.value);
    return if p.ConsensusTimeout? then SendsFinalize(n) else Unwritten;
  }

  // One turn of the node: the machine before and after, and what came of it.
  datatype Turn = Turn(before: Session, after: Session, outcome: Outcome)

  // A turn at the last of some blocks: a reaction to its logical state, and nothing at all without one.
  ghost predicate TurnAt(d: Deployment, blocks: seq<Block>, initial: nat, sender: Address,
                         claimOf: (nat, seq<Input>) -> Hash, turn: Turn)
    requires ValidBlocks(d, blocks)
  {
    var s, v := Run(d, blocks), View(d, blocks, initial, Now(d, blocks));
    && (turn.outcome.NoState? <==> v.None?)
    && (v.None? ==> turn.after == turn.before)
    && (v.Some? ==>
          Reacted(v.value.currentPhase, sender, ChainOf(s.log), |s.epochHashes|, turn.before, turn.after, claimOf, turn.outcome))
  }

  // React at the last of some blocks; without a logical state the node stops.
  method ReactAt(d: Deployment, blocks: seq<Block>, initial: nat, sender: Address, machine: Machine) returns (r: Outcome)
    requires ValidBlocks(d, blocks) && initial <= |Run(d, blocks).epochHashes|
    requires InStep(machine, d, blocks, initial)
    modifies machine
    ensures InStep(machine, d, blocks, initial)
    ensures old(machine.epoch) <= machine.epoch
    ensures TurnAt(d, blocks, initial, sender, machine.claimOf, Turn(old(machine.Held()), machine.Held(), r))
  {
    hide Run, ChainOf, FinalizedSync, View, DueEpoch, Now, Reacted;
    var view := View(d, blocks, initial, Now(d, blocks));
    if view.None? {
      return NoState;
    }
    ViewShows(d, blocks, initial);
    NodeKnows(d, blocks, initial);
    ghost var s := Run(d, blocks);
    r := React(view.value, sender, machine, ChainOf(s.log), DueEpoch(s, d.cfg, Now(d, blocks)));
  }

  // What the node decides is what the contract accepts, at the time of the block and later, as long as
  // nothing else happens: a timeout that it acts on is one whenever the challenge clock runs, and a claim of
  // a remaining validator is taken exactly when it agrees with the current one or somebody stands behind that.
  lemma DecisionsStand(d: Deployment, blocks: seq<Block>, initial: nat, sender: Address, claimOf: (nat, seq<Input>) -> Hash, turn: Turn, at: Moment)
    requires ValidBlocks(d, blocks) && initial <= |Run(d, blocks).epochHashes| && Now(d, blocks) <= at.time
    requires sender != ZERO_ADDRESS && sender in Run(d, blocks).manager.validators
    requires TurnAt(d, blocks, initial, sender, claimOf, turn)
    ensures var s, r := Run(d, blocks), turn.outcome; var m := s.manager;
            && (r.SendsFinalize? ==>
                  && (Clock(s.log).Some? ==> Apply(s, d.cfg, at, SendFinalize).Some?)
                  && (exists h: Hash :: (sender, h) in Votes(s.log, |s.epochHashes|)))
            && (r.SendsClaim? ==>
                  && (Apply(s, d.cfg, at, SendClaim(sender, r.claim)).Some? <==>
                        r.claim != ZERO_HASH && (m.currentClaim in {ZERO_HASH, r.claim} || m.agreement != {}))
                  && (forall h: Hash :: (sender, h) !in Votes(s.log, |s.epochHashes|)))
  {
    hide Run, View, ChainOf, Now, Apply, Reacted, HasClaimed, ClaimsPart, Votes, LastMove, DueEpoch;
    var s, now, r := Run(d, blocks), Now(d, blocks), turn.outcome;
    if View(d, blocks, initial, now).None? {
      return;
    }
    var p := View(d, blocks, initial, now).value.currentPhase;
    DecisionsMean(p, sender, ChainOf(s.log), |s.epochHashes|, turn, claimOf);
    ClaimersVoted(d, blocks, initial, sender);
    if r.SendsFinalize? && Clock(s.log).Some? {
      TimeoutIsFinalizable(d, blocks, initial, Moment(0, now));
      FinalizableLater(d, blocks, Moment(0, now), at);
    }
    if r.SendsClaim? {
      ClaimableLater(d, blocks, initial, at, sender, r.claim);
    }
  }

  lemma DecisionsMean(p: PhaseState, sender: Address, chain: Chain, n: nat, turn: Turn, claimOf: (nat, seq<Input>) -> Hash)
    requires Reacted(p, sender, chain, n, turn.before, turn.after, claimOf, turn.outcome)
    ensures turn.outcome.SendsFinalize? ==> p.ConsensusTimeout? && HasClaimed(p, sender)
    ensures turn.outcome.SendsClaim? ==> !p.AccumulatingInputs? && !HasClaimed(p, sender)
  {
  }

  lemma ClaimersVoted(d: Deployment, blocks: seq<Block>, initial: nat, sender: Address)
    requires ValidBlocks(d, blocks) && initial <= |Run(d, blocks).epochHashes| && View(d, blocks, initial, Now(d, blocks)).Some?
    ensures var s := Run(d, blocks);
            HasClaimed(View(d, blocks, initial, Now(d, blocks)).value.currentPhase, sender)
            <==> exists h: Hash :: (sender, h) in Votes(s.log, |s.epochHashes|)
  {
    hide Run, View, Now, ClaimsPart, Votes;
    forall h: Hash {
      ViewKnowsVotes(d, blocks, initial, Now(d, blocks), sender, h);
    }
  }

  lemma FinalizableLater(d: Deployment, blocks: seq<Block>, early: Moment, at: Moment)
    requires ValidBlocks(d, blocks) && Now(d, blocks) <= early.time <= at.time
    requires Apply(Run(d, blocks), d.cfg, early, SendFinalize).Some?
    ensures Apply(Run(d, blocks), d.cfg, at, SendFinalize).Some?
  {
    hide Run, Apply, Query, Clock;
    FinalizeExactly(d, blocks, early);
    FinalizeExactly(d, blocks, at);
  }

  // In a logically sealed epoch, of any remaining validator.
  lemma ClaimableLater(d: Deployment, blocks: seq<Block>, initial: nat, at: Moment, sender: Address, hash: Hash)
    requires ValidBlocks(d, blocks) && initial <= |Run(d, blocks).epochHashes| && Now(d, blocks) <= at.time
    requires sender != ZERO_ADDRESS && sender in Run(d, blocks).manager.validators
    requires var v := View(d, blocks, initial, Now(d, blocks)); v.Some? && !v.value.currentPhase.AccumulatingInputs?
    ensures var m := Run(d, blocks).manager;
            Apply(Run(d, blocks), d.cfg, at, SendClaim(sender, hash)).Some? <==>
              hash != ZERO_HASH && (m.currentClaim in {ZERO_HASH, hash} || m.agreement != {})
  {
    hide Run, View, Now, LastMove;
    var s, now := Run(d, blocks), Now(d, blocks);
    RunIsAtRest(d, blocks);
    ViewSealsAhead(d, blocks, initial, Moment(0, now));
    if hash != ZERO_HASH && s.manager.currentClaim !in {ZERO_HASH, hash} {
      ContestableExactly(d, blocks, at, sender, hash);
    } else {
      ClaimableIfAgreeing(s, d.cfg, Moment(0, now), at, sender, hash);
    }
  }

  lemma ClaimableIfAgreeing(s: State, cfg: Config, early: Moment, at: Moment, sender: Address, hash: Hash)
    requires AtRest(s) && sender != ZERO_ADDRESS && sender in s.manager.validators && early.time <= at.time
    requires Overdue(s, cfg, early).Some? && Sealing(s, cfg, early).phase.AwaitingConsensus?
    requires hash == ZERO_HASH || s.manager.currentClaim in {ZERO_HASH, hash}
    ensures Apply(s, cfg, at, SendClaim(sender, hash)).Some? <==> hash != ZERO_HASH
  {
    var slot := IndexOf(s.manager.validators, sender).value;
    assert slot in Slots(s.manager.validators);
    if hash != ZERO_HASH {
      AgreeingClaimIsAccepted(s, cfg, at, slot, hash);
    }
  }

  // A block at which the node cannot fail: it has a logical state, the sealed epoch, if there is one, has
  // as many inputs as the current one, and the sender has not claimed it before the timeout.
  ghost predicate Smooth(d: Deployment, blocks: seq<Block>, initial: nat, sender: Address)
    requires ValidBlocks(d, blocks)
  {
    var v := View(d, blocks, initial, Now(d, blocks));
    && v.Some?
    && var p := v.value.currentPhase;
       && (!p.AccumulatingInputs? ==> |SealedPart(p).value.1.inputs| == |v.value.currentEpoch.inputs.inputs|)
       && (HasClaimed(p, sender) ==> p.ConsensusTimeout?)
  }

  lemma FailuresAreRough(v: DescartesV2State, sender: Address, n: nat, due: nat, chain: Chain, turn: Turn, claimOf: (nat, seq<Input>) -> Hash)
    requires Shows(v, n, due, chain) && turn.outcome.Fails() && !turn.outcome.NoState?
    requires Reacted(v.currentPhase, sender, chain, n, turn.before, turn.after, claimOf, turn.outcome)
    ensures var p := v.currentPhase;
            || (!p.AccumulatingInputs? && |SealedPart(p).value.1.inputs| != |v.currentEpoch.inputs.inputs|)
            || (HasClaimed(p, sender) && !p.ConsensusTimeout?)
  {
  }

  // Turn k of a loop: at its own block, from where the turn before left the machine; only the last may fail.
  ghost predicate GoodTurn(d: Deployment, blocks: seq<Block>, start: nat, initial: nat, sender: Address,
                           claimOf: (nat, seq<Input>) -> Hash, first: Session, turns: seq<Turn>, k: nat)
    requires k < |turns| && start + |turns| <= |blocks|
  {
    && ValidBlocks(d, blocks[..start + k + 1])
    && TurnAt(d, blocks[..start + k + 1], initial, sender, claimOf, turns[k])
    && turns[k].before == (if k == 0 then first else turns[k - 1].after)
    && (k < |turns| - 1 ==> !turns[k].outcome.Fails())
  }

  ghost predicate Turns(d: Deployment, blocks: seq<Block>, start: nat, initial: nat, sender: Address,
                        claimOf: (nat, seq<Input>) -> Hash, first: Session, turns: seq<Turn>)
    requires start + |turns| <= |blocks|
  {
    forall k: nat :: k < |turns| ==> GoodTurn(d, blocks, start, initial, sender, claimOf, first, turns, k)
  }

  lemma TurnsGrow(d: Deployment, blocks: seq<Block>, start: nat, initial: nat, sender: Address,
                  claimOf: (nat, seq<Input>) -> Hash, first: Session, turns: seq<Turn>, turn: Turn)
    requires start + |turns| < |blocks| && Turns(d, blocks, start, initial, sender, claimOf, first, turns)
    requires ValidBlocks(d, blocks[..start + |turns| + 1])
    requires TurnAt(d, blocks[..start + |turns| + 1], initial, sender, claimOf, turn)
    requires if turns == [] then turn.before == first
             else turn.before == turns[|turns| - 1].after && !turns[|turns| - 1].outcome.Fails()
    ensures Turns(d, blocks, start, initial, sender, claimOf, first, turns + [turn])
  {
    hide ValidBlocks, TurnAt;
    forall k: nat | k < |turns + [turn]|
      ensures GoodTurn(d, blocks, start, initial, sender, claimOf, first, turns + [turn], k)
    {
      if k < |turns| {
        assert GoodTurn(d, blocks, start, initial, sender, claimOf, first, turns, k);
      }
    }
  }

  lemma NoTurns(d: Deployment, blocks: seq<Block>, start: nat, initial: nat, sender: Address,
                claimOf: (nat, seq<Input>) -> Hash, first: Session)
    requires start <= |blocks|
    ensures Turns(d, blocks, start, initial, sender, claimOf, first, [])
  {
  }

  // main_loop over the blocks after the first `start`, until a failure ends it: it reacts to every block,
  // in turn. The machine is never given a wrong input, and never misses one of an epoch that it leaves; the
  // loop ends early only at a block that is not smooth.
  method MainLoop(d: Deployment, blocks: seq<Block>, start: nat, initial: nat, sender: Address, machine: Machine)
      returns (seen: nat, last: Outcome, ghost turns: seq<Turn>)
    requires ValidBlocks(d, blocks) && start <= |blocks|
    requires ValidBlocks(d, blocks[..start]) && initial <= |Run(d, blocks[..start]).epochHashes|
    requires InStep(machine, d, blocks[..start], initial)
    modifies machine
    ensures start <= seen <= |blocks| && ValidBlocks(d, blocks[..seen])
    ensures InStep(machine, d, blocks[..seen], initial)
    ensures if last.Fails() then !Smooth(d, blocks[..seen], initial, sender) else seen == |blocks|
    ensures |turns| == seen - start && Turns(d, blocks, start, initial, sender, machine.claimOf, old(machine.Held()), turns)
    ensures if turns == [] then last == Waits && machine.Held() == old(machine.Held())
            else last == turns[|turns| - 1].outcome && machine.Held() == turns[|turns| - 1].after
  {
    hide Run, ChainOf, View, ValidBlocks, Now, DueEpoch, Smooth, TurnAt, Turns;
    seen, last, turns := start, Waits, [];
    NoTurns(d, blocks, start, initial, sender, machine.claimOf, machine.Held());
    while seen < |blocks| && !last.Fails()
      invariant start <= seen <= |blocks| && ValidBlocks(d, blocks[..seen])
      invariant initial <= |Run(d, blocks[..seen]).epochHashes| && InStep(machine, d, blocks[..seen], initial)
      invariant last.Fails() ==> !Smooth(d, blocks[..seen], initial, sender)
      invariant |turns| == seen - start && Turns(d, blocks, start, initial, sender, machine.claimOf, old(machine.Held()), turns)
      invariant if turns == [] then last == Waits && machine.Held() == old(machine.Held())
                else last == turns[|turns| - 1].outcome && machine.Held() == turns[|turns| - 1].after
      decreases |blocks| - seen
    {
      var upto := blocks[..seen + 1];
      RunIsLater(d, blocks, seen + 1);
      assert upto[..seen] == blocks[..seen];
      RunIsLater(d, upto, seen);
      StaysInStep(machine, d, upto, seen, initial);
      ghost var before := machine.Held();
      last := ReactAt(d, upto, initial, sender, machine);
      ghost var turn := Turn(before, machine.Held(), last);
      if last.Fails() {
        FailureIsRough(d, upto, initial, sender, machine.claimOf, turn);
      }
      TurnsGrow(d, blocks, start, initial, sender, machine.claimOf, old(machine.Held()), turns, turn);
      turns := turns + [turn];
      seen := seen + 1;
    }
  }

  // A fresh machine is in step.
  lemma InitiallyInStep(machine: Machine, d: Deployment, blocks: seq<Block>, initial: nat)
    requires ValidBlocks(d, blocks) && initial <= |Run(d, blocks).epochHashes|
    requires machine.epoch == initial && machine.inputs == [] && machine.processed == 0
    ensures InStep(machine, d, blocks, initial)
  {
    hide Run;
  }

  lemma FailureIsRough(d: Deployment, blocks: seq<Block>, initial: nat, sender: Address, claimOf: (nat, seq<Input>) -> Hash, turn: Turn)
    requires ValidBlocks(d, blocks) && initial <= |Run(d, blocks).epochHashes| && turn.outcome.Fails()
    requires TurnAt(d, blocks, initial, sender, claimOf, turn)
    ensures !Smooth(d, blocks, initial, sender)
  {
    hide Run, ChainOf, View, Now, DueEpoch, Reacted;
    var s, v := Run(d, blocks), View(d, blocks, initial, Now(d, blocks));
    if v.Some? {
      ViewShows(d, blocks, initial);
      FailuresAreRough(v.value, sender, |s.epochHashes|, DueEpoch(s, d.cfg, Now(d, blocks)), ChainOf(s.log), turn, claimOf);
    }
  }
}
