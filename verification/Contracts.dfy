/** The contracts as objects that call each other, and the transactions that run on them. */
module Contracts {
  import opened Common
  import opened Events
  import opened ConsensusRules
  import opened Protocol
  import opened ValidatorManagers
  import opened Outputs

  // Where the contracts emit their events.
  class EventLog {
    var entries: seq<Entry>

    constructor ()
      ensures entries == []
    {
      entries := [];
    }

    method Emit(at: Moment, e: Event)
      modifies this
      ensures entries == old(entries) + [Entry(at, e)]
    {
      entries := entries + [Entry(at, e)];
    }
  }

  class InputImpl {
    const inputDriveSize: nat
    var inputBox0: seq<Digest>
    var inputBox1: seq<Digest>
    var currentInputBox: nat

    constructor (driveSize: nat)
      ensures inputDriveSize == driveSize && Boxes() == Inbox([], [], 0)
    {
      inputDriveSize := driveSize;
      inputBox0, inputBox1, currentInputBox := [], [], 0;
    }

    ghost function Boxes(): Inbox
      reads this
    {
      Inbox(inputBox0, inputBox1, currentInputBox)
    }

    // The sealed epoch's inputs are in the box that does not receive any.
    function GetNumberOfInputs(): (n: nat)
      reads this
      ensures n == |Boxes().Sealed()|
    {
      if currentInputBox == 0 then |inputBox1| else |inputBox0|
    }

    function GetInput(index: nat): (d: Digest)
      requires index < GetNumberOfInputs()
      reads this
      ensures d == Boxes().Sealed()[index]
    {
      if currentInputBox == 0 then inputBox1[index] else inputBox0[index]
    }

    method SwapInputBox()
      modifies this
      ensures Boxes() == old(Boxes()).Swap()
    {
      currentInputBox := if currentInputBox == 0 then 1 else 0;
    }

    method OnNewInputAccumulation()
      modifies this
      ensures Boxes() == old(Boxes()).Swap()
    {
      SwapInputBox();
    }

    method OnNewEpoch()
      modifies this
      ensures Boxes() == old(Boxes()).ClearSealed()
    {
      if currentInputBox == 0 {
        inputBox1 := [];
      } else {
        inputBox0 := [];
      }
    }

    // false is a revert: the storage is then whatever the transaction had reached.
    method AddInput(descartesV2: DescartesV2, at: Moment, sender: Address, payload: Payload) returns (ok: bool)
      requires descartesV2.Valid() && descartesV2.input == this
      modifies this, descartesV2, descartesV2.log
      ensures descartesV2.Valid()
      ensures ok <==> Protocol.AddInput(old(descartesV2.Storage()), descartesV2.cfg, at, sender, payload).Some?
      ensures ok ==> Some(descartesV2.Storage()) == Protocol.AddInput(old(descartesV2.Storage()), descartesV2.cfg, at, sender, payload)
    {
      if !(0 < |payload| <= inputDriveSize) {
        return false;
      }
      var digest := Digest(sender, at.time, payload);
      var newEpoch := descartesV2.NotifyInput(at);
      if newEpoch.None? {
        return false;
      }
      if newEpoch.value {
        SwapInputBox();
      }
      if currentInputBox == 0 {
        inputBox0 := inputBox0 + [digest];
      } else {
        inputBox1 := inputBox1 + [digest];
      }
      descartesV2.log.Emit(at, InputAdded(descartesV2.GetCurrentEpoch(), sender, at.time, payload));
      return true;
    }
  }

  // The shipped, mock dispute manager: the first claimer wins at once.
  class DisputeManagerImpl {
    constructor () {
    }

    method InitiateDispute(descartesV2: DescartesV2, at: Moment, claims: (Hash, Hash), claimers: (Address, Address)) returns (ok: bool)
      requires descartesV2.Valid() && WellFormed(descartesV2.validatorManager.Abs())
      requires descartesV2.currentPhase == AwaitingDispute
      requires claimers.0 != ZERO_ADDRESS && claimers.1 != ZERO_ADDRESS
      modifies descartesV2, descartesV2.validatorManager, descartesV2.input, descartesV2.output, descartesV2.log
      ensures descartesV2.Valid()
      ensures var v := Conflict(claims.0, claims.1, claimers.0, claimers.1);
              && (ok <==> Settle(old(descartesV2.Storage()), at, v, SHIPPED).Some?)
              && (ok ==> Some(descartesV2.Storage()) == Settle(old(descartesV2.Storage()), at, v, SHIPPED))
      decreases |descartesV2.validatorManager.Abs().goal|, 2
    {
      ok := descartesV2.ResolveDispute(at, claimers.0, claimers.1, claims.0);
    }
  }

  class DescartesV2 {
    const cfg: Config
    const input: InputImpl
    const output: OutputImpl
    const validatorManager: ValidatorManager
    const disputeManager: DisputeManagerImpl
    const log: EventLog
    var inputAccumulationStart: uint256
    var sealingEpochTimestamp: uint256
    var currentPhase: Phase

    ghost predicate Valid()
      reads this, input, validatorManager
    {
      validatorManager.Valid() && input.inputDriveSize == cfg.driveSize
    }

    // The storage of all the contracts, as one value.
    ghost function Storage(): State
      reads this, input, output, validatorManager, log
    {
      State(currentPhase, inputAccumulationStart, sealingEpochTimestamp, validatorManager.Abs(), input.Boxes(),
            output.epochHashes, log.entries)
    }

    constructor (cfg: Config, validators: seq<Address>, at: Moment)
      requires |validators| < 32
      ensures Valid() && this.cfg == cfg && Some(Storage()) == Deploy(validators, at)
      ensures fresh(input) && fresh(output) && fresh(validatorManager) && fresh(log)
      ensures !output.lock && output.outputBitmask == {}
    {
      this.cfg := cfg;
      input := new InputImpl(cfg.driveSize);
      output := new OutputImpl();
      validatorManager := new ValidatorManager(validators);
      disputeManager := new DisputeManagerImpl();
      log := new EventLog();
      inputAccumulationStart, sealingEpochTimestamp, currentPhase := at.time, 0, InputAccumulation;
    }

    function GetCurrentEpoch(): (epoch: nat)
      reads this, output, input, validatorManager, log
      ensures epoch == Storage().CurrentEpoch()
    {
      var finalizedEpochs := output.GetNumberOfFinalizedEpochs();
      if currentPhase == InputAccumulation then finalizedEpochs else finalizedEpochs + 1
    }

    method UpdatePhase(at: Moment, newPhase: Phase)
      modifies this`currentPhase, log
      ensures Storage() == old(Storage()).EnterPhase(at, newPhase)
    {
      if newPhase != currentPhase {
        log.Emit(at, PhaseChange(newPhase));
      }
      currentPhase := newPhase;
    }

    // None is the overflow of the deadline.
    method IsOverdue(at: Moment) returns (r: Option<bool>)
      ensures r == Overdue(Storage(), cfg, at)
    {
      if currentPhase != InputAccumulation {
        return Some(false);
      }
      var deadline := CheckedAdd(inputAccumulationStart, cfg.inputDuration);
      return if deadline.None? then None else Some(at.time > deadline.value);
    }

    method NotifyInput(at: Moment) returns (r: Option<bool>)
      requires Valid()
      modifies this, log
      ensures Valid()
      ensures match Protocol.NotifyInput(old(Storage()), cfg, at)
              case None => r.None?
              case Some((s, newEpoch)) => r == Some(newEpoch) && Storage() == s
    {
      r := IsOverdue(at);
      if r == Some(true) {
        UpdatePhase(at, AwaitingConsensus);
      }
    }

    method Claim(at: Moment, sender: Address, epochHash: Hash) returns (ok: bool)
      requires Valid() && WellFormed(validatorManager.Abs()) && sender != ZERO_ADDRESS
      modifies this, validatorManager, input, output, log
      ensures Valid()
      ensures ok <==> ClaimCall(old(Storage()), cfg, at, sender, epochHash, SHIPPED).Some?
      ensures ok ==> Some(Storage()) == ClaimCall(old(Storage()), cfg, at, sender, epochHash, SHIPPED)
    {
      AcceptedIsReady(Storage(), cfg, at, sender, epochHash);
      var overdue := IsOverdue(at);
      if overdue.None? {
        return false;
      }
      if overdue.value {
        UpdatePhase(at, AwaitingConsensus);
        input.OnNewInputAccumulation();
        sealingEpochTimestamp := at.time;
      }
      if currentPhase != AwaitingConsensus {
        return false;
      }
      var result := validatorManager.OnClaim(sender, epochHash);
      if result.None? {
        return false;
      }
      log.Emit(at, Event.Claim(output.GetNumberOfFinalizedEpochs(), sender, epochHash));
      assert Some((Storage(), VerdictOf(result.value))) == AcceptClaim(old(Storage()), cfg, at, sender, epochHash);
      ok := ResolveValidatorResult(at, result.value);
    }

    method FinalizeEpoch(at: Moment) returns (ok: bool)
      requires Valid()
      modifies this, validatorManager, input, output, log
      ensures Valid()
      ensures ok <==> FinalizeCall(old(Storage()), cfg, at).Some?
      ensures ok ==> Some(Storage()) == FinalizeCall(old(Storage()), cfg, at)
    {
      if currentPhase != AwaitingConsensus {
        return false;
      }
      var deadline := CheckedAdd(sealingEpochTimestamp, cfg.challengePeriod);
      if deadline.None? || !(at.time > deadline.value) {
        return false;
      }
      if validatorManager.currentClaim == ZERO_HASH {
        return false;
      }
      UpdatePhase(at, InputAccumulation);
      StartNewEpoch(at);
      return true;
    }

    method ResolveDispute(at: Moment, winner: Address, loser: Address, winningClaim: Hash) returns (ok: bool)
      requires Valid() && WellFormed(validatorManager.Abs()) && winner != ZERO_ADDRESS && loser != ZERO_ADDRESS
      modifies this, validatorManager, input, output, log
      ensures Valid()
      ensures var r := EndDispute(old(Storage()), at, winner, loser, winningClaim);
              && r.Some? && Ready(r.value.0.manager, r.value.1)
              && (ok <==> Settle(r.value.0, at, r.value.1, SHIPPED).Some?)
              && (ok ==> Some(Storage()) == Settle(r.value.0, at, r.value.1, SHIPPED))
      decreases |validatorManager.Abs().goal|, 1
    {
      hide Settle, WellFormed, ConsensusRules.OnDisputeEnd;
      RoundShrinksGoal(validatorManager.Abs(), winner, loser, winningClaim);
      GoalNeverGrows(validatorManager.Abs(), winner, loser, winningClaim);
      var result := validatorManager.OnDisputeEnd(winner, loser, winningClaim);
      sealingEpochTimestamp := at.time;
      log.Emit(at, Event.ResolveDispute(winner, loser, winningClaim));
      assert Some((Storage(), VerdictOf(result.value))) == EndDispute(old(Storage()), at, winner, loser, winningClaim);
      ok := ResolveValidatorResult(at, result.value);
    }

    method StartNewEpoch(at: Moment)
      requires Valid()
      modifies this, validatorManager, input, output, log
      ensures Valid() && Storage() == Protocol.StartNewEpoch(old(Storage()), at)
    {
      inputAccumulationStart := at.time;
      sealingEpochTimestamp := UINT256_MAX;
      var finalClaim := validatorManager.OnNewEpoch();
      log.Emit(at, Event.FinalizeEpoch(output.GetNumberOfFinalizedEpochs(), finalClaim));
      output.OnNewEpoch(finalClaim);
      input.OnNewEpoch();
    }

    // The claims and claimers of the answer are handed on as they are.
    method ResolveValidatorResult(at: Moment, answer: Answer) returns (ok: bool)
      requires Valid() && Ready(validatorManager.Abs(), VerdictOf(answer))
      modifies this, validatorManager, input, output, log
      ensures Valid()
      ensures ok <==> Settle(old(Storage()), at, VerdictOf(answer), SHIPPED).Some?
      ensures ok ==> Some(Storage()) == Settle(old(Storage()), at, VerdictOf(answer), SHIPPED)
      decreases |validatorManager.Abs().goal|, if answer.result.Disagree? then 3 else 0
    {
      match answer.result {
        case SomeAgree =>
          UpdatePhase(at, AwaitingConsensus);
          return true;
        case AllAgree =>
          UpdatePhase(at, InputAccumulation);
          StartNewEpoch(at);
          return true;
        case Disagree =>
          UpdatePhase(at, AwaitingDispute);
          ok := disputeManager.InitiateDispute(this, at, answer.claims, answer.claimers);
      }
    }
  }

  // A transaction on the contracts: it succeeds, or it is rolled back to where it started.
  method Transact(contracts: DescartesV2, at: Moment, tx: Tx) returns (ok: bool)
    requires contracts.Valid() && WellFormed(contracts.validatorManager.Abs()) && ValidTx(tx)
    modifies contracts, contracts.validatorManager, contracts.input, contracts.output, contracts.log
    ensures contracts.Valid()
    ensures match Apply(old(contracts.Storage()), contracts.cfg, at, tx)
            case None =>
              && !ok && contracts.Storage() == old(contracts.Storage())
              && contracts.validatorManager.notices == old(contracts.validatorManager.notices)
            case Some(s) => ok && contracts.Storage() == s
  {
    hide ClaimCall, Protocol.AddInput, FinalizeCall;
    var manager, input, output := contracts.validatorManager, contracts.input, contracts.output;
    var start, sealing, phase := contracts.inputAccumulationStart, contracts.sealingEpochTimestamp, contracts.currentPhase;
    var claim, validators := manager.currentClaim, manager.validators;
    var agreement, goal, notices := manager.claimAgreementMask, manager.consensusGoalMask, manager.notices;
    var box0, box1, current := input.inputBox0, input.inputBox1, input.currentInputBox;
    var hashes, entries := output.epochHashes, contracts.log.entries;
    match tx {
      case SendInput(sender, payload) => ok := input.AddInput(contracts, at, sender, payload);
      case SendClaim(claimer, hash) => ok := contracts.Claim(at, claimer, hash);
      case SendFinalize => ok := contracts.FinalizeEpoch(at);
    }
    if !ok {
      contracts.inputAccumulationStart, contracts.sealingEpochTimestamp, contracts.currentPhase := start, sealing, phase;
      manager.currentClaim, manager.validators := claim, validators;
      manager.claimAgreementMask, manager.consensusGoalMask, manager.notices := agreement, goal, notices;
      input.inputBox0, input.inputBox1, input.currentInputBox := box0, box1, current;
      output.epochHashes, contracts.log.entries := hashes, entries;
    }
  }
}
