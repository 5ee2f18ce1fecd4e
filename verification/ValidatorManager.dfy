/** ValidatorManagerImpl: the consensus rules on bit masks, loop by loop. */
module ValidatorManagers {
  import opened Common
  import opened ConsensusRules
  import opened Bits

  // A search from slot 0 that stops at the first match finds IndexOf.
  lemma IndexOfIs(validators: seq<Address>, a: Address, i: nat)
    requires i <= |validators| && forall j :: 0 <= j < i ==> validators[j] != a
    ensures i < |validators| && validators[i] == a ==> IndexOf(validators, a) == Some(i)
    ensures i == |validators| ==> IndexOf(validators, a) == None
  {
  }

  // So does the search for the lowest agreeing slot.
  lemma ChampionIs(m: Manager, i: nat)
    requires i <= |m.validators| && forall j :: 0 <= j < i ==> j !in m.agreement
    ensures i < |m.validators| && i in m.agreement ==> Champion(m) == Some(m.validators[i])
    ensures i == |m.validators| ==> Champion(m) == None
  {
  }

  datatype Result = AllAgree | SomeAgree | Disagree

  // What the manager answers and announces: the result, with two claims and two claimers.
  datatype Answer = Answer(result: Result, claims: (Hash, Hash), claimers: (Address, Address))

  datatype Notice = ClaimReceived(answer: Answer) | DisputeEnded(answer: Answer) | NewEpoch(claim: Hash)

  // What the caller makes of an answer.
  function VerdictOf(a: Answer): Verdict {
    match a.result
    case AllAgree => Consensus
    case SomeAgree => NoConflict
    case Disagree => Conflict(a.claims.0, a.claims.1, a.claimers.0, a.claimers.1)
  }

  const NOBODY := Answer(SomeAgree, (ZERO_HASH, ZERO_HASH), (ZERO_ADDRESS, ZERO_ADDRESS))

  class ValidatorManager {
    var notices: seq<Notice>
    var currentClaim: Hash
    var validators: seq<Address>
    var claimAgreementMask: bv32
    var consensusGoalMask: bv32

    ghost predicate Valid()
      reads this
    {
      |validators| < 32
    }

    ghost function Abs(): Manager
      reads this
    {
      Manager(currentClaim, validators, BitSet(claimAgreementMask), BitSet(consensusGoalMask))
    }

    constructor (validators: seq<Address>)
      requires |validators| < 32
      ensures Valid() && Abs() == Manager(ZERO_HASH, validators, {}, Slots(validators)) && notices == []
    {
      this.validators, notices := validators, [];
      currentClaim, claimAgreementMask, consensusGoalMask := ZERO_HASH, 0, 0;
      new;
      BitSetZero();
      var goal := UpdateConsensusGoalMask();
      consensusGoalMask := goal;
    }

    method UpdateConsensusGoalMask() returns (mask: bv32)
      requires Valid()
      ensures BitSet(mask) == Slots(validators)
    {
      hide Ones, ClearBit, BitSet;
      mask := Ones(|validators|);
      BitSetOnes(|validators|);
      var i := 0;
      while i < |validators|
        invariant 0 <= i <= |validators|
        invariant forall j: nat :: j in BitSet(mask) <==> j < |validators| && (j < i ==> validators[j] != ZERO_ADDRESS)
      {
        if validators[i] == ZERO_ADDRESS {
          BitSetClear(mask, i);
          mask := ClearBit(mask, i);
        }
        i := i + 1;
      }
    }

    method UpdateClaimAgreementMask(sender: Address) returns (mask: bv32)
      requires Valid()
      ensures BitSet(mask) == Join(Abs(), sender).agreement
    {
      hide SetBit, BitSet;
      mask := claimAgreementMask;
      var i := 0;
      while i < |validators|
        invariant 0 <= i <= |validators| && forall j :: 0 <= j < i ==> validators[j] != sender
        invariant mask == claimAgreementMask
      {
        if sender == validators[i] {
          BitSetSet(mask, i);
          mask := SetBit(mask, i);
          break;
        }
        i := i + 1;
      }
      IndexOfIs(validators, sender, i);
    }

    method RemoveFromValidatorSetAndBothBitmasks(validator: Address) returns (agreement: bv32, goal: bv32)
      requires Valid()
      modifies this`validators
      ensures Valid()
      ensures Manager(currentClaim, validators, BitSet(agreement), BitSet(goal)) == Expel(old(Abs()), validator)
    {
      hide ClearBit, BitSet;
      BitSetZero();
      agreement, goal := 0, 0;
      var i := 0;
      while i < |validators|
        invariant 0 <= i <= |validators| && forall j :: 0 <= j < i ==> validators[j] != validator
        invariant validators == old(validators) && agreement == goal == 0
      {
        if validator == validators[i] {
          IndexOfIs(validators, validator, i);
          BitSetClear(claimAgreementMask, i);
          BitSetClear(consensusGoalMask, i);
          validators := validators[i := ZERO_ADDRESS];
          agreement := ClearBit(claimAgreementMask, i);
          goal := ClearBit(consensusGoalMask, i);
          return;
        }
        i := i + 1;
      }
      IndexOfIs(validators, validator, i);
    }

    method GetClaimerOfCurrentClaim() returns (r: Option<Address>)
      requires Valid()
      ensures r == Champion(Abs())
    {
      hide TestBit, BitSet;
      if claimAgreementMask == 0 {
        BitSetZero();
        ChampionIs(Abs(), |validators|);
        return None;
      }
      var i := 0;
      while i < |validators|
        invariant 0 <= i <= |validators|
        invariant forall j :: 0 <= j < i ==> j !in BitSet(claimAgreementMask)
      {
        BitSetTest(claimAgreementMask, i);
        if TestBit(claimAgreementMask, i) {
          ChampionIs(Abs(), i);
          return Some(validators[i]);
        }
        i := i + 1;
      }
      ChampionIs(Abs(), i);
      return None;
    }

    method IsAllowed(sender: Address) returns (allowed: bool)
      requires Valid()
      ensures allowed <==> IndexOf(validators, sender).Some?
    {
      var i := 0;
      while i < |validators|
        invariant 0 <= i <= |validators| && forall j :: 0 <= j < i ==> validators[j] != sender
      {
        IndexOfIs(validators, sender, i);
        if sender == validators[i] {
          return true;
        }
        i := i + 1;
      }
      IndexOfIs(validators, sender, i);
      return false;
    }

    method IsConsensus() returns (consensus: bool)
      ensures consensus <==> Abs().agreement == Abs().goal
    {
      consensus := claimAgreementMask == consensusGoalMask;
      if BitSet(claimAgreementMask) == BitSet(consensusGoalMask) {
        BitSetInjective(claimAgreementMask, consensusGoalMask);
      }
    }

    method EmitClaimReceivedAndReturn(answer: Answer) returns (same: Answer)
      modifies this`notices
      ensures same == answer && notices == old(notices) + [ClaimReceived(answer)]
    {
      notices := notices + [ClaimReceived(answer)];
      return answer;
    }

    method EmitDisputeEndedAndReturn(answer: Answer) returns (same: Answer)
      modifies this`notices
      ensures same == answer && notices == old(notices) + [DisputeEnded(answer)]
    {
      notices := notices + [DisputeEnded(answer)];
      return answer;
    }

    // None is a revert: the storage is then whatever the transaction had reached.
    method OnClaim(sender: Address, claim: Hash) returns (r: Option<Answer>)
      requires Valid()
      modifies this
      ensures Valid()
      ensures r.Some? <==> ConsensusRules.OnClaim(old(Abs()), sender, claim).Some?
      ensures r.Some? ==> (Abs(), VerdictOf(r.value)) == ConsensusRules.OnClaim(old(Abs()), sender, claim).value
      ensures r.Some? && r.value.result.Disagree? ==>
                && r.value.claims.0 == old(currentClaim) && r.value.claims.1 == claim
                && Some(r.value.claimers.0) == Champion(Abs()) && r.value.claimers.1 == sender
      ensures r.Some? && r.value.result.AllAgree? ==> r.value.claims == (currentClaim, ZERO_HASH) && r.value.claimers == (sender, ZERO_ADDRESS)
      ensures r.Some? && r.value.result.SomeAgree? ==> r.value == NOBODY
      ensures r.Some? ==> notices == old(notices) + [ClaimReceived(r.value)]
    {
      if claim == ZERO_HASH {
        return None;
      }
      var allowed := IsAllowed(sender);
      if !allowed {
        return None;
      }
      if currentClaim == ZERO_HASH {
        currentClaim := claim;
      }
      if claim != currentClaim {
        var defender := GetClaimerOfCurrentClaim();
        if defender.None? {
          return None;
        }
        var answer := EmitClaimReceivedAndReturn(Answer(Disagree, (currentClaim, claim), (defender.value, sender)));
        return Some(answer);
      }
      var agreement := UpdateClaimAgreementMask(sender);
      claimAgreementMask := agreement;
      var consensus := IsConsensus();
      var answer := EmitClaimReceivedAndReturn(if consensus then Answer(AllAgree, (claim, ZERO_HASH), (sender, ZERO_ADDRESS)) else NOBODY);
      return Some(answer);
    }

    method OnDisputeEnd(winner: Address, loser: Address, winningClaim: Hash) returns (r: Option<Answer>)
      requires Valid()
      modifies this
      ensures Valid()
      ensures r.Some? <==> ConsensusRules.OnDisputeEnd(old(Abs()), winner, loser, winningClaim).Some?
      ensures r.Some? ==> (Abs(), VerdictOf(r.value)) == ConsensusRules.OnDisputeEnd(old(Abs()), winner, loser, winningClaim).value
      ensures r.Some? && r.value.result.Disagree? ==>
                && r.value.claims.0 == old(currentClaim) && r.value.claims.1 == winningClaim
                && Some(r.value.claimers.0) == Champion(Abs()) && r.value.claimers.1 == winner
      ensures r.Some? && r.value.result.AllAgree? ==> r.value.claims == (currentClaim, ZERO_HASH) && r.value.claimers == (winner, ZERO_ADDRESS)
      ensures r.Some? && r.value.result.SomeAgree? ==> r.value == NOBODY
      ensures r.Some? ==> notices == old(notices) + [DisputeEnded(r.value)]
    {
      var agreement, goal := RemoveFromValidatorSetAndBothBitmasks(loser);
      claimAgreementMask, consensusGoalMask := agreement, goal;
      assert Abs() == Expel(old(Abs()), loser);
      if winningClaim == currentClaim {
        var stands := IsConsensus();
        var answer := EmitDisputeEndedAndReturn(if stands then Answer(AllAgree, (winningClaim, ZERO_HASH), (winner, ZERO_ADDRESS)) else NOBODY);
        return Some(answer);
      }
      BitSetZero();
      if claimAgreementMask != 0 {
        if BitSet(claimAgreementMask) == {} {
          BitSetEmpty(claimAgreementMask);
        }
        var defender := GetClaimerOfCurrentClaim();
        if defender.None? {
          return None;
        }
        var answer := EmitDisputeEndedAndReturn(Answer(Disagree, (currentClaim, winningClaim), (defender.value, winner)));
        return Some(answer);
      }
      currentClaim := winningClaim;
      agreement := UpdateClaimAgreementMask(winner);
      claimAgreementMask := agreement;
      var consensus := IsConsensus();
      var answer := EmitDisputeEndedAndReturn(if consensus then Answer(AllAgree, (winningClaim, ZERO_HASH), (winner, ZERO_ADDRESS)) else NOBODY);
      return Some(answer);
    }

    method OnNewEpoch() returns (claim: Hash)
      requires Valid()
      modifies this
      ensures Valid()
      ensures claim == old(currentClaim) && Abs() == ConsensusRules.OnNewEpoch(old(Abs()))
      ensures notices == old(notices) + [NewEpoch(claim)]
    {
      BitSetZero();
      claim := currentClaim;
      currentClaim, claimAgreementMask := ZERO_HASH, 0;
      notices := notices + [NewEpoch(claim)];
    }
  }
}
