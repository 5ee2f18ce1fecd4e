/** What the validator manager decides, on sets of validator slots instead of bit masks. */
module ConsensusRules {
  import opened Common

  // Slot i of `agreement` (of `goal`) is bit i of claimAgreementMask (of consensusGoalMask).
  datatype Manager = Manager(currentClaim: Hash, validators: seq<Address>, agreement: set<nat>, goal: set<nat>)

  datatype Verdict =
    | NoConflict
    | Consensus
    | Conflict(standing: Hash, challenge: Hash, defender: Address, challenger: Address)

  // Does the defender win the dispute that the manager is in? The manager changes in every round
  // of a chain of disputes, so any sequence of outcomes is such a function.
  type Oracle = Manager -> bool

  // The shipped dispute manager lets the first claimer win.
  const SHIPPED: Oracle := m => true

  function Slots(validators: seq<Address>): set<nat> {
    set i: nat | i < |validators| && validators[i] != ZERO_ADDRESS
  }

  // The manager of a deployment with distinct non-zero validators.
  ghost predicate WellFormed(m: Manager) {
    && |m.validators| < 32
    && (forall i, j :: 0 <= i < j < |m.validators| && m.validators[i] != ZERO_ADDRESS ==> m.validators[i] != m.validators[j])
    && m.goal == Slots(m.validators)
    && m.agreement <= m.goal
  }

  // The first slot at or after `from` that holds a.
  function FindFrom(validators: seq<Address>, a: Address, from: nat): (r: Option<nat>)
    requires from <= |validators|
    ensures r.Some? ==> from <= r.value < |validators| && validators[r.value] == a
    ensures forall j :: from <= j < (if r.Some? then r.value else |validators|) ==> validators[j] != a
    decreases |validators| - from
  {
    if from == |validators| then None
    else if validators[from] == a then Some(from)
    else FindFrom(validators, a, from + 1)
  }

  function IndexOf(validators: seq<Address>, a: Address): Option<nat> {
    FindFrom(validators, a, 0)
  }

  // The lowest member of s in from..n.
  function LowestFrom(s: set<nat>, from: nat, n: nat): (r: Option<nat>)
    requires from <= n
    ensures r.Some? ==> from <= r.value < n && r.value in s && forall j :: from <= j < r.value ==> j !in s
    ensures r.None? ==> forall j :: from <= j < n ==> j !in s
    decreases n - from
  {
    if from == n then None
    else if from in s then Some(from)
    else LowestFrom(s, from + 1, n)
  }

  // getClaimerOfCurrentClaim; None is its revert.
  function Champion(m: Manager): Option<Address> {
    match LowestFrom(m.agreement, 0, |m.validators|)
    case None => None
    case Some(i) => Some(m.validators[i])
  }

  // updateClaimAgreementMask
  function Join(m: Manager, a: Address): Manager {
    match IndexOf(m.validators, a)
    case None => m
    case Some(i) => m.(agreement := m.agreement + {i})
  }

  // removeFromValidatorSetAndBothBitmasks; both masks come out empty when a is not listed.
  function Expel(m: Manager, a: Address): Manager {
    match IndexOf(m.validators, a)
    case None => m.(agreement := {}, goal := {})
    case Some(i) =>
      m.(validators := m.validators[i := ZERO_ADDRESS], agreement := m.agreement - {i}, goal := m.goal - {i})
  }

  function Judge(m: Manager): Verdict {
    if m.agreement == m.goal then Consensus else NoConflict
  }

  function OnClaim(m: Manager, sender: Address, claim: Hash): (r: Option<(Manager, Verdict)>)
  {
    if claim == ZERO_HASH || IndexOf(m.validators, sender).None? then None
    else
      var m := if m.currentClaim == ZERO_HASH then m.(currentClaim := claim) else m;
      if claim != m.currentClaim then
        match Champion(m)
        case None => None
        case Some(defender) => Some((m, Conflict(m.currentClaim, claim, defender, sender)))
      else
        var m := Join(m, sender);
        Some((m, Judge(m)))
  }

  function OnDisputeEnd(m: Manager, winner: Address, loser: Address, winningClaim: Hash): (r: Option<(Manager, Verdict)>)
  {
    var m := Expel(m, loser);
    if winningClaim == m.currentClaim then Some((m, Judge(m)))
    else if m.agreement != {} then
      match Champion(m)
      case None => None
      case Some(defender) => Some((m, Conflict(m.currentClaim, winningClaim, defender, winner)))
    else
      var m := Join(m.(currentClaim := winningClaim), winner);
      Some((m, Judge(m)))
  }

  function OnNewEpoch(m: Manager): Manager {
    m.(currentClaim := ZERO_HASH, agreement := {})
  }

  // A conflict that the manager can have returned.
  ghost predicate Ready(m: Manager, v: Verdict) {
    v.Conflict? ==> WellFormed(m) && v.defender != ZERO_ADDRESS && v.challenger != ZERO_ADDRESS
  }

  lemma ChampionIsLowestAgreeing(m: Manager)
    requires WellFormed(m) && m.agreement != {}
    ensures Champion(m).Some?
    ensures exists i :: i in m.agreement && (forall j :: j in m.agreement ==> i <= j)
                        && IndexOf(m.validators, Champion(m).value) == Some(i)
  {
    var k :| k in m.agreement;
    assert k in Slots(m.validators);
    var i := LowestFrom(m.agreement, 0, |m.validators|).value;
    assert i in Slots(m.validators);
    assert IndexOf(m.validators, m.validators[i]) == Some(i);
  }

  // Removing a listed validator frees its slot in both masks and keeps the manager well formed.
  lemma ExpelListed(m: Manager, a: Address)
    requires WellFormed(m) && a in m.validators && a != ZERO_ADDRESS
    ensures WellFormed(Expel(m, a))
    ensures a !in Expel(m, a).validators
    ensures exists i :: IndexOf(m.validators, a) == Some(i) && i in m.goal && Expel(m, a).goal == m.goal - {i}
                        && |Expel(m, a).goal| == |m.goal| - 1
  {
    var i := IndexOf(m.validators, a).value;
    assert i in Slots(m.validators);
    assert Slots(Expel(m, a).validators) == m.goal - {i};
  }

  lemma RoundShrinksGoal(m: Manager, winner: Address, loser: Address, winningClaim: Hash)
    requires WellFormed(m) && winner != ZERO_ADDRESS && loser != ZERO_ADDRESS
    ensures OnDisputeEnd(m, winner, loser, winningClaim).Some?
    ensures var (m', v) := OnDisputeEnd(m, winner, loser, winningClaim).value;
            Ready(m', v) && (v.Conflict? ==> |m'.goal| < |m.goal|)
  {
    if loser in m.validators {
      ExpelListed(m, loser);
      var e := Expel(m, loser);
      if e.agreement != {} {
        ChampionIsLowestAgreeing(e);
        var i := LowestFrom(e.agreement, 0, |e.validators|).value;
        assert i in Slots(e.validators);
      }
    }
  }

  lemma GoalNeverGrows(m: Manager, winner: Address, loser: Address, winningClaim: Hash)
    requires OnDisputeEnd(m, winner, loser, winningClaim).Some?
    ensures |OnDisputeEnd(m, winner, loser, winningClaim).value.0.goal| <= |m.goal|
  {
    var less := Expel(m, loser).goal;
    assert m.goal == less + (m.goal - less);
  }
}
