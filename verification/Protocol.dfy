/** The on-chain epoch protocol as a state machine over its transactions. */
module Protocol {
  import opened Common
  import opened Events
  import opened ConsensusRules

  datatype Config = Config(inputDuration: uint256, challengePeriod: uint256, driveSize: nat)

  // The two input boxes; `current` names the one that receives inputs.
  datatype Inbox = Inbox(box0: seq<Digest>, box1: seq<Digest>, current: nat) {
    function Active(): seq<Digest> { if current == 0 then box0 else box1 }
    function Sealed(): seq<Digest> { if current == 0 then box1 else box0 }
    function Swap(): Inbox { this.(current := if current == 0 then 1 else 0) }
    function Push(d: Digest): Inbox {
      if current == 0 then this.(box0 := box0 + [d]) else this.(box1 := box1 + [d])
    }
    function ClearSealed(): Inbox {
      if current == 0 then this.(box1 := []) else this.(box0 := [])
    }
  }

  // The storage of the contracts, and all the events emitted so far.
  datatype State = State(
    phase: Phase,
    accumulationStart: uint256,
    sealing: uint256,
    manager: Manager,
    inbox: Inbox,
    epochHashes: seq<Hash>,
    log: seq<Entry>)
  {
    // getCurrentEpoch
    function CurrentEpoch(): nat {
      if phase.InputAccumulation? then |epochHashes| else |epochHashes| + 1
    }

    function Emit(at: Moment, e: Event): State {
      this.(log := log + [Entry(at, e)])
    }

    // updatePhase: only a change is announced.
    function EnterPhase(at: Moment, p: Phase): State {
      if p == phase then this else this.(phase := p).Emit(at, PhaseChange(p))
    }
  }

  datatype Tx =
    | SendInput(sender: Address, payload: Payload)
    | SendClaim(claimer: Address, hash: Hash)
    | SendFinalize

  // The constructors; more than 31 validators overflow the checked uint32 power of two.
  function Deploy(validators: seq<Address>, at: Moment): (r: Option<State>)
    ensures r.Some? <==> |validators| < 32
  {
    if |validators| >= 32 then None
    else
      Some(State(InputAccumulation, at.time, 0,
                 Manager(ZERO_HASH, validators, {}, Slots(validators)), Inbox([], [], 0), [], []))
  }

  // Is the input accumulation phase over? None when the deadline overflows.
  function Overdue(s: State, cfg: Config, at: Moment): Option<bool> {
    if !s.phase.InputAccumulation? then Some(false)
    else
      match CheckedAdd(s.accumulationStart, cfg.inputDuration)
      case None => None
      case Some(deadline) => Some(at.time > deadline)
  }

  function NotifyInput(s: State, cfg: Config, at: Moment): Option<(State, bool)> {
    match Overdue(s, cfg, at)
    case None => None
    case Some(overdue) => Some((if overdue then s.EnterPhase(at, AwaitingConsensus) else s, overdue))
  }

  function AddInput(s: State, cfg: Config, at: Moment, sender: Address, payload: Payload): Option<State> {
    if !(0 < |payload| <= cfg.driveSize) then None
    else
      match NotifyInput(s, cfg, at)
      case None => None
      case Some((s, newEpoch)) =>
        var inbox := if newEpoch then s.inbox.Swap() else s.inbox;
        var s := s.(inbox := inbox.Push(Digest(sender, at.time, payload)));
        Some(s.Emit(at, InputAdded(s.CurrentEpoch(), sender, at.time, payload)))
  }

  function StartNewEpoch(s: State, at: Moment): State {
    var claim := s.manager.currentClaim;
    var s := s.(accumulationStart := at.time, sealing := UINT256_MAX, manager := OnNewEpoch(s.manager));
    var s := s.Emit(at, FinalizeEpoch(|s.epochHashes|, claim));
    s.(epochHashes := s.epochHashes + [claim], inbox := s.inbox.ClearSealed())
  }

  // resolveDispute, as far as the verdict it hands to resolveValidatorResult.
  function EndDispute(s: State, at: Moment, winner: Address, loser: Address, winningClaim: Hash)
    : Option<(State, Verdict)>
  {
    match OnDisputeEnd(s.manager, winner, loser, winningClaim)
    case None => None
    case Some((m, v)) =>
      Some((s.(manager := m, sealing := at.time).Emit(at, Event.ResolveDispute(winner, loser, winningClaim)), v))
  }

  // The chain of disputes that a conflict starts inside its transaction.
  function DisputeChain(s: State, at: Moment, v: Verdict, oracle: Oracle): (r: Option<(State, Verdict)>)
    requires Ready(s.manager, v)
    ensures r.Some? ==> !r.value.1.Conflict?
    decreases |s.manager.goal|, v.Conflict?
  {
    match v
    case Conflict(standing, challenge, defender, challenger) =>
      var d := s.EnterPhase(at, AwaitingDispute);
      var (winner, loser, claim) :=
        if oracle(s.manager) then (defender, challenger, standing) else (challenger, defender, challenge);
      RoundShrinksGoal(s.manager, winner, loser, claim);
      (match EndDispute(d, at, winner, loser, claim)
       case None => None
       case Some((s', v')) => DisputeChain(s', at, v', oracle))
    case _ => Some((s, v))
  }

  function Conclude(s: State, at: Moment, v: Verdict): State
    requires !v.Conflict?
  {
    if v.NoConflict? then s.EnterPhase(at, AwaitingConsensus)
    else StartNewEpoch(s.EnterPhase(at, InputAccumulation), at)
  }

  // resolveValidatorResult
  function Settle(s: State, at: Moment, v: Verdict, oracle: Oracle): Option<State>
    requires Ready(s.manager, v)
  {
    match DisputeChain(s, at, v, oracle)
    case None => None
    case Some((s', v')) => Some(Conclude(s', at, v'))
  }

  // claim, before its result is resolved
  function SealByClaim(s: State, at: Moment): State {
    var s := s.EnterPhase(at, AwaitingConsensus);
    s.(inbox := s.inbox.Swap(), sealing := at.time)
  }

  function AcceptClaim(s: State, cfg: Config, at: Moment, sender: Address, hash: Hash): Option<(State, Verdict)> {
    match Overdue(s, cfg, at)
    case None => None
    case Some(overdue) =>
      var s := if overdue then SealByClaim(s, at) else s;
      if !s.phase.AwaitingConsensus? then None
      else
        match OnClaim(s.manager, sender, hash)
        case None => None
        case Some((m, v)) => Some((s.(manager := m).Emit(at, Event.Claim(|s.epochHashes|, sender, hash)), v))
  }

  lemma AcceptedIsReady(s: State, cfg: Config, at: Moment, sender: Address, hash: Hash)
    requires WellFormed(s.manager) && sender != ZERO_ADDRESS
    ensures var r := AcceptClaim(s, cfg, at, sender, hash);
            r.Some? ==> WellFormed(r.value.0.manager) && Ready(r.value.0.manager, r.value.1)
  {
    var r := AcceptClaim(s, cfg, at, sender, hash);
    if r.Some? {
      var m := r.value.0.manager;
      assert IndexOf(m.validators, sender).value in Slots(m.validators);
      if r.value.1.Conflict? {
        var i := LowestFrom(m.agreement, 0, |m.validators|).value;
        assert i in Slots(m.validators);
      }
    }
  }

  function ClaimCall(s: State, cfg: Config, at: Moment, sender: Address, hash: Hash, oracle: Oracle): Option<State>
    requires WellFormed(s.manager) && sender != ZERO_ADDRESS
  {
    AcceptedIsReady(s, cfg, at, sender, hash);
    match AcceptClaim(s, cfg, at, sender, hash)
    case None => None
    case Some((s', v)) => Settle(s', at, v, oracle)
  }

  function FinalizeCall(s: State, cfg: Config, at: Moment): Option<State> {
    if !s.phase.AwaitingConsensus? then None
    else
      match CheckedAdd(s.sealing, cfg.challengePeriod)
      case None => None
      case Some(deadline) =>
        if at.time <= deadline || s.manager.currentClaim == ZERO_HASH then None
        else Some(StartNewEpoch(s.EnterPhase(at, InputAccumulation), at))
  }

  predicate ValidTx(tx: Tx) {
    tx.SendClaim? ==> tx.claimer != ZERO_ADDRESS
  }

  // One transaction; None when it reverts.
  function Apply(s: State, cfg: Config, at: Moment, tx: Tx): Option<State>
    requires WellFormed(s.manager) && ValidTx(tx)
  {
    match tx
    case SendInput(sender, payload) => AddInput(s, cfg, at, sender, payload)
    case SendClaim(claimer, hash) => ClaimCall(s, cfg, at, claimer, hash, SHIPPED)
    case SendFinalize => FinalizeCall(s, cfg, at)
  }
}
