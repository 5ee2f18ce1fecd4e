/** What every transaction keeps: the storage of the contracts is a function of the event log. */
module Invariant {
  import opened Common
  import opened Events
  import opened ConsensusRules
  import opened Protocol

  // The facts of one deployment: its constants, its creation time and its initial validators.
  datatype Deployment = Deployment(cfg: Config, creation: uint256, roster: seq<Address>)

  // Distinct non-zero validators, few enough for the constructor not to revert.
  ghost predicate ValidRoster(roster: seq<Address>) {
    && |roster| < 32
    && ZERO_ADDRESS !in roster
    && forall i, j :: 0 <= i < j < |roster| ==> roster[i] != roster[j]
  }

  // The active box holds the inputs of the current epoch, the other box those of the sealed epoch.
  ghost predicate InboxInv(s: State) {
    var current := s.CurrentEpoch();
    && s.inbox.current == current % 2
    && s.inbox.Active() == Digests(s.log, current)
    && s.inbox.Sealed() == (if s.phase.InputAccumulation? then [] else Digests(s.log, current - 1))
    && forall e :: e > current ==> Query(s.log, Inputs(e)) == []
  }

  // Inputs come in the order of their epochs, none beyond the current one.
  ghost predicate OrderInv(s: State) {
    && (forall i :: 0 <= i < |s.log| && s.log[i].event.InputAdded? ==> s.log[i].event.epoch <= s.CurrentEpoch())
    && forall i, j :: 0 <= i < j < |s.log| && s.log[i].event.InputAdded? && s.log[j].event.InputAdded? ==>
         s.log[i].event.epoch <= s.log[j].event.epoch
  }

  // Epochs are finalized in order, without gaps or repeats.
  ghost predicate FinalsInv(s: State) {
    var finals := Query(s.log, Finalizations);
    && |finals| == |s.epochHashes|
    && forall k :: 0 <= k < |finals| ==> finals[k].event == FinalizeEpoch(k, s.epochHashes[k])
  }

  // Each epoch's hash is the first one claimed for it, and so is the current claim.
  ghost predicate ClaimsInv(s: State) {
    var n := |s.epochHashes|;
    && (forall k :: 0 <= k < n ==> s.epochHashes[k] == FirstClaim(s.log, k) != ZERO_HASH)
    && s.manager.currentClaim == FirstClaim(s.log, n)
    && (s.phase.InputAccumulation? ==> Query(s.log, Claims(n)) == [])
    && (forall e :: e > n ==> Query(s.log, Claims(e)) == [])
    && (forall e :: Query(s.log, Claims(e)) != [] ==> FirstClaim(s.log, e) != ZERO_HASH)
  }

  // A slot's goal bit says that its validator remains; its agreement bit, that it also claimed currentClaim.
  ghost predicate MaskInv(s: State) {
    var m, votes := s.manager, Votes(s.log, |s.epochHashes|);
    && WellFormed(m)
    && (forall i :: i in m.goal ==> (i in m.agreement <==> (m.validators[i], m.currentClaim) in votes))
    && (forall e, x :: x in Votes(s.log, e) ==> x.1 != ZERO_HASH)
  }

  // The last announced phase is the phase, and no phase is announced twice in a row.
  ghost predicate PhaseInv(s: State) {
    var p := Query(s.log, PhaseChanges);
    && (p == [] ==> s.phase.InputAccumulation?)
    && (p != [] ==> p[|p| - 1].event == PhaseChange(s.phase) && p[0].event != PhaseChange(InputAccumulation))
    && forall i :: 0 < i < |p| ==> p[i - 1].event != p[i].event
  }

  // The time of the last phase change, or of the creation.
  function LastMove(log: seq<Entry>, creation: uint256): uint256 {
    var p := Query(log, PhaseChanges);
    if p == [] then creation else p[|p| - 1].at.time
  }

  ghost predicate TimeInv(s: State, d: Deployment, now: uint256) {
    && (forall i :: 0 <= i < |s.log| ==> s.log[i].at.time <= now)
    && (forall i, j :: 0 <= i < j < |s.log| ==> s.log[i].at.time <= s.log[j].at.time)
    && d.creation + |s.epochHashes| * (d.cfg.inputDuration + 1) <= s.accumulationStart <= now
    && (s.phase.InputAccumulation? ==> s.accumulationStart == LastMove(s.log, d.creation))
    && (!s.phase.InputAccumulation? ==> s.accumulationStart + d.cfg.inputDuration < now)
  }

  // What also holds in the middle of a transaction, wherever an event is emitted.
  ghost predicate Mid(s: State, d: Deployment, now: uint256) {
    InboxInv(s) && OrderInv(s) && FinalsInv(s) && ClaimsInv(s) && MaskInv(s) && PhaseInv(s) && TimeInv(s, d, now)
  }

  // Exactly the validators that have contradicted a first claim are gone.
  ghost predicate RosterInv(validators: seq<Address>, log: seq<Entry>, roster: seq<Address>) {
    && |validators| == |roster|
    && forall i :: 0 <= i < |roster| ==>
         validators[i] == if Dissented(log, roster[i]) then ZERO_ADDRESS else roster[i]
  }

  // sealingEpochTimestamp is the challenge clock of the log, where that clock runs.
  ghost predicate ClockInv(s: State, d: Deployment) {
    var n, clock := |s.epochHashes|, Clock(s.log);
    var claims, move := Query(s.log, Claims(n)), LastMove(s.log, d.creation);
    && s.sealing == (if clock.Some? then clock.value else if n == 0 then 0 else UINT256_MAX)
    && (clock.Some? ==> s.phase.AwaitingConsensus? && claims != [])
    && (clock.Some? && LastDispute(s.log).None? ==> clock.value == claims[0].at.time)
    && (clock.Some? ==> clock.value == if claims[0].at.time <= move then move else claims[0].at.time)
    && (clock.None? && claims != [] ==> move <= claims[0].at.time)
    && (clock.None? && s.log != [] ==> !s.log[|s.log| - 1].event.PhaseChange?)
  }

  // Between transactions no dispute is open, and agreement by all has ended the epoch.
  ghost predicate RestInv(s: State) {
    && !s.phase.AwaitingDispute?
    && (s.phase.AwaitingConsensus? && s.manager.currentClaim != ZERO_HASH ==> s.manager.agreement != s.manager.goal)
  }

  ghost predicate Inv(s: State, d: Deployment, now: uint256) {
    && Mid(s, d, now)
    && RosterInv(s.manager.validators, s.log, d.roster)
    && ClockInv(s, d)
    && RestInv(s)
  }

  // The invariant behind a gate: clients of a run open the aspects they need, one lemma at a time. Run
  // promises the invariant in its own contract, so it is in scope wherever Run is mentioned, in contracts
  // too; `hide` only works inside one body, while a quantifier stays shut until its trigger is at hand.

  predicate Gate(open: bool) { true }

  ghost predicate Rests(s: State, d: Deployment, now: uint256) {
    forall open: bool :: Gate(open) ==> Inv(s, d, now)
  }

  lemma Close(s: State, d: Deployment, now: uint256)
    requires Inv(s, d, now)
    ensures Rests(s, d, now)
  {
  }

  lemma Open(s: State, d: Deployment, now: uint256)
    requires Rests(s, d, now)
    ensures Inv(s, d, now)
  {
    assert Gate(true);
  }

  lemma RestingInbox(s: State, d: Deployment, now: uint256)
    requires Rests(s, d, now)
    ensures InboxInv(s) && OrderInv(s)
  {
    assert Gate(true);
  }

  lemma RestingClaims(s: State, d: Deployment, now: uint256)
    requires Rests(s, d, now)
    ensures FinalsInv(s) && ClaimsInv(s)
  {
    assert Gate(true);
  }

  lemma RestingMasks(s: State, d: Deployment, now: uint256)
    requires Rests(s, d, now)
    ensures MaskInv(s) && RosterInv(s.manager.validators, s.log, d.roster)
  {
    assert Gate(true);
  }

  lemma RestingPhase(s: State, d: Deployment, now: uint256)
    requires Rests(s, d, now)
    ensures PhaseInv(s) && RestInv(s)
  {
    assert Gate(true);
  }

  lemma RestingTimes(s: State, d: Deployment, now: uint256)
    requires Rests(s, d, now)
    ensures TimeInv(s, d, now) && ClockInv(s, d)
  {
    assert Gate(true);
  }

  lemma VotesAreClaims(log: seq<Entry>, epoch: nat)
    ensures Query(log, Claims(epoch)) == [] ==> Votes(log, epoch) == {}
  {
  }

  lemma FirstClaimEmit(log: seq<Entry>, e: Entry)
    ensures forall n :: FirstClaim(log + [e], n)
                     == if Query(log, Claims(n)) == [] && Matches(Claims(n), e.event) then e.event.claimHash else FirstClaim(log, n)
  {
    QueryEmit(log, e);
  }

  lemma TimePasses(s: State, d: Deployment, now: uint256, later: uint256)
    requires Mid(s, d, now) && now <= later
    ensures Mid(s, d, later)
  {
  }

  // updatePhase(AwaitingConsensus) and swapInputBox, by a claim or by an input.
  function Seal(s: State, at: Moment): State {
    s.EnterPhase(at, AwaitingConsensus).(inbox := s.inbox.Swap())
  }

  // Each aspect, along an event that does not concern it.

  lemma InboxFrame(s: State, s': State, e: Entry)
    requires InboxInv(s) && s'.log == s.log + [e] && !e.event.InputAdded?
    requires s'.inbox == s.inbox && s'.epochHashes == s.epochHashes
    requires s'.phase.InputAccumulation? == s.phase.InputAccumulation?
    ensures InboxInv(s')
  {
    QueryEmit(s.log, e);
    DigestsEmit(s.log, e);
  }

  lemma OrderFrame(s: State, s': State, e: Entry)
    requires OrderInv(s) && s'.log == s.log + [e] && s.CurrentEpoch() <= s'.CurrentEpoch()
    requires e.event.InputAdded? ==> s.CurrentEpoch() == e.event.epoch
    ensures OrderInv(s')
  {
  }

  lemma FinalsFrame(s: State, s': State, e: Entry)
    requires FinalsInv(s) && s'.log == s.log + [e] && !e.event.FinalizeEpoch? && s'.epochHashes == s.epochHashes
    ensures FinalsInv(s')
  {
    QueryEmit(s.log, e);
  }

  lemma ClaimsFrame(s: State, s': State, e: Entry)
    requires ClaimsInv(s) && s'.log == s.log + [e] && !e.event.Claim?
    requires s'.manager.currentClaim == s.manager.currentClaim && s'.epochHashes == s.epochHashes
    requires s'.phase.InputAccumulation? ==> s.phase.InputAccumulation?
    ensures ClaimsInv(s')
  {
    QueryEmit(s.log, e);
    FirstClaimEmit(s.log, e);
  }

  lemma MaskFrame(s: State, s': State, e: Entry)
    requires MaskInv(s) && s'.log == s.log + [e] && !e.event.Claim?
    requires s'.manager == s.manager && s'.epochHashes == s.epochHashes
    ensures MaskInv(s')
  {
    QueryEmit(s.log, e);
    VotesEmit(s.log, e);
    assert forall n :: Votes(s'.log, n) == Votes(s.log, n);
  }

  lemma PhaseFrame(s: State, s': State, e: Entry)
    requires PhaseInv(s) && s'.log == s.log + [e] && !e.event.PhaseChange? && s'.phase == s.phase
    ensures PhaseInv(s')
  {
    QueryEmit(s.log, e);
  }

  lemma TimeFrame(s: State, s': State, d: Deployment, e: Entry)
    requires TimeInv(s, d, e.at.time) && s'.log == s.log + [e] && !e.event.PhaseChange?
    requires s'.phase == s.phase && s'.epochHashes == s.epochHashes && s'.accumulationStart == s.accumulationStart
    ensures TimeInv(s', d, e.at.time)
  {
    QueryEmit(s.log, e);
  }

  // Each aspect, along the events that do.

  lemma PhaseEntered(s: State, s': State, e: Entry)
    requires PhaseInv(s) && s'.log == s.log + [e] && e.event == PhaseChange(s'.phase) && s'.phase != s.phase
    ensures PhaseInv(s')
  {
    QueryEmit(s.log, e);
  }

  lemma DisputePhaseTimes(s: State, s': State, d: Deployment, e: Entry)
    requires TimeInv(s, d, e.at.time) && s'.log == s.log + [e] && e.event.PhaseChange?
    requires !s.phase.InputAccumulation? && !s'.phase.InputAccumulation?
    requires s'.epochHashes == s.epochHashes && s'.accumulationStart == s.accumulationStart
    ensures TimeInv(s', d, e.at.time)
  {
  }

  lemma SealInbox(s: State, s': State, e: Entry)
    requires InboxInv(s) && s.phase.InputAccumulation? && s'.log == s.log + [e] && e.event.PhaseChange?
    requires !s'.phase.InputAccumulation? && s'.epochHashes == s.epochHashes && s'.inbox == s.inbox.Swap()
    ensures InboxInv(s')
  {
    QueryEmit(s.log, e);
    DigestsEmit(s.log, e);
    assert Digests(s'.log, s'.CurrentEpoch()) == [];
  }

  lemma SealKeeps(s: State, d: Deployment, at: Moment)
    requires Mid(s, d, at.time) && s.phase.InputAccumulation?
    requires s.accumulationStart + d.cfg.inputDuration < at.time
    ensures Mid(Seal(s, at), d, at.time)
  {
    var e, s' := Entry(at, PhaseChange(AwaitingConsensus)), Seal(s, at);
    PhaseEntered(s, s', e);
    OrderFrame(s, s', e);
    FinalsFrame(s, s', e);
    ClaimsFrame(s, s', e);
    MaskFrame(s, s', e);
    SealInbox(s, s', e);
  }

  lemma PushInbox(s: State, s': State, e: Entry)
    requires InboxInv(s) && s'.log == s.log + [e] && e.event.InputAdded? && e.event.epoch == s.CurrentEpoch()
    requires s'.phase == s.phase && s'.epochHashes == s.epochHashes && s'.inbox == s.inbox.Push(DigestOf(e.event))
    ensures InboxInv(s')
  {
    QueryEmit(s.log, e);
    DigestsEmit(s.log, e);
  }

  lemma PushKeeps(s: State, d: Deployment, at: Moment, sender: Address, payload: Payload)
    requires Mid(s, d, at.time)
    ensures Mid(s.(inbox := s.inbox.Push(Digest(sender, at.time, payload)))
                 .Emit(at, InputAdded(s.CurrentEpoch(), sender, at.time, payload)), d, at.time)
  {
    var e := Entry(at, InputAdded(s.CurrentEpoch(), sender, at.time, payload));
    var s' := s.(inbox := s.inbox.Push(Digest(sender, at.time, payload))).Emit(at, e.event);
    PhaseFrame(s, s', e);
    OrderFrame(s, s', e);
    FinalsFrame(s, s', e);
    ClaimsFrame(s, s', e);
    MaskFrame(s, s', e);
    TimeFrame(s, s', d, e);
    PushInbox(s, s', e);
  }

  lemma ClaimRecorded(s: State, s': State, e: Entry)
    requires ClaimsInv(s) && !s.phase.InputAccumulation?
    requires e.event.Claim? && e.event.claimEpoch == |s.epochHashes| && e.event.claimHash != ZERO_HASH
    requires s'.log == s.log + [e] && s'.phase == s.phase && s'.epochHashes == s.epochHashes
    requires s'.manager.currentClaim == if s.manager.currentClaim == ZERO_HASH then e.event.claimHash else s.manager.currentClaim
    ensures ClaimsInv(s')
  {
    QueryEmit(s.log, e);
    FirstClaimEmit(s.log, e);
    assert forall k :: k != |s.epochHashes| ==> FirstClaim(s'.log, k) == FirstClaim(s.log, k);
  }

  lemma ClaimMasks(s: State, s': State, e: Entry)
    requires MaskInv(s) && ClaimsInv(s)
    requires e.event.Claim? && e.event.claimEpoch == |s.epochHashes|
    requires s'.log == s.log + [e] && s'.epochHashes == s.epochHashes && e.event.claimer != ZERO_ADDRESS
    requires OnClaim(s.manager, e.event.claimer, e.event.claimHash).Some?
    requires s'.manager == OnClaim(s.manager, e.event.claimer, e.event.claimHash).value.0
    ensures MaskInv(s')
  {
    var n := |s.epochHashes|;
    QueryEmit(s.log, e);
    VotesEmit(s.log, e);
    var i := IndexOf(s.manager.validators, e.event.claimer).value;
    assert i in Slots(s.manager.validators);
    if s.manager.currentClaim == ZERO_HASH {
      assert Query(s.log, Claims(n)) == [];
      VotesAreClaims(s.log, n);
    }
  }

  lemma ClaimKeeps(s: State, d: Deployment, at: Moment, sender: Address, hash: Hash)
    requires Mid(s, d, at.time) && s.phase.AwaitingConsensus? && sender != ZERO_ADDRESS
    requires OnClaim(s.manager, sender, hash).Some?
    ensures Mid(s.(manager := OnClaim(s.manager, sender, hash).value.0)
                 .Emit(at, Event.Claim(|s.epochHashes|, sender, hash)), d, at.time)
  {
    var e := Entry(at, Event.Claim(|s.epochHashes|, sender, hash));
    var s' := s.(manager := OnClaim(s.manager, sender, hash).value.0).Emit(at, e.event);
    InboxFrame(s, s', e);
    PhaseFrame(s, s', e);
    TimeFrame(s, s', d, e);
    OrderFrame(s, s', e);
    FinalsFrame(s, s', e);
    ClaimRecorded(s, s', e);
    ClaimMasks(s, s', e);
  }

  lemma DisputePhaseKeeps(s: State, d: Deployment, at: Moment, p: Phase)
    requires Mid(s, d, at.time) && !s.phase.InputAccumulation? && !p.InputAccumulation?
    ensures Mid(s.EnterPhase(at, p), d, at.time)
  {
    if p != s.phase {
      var e, s' := Entry(at, PhaseChange(p)), s.EnterPhase(at, p);
      InboxFrame(s, s', e);
      OrderFrame(s, s', e);
      FinalsFrame(s, s', e);
      ClaimsFrame(s, s', e);
      MaskFrame(s, s', e);
      PhaseEntered(s, s', e);
      DisputePhaseTimes(s, s', d, e);
    }
  }

  lemma ExpelMasks(s: State, s': State, e: Entry)
    requires MaskInv(s) && e.event.ResolveDispute?
    requires e.event.loser in s.manager.validators && e.event.loser != ZERO_ADDRESS
    requires s'.log == s.log + [e] && s'.epochHashes == s.epochHashes && s'.manager == Expel(s.manager, e.event.loser)
    ensures MaskInv(s')
  {
    QueryEmit(s.log, e);
    VotesEmit(s.log, e);
    ExpelListed(s.manager, e.event.loser);
  }

  lemma ExpelKeeps(s: State, d: Deployment, at: Moment, e: Event)
    requires Mid(s, d, at.time) && e.ResolveDispute?
    requires e.loser in s.manager.validators && e.loser != ZERO_ADDRESS
    ensures Mid(s.(manager := Expel(s.manager, e.loser), sealing := at.time).Emit(at, e), d, at.time)
  {
    var s' := s.(manager := Expel(s.manager, e.loser), sealing := at.time).Emit(at, e);
    InboxFrame(s, s', Entry(at, e));
    OrderFrame(s, s', Entry(at, e));
    FinalsFrame(s, s', Entry(at, e));
    ClaimsFrame(s, s', Entry(at, e));
    PhaseFrame(s, s', Entry(at, e));
    TimeFrame(s, s', d, Entry(at, e));
    ExpelMasks(s, s', Entry(at, e));
  }

  lemma FinalizeClaims(s: State, s': State, p: Entry, f: Entry)
    requires ClaimsInv(s) && s.manager.currentClaim != ZERO_HASH && p.event.PhaseChange? && f.event.FinalizeEpoch?
    requires s'.log == s.log + [p] + [f] && s'.epochHashes == s.epochHashes + [s.manager.currentClaim]
    requires s'.manager.currentClaim == ZERO_HASH
    ensures ClaimsInv(s')
  {
    QueryEmit(s.log, p);
    QueryEmit(s.log + [p], f);
    FirstClaimEmit(s.log, p);
    FirstClaimEmit(s.log + [p], f);
    assert forall k :: FirstClaim(s'.log, k) == FirstClaim(s.log, k);
  }

  lemma FinalizeFinals(s: State, s': State, p: Entry, f: Entry)
    requires FinalsInv(s) && p.event.PhaseChange? && f.event == FinalizeEpoch(|s.epochHashes|, s.manager.currentClaim)
    requires s'.log == s.log + [p] + [f] && s'.epochHashes == s.epochHashes + [s.manager.currentClaim]
    ensures FinalsInv(s')
  {
    QueryEmit(s.log, p);
    QueryEmit(s.log + [p], f);
  }

  lemma FinalizeMasks(s: State, s': State, p: Entry, f: Entry)
    requires MaskInv(s) && ClaimsInv(s) && p.event.PhaseChange? && f.event.FinalizeEpoch?
    requires s'.log == s.log + [p] + [f] && |s'.epochHashes| == |s.epochHashes| + 1 && s'.manager == OnNewEpoch(s.manager)
    ensures MaskInv(s')
  {
    QueryEmit(s.log, p);
    QueryEmit(s.log + [p], f);
    VotesEmit(s.log, p);
    VotesEmit(s.log + [p], f);
    VotesAreClaims(s.log, |s.epochHashes| + 1);
  }

  lemma FinalizeInbox(s: State, s': State, p: Entry, f: Entry)
    requires InboxInv(s) && !s.phase.InputAccumulation? && p.event.PhaseChange? && f.event.FinalizeEpoch?
    requires s'.log == s.log + [p] + [f] && |s'.epochHashes| == |s.epochHashes| + 1
    requires s'.phase.InputAccumulation? && s'.inbox == s.inbox.ClearSealed()
    ensures InboxInv(s')
  {
    QueryEmit(s.log, p);
    QueryEmit(s.log + [p], f);
    DigestsEmit(s.log, p);
    DigestsEmit(s.log + [p], f);
  }

  lemma FinalizeTimes(s: State, s': State, d: Deployment, p: Entry, f: Entry)
    requires TimeInv(s, d, p.at.time) && !s.phase.InputAccumulation?
    requires p.event.PhaseChange? && f.event.FinalizeEpoch? && f.at == p.at
    requires s'.log == s.log + [p] + [f] && |s'.epochHashes| == |s.epochHashes| + 1
    requires s'.phase.InputAccumulation? && s'.accumulationStart == p.at.time
    ensures TimeInv(s', d, p.at.time)
  {
    assert LastMove(s'.log, d.creation) == p.at.time by {
      QueryEmit(s.log, p);
      QueryEmit(s.log + [p], f);
    }
    calc {
      |s'.epochHashes| * (d.cfg.inputDuration + 1);
      (|s.epochHashes| + 1) * (d.cfg.inputDuration + 1);
      |s.epochHashes| * (d.cfg.inputDuration + 1) + d.cfg.inputDuration + 1;
    }
  }

  lemma FinalizeKeeps(s: State, d: Deployment, at: Moment)
    requires Mid(s, d, at.time) && !s.phase.InputAccumulation? && s.manager.currentClaim != ZERO_HASH
    ensures Mid(StartNewEpoch(s.EnterPhase(at, InputAccumulation), at), d, at.time)
  {
    var t := s.EnterPhase(at, InputAccumulation);
    var s' := StartNewEpoch(t, at);
    var p, f := Entry(at, PhaseChange(InputAccumulation)), Entry(at, FinalizeEpoch(|s.epochHashes|, s.manager.currentClaim));
    PhaseEntered(s, t, p);
    PhaseFrame(t, s', f);
    FinalizeInbox(s, s', p, f);
    OrderFrame(s, s'.(log := s.log + [p]), p);
    OrderFrame(s'.(log := s.log + [p]), s', f);
    FinalizeFinals(s, s', p, f);
    FinalizeClaims(s, s', p, f);
    FinalizeMasks(s, s', p, f);
    FinalizeTimes(s, s', d, p, f);
  }
}
