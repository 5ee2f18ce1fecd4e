/** Every transaction of a deployment with the shipped dispute manager keeps the invariant. */
module Steps {
  import opened Common
  import opened Events
  import opened ConsensusRules
  import opened Protocol
  import opened Invariant

  // What a step or a block of steps appends to the log, and how the epochs move along it.
  ghost predicate Extends(s: State, s': State, at: Moment) {
    && s.log <= s'.log
    && s.epochHashes <= s'.epochHashes
    && s.CurrentEpoch() <= s'.CurrentEpoch()
    && var delta := s'.log[|s.log|..];
       && (forall i :: 0 <= i < |delta| ==> delta[i].at == at)
       && (forall e: nat :: e < s.CurrentEpoch() ==> Query(delta, Inputs(e)) == [])
       && (Query(delta, PhaseChanges) == [] ==> s'.epochHashes == s.epochHashes && s'.phase == s.phase)
  }

  lemma ExtendsTransitive(a: State, b: State, c: State, at: Moment)
    requires Extends(a, b, at) && Extends(b, c, at)
    ensures Extends(a, c, at)
  {
    var ab, bc := b.log[|a.log|..], c.log[|b.log|..];
    assert c.log[|a.log|..] == ab + bc;
    forall f { QueryConcat(ab, bc, f); }
  }

  // One event, with the epochs where they were.
  lemma ExtendsEmit(s: State, s': State, e: Entry)
    requires s'.log == s.log + [e] && s'.epochHashes == s.epochHashes
    requires s.CurrentEpoch() <= s'.CurrentEpoch() && (e.event.PhaseChange? || s'.phase == s.phase)
    requires e.event.InputAdded? ==> s.CurrentEpoch() <= e.event.epoch
    ensures Extends(s, s', e.at)
  {
    assert s'.log[|s.log|..] == [] + [e];
    QueryEmit([], e);
  }

  lemma ExtendsFinalize(s: State, at: Moment)
    requires !s.phase.InputAccumulation?
    ensures Extends(s, StartNewEpoch(s.EnterPhase(at, InputAccumulation), at), at)
  {
    var s' := StartNewEpoch(s.EnterPhase(at, InputAccumulation), at);
    var p, f := Entry(at, PhaseChange(InputAccumulation)), Entry(at, FinalizeEpoch(|s.epochHashes|, s.manager.currentClaim));
    assert s'.log[|s.log|..] == ([] + [p]) + [f];
    QueryEmit([], p);
    QueryEmit([] + [p], f);
  }

  lemma SealingIsFree(s: State, d: Deployment, now: uint256, sealing: uint256)
    requires Mid(s, d, now)
    ensures Mid(s.(sealing := sealing), d, now)
  {
    var s' := s.(sealing := sealing);
    assert InboxInv(s') && OrderInv(s') && FinalsInv(s') && ClaimsInv(s') && MaskInv(s') && PhaseInv(s') && TimeInv(s', d, now);
  }

  // Only a claim that contradicts a standing first claim changes who has dissented.
  lemma RosterFrame(validators: seq<Address>, log: seq<Entry>, e: Entry, roster: seq<Address>)
    requires RosterInv(validators, log, roster)
    requires e.event.Claim? ==> FirstClaim(log, e.event.claimEpoch) in {ZERO_HASH, e.event.claimHash}
    ensures RosterInv(validators, log + [e], roster)
  {
    DissentedEmit(log, e);
  }

  lemma RosterDissent(m: Manager, log: seq<Entry>, e: Entry, roster: seq<Address>)
    requires ValidRoster(roster) && WellFormed(m) && RosterInv(m.validators, log, roster)
    requires e.event.Claim? && FirstClaim(log, e.event.claimEpoch) !in {ZERO_HASH, e.event.claimHash}
    requires e.event.claimer != ZERO_ADDRESS && e.event.claimer in m.validators
    ensures RosterInv(Expel(m, e.event.claimer).validators, log + [e], roster)
  {
    DissentedEmit(log, e);
  }

  // With the shipped dispute manager a chain of disputes has one round, which the challenger loses.
  function Resolved(s: State, at: Moment, v: Verdict): State
    requires v.Conflict?
  {
    var d := s.EnterPhase(at, AwaitingDispute);
    d.(manager := Expel(s.manager, v.challenger), sealing := at.time)
     .Emit(at, Event.ResolveDispute(v.defender, v.challenger, v.standing))
  }

  lemma ShippedDispute(s: State, at: Moment, v: Verdict)
    requires v.Conflict? && Ready(s.manager, v) && v.standing == s.manager.currentClaim
    ensures DisputeChain(s, at, v, SHIPPED) == Some((Resolved(s, at, v), Judge(Expel(s.manager, v.challenger))))
  {
  }

  // The end of a transaction that finalizes the epoch.
  lemma FinalizeRests(s: State, d: Deployment, at: Moment)
    requires Mid(s, d, at.time) && !s.phase.InputAccumulation? && s.manager.currentClaim != ZERO_HASH
    requires RosterInv(s.manager.validators, s.log, d.roster)
    ensures Inv(StartNewEpoch(s.EnterPhase(at, InputAccumulation), at), d, at.time)
  {
    var p, f := Entry(at, PhaseChange(InputAccumulation)), Entry(at, FinalizeEpoch(|s.epochHashes|, s.manager.currentClaim));
    var s' := StartNewEpoch(s.EnterPhase(at, InputAccumulation), at);
    FinalizeKeeps(s, d, at);
    RosterFrame(s.manager.validators, s.log, p, d.roster);
    RosterFrame(s.manager.validators, s.log + [p], f, d.roster);
    ClockEmit(s.log + [p], f);
    assert ClockInv(s', d);
  }

  lemma LastMoveIsPast(s: State, d: Deployment, now: uint256)
    requires TimeInv(s, d, now)
    ensures LastMove(s.log, d.creation) <= now
  {
    QueryMatches(s.log, PhaseChanges);
    calc >= {
      |s.epochHashes| * (d.cfg.inputDuration + 1);
      0;
    }
  }

  // The end of a transaction whose dispute leaves the epoch open.
  lemma DisputeRests(s: State, d: Deployment, at: Moment)
    requires LastDispute(s.log).Some?
    requires Mid(s, d, at.time) && s.phase.AwaitingDispute? && Clock(s.log) == Some(s.sealing) && s.sealing == at.time
    requires Query(s.log, Claims(|s.epochHashes|)) != [] && Judge(s.manager).NoConflict?
    requires RosterInv(s.manager.validators, s.log, d.roster)
    ensures Inv(s.EnterPhase(at, AwaitingConsensus), d, at.time)
  {
    hide ClockInv, InboxInv, OrderInv, FinalsInv, ClaimsInv, MaskInv, PhaseInv;
    var p, s' := Entry(at, PhaseChange(AwaitingConsensus)), s.EnterPhase(at, AwaitingConsensus);
    DisputePhaseKeeps(s, d, at, AwaitingConsensus);
    RosterFrame(s.manager.validators, s.log, p, d.roster);
    DisputeClock(s, s', d, p);
  }

  lemma DisputeClock(s: State, s': State, d: Deployment, p: Entry)
    requires LastDispute(s.log).Some? && Clock(s.log) == Some(s.sealing) && s.sealing == p.at.time && p.event.PhaseChange?
    requires Query(s.log, Claims(|s.epochHashes|)) != [] && s'.phase.AwaitingConsensus? && s'.log == s.log + [p]
    requires s'.sealing == s.sealing && s'.epochHashes == s.epochHashes
    requires forall i :: 0 <= i < |s.log| ==> s.log[i].at.time <= p.at.time
    ensures ClockInv(s', d)
  {
    ClockEmit(s.log, p);
    LastDisputeEmit(s.log, p);
    QueryEmit(s.log, p);
    QueryMatches(s.log, Claims(|s.epochHashes|));
  }

  // addInput

  function Sealing(s: State, cfg: Config, at: Moment): State {
    if Overdue(s, cfg, at) == Some(true) then Seal(s, at) else s
  }

  lemma SealClock(s: State, d: Deployment, at: Moment)
    requires ClockInv(s, d) && ClaimsInv(s) && s.phase.InputAccumulation?
    ensures var b := Seal(s, at);
            Clock(b.log) == None && Query(b.log, Claims(|b.epochHashes|)) == [] && LastMove(b.log, d.creation) == at.time
  {
    var p := Entry(at, PhaseChange(AwaitingConsensus));
    ClockEmit(s.log, p);
    QueryEmit(s.log, p);
  }

  lemma SealExtends(s: State, at: Moment)
    requires s.phase.InputAccumulation?
    ensures Extends(s, Seal(s, at), at)
  {
    ExtendsEmit(s, Seal(s, at), Entry(at, PhaseChange(AwaitingConsensus)));
  }

  lemma InputClock(s: State, b: State, s': State, d: Deployment, i: Entry)
    requires ClockInv(s, d) && ClaimsInv(s) && i.event.InputAdded? && s'.log == b.log + [i]
    requires b == s || (b == Seal(s, i.at) && s.phase.InputAccumulation?)
    requires s'.epochHashes == s.epochHashes && s'.sealing == s.sealing && s'.phase == b.phase
    ensures ClockInv(s', d)
  {
    if b != s {
      SealClock(s, d, i.at);
    }
    ClockEmit(b.log, i);
    LastDisputeEmit(b.log, i);
    QueryEmit(b.log, i);
  }

  // The phase change of a late input.
  lemma SealingKeeps(s: State, d: Deployment, now: uint256, at: Moment)
    requires Inv(s, d, now) && now <= at.time && Overdue(s, d.cfg, at).Some?
    ensures var b := Sealing(s, d.cfg, at);
            && Mid(b, d, at.time) && RosterInv(b.manager.validators, b.log, d.roster)
            && RestInv(b) && Extends(s, b, at)
  {
    hide InboxInv, OrderInv, FinalsInv, MaskInv, PhaseInv, ClockInv;
    TimePasses(s, d, now, at.time);
    if Overdue(s, d.cfg, at).value {
      SealKeeps(s, d, at);
      RosterFrame(s.manager.validators, s.log, Entry(at, PhaseChange(AwaitingConsensus)), d.roster);
      SealExtends(s, at);
    }
  }

  function Pushed(b: State, at: Moment, sender: Address, payload: Payload): State {
    b.(inbox := b.inbox.Push(Digest(sender, at.time, payload)))
     .Emit(at, InputAdded(b.CurrentEpoch(), sender, at.time, payload))
  }

  // addInput is the phase change of a late input, then a push into the box it has left active.
  lemma InputSteps(s: State, cfg: Config, at: Moment, sender: Address, payload: Payload)
    requires AddInput(s, cfg, at, sender, payload).Some?
    ensures Overdue(s, cfg, at).Some?
    ensures AddInput(s, cfg, at, sender, payload).value == Pushed(Sealing(s, cfg, at), at, sender, payload)
  {
  }

  lemma PushRests(s: State, b: State, d: Deployment, at: Moment, sender: Address, payload: Payload)
    requires ClockInv(s, d) && ClaimsInv(s)
    requires b == s || (b == Seal(s, at) && s.phase.InputAccumulation?)
    requires Mid(b, d, at.time) && RosterInv(b.manager.validators, b.log, d.roster) && RestInv(b)
    ensures Inv(Pushed(b, at, sender, payload), d, at.time) && Extends(b, Pushed(b, at, sender, payload), at)
  {
    hide InboxInv, OrderInv, FinalsInv, MaskInv, PhaseInv, TimeInv;
    var i := Entry(at, InputAdded(b.CurrentEpoch(), sender, at.time, payload));
    var s' := Pushed(b, at, sender, payload);
    PushKeeps(b, d, at, sender, payload);
    RosterFrame(b.manager.validators, b.log, i, d.roster);
    InputClock(s, b, s', d, i);
    ExtendsEmit(b, s', i);
  }

  lemma InputKeeps(s: State, d: Deployment, now: uint256, at: Moment, sender: Address, payload: Payload)
    requires Inv(s, d, now) && now <= at.time && AddInput(s, d.cfg, at, sender, payload).Some?
    ensures Inv(AddInput(s, d.cfg, at, sender, payload).value, d, at.time)
    ensures Extends(s, AddInput(s, d.cfg, at, sender, payload).value, at)
  {
    InputSteps(s, d.cfg, at, sender, payload);
    var b := Sealing(s, d.cfg, at);
    SealingKeeps(s, d, now, at);
    PushRests(s, b, d, at, sender, payload);
    ExtendsTransitive(s, b, Pushed(b, at, sender, payload), at);
  }

  // finalizeEpoch

  lemma FinalizeCallKeeps(s: State, d: Deployment, now: uint256, at: Moment)
    requires Inv(s, d, now) && now <= at.time && FinalizeCall(s, d.cfg, at).Some?
    ensures Inv(FinalizeCall(s, d.cfg, at).value, d, at.time)
    ensures Extends(s, FinalizeCall(s, d.cfg, at).value, at)
  {
    TimePasses(s, d, now, at.time);
    FinalizeRests(s, d, at);
    ExtendsFinalize(s, at);
  }

  // claim

  function ClaimBase(s: State, cfg: Config, at: Moment): State {
    if Overdue(s, cfg, at) == Some(true) then SealByClaim(s, at) else s
  }

  lemma ClaimBaseKeeps(s: State, d: Deployment, now: uint256, at: Moment)
    requires Inv(s, d, now) && now <= at.time && Overdue(s, d.cfg, at).Some?
    ensures Mid(ClaimBase(s, d.cfg, at), d, at.time) && Extends(s, ClaimBase(s, d.cfg, at), at)
  {
    hide InboxInv, OrderInv, FinalsInv, MaskInv, PhaseInv, RosterInv, ClockInv;
    TimePasses(s, d, now, at.time);
    if Overdue(s, d.cfg, at).value {
      SealKeeps(s, d, at);
      SealingIsFree(Seal(s, at), d, at.time, at.time);
      ExtendsEmit(s, SealByClaim(s, at), Entry(at, PhaseChange(AwaitingConsensus)));
    }
  }

  function Claimed(b: State, at: Moment, sender: Address, hash: Hash): State
    requires OnClaim(b.manager, sender, hash).Some?
  {
    b.(manager := OnClaim(b.manager, sender, hash).value.0).Emit(at, Event.Claim(|b.epochHashes|, sender, hash))
  }

  // claim is the phase change of a late claim, then the claim itself, then its verdict.
  lemma ClaimSteps(s: State, cfg: Config, at: Moment, sender: Address, hash: Hash)
    requires AcceptClaim(s, cfg, at, sender, hash).Some?
    ensures var b := ClaimBase(s, cfg, at);
            && Overdue(s, cfg, at).Some? && b.phase.AwaitingConsensus? && OnClaim(b.manager, sender, hash).Some?
            && AcceptClaim(s, cfg, at, sender, hash).value == (Claimed(b, at, sender, hash), OnClaim(b.manager, sender, hash).value.1)
            && b.manager == s.manager && b.epochHashes == s.epochHashes
  {
  }

  // The claim has been recorded, and a seal before it; its verdict is still to be resolved.
  lemma AcceptKeeps(s: State, d: Deployment, now: uint256, at: Moment, sender: Address, hash: Hash)
    requires Inv(s, d, now) && now <= at.time && sender != ZERO_ADDRESS
    requires AcceptClaim(s, d.cfg, at, sender, hash).Some?
    ensures var a := AcceptClaim(s, d.cfg, at, sender, hash).value.0;
            Mid(a, d, at.time) && Extends(s, a, at) && a.phase.AwaitingConsensus? && a.manager.currentClaim != ZERO_HASH
  {
    hide InboxInv, OrderInv, FinalsInv, MaskInv, PhaseInv, TimeInv, RosterInv;
    ClaimSteps(s, d.cfg, at, sender, hash);
    ClaimBaseKeeps(s, d, now, at);
    var b := ClaimBase(s, d.cfg, at);
    var a := Claimed(b, at, sender, hash);
    ClaimKeeps(b, d, at, sender, hash);
    ExtendsEmit(b, a, Entry(at, Event.Claim(|s.epochHashes|, sender, hash)));
    ExtendsTransitive(s, b, a, at);
  }

  // The clock after an accepted claim: of an epoch that was sealed already, or of one that it seals.
  lemma AcceptClock(s: State, b: State, a: State, d: Deployment, c: Entry)
    requires ClockInv(s, d) && ClaimsInv(s) && TimeInv(s, d, c.at.time)
    requires c.event.Claim? && c.event.claimEpoch == |s.epochHashes| && a.log == b.log + [c] && a.epochHashes == s.epochHashes
    requires (b == s && a.sealing == s.sealing) || (b == SealByClaim(s, c.at) && s.phase.InputAccumulation? && a.sealing == c.at.time)
    requires a.phase.AwaitingConsensus? && b.phase.AwaitingConsensus?
    ensures ClockInv(a, d)
  {
    hide ClockInv, ClaimsInv, TimeInv;
    if b != s {
      SealingClaimClock(s, a, d, c);
    } else {
      LaterClaimClock(s, a, d, c);
    }
  }

  lemma LaterClaimClock(s: State, a: State, d: Deployment, c: Entry)
    requires ClockInv(s, d) && TimeInv(s, d, c.at.time)
    requires c.event.Claim? && c.event.claimEpoch == |s.epochHashes| && a.log == s.log + [c] && a.epochHashes == s.epochHashes
    requires a.sealing == s.sealing && a.phase.AwaitingConsensus? && s.phase.AwaitingConsensus?
    ensures ClockInv(a, d)
  {
    ClockEmit(s.log, c);
    LastDisputeEmit(s.log, c);
    QueryEmit(s.log, c);
    LastMoveIsPast(s, d, c.at.time);
  }

  lemma SealingClaimClock(s: State, a: State, d: Deployment, c: Entry)
    requires ClockInv(s, d) && ClaimsInv(s) && s.phase.InputAccumulation?
    requires c.event.Claim? && c.event.claimEpoch == |s.epochHashes| && a.epochHashes == s.epochHashes
    requires a.log == SealByClaim(s, c.at).log + [c] && a.sealing == c.at.time && a.phase.AwaitingConsensus?
    ensures ClockInv(a, d)
  {
    var log := SealByClaim(s, c.at).log;
    SealClock(s, d, c.at);
    ClockEmit(log, c);
    LastDisputeEmit(log, c);
    QueryEmit(log, c);
  }

  // Who is gone after an accepted claim: the claimer too, when it contradicts the standing claim.
  lemma AcceptRoster(s: State, d: Deployment, now: uint256, at: Moment, sender: Address, hash: Hash)
    requires Inv(s, d, now) && ValidRoster(d.roster) && sender != ZERO_ADDRESS
    requires AcceptClaim(s, d.cfg, at, sender, hash).Some?
    ensures var (a, v) := AcceptClaim(s, d.cfg, at, sender, hash).value;
            RosterInv((if v.Conflict? then Expel(a.manager, sender) else a.manager).validators, a.log, d.roster)
  {
    var n, m := |s.epochHashes|, s.manager;
    var p, c := Entry(at, PhaseChange(AwaitingConsensus)), Entry(at, Event.Claim(n, sender, hash));
    var log := if Overdue(s, d.cfg, at).value then s.log + [p] else s.log;
    RosterFrame(m.validators, s.log, p, d.roster);
    FirstClaimEmit(s.log, p);
    assert FirstClaim(log, n) == m.currentClaim;
    if m.currentClaim in {ZERO_HASH, hash} {
      RosterFrame(m.validators, log, c, d.roster);
    } else {
      RosterDissent(m, log, c, d.roster);
    }
  }

  lemma AgreedKeeps(s: State, d: Deployment, now: uint256, at: Moment, sender: Address, hash: Hash)
    requires Inv(s, d, now) && now <= at.time && ValidRoster(d.roster) && sender != ZERO_ADDRESS
    requires AcceptClaim(s, d.cfg, at, sender, hash).Some? && AcceptClaim(s, d.cfg, at, sender, hash).value.1.NoConflict?
    ensures var a := AcceptClaim(s, d.cfg, at, sender, hash).value.0;
            Inv(a, d, at.time) && Extends(s, a, at) && a.phase.AwaitingConsensus?
  {
    hide InboxInv, OrderInv, FinalsInv, PhaseInv;
    TimePasses(s, d, now, at.time);
    ClaimSteps(s, d.cfg, at, sender, hash);
    AcceptKeeps(s, d, now, at, sender, hash);
    AcceptRoster(s, d, now, at, sender, hash);
    var b := ClaimBase(s, d.cfg, at);
    AcceptClock(s, b, Claimed(b, at, sender, hash), d, Entry(at, Event.Claim(|s.epochHashes|, sender, hash)));
  }

  lemma ClaimCallKeeps(s: State, d: Deployment, now: uint256, at: Moment, sender: Address, hash: Hash)
    requires Rests(s, d, now) && WellFormed(s.manager) && now <= at.time && ValidRoster(d.roster) && sender != ZERO_ADDRESS
    requires ClaimCall(s, d.cfg, at, sender, hash, SHIPPED).Some?
    ensures Rests(ClaimCall(s, d.cfg, at, sender, hash, SHIPPED).value, d, at.time)
    ensures Extends(s, ClaimCall(s, d.cfg, at, sender, hash, SHIPPED).value, at)
  {
    hide Inv, InboxInv, OrderInv, FinalsInv, MaskInv, PhaseInv, TimeInv, RosterInv;
    var s' := ClaimCall(s, d.cfg, at, sender, hash, SHIPPED).value;
    var (a, v) := AcceptClaim(s, d.cfg, at, sender, hash).value;
    AcceptedIsReady(s, d.cfg, at, sender, hash);
    ClaimSteps(s, d.cfg, at, sender, hash);
    Open(s, d, now);
    AcceptKeeps(s, d, now, at, sender, hash);
    AcceptRoster(s, d, now, at, sender, hash);
    match v
    case NoConflict =>
      AgreedKeeps(s, d, now, at, sender, hash);
      Close(a, d, at.time);
    case Consensus =>
      FinalizeRests(a, d, at);
      Close(s', d, at.time);
      ExtendsFinalize(a, at);
      ExtendsTransitive(s, a, s', at);
    case Conflict(_, _, _, _) =>
      ShippedDispute(a, at, v);
      ConflictKeeps(a, d, at, v);
      Close(s', d, at.time);
      ExtendsTransitive(s, a, s', at);
  }

  // From an accepted claim that conflicts to the end of its transaction.
  lemma ConflictKeeps(a: State, d: Deployment, at: Moment, v: Verdict)
    requires Mid(a, d, at.time) && a.phase.AwaitingConsensus? && a.manager.currentClaim != ZERO_HASH
    requires v.Conflict? && v.standing == a.manager.currentClaim
    requires v.challenger in a.manager.validators && v.challenger != ZERO_ADDRESS
    requires RosterInv(Expel(a.manager, v.challenger).validators, a.log, d.roster)
    ensures var s' := Conclude(Resolved(a, at, v), at, Judge(Expel(a.manager, v.challenger)));
            Inv(s', d, at.time) && Extends(a, s', at)
  {
    hide InboxInv, OrderInv, FinalsInv, MaskInv, PhaseInv, TimeInv;
    var p, r := Entry(at, PhaseChange(AwaitingDispute)), Entry(at, Event.ResolveDispute(v.defender, v.challenger, v.standing));
    var b, c := a.EnterPhase(at, AwaitingDispute), Resolved(a, at, v);
    var s' := Conclude(c, at, Judge(c.manager));
    DisputePhaseKeeps(a, d, at, AwaitingDispute);
    ExpelKeeps(b, d, at, r.event);
    RosterFrame(c.manager.validators, a.log, p, d.roster);
    RosterFrame(c.manager.validators, b.log, r, d.roster);
    ClockEmit(b.log, r);
    LastDisputeEmit(b.log, r);
    ExtendsEmit(a, b, p);
    ExtendsEmit(b, c, r);
    ExtendsTransitive(a, b, c, at);
    if Judge(c.manager).Consensus? {
      FinalizeRests(c, d, at);
      ExtendsFinalize(c, at);
    } else {
      DisputeRests(c, d, at);
      ExtendsEmit(c, s', Entry(at, PhaseChange(AwaitingConsensus)));
    }
    ExtendsTransitive(a, c, s', at);
  }

  // The invariant of the whole deployment, and what every transaction appends.
  lemma StepKeeps(s: State, d: Deployment, now: uint256, at: Moment, tx: Tx)
    requires Rests(s, d, now) && WellFormed(s.manager) && now <= at.time && ValidRoster(d.roster) && ValidTx(tx)
    ensures var r := Apply(s, d.cfg, at, tx);
            r.Some? ==> Rests(r.value, d, at.time) && WellFormed(r.value.manager) && Extends(s, r.value, at)
  {
    var r := Apply(s, d.cfg, at, tx);
    if r.Some? {
      match tx {
        case SendInput(sender, payload) =>
          Open(s, d, now);
          InputKeeps(s, d, now, at, sender, payload);
          Close(r.value, d, at.time);
        case SendClaim(claimer, hash) =>
          ClaimCallKeeps(s, d, now, at, claimer, hash);
        case SendFinalize =>
          Open(s, d, now);
          FinalizeCallKeeps(s, d, now, at);
          Close(r.value, d, at.time);
      }
      RestingMasks(r.value, d, at.time);
    }
  }
}
