/** What holds over every run of a deployment with the shipped dispute manager. */
module Theorems {
  import opened Common
  import opened Events
  import opened ConsensusRules
  import opened Protocol
  import opened Invariant
  import opened Steps
  import opened Runs

  // What later blocks leave alone.
  ghost predicate Later(s: State, s': State) {
    && s.log <= s'.log
    && s.epochHashes <= s'.epochHashes
    && s.CurrentEpoch() <= s'.CurrentEpoch()
    && forall e: nat :: e < s.CurrentEpoch() ==> Query(s'.log, Inputs(e)) == Query(s.log, Inputs(e))
  }

  lemma ExtendsIsLater(s: State, s': State, at: Moment)
    requires Extends(s, s', at)
    ensures Later(s, s')
  {
    var delta := s'.log[|s.log|..];
    assert s'.log == s.log + delta;
    forall e: nat | e < s.CurrentEpoch()
      ensures Query(s'.log, Inputs(e)) == Query(s.log, Inputs(e))
    {
      QueryConcat(s.log, delta, Inputs(e));
    }
  }

  lemma {:induction false} RunIsLater(d: Deployment, blocks: seq<Block>, i: nat)
    requires ValidBlocks(d, blocks) && i <= |blocks|
    ensures ValidBlocks(d, blocks[..i]) && Later(Run(d, blocks[..i]), Run(d, blocks))
  {
    hide Extends;
    if i == |blocks| {
      assert blocks[..i] == blocks;
    } else {
      var prior := blocks[..|blocks| - 1];
      RunIsLater(d, prior, i);
      assert prior[..i] == blocks[..i];
      RunExtends(d, blocks);
      ExtendsIsLater(Run(d, prior), Run(d, blocks), blocks[|blocks| - 1].at);
    }
  }

  lemma SameQuerySameDigests(a: seq<Entry>, b: seq<Entry>, e: nat)
    requires Query(a, Inputs(e)) == Query(b, Inputs(e))
    ensures Digests(a, e) == Digests(b, e)
  {
  }

  // The two boxes hold the inputs of the current and of the sealed epoch; the inputs of an epoch
  // never change once it is sealed; epoch numbers never go back.
  lemma InboxRefinesEpochs(d: Deployment, blocks: seq<Block>, i: nat)
    requires ValidBlocks(d, blocks) && i <= |blocks|
    ensures var s, t := Run(d, blocks[..i]), Run(d, blocks);
            && t.inbox.current == t.CurrentEpoch() % 2
            && t.inbox.Active() == Digests(t.log, t.CurrentEpoch())
            && t.inbox.Sealed() == (if t.phase.InputAccumulation? then [] else Digests(t.log, |t.epochHashes|))
            && s.CurrentEpoch() <= t.CurrentEpoch()
            && (forall e: nat :: e < s.CurrentEpoch() ==> Digests(t.log, e) == Digests(s.log, e))
            && (forall a, b :: 0 <= a < b < |t.log| && t.log[a].event.InputAdded? && t.log[b].event.InputAdded? ==>
                  t.log[a].event.epoch <= t.log[b].event.epoch)
  {
    hide Run, Digests, Query;
    RestingInbox(Run(d, blocks), d, Now(d, blocks));
    RunIsLater(d, blocks, i);
    var s, t := Run(d, blocks[..i]), Run(d, blocks);
    forall e: nat | e < s.CurrentEpoch()
      ensures Digests(t.log, e) == Digests(s.log, e)
    {
      SameQuerySameDigests(s.log, t.log, e);
    }
  }

  // What one settled claim does, for the transactions of the shipped dispute manager.
  lemma ClaimEnds(s: State, cfg: Config, at: Moment, sender: Address, hash: Hash)
    requires WellFormed(s.manager) && sender != ZERO_ADDRESS && !s.phase.AwaitingDispute?
    requires ClaimCall(s, cfg, at, sender, hash, SHIPPED).Some?
    ensures AcceptClaim(s, cfg, at, sender, hash).Some? && OnClaim(s.manager, sender, hash).Some?
    ensures var (a, v) := AcceptClaim(s, cfg, at, sender, hash).value;
            && a.phase.AwaitingConsensus? && a.epochHashes == s.epochHashes && WellFormed(a.manager)
            && (a.manager, v) == OnClaim(s.manager, sender, hash).value
            && var c := if v.Conflict? then Resolved(a, at, v) else a;
               ClaimCall(s, cfg, at, sender, hash, SHIPPED).value == Conclude(c, at, if v.Conflict? then Judge(c.manager) else v)
  {
    AcceptedIsReady(s, cfg, at, sender, hash);
    ClaimSteps(s, cfg, at, sender, hash);
    var (a, v) := AcceptClaim(s, cfg, at, sender, hash).value;
    if v.Conflict? {
      ShippedDispute(a, at, v);
    }
  }

  lemma StepAdvances(s: State, cfg: Config, at: Moment, tx: Tx)
    requires WellFormed(s.manager) && ValidTx(tx) && !s.phase.AwaitingDispute? && Apply(s, cfg, at, tx).Some?
    ensures var t := Apply(s, cfg, at, tx).value;
            && s.CurrentEpoch() <= t.CurrentEpoch() <= s.CurrentEpoch() + 1
            && |s.epochHashes| <= |t.epochHashes| <= |s.epochHashes| + 1
  {
    match tx
    case SendInput(sender, payload) => InputSteps(s, cfg, at, sender, payload);
    case SendClaim(claimer, hash) => ClaimEnds(s, cfg, at, claimer, hash);
    case SendFinalize =>
  }

  // No transaction moves the current epoch by more than one.
  lemma EpochAdvancesByOne(d: Deployment, blocks: seq<Block>, at: Moment, tx: Tx)
    requires ValidBlocks(d, blocks) && Now(d, blocks) <= at.time && ValidTx(tx)
    ensures var s := Run(d, blocks);
            var t := Step(s, d, Now(d, blocks), at, tx);
            s.CurrentEpoch() <= t.CurrentEpoch() <= s.CurrentEpoch() + 1
            && |s.epochHashes| <= |t.epochHashes| <= |s.epochHashes| + 1
  {
    var s := Run(d, blocks);
    RestingPhase(s, d, Now(d, blocks));
    if Apply(s, d.cfg, at, tx).Some? {
      StepAdvances(s, d.cfg, at, tx);
    }
  }

  // Epoch k is finalized once, in its turn, with the first hash claimed for it; a hash recorded once
  // is recorded for good.
  lemma FirstClaimWins(d: Deployment, blocks: seq<Block>, i: nat)
    requires ValidBlocks(d, blocks) && i <= |blocks|
    ensures var s, t := Run(d, blocks[..i]), Run(d, blocks); var finals := Query(t.log, Finalizations);
            && s.epochHashes <= t.epochHashes
            && |finals| == |t.epochHashes|
            && forall k :: 0 <= k < |finals| ==>
                 && finals[k].event == FinalizeEpoch(k, t.epochHashes[k])
                 && t.epochHashes[k] != ZERO_HASH
                 && Query(t.log, Claims(k)) != []
                 && Query(t.log, Claims(k))[0].event.Claim?
                 && Query(t.log, Claims(k))[0].event.claimHash == t.epochHashes[k]
  {
    RestingClaims(Run(d, blocks), d, Now(d, blocks));
    RunIsLater(d, blocks, i);
    var t := Run(d, blocks);
    forall k: nat | k < |t.epochHashes|
      ensures Query(t.log, Claims(k)) != []
              && Query(t.log, Claims(k))[0].event.Claim?
              && Query(t.log, Claims(k))[0].event.claimHash == t.epochHashes[k]
    {
      QueryMatches(t.log, Claims(k));
      assert t.epochHashes[k] == FirstClaim(t.log, k);
    }
  }

  // The masks say who remains and who has claimed the current claim; whenever somebody agrees, the
  // search for an agreeing validator finds one.
  lemma MasksMeanClaims(d: Deployment, blocks: seq<Block>, i: nat)
    requires ValidBlocks(d, blocks) && i < |d.roster|
    ensures var s := Run(d, blocks); var m := s.manager;
            && |m.validators| == |d.roster|
            && (i in m.goal <==> m.validators[i] != ZERO_ADDRESS)
            && (i in m.agreement <==>
                  m.validators[i] != ZERO_ADDRESS && (m.validators[i], m.currentClaim) in Votes(s.log, |s.epochHashes|))
            && (m.agreement != {} ==> Champion(m).Some? && Champion(m).value != ZERO_ADDRESS)
  {
    RestingMasks(Run(d, blocks), d, Now(d, blocks));
    var m := Run(d, blocks).manager;
    assert i in Slots(m.validators) <==> m.validators[i] != ZERO_ADDRESS;
    if m.agreement != {} {
      ChampionIsLowestAgreeing(m);
      var k := LowestFrom(m.agreement, 0, |m.validators|).value;
      assert k in Slots(m.validators);
    }
  }

  lemma {:induction false} DissentIsForGood(log: seq<Entry>, delta: seq<Entry>, v: Address)
    requires Dissented(log, v)
    ensures Dissented(log + delta, v)
  {
    if delta == [] {
      assert log + delta == log;
    } else {
      assert (log + delta)[..|log + delta| - 1] == log + delta[..|delta| - 1];
      DissentIsForGood(log, delta[..|delta| - 1], v);
    }
  }

  lemma Barred(s: State, d: Deployment, at: Moment, k: nat, hash: Hash)
    requires ValidRoster(d.roster) && k < |d.roster| && Dissented(s.log, d.roster[k])
    requires WellFormed(s.manager) && RosterInv(s.manager.validators, s.log, d.roster)
    ensures s.manager.validators[k] == ZERO_ADDRESS && Apply(s, d.cfg, at, SendClaim(d.roster[k], hash)).None?
  {
    assert d.roster[k] !in s.manager.validators;
    assert IndexOf(s.manager.validators, d.roster[k]).None?;
  }

  // A validator is gone exactly when it has contradicted the first claim of some epoch, and from then
  // on every claim it sends reverts.
  lemma OnlyDissentersAreRemoved(d: Deployment, blocks: seq<Block>, i: nat, k: nat, at: Moment, hash: Hash)
    requires ValidBlocks(d, blocks) && i <= |blocks| && k < |d.roster| && Now(d, blocks) <= at.time
    ensures var s, t, v := Run(d, blocks[..i]), Run(d, blocks), d.roster[k];
            && |s.manager.validators| == |t.manager.validators| == |d.roster|
            && (s.manager.validators[k] == if Dissented(s.log, v) then ZERO_ADDRESS else v)
            && (Dissented(s.log, v) ==>
                  t.manager.validators[k] == ZERO_ADDRESS && Apply(t, d.cfg, at, SendClaim(v, hash)).None?)
  {
    hide Apply, WellFormed, Run, MaskInv;
    RunIsLater(d, blocks, i);
    var s, t, v := Run(d, blocks[..i]), Run(d, blocks), d.roster[k];
    RestingMasks(s, d, Now(d, blocks[..i]));
    RestingMasks(t, d, Now(d, blocks));
    if Dissented(s.log, v) {
      assert t.log == s.log + t.log[|s.log|..];
      DissentIsForGood(s.log, t.log[|s.log|..], v);
      Barred(t, d, at, k, hash);
    }
  }

  // An accepted claim expels its sender when it contradicts the standing claim, and nobody otherwise.
  lemma ClaimExpelsOnlyItsSender(d: Deployment, blocks: seq<Block>, at: Moment, sender: Address, hash: Hash)
    requires ValidBlocks(d, blocks) && Now(d, blocks) <= at.time && sender != ZERO_ADDRESS
    requires Apply(Run(d, blocks), d.cfg, at, SendClaim(sender, hash)).Some?
    ensures var s := Run(d, blocks);
            var t := Apply(s, d.cfg, at, SendClaim(sender, hash)).value;
            var slot := IndexOf(s.manager.validators, sender);
            slot.Some? && t.manager.validators ==
              if s.manager.currentClaim in {ZERO_HASH, hash} then s.manager.validators
              else s.manager.validators[slot.value := ZERO_ADDRESS]
  {
    hide Run, WellFormed;
    RestingPhase(Run(d, blocks), d, Now(d, blocks));
    ClaimEnds(Run(d, blocks), d.cfg, at, sender, hash);
  }

  // Between transactions there is no open dispute, an accumulating epoch has no claim, a claimed one
  // is short of consensus, and the log ends every change of phase with the phase itself.
  lemma PhasesAtRest(d: Deployment, blocks: seq<Block>)
    requires ValidBlocks(d, blocks)
    ensures var s := Run(d, blocks); var p := Query(s.log, PhaseChanges);
            && !s.phase.AwaitingDispute?
            && (s.phase.InputAccumulation? ==> s.manager.currentClaim == ZERO_HASH && s.manager.agreement == {})
            && (s.phase.AwaitingConsensus? && s.manager.currentClaim != ZERO_HASH ==> s.manager.agreement != s.manager.goal)
            && (if p == [] then s.phase.InputAccumulation? else p[|p| - 1].event == PhaseChange(s.phase))
            && forall i :: 0 < i < |p| ==> p[i - 1].event != p[i].event
  {
    var s := Run(d, blocks);
    RestingPhase(s, d, Now(d, blocks));
    RestingMasks(s, d, Now(d, blocks));
    RestingClaims(s, d, Now(d, blocks));
    if s.phase.InputAccumulation? {
      VotesAreClaims(s.log, |s.epochHashes|);
      assert forall i :: i in s.manager.agreement ==> i in s.manager.goal;
    }
  }

  // finalizeEpoch succeeds exactly when an epoch with a claim has its challenge clock running and the
  // challenge period has passed on it. Without a running clock (sealed by an input, no dispute) it
  // measures epoch 0 from time zero, and never succeeds for any later epoch.
  lemma FinalizeExactly(d: Deployment, blocks: seq<Block>, at: Moment)
    requires ValidBlocks(d, blocks) && Now(d, blocks) <= at.time
    ensures var s := Run(d, blocks); var clock := Clock(s.log);
            Apply(s, d.cfg, at, SendFinalize).Some? <==>
              && s.phase.AwaitingConsensus?
              && Query(s.log, Claims(|s.epochHashes|)) != []
              && if clock.Some? then at.time > clock.value + d.cfg.challengePeriod
                 else s.epochHashes == [] && at.time > d.cfg.challengePeriod
  {
    RestingTimes(Run(d, blocks), d, Now(d, blocks));
    RestingClaims(Run(d, blocks), d, Now(d, blocks));
    RestingPhase(Run(d, blocks), d, Now(d, blocks));
    QueryMatches(Run(d, blocks).log, Claims(|Run(d, blocks).epochHashes|));
  }

  // A timeout is more than a challenge period after the epoch's first claim and its last dispute; the
  // only exception is epoch 0 sealed by an input.
  lemma FinalizeIsLate(d: Deployment, blocks: seq<Block>, at: Moment)
    requires ValidBlocks(d, blocks) && Now(d, blocks) <= at.time
    requires var s := Run(d, blocks);
             Apply(s, d.cfg, at, SendFinalize).Some? && (s.epochHashes != [] || Clock(s.log).Some?)
    ensures var s := Run(d, blocks); var claims := Query(s.log, Claims(|s.epochHashes|));
            && claims != [] && at.time > claims[0].at.time + d.cfg.challengePeriod
            && (LastDispute(s.log).Some? ==> at.time > LastDispute(s.log).value + d.cfg.challengePeriod)
  {
    FinalizeExactly(d, blocks, at);
    RestingTimes(Run(d, blocks), d, Now(d, blocks));
    DisputeSetsClock(Run(d, blocks).log);
  }

  // Every finalized epoch has had its whole accumulation period.
  lemma EpochsTakeTime(d: Deployment, blocks: seq<Block>)
    requires ValidBlocks(d, blocks)
    ensures var s := Run(d, blocks);
            && d.creation + |s.epochHashes| * (d.cfg.inputDuration + 1) <= s.accumulationStart <= Now(d, blocks)
            && (!s.phase.InputAccumulation? ==>
                  d.creation + (|s.epochHashes| + 1) * (d.cfg.inputDuration + 1) <= Now(d, blocks))
  {
    RestingTimes(Run(d, blocks), d, Now(d, blocks));
    Distribute(|Run(d, blocks).epochHashes|, d.cfg.inputDuration + 1);
  }

  lemma Distribute(n: int, u: int)
    ensures (n + 1) * u == n * u + u
  {
  }

  // An epoch that a claim finalizes has been claimed, with the finalized hash, by every validator left.
  lemma ConsensusIsUnanimous(d: Deployment, blocks: seq<Block>, at: Moment, sender: Address, hash: Hash, i: nat)
    requires ValidBlocks(d, blocks) && Now(d, blocks) <= at.time && sender != ZERO_ADDRESS && i < |d.roster|
    requires Apply(Run(d, blocks), d.cfg, at, SendClaim(sender, hash)).Some?
    ensures var s := Run(d, blocks);
            var t := Apply(s, d.cfg, at, SendClaim(sender, hash)).value;
            var v, n := t.manager.validators, |s.epochHashes|;
            && |v| == |d.roster|
            && (|t.epochHashes| == n + 1 && v[i] != ZERO_ADDRESS ==> (v[i], t.epochHashes[n]) in Votes(t.log, n))
  {
    hide Run, Votes;
    var s := Run(d, blocks);
    RestingPhase(s, d, Now(d, blocks));
    RestingMasks(s, d, Now(d, blocks));
    ClaimEnds(s, d.cfg, at, sender, hash);
    SettledMid(s, d, Now(d, blocks), at, sender, hash);
    var (a, v) := AcceptClaim(s, d.cfg, at, sender, hash).value;
    UnanimousEnd(if v.Conflict? then Resolved(a, at, v) else a, at, if v.Conflict? then Judge(Resolved(a, at, v).manager) else v, i);
  }

  // Just before its verdict is announced, the masks tell who has claimed the current claim.
  lemma SettledMid(s: State, d: Deployment, now: uint256, at: Moment, sender: Address, hash: Hash)
    requires Rests(s, d, now) && now <= at.time && sender != ZERO_ADDRESS
    requires AcceptClaim(s, d.cfg, at, sender, hash).Some?
    ensures var (a, v) := AcceptClaim(s, d.cfg, at, sender, hash).value;
            MaskInv(if v.Conflict? then Resolved(a, at, v) else a)
  {
    hide Inv, InboxInv, OrderInv, FinalsInv, ClaimsInv, PhaseInv, TimeInv;
    Open(s, d, now);
    AcceptKeeps(s, d, now, at, sender, hash);
    ClaimSteps(s, d.cfg, at, sender, hash);
    var (a, v) := AcceptClaim(s, d.cfg, at, sender, hash).value;
    if v.Conflict? {
      MaskFrame(a, a.EnterPhase(at, AwaitingDispute), Entry(at, PhaseChange(AwaitingDispute)));
      var e := Event.ResolveDispute(v.defender, v.challenger, v.standing);
      ExpelMasks(a.EnterPhase(at, AwaitingDispute), Resolved(a, at, v), Entry(at, e));
    }
  }

  lemma UnanimousEnd(c: State, at: Moment, v: Verdict, i: nat)
    requires MaskInv(c) && !c.phase.InputAccumulation? && i < |c.manager.validators|
    requires v.Consensus? ==> c.manager.agreement == c.manager.goal
    requires !v.Conflict?
    ensures var t := Conclude(c, at, v);
            |t.epochHashes| == |c.epochHashes| + 1 && t.manager.validators[i] != ZERO_ADDRESS ==>
              (t.manager.validators[i], t.epochHashes[|c.epochHashes|]) in Votes(t.log, |c.epochHashes|)
  {
    var p, f := Entry(at, PhaseChange(InputAccumulation)), Entry(at, FinalizeEpoch(|c.epochHashes|, c.manager.currentClaim));
    VotesEmit(c.log, p);
    VotesEmit(c.log + [p], f);
    assert i in Slots(c.manager.validators) <==> c.manager.validators[i] != ZERO_ADDRESS;
  }

  // Progress: the claims still missing, in any order and at any times.

  ghost function ClaimAll(s: State, cfg: Config, ats: seq<Moment>, slots: seq<nat>, hash: Hash): Option<State>
    requires |ats| == |slots|
    decreases |slots|
  {
    if slots == [] then Some(s)
    else if !(WellFormed(s.manager) && slots[0] in s.manager.goal) then None
    else
      match ClaimCall(s, cfg, ats[0], s.manager.validators[slots[0]], hash, SHIPPED)
      case None => None
      case Some(t) => ClaimAll(t, cfg, ats[1..], slots[1..], hash)
  }

  ghost predicate Missing(m: Manager, slots: seq<nat>) {
    && (forall i, j :: 0 <= i < j < |slots| ==> slots[i] != slots[j])
    && (forall i :: i in slots <==> i in m.goal - m.agreement)
  }

  // One agreeing claim adds its slot; it finalizes the epoch when it is the last one missing.
  lemma AgreeingClaim(s: State, cfg: Config, at: Moment, slots: seq<nat>, hash: Hash)
    requires WellFormed(s.manager) && s.phase.AwaitingConsensus? && slots != [] && Missing(s.manager, slots)
    requires hash != ZERO_HASH && s.manager.currentClaim in {ZERO_HASH, hash}
    ensures slots[0] in s.manager.goal
    ensures var r := ClaimCall(s, cfg, at, s.manager.validators[slots[0]], hash, SHIPPED);
            && r.Some?
            && (|slots| == 1 ==> r.value.phase.InputAccumulation? && r.value.epochHashes == s.epochHashes + [hash])
            && (|slots| > 1 ==>
                  && r.value.phase.AwaitingConsensus? && r.value.epochHashes == s.epochHashes
                  && WellFormed(r.value.manager) && r.value.manager.currentClaim == hash && Missing(r.value.manager, slots[1..]))
  {
    var m, k := s.manager, slots[0];
    assert k in slots;
    assert k in Slots(m.validators);
    var sender := m.validators[k];
    assert IndexOf(m.validators, sender) == Some(k);
    AcceptedIsReady(s, cfg, at, sender, hash);
    var m' := OnClaim(m, sender, hash).value.0;
    assert m'.agreement == m.agreement + {k} && m'.goal == m.goal;
    forall i
      ensures i in slots[1..] <==> i in m'.goal - m'.agreement
    {
      assert i in slots <==> i == k || i in slots[1..];
    }
    if |slots| == 1 {
      forall i | i in m.goal
        ensures i in m'.agreement
      {
        assert i in m.goal - m.agreement ==> i in slots;
      }
      assert m'.agreement == m'.goal;
    } else {
      assert slots[1] in slots[1..];
    }
  }

  lemma {:induction false} MissingClaimsFinalize(s: State, cfg: Config, ats: seq<Moment>, slots: seq<nat>, hash: Hash, k: nat)
    requires WellFormed(s.manager) && s.phase.AwaitingConsensus? && slots != [] && Missing(s.manager, slots)
    requires hash != ZERO_HASH && s.manager.currentClaim in {ZERO_HASH, hash}
    requires |ats| == |slots| && k <= |slots|
    ensures var r := ClaimAll(s, cfg, ats[..k], slots[..k], hash);
            && r.Some?
            && (k < |slots| ==> r.value.phase.AwaitingConsensus? && r.value.epochHashes == s.epochHashes)
            && (k == |slots| ==> r.value.phase.InputAccumulation? && r.value.epochHashes == s.epochHashes + [hash])
    decreases |slots|
  {
    if k > 0 {
      AgreeingClaim(s, cfg, ats[0], slots, hash);
      assert ats[..k][1..] == ats[1..][..k - 1] && slots[..k][1..] == slots[1..][..k - 1];
      if |slots| > 1 {
        var t := ClaimCall(s, cfg, ats[0], s.manager.validators[slots[0]], hash, SHIPPED).value;
        MissingClaimsFinalize(t, cfg, ats[1..], slots[1..], hash, k - 1);
      }
    }
  }
}
