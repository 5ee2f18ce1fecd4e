/** What each transaction does, field by field and event by event, in every reachable state. */
module Effects {
  import opened Common
  import opened Events
  import opened ConsensusRules
  import opened Protocol
  import opened Invariant
  import opened Steps
  import opened Runs
  import opened Theorems
  import opened Support

  // The accumulation period is over, by the clock.
  predicate Late(s: State, cfg: Config, time: uint256) {
    s.phase.InputAccumulation? && time > s.accumulationStart + cfg.inputDuration
  }

  // The end of the accumulation period is a number that fits.
  predicate HasDeadline(s: State, cfg: Config) {
    s.phase.InputAccumulation? ==> s.accumulationStart + cfg.inputDuration <= UINT256_MAX
  }

  function Entries(at: Moment, events: seq<Event>): (r: seq<Entry>)
    ensures |r| == |events|
  {
    seq(|events|, i requires 0 <= i < |events| => Entry(at, events[i]))
  }

  lemma EntriesConcat(at: Moment, a: seq<Event>, b: seq<Event>)
    ensures Entries(at, a) + Entries(at, b) == Entries(at, a + b)
  {
  }

  // The boxes keep their contents when they change roles.
  predicate Swapped(i: Inbox, j: Inbox) {
    j.current != i.current && j.Active() == i.Sealed() && j.Sealed() == i.Active()
  }

  // The deployment.
  lemma DeployEffect(d: Deployment)
    requires ValidBlocks(d, [])
    ensures var s := Run(d, []);
            && s.phase == InputAccumulation && s.accumulationStart == d.creation && s.sealing == 0
            && s.epochHashes == [] && s.log == [] && s.inbox.Active() == [] && s.inbox.Sealed() == []
            && s.manager.validators == d.roster && s.manager.currentClaim == ZERO_HASH && s.manager.agreement == {}
            && forall i: nat :: i in s.manager.goal <==> i < |d.roster|
  {
    hide Rests;
  }

  // finalizeEpoch: acceptance is the subject of FinalizeExactly.
  lemma FinalizeEffect(d: Deployment, blocks: seq<Block>, at: Moment)
    requires ValidBlocks(d, blocks) && Now(d, blocks) <= at.time
    ensures var s, r := Run(d, blocks), Apply(Run(d, blocks), d.cfg, at, SendFinalize); var n := |s.epochHashes|;
            r.Some? ==>
              var t := r.value;
              && t.phase == InputAccumulation
              && t.accumulationStart == at.time
              && t.sealing == UINT256_MAX
              && t.epochHashes == s.epochHashes + [FirstClaim(s.log, n)]
              && t.manager.currentClaim == ZERO_HASH && t.manager.agreement == {}
              && t.manager.validators == s.manager.validators && t.manager.goal == s.manager.goal
              && t.inbox.current == s.inbox.current && t.inbox.Active() == s.inbox.Active() && t.inbox.Sealed() == []
              && t.log == s.log + Entries(at, [PhaseChange(InputAccumulation), FinalizeEpoch(n, FirstClaim(s.log, n))])
  {
    hide Run;
    var s := Run(d, blocks);
    RestingClaims(s, d, Now(d, blocks));
    if Apply(s, d.cfg, at, SendFinalize).Some? {
      var t := Apply(s, d.cfg, at, SendFinalize).value;
      var events := [PhaseChange(InputAccumulation), FinalizeEpoch(|s.epochHashes|, s.manager.currentClaim)];
      assert t.log == s.log + Entries(at, events);
    }
  }

  // addInput
  lemma InputEffect(d: Deployment, blocks: seq<Block>, at: Moment, sender: Address, payload: Payload)
    requires ValidBlocks(d, blocks) && Now(d, blocks) <= at.time
    ensures var s, r := Run(d, blocks), Apply(Run(d, blocks), d.cfg, at, SendInput(sender, payload));
            && (r.Some? <==> 0 < |payload| <= d.cfg.driveSize && HasDeadline(s, d.cfg))
            && (r.Some? ==>
                  var t, late := r.value, Late(s, d.cfg, at.time);
                  var epoch := |s.epochHashes| + if s.phase.InputAccumulation? && !late then 0 else 1;
                  && t.phase == (if late then AwaitingConsensus else s.phase)
                  && t.accumulationStart == s.accumulationStart && t.sealing == s.sealing
                  && t.manager == s.manager && t.epochHashes == s.epochHashes
                  && t.inbox.current == (if late then 1 - s.inbox.current else s.inbox.current)
                  && t.inbox.Active() == (if late then [] else s.inbox.Active()) + [Digest(sender, at.time, payload)]
                  && t.inbox.Sealed() == (if late then s.inbox.Active() else s.inbox.Sealed())
                  && t.log == s.log + Entries(at, (if late then [PhaseChange(AwaitingConsensus)] else [])
                                                  + [InputAdded(epoch, sender, at.time, payload)]))
  {
    hide Run, Digests, Query;
    var s := Run(d, blocks);
    RestingInbox(s, d, Now(d, blocks));
    var r := Apply(s, d.cfg, at, SendInput(sender, payload));
    if r.Some? {
      InputSteps(s, d.cfg, at, sender, payload);
      var b := Sealing(s, d.cfg, at);
      var first := if Late(s, d.cfg, at.time) then [PhaseChange(AwaitingConsensus)] else [];
      var input := InputAdded(b.CurrentEpoch(), sender, at.time, payload);
      assert b.log == s.log + Entries(at, first);
      assert r.value.log == b.log + Entries(at, [input]);
      EntriesConcat(at, first, [input]);
    }
  }

  // claim, first as far as its verdict

  lemma AcceptExactly(s: State, cfg: Config, at: Moment, sender: Address, hash: Hash)
    requires AtRest(s) && sender != ZERO_ADDRESS
    ensures ClaimCall(s, cfg, at, sender, hash, SHIPPED).Some? <==>
              && hash != ZERO_HASH && sender in s.manager.validators
              && HasDeadline(s, cfg) && (s.phase.AwaitingConsensus? || Late(s, cfg, at.time))
              && (s.manager.currentClaim in {ZERO_HASH, hash} || s.manager.agreement != {})
  {
    if s.manager.currentClaim !in {ZERO_HASH, hash} && hash != ZERO_HASH {
      Contested(s, cfg, at, sender, hash);
    } else {
      AcceptedIsReady(s, cfg, at, sender, hash);
    }
  }

  lemma AcceptEffect(s: State, cfg: Config, at: Moment, sender: Address, hash: Hash, k: nat)
    requires AtRest(s) && AcceptClaim(s, cfg, at, sender, hash).Some?
    requires k < |s.manager.validators| && s.manager.validators[k] == sender != ZERO_ADDRESS
    ensures IndexOf(s.manager.validators, sender) == Some(k)
    ensures var (a, v) := AcceptClaim(s, cfg, at, sender, hash).value;
            var late, m, n := Late(s, cfg, at.time), s.manager, |s.epochHashes|;
            && a.phase == AwaitingConsensus && a.epochHashes == s.epochHashes && a.accumulationStart == s.accumulationStart
            && a.sealing == (if late then at.time else s.sealing)
            && (if late then Swapped(s.inbox, a.inbox) else a.inbox == s.inbox)
            && a.log == s.log + Entries(at, (if late then [PhaseChange(AwaitingConsensus)] else []) + [Event.Claim(n, sender, hash)])
            && (a.manager, v) == OnClaim(m, sender, hash).value
  {
    ClaimSteps(s, cfg, at, sender, hash);
    var b := ClaimBase(s, cfg, at);
    var first := if Late(s, cfg, at.time) then [PhaseChange(AwaitingConsensus)] else [];
    var claim := Event.Claim(|s.epochHashes|, sender, hash);
    assert b.log == s.log + Entries(at, first);
    assert Claimed(b, at, sender, hash).log == b.log + Entries(at, [claim]);
    EntriesConcat(at, first, [claim]);
  }

  // Everything that an accepted claim of the validator in slot k does; j is the lowest agreeing slot.
  ghost predicate ClaimDone(s: State, t: State, cfg: Config, at: Moment, hash: Hash, k: nat, j: nat)
    requires k < |s.manager.validators| && j < |s.manager.validators|
  {
    var m, n, late := s.manager, |s.epochHashes|, Late(s, cfg, at.time);
    var claim := if m.currentClaim == ZERO_HASH then hash else m.currentClaim;
    var disputed := claim != hash;
    var agreement := if disputed then m.agreement - {k} else m.agreement + {k};
    var goal := if disputed then m.goal - {k} else m.goal;
    var ends := agreement == goal;
    && t.phase == (if ends then InputAccumulation else AwaitingConsensus)
    && t.epochHashes == s.epochHashes + (if ends then [claim] else [])
    && t.accumulationStart == (if ends then at.time else s.accumulationStart)
    && t.sealing == (if ends then UINT256_MAX else if disputed || late then at.time else s.sealing)
    && t.manager.validators == (if disputed then m.validators[k := ZERO_ADDRESS] else m.validators)
    && t.manager.goal == goal
    && t.manager.agreement == (if ends then {} else agreement)
    && t.manager.currentClaim == (if ends then ZERO_HASH else claim)
    && (t.inbox.current == s.inbox.current <==> !late)
    && t.inbox.Active() == (if late then s.inbox.Sealed() else s.inbox.Active())
    && t.inbox.Sealed() == (if ends then [] else if late then s.inbox.Active() else s.inbox.Sealed())
    && t.log == s.log + Entries(at,
         (if late then [PhaseChange(AwaitingConsensus)] else [])
         + [Event.Claim(n, m.validators[k], hash)]
         + (if disputed then [PhaseChange(AwaitingDispute), Event.ResolveDispute(m.validators[j], m.validators[k], claim)] else [])
         + (if ends then [PhaseChange(InputAccumulation), FinalizeEpoch(n, claim)]
            else if disputed then [PhaseChange(AwaitingConsensus)] else []))
  }

  // The dispute, and the end of the transaction, on what an accepted claim has left.
  lemma DisputeEffect(a: State, at: Moment, v: Verdict, k: nat, j: nat)
    requires WellFormed(a.manager) && a.phase.AwaitingConsensus? && v.Conflict?
    requires k < |a.manager.validators| && j < |a.manager.validators|
    requires v.challenger == a.manager.validators[k] != ZERO_ADDRESS && v.defender == a.manager.validators[j]
    ensures var c, m := Resolved(a, at, v), a.manager;
            && c == a.(phase := AwaitingDispute, sealing := at.time,
                       manager := m.(validators := m.validators[k := ZERO_ADDRESS], agreement := m.agreement - {k}, goal := m.goal - {k}),
                       log := a.log + Entries(at, [PhaseChange(AwaitingDispute), Event.ResolveDispute(v.defender, v.challenger, v.standing)]))
  {
    assert IndexOf(a.manager.validators, a.manager.validators[k]) == Some(k);
    var events := [PhaseChange(AwaitingDispute), Event.ResolveDispute(v.defender, v.challenger, v.standing)];
    assert Resolved(a, at, v).log == a.log + Entries(at, events);
  }

  lemma EndEffect(c: State, at: Moment, v: Verdict)
    requires !c.phase.InputAccumulation? && !v.Conflict?
    ensures var t, ends := Conclude(c, at, v), v.Consensus?;
            var claim := c.manager.currentClaim;
            && t.phase == (if ends then InputAccumulation else AwaitingConsensus)
            && t.epochHashes == c.epochHashes + (if ends then [claim] else [])
            && t.accumulationStart == (if ends then at.time else c.accumulationStart)
            && t.sealing == (if ends then UINT256_MAX else c.sealing)
            && t.manager == (if ends then c.manager.(currentClaim := ZERO_HASH, agreement := {}) else c.manager)
            && t.inbox.current == c.inbox.current && t.inbox.Active() == c.inbox.Active()
            && t.inbox.Sealed() == (if ends then [] else c.inbox.Sealed())
            && t.log == c.log + Entries(at,
                 if ends then [PhaseChange(InputAccumulation), FinalizeEpoch(|c.epochHashes|, claim)]
                 else if c.phase.AwaitingDispute? then [PhaseChange(AwaitingConsensus)] else [])
  {
    var t, ends := Conclude(c, at, v), v.Consensus?;
    var events := if ends then [PhaseChange(InputAccumulation), FinalizeEpoch(|c.epochHashes|, c.manager.currentClaim)]
                  else if c.phase.AwaitingDispute? then [PhaseChange(AwaitingConsensus)] else [];
    assert t.log == c.log + Entries(at, events);
  }

  lemma ClaimJudged(m: Manager, sender: Address, hash: Hash, k: nat, j: nat)
    requires WellFormed(m) && sender != ZERO_ADDRESS && k < |m.validators| && m.validators[k] == sender
    requires OnClaim(m, sender, hash).Some? && j < |m.validators|
    requires m.agreement != {} ==> j in m.agreement && forall i :: i in m.agreement ==> j <= i
    ensures var (m', v) := OnClaim(m, sender, hash).value;
            var claim := if m.currentClaim == ZERO_HASH then hash else m.currentClaim;
            if claim != hash then m' == m && v == Conflict(claim, hash, m.validators[j], sender)
            else
              && m' == m.(currentClaim := claim, agreement := m.agreement + {k})
              && v == if m'.agreement == m'.goal then Consensus else NoConflict
  {
    assert IndexOf(m.validators, sender) == Some(k);
    if m.agreement != {} {
      ChampionIsLowestAgreeing(m);
    }
  }

  lemma ClaimEffectOn(s: State, cfg: Config, at: Moment, hash: Hash, k: nat, j: nat)
    requires AtRest(s) && k < |s.manager.validators| && s.manager.validators[k] != ZERO_ADDRESS && j < |s.manager.validators|
    requires s.manager.agreement != {} ==> j in s.manager.agreement && forall i :: i in s.manager.agreement ==> j <= i
    requires ClaimCall(s, cfg, at, s.manager.validators[k], hash, SHIPPED).Some?
    ensures ClaimDone(s, ClaimCall(s, cfg, at, s.manager.validators[k], hash, SHIPPED).value, cfg, at, hash, k, j)
  {
    hide OnClaim, Resolved, Conclude, AcceptClaim, ClaimCall, Entries;
    var sender, t := s.manager.validators[k], ClaimCall(s, cfg, at, s.manager.validators[k], hash, SHIPPED).value;
    ClaimEnds(s, cfg, at, sender, hash);
    AcceptEffect(s, cfg, at, sender, hash, k);
    ClaimJudged(s.manager, sender, hash, k, j);
    var (a, v) := AcceptClaim(s, cfg, at, sender, hash).value;
    var first := (if Late(s, cfg, at.time) then [PhaseChange(AwaitingConsensus)] else []) + [Event.Claim(|s.epochHashes|, sender, hash)];
    if v.Conflict? {
      DisputeEffect(a, at, v, k, j);
      var c := Resolved(a, at, v);
      EndEffect(c, at, Judge(c.manager));
      var second := [PhaseChange(AwaitingDispute), Event.ResolveDispute(v.defender, v.challenger, v.standing)];
      var third := if Judge(c.manager).Consensus? then [PhaseChange(InputAccumulation), FinalizeEpoch(|c.epochHashes|, c.manager.currentClaim)]
                   else [PhaseChange(AwaitingConsensus)];
      EntriesConcat(at, first, second);
      EntriesConcat(at, first + second, third);
      assert t.log == s.log + (Entries(at, first) + Entries(at, second)) + Entries(at, third);
    } else {
      EndEffect(a, at, v);
      var third := if v.Consensus? then [PhaseChange(InputAccumulation), FinalizeEpoch(|a.epochHashes|, a.manager.currentClaim)] else [];
      EntriesConcat(at, first, third);
      assert t.log == s.log + Entries(at, first) + Entries(at, third);
      assert first + [] == first && first + third == first + [] + third;
    }
  }

  // claim, in every reachable state: when it is accepted, and what it does then.
  lemma ClaimEffect(d: Deployment, blocks: seq<Block>, at: Moment, sender: Address, hash: Hash, k: nat, j: nat)
    requires ValidBlocks(d, blocks) && Now(d, blocks) <= at.time && sender != ZERO_ADDRESS
    ensures var s, r := Run(d, blocks), Apply(Run(d, blocks), d.cfg, at, SendClaim(sender, hash)); var m := s.manager;
            && (r.Some? <==>
                  && hash != ZERO_HASH && sender in m.validators
                  && HasDeadline(s, d.cfg) && (s.phase.AwaitingConsensus? || Late(s, d.cfg, at.time))
                  && (m.currentClaim in {ZERO_HASH, hash} || m.agreement != {}))
            && (r.Some? && k < |m.validators| && m.validators[k] == sender && j < |m.validators|
                && (m.agreement != {} ==> j in m.agreement && forall i :: i in m.agreement ==> j <= i) ==>
                  ClaimDone(s, r.value, d.cfg, at, hash, k, j))
  {
    hide Run, ClaimDone;
    var s := Run(d, blocks); var m := s.manager;
    RunIsAtRest(d, blocks);
    AcceptExactly(s, d.cfg, at, sender, hash);
    if Apply(s, d.cfg, at, SendClaim(sender, hash)).Some? && k < |m.validators| && m.validators[k] == sender && j < |m.validators|
       && (m.agreement != {} ==> j in m.agreement && forall i :: i in m.agreement ==> j <= i) {
      ClaimEffectOn(s, d.cfg, at, hash, k, j);
    }
  }
}
