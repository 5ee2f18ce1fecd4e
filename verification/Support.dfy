/** Who stands behind the current claim, over every run: validators left, support lost, claims refused. */
module Support {
  import opened Common
  import opened Events
  import opened ConsensusRules
  import opened Protocol
  import opened Invariant
  import opened Steps
  import opened Runs
  import opened Theorems

  // The manager between the transactions of a run.
  ghost predicate AtRest(s: State) {
    && WellFormed(s.manager)
    && !s.phase.AwaitingDispute?
    && (s.manager.currentClaim != ZERO_HASH ==> s.phase.AwaitingConsensus? && s.manager.agreement != s.manager.goal)
    && (s.manager.currentClaim == ZERO_HASH ==> s.manager.agreement == {})
  }

  lemma RunIsAtRest(d: Deployment, blocks: seq<Block>)
    requires ValidBlocks(d, blocks)
    ensures AtRest(Run(d, blocks))
  {
    RestIsAtRest(Run(d, blocks), d, Now(d, blocks));
  }

  lemma RestIsAtRest(s: State, d: Deployment, now: uint256)
    requires Rests(s, d, now) && WellFormed(s.manager)
    ensures AtRest(s)
  {
    RestingPhase(s, d, now);
    RestingMasks(s, d, now);
    RestingClaims(s, d, now);
    NoClaimNoSupport(s);
  }

  lemma NoClaimNoSupport(s: State)
    requires MaskInv(s)
    ensures s.manager.currentClaim == ZERO_HASH ==> s.manager.agreement == {}
  {
    if s.manager.currentClaim == ZERO_HASH {
      assert forall i :: i in s.manager.agreement ==> i in s.manager.goal;
    }
  }

  // What an accepted claim does to the manager.
  lemma ClaimedManager(s: State, cfg: Config, at: Moment, sender: Address, hash: Hash)
    requires AtRest(s) && sender != ZERO_ADDRESS && ClaimCall(s, cfg, at, sender, hash, SHIPPED).Some?
    ensures hash != ZERO_HASH && IndexOf(s.manager.validators, sender).Some?
    ensures var m, t := s.manager, ClaimCall(s, cfg, at, sender, hash, SHIPPED).value;
            var k := IndexOf(m.validators, sender).value;
            var contradicts := m.currentClaim !in {ZERO_HASH, hash};
            var agreement := if contradicts then m.agreement - {k} else m.agreement + {k};
            var goal := if contradicts then m.goal - {k} else m.goal;
            && k in m.goal
            && (contradicts ==> m.agreement != {})
            && t.manager.goal == goal
            && (if agreement == goal
                then t.phase.InputAccumulation? && t.manager.currentClaim == ZERO_HASH && t.manager.agreement == {}
                     && |t.epochHashes| == |s.epochHashes| + 1
                else t.phase.AwaitingConsensus? && t.manager.agreement == agreement
                     && t.manager.currentClaim == (if m.currentClaim == ZERO_HASH then hash else m.currentClaim)
                     && t.epochHashes == s.epochHashes && (contradicts ==> t.sealing == at.time))
  {
    ClaimEnds(s, cfg, at, sender, hash);
    assert IndexOf(s.manager.validators, sender).value in Slots(s.manager.validators);
  }

  // Whoever is expelled while a claim has support, somebody else is left.
  lemma AnotherRemains(s: State, k: nat)
    requires AtRest(s) && s.manager.agreement != {}
    ensures s.manager.goal - {k} != {}
  {
    var m := s.manager;
    var i :| i in m.agreement;
    var j :| (j in m.goal && j !in m.agreement) || (j in m.agreement && j !in m.goal);
    assert i in m.goal && j in m.goal;
    assert (if i != k then i else j) in m.goal - {k};
  }

  // Somebody always remains: the last validator is never expelled.
  lemma StepLeavesSomebody(s: State, d: Deployment, now: uint256, at: Moment, tx: Tx)
    requires Rests(s, d, now) && WellFormed(s.manager) && now <= at.time && ValidRoster(d.roster) && ValidTx(tx)
    requires s.manager.goal != {}
    ensures Step(s, d, now, at, tx).manager.goal != {}
  {
    RestIsAtRest(s, d, now);
    if Apply(s, d.cfg, at, tx).Some? {
      match tx
      case SendInput(sender, payload) => InputSteps(s, d.cfg, at, sender, payload);
      case SendClaim(claimer, hash) =>
        ClaimedManager(s, d.cfg, at, claimer, hash);
        if s.manager.agreement != {} {
          AnotherRemains(s, IndexOf(s.manager.validators, claimer).value);
        }
      case SendFinalize =>
    }
  }

  lemma {:induction false} BlockLeavesSomebody(s: State, d: Deployment, now: uint256, at: Moment, txs: seq<Tx>)
    requires Rests(s, d, now) && WellFormed(s.manager) && now <= at.time && ValidRoster(d.roster)
    requires forall tx :: tx in txs ==> ValidTx(tx)
    requires s.manager.goal != {}
    ensures RunTxs(s, d, now, at, txs).manager.goal != {}
  {
    hide WellFormed, Rests, Step, Extends;
    if txs != [] {
      BlockLeavesSomebody(s, d, now, at, txs[..|txs| - 1]);
      StepLeavesSomebody(RunTxs(s, d, now, at, txs[..|txs| - 1]), d, at.time, at, txs[|txs| - 1]);
    }
  }

  lemma {:induction false} SomebodyRemains(d: Deployment, blocks: seq<Block>)
    requires ValidBlocks(d, blocks) && d.roster != []
    ensures Run(d, blocks).manager.goal != {}
  {
    hide WellFormed, Rests, RunTxs, Extends;
    if blocks == [] {
      assert 0 in Genesis(d).manager.goal;
    } else {
      var prior, last := blocks[..|blocks| - 1], blocks[|blocks| - 1];
      SomebodyRemains(d, prior);
      BlockLeavesSomebody(Run(d, prior), d, Now(d, prior), last.at, last.txs);
    }
  }

  // A claim is left with nobody behind it exactly when its only supporter contradicts it.
  lemma UnsupportedExactly(d: Deployment, blocks: seq<Block>, at: Moment, sender: Address, hash: Hash)
    requires ValidBlocks(d, blocks) && Now(d, blocks) <= at.time && sender != ZERO_ADDRESS
    requires Apply(Run(d, blocks), d.cfg, at, SendClaim(sender, hash)).Some?
    ensures var s := Run(d, blocks); var t := Apply(s, d.cfg, at, SendClaim(sender, hash)).value;
            var slot := IndexOf(s.manager.validators, sender);
            && slot.Some?
            && (t.manager.currentClaim != ZERO_HASH && t.manager.agreement == {} <==>
                  s.manager.currentClaim !in {ZERO_HASH, hash} && s.manager.agreement == {slot.value})
  {
    hide Run;
    var m := Run(d, blocks).manager;
    RunIsAtRest(d, blocks);
    ClaimedManager(Run(d, blocks), d.cfg, at, sender, hash);
    var k := IndexOf(m.validators, sender).value;
    assert k in m.agreement + {k};
    if m.agreement != {} {
      AnotherRemains(Run(d, blocks), k);
      OneLess(m.agreement, k);
    }
  }

  lemma OneLess(s: set<nat>, k: nat)
    requires s != {}
    ensures s - {k} == {} <==> s == {k}
  {
    if s - {k} == {} {
      var i :| i in s;
      assert forall j :: j in s ==> j == k || j in s - {k};
    }
  }

  // While a claim stands, a remaining validator's contradicting claim is accepted exactly when somebody
  // stands behind the current one; nobody else's is ever accepted.
  lemma ContestableExactly(d: Deployment, blocks: seq<Block>, at: Moment, sender: Address, hash: Hash)
    requires ValidBlocks(d, blocks) && Now(d, blocks) <= at.time && sender != ZERO_ADDRESS
    requires Run(d, blocks).manager.currentClaim != ZERO_HASH
    requires hash !in {ZERO_HASH, Run(d, blocks).manager.currentClaim}
    ensures var s := Run(d, blocks);
            Apply(s, d.cfg, at, SendClaim(sender, hash)).Some? <==>
              sender in s.manager.validators && s.manager.agreement != {}
  {
    hide Run;
    RunIsAtRest(d, blocks);
    Contested(Run(d, blocks), d.cfg, at, sender, hash);
  }

  lemma Contested(s: State, cfg: Config, at: Moment, sender: Address, hash: Hash)
    requires AtRest(s) && sender != ZERO_ADDRESS && s.manager.currentClaim != ZERO_HASH
    requires hash !in {ZERO_HASH, s.manager.currentClaim}
    ensures ClaimCall(s, cfg, at, sender, hash, SHIPPED).Some? <==> sender in s.manager.validators && s.manager.agreement != {}
  {
    var m := s.manager;
    AcceptedIsReady(s, cfg, at, sender, hash);
    if m.agreement != {} {
      ChampionIsLowestAgreeing(m);
    }
    if AcceptClaim(s, cfg, at, sender, hash).Some? {
      var (a, v) := AcceptClaim(s, cfg, at, sender, hash).value;
      ShippedDispute(a, at, v);
    }
  }

  // A dispute ends the epoch exactly when all that remain after it agree; otherwise the challenge period
  // starts again, however much of it had passed.
  lemma DisputeFinalizes(d: Deployment, blocks: seq<Block>, at: Moment, sender: Address, hash: Hash)
    requires ValidBlocks(d, blocks) && Now(d, blocks) <= at.time && sender != ZERO_ADDRESS
    requires Run(d, blocks).manager.currentClaim !in {ZERO_HASH, hash}
    requires Apply(Run(d, blocks), d.cfg, at, SendClaim(sender, hash)).Some?
    ensures var s := Run(d, blocks); var t := Apply(s, d.cfg, at, SendClaim(sender, hash)).value;
            var slot := IndexOf(s.manager.validators, sender);
            && slot.Some?
            && (|t.epochHashes| == |s.epochHashes| + 1 <==>
                  s.manager.agreement - {slot.value} == s.manager.goal - {slot.value})
            && (|t.epochHashes| != |s.epochHashes| + 1 ==>
                  t.epochHashes == s.epochHashes && t.phase.AwaitingConsensus? && t.sealing == at.time)
  {
    hide Run;
    RunIsAtRest(d, blocks);
    ClaimedManager(Run(d, blocks), d.cfg, at, sender, hash);
  }

  // A sole supporter can do that to its claim at any time; until somebody agrees with the claim again,
  // every contradicting claim reverts.
  lemma UnsupportedClaim(d: Deployment, blocks: seq<Block>, at: Moment, k: nat, other: Hash)
    requires ValidBlocks(d, blocks) && Now(d, blocks) <= at.time
    requires Run(d, blocks).manager.agreement == {k} && other !in {ZERO_HASH, Run(d, blocks).manager.currentClaim}
    ensures var s := Run(d, blocks);
            k < |s.manager.validators| && s.manager.validators[k] != ZERO_ADDRESS &&
            var r := Apply(s, d.cfg, at, SendClaim(s.manager.validators[k], other));
            && r.Some? && r.value.phase.AwaitingConsensus? && WellFormed(r.value.manager)
            && r.value.manager.currentClaim == s.manager.currentClaim != ZERO_HASH && r.value.manager.agreement == {}
            && forall later, sender, hash | sender != ZERO_ADDRESS && hash != s.manager.currentClaim ::
                 Apply(r.value, d.cfg, later, SendClaim(sender, hash)).None?
  {
    hide Run, Rests;
    var s := Run(d, blocks);
    RunIsAtRest(d, blocks);
    SoleSupporter(s, k);
    var sender := s.manager.validators[k];
    Contested(s, d.cfg, at, sender, other);
    ClaimedManager(s, d.cfg, at, sender, other);
    StepKeeps(s, d, Now(d, blocks), at, SendClaim(sender, other));
    var t := Apply(s, d.cfg, at, SendClaim(sender, other)).value;
    RestIsAtRest(t, d, at.time);
    forall later: Moment, v: Address, hash: Hash | v != ZERO_ADDRESS && hash != s.manager.currentClaim
      ensures Apply(t, d.cfg, later, SendClaim(v, hash)).None?
    {
      if hash != ZERO_HASH {
        Contested(t, d.cfg, later, v, hash);
      } else if ClaimCall(t, d.cfg, later, v, hash, SHIPPED).Some? {
        ClaimedManager(t, d.cfg, later, v, hash);
      }
    }
  }

  lemma SoleSupporter(s: State, k: nat)
    requires AtRest(s) && s.manager.agreement == {k}
    ensures s.manager.currentClaim != ZERO_HASH
    ensures var v := s.manager.validators;
            k < |v| && v[k] != ZERO_ADDRESS && v[k] in v && IndexOf(v, v[k]) == Some(k)
  {
    assert k in s.manager.agreement;
    assert k in Slots(s.manager.validators);
  }

  // From every sealed epoch of every run: the missing validators' agreeing claims, in any order,
  // finalize it with precisely the last of them.
  lemma ConsensusProgress(d: Deployment, blocks: seq<Block>, ats: seq<Moment>, slots: seq<nat>, hash: Hash, k: nat)
    requires ValidBlocks(d, blocks) && d.roster != [] && Run(d, blocks).phase.AwaitingConsensus?
    requires Missing(Run(d, blocks).manager, slots) && |ats| == |slots| && k <= |slots|
    requires hash != ZERO_HASH && Run(d, blocks).manager.currentClaim in {ZERO_HASH, hash}
    ensures var s := Run(d, blocks); var r := ClaimAll(s, d.cfg, ats[..k], slots[..k], hash);
            && slots != []
            && r.Some?
            && (k < |slots| <==> r.value.phase.AwaitingConsensus?)
            && r.value.epochHashes == if k < |slots| then s.epochHashes else s.epochHashes + [hash]
  {
    var s := Run(d, blocks);
    RestingMasks(s, d, Now(d, blocks));
    RestingClaims(s, d, Now(d, blocks));
    RestingPhase(s, d, Now(d, blocks));
    SomebodyRemains(d, blocks);
    if slots == [] {
      forall i | i in s.manager.goal
        ensures i in s.manager.agreement
      {
        assert i in s.manager.goal - s.manager.agreement ==> i in slots;
      }
      assert false;
    }
    MissingClaimsFinalize(s, d.cfg, ats, slots, hash, k);
  }
}
