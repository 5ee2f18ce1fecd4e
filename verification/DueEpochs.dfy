/** The epoch that is due: an epoch whose time is up is over before any transaction seals it. */
module DueEpochs {
  import opened Common
  import opened Events
  import opened ConsensusRules
  import opened Protocol
  import opened Invariant
  import opened Steps
  import opened Runs
  import opened Theorems

  // The epoch that an input sent at this time would belong to.
  function DueEpoch(s: State, cfg: Config, time: uint256): nat {
    if Overdue(s, cfg, Moment(0, time)) == Some(true) then |s.epochHashes| + 1 else s.CurrentEpoch()
  }

  ghost predicate SameInputs(s: State, s': State) {
    forall e: nat :: Query(s'.log, Inputs(e)) == Query(s.log, Inputs(e))
  }

  // Earlier epochs than the due one get no more inputs, and no earlier one is due again.
  ghost predicate Ahead(s: State, s': State, cfg: Config, time: uint256) {
    && DueEpoch(s, cfg, time) <= DueEpoch(s', cfg, time)
    && forall e: nat :: e < DueEpoch(s, cfg, time) ==> Query(s'.log, Inputs(e)) == Query(s.log, Inputs(e))
  }

  lemma EmitSame(s: State, at: Moment, e: Event)
    requires !e.InputAdded?
    ensures SameInputs(s, s.Emit(at, e))
  {
    QueryEmit(s.log, Entry(at, e));
  }

  lemma PhaseSame(s: State, at: Moment, p: Phase)
    ensures SameInputs(s, s.EnterPhase(at, p))
  {
    if p != s.phase {
      QueryEmit(s.log, Entry(at, PhaseChange(p)));
    }
  }

  lemma NewEpochSame(s: State, at: Moment)
    ensures SameInputs(s, StartNewEpoch(s.EnterPhase(at, InputAccumulation), at))
  {
    var t := s.EnterPhase(at, InputAccumulation);
    PhaseSame(s, at, InputAccumulation);
    QueryEmit(t.log, Entry(at, FinalizeEpoch(|t.epochHashes|, t.manager.currentClaim)));
  }

  lemma ClaimSame(s: State, cfg: Config, at: Moment, sender: Address, hash: Hash)
    requires WellFormed(s.manager) && sender != ZERO_ADDRESS && !s.phase.AwaitingDispute?
    requires ClaimCall(s, cfg, at, sender, hash, SHIPPED).Some?
    ensures SameInputs(s, ClaimCall(s, cfg, at, sender, hash, SHIPPED).value)
  {
    hide Query, OnClaim, WellFormed;
    ClaimEnds(s, cfg, at, sender, hash);
    ClaimSteps(s, cfg, at, sender, hash);
    var b := ClaimBase(s, cfg, at);
    var (a, v) := AcceptClaim(s, cfg, at, sender, hash).value;
    PhaseSame(s, at, AwaitingConsensus);
    EmitSame(b, at, Event.Claim(|s.epochHashes|, sender, hash));
    assert SameInputs(s, a);
    var c := if v.Conflict? then Resolved(a, at, v) else a;
    if v.Conflict? {
      PhaseSame(a, at, AwaitingDispute);
      EmitSame(a.EnterPhase(at, AwaitingDispute), at, Event.ResolveDispute(v.defender, v.challenger, v.standing));
    }
    assert SameInputs(a, c);
    PhaseSame(c, at, AwaitingConsensus);
    NewEpochSame(c, at);
  }

  lemma InputAhead(s: State, cfg: Config, at: Moment, sender: Address, payload: Payload)
    requires AddInput(s, cfg, at, sender, payload).Some?
    ensures Ahead(s, AddInput(s, cfg, at, sender, payload).value, cfg, at.time)
  {
    hide Query;
    InputSteps(s, cfg, at, sender, payload);
    var b := Sealing(s, cfg, at);
    PhaseSame(s, at, AwaitingConsensus);
    QueryEmit(b.log, Entry(at, InputAdded(b.CurrentEpoch(), sender, at.time, payload)));
  }

  lemma StepAhead(s: State, d: Deployment, now: uint256, at: Moment, tx: Tx)
    requires Rests(s, d, now) && WellFormed(s.manager) && now <= at.time && ValidRoster(d.roster) && ValidTx(tx)
    ensures Ahead(s, Step(s, d, now, at, tx), d.cfg, at.time)
  {
    hide Query;
    RestingPhase(s, d, now);
    if Apply(s, d.cfg, at, tx).Some? {
      match tx
      case SendInput(sender, payload) =>
        InputAhead(s, d.cfg, at, sender, payload);
      case SendClaim(claimer, hash) =>
        ClaimSame(s, d.cfg, at, claimer, hash);
        ClaimEnds(s, d.cfg, at, claimer, hash);
      case SendFinalize =>
        NewEpochSame(s, at);
    }
  }

  lemma {:induction false} BlockAhead(s: State, d: Deployment, now: uint256, at: Moment, txs: seq<Tx>)
    requires Rests(s, d, now) && WellFormed(s.manager) && now <= at.time && ValidRoster(d.roster)
    requires forall tx :: tx in txs ==> ValidTx(tx)
    ensures Ahead(s, RunTxs(s, d, now, at, txs), d.cfg, at.time)
  {
    hide WellFormed, Rests, Step, Extends, DueEpoch, Query;
    if txs != [] {
      BlockAhead(s, d, now, at, txs[..|txs| - 1]);
      StepAhead(RunTxs(s, d, now, at, txs[..|txs| - 1]), d, at.time, at, txs[|txs| - 1]);
    }
  }

  lemma DueWithTime(s: State, cfg: Config, time: uint256, later: uint256)
    requires time <= later
    ensures DueEpoch(s, cfg, time) <= DueEpoch(s, cfg, later)
  {
  }

  // Over every run: once an epoch's time is up it gets no more inputs, sealed on chain or not, and the
  // due epoch never goes back.
  lemma {:induction false} DueIsFinal(d: Deployment, blocks: seq<Block>, i: nat)
    requires ValidBlocks(d, blocks) && i <= |blocks| && ValidBlocks(d, blocks[..i])
    ensures var s, t, due := Run(d, blocks[..i]), Run(d, blocks), DueEpoch(Run(d, blocks[..i]), d.cfg, Now(d, blocks[..i]));
            && due <= DueEpoch(t, d.cfg, Now(d, blocks))
            && forall e: nat :: e < due ==> Query(t.log, Inputs(e)) == Query(s.log, Inputs(e))
  {
    hide WellFormed, Rests, RunTxs, Extends, DueEpoch, Query;
    if i == |blocks| {
      assert blocks[..i] == blocks;
    } else {
      var prior, last := blocks[..|blocks| - 1], blocks[|blocks| - 1];
      assert prior[..i] == blocks[..i];
      DueIsFinal(d, prior, i);
      DueWithTime(Run(d, prior), d.cfg, Now(d, prior), last.at.time);
      BlockAhead(Run(d, prior), d, Now(d, prior), last.at, last.txs);
    }
  }
}
