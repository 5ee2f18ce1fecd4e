/** Runs in which the code does not do what it is for. */
module Counterexamples {
  import opened Common
  import opened Events
  import opened ConsensusRules
  import opened Protocol
  import opened Invariant
  import opened Steps
  import opened Runs
  import opened Support
  import opened NodeTypes
  import opened NodeRuns
  import opened LogicalView
  import opened InputFold
  import opened SealedFold
  import opened DueEpochs
  import opened CatchUp
  import opened NodeLoop

  // A block of one transaction, or of two.
  lemma NextBlock(d: Deployment, blocks: seq<Block>, block: Block, s: State, t: State)
    requires ValidBlocks(d, blocks + [block]) && ValidBlocks(d, blocks) && Run(d, blocks) == s && |block.txs| == 1
    requires WellFormed(s.manager) && ValidTx(block.txs[0])
    requires Apply(s, d.cfg, block.at, block.txs[0]) == Some(t)
    ensures Run(d, blocks + [block]) == t
  {
    hide Rests, Extends, Apply;
    var all, txs := blocks + [block], block.txs;
    assert all[..|all| - 1] == blocks && all[|all| - 1] == block;
    assert blocks != [] ==> all[|blocks| - 1] == blocks[|blocks| - 1];
    assert txs[..0] == [] && txs[..1] == txs;
    assert RunTxs(s, d, Now(d, blocks), block.at, txs[..0]) == s;
  }

  lemma NextPair(d: Deployment, blocks: seq<Block>, block: Block, s: State, m: State, t: State)
    requires ValidBlocks(d, blocks + [block]) && ValidBlocks(d, blocks) && Run(d, blocks) == s && |block.txs| == 2
    requires WellFormed(s.manager) && WellFormed(m.manager) && ValidTx(block.txs[0]) && ValidTx(block.txs[1])
    requires Apply(s, d.cfg, block.at, block.txs[0]) == Some(m)
    requires Apply(m, d.cfg, block.at, block.txs[1]) == Some(t)
    ensures Run(d, blocks + [block]) == t
  {
    hide Rests, Extends, Apply;
    var all, txs := blocks + [block], block.txs;
    assert all[..|all| - 1] == blocks && all[|all| - 1] == block;
    assert blocks != [] ==> all[|blocks| - 1] == blocks[|blocks| - 1];
    assert txs[..2] == txs && txs[..1][..0] == [] && txs[..1] == [txs[0]];
    assert RunTxs(s, d, Now(d, blocks), block.at, txs[..1][..0]) == s;
    assert RunTxs(s, d, Now(d, blocks), block.at, txs[..1]) == m;
  }

  lemma StartsAtGenesis(d: Deployment)
    requires ValidBlocks(d, [])
    ensures Run(d, []) == Genesis(d) && WellFormed(Genesis(d).manager)
  {
    hide Rests;
  }

  // A run of one block: an input that comes late and seals epoch 0, then the claim of one of two validators.

  const LATE := Deployment(Config(1, 5, 32), 10, [1, 2])
  const LATE_BLOCK := Block(Moment(1, 12), [SendInput(7, [0]), SendClaim(1, 9)])

  function LateSealed(): State {
    var m := Manager(ZERO_HASH, [1, 2], {}, Slots([1, 2]));
    var at := LATE_BLOCK.at;
    State(AwaitingConsensus, 10, 0, m, Inbox([], [Digest(7, 12, [0])], 1), [],
          [Entry(at, PhaseChange(AwaitingConsensus)), Entry(at, InputAdded(1, 7, 12, [0]))])
  }

  function LateClaimed(): State {
    var s := LateSealed();
    s.(manager := s.manager.(currentClaim := 9, agreement := {0})).Emit(LATE_BLOCK.at, Event.Claim(0, 1, 9))
  }

  lemma LateSeals()
    ensures ValidRoster(LATE.roster) && AddInput(Genesis(LATE), LATE.cfg, LATE_BLOCK.at, 7, [0]) == Some(LateSealed())
  {
    var at, input := LATE_BLOCK.at, InputAdded(1, 7, 12, [0]);
    var sealing := Sealing(Genesis(LATE), LATE.cfg, at);
    assert sealing.log == [Entry(at, PhaseChange(AwaitingConsensus))];
    InputSteps(Genesis(LATE), LATE.cfg, at, 7, [0]);
    assert Pushed(sealing, at, 7, [0]).log == LateSealed().log;
    assert Pushed(sealing, at, 7, [0]).inbox == LateSealed().inbox;
  }

  lemma LateClaims()
    ensures WellFormed(LateSealed().manager)
    ensures ClaimCall(LateSealed(), LATE.cfg, LATE_BLOCK.at, 1, 9, SHIPPED) == Some(LateClaimed())
  {
    var m := LateSealed().manager;
    assert IndexOf(m.validators, 1) == Some(0);
    assert 1 in m.goal;
    assert {} + {0} == {0};
    assert OnClaim(m, 1, 9) == Some((m.(currentClaim := 9, agreement := {0}), NoConflict));
  }

  lemma LateRun()
    ensures ValidBlocks(LATE, [LATE_BLOCK]) && Run(LATE, [LATE_BLOCK]) == LateClaimed()
  {
    hide Run, Rests, Extends, AddInput, ClaimCall, LateSealed, LateClaimed;
    LateSeals();
    LateClaims();
    StartsAtGenesis(LATE);
    assert [] + [LATE_BLOCK] == [LATE_BLOCK];
    NextPair(LATE, [], LATE_BLOCK, Genesis(LATE), LateSealed(), LateClaimed());
  }

  lemma LateDue()
    ensures Query(LateClaimed().log, Claims(0)) == [Entry(LATE_BLOCK.at, Event.Claim(0, 1, 9))]
  {
    var log := LateSealed().log;
    QueryEmit([], log[0]);
    QueryEmit([] + [log[0]], log[1]);
    assert log == [] + [log[0]] + [log[1]];
    QueryEmit(log, Entry(LATE_BLOCK.at, Event.Claim(0, 1, 9)));
  }

  // One second after the only claim, with a challenge period of five: the view sees no timeout, yet
  // finalizeEpoch succeeds, because the input that sealed epoch 0 has left its clock at zero.
  lemma UnsetClock()
    ensures ValidBlocks(LATE, [LATE_BLOCK])
    ensures var v := View(LATE, [LATE_BLOCK], 0, 13);
            && !(v.Some? && v.value.currentPhase.ConsensusTimeout?)
            && Apply(Run(LATE, [LATE_BLOCK]), LATE.cfg, Moment(2, 13), SendFinalize).Some?
  {
    hide Run, View, Query, LastMove, Rests;
    LateRun();
    LateDue();
    TimeoutExactly(LATE, [LATE_BLOCK], 0, Moment(2, 13));
  }

  // The only supporter of the claim contradicts itself: the claim stands, and nobody stands behind it.
  lemma AbandonedClaim()
    ensures ValidBlocks(LATE, [LATE_BLOCK])
    ensures var r := Apply(Run(LATE, [LATE_BLOCK]), LATE.cfg, Moment(2, 13), SendClaim(1, 8));
            r.Some? && r.value.manager.currentClaim == 9 && r.value.manager.agreement == {}
  {
    hide Run, Rests, Apply, Query;
    LateRun();
    assert 1 in LateClaimed().manager.goal;
    UnsupportedClaim(LATE, [LATE_BLOCK], Moment(2, 13), 0, 8);
  }

  // An empty block whose bloom filter reports everything, after the epoch has been sealed: the node that
  // was right before it is wrong after it.
  lemma EmptyBlockMisleads(blooms: seq<Bloom>)
    requires blooms == [(key: BloomKey) => true, (key: BloomKey) => true]
    ensures ValidBlocks(LATE, [LATE_BLOCK, EMPTY_BLOCK])
    ensures !Sound(EpochReader(0), EpochFolder(), LATE, [LATE_BLOCK, EMPTY_BLOCK], blooms, 1)
  {
    hide Run, Rests, Query, Sound;
    var blocks := [LATE_BLOCK, EMPTY_BLOCK];
    LateRun();
    assert blocks[..1] == [LATE_BLOCK] && blocks[..2] == blocks;
    EmptyBlockIsEmpty();
    EpochNodeStep(LATE, blocks, blooms, 1, 0);
  }

  const EMPTY_BLOCK := Block(Moment(2, 13), [])

  lemma EmptyBlockIsEmpty()
    ensures ValidBlocks(LATE, [LATE_BLOCK, EMPTY_BLOCK]) && ValidBlocks(LATE, [LATE_BLOCK])
    ensures Run(LATE, [LATE_BLOCK, EMPTY_BLOCK]) == Run(LATE, [LATE_BLOCK])
    ensures Query([], PhaseChanges) == []
  {
    hide Rests, Extends;
    assert [LATE_BLOCK, EMPTY_BLOCK][..1] == [LATE_BLOCK];
  }

  // A node that takes epoch 1 for sealed from the start of the run never learns of the input of that block.
  lemma EarlyStartMisses(blooms: seq<Bloom>)
    requires blooms == [(key: BloomKey) => true]
    ensures ValidBlocks(LATE, [LATE_BLOCK])
    ensures Folded(SealedReader(1), SealedFolder(), LATE, [LATE_BLOCK], blooms, 0, 1) != SealedSync(Run(LATE, [LATE_BLOCK]).log, 1)
  {
    hide Rests, Folded, SealedSync;
    LateRun();
    assert [LATE_BLOCK][..0] == [];
    SealedNodeAgrees(LATE, [LATE_BLOCK], blooms, 0, 1);
    LateInputs();
  }

  lemma LateInputs()
    ensures |InputsOf(LateClaimed().log, 0)| == 0 && |InputsOf(LateClaimed().log, 1)| == 1
    ensures Digests([], 1) == [] && |Digests(LateClaimed().log, 1)| == 1
  {
    var log := LateSealed().log;
    QueryEmit([], log[0]);
    QueryEmit([] + [log[0]], log[1]);
    assert log == [] + [log[0]] + [log[1]];
    QueryEmit(log, Entry(LATE_BLOCK.at, Event.Claim(0, 1, 9)));
  }

  // A fresh machine at that block: epoch 0 has no inputs and is finished at once, and the input of epoch 1
  // is then sent for epoch 0, which the machine refuses; that is the end of the node's loop.
  method LateReacts(sender: Address, claimOf: (nat, seq<Input>) -> Hash) returns (r: Outcome)
    ensures r.BadRequest?
  {
    hide Run, Rests, View, Now, DueEpoch, ChainOf, Query, LastMove;
    var machine := new Machine(0, claimOf);
    LateIsDue();
    assert InStep(machine, LATE, [LATE_BLOCK], 0);
    r := ReactAt(LATE, [LATE_BLOCK], 0, sender, machine);
  }

  lemma LateIsDue()
    ensures ValidBlocks(LATE, [LATE_BLOCK])
    ensures var s, now := Run(LATE, [LATE_BLOCK]), Now(LATE, [LATE_BLOCK]);
            && s.epochHashes == []
            && DueEpoch(s, LATE.cfg, now) == 1
            && |ChainOf(s.log)(0)| == 0 && |ChainOf(s.log)(1)| == 1
            && View(LATE, [LATE_BLOCK], 0, now).Some?
            && !View(LATE, [LATE_BLOCK], 0, now).value.currentPhase.AccumulatingInputs?
  {
    hide Run, Rests, View, Query, Logical;
    LateRun();
    LateDue();
    LateInputs();
    LateMove();
    ViewExistsExactly(LATE, [LATE_BLOCK], 0, 12);
    ViewSealsAhead(LATE, [LATE_BLOCK], 0, LATE_BLOCK.at);
  }

  lemma LateMove()
    ensures LastMove(LateClaimed().log, 10) == 12
  {
    var log := LateSealed().log;
    QueryEmit([], log[0]);
    QueryEmit([] + [log[0]], log[1]);
    assert log == [] + [log[0]] + [log[1]];
    QueryEmit(log, Entry(LATE_BLOCK.at, Event.Claim(0, 1, 9)));
  }

  // A run in which epoch 0 is finalized, an input then seals epoch 1, and epoch 1 is claimed.

  const FINAL_BLOCK := Block(Moment(2, 13), [SendFinalize])
  const SEAL_BLOCK := Block(Moment(3, 15), [SendInput(7, [0])])
  const CLAIM_BLOCK := Block(Moment(4, 15), [SendClaim(1, 9)])

  function Finalized(): State {
    StartNewEpoch(LateClaimed().EnterPhase(FINAL_BLOCK.at, InputAccumulation), FINAL_BLOCK.at)
  }

  function Resealed(): State {
    Pushed(Seal(Finalized(), SEAL_BLOCK.at), SEAL_BLOCK.at, 7, [0])
  }

  function Reclaimed(): State {
    var s := Resealed();
    s.(manager := s.manager.(currentClaim := 9, agreement := {0})).Emit(CLAIM_BLOCK.at, Event.Claim(1, 1, 9))
  }

  lemma FinalizedRun()
    ensures ValidBlocks(LATE, [LATE_BLOCK, FINAL_BLOCK]) && Run(LATE, [LATE_BLOCK, FINAL_BLOCK]) == Finalized()
  {
    hide Run, Rests, Extends;
    LateRun();
    assert LateClaimed().manager.goal == LateSealed().manager.goal;
    assert FinalizeCall(LateClaimed(), LATE.cfg, FINAL_BLOCK.at) == Some(Finalized());
    LateStaysWellFormed();
    assert [LATE_BLOCK] + [FINAL_BLOCK] == [LATE_BLOCK, FINAL_BLOCK];
    NextBlock(LATE, [LATE_BLOCK], FINAL_BLOCK, LateClaimed(), Finalized());
  }

  lemma LateStaysWellFormed()
    ensures WellFormed(LateClaimed().manager) && WellFormed(Finalized().manager) && WellFormed(Resealed().manager)
  {
    assert 0 in LateClaimed().manager.goal;
  }

  lemma ResealedRun()
    ensures var blocks := [LATE_BLOCK, FINAL_BLOCK, SEAL_BLOCK];
            ValidBlocks(LATE, blocks) && Run(LATE, blocks) == Resealed()
  {
    hide Run, Rests, Extends;
    FinalizedRun();
    InputSteps(Finalized(), LATE.cfg, SEAL_BLOCK.at, 7, [0]);
    assert AddInput(Finalized(), LATE.cfg, SEAL_BLOCK.at, 7, [0]) == Some(Resealed());
    LateStaysWellFormed();
    assert [LATE_BLOCK, FINAL_BLOCK] + [SEAL_BLOCK] == [LATE_BLOCK, FINAL_BLOCK, SEAL_BLOCK];
    NextBlock(LATE, [LATE_BLOCK, FINAL_BLOCK], SEAL_BLOCK, Finalized(), Resealed());
  }

  lemma ReclaimedRun()
    ensures var blocks := [LATE_BLOCK, FINAL_BLOCK, SEAL_BLOCK, CLAIM_BLOCK];
            ValidBlocks(LATE, blocks) && Run(LATE, blocks) == Reclaimed()
  {
    hide Run, Rests, Extends;
    ResealedRun();
    LateStaysWellFormed();
    ReclaimedStep();
    assert [LATE_BLOCK, FINAL_BLOCK, SEAL_BLOCK] + [CLAIM_BLOCK] == [LATE_BLOCK, FINAL_BLOCK, SEAL_BLOCK, CLAIM_BLOCK];
    NextBlock(LATE, [LATE_BLOCK, FINAL_BLOCK, SEAL_BLOCK], CLAIM_BLOCK, Resealed(), Reclaimed());
  }

  lemma ReclaimedStep()
    ensures WellFormed(Resealed().manager)
    ensures ClaimCall(Resealed(), LATE.cfg, CLAIM_BLOCK.at, 1, 9, SHIPPED) == Some(Reclaimed())
  {
    var m := Resealed().manager;
    assert m == LateSealed().manager;
    assert IndexOf(m.validators, 1) == Some(0);
    assert 1 in m.goal;
    assert {} + {0} == {0};
    assert OnClaim(m, 1, 9) == Some((m.(currentClaim := 9, agreement := {0}), NoConflict));
  }

  lemma ReclaimedDue()
    ensures Query(Reclaimed().log, Claims(1)) == [Entry(CLAIM_BLOCK.at, Event.Claim(1, 1, 9))]
    ensures LastMove(Reclaimed().log, 10) == 15
  {
    hide Query, Finalized;
    var log := Finalized().log;
    var p, i := Entry(SEAL_BLOCK.at, PhaseChange(AwaitingConsensus)), Entry(SEAL_BLOCK.at, InputAdded(2, 7, 15, [0]));
    var c := Entry(CLAIM_BLOCK.at, Event.Claim(1, 1, 9));
    NotClaimedYet();
    assert Reclaimed().log == log + [p] + [i] + [c];
    QueryEmit(log, p);
    QueryEmit(log + [p], i);
    QueryEmit(log + [p] + [i], c);
  }

  lemma NotClaimedYet()
    ensures Query(Finalized().log, Claims(1)) == []
    ensures Finalized().phase.InputAccumulation? && Finalized().epochHashes == [9]
  {
    hide Run, Rests, Query;
    FinalizedRun();
    RestingClaims(Run(LATE, [LATE_BLOCK, FINAL_BLOCK]), LATE, Now(LATE, [LATE_BLOCK, FINAL_BLOCK]));
  }

  // Epoch 1 is sealed and claimed, but finalizeEpoch can never succeed in this state: its deadline
  // overflows at every time. The view calls a timeout all the same.
  lemma StuckEpoch(at: Moment)
    requires 20 < at.time
    ensures var blocks := [LATE_BLOCK, FINAL_BLOCK, SEAL_BLOCK, CLAIM_BLOCK];
            && ValidBlocks(LATE, blocks)
            && Run(LATE, blocks).epochHashes == [9] && Run(LATE, blocks).manager.currentClaim == 9
            && Apply(Run(LATE, blocks), LATE.cfg, at, SendFinalize).None?
            && View(LATE, blocks, 0, at.time).Some?
            && View(LATE, blocks, 0, at.time).value.currentPhase.ConsensusTimeout?
  {
    hide Run, View, Query, LastMove, Rests;
    ReclaimedRun();
    ReclaimedDue();
    TimeoutExactly(LATE, [LATE_BLOCK, FINAL_BLOCK, SEAL_BLOCK, CLAIM_BLOCK], 0, at);
  }

  // A run of one block with the first claim of an epoch and a second one that contradicts it.

  const SPLIT := Deployment(Config(1, 5, 32), 10, [1, 2, 3])
  const SPLIT_BLOCK := Block(Moment(1, 12), [SendClaim(1, 9), SendClaim(2, 8)])

  function FirstClaimed(): State {
    var s := SealByClaim(Genesis(SPLIT), SPLIT_BLOCK.at);
    s.(manager := s.manager.(currentClaim := 9, agreement := {0})).Emit(SPLIT_BLOCK.at, Event.Claim(0, 1, 9))
  }

  function Contradicted(): State {
    var s := FirstClaimed().Emit(SPLIT_BLOCK.at, Event.Claim(0, 2, 8)).EnterPhase(SPLIT_BLOCK.at, AwaitingDispute);
    s.(manager := Manager(9, [1, 0, 3], {0}, {0, 2})).Emit(SPLIT_BLOCK.at, Event.ResolveDispute(1, 2, 9))
     .EnterPhase(SPLIT_BLOCK.at, AwaitingConsensus)
  }

  lemma FirstClaims()
    ensures WellFormed(Genesis(SPLIT).manager) && WellFormed(FirstClaimed().manager)
    ensures ClaimCall(Genesis(SPLIT), SPLIT.cfg, SPLIT_BLOCK.at, 1, 9, SHIPPED) == Some(FirstClaimed())
  {
    var m := Genesis(SPLIT).manager;
    assert IndexOf(m.validators, 1) == Some(0);
    assert 0 in m.goal && 1 in m.goal;
    assert {} + {0} == {0};
    assert OnClaim(m, 1, 9) == Some((m.(currentClaim := 9, agreement := {0}), NoConflict));
  }

  lemma Contradicts()
    requires WellFormed(FirstClaimed().manager)
    ensures ClaimCall(FirstClaimed(), SPLIT.cfg, SPLIT_BLOCK.at, 2, 8, SHIPPED) == Some(Contradicted())
  {
    var s, m := FirstClaimed(), FirstClaimed().manager;
    assert IndexOf(m.validators, 2) == IndexOf([1, 2, 3], 2) == FindFrom([1, 2, 3], 2, 1) == Some(1);
    assert m.goal == {0, 1, 2};
    AcceptedIsReady(s, SPLIT.cfg, SPLIT_BLOCK.at, 2, 8);
    assert OnClaim(m, 2, 8) == Some((m, Conflict(9, 8, 1, 2)));
    var a := s.Emit(SPLIT_BLOCK.at, Event.Claim(0, 2, 8));
    ShippedDispute(a, SPLIT_BLOCK.at, Conflict(9, 8, 1, 2));
    assert Expel(m, 2) == Manager(9, [1, 0, 3], {0}, {0, 2});
    assert 2 in Expel(m, 2).goal;
  }

  lemma SplitRun()
    ensures ValidBlocks(SPLIT, [SPLIT_BLOCK]) && Run(SPLIT, [SPLIT_BLOCK]) == Contradicted()
  {
    hide Run, Rests, Extends, ClaimCall, Contradicted, FirstClaimed;
    FirstClaims();
    Contradicts();
    StartsAtGenesis(SPLIT);
    assert [] + [SPLIT_BLOCK] == [SPLIT_BLOCK];
    NextPair(SPLIT, [], SPLIT_BLOCK, Genesis(SPLIT), FirstClaimed(), Contradicted());
  }

  lemma SplitDue()
    ensures Query(Contradicted().log, Claims(0)) ==
              [Entry(SPLIT_BLOCK.at, Event.Claim(0, 1, 9)), Entry(SPLIT_BLOCK.at, Event.Claim(0, 2, 8))]
    ensures LastDispute(Contradicted().log) == Some(12)
    ensures LastMove(Contradicted().log, 10) == 12
  {
    hide Query, LastDispute;
    var log := Contradicted().log;
    var one, two := [] + [log[0]], [] + [log[0]] + [log[1]];
    var three, four := two + [log[2]], two + [log[2]] + [log[3]];
    assert log == four + [log[4]] + [log[5]];
    NothingIsFound();
    QueryEmit([], log[0]);
    QueryEmit(one, log[1]);
    QueryEmit(two, log[2]);
    QueryEmit(three, log[3]);
    QueryEmit(four, log[4]);
    QueryEmit(four + [log[4]], log[5]);
    LastDisputeEmit(four, log[4]);
    LastDisputeEmit(four + [log[4]], log[5]);
  }

  lemma NothingIsFound()
    ensures forall f :: Query([], f) == []
  {
  }

  // There has been a dispute, and the view does not know of any.
  lemma UnnoticedDispute()
    ensures ValidBlocks(SPLIT, [SPLIT_BLOCK])
    ensures LastDispute(Run(SPLIT, [SPLIT_BLOCK]).log) == Some(12)
    ensures var v := View(SPLIT, [SPLIT_BLOCK], 0, 13);
            v.Some? && !v.value.currentPhase.AwaitingConsensusAfterConflict? && !v.value.currentPhase.ConsensusTimeout?
  {
    hide Run, View, Query, LastMove, Rests;
    SplitRun();
    SplitDue();
    ViewExistsExactly(SPLIT, [SPLIT_BLOCK], 0, 13);
    ConflictExactly(SPLIT, [SPLIT_BLOCK], 0, Moment(2, 13));
    TimeoutExactly(SPLIT, [SPLIT_BLOCK], 0, Moment(2, 13));
  }

  // A run in which epoch 0 gets an input in time and is then sealed by a claim, with nothing in epoch 1.

  const EARLY_BLOCK := Block(Moment(1, 11), [SendInput(7, [0])])
  const CLOSE_BLOCK := Block(Moment(2, 12), [SendClaim(1, 9)])

  function EarlyInput(): State {
    Pushed(Genesis(LATE), EARLY_BLOCK.at, 7, [0])
  }

  function Closed(): State {
    var s := SealByClaim(EarlyInput(), CLOSE_BLOCK.at);
    s.(manager := s.manager.(currentClaim := 9, agreement := {0})).Emit(CLOSE_BLOCK.at, Event.Claim(0, 1, 9))
  }

  lemma ClosedSteps()
    ensures WellFormed(Genesis(LATE).manager) && WellFormed(EarlyInput().manager)
    ensures AddInput(Genesis(LATE), LATE.cfg, EARLY_BLOCK.at, 7, [0]) == Some(EarlyInput())
    ensures ClaimCall(EarlyInput(), LATE.cfg, CLOSE_BLOCK.at, 1, 9, SHIPPED) == Some(Closed())
  {
    InputSteps(Genesis(LATE), LATE.cfg, EARLY_BLOCK.at, 7, [0]);
    var m := EarlyInput().manager;
    assert IndexOf(m.validators, 1) == Some(0);
    assert 1 in m.goal;
    assert {} + {0} == {0};
    assert OnClaim(m, 1, 9) == Some((m.(currentClaim := 9, agreement := {0}), NoConflict));
  }

  lemma LateBlocksAreValid()
    ensures ValidBlocks(LATE, []) && ValidBlocks(LATE, [EARLY_BLOCK]) && ValidBlocks(LATE, [EARLY_BLOCK, CLOSE_BLOCK])
  {
  }

  lemma EarlyRun()
    ensures ValidBlocks(LATE, [EARLY_BLOCK]) && Run(LATE, [EARLY_BLOCK]) == EarlyInput()
  {
    hide Run, Rests, Extends, AddInput, WellFormed, EarlyInput, Genesis, ValidBlocks;
    ClosedSteps();
    LateBlocksAreValid();
    StartsAtGenesis(LATE);
    assert [] + [EARLY_BLOCK] == [EARLY_BLOCK];
    NextBlock(LATE, [], EARLY_BLOCK, Genesis(LATE), EarlyInput());
  }

  lemma ClosedRun()
    ensures ValidBlocks(LATE, [EARLY_BLOCK, CLOSE_BLOCK]) && Run(LATE, [EARLY_BLOCK, CLOSE_BLOCK]) == Closed()
  {
    hide Run, Rests, Extends, ClaimCall, WellFormed, EarlyInput, Closed, ValidBlocks;
    ClosedSteps();
    LateBlocksAreValid();
    EarlyRun();
    assert [EARLY_BLOCK] + [CLOSE_BLOCK] == [EARLY_BLOCK, CLOSE_BLOCK];
    NextBlock(LATE, [EARLY_BLOCK], CLOSE_BLOCK, EarlyInput(), Closed());
  }

  // What the log of a short run says, event by event.
  lemma ClosedLog()
    ensures var log := Closed().log;
            && InputsOf(log, 0) == [Input(7, 11, [0])] && InputsOf(log, 1) == []
            && Query(log, Claims(0)) == [Entry(CLOSE_BLOCK.at, Event.Claim(0, 1, 9))]
            && LastMove(log, 10) == 12
  {
    hide Query;
    var log := Closed().log;
    var one, two := [] + [log[0]], [] + [log[0]] + [log[1]];
    assert log == two + [log[2]];
    NothingIsFound();
    QueryEmit([], log[0]);
    QueryEmit(one, log[1]);
    QueryEmit(two, log[2]);
  }

  lemma ClosedIsDue()
    ensures ValidBlocks(LATE, [EARLY_BLOCK, CLOSE_BLOCK])
    ensures var blocks := [EARLY_BLOCK, CLOSE_BLOCK];
            var s, now := Run(LATE, blocks), Now(LATE, blocks);
            && s.epochHashes == []
            && DueEpoch(s, LATE.cfg, now) == 1
            && ChainOf(s.log)(0) == [Input(7, 11, [0])] && ChainOf(s.log)(1) == []
            && View(LATE, blocks, 0, now).Some?
            && !View(LATE, blocks, 0, now).value.currentPhase.AccumulatingInputs?
  {
    hide Run, Rests, View, Query, Logical, InputsOf, LastMove;
    ClosedRun();
    ClosedLog();
    ViewExistsExactly(LATE, [EARLY_BLOCK, CLOSE_BLOCK], 0, 12);
    ViewSealsAhead(LATE, [EARLY_BLOCK, CLOSE_BLOCK], 0, CLOSE_BLOCK.at);
  }

  // A node that finds a machine which has processed that input: epoch 0 is finished, and the slice of the
  // inputs of epoch 1 is to start at the number of inputs of epoch 0, beyond its end.
  method EarlyReacts(sender: Address, claimOf: (nat, seq<Input>) -> Hash) returns (r: Outcome)
    ensures r.BadSlice?
  {
    hide Run, Rests, View, Now, DueEpoch, ChainOf, Query, LastMove;
    var machine := new Machine.Resumed(0, [Input(7, 11, [0])], 1, claimOf);
    ClosedIsDue();
    assert InStep(machine, LATE, [EARLY_BLOCK, CLOSE_BLOCK], 0);
    r := ReactAt(LATE, [EARLY_BLOCK, CLOSE_BLOCK], 0, sender, machine);
  }

  // A run of one block with one claim and no inputs.

  const FIRST_BLOCK := Block(Moment(1, 12), [SendClaim(1, 9)])

  lemma FirstRun()
    ensures ValidBlocks(SPLIT, [FIRST_BLOCK]) && Run(SPLIT, [FIRST_BLOCK]) == FirstClaimed()
  {
    hide Run, Rests, Extends, ClaimCall, FirstClaimed;
    FirstClaims();
    StartsAtGenesis(SPLIT);
    assert [] + [FIRST_BLOCK] == [FIRST_BLOCK];
    NextBlock(SPLIT, [], FIRST_BLOCK, Genesis(SPLIT), FirstClaimed());
  }

  lemma FirstLog()
    ensures var log := FirstClaimed().log;
            && InputsOf(log, 0) == [] && InputsOf(log, 1) == []
            && Query(log, Claims(0)) == [Entry(FIRST_BLOCK.at, Event.Claim(0, 1, 9))]
            && (1, 9) in Votes(log, 0)
            && LastMove(log, 10) == 12
  {
    hide Query, Votes;
    var log := FirstClaimed().log;
    assert log == [] + [log[0]] + [log[1]];
    NothingIsFound();
    QueryEmit([], log[0]);
    QueryEmit([] + [log[0]], log[1]);
    VotesEmit([] + [log[0]], log[1]);
  }

  lemma FirstIsDue()
    ensures ValidBlocks(SPLIT, [FIRST_BLOCK])
    ensures var s, now := Run(SPLIT, [FIRST_BLOCK]), Now(SPLIT, [FIRST_BLOCK]);
            && s.epochHashes == []
            && DueEpoch(s, SPLIT.cfg, now) == 1
            && ChainOf(s.log)(0) == [] && ChainOf(s.log)(1) == []
            && View(SPLIT, [FIRST_BLOCK], 0, now).Some?
            && var p := View(SPLIT, [FIRST_BLOCK], 0, now).value.currentPhase;
               !p.AccumulatingInputs? && !p.ConsensusTimeout? && HasClaimed(p, 1)
  {
    hide Run, Rests, View, Query, Logical, InputsOf, LastMove, Votes;
    FirstRun();
    FirstLog();
    ViewExistsExactly(SPLIT, [FIRST_BLOCK], 0, 12);
    ViewSealsAhead(SPLIT, [FIRST_BLOCK], 0, FIRST_BLOCK.at);
    TimeoutExactly(SPLIT, [FIRST_BLOCK], 0, FIRST_BLOCK.at);
    ClaimersVoted(SPLIT, [FIRST_BLOCK], 0, 1);
  }

  // The node of the validator that made the claim: it has nothing to do but wait, and stops.
  method ClaimerReacts(claimOf: (nat, seq<Input>) -> Hash) returns (r: Outcome)
    ensures r.Unwritten?
  {
    hide Run, Rests, View, Now, DueEpoch, ChainOf, Query, LastMove, HasClaimed;
    var machine := new Machine(0, claimOf);
    FirstIsDue();
    assert InStep(machine, SPLIT, [FIRST_BLOCK], 0);
    r := ReactAt(SPLIT, [FIRST_BLOCK], 0, 1, machine);
  }
}
