/** Whole runs: every sequence of blocks of transactions, reverted ones included. */
module Runs {
  import opened Common
  import opened Events
  import opened ConsensusRules
  import opened Protocol
  import opened Invariant
  import opened Steps

  datatype Block = Block(at: Moment, txs: seq<Tx>)

  // The time of the last block, or of the creation.
  function Now(d: Deployment, blocks: seq<Block>): uint256 {
    if blocks == [] then d.creation else blocks[|blocks| - 1].at.time
  }

  ghost predicate ValidBlocks(d: Deployment, blocks: seq<Block>) {
    && ValidRoster(d.roster)
    && (forall i :: 0 <= i < |blocks| ==> d.creation <= blocks[i].at.time && forall tx :: tx in blocks[i].txs ==> ValidTx(tx))
    && (forall i, j :: 0 <= i < j < |blocks| ==> blocks[i].at.time <= blocks[j].at.time)
  }

  function Genesis(d: Deployment): State
    requires ValidRoster(d.roster)
  {
    Deploy(d.roster, Moment(0, d.creation)).value
  }

  lemma GenesisRests(d: Deployment)
    requires ValidRoster(d.roster)
    ensures Rests(Genesis(d), d, d.creation) && WellFormed(Genesis(d).manager)
  {
    assert Inv(Genesis(d), d, d.creation);
  }

  lemma ExtendsReflexive(s: State, at: Moment)
    ensures Extends(s, s, at)
  {
    assert s.log[|s.log|..] == [];
  }

  lemma RestsLater(s: State, d: Deployment, now: uint256, later: uint256)
    requires Rests(s, d, now) && now <= later
    ensures Rests(s, d, later)
  {
    Open(s, d, now);
    TimePasses(s, d, now, later);
    Close(s, d, later);
  }

  // A transaction that reverts changes nothing.
  function Step(s: State, d: Deployment, ghost now: uint256, at: Moment, tx: Tx): (r: State)
    requires Rests(s, d, now) && WellFormed(s.manager) && now <= at.time && ValidRoster(d.roster) && ValidTx(tx)
    ensures Rests(r, d, at.time) && WellFormed(r.manager) && Extends(s, r, at)
  {
    StepKeeps(s, d, now, at, tx);
    ExtendsReflexive(s, at);
    RestsLater(s, d, now, at.time);
    match Apply(s, d.cfg, at, tx)
    case None => s
    case Some(s') => s'
  }

  function RunTxs(s: State, d: Deployment, ghost now: uint256, at: Moment, txs: seq<Tx>): (r: State)
    requires Rests(s, d, now) && WellFormed(s.manager) && now <= at.time && ValidRoster(d.roster)
    requires forall tx :: tx in txs ==> ValidTx(tx)
    ensures Rests(r, d, at.time) && WellFormed(r.manager) && Extends(s, r, at)
  {
    if txs == [] then
      ExtendsReflexive(s, at);
      RestsLater(s, d, now, at.time);
      s
    else
      var before := RunTxs(s, d, now, at, txs[..|txs| - 1]);
      var after := Step(before, d, at.time, at, txs[|txs| - 1]);
      ExtendsTransitive(s, before, after, at);
      after
  }

  // The storage and the log after some blocks.
  function Run(d: Deployment, blocks: seq<Block>): (r: State)
    requires ValidBlocks(d, blocks)
    ensures Rests(r, d, Now(d, blocks)) && WellFormed(r.manager)
  {
    if blocks == [] then
      GenesisRests(d);
      Genesis(d)
    else
      var last := blocks[|blocks| - 1];
      RunTxs(Run(d, blocks[..|blocks| - 1]), d, Now(d, blocks[..|blocks| - 1]), last.at, last.txs)
  }

  // The last block, as the node sees it: what it appends to the log of the blocks before.
  lemma RunExtends(d: Deployment, blocks: seq<Block>)
    requires ValidBlocks(d, blocks) && blocks != []
    ensures Extends(Run(d, blocks[..|blocks| - 1]), Run(d, blocks), blocks[|blocks| - 1].at)
  {
  }

  // One transaction more: what it does if it succeeds, and otherwise nothing; a block without any does
  // nothing either.
  lemma RunNext(d: Deployment, blocks: seq<Block>, at: Moment, txs: seq<Tx>, tx: Tx)
    requires ValidBlocks(d, blocks + [Block(at, txs + [tx])]) && ValidBlocks(d, blocks + [Block(at, txs)]) && ValidBlocks(d, blocks)
    ensures ValidTx(tx)
    ensures var s := Run(d, blocks + [Block(at, txs)]); var r := Apply(s, d.cfg, at, tx);
            Run(d, blocks + [Block(at, txs + [tx])]) == if r.Some? then r.value else s
    ensures Run(d, blocks + [Block(at, [])]) == Run(d, blocks)
  {
    hide Apply, Extends, Rests;
    var all := blocks + [Block(at, txs + [tx])];
    assert all[|blocks|] == Block(at, txs + [tx]) && tx in txs + [tx];
    assert blocks != [] ==> all[|blocks| - 1] == blocks[|blocks| - 1];
    LastBlock(d, blocks, at, txs + [tx]);
    LastBlock(d, blocks, at, txs);
    LastBlock(d, blocks, at, []);
    assert (txs + [tx])[..|txs + [tx]| - 1] == txs && (txs + [tx])[|txs + [tx]| - 1] == tx;
  }

  lemma LastBlock(d: Deployment, blocks: seq<Block>, at: Moment, txs: seq<Tx>)
    requires ValidBlocks(d, blocks) && ValidRoster(d.roster) && Now(d, blocks) <= at.time
    requires (forall tx :: tx in txs ==> ValidTx(tx)) && d.creation <= at.time
    ensures ValidBlocks(d, blocks + [Block(at, txs)])
    ensures Run(d, blocks + [Block(at, txs)]) == RunTxs(Run(d, blocks), d, Now(d, blocks), at, txs)
  {
    hide Extends, Rests, RunTxs;
    var all := blocks + [Block(at, txs)];
    assert all[..|all| - 1] == blocks && all[|all| - 1] == Block(at, txs);
  }
}
