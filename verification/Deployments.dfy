/** Runs played on the contracts themselves. */
module Deployments {
  import opened Events
  import opened Invariant
  import opened Runs
  import opened Contracts

  method Create(d: Deployment) returns (contracts: DescartesV2)
    requires ValidBlocks(d, [])
    ensures contracts.Valid() && contracts.cfg == d.cfg && contracts.Storage() == Run(d, [])
    ensures fresh(contracts) && fresh(contracts.validatorManager) && fresh(contracts.input)
    ensures fresh(contracts.output) && fresh(contracts.log)
  {
    contracts := new DescartesV2(d.cfg, d.roster, Moment(0, d.creation));
  }

  // Deploys the contracts and plays the blocks: the storage is the one that Run computes, so every
  // theorem about runs is a theorem about the contracts.
  method Play(d: Deployment, blocks: seq<Block>) returns (contracts: DescartesV2)
    requires ValidBlocks(d, blocks)
    ensures contracts.Valid() && contracts.cfg == d.cfg && contracts.Storage() == Run(d, blocks)
  {
    hide Run;
    assert blocks[..0] == [];
    contracts := Create(d);
    var i := 0;
    while i < |blocks|
      invariant 0 <= i <= |blocks|
      invariant contracts.Valid() && contracts.cfg == d.cfg
      invariant fresh(contracts) && fresh(contracts.validatorManager) && fresh(contracts.input)
      invariant fresh(contracts.output) && fresh(contracts.log)
      invariant ValidBlocks(d, blocks[..i]) && contracts.Storage() == Run(d, blocks[..i])
    {
      PlayBlock(contracts, d, blocks[..i], blocks[i]);
      assert blocks[..i + 1] == blocks[..i] + [blocks[i]];
      i := i + 1;
    }
    assert blocks[..i] == blocks;
  }

  method PlayBlock(contracts: DescartesV2, d: Deployment, past: seq<Block>, block: Block)
    requires ValidBlocks(d, past + [block])
    requires ValidBlocks(d, past)
    requires contracts.Valid() && contracts.cfg == d.cfg && contracts.Storage() == Run(d, past)
    modifies contracts, contracts.validatorManager, contracts.input, contracts.output, contracts.log
    ensures contracts.Valid() && contracts.Storage() == Run(d, past + [block])
  {
    var all := past + [block];
    assert all[..|all| - 1] == past && all[|all| - 1] == block;
    ghost var s, now := Run(d, past), Now(d, past);
    var j := 0;
    while j < |block.txs|
      invariant 0 <= j <= |block.txs|
      invariant contracts.Valid() && contracts.cfg == d.cfg
      invariant contracts.Storage() == RunTxs(s, d, now, block.at, block.txs[..j])
    {
      ghost var before := contracts.Storage();
      var _ := Transact(contracts, block.at, block.txs[j]);
      assert block.txs[..j + 1][..j] == block.txs[..j];
      assert contracts.Storage() == Step(before, d, block.at.time, block.at, block.txs[j]);
      j := j + 1;
    }
    assert block.txs[..j] == block.txs;
  }
}
