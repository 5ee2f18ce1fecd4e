/** OutputImpl: finalized epoch hashes, and outputs that execute at most once. */
module Outputs {
  import opened Common

  const TWO64: int := 0x1_00000000_00000000
  const TWO59: int := 0x8000000_00000000
  const TWO128: int := 0x1_00000000_00000000_00000000_00000000

  // Which output, of which input, of which epoch.
  datatype Index = Index(output: uint256, input: uint256, epoch: uint256) {
    predicate InRange() {
      output < TWO128 && input < TWO64 && epoch < TWO64
    }
  }

  // (output << 128) + (input << 64) + epoch: the shifts drop high bits, the sums are checked.
  function BitMaskPosition(i: Index): Option<uint256> {
    match CheckedAdd(i.output * TWO128 % UINT256_END, i.input * TWO64 % UINT256_END)
    case None => None
    case Some(sum) => CheckedAdd(sum, i.epoch)
  }

  lemma PositionInRange(i: Index)
    requires i.InRange()
    ensures BitMaskPosition(i) == Some(i.output * TWO128 + i.input * TWO64 + i.epoch)
  {
    assert i.output * TWO128 <= (TWO128 - 1) * TWO128;
    assert i.input * TWO64 <= (TWO64 - 1) * TWO64;
  }

  // In range, different outputs have different positions.
  lemma PositionInjective(i: Index, j: Index)
    requires i.InRange() && j.InRange()
    ensures BitMaskPosition(i) == BitMaskPosition(j) <==> i == j
  {
    PositionInRange(i);
    PositionInRange(j);
    if BitMaskPosition(i) == BitMaskPosition(j) {
      var a, b := i.input * TWO64 + i.epoch, j.input * TWO64 + j.epoch;
      assert 0 <= a < TWO128 && 0 <= b < TWO128;
      assert (i.output - j.output) * TWO128 == b - a;
    }
  }

  // The only index in range with a given position.
  function Owner(p: uint256): (i: Index)
    ensures i.InRange() && BitMaskPosition(i) == Some(p)
  {
    var i := Index(p / TWO128, p / TWO64 % TWO64, p % TWO64);
    PositionInRange(i);
    SplitPosition(p);
    i
  }

  lemma SplitPosition(p: uint256)
    ensures p / TWO128 < TWO128
    ensures p == p / TWO128 * TWO128 + p / TWO64 % TWO64 * TWO64 + p % TWO64
  {
    var q := p / TWO64;
    assert p == q * TWO64 + p % TWO64;
    assert q == q / TWO64 * TWO64 + q % TWO64;
    assert q / TWO64 == p / TWO128;
  }

  // An index takes the position of another output, one in range, exactly when it is out of range.
  lemma PositionCollides(i: Index)
    requires BitMaskPosition(i).Some?
    ensures !i.InRange() <==> exists j: Index :: j.InRange() && j != i && BitMaskPosition(j) == BitMaskPosition(i)
  {
    if i.InRange() {
      forall j: Index | j.InRange() && BitMaskPosition(j) == BitMaskPosition(i)
        ensures j == i
      {
        PositionInjective(i, j);
      }
    } else {
      var j := Owner(BitMaskPosition(i).value);
      assert j.InRange() && j != i;
    }
  }

  datatype OutputState = OutputState(lock: bool, executed: set<uint256>, epochHashes: seq<Hash>)

  // A leaf of 32 bytes; the drives of 2^37 and 2^21 bytes, for an epoch by inputs and for an input.
  const LEAF_SIZE := 32
  const INPUT_DRIVE := 0x20_00000000
  const INPUT_LEAVES := 0x1_00000000
  const OUTPUT_DRIVE := 0x200000
  const OUTPUT_LEAVES := 0x10000

  // getIntraDrivePosition for such leaves: a checked product, cut to 64 bits.
  function IntraDrivePosition(index: uint256): Option<nat> {
    if index * LEAF_SIZE > UINT256_MAX then None else Some(index * LEAF_SIZE % TWO64)
  }

  datatype Output = Output(destination: Address, payload: Payload)

  // A validity proof without its three indices: is it accepted for an output, an epoch hash and the
  // positions of the input and of the output in their drives? It sees the indices in no other way.
  type Proof = (Output, Hash, nat, nat) -> bool

  // A call into the contract. The destination of an executed output may itself make calls before it
  // returns or fails.
  datatype Call =
    | Execute(output: Output, index: Index, proof: Proof, nested: seq<Call>, succeeds: bool)
    | NewEpoch(hash: Hash)

  datatype Reply = Reverted | Returned(success: bool)

  // isValidProof; a product that overflows reverts, which refuses the proof too.
  predicate IsValidProof(output: Output, epochHash: Hash, index: Index, proof: Proof) {
    var x, y := IntraDrivePosition(index.input), IntraDrivePosition(index.output);
    x.Some? && y.Some? && proof(output, epochHash, x.value, y.value)
  }

  // Can this output be executed in this state? None is a revert.
  function Admit(o: OutputState, output: Output, index: Index, proof: Proof): Option<uint256> {
    if o.lock || index.epoch >= |o.epochHashes| || !IsValidProof(output, o.epochHashes[index.epoch], index, proof) then None
    else
      match BitMaskPosition(index)
      case None => None
      case Some(p) => if p in o.executed then None else Some(p)
  }

  // What has been executed: an output, under an index and with a proof.
  datatype Executed = Executed(output: Output, index: Index, proof: Proof)

  datatype Effect = Effect(state: OutputState, reply: Reply, done: seq<Executed>)

  // The state after a call, its reply, and what it has executed (the calls inside included).
  function Perform(o: OutputState, c: Call): Effect
    decreases c, 0
  {
    match c
    case NewEpoch(hash) => Effect(o.(epochHashes := o.epochHashes + [hash]), Returned(true), [])
    case Execute(output, index, proof, nested, succeeds) =>
      match Admit(o, output, index, proof)
      case None => Effect(o, Reverted, [])
      case Some(p) =>
        var (inner, done) := PerformAll(o.(lock := true), nested);
        if succeeds
        then Effect(inner.(executed := inner.executed + {p}, lock := false), Returned(true), done + [Executed(output, index, proof)])
        else Effect(o, Returned(false), [])
  }

  function PerformAll(o: OutputState, calls: seq<Call>): (OutputState, seq<Executed>)
    decreases calls
  {
    if calls == [] then (o, [])
    else
      var first := Perform(o, calls[0]);
      var (last, done) := PerformAll(first.state, calls[1..]);
      (last, first.done + done)
  }

  // The hashes that some calls hand in, apart from what goes on inside them.
  function NewHashes(calls: seq<Call>): seq<Hash> {
    if calls == [] then []
    else (if calls[0].NewEpoch? then [calls[0].hash] else []) + NewHashes(calls[1..])
  }

  // While the lock is held nothing is executed, whatever the destination calls; new hashes are kept.
  lemma {:induction false} LockHolds(o: OutputState, calls: seq<Call>)
    requires o.lock
    ensures var (o', done) := PerformAll(o, calls);
            o'.lock && o'.executed == o.executed && o'.epochHashes == o.epochHashes + NewHashes(calls) && done == []
    decreases calls
  {
    hide Perform;
    if calls == [] {
      assert o.epochHashes + [] == o.epochHashes;
    } else {
      var c := calls[0];
      var first := if c.NewEpoch? then [c.hash] else [];
      LockedCall(o, c);
      var o1 := Perform(o, c).state;
      LockHolds(o1, calls[1..]);
      assert PerformAll(o, calls) == (PerformAll(o1, calls[1..]).0, [] + PerformAll(o1, calls[1..]).1);
      assert o.epochHashes + first + NewHashes(calls[1..]) == o.epochHashes + (first + NewHashes(calls[1..]));
    }
  }

  lemma LockedCall(o: OutputState, c: Call)
    requires o.lock
    ensures Perform(o, c).state == o.(epochHashes := o.epochHashes + if c.NewEpoch? then [c.hash] else [])
    ensures Perform(o, c).done == []
  {
    assert o.epochHashes + [] == o.epochHashes;
  }

  // One call executes at most the output it names, under the index it names; a call that fails leaves
  // everything as it was.
  lemma CallExecutesItsOwn(o: OutputState, c: Call)
    requires !o.lock
    ensures var e := Perform(o, c);
            && !e.state.lock && o.epochHashes <= e.state.epochHashes
            && (e.reply != Returned(true) ==> e.state == o && e.done == [])
            && (c.NewEpoch? ==> e.state.executed == o.executed && e.done == [])
            && (c.Execute? && e.reply == Returned(true) ==>
                  && e.done == [Executed(c.output, c.index, c.proof)]
                  && Admit(o, c.output, c.index, c.proof) == BitMaskPosition(c.index)
                  && BitMaskPosition(c.index).Some?
                  && BitMaskPosition(c.index).value !in o.executed
                  && e.state.executed == o.executed + {BitMaskPosition(c.index).value})
  {
    hide BitMaskPosition, IsValidProof;
    if c.Execute? {
      LockHolds(o.(lock := true), c.nested);
    }
  }

  // An output is executed, and so marked, exactly when it is admitted and its destination succeeds, whatever
  // the destination calls; a destination that fails answers false and leaves nothing behind; what is not
  // admitted reverts.
  lemma ExecuteExactly(o: OutputState, output: Output, index: Index, proof: Proof, nested: seq<Call>, succeeds: bool)
    ensures var e, p := Perform(o, Execute(output, index, proof, nested, succeeds)), BitMaskPosition(index);
            var admitted :=
              && !o.lock && index.epoch < |o.epochHashes| && IsValidProof(output, o.epochHashes[index.epoch], index, proof)
              && p.Some? && p.value !in o.executed;
            && e.reply == (if admitted then Returned(succeeds) else Reverted)
            && e.state == (if admitted && succeeds
                           then OutputState(false, o.executed + {p.value}, o.epochHashes + NewHashes(nested)) else o)
            && e.done == (if admitted && succeeds then [Executed(output, index, proof)] else [])
  {
    hide BitMaskPosition, IsValidProof;
    LockHolds(o.(lock := true), nested);
  }

  // Calls one after the other; a new hash is added at the end.
  lemma {:induction false} CallsInTurn(o: OutputState, calls: seq<Call>, c: Call)
    ensures PerformAll(o, calls + [c]).0 == Perform(PerformAll(o, calls).0, c).state
    ensures PerformAll(o, calls + [c]).1 == PerformAll(o, calls).1 + Perform(PerformAll(o, calls).0, c).done
    ensures forall hash :: Perform(o, NewEpoch(hash)).state == o.(epochHashes := o.epochHashes + [hash])
    decreases |calls|
  {
    hide Perform;
    if calls == [] {
      assert [] + [c] == [c] && [c][1..] == [];
      assert [] + Perform(o, c).done == Perform(o, c).done + [] == Perform(o, c).done;
    } else {
      assert (calls + [c])[1..] == calls[1..] + [c];
      CallsInTurn(Perform(o, calls[0]).state, calls[1..], c);
    }
    NewHashIsAdded(o);
  }

  lemma NewHashIsAdded(o: OutputState)
    ensures forall hash :: Perform(o, NewEpoch(hash)).state == o.(epochHashes := o.epochHashes + [hash])
  {
  }

  // The recorded positions are exactly those of the executed indices, each executed once, and the proofs
  // still hold.
  ghost predicate Recorded(o: OutputState, done: seq<Executed>) {
    && (forall k :: 0 <= k < |done| ==> Justified(o, done[k]))
    && (forall p :: p in o.executed ==> exists k :: 0 <= k < |done| && BitMaskPosition(done[k].index) == Some(p))
    && (forall k, l :: 0 <= k < l < |done| ==> BitMaskPosition(done[k].index) != BitMaskPosition(done[l].index))
  }

  ghost predicate Justified(o: OutputState, x: Executed) {
    && BitMaskPosition(x.index).Some? && BitMaskPosition(x.index).value in o.executed
    && x.index.epoch < |o.epochHashes| && IsValidProof(x.output, o.epochHashes[x.index.epoch], x.index, x.proof)
  }

  // Over every run, re-entrant calls included, no index is executed twice.
  lemma {:induction false} AtMostOnce(o: OutputState, past: seq<Executed>, calls: seq<Call>)
    requires !o.lock && Recorded(o, past)
    ensures var (o', done) := PerformAll(o, calls);
            && !o'.lock && Recorded(o', past + done)
            && (forall k, l :: 0 <= k < l < |past + done| ==> (past + done)[k].index != (past + done)[l].index)
    decreases calls
  {
    hide Perform, Recorded;
    if calls == [] {
      assert past + [] == past;
      Distinct(o, past);
    } else {
      var first := Perform(o, calls[0]);
      RecordCall(o, past, calls[0]);
      AtMostOnce(first.state, past + first.done, calls[1..]);
      var rest := PerformAll(first.state, calls[1..]).1;
      assert past + (first.done + rest) == past + first.done + rest;
    }
  }

  lemma Distinct(o: OutputState, done: seq<Executed>)
    requires Recorded(o, done)
    ensures forall k, l :: 0 <= k < l < |done| ==> done[k].index != done[l].index
  {
  }

  lemma RecordCall(o: OutputState, past: seq<Executed>, c: Call)
    requires !o.lock && Recorded(o, past)
    ensures Recorded(Perform(o, c).state, past + Perform(o, c).done) && !Perform(o, c).state.lock
  {
    hide BitMaskPosition, IsValidProof, Perform;
    var e := Perform(o, c);
    CallExecutesItsOwn(o, c);
    if e.done == [] {
      assert past + e.done == past;
    } else {
      Record(o, e.state, past, e.done[0]);
    }
  }

  lemma Record(o: OutputState, o': OutputState, past: seq<Executed>, x: Executed)
    requires Recorded(o, past) && o.epochHashes <= o'.epochHashes
    requires BitMaskPosition(x.index).Some? && BitMaskPosition(x.index).value !in o.executed && Justified(o', x)
    requires o'.executed == o.executed + {BitMaskPosition(x.index).value}
    ensures Recorded(o', past + [x])
  {
    hide BitMaskPosition, IsValidProof;
    var now, p := past + [x], BitMaskPosition(x.index).value;
    forall q | q in o'.executed
      ensures exists k :: 0 <= k < |now| && BitMaskPosition(now[k].index) == Some(q)
    {
      if q == p {
        assert BitMaskPosition(now[|past|].index) == Some(q);
      } else {
        var k :| 0 <= k < |past| && BitMaskPosition(past[k].index) == Some(q);
        assert now[k] == past[k];
      }
    }
  }

  // As long as every index is in range, an output with a valid proof is refused exactly when its index
  // has been executed before: no other index takes its bit, and a failed call can be retried.
  lemma RefusedOnlyWhenDone(o: OutputState, past: seq<Executed>, output: Output, index: Index, proof: Proof)
    requires !o.lock && Recorded(o, past) && index.epoch < |o.epochHashes|
    requires IsValidProof(output, o.epochHashes[index.epoch], index, proof)
    requires index.InRange() && forall k :: 0 <= k < |past| ==> past[k].index.InRange()
    ensures Admit(o, output, index, proof).None? <==> exists k :: 0 <= k < |past| && past[k].index == index
  {
    hide IsValidProof;
    PositionInRange(index);
    var p := BitMaskPosition(index).value;
    if p in o.executed {
      var k :| 0 <= k < |past| && BitMaskPosition(past[k].index) == Some(p);
      PositionInjective(past[k].index, index);
    }
  }

  // Outputs and their indices

  // The leaf at a position, inside the drive of an epoch and inside that of an input.
  function InputPlace(position: nat): nat {
    position % INPUT_DRIVE / LEAF_SIZE
  }

  function OutputPlace(position: nat): nat {
    position % OUTPUT_DRIVE / LEAF_SIZE
  }

  // The place of an output in its epoch's tree.
  datatype Leaf = Leaf(epoch: nat, input: nat, output: nat)

  function LeafOf(i: Index): Leaf
    requires i.InRange()
  {
    LeafPosition(i.input);
    LeafPosition(i.output);
    Leaf(i.epoch, InputPlace(IntraDrivePosition(i.input).value), OutputPlace(IntraDrivePosition(i.output).value))
  }

  lemma LeafPosition(a: uint256)
    requires a < TWO128
    ensures IntraDrivePosition(a) == Some(a % TWO59 * LEAF_SIZE)
  {
    assert a * LEAF_SIZE == a / TWO59 * TWO64 + a % TWO59 * LEAF_SIZE;
  }

  // A drive has 2^32 or 2^16 leaves; an index beyond them starts over.
  lemma LeafNumbers(i: Index)
    requires i.InRange()
    ensures LeafOf(i) == Leaf(i.epoch, i.input % INPUT_LEAVES, i.output % OUTPUT_LEAVES)
  {
    LeafPosition(i.input);
    LeafPosition(i.output);
    InputStartsOver(i.input);
    OutputStartsOver(i.output);
  }

  lemma InputStartsOver(a: nat)
    ensures InputPlace(a % TWO59 * LEAF_SIZE) == a % INPUT_LEAVES
  {
    var q, r := a / 0x8000000_00000000, a % 0x8000000_00000000;
    var drive, leaf := r / 0x1_00000000, r % 0x1_00000000;
    InputParts(q, drive, leaf);
    assert r * 32 == drive * 0x20_00000000 + leaf * 32;
    assert a == (q * 0x8000000 + drive) * 0x1_00000000 + leaf;
  }

  lemma InputParts(q: nat, drive: nat, leaf: nat)
    requires leaf < 0x1_00000000
    ensures InputPlace(drive * 0x20_00000000 + leaf * 32) == leaf
    ensures ((q * 0x8000000 + drive) * 0x1_00000000 + leaf) % INPUT_LEAVES == leaf
  {
    InputWhole(drive, leaf * 32);
    InputLeaf(q * 0x8000000 + drive, leaf);
  }

  lemma InputLeaf(k: nat, leaf: nat)
    requires leaf < 0x1_00000000
    ensures (k * 0x1_00000000 + leaf) % INPUT_LEAVES == leaf
  {
    assert (k * 0x1_00000000 + leaf) % 0x1_00000000 == leaf;
  }

  lemma InputWhole(drive: nat, rest: nat)
    requires rest < 0x20_00000000
    ensures (drive * 0x20_00000000 + rest) % INPUT_DRIVE == rest
  {
    assert (drive * 0x20_00000000 + rest) % 0x20_00000000 == rest;
  }

  lemma OutputStartsOver(a: nat)
    ensures OutputPlace(a % TWO59 * LEAF_SIZE) == a % OUTPUT_LEAVES
  {
    var q, r := a / 0x8000000_00000000, a % 0x8000000_00000000;
    var drive, leaf := r / 0x10000, r % 0x10000;
    OutputParts(q, drive, leaf);
    assert r * 32 == drive * 0x200000 + leaf * 32;
    assert a == (q * 0x800_00000000 + drive) * 0x10000 + leaf;
  }

  lemma OutputParts(q: nat, drive: nat, leaf: nat)
    requires leaf < 0x10000
    ensures OutputPlace(drive * 0x200000 + leaf * 32) == leaf
    ensures ((q * 0x800_00000000 + drive) * 0x10000 + leaf) % OUTPUT_LEAVES == leaf
  {
    OutputWhole(drive, leaf * 32);
    OutputLeaf(q * 0x800_00000000 + drive, leaf);
  }

  lemma OutputLeaf(k: nat, leaf: nat)
    requires leaf < 0x10000
    ensures (k * 0x10000 + leaf) % OUTPUT_LEAVES == leaf
  {
    assert (k * 0x10000 + leaf) % 0x10000 == leaf;
  }

  lemma OutputWhole(drive: nat, rest: nat)
    requires rest < 0x200000
    ensures (drive * 0x200000 + rest) % OUTPUT_DRIVE == rest
  {
    assert (drive * 0x200000 + rest) % 0x200000 == rest;
  }

  // In range, two indices stand for the same leaf exactly when they agree up to the sizes of the drives.
  lemma SameLeaf(i: Index, j: Index)
    requires i.InRange() && j.InRange()
    ensures LeafOf(i) == LeafOf(j) <==>
              && i.epoch == j.epoch
              && i.input % INPUT_LEAVES == j.input % INPUT_LEAVES
              && i.output % OUTPUT_LEAVES == j.output % OUTPUT_LEAVES
  {
    LeafNumbers(i);
    LeafNumbers(j);
  }

  // A proof that is checked along the paths of the two drives reads no more of a position than its place
  // inside the drive.
  ghost predicate ReadsDrives(proof: Proof) {
    forall x: Output, h: Hash, a: nat, b: nat, c: nat, d: nat ::
      InputPlace(a) == InputPlace(c) && OutputPlace(b) == OutputPlace(d) ==> proof(x, h, a, b) == proof(x, h, c, d)
  }

  // No such proof tells two indices of a leaf apart, and some proof tells those of two leaves apart.
  lemma ProofsSeeLeaves(i: Index, j: Index)
    requires i.InRange() && j.InRange() && i.epoch == j.epoch
    ensures LeafOf(i) == LeafOf(j) <==>
              forall x: Output, h: Hash, proof: Proof | ReadsDrives(proof) :: IsValidProof(x, h, i, proof) == IsValidProof(x, h, j, proof)
  {
    hide InputPlace, OutputPlace, IntraDrivePosition;
    LeafPosition(i.input);
    LeafPosition(i.output);
    LeafPosition(j.input);
    LeafPosition(j.output);
    if LeafOf(i) == LeafOf(j) {
      forall x: Output, h: Hash, proof: Proof | ReadsDrives(proof)
        ensures IsValidProof(x, h, i, proof) == IsValidProof(x, h, j, proof)
      {
        OneLeaf(x, h, i, j, proof);
      }
    } else {
      var own := ProofOf(LeafOf(i));
      ProofOfReads(LeafOf(i));
      assert IsValidProof(Output(0, []), 0, i, own) != IsValidProof(Output(0, []), 0, j, own);
    }
  }

  lemma OneLeaf(x: Output, h: Hash, i: Index, j: Index, proof: Proof)
    requires i.InRange() && j.InRange() && LeafOf(i) == LeafOf(j) && ReadsDrives(proof)
    ensures IsValidProof(x, h, i, proof) == IsValidProof(x, h, j, proof)
  {
    hide InputPlace, OutputPlace, IntraDrivePosition;
    LeafPosition(i.input);
    LeafPosition(i.output);
    LeafPosition(j.input);
    LeafPosition(j.output);
  }

  // The proof that is accepted at one leaf, for any output and hash.
  function ProofOf(leaf: Leaf): Proof {
    (x, h, a: nat, b: nat) => InputPlace(a) == leaf.input && OutputPlace(b) == leaf.output
  }

  lemma ProofOfReads(leaf: Leaf)
    ensures ReadsDrives(ProofOf(leaf))
  {
    hide InputPlace, OutputPlace;
  }

  // What the hashes of the epochs commit to: the output at each leaf.
  type Tree = (Hash, nat, nat) -> Option<Output>

  // A proof that is only accepted for what the tree has at the leaf.
  ghost predicate Genuine(proof: Proof, tree: Tree) {
    forall x: Output, h: Hash, a: nat, b: nat :: proof(x, h, a, b) ==>
      tree(h, InputPlace(a), OutputPlace(b)) == Some(x)
  }

  // An index inside both drives.
  predicate Plain(i: Index) {
    i.InRange() && i.input < INPUT_LEAVES && i.output < OUTPUT_LEAVES
  }

  lemma PlainLeaf(i: Index, j: Index)
    requires Plain(i) && Plain(j)
    ensures LeafOf(i) == LeafOf(j) <==> i == j
  {
    hide LeafOf;
    SameLeaf(i, j);
  }

  ghost predicate Unique(x: Output, h: Hash, tree: Tree) {
    forall a, b, c, d :: tree(h, a, b) == Some(x) && tree(h, c, d) == Some(x) ==> a == c && b == d
  }

  // Two indices inside the drives under which genuine proofs admit one output of an epoch, where it has
  // one leaf, are the same index.
  lemma OnePlainIndex(x: Output, h: Hash, i: Index, j: Index, p: Proof, q: Proof, tree: Tree)
    requires Plain(i) && Plain(j) && i.epoch == j.epoch
    requires Genuine(p, tree) && Genuine(q, tree) && Unique(x, h, tree)
    requires IsValidProof(x, h, i, p) && IsValidProof(x, h, j, q)
    ensures i == j
  {
    hide InputPlace, OutputPlace, IntraDrivePosition;
    LeafPosition(i.input);
    LeafPosition(i.output);
    LeafPosition(j.input);
    LeafPosition(j.output);
    assert LeafOf(i) == LeafOf(j);
    PlainLeaf(i, j);
  }

  // Over every run, re-entrant calls included: what genuine proofs have executed under indices inside the
  // drives is what the epoch's tree has at their leaf, each leaf once; so an output that has one leaf in
  // an epoch is executed at most once, under whatever indices and proofs of this kind.
  lemma OutputsAtMostOnce(o: OutputState, past: seq<Executed>, calls: seq<Call>, tree: Tree, k: nat, l: nat)
    requires !o.lock && Recorded(o, past)
    ensures var (o', done) := PerformAll(o, calls); var all := past + done;
            k < |all| && Sound(all[k], tree) ==>
              var leaf := LeafOf(all[k].index);
              && leaf.epoch < |o'.epochHashes|
              && tree(o'.epochHashes[leaf.epoch], leaf.input, leaf.output) == Some(all[k].output)
              && (k < l < |all| && Sound(all[l], tree) ==>
                    && LeafOf(all[l].index) != leaf
                    && (all[l].index.epoch == leaf.epoch && Unique(all[k].output, o'.epochHashes[leaf.epoch], tree) ==>
                          all[l].output != all[k].output))
  {
    hide PerformAll, Recorded, Plain, Genuine, Unique, LeafOf, BitMaskPosition, IsValidProof, Sound;
    AtMostOnce(o, past, calls);
    var (o', done) := PerformAll(o, calls);
    var all := past + done;
    RecordedAreJustified(o', all);
    if k < |all| && Sound(all[k], tree) {
      SoundHolds(o', all[k], tree);
      if k < l < |all| && Sound(all[l], tree) {
        TwoLeaves(o', all[k], all[l], tree);
      }
    }
  }

  lemma TwoLeaves(o: OutputState, x: Executed, y: Executed, tree: Tree)
    requires Justified(o, x) && Justified(o, y) && Sound(x, tree) && Sound(y, tree) && x.index != y.index
    ensures LeafOf(x.index) != LeafOf(y.index)
    ensures y.index.epoch == x.index.epoch && Unique(x.output, o.epochHashes[x.index.epoch], tree) ==> y.output != x.output
  {
    hide Genuine, Unique, LeafOf, BitMaskPosition, IsValidProof;
    PlainLeaf(x.index, y.index);
    if y.index.epoch == x.index.epoch && Unique(x.output, o.epochHashes[x.index.epoch], tree) && y.output == x.output {
      OnePlainIndex(x.output, o.epochHashes[x.index.epoch], x.index, y.index, x.proof, y.proof, tree);
    }
  }

  ghost predicate Sound(x: Executed, tree: Tree)
    ensures Sound(x, tree) ==> x.index.InRange()
  {
    Plain(x.index) && Genuine(x.proof, tree)
  }

  lemma RecordedAreJustified(o: OutputState, done: seq<Executed>)
    requires Recorded(o, done)
    ensures forall k :: 0 <= k < |done| ==> Justified(o, done[k])
  {
  }

  lemma SoundHolds(o: OutputState, x: Executed, tree: Tree)
    requires Justified(o, x) && Sound(x, tree)
    ensures var leaf := LeafOf(x.index);
            leaf.epoch == x.index.epoch && tree(o.epochHashes[leaf.epoch], leaf.input, leaf.output) == Some(x.output)
  {
    hide InputPlace, OutputPlace, IntraDrivePosition;
    LeafPosition(x.index.input);
    LeafPosition(x.index.output);
  }

  // With a proof for one leaf, an output that has been executed under one index of it is executed again
  // under another index in range, not executed yet, exactly when that one stands for the same leaf.
  lemma ReplayExactly(o: OutputState, x: Output, i: Index, j: Index, proof: Proof)
    requires !o.lock && i.InRange() && j.InRange() && i.epoch == j.epoch < |o.epochHashes| && i != j
    requires BitMaskPosition(i).Some? ==> BitMaskPosition(i).value !in o.executed
    requires BitMaskPosition(j).Some? ==> BitMaskPosition(j).value !in o.executed
    requires forall a: nat, b: nat ::
               proof(x, o.epochHashes[i.epoch], a, b) <==> InputPlace(a) == LeafOf(i).input && OutputPlace(b) == LeafOf(i).output
    ensures var first := Perform(o, Execute(x, i, proof, [], true));
            var second := Perform(first.state, Execute(x, j, proof, [], true));
            && first.reply == Returned(true)
            && (second.reply == Returned(true) <==> LeafOf(j) == LeafOf(i))
            && (Plain(i) && LeafOf(j) == LeafOf(i) ==> !Plain(j))
  {
    hide BitMaskPosition, Perform, Plain, InputPlace, OutputPlace;
    LeafPosition(i.input);
    LeafPosition(i.output);
    LeafPosition(j.input);
    LeafPosition(j.output);
    PositionInjective(i, j);
    PlainCall(o, x, i, proof);
    PlainCall(Perform(o, Execute(x, i, proof, [], true)).state, x, j, proof);
    if Plain(i) && Plain(j) {
      PlainLeaf(i, j);
    }
  }

  // A call whose destination does nothing but succeed.
  lemma PlainCall(o: OutputState, x: Output, i: Index, proof: Proof)
    requires !o.lock && i.InRange() && i.epoch < |o.epochHashes|
    ensures BitMaskPosition(i).Some?
    ensures var p := BitMaskPosition(i).value;
            Perform(o, Execute(x, i, proof, [], true)) ==
              if p in o.executed || !IsValidProof(x, o.epochHashes[i.epoch], i, proof) then Effect(o, Reverted, [])
              else Effect(o.(executed := o.executed + {p}), Returned(true), [Executed(x, i, proof)])
  {
    hide IsValidProof;
    PositionInRange(i);
    assert [] + [Executed(x, i, proof)] == [Executed(x, i, proof)];
  }

  // Such an index exists for every output: one drive further on.
  lemma ReplayExists(i: Index)
    requires Plain(i)
    ensures var j := i.(output := i.output + OUTPUT_LEAVES);
            j.InRange() && !Plain(j) && LeafOf(j) == LeafOf(i)
  {
    hide LeafOf;
    var j := i.(output := i.output + OUTPUT_LEAVES);
    SameLeaf(i, j);
  }

  // Whatever a proof reads: no proof at all tells indices apart that agree up to multiples of 2^59.
  lemma PositionsRepeat(x: Output, h: Hash, i: Index, j: Index, proof: Proof)
    requires i.InRange() && j.InRange() && i.input % TWO59 == j.input % TWO59 && i.output % TWO59 == j.output % TWO59
    ensures IsValidProof(x, h, i, proof) == IsValidProof(x, h, j, proof)
  {
    LeafPosition(i.input);
    LeafPosition(i.output);
    LeafPosition(j.input);
    LeafPosition(j.output);
  }

  class OutputImpl {
    var outputBitmask: set<uint256>
    var epochHashes: seq<Hash>
    var lock: bool

    constructor ()
      ensures Abs() == OutputState(false, {}, [])
    {
      outputBitmask, epochHashes, lock := {}, [], false;
    }

    ghost function Abs(): OutputState
      reads this
    {
      OutputState(lock, outputBitmask, epochHashes)
    }

    method OnNewEpoch(epochHash: Hash)
      modifies this
      ensures Abs() == old(Abs()).(epochHashes := old(epochHashes) + [epochHash])
    {
      epochHashes := epochHashes + [epochHash];
    }

    function GetNumberOfFinalizedEpochs(): nat
      reads this
    {
      |epochHashes|
    }

    // The proof is checked, the bit tested, and only then is the destination called, under the lock.
    method ExecuteOutput(output: Output, index: Index, proof: Proof, nested: seq<Call>, succeeds: bool)
        returns (reply: Reply)
      modifies this
      ensures var e := Perform(old(Abs()), Execute(output, index, proof, nested, succeeds));
              Abs() == e.state && reply == e.reply
      decreases nested, 1
    {
      if lock || index.epoch >= |epochHashes| || !IsValidProof(output, epochHashes[index.epoch], index, proof) {
        return Reverted;
      }
      var position := BitMaskPosition(index);
      if position.None? || position.value in outputBitmask {
        return Reverted;
      }
      var bitmask, hashes := outputBitmask, epochHashes;
      lock := true;
      CallBack(nested);
      if succeeds {
        outputBitmask := outputBitmask + {position.value};
      } else {
        // the failed call takes its own effects with it
        outputBitmask, epochHashes := bitmask, hashes;
      }
      lock := false;
      return Returned(succeeds);
    }

    // What the destination does while it is being called.
    method CallBack(calls: seq<Call>)
      modifies this
      ensures Abs() == PerformAll(old(Abs()), calls).0
      decreases calls, 0
    {
      if calls != [] {
        match calls[0] {
          case NewEpoch(hash) => OnNewEpoch(hash);
          case Execute(output, index, proof, nested, succeeds) =>
            var _ := ExecuteOutput(output, index, proof, nested, succeeds);
        }
        CallBack(calls[1..]);
      }
    }
  }
}
