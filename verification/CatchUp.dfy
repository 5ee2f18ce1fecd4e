/** How the node feeds the inputs of the chain to a machine that works at its own pace. */
module CatchUp {
  import opened Common
  import opened NodeTypes

  datatype EpochStatus = EpochStatus(epochNumber: nat, processed: nat, pending: nat)

  // The inputs of every epoch.
  type Chain = nat -> seq<Input>

  // What a machine manager has: its active epoch, the inputs it was given for it, how many of them it has
  // processed, and what it was given for past epochs.
  datatype Session = Session(epoch: nat, inputs: seq<Input>, processed: nat, finished: map<nat, seq<Input>>)

  // The machine manager behind MachineInterface; the claim for a finished epoch is a function of its inputs.
  class Machine {
    const claimOf: (nat, seq<Input>) -> Hash
    var epoch: nat
    var inputs: seq<Input>
    var processed: nat
    var finished: map<nat, seq<Input>>

    constructor (epoch: nat, claimOf: (nat, seq<Input>) -> Hash)
      ensures Valid() && Held() == Session(epoch, [], 0, map[]) && this.claimOf == claimOf
    {
      this.epoch, inputs, processed, finished, this.claimOf := epoch, [], 0, map[], claimOf;
    }

    // A session that exists already, in its first epoch.
    constructor Resumed(epoch: nat, inputs: seq<Input>, processed: nat, claimOf: (nat, seq<Input>) -> Hash)
      requires processed <= |inputs|
      ensures Valid() && Held() == Session(epoch, inputs, processed, map[]) && this.claimOf == claimOf
    {
      this.epoch, this.inputs, this.processed, finished, this.claimOf := epoch, inputs, processed, map[], claimOf;
    }

    ghost function Held(): Session
      reads this
    {
      Session(epoch, inputs, processed, finished)
    }

    ghost predicate Valid()
      reads this
    {
      processed <= |inputs|
    }

    // Gap-free: since epoch `from` every finished epoch had exactly the inputs of the chain, and the
    // active one has a prefix of them.
    ghost predicate Holds(chain: Chain, from: nat)
      reads this
    {
      && Valid()
      && from <= epoch
      && inputs <= chain(epoch)
      && forall e :: from <= e < epoch ==> e in finished && finished[e] == chain(e)
    }

    // A status read some time ago: since then only processing has gone on.
    ghost predicate Read(status: EpochStatus)
      reads this
    {
      Valid() && status.epochNumber == epoch && status.processed <= processed && status.processed + status.pending == |inputs|
    }

    // The machine processes as much as it likes of what it has.
    method Work()
      requires Valid()
      modifies this`processed
      ensures Valid() && old(processed) <= processed
    {
      var p: nat :| processed <= p <= |inputs|;
      processed := p;
    }

    method GetCurrentEpochStatus() returns (status: EpochStatus)
      requires Valid()
      modifies this`processed
      ensures Read(status) && old(processed) <= status.processed
    {
      Work();
      status := EpochStatus(epoch, processed, |inputs| - processed);
      Work();
    }

    // One request to enqueue an input; it is refused unless it is for the active epoch and in its place.
    method EnqueueInput(epochNumber: nat, index: nat, input: Input) returns (ok: bool)
      requires Valid()
      modifies this`inputs, this`processed
      ensures Valid() && old(processed) <= processed
      ensures ok <==> epochNumber == epoch && index == |old(inputs)|
      ensures inputs == if ok then old(inputs) + [input] else old(inputs)
    {
      Work();
      ok := epochNumber == epoch && index == |inputs|;
      if ok {
        inputs := inputs + [input];
      }
      Work();
    }

    // A request for each input, up to the first that is refused.
    method EnqueueInputs(epochNumber: nat, first: nat, more: seq<Input>) returns (ok: bool)
      requires Valid()
      modifies this`inputs, this`processed
      ensures Valid() && old(processed) <= processed
      ensures ok <==> more == [] || (epochNumber == epoch && first == |old(inputs)|)
      ensures inputs == if ok then old(inputs) + more else old(inputs)
    {
      ok := true;
      for i := 0 to |more|
        invariant Valid() && ok && inputs == old(inputs) + more[..i] && old(processed) <= processed
        invariant i > 0 ==> epochNumber == epoch && first == |old(inputs)|
      {
        ok := EnqueueInput(epochNumber, first + i, more[i]);
        if !ok {
          return;
        }
      }
    }

    // Only for an epoch whose inputs have all been processed.
    method FinishEpoch(epochNumber: nat, count: nat)
      requires Valid() && epochNumber == epoch && count == processed == |inputs|
      modifies this
      ensures Valid() && epoch == old(epoch) + 1 && inputs == [] && processed == 0
      ensures finished == old(finished)[old(epoch) := old(inputs)]
    {
      finished := finished[epoch := inputs];
      epoch, inputs, processed := epoch + 1, [], 0;
    }

    // Only for an epoch that has been finished.
    method GetEpochClaim(epochNumber: nat) returns (claim: Hash)
      requires Valid() && epochNumber in finished
      modifies this`processed
      ensures Valid() && old(processed) <= processed
      ensures claim == claimOf(epochNumber, finished[epochNumber])
    {
      Work();
      claim := claimOf(epochNumber, finished[epochNumber]);
    }
  }

  // Nothing to send, everything sent, or one of two failures: a slice that starts beyond the end of the
  // inputs, and a request that the machine refuses.
  datatype Feeding = Complete | Sent | OutOfRange | Refused

  // enqueue_remaning_inputs, for any status. With one that the machine has been true to since, and inputs
  // that it has a prefix of, it does not fail, and leaves the machine with all of them.
  method EnqueueRemainingInputs(status: EpochStatus, inputs: seq<Input>, machine: Machine) returns (r: Feeding)
    requires machine.Valid()
    modifies machine`inputs, machine`processed
    ensures machine.Valid() && old(machine.processed) <= machine.processed
    ensures var sent, total := status.processed + status.pending, |inputs|;
            && (r.Complete? <==> status.processed == total)
            && (r.OutOfRange? <==> status.processed != total && total < sent)
            && (r.Refused? <==>
                  && status.processed != total && sent < total
                  && !(status.epochNumber == machine.epoch && sent == |old(machine.inputs)|))
            && machine.inputs == if r.Sent? then old(machine.inputs) + inputs[sent..] else old(machine.inputs)
    ensures old(machine.Read(status) && machine.inputs <= inputs) ==>
              (r.Complete? || r.Sent?) && machine.inputs == inputs && (r.Complete? ==> machine.processed == |inputs|)
  {
    if status.processed == |inputs| {
      return Complete;
    }
    var sent := status.processed + status.pending;
    if sent > |inputs| {
      return OutOfRange;
    }
    var ok := machine.EnqueueInputs(status.epochNumber, sent, inputs[sent..]);
    return if ok then Sent else Refused;
  }

  // What the node knows of the finalized epochs is what the chain has.
  ghost predicate Knows(epochs: FinalizedEpochs, chain: Chain) {
    forall e: nat :: epochs.initialEpoch <= e < epochs.NextEpoch() ==>
      epochs.epochs[e - epochs.initialEpoch].inputs.inputs == chain(e)
  }

  // enqueue_inputs_of_finalized_epochs. It keeps the machine gap-free; it goes on only when the machine
  // is past the finalized epochs, and otherwise leaves it with all the inputs of a finalized epoch that
  // it had not processed yet.
  method EnqueueInputsOfFinalizedEpochs(
      epochs: FinalizedEpochs, status: EpochStatus, machine: Machine, ghost chain: Chain, ghost from: nat)
      returns (proceed: bool, last: EpochStatus)
    requires machine.Holds(chain, from) && machine.Read(status) && Knows(epochs, chain)
    requires epochs.initialEpoch <= machine.epoch
    modifies machine
    ensures machine.Holds(chain, from) && old(machine.epoch) <= machine.epoch
    ensures machine.epoch <= old(machine.epoch) || machine.epoch <= epochs.NextEpoch()
    ensures proceed <==> epochs.NextEpoch() <= machine.epoch
    ensures proceed ==> machine.Read(last) && (machine.epoch == old(machine.epoch) ==> last == status)
    ensures old(machine.epoch) < epochs.NextEpoch() && status.processed == |chain(status.epochNumber)| ==>
              old(machine.epoch) < machine.epoch
    ensures !proceed ==> last.epochNumber == machine.epoch && machine.inputs == chain(machine.epoch)
                         && last.processed < |chain(machine.epoch)|
    decreases epochs.NextEpoch() - status.epochNumber
  {
    if status.epochNumber >= epochs.NextEpoch() {
      return true, status;
    }
    var e := epochs.GetEpoch(status.epochNumber);
    assert e.Some?;
    var inputs := e.value.inputs.inputs;
    if status.processed == |inputs| {
      assert status.pending == 0;
      machine.FinishEpoch(status.epochNumber, status.processed);
      var next := machine.GetCurrentEpochStatus();
      proceed, last := EnqueueInputsOfFinalizedEpochs(epochs, next, machine, chain, from);
      return;
    }
    var fed := EnqueueRemainingInputs(status, inputs, machine);
    assert fed.Sent?;
    return false, status;
  }

  // update_sealed_epoch: finishes the sealed epoch once the machine has processed all its inputs.
  method UpdateSealedEpoch(sealed: seq<Input>, status: EpochStatus, machine: Machine, ghost chain: Chain, ghost from: nat)
      returns (finished: bool)
    requires machine.Holds(chain, from) && machine.Read(status) && sealed == chain(machine.epoch)
    modifies machine
    ensures machine.Holds(chain, from)
    ensures finished <==> status.processed == |sealed|
    ensures machine.epoch == if finished then old(machine.epoch) + 1 else old(machine.epoch)
    ensures if finished then machine.inputs == [] && machine.processed == 0 else machine.inputs == sealed
    ensures finished ==> status.epochNumber == old(machine.epoch) && status.pending == 0
  {
    var fed := EnqueueRemainingInputs(status, sealed, machine);
    assert fed.Complete? || fed.Sent?;
    if !fed.Complete? {
      return false;
    }
    machine.FinishEpoch(status.epochNumber, status.processed);
    return true;
  }
}
