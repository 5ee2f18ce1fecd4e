/** The node's inputs of one epoch: from scratch, and one block at a time. */
module InputFold {
  import opened Events
  import opened NodeTypes

  // The conversion of an InputAdded event.
  function InputOf(e: Event): Input
    requires e.InputAdded?
  {
    Input(e.sender, e.timestamp, e.payload)
  }

  function InputsOf(log: seq<Entry>, epoch: nat): (r: seq<Input>)
    ensures |r| == |Query(log, Inputs(epoch))|
  {
    var q := Query(log, Inputs(epoch));
    QueryMatches(log, Inputs(epoch));
    seq(|q|, i requires 0 <= i < |q| => InputOf(q[i].event))
  }

  lemma InputsOfConcat(a: seq<Entry>, b: seq<Entry>, epoch: nat)
    ensures InputsOf(a + b, epoch) == InputsOf(a, epoch) + InputsOf(b, epoch)
  {
    QueryConcat(a, b, Inputs(epoch));
  }

  function InputSync(log: seq<Entry>, epoch: nat): EpochInputState {
    EpochInputState(epoch, InputsOf(log, epoch))
  }

  predicate InputHit(bloom: Bloom) {
    bloom(AddressKey(InputContract)) && bloom(SignatureKey(InputAddedSignature))
  }

  // A bloom that misses the contract or the event ends the work at once.
  function InputStep(previous: EpochInputState, bloom: Bloom, delta: seq<Entry>): EpochInputState {
    if !InputHit(bloom) then previous
    else previous.(inputs := previous.inputs + InputsOf(delta, previous.epochNumber))
  }

  // Whatever the bloom, folding a block is reading everything again unless the bloom hides an input.
  lemma InputStepExactly(log: seq<Entry>, epoch: nat, bloom: Bloom, delta: seq<Entry>)
    ensures InputStep(InputSync(log, epoch), bloom, delta) == InputSync(log + delta, epoch)
            <==> InputHit(bloom) || Query(delta, Inputs(epoch)) == []
  {
    InputsOfConcat(log, delta, epoch);
    assert |InputsOf(log + delta, epoch)| == |InputsOf(log, epoch)| + |Query(delta, Inputs(epoch))|;
  }

  // A bloom without false negatives hides none.
  lemma InputStepIsSync(log: seq<Entry>, epoch: nat, bloom: Bloom, delta: seq<Entry>)
    requires NoFalseNegatives(bloom, delta)
    ensures InputStep(InputSync(log, epoch), bloom, delta) == InputSync(log + delta, epoch)
  {
    InputStepExactly(log, epoch, bloom, delta);
    if !bloom(AddressKey(InputContract)) {
      MissMeansNone(bloom, delta, Inputs(epoch), AddressKey(InputContract));
    } else if !bloom(SignatureKey(InputAddedSignature)) {
      MissMeansNone(bloom, delta, Inputs(epoch), SignatureKey(InputAddedSignature));
    }
  }

  // The digests that the contract keeps are those of the inputs that the node keeps.
  lemma InputsHaveDigests(log: seq<Entry>, epoch: nat)
    ensures |Digests(log, epoch)| == |InputsOf(log, epoch)|
    ensures forall i :: 0 <= i < |InputsOf(log, epoch)| ==>
              var input := InputsOf(log, epoch)[i];
              Digests(log, epoch)[i] == Digest(input.sender, input.timestamp, input.payload)
  {
  }

  lemma SameDigestsSameInputs(a: seq<Entry>, b: seq<Entry>, epoch: nat)
    ensures Digests(a, epoch) == Digests(b, epoch) <==> InputsOf(a, epoch) == InputsOf(b, epoch)
  {
    InputsHaveDigests(a, epoch);
    InputsHaveDigests(b, epoch);
    if Digests(a, epoch) == Digests(b, epoch) {
      forall i | 0 <= i < |InputsOf(a, epoch)|
        ensures InputsOf(a, epoch)[i] == InputsOf(b, epoch)[i]
      {
        assert Digests(a, epoch)[i] == Digests(b, epoch)[i];
      }
    }
  }

  method PushInputs(before: seq<Input>, log: seq<Entry>, epoch: nat) returns (inputs: seq<Input>)
    ensures inputs == before + InputsOf(log, epoch)
  {
    var events := Query(log, Inputs(epoch));
    QueryMatches(log, Inputs(epoch));
    inputs := before;
    for i := 0 to |events|
      invariant inputs == before + InputsOf(log, epoch)[..i]
    {
      inputs := inputs + [InputOf(events[i].event)];
    }
  }

  method Sync(log: seq<Entry>, epoch: nat) returns (state: EpochInputState)
    ensures state == InputSync(log, epoch)
  {
    var inputs := PushInputs([], log, epoch);
    state := EpochInputState(epoch, inputs);
  }

  method Fold(previous: EpochInputState, bloom: Bloom, delta: seq<Entry>) returns (state: EpochInputState)
    ensures state == InputStep(previous, bloom, delta)
  {
    if !InputHit(bloom) {
      return previous;
    }
    var inputs := PushInputs(previous.inputs, delta, previous.epochNumber);
    state := EpochInputState(previous.epochNumber, inputs);
  }
}
