/** The node's view of the chain: the structures of fold/types.rs. */
module NodeTypes {
  import opened Common
  import opened Events

  datatype Input = Input(sender: Address, timestamp: uint256, payload: Payload)

  datatype EpochInputState = EpochInputState(epochNumber: nat, inputs: seq<Input>)

  datatype AccumulatingEpoch = AccumulatingEpoch(epochNumber: nat, inputs: EpochInputState)

  function NewAccumulatingEpoch(epochNumber: nat): AccumulatingEpoch {
    AccumulatingEpoch(epochNumber, EpochInputState(epochNumber, []))
  }

  datatype EpochClaims = EpochClaims(claims: map<Hash, set<Address>>, firstClaimTimestamp: uint256) {
    function GetSendersWithClaim(claim: Hash): set<Address> {
      if claim in claims then claims[claim] else {}
    }

    // update_with_new_claim
    function UpdateWithNewClaim(claim: Hash, sender: Address): (r: EpochClaims)
      ensures r.firstClaimTimestamp == firstClaimTimestamp
      ensures forall h :: r.GetSendersWithClaim(h) == GetSendersWithClaim(h) + if h == claim then {sender} else {}
    {
      this.(claims := claims[claim := GetSendersWithClaim(claim) + {sender}])
    }
  }

  function NewClaims(claim: Hash, sender: Address, timestamp: uint256): EpochClaims {
    EpochClaims(map[claim := {sender}], timestamp)
  }

  // get_sender_claim: the table is searched in no particular order.
  method GetSenderClaim(claims: EpochClaims, sender: Address) returns (r: Option<Hash>)
    ensures r.Some? ==> sender in claims.GetSendersWithClaim(r.value)
    ensures r.None? ==> forall h :: sender !in claims.GetSendersWithClaim(h)
  {
    var left := claims.claims.Keys;
    while left != {}
      invariant left <= claims.claims.Keys
      invariant forall h :: h in claims.claims.Keys - left ==> sender !in claims.claims[h]
      decreases left
    {
      var h :| h in left;
      if sender in claims.claims[h] {
        return Some(h);
      }
      left := left - {h};
    }
    return None;
  }

  datatype EpochWithClaims = EpochWithClaims(epochNumber: nat, claims: EpochClaims, inputs: EpochInputState)

  // `finalized` is the number (and time) of the block in which the epoch was finalized.
  datatype FinalizedEpoch = FinalizedEpoch(epochNumber: nat, hash: Hash, inputs: EpochInputState, finalized: Moment)

  datatype FinalizedEpochs = FinalizedEpochs(epochs: seq<FinalizedEpoch>, initialEpoch: nat) {
    function NextEpoch(): nat {
      initialEpoch + |epochs|
    }

    function GetEpoch(index: nat): Option<FinalizedEpoch> {
      if initialEpoch <= index < NextEpoch() then Some(epochs[index - initialEpoch]) else None
    }

    // insert_epoch; None when it answers false.
    function InsertEpoch(e: FinalizedEpoch): Option<FinalizedEpochs> {
      if e.epochNumber == NextEpoch() then Some(this.(epochs := epochs + [e])) else None
    }

    // Every epoch is stored under its own number, with inputs that carry it too.
    ghost predicate Indexed() {
      forall k :: 0 <= k < |epochs| ==>
        epochs[k].epochNumber == initialEpoch + k && epochs[k].inputs.epochNumber == initialEpoch + k
    }

    lemma GetIsTheWindow(index: nat)
      requires Indexed()
      ensures GetEpoch(index).Some? <==> initialEpoch <= index < NextEpoch()
      ensures GetEpoch(index).Some? ==> GetEpoch(index).value.epochNumber == index
    {
      assert GetEpoch(index).Some? ==> epochs[index - initialEpoch].epochNumber == index;
    }
  }

  datatype PhaseState =
    | AccumulatingInputs
    | EpochSealedAwaitingFirstClaim(sealedEpoch: AccumulatingEpoch)
    | AwaitingConsensusNoConflict(claimedEpoch: EpochWithClaims)
    | AwaitingConsensusAfterConflict(claimedEpoch: EpochWithClaims, challengePeriodBase: uint256)
    | ConsensusTimeout(claimedEpoch: EpochWithClaims)

  datatype ImmutableState = ImmutableState(inputDuration: uint256, challengePeriod: uint256, creation: uint256)

  datatype DescartesV2State = DescartesV2State(
    constants: ImmutableState,
    initialEpoch: nat,
    finalizedEpochs: FinalizedEpochs,
    currentEpoch: AccumulatingEpoch,
    currentPhase: PhaseState)

  // The structures that are updated in place.

  class ClaimBook {
    var claims: EpochClaims

    constructor (claim: Hash, sender: Address, timestamp: uint256)
      ensures claims == NewClaims(claim, sender, timestamp)
    {
      claims := NewClaims(claim, sender, timestamp);
    }

    constructor From(claims: EpochClaims)
      ensures this.claims == claims
    {
      this.claims := claims;
    }

    method InsertClaim(claim: Hash, sender: Address)
      modifies this
      ensures claims == old(claims).UpdateWithNewClaim(claim, sender)
    {
      var senders := if claim in claims.claims then claims.claims[claim] else {};
      claims := claims.(claims := claims.claims[claim := senders + {sender}]);
    }
  }

  class EpochStore {
    var epochs: FinalizedEpochs

    constructor (epochs: FinalizedEpochs)
      ensures this.epochs == epochs
    {
      this.epochs := epochs;
    }

    method InsertEpoch(e: FinalizedEpoch) returns (inserted: bool)
      modifies this
      ensures inserted <==> old(epochs).InsertEpoch(e).Some?
      ensures epochs == if inserted then old(epochs).InsertEpoch(e).value else old(epochs)
    {
      if e.epochNumber != epochs.NextEpoch() {
        return false;
      }
      epochs := epochs.(epochs := epochs.epochs + [e]);
      return true;
    }
  }

  // The logs bloom of a block, as the test the node makes of it: a key that is not found is surely absent.

  datatype Source = DescartesContract | InputContract
  datatype Signature = InputAddedSignature | ClaimSignature | PhaseChangeSignature | ResolveDisputeSignature | FinalizeEpochSignature
  datatype BloomKey = AddressKey(source: Source) | SignatureKey(signature: Signature) | TopicKey(topic: nat)

  type Bloom = BloomKey -> bool

  // The keys that an event enters in the bloom: its contract, its signature and its indexed epoch.
  function Keys(e: Event): set<BloomKey> {
    match e
    case InputAdded(n, _, _, _) => {AddressKey(InputContract), SignatureKey(InputAddedSignature), TopicKey(n)}
    case Claim(n, _, _) => {AddressKey(DescartesContract), SignatureKey(ClaimSignature), TopicKey(n)}
    case PhaseChange(_) => {AddressKey(DescartesContract), SignatureKey(PhaseChangeSignature)}
    case ResolveDispute(_, _, _) => {AddressKey(DescartesContract), SignatureKey(ResolveDisputeSignature)}
    case FinalizeEpoch(n, _) => {AddressKey(DescartesContract), SignatureKey(FinalizeEpochSignature), TopicKey(n)}
  }

  ghost predicate NoFalseNegatives(bloom: Bloom, delta: seq<Entry>) {
    forall i, k :: 0 <= i < |delta| && k in Keys(delta[i].event) ==> bloom(k)
  }

  // When the bloom misses a key of every event that a filter selects, the block has none of them.
  lemma {:induction false} MissMeansNone(bloom: Bloom, delta: seq<Entry>, f: Filter, k: BloomKey)
    requires NoFalseNegatives(bloom, delta) && !bloom(k)
    requires forall e: Event :: Matches(f, e) ==> k in Keys(e)
    ensures Query(delta, f) == []
  {
    if delta != [] {
      var prior := delta[..|delta| - 1];
      assert forall i :: 0 <= i < |prior| ==> prior[i] == delta[i];
      MissMeansNone(bloom, prior, f, k);
    }
  }
}
