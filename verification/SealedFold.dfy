/** The node's sealed epoch, with its claims: from scratch, and one block at a time. */
module SealedFold {
  import opened Common
  import opened Events
  import opened NodeTypes
  import opened InputFold

  datatype SealedEpochState =
    | SealedEpochNoClaims(sealedEpoch: AccumulatingEpoch)
    | SealedEpochWithClaims(claimedEpoch: EpochWithClaims)
  {
    function EpochNumber(): nat {
      match this
      case SealedEpochNoClaims(e) => e.epochNumber
      case SealedEpochWithClaims(e) => e.epochNumber
    }

    function GetClaims(): Option<EpochClaims> {
      match this
      case SealedEpochNoClaims(_) => None
      case SealedEpochWithClaims(e) => Some(e.claims)
    }

    function GetInputs(): EpochInputState {
      match this
      case SealedEpochNoClaims(e) => e.inputs
      case SealedEpochWithClaims(e) => e.inputs
    }
  }

  function Sealed(epoch: nat, inputs: EpochInputState, claims: Option<EpochClaims>): SealedEpochState {
    match claims
    case None => SealedEpochNoClaims(AccumulatingEpoch(epoch, inputs))
    case Some(c) => SealedEpochWithClaims(EpochWithClaims(epoch, c, inputs))
  }

  // The claims after some Claim events; only the first one ever needs the time of its block.
  function AddClaims(claims: Option<EpochClaims>, events: seq<Entry>): Option<EpochClaims>
    requires forall i :: 0 <= i < |events| ==> events[i].event.Claim?
  {
    if events == [] then claims
    else
      var last := events[|events| - 1];
      match AddClaims(claims, events[..|events| - 1])
      case None => Some(NewClaims(last.event.claimHash, last.event.claimer, last.at.time))
      case Some(c) => Some(c.UpdateWithNewClaim(last.event.claimHash, last.event.claimer))
  }

  lemma {:induction false} AddClaimsConcat(claims: Option<EpochClaims>, a: seq<Entry>, b: seq<Entry>)
    requires forall i :: 0 <= i < |a| ==> a[i].event.Claim?
    requires forall i :: 0 <= i < |b| ==> b[i].event.Claim?
    ensures AddClaims(claims, a + b) == AddClaims(AddClaims(claims, a), b)
  {
    if b == [] {
      assert a + b == a;
    } else {
      assert (a + b)[..|a + b| - 1] == a + b[..|b| - 1];
      AddClaimsConcat(claims, a, b[..|b| - 1]);
    }
  }

  function ClaimsOf(log: seq<Entry>, epoch: nat): (r: seq<Entry>)
    ensures forall i :: 0 <= i < |r| ==> r[i].event.Claim?
  {
    QueryMatches(log, Claims(epoch));
    Query(log, Claims(epoch))
  }

  function SealedSync(log: seq<Entry>, epoch: nat): SealedEpochState {
    Sealed(epoch, InputSync(log, epoch), AddClaims(None, ClaimsOf(log, epoch)))
  }

  predicate SealedHit(bloom: Bloom, epoch: nat) {
    bloom(AddressKey(DescartesContract)) && bloom(TopicKey(epoch)) && bloom(SignatureKey(ClaimSignature))
  }

  // The inputs are taken over as they were: a sealed epoch receives no more.
  function SealedStep(previous: SealedEpochState, bloom: Bloom, delta: seq<Entry>): SealedEpochState {
    var epoch := previous.EpochNumber();
    if !SealedHit(bloom, epoch) || ClaimsOf(delta, epoch) == [] then previous
    else Sealed(epoch, previous.GetInputs(), AddClaims(previous.GetClaims(), ClaimsOf(delta, epoch)))
  }

  lemma SealedMiss(bloom: Bloom, delta: seq<Entry>, epoch: nat)
    requires NoFalseNegatives(bloom, delta) && !SealedHit(bloom, epoch)
    ensures ClaimsOf(delta, epoch) == []
  {
    if !bloom(AddressKey(DescartesContract)) {
      MissMeansNone(bloom, delta, Claims(epoch), AddressKey(DescartesContract));
    } else if !bloom(TopicKey(epoch)) {
      MissMeansNone(bloom, delta, Claims(epoch), TopicKey(epoch));
    } else {
      MissMeansNone(bloom, delta, Claims(epoch), SignatureKey(ClaimSignature));
    }
  }

  // Whatever inputs it has, a step brings the claims up to date and leaves the inputs alone.
  lemma SealedStepAddsClaims(log: seq<Entry>, epoch: nat, inputs: EpochInputState, bloom: Bloom, delta: seq<Entry>)
    requires NoFalseNegatives(bloom, delta)
    ensures SealedStep(Sealed(epoch, inputs, AddClaims(None, ClaimsOf(log, epoch))), bloom, delta)
         == Sealed(epoch, inputs, AddClaims(None, ClaimsOf(log + delta, epoch)))
  {
    QueryConcat(log, delta, Claims(epoch));
    AddClaimsConcat(None, ClaimsOf(log, epoch), ClaimsOf(delta, epoch));
    if !SealedHit(bloom, epoch) {
      SealedMiss(bloom, delta, epoch);
    }
  }

  // Folding agrees with reading everything again exactly when the block has no input for the epoch.
  lemma SealedStepIsSync(log: seq<Entry>, epoch: nat, bloom: Bloom, delta: seq<Entry>)
    requires NoFalseNegatives(bloom, delta)
    ensures SealedStep(SealedSync(log, epoch), bloom, delta) == SealedSync(log + delta, epoch)
            <==> Query(delta, Inputs(epoch)) == []
  {
    SealedStepAddsClaims(log, epoch, InputSync(log, epoch), bloom, delta);
    InputsOfConcat(log, delta, epoch);
    assert |InputsOf(log + delta, epoch)| == |InputsOf(log, epoch)| + |Query(delta, Inputs(epoch))|;
  }

  // What the table of claims says: who claimed what, and when the first claim came.

  function SenderOf(claims: Option<EpochClaims>, h: Hash): set<Address> {
    match claims
    case None => {}
    case Some(c) => c.GetSendersWithClaim(h)
  }

  lemma {:induction false} AddClaimsIsVotes(log: seq<Entry>, epoch: nat)
    ensures var claims := AddClaims(None, ClaimsOf(log, epoch));
            && (forall h: Hash, v: Address :: v in SenderOf(claims, h) <==> (v, h) in Votes(log, epoch))
            && (claims.None? <==> ClaimsOf(log, epoch) == [])
            && (claims.Some? ==> claims.value.firstClaimTimestamp == ClaimsOf(log, epoch)[0].at.time)
  {
    if log != [] {
      AddClaimsIsVotes(log[..|log| - 1], epoch);
    }
  }

  method InsertClaims(previous: Option<EpochClaims>, events: seq<Entry>) returns (claims: Option<EpochClaims>)
    requires forall i :: 0 <= i < |events| ==> events[i].event.Claim?
    ensures claims == AddClaims(previous, events)
  {
    claims := previous;
    var i := 0;
    while i < |events|
      invariant 0 <= i <= |events| && claims == AddClaims(previous, events[..i])
    {
      var e := events[i];
      if claims.None? {
        claims := Some(NewClaims(e.event.claimHash, e.event.claimer, e.at.time));
      } else {
        var book := new ClaimBook.From(claims.value);
        book.InsertClaim(e.event.claimHash, e.event.claimer);
        claims := Some(book.claims);
      }
      assert events[..i + 1][..i] == events[..i];
      i := i + 1;
    }
    assert events[..i] == events;
  }

  method Sync(log: seq<Entry>, epoch: nat) returns (state: SealedEpochState)
    ensures state == SealedSync(log, epoch)
  {
    var inputs := InputFold.Sync(log, epoch);
    var events := ClaimsOf(log, epoch);
    if events == [] {
      return SealedEpochNoClaims(AccumulatingEpoch(epoch, inputs));
    }
    var claims := InsertClaims(None, events);
    return SealedEpochWithClaims(EpochWithClaims(epoch, claims.value, inputs));
  }

  method Fold(previous: SealedEpochState, bloom: Bloom, delta: seq<Entry>) returns (state: SealedEpochState)
    ensures state == SealedStep(previous, bloom, delta)
    ensures !SealedHit(bloom, previous.EpochNumber()) ==> state == previous
  {
    var epoch := previous.EpochNumber();
    if !SealedHit(bloom, epoch) {
      return previous;
    }
    var events := ClaimsOf(delta, epoch);
    if events == [] {
      return previous;
    }
    var claims := InsertClaims(previous.GetClaims(), events);
    return SealedEpochWithClaims(EpochWithClaims(epoch, claims.value, previous.GetInputs()));
  }
}
