/** The event log that the contracts write and that the off-chain node reads. */
module Events {
  import opened Common

  datatype Phase = InputAccumulation | AwaitingConsensus | AwaitingDispute

  // Where an event was emitted: the block's number and its timestamp.
  datatype Moment = Moment(block: nat, time: uint256)

  datatype Event =
    | InputAdded(epoch: nat, sender: Address, timestamp: uint256, payload: Payload)
    | Claim(claimEpoch: nat, claimer: Address, claimHash: Hash)
    | PhaseChange(newPhase: Phase)
    | ResolveDispute(winner: Address, loser: Address, winningClaim: Hash)
    | FinalizeEpoch(finalEpoch: nat, finalHash: Hash)

  datatype Entry = Entry(at: Moment, event: Event)

  // keccak(keccak(sender, timestamp), keccak(payload)) as a free term: equal terms, equal digests.
  datatype Digest = Digest(sender: Address, timestamp: uint256, payload: Payload)

  // The event queries of the node; the epoch is the indexed topic of the event.
  datatype Filter = Inputs(epoch: nat) | Claims(epoch: nat) | PhaseChanges | Disputes | Finalizations

  predicate Matches(f: Filter, e: Event) {
    match f
    case Inputs(n) => e.InputAdded? && e.epoch == n
    case Claims(n) => e.Claim? && e.claimEpoch == n
    case PhaseChanges => e.PhaseChange?
    case Disputes => e.ResolveDispute?
    case Finalizations => e.FinalizeEpoch?
  }

  function Query(log: seq<Entry>, f: Filter): seq<Entry> {
    if log == [] then []
    else
      var rest := Query(log[..|log| - 1], f);
      var last := log[|log| - 1];
      if Matches(f, last.event) then rest + [last] else rest
  }

  lemma QueryMatches(log: seq<Entry>, f: Filter)
    ensures forall i :: 0 <= i < |Query(log, f)| ==> Matches(f, Query(log, f)[i].event) && Query(log, f)[i] in log
  {
  }

  lemma QueryEmit(log: seq<Entry>, e: Entry)
    ensures forall f :: Query(log + [e], f) == if Matches(f, e.event) then Query(log, f) + [e] else Query(log, f)
  {
    assert (log + [e])[..|log|] == log;
  }

  lemma {:induction false} QueryConcat(a: seq<Entry>, b: seq<Entry>, f: Filter)
    ensures Query(a + b, f) == Query(a, f) + Query(b, f)
  {
    if b == [] {
      assert a + b == a;
    } else {
      assert (a + b)[..|a + b| - 1] == a + b[..|b| - 1];
      QueryConcat(a, b[..|b| - 1], f);
    }
  }

  function DigestOf(e: Event): Digest
    requires e.InputAdded?
  {
    Digest(e.sender, e.timestamp, e.payload)
  }

  // The digests of the InputAdded events of one epoch, in order.
  function Digests(log: seq<Entry>, epoch: nat): (r: seq<Digest>)
    ensures |r| == |Query(log, Inputs(epoch))|
  {
    var q := Query(log, Inputs(epoch));
    QueryMatches(log, Inputs(epoch));
    seq(|q|, i requires 0 <= i < |q| => DigestOf(q[i].event))
  }

  lemma DigestsEmit(log: seq<Entry>, e: Entry)
    ensures forall n :: Digests(log + [e], n)
                     == if Matches(Inputs(n), e.event) then Digests(log, n) + [DigestOf(e.event)] else Digests(log, n)
  {
    QueryEmit(log, e);
  }

  // The hash of the first Claim event of an epoch, zero when there is none.
  function FirstClaim(log: seq<Entry>, epoch: nat): Hash {
    var q := Query(log, Claims(epoch));
    QueryMatches(log, Claims(epoch));
    if q == [] then ZERO_HASH else q[0].event.claimHash
  }

  // Who has claimed what in an epoch.
  function Votes(log: seq<Entry>, epoch: nat): set<(Address, Hash)> {
    if log == [] then {}
    else
      var rest := Votes(log[..|log| - 1], epoch);
      var last := log[|log| - 1].event;
      if Matches(Claims(epoch), last) then rest + {(last.claimer, last.claimHash)} else rest
  }

  lemma VotesEmit(log: seq<Entry>, e: Entry)
    ensures forall n :: Votes(log + [e], n)
                     == if Matches(Claims(n), e.event) then Votes(log, n) + {(e.event.claimer, e.event.claimHash)} else Votes(log, n)
  {
    assert (log + [e])[..|log|] == log;
  }

  // v has contradicted the first claim of some epoch.
  predicate Dissented(log: seq<Entry>, v: Address) {
    log != [] &&
    var prior, last := log[..|log| - 1], log[|log| - 1].event;
    || Dissented(prior, v)
    || (last.Claim? && last.claimer == v &&
        FirstClaim(prior, last.claimEpoch) !in {ZERO_HASH, last.claimHash})
  }

  lemma DissentedEmit(log: seq<Entry>, e: Entry)
    ensures forall v :: Dissented(log + [e], v) <==>
      || Dissented(log, v)
      || (e.event.Claim? && e.event.claimer == v &&
          FirstClaim(log, e.event.claimEpoch) !in {ZERO_HASH, e.event.claimHash})
  {
    assert (log + [e])[..|log|] == log;
  }

  // The moment the challenge period of the sealed epoch runs from: the claim that sealed the epoch
  // (it directly follows the phase change), or the last dispute; None when the epoch was sealed by
  // an input and has had no dispute.
  function Clock(log: seq<Entry>): Option<uint256> {
    if log == [] then None
    else
      var prior, last := log[..|log| - 1], log[|log| - 1];
      match last.event
      case FinalizeEpoch(_, _) => None
      case ResolveDispute(_, _, _) => Some(last.at.time)
      case Claim(_, _, _) =>
        if Clock(prior).None? && prior != [] && prior[|prior| - 1].event.PhaseChange?
        then Some(last.at.time) else Clock(prior)
      case _ => Clock(prior)
  }

  lemma ClockEmit(log: seq<Entry>, e: Entry)
    ensures Clock(log + [e]) ==
      match e.event
      case FinalizeEpoch(_, _) => None
      case ResolveDispute(_, _, _) => Some(e.at.time)
      case Claim(_, _, _) =>
        if Clock(log).None? && log != [] && log[|log| - 1].event.PhaseChange?
        then Some(e.at.time) else Clock(log)
      case _ => Clock(log)
  {
    assert (log + [e])[..|log|] == log;
  }

  // The time of the last dispute since the last finalization.
  function LastDispute(log: seq<Entry>): Option<uint256> {
    if log == [] then None
    else
      var last := log[|log| - 1];
      match last.event
      case FinalizeEpoch(_, _) => None
      case ResolveDispute(_, _, _) => Some(last.at.time)
      case _ => LastDispute(log[..|log| - 1])
  }

  lemma LastDisputeEmit(log: seq<Entry>, e: Entry)
    ensures LastDispute(log + [e]) ==
      match e.event
      case FinalizeEpoch(_, _) => None
      case ResolveDispute(_, _, _) => Some(e.at.time)
      case _ => LastDispute(log)
  {
    assert (log + [e])[..|log|] == log;
  }

  lemma {:induction false} DisputeSetsClock(log: seq<Entry>)
    ensures LastDispute(log).Some? ==> Clock(log) == LastDispute(log)
  {
    if log != [] {
      DisputeSetsClock(log[..|log| - 1]);
    }
  }
}
