/** The node's finalized epochs: from scratch, and one block at a time. */
module FinalizedFold {
  import opened Common
  import opened Events
  import opened NodeTypes
  import opened InputFold

  function FinalsOf(log: seq<Entry>): (r: seq<Entry>)
    ensures forall i :: 0 <= i < |r| ==> r[i].event.FinalizeEpoch?
  {
    QueryMatches(log, Finalizations);
    Query(log, Finalizations)
  }

  // What is stored for a FinalizeEpoch event: its inputs are read as they are now.
  function Described(log: seq<Entry>, e: Entry): FinalizedEpoch
    requires e.event.FinalizeEpoch?
  {
    FinalizedEpoch(e.event.finalEpoch, e.event.finalHash, InputSync(log, e.event.finalEpoch), e.at)
  }

  // The loop over the events. None is a failed assertion: an epoch that is not the next one; `skip`
  // passes over those that are already there.
  function InsertAll(store: FinalizedEpochs, events: seq<Entry>, log: seq<Entry>, skip: bool): Option<FinalizedEpochs>
    requires forall i :: 0 <= i < |events| ==> events[i].event.FinalizeEpoch?
  {
    if events == [] then Some(store)
    else
      var e := events[|events| - 1];
      match InsertAll(store, events[..|events| - 1], log, skip)
      case None => None
      case Some(s) => if skip && e.event.finalEpoch < s.NextEpoch() then Some(s) else s.InsertEpoch(Described(log, e))
  }

  function FinalizedSync(log: seq<Entry>, initial: nat): Option<FinalizedEpochs> {
    var finals, store := FinalsOf(log), FinalizedEpochs([], initial);
    if |finals| < initial then Some(store) else InsertAll(store, finals[initial..], log, false)
  }

  predicate FinalizedHit(bloom: Bloom, next: nat) {
    bloom(AddressKey(DescartesContract)) && bloom(TopicKey(next)) && bloom(SignatureKey(FinalizeEpochSignature))
  }

  // The log is that of the whole chain up to the block, whose own events are `delta`.
  function FinalizedStep(previous: FinalizedEpochs, bloom: Bloom, log: seq<Entry>, delta: seq<Entry>): Option<FinalizedEpochs> {
    if !FinalizedHit(bloom, previous.NextEpoch()) then Some(previous)
    else InsertAll(previous, FinalsOf(delta), log, true)
  }

  // Epochs are finalized in order, from `first` on.
  ghost predicate Gapless(events: seq<Entry>, first: nat) {
    forall i :: 0 <= i < |events| ==> events[i].event.FinalizeEpoch? && events[i].event.finalEpoch == first + i
  }

  function Descriptions(events: seq<Entry>, log: seq<Entry>): (r: seq<FinalizedEpoch>)
    requires forall i :: 0 <= i < |events| ==> events[i].event.FinalizeEpoch?
    ensures |r| == |events|
  {
    seq(|events|, i requires 0 <= i < |events| => Described(log, events[i]))
  }

  function Drop<T>(s: seq<T>, n: int): seq<T> {
    if n <= 0 then s else if n >= |s| then [] else s[n..]
  }

  // Every finalized epoch from the initial one on.
  function Window(log: seq<Entry>, initial: nat): FinalizedEpochs {
    FinalizedEpochs(Drop(Descriptions(FinalsOf(log), log), initial), initial)
  }

  // On a gapless log no assertion fails, whether old epochs are skipped or not.
  lemma {:induction false} InsertGapless(store: FinalizedEpochs, events: seq<Entry>, first: nat, log: seq<Entry>, skip: bool)
    requires Gapless(events, first)
    requires first <= store.NextEpoch() && (!skip ==> first == store.NextEpoch())
    ensures InsertAll(store, events, log, skip) ==
            Some(store.(epochs := store.epochs + Drop(Descriptions(events, log), store.NextEpoch() - first)))
  {
    hide InputSync, Query;
    var gap := store.NextEpoch() - first;
    if events == [] {
      assert store.epochs + [] == store.epochs;
    } else {
      var prior, e := events[..|events| - 1], events[|events| - 1];
      InsertGapless(store, prior, first, log, skip);
      var before := Drop(Descriptions(prior, log), gap);
      assert Descriptions(events, log) == Descriptions(prior, log) + [Described(log, e)];
      if gap < |events| {
        assert Drop(Descriptions(events, log), gap) == before + [Described(log, e)];
        assert store.epochs + (before + [Described(log, e)]) == store.epochs + before + [Described(log, e)];
      } else {
        assert before == [] && store.epochs + [] == store.epochs;
      }
    }
  }

  // From scratch: the assertions hold, and the store is the window.
  lemma SyncIsWindow(log: seq<Entry>, initial: nat)
    requires Gapless(FinalsOf(log), 0)
    ensures FinalizedSync(log, initial) == Some(Window(log, initial))
  {
    var finals := FinalsOf(log);
    if initial <= |finals| {
      InsertGapless(FinalizedEpochs([], initial), finals[initial..], initial, log, false);
      assert Descriptions(finals[initial..], log) == Drop(Descriptions(finals, log), initial);
      assert [] + Drop(Descriptions(finals, log), initial) == Drop(Descriptions(finals, log), initial);
    }
  }

  // The window is indexed by epoch number, and ends at the last finalized epoch.
  lemma WindowIsFaithful(log: seq<Entry>, initial: nat, index: nat)
    requires Gapless(FinalsOf(log), 0)
    ensures var store, n := Window(log, initial), |FinalsOf(log)|;
            && store.Indexed()
            && store.NextEpoch() == (if initial <= n then n else initial)
            && store.GetEpoch(index) == if initial <= index < n then Some(Described(log, FinalsOf(log)[index])) else None
  {
  }

  // What is needed of the block: its finalizations continue those of the log, and it has no input for
  // an epoch that is already finalized.
  ghost predicate Follows(log: seq<Entry>, delta: seq<Entry>) {
    && Gapless(FinalsOf(log + delta), 0)
    && forall e: nat :: e < |FinalsOf(log)| ==> Query(delta, Inputs(e)) == []
  }

  lemma FinalizedMiss(bloom: Bloom, delta: seq<Entry>, next: nat, k: nat)
    requires NoFalseNegatives(bloom, delta) && k < |FinalsOf(delta)| && FinalsOf(delta)[k].event.finalEpoch == next
    ensures FinalizedHit(bloom, next)
  {
    QueryMatches(delta, Finalizations);
    var e := FinalsOf(delta)[k];
    var i :| 0 <= i < |delta| && delta[i] == e;
    assert Keys(delta[i].event) == {AddressKey(DescartesContract), SignatureKey(FinalizeEpochSignature), TopicKey(next)};
    assert forall key :: key in Keys(delta[i].event) ==> bloom(key);
  }

  // What was known before the block is still true after it.
  lemma WindowStays(log: seq<Entry>, delta: seq<Entry>)
    requires Follows(log, delta)
    ensures FinalsOf(log + delta) == FinalsOf(log) + FinalsOf(delta)
    ensures Descriptions(FinalsOf(log), log + delta) == Descriptions(FinalsOf(log), log)
  {
    QueryConcat(log, delta, Finalizations);
    assert FinalsOf(log + delta) == FinalsOf(log) + FinalsOf(delta);
    forall k: nat | k < |FinalsOf(log)|
      ensures Described(log + delta, FinalsOf(log)[k]) == Described(log, FinalsOf(log)[k])
    {
      assert FinalsOf(log + delta)[k] == FinalsOf(log)[k];
      InputsOfConcat(log, delta, k);
      assert InputsOf(delta, k) == [];
    }
  }

  lemma WindowGrows(log: seq<Entry>, initial: nat, delta: seq<Entry>)
    requires Follows(log, delta)
    ensures Gapless(FinalsOf(log), 0) && Gapless(FinalsOf(delta), |FinalsOf(log)|)
    ensures var prev := Window(log, initial);
            && |FinalsOf(log)| <= prev.NextEpoch()
            && Window(log + delta, initial) ==
               prev.(epochs := prev.epochs
                 + Drop(Descriptions(FinalsOf(delta), log + delta), prev.NextEpoch() - |FinalsOf(log)|))
  {
    hide Query, Described;
    var a, d, all := FinalsOf(log), FinalsOf(delta), FinalsOf(log + delta);
    WindowStays(log, delta);
    assert forall k :: 0 <= k < |a| ==> a[k] == all[k];
    assert forall k :: 0 <= k < |d| ==> d[k] == all[|a| + k];
    var ours, more := Descriptions(a, log), Descriptions(d, log + delta);
    assert Descriptions(all, log + delta) == ours + more;
    DropSum(ours, more, initial);
  }

  lemma DropSum<T>(a: seq<T>, b: seq<T>, n: nat)
    ensures Drop(a + b, n) == Drop(a, n) + Drop(b, n + |Drop(a, n)| - |a|)
  {
    if n <= 0 {
      assert Drop(a, n) == a && Drop(b, n) == b;
    } else if n < |a| {
      assert Drop(a, n) == a[n..] && Drop(b, 0) == b;
      assert (a + b)[n..] == a[n..] + b;
    } else {
      assert Drop(a, n) == [];
      assert n < |a + b| ==> (a + b)[n..] == b[n - |a|..];
    }
  }

  // Whatever the bloom, folding a block is reading everything again unless the bloom hides an epoch that
  // belongs in the store.
  lemma FinalizedStepExactly(log: seq<Entry>, initial: nat, bloom: Bloom, delta: seq<Entry>)
    requires Follows(log, delta)
    ensures var next := Window(log, initial).NextEpoch();
            FinalizedStep(Window(log, initial), bloom, log + delta, delta) == FinalizedSync(log + delta, initial)
            <==> FinalizedHit(bloom, next) || |FinalsOf(log)| + |FinalsOf(delta)| <= next
  {
    hide Query, Described, FinalsOf;
    var first, d, prev := |FinalsOf(log)|, FinalsOf(delta), Window(log, initial);
    WindowGrows(log, initial, delta);
    SyncIsWindow(log + delta, initial);
    InsertGapless(prev, d, first, log + delta, true);
    assert prev.epochs + [] == prev.epochs;
  }

  // A bloom without false negatives hides none.
  lemma FinalizedStepIsSync(log: seq<Entry>, initial: nat, bloom: Bloom, delta: seq<Entry>)
    requires NoFalseNegatives(bloom, delta) && Follows(log, delta)
    ensures FinalizedStep(Window(log, initial), bloom, log + delta, delta) == FinalizedSync(log + delta, initial)
  {
    hide Query, Described, FinalizedStep, FinalizedSync;
    var next := Window(log, initial).NextEpoch();
    FinalizedStepExactly(log, initial, bloom, delta);
    WindowGrows(log, initial, delta);
    if !FinalizedHit(bloom, next) && next - |FinalsOf(log)| < |FinalsOf(delta)| {
      FinalizedMiss(bloom, delta, next, next - |FinalsOf(log)|);
    }
  }

  // The loops as they are written; `failed` is a failed assertion.

  method InsertEvents(store: EpochStore, events: seq<Entry>, log: seq<Entry>, skip: bool) returns (failed: bool)
    requires forall i :: 0 <= i < |events| ==> events[i].event.FinalizeEpoch?
    modifies store
    ensures failed <==> InsertAll(old(store.epochs), events, log, skip).None?
    ensures !failed ==> Some(store.epochs) == InsertAll(old(store.epochs), events, log, skip)
  {
    var i := 0;
    while i < |events|
      invariant 0 <= i <= |events|
      invariant Some(store.epochs) == InsertAll(old(store.epochs), events[..i], log, skip)
    {
      var e := events[i];
      assert events[..i + 1][..i] == events[..i];
      if !(skip && e.event.finalEpoch < store.epochs.NextEpoch()) {
        var inputs := InputFold.Sync(log, e.event.finalEpoch);
        var inserted := store.InsertEpoch(FinalizedEpoch(e.event.finalEpoch, e.event.finalHash, inputs, e.at));
        if !inserted {
          InsertStaysNone(old(store.epochs), events, i + 1, log, skip);
          return true;
        }
      }
      i := i + 1;
    }
    assert events[..i] == events;
    return false;
  }

  lemma {:induction false} InsertStaysNone(store: FinalizedEpochs, events: seq<Entry>, i: nat, log: seq<Entry>, skip: bool)
    requires forall k :: 0 <= k < |events| ==> events[k].event.FinalizeEpoch?
    requires i <= |events| && InsertAll(store, events[..i], log, skip).None?
    ensures InsertAll(store, events, log, skip).None?
  {
    if i < |events| {
      var prior := events[..|events| - 1];
      assert prior[..i] == events[..i];
      InsertStaysNone(store, prior, i, log, skip);
    } else {
      assert events[..i] == events;
    }
  }

  method Sync(log: seq<Entry>, initial: nat) returns (r: Option<FinalizedEpochs>)
    ensures r == FinalizedSync(log, initial)
  {
    var events := FinalsOf(log);
    var store := new EpochStore(FinalizedEpochs([], initial));
    if |events| < initial {
      return Some(store.epochs);
    }
    var failed := InsertEvents(store, events[initial..], log, false);
    return if failed then None else Some(store.epochs);
  }

  method Fold(previous: FinalizedEpochs, bloom: Bloom, log: seq<Entry>, delta: seq<Entry>) returns (r: Option<FinalizedEpochs>)
    ensures r == FinalizedStep(previous, bloom, log, delta)
  {
    if !FinalizedHit(bloom, previous.NextEpoch()) {
      return Some(previous);
    }
    var store := new EpochStore(previous);
    var failed := InsertEvents(store, FinalsOf(delta), log, true);
    return if failed then None else Some(store.epochs);
  }
}
