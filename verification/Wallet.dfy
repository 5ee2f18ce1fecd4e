/** The mock wallet over whole runs: deposits through the portal, inputs sent directly, new epochs. */
module Wallet {
  import opened Common
  import opened Ledger

  const BOX_SIZE := 10
  const INPUT_LIMIT := 512

  // What the bytes of an input decode to, as an ether input and as a token input; None does not decode.
  datatype Body = Body(operation: Operation, transaction: Transaction, receivers: seq<Address>, amounts: seq<uint256>, erc20: Address)
  datatype Request = Request(size: nat, asEther: Option<Body>, asToken: Option<Body>)

  datatype WalletState = WalletState(box: seq<Blob>, balances: Balances)

  const EMPTY := WalletState([], Balances(map[], map[]))

  // The blob of an input: the operation asked for chooses the decoding, not the blob's own operation.
  function Unpack(sender: Address, op: nat, r: Request): Option<Blob> {
    var body := if op == 0 then r.asEther else if op == 1 then r.asToken else None;
    match body
    case None => None
    case Some(b) =>
      Some(Blob(b.operation, b.transaction, b.receivers, b.amounts, if op == 0 then ZERO_ADDRESS else b.erc20, sender))
  }

  // addInput: the input that fills the box has the whole box processed; then the box takes no more.
  function AddInput(w: WalletState, portal: Address, sender: Address, op: nat, r: Request): Option<WalletState> {
    if !(0 < r.size <= INPUT_LIMIT) || |w.box| + 1 > BOX_SIZE then None
    else
      match Unpack(sender, op, r)
      case None => None
      case Some(blob) =>
        var box := w.box + [blob];
        if |box| != BOX_SIZE then Some(w.(box := box))
        else
          match Batch(w.balances, box, portal)
          case None => None
          case Some(balances) => Some(WalletState(box, balances))
  }

  function Words(n: nat): nat {
    (n + 31) / 32
  }

  // The ABI encoding of a deposit: two enums, the token, three offsets, three lengths and the contents.
  function DepositRequest(asset: Asset, receivers: seq<Address>, amounts: seq<uint256>, dataSize: nat): Request {
    var head := if asset.Ether? then 5 else 6;
    var size := 32 * (head + 1 + |receivers| + 1 + |amounts| + 1 + Words(dataSize));
    match asset
    case Ether => Request(size, Some(Body(EtherOp, Deposit, receivers, amounts, ZERO_ADDRESS)), None)
    case Token(t) => Request(size, None, Some(Body(ERC20Op, Deposit, receivers, amounts, t)))
  }

  function CheckedSum(amounts: seq<uint256>, n: nat): (r: Option<uint256>)
    requires n <= |amounts|
    ensures r.Some? <==> Sum(amounts[..n]) <= UINT256_MAX
    ensures r.Some? ==> r.value == Sum(amounts[..n])
  {
    if n == 0 then Some(0)
    else
      assert amounts[..n][..n - 1] == amounts[..n - 1];
      match CheckedSum(amounts, n - 1)
      case None => None
      case Some(sum) => CheckedAdd(sum, amounts[n - 1])
  }

  // What is sent to the two contracts. `value` is the ether sent along; `pulled` is the answer of the
  // token's transferFrom, and `nested` the calls that the token makes before it answers.
  datatype Call =
    | EtherDeposit(value: uint256, receivers: seq<Address>, amounts: seq<uint256>, dataSize: nat)
    | Erc20Deposit(token: Address, receivers: seq<Address>, amounts: seq<uint256>, dataSize: nat, nested: seq<Call>, pulled: bool)
    | DirectInput(sender: Address, op: nat, request: Request)
    | NewEpoch

  // What an accepted call does to the box, one deed at a time: nested deeds come first.
  datatype Deed = Push(blob: Blob) | Clear

  datatype Done = Done(state: WalletState, deeds: seq<Deed>)

  function Submit(w: WalletState, portal: Address, sender: Address, op: nat, r: Request): Option<Done> {
    match AddInput(w, portal, sender, op, r)
    case None => None
    case Some(w') => Some(Done(w', [Push(Unpack(sender, op, r).value)]))
  }

  function SendDeposit(w: WalletState, portal: Address, asset: Asset, c: Call): Option<Done>
    requires c.EtherDeposit? || c.Erc20Deposit?
  {
    Submit(w, portal, portal, if asset.Ether? then 0 else 1, DepositRequest(asset, c.receivers, c.amounts, c.dataSize))
  }

  // None when the call reverts; `locked` is the lock of the portal, which it holds while a token answers.
  function Perform(w: WalletState, portal: Address, c: Call, locked: bool): Option<Done>
    decreases c, 0
  {
    match c
    case EtherDeposit(value, receivers, amounts, _) =>
      (var total := CheckedSum(amounts, |amounts|);
       if locked || |receivers| != |amounts| || total.None? || value < total.value then None
       else SendDeposit(w, portal, Ether, c))
    case Erc20Deposit(token, receivers, amounts, _, nested, pulled) =>
      if locked || |receivers| != |amounts| || CheckedSum(amounts, |amounts|).None? then None
      else
        (var inner := PerformAll(w, portal, nested, true);
         if !pulled then None
         else
           match SendDeposit(inner.state, portal, Token(token), c)
           case None => None
           case Some(d) => Some(Done(d.state, inner.deeds + d.deeds)))
    case DirectInput(sender, op, request) => Submit(w, portal, sender, op, request)
    case NewEpoch => Some(Done(w.(box := []), [Clear]))
  }

  // One call after the other; one that reverts leaves everything as it was.
  function PerformAll(w: WalletState, portal: Address, calls: seq<Call>, locked: bool): Done
    decreases calls
  {
    if calls == [] then Done(w, [])
    else
      var prior := PerformAll(w, portal, calls[..|calls| - 1], locked);
      match Perform(prior.state, portal, calls[|calls| - 1], locked)
      case None => prior
      case Some(d) => Done(d.state, prior.deeds + d.deeds)
  }

  function Play(portal: Address, calls: seq<Call>): WalletState {
    PerformAll(EMPTY, portal, calls, false).state
  }

  function Deeds(portal: Address, calls: seq<Call>): seq<Deed> {
    PerformAll(EMPTY, portal, calls, false).deeds
  }

  predicate Accepted(portal: Address, calls: seq<Call>)
    requires calls != []
  {
    Perform(Play(portal, calls[..|calls| - 1]), portal, calls[|calls| - 1], false).Some?
  }

  // Nobody else acts as the portal, which itself sends nothing but deposits.
  ghost predicate Honest(portal: Address, calls: seq<Call>)
    decreases calls
  {
    forall c :: c in calls ==>
      match c
      case DirectInput(sender, _, _) => sender != portal
      case Erc20Deposit(_, _, _, _, nested, _) => Honest(portal, nested)
      case _ => true
  }

  // The boxes that have been cleared, the one that is filling, and every blob in order.

  function Closed(deeds: seq<Deed>): seq<seq<Blob>> {
    if deeds == [] then []
    else
      var prior := deeds[..|deeds| - 1];
      if deeds[|deeds| - 1].Clear? then Closed(prior) + [Open(prior)] else Closed(prior)
  }

  function Open(deeds: seq<Deed>): seq<Blob> {
    if deeds == [] || deeds[|deeds| - 1].Clear? then [] else Open(deeds[..|deeds| - 1]) + [deeds[|deeds| - 1].blob]
  }

  function Blobs(deeds: seq<Deed>): seq<Blob> {
    if deeds == [] then []
    else
      var prior := Blobs(deeds[..|deeds| - 1]);
      if deeds[|deeds| - 1].Clear? then prior else prior + [deeds[|deeds| - 1].blob]
  }

  function Flatten(boxes: seq<seq<Blob>>): seq<Blob> {
    if boxes == [] then [] else Flatten(boxes[..|boxes| - 1]) + boxes[|boxes| - 1]
  }

  // The balances after some boxes: those that were filled have been processed, once each, in order.
  function Replay(boxes: seq<seq<Blob>>, portal: Address): Option<Balances> {
    if boxes == [] then Some(EMPTY.balances)
    else
      match Replay(boxes[..|boxes| - 1], portal)
      case None => None
      case Some(l) => if |boxes[|boxes| - 1]| == BOX_SIZE then Batch(l, boxes[|boxes| - 1], portal) else Some(l)
  }

  lemma Snoc<T>(s: seq<T>, x: T)
    ensures (s + [x])[..|s + [x]| - 1] == s && (s + [x])[|s + [x]| - 1] == x
  {
  }

  // The state is what the deeds so far make of it.
  ghost predicate Follows(w: WalletState, deeds: seq<Deed>, portal: Address) {
    && w.box == Open(deeds)
    && |w.box| <= BOX_SIZE
    && (forall k :: 0 <= k < |Closed(deeds)| ==> |Closed(deeds)[k]| <= BOX_SIZE)
    && Replay(Closed(deeds) + [w.box], portal) == Some(w.balances)
  }

  lemma PushFollows(w: WalletState, deeds: seq<Deed>, portal: Address, sender: Address, op: nat, r: Request)
    requires Follows(w, deeds, portal) && Submit(w, portal, sender, op, r).Some?
    ensures var d := Submit(w, portal, sender, op, r).value;
            Follows(d.state, deeds + d.deeds, portal)
  {
    hide Submit, Batch;
    var d := Submit(w, portal, sender, op, r).value;
    SubmitPushes(w, portal, sender, op, r);
    Snoc(deeds, d.deeds[0]);
    Snoc(Closed(deeds), w.box);
    Snoc(Closed(deeds), d.state.box);
  }

  lemma SubmitPushes(w: WalletState, portal: Address, sender: Address, op: nat, r: Request)
    requires Submit(w, portal, sender, op, r).Some?
    ensures var d := Submit(w, portal, sender, op, r).value;
            && |d.deeds| == 1 && d.deeds == [d.deeds[0]] && d.deeds[0].Push?
            && d.state.box == w.box + [d.deeds[0].blob] && |d.state.box| <= BOX_SIZE
            && (if |d.state.box| == BOX_SIZE then Batch(w.balances, d.state.box, portal) == Some(d.state.balances)
                else d.state.balances == w.balances)
  {
    hide Batch;
  }

  lemma ClearFollows(w: WalletState, deeds: seq<Deed>, portal: Address)
    requires Follows(w, deeds, portal)
    ensures Follows(w.(box := []), deeds + [Clear], portal)
  {
    hide Batch;
    Snoc(deeds, Clear);
    Snoc(Closed(deeds) + [w.box], []);
  }

  lemma {:induction false} CallFollows(w: WalletState, deeds: seq<Deed>, portal: Address, c: Call, locked: bool)
    requires Follows(w, deeds, portal) && Perform(w, portal, c, locked).Some?
    ensures var d := Perform(w, portal, c, locked).value; Follows(d.state, deeds + d.deeds, portal)
    decreases c, 0
  {
    hide Follows, Submit, CheckedSum;
    match c
    case EtherDeposit(_, receivers, amounts, size) =>
      PushFollows(w, deeds, portal, portal, 0, DepositRequest(Ether, receivers, amounts, size));
    case Erc20Deposit(token, receivers, amounts, size, nested, _) =>
      var inner := PerformAll(w, portal, nested, true);
      AllFollow(w, deeds, portal, nested, true);
      PushFollows(inner.state, deeds + inner.deeds, portal, portal, 1, DepositRequest(Token(token), receivers, amounts, size));
      var own := SendDeposit(inner.state, portal, Token(token), c).value.deeds;
      assert deeds + inner.deeds + own == deeds + (inner.deeds + own);
    case DirectInput(sender, op, request) =>
      PushFollows(w, deeds, portal, sender, op, request);
    case NewEpoch =>
      ClearFollows(w, deeds, portal);
  }

  lemma {:induction false} AllFollow(w: WalletState, deeds: seq<Deed>, portal: Address, calls: seq<Call>, locked: bool)
    requires Follows(w, deeds, portal)
    ensures var d := PerformAll(w, portal, calls, locked); Follows(d.state, deeds + d.deeds, portal)
    decreases calls
  {
    hide Follows, Perform;
    if calls == [] {
      assert deeds + [] == deeds;
    } else {
      var prior := PerformAll(w, portal, calls[..|calls| - 1], locked);
      AllFollow(w, deeds, portal, calls[..|calls| - 1], locked);
      var last := Perform(prior.state, portal, calls[|calls| - 1], locked);
      if last.Some? {
        CallFollows(prior.state, deeds + prior.deeds, portal, calls[|calls| - 1], locked);
        assert deeds + prior.deeds + last.value.deeds == deeds + (prior.deeds + last.value.deeds);
      }
    }
  }

  lemma {:induction false} BoxesHoldBlobs(deeds: seq<Deed>)
    ensures Flatten(Closed(deeds)) + Open(deeds) == Blobs(deeds)
  {
    if deeds != [] {
      var prior, last := deeds[..|deeds| - 1], deeds[|deeds| - 1];
      BoxesHoldBlobs(prior);
      if last.Clear? {
        Snoc(Closed(prior), Open(prior));
        assert Flatten(Closed(deeds)) + [] == Flatten(Closed(deeds));
      } else {
        assert Flatten(Closed(prior)) + (Open(prior) + [last.blob]) == Flatten(Closed(prior)) + Open(prior) + [last.blob];
      }
    }
  }

  // Every accepted blob sits in exactly one box, and is applied exactly once if its box was filled, not
  // at all otherwise; blobs that a token slips in while it is asked are no exception.
  lemma AppliedOnce(portal: Address, calls: seq<Call>)
    ensures var w, deeds := Play(portal, calls), Deeds(portal, calls);
            && |w.box| <= BOX_SIZE
            && (forall k :: 0 <= k < |Closed(deeds)| ==> |Closed(deeds)[k]| <= BOX_SIZE)
            && Flatten(Closed(deeds)) + w.box == Blobs(deeds)
            && Replay(Closed(deeds) + [w.box], portal) == Some(w.balances)
  {
    var none: seq<seq<Blob>> := [];
    Snoc(none, []);
    assert Follows(EMPTY, [], portal);
    AllFollow(EMPTY, [], portal, calls, false);
    assert [] + Deeds(portal, calls) == Deeds(portal, calls);
    BoxesHoldBlobs(Deeds(portal, calls));
  }

  // The ether that accepted deposits brought, or the tokens that they pulled.
  function Received(portal: Address, calls: seq<Call>, asset: Asset): nat {
    if calls == [] then 0
    else
      Received(portal, calls[..|calls| - 1], asset)
      + if Accepted(portal, calls) then Paid(calls[|calls| - 1], asset) else 0
  }

  function Paid(c: Call, asset: Asset): nat {
    match c
    case EtherDeposit(value, _, _, _) => if asset.Ether? then value else 0
    case Erc20Deposit(token, _, amounts, _, _, _) => if asset == Token(token) then Sum(amounts) else 0
    case DirectInput(_, _, _) => 0
    case NewEpoch => 0
  }

  lemma BlobsConcat(a: seq<Deed>, b: seq<Deed>)
    ensures Blobs(a + b) == Blobs(a) + Blobs(b)
  {
    if b == [] {
      assert a + b == a;
    } else {
      assert (a + b)[..|a + b| - 1] == a + b[..|b| - 1];
      BlobsConcat(a, b[..|b| - 1]);
    }
  }

  // What a call pays covers what its blobs deposit; for a token, to the last unit. What a token slips in
  // deposits nothing.
  lemma {:induction false} PaidCovers(w: WalletState, portal: Address, c: Call, locked: bool, asset: Asset)
    requires Perform(w, portal, c, locked).Some? && Honest(portal, [c])
    ensures var deposited := AllDeposited(Blobs(Perform(w, portal, c, locked).value.deeds), asset, portal);
            && (if locked then deposited == 0 else deposited <= Paid(c, asset))
            && (!locked && asset.Token? ==> deposited == Paid(c, asset))
    decreases c, 0
  {
    hide CheckedSum, AddInput, Unpack, Deposited;
    assert c in [c];
    match c
    case EtherDeposit(_, receivers, amounts, size) =>
      assert amounts[..|amounts|] == amounts;
      OwnDeposit(Ether, receivers, amounts, size, asset, portal);
      OneBlob(Unpack(portal, 0, DepositRequest(Ether, receivers, amounts, size)).value, asset, portal);
    case Erc20Deposit(token, receivers, amounts, size, nested, _) =>
      var inner := PerformAll(w, portal, nested, true);
      NestedDeposits(w, portal, nested, asset);
      OwnDeposit(Token(token), receivers, amounts, size, asset, portal);
      var own := SendDeposit(inner.state, portal, Token(token), c).value.deeds;
      OneBlob(Unpack(portal, 1, DepositRequest(Token(token), receivers, amounts, size)).value, asset, portal);
      BlobsConcat(inner.deeds, own);
      DepositedConcat(Blobs(inner.deeds), Blobs(own), asset, portal);
    case DirectInput(sender, op, request) =>
      StrangerDepositsNothing(w, portal, sender, op, request, asset);
    case NewEpoch =>
  }

  lemma OneBlob(blob: Blob, asset: Asset, portal: Address)
    ensures Blobs([Push(blob)]) == [blob] && AllDeposited([blob], asset, portal) == Deposited(blob, asset, portal)
  {
    assert [blob][..0] == [] && [Push(blob)][..0] == [];
  }

  lemma StrangerDepositsNothing(w: WalletState, portal: Address, sender: Address, op: nat, r: Request, asset: Asset)
    requires sender != portal && Submit(w, portal, sender, op, r).Some?
    ensures AllDeposited(Blobs(Submit(w, portal, sender, op, r).value.deeds), asset, portal) == 0
  {
    hide Batch;
    OneBlob(Unpack(sender, op, r).value, asset, portal);
  }

  lemma HonestParts(portal: Address, calls: seq<Call>)
    requires Honest(portal, calls) && calls != []
    ensures Honest(portal, calls[..|calls| - 1]) && Honest(portal, [calls[|calls| - 1]])
  {
    var prior, last := calls[..|calls| - 1], calls[|calls| - 1];
    assert forall c :: c in prior ==> c in calls;
    assert last in calls;
  }

  lemma OwnDeposit(paid: Asset, receivers: seq<Address>, amounts: seq<uint256>, size: nat, asset: Asset, portal: Address)
    requires |receivers| == |amounts|
    ensures var op := if paid.Ether? then 0 else 1;
            var blob := Unpack(portal, op, DepositRequest(paid, receivers, amounts, size));
            && blob.Some?
            && AllDeposited([blob.value], asset, portal) == if asset == paid then Sum(amounts) else 0
  {
    assert amounts[..|receivers|] == amounts;
  }

  lemma {:induction false} NestedDeposits(w: WalletState, portal: Address, calls: seq<Call>, asset: Asset)
    requires Honest(portal, calls)
    ensures AllDeposited(Blobs(PerformAll(w, portal, calls, true).deeds), asset, portal) == 0
    decreases calls
  {
    hide Perform;
    if calls != [] {
      var prior, last := calls[..|calls| - 1], calls[|calls| - 1];
      HonestParts(portal, calls);
      NestedDeposits(w, portal, prior, asset);
      var before := PerformAll(w, portal, prior, true);
      if Perform(before.state, portal, last, true).Some? {
        PaidCovers(before.state, portal, last, true, asset);
        var deeds := Perform(before.state, portal, last, true).value.deeds;
        BlobsConcat(before.deeds, deeds);
        DepositedConcat(Blobs(before.deeds), Blobs(deeds), asset, portal);
      }
    }
  }

  lemma {:induction false} ReceivedCovers(portal: Address, calls: seq<Call>, asset: Asset)
    requires Honest(portal, calls)
    ensures AllDeposited(Blobs(Deeds(portal, calls)), asset, portal) <= Received(portal, calls, asset)
    ensures asset.Token? ==> AllDeposited(Blobs(Deeds(portal, calls)), asset, portal) == Received(portal, calls, asset)
  {
    hide Perform;
    if calls != [] {
      var prior, last := calls[..|calls| - 1], calls[|calls| - 1];
      HonestParts(portal, calls);
      ReceivedCovers(portal, prior, asset);
      if Accepted(portal, calls) {
        PaidCovers(Play(portal, prior), portal, last, false, asset);
        var deeds := Perform(Play(portal, prior), portal, last, false).value.deeds;
        BlobsConcat(Deeds(portal, prior), deeds);
        DepositedConcat(Blobs(Deeds(portal, prior)), Blobs(deeds), asset, portal);
      }
    }
  }

  lemma {:induction false} DepositedConcat(a: seq<Blob>, b: seq<Blob>, asset: Asset, portal: Address)
    ensures AllDeposited(a + b, asset, portal) == AllDeposited(a, asset, portal) + AllDeposited(b, asset, portal)
  {
    if b == [] {
      assert a + b == a;
    } else {
      assert (a + b)[..|a + b| - 1] == a + b[..|b| - 1];
      DepositedConcat(a, b[..|b| - 1], asset, portal);
    }
  }

  // What the filled ones of some boxes deposit.
  function Filled(boxes: seq<seq<Blob>>, asset: Asset, portal: Address): nat {
    if boxes == [] then 0
    else
      var last := boxes[|boxes| - 1];
      Filled(boxes[..|boxes| - 1], asset, portal) + if |last| == BOX_SIZE then AllDeposited(last, asset, portal) else 0
  }

  lemma {:induction false} ReplayTotal(boxes: seq<seq<Blob>>, asset: Asset, portal: Address)
    requires Replay(boxes, portal).Some?
    ensures Total(Replay(boxes, portal).value.Book(asset)) == Filled(boxes, asset, portal)
  {
    if boxes != [] {
      var prior, last := boxes[..|boxes| - 1], boxes[|boxes| - 1];
      ReplayTotal(prior, asset, portal);
      if |last| == BOX_SIZE {
        BatchConserves(Replay(prior, portal).value, last, asset, portal);
      }
    }
  }

  // The total of every asset on layer 2 is what the portal deposited in filled boxes, and with the
  // deposits still waiting it never exceeds what the portal has received.
  lemma Backed(portal: Address, calls: seq<Call>, asset: Asset)
    requires Honest(portal, calls)
    ensures var w := Play(portal, calls); var boxes := Closed(Deeds(portal, calls)) + [w.box];
            && Total(w.balances.Book(asset)) == Filled(boxes, asset, portal)
            && Total(w.balances.Book(asset)) + (if |w.box| < BOX_SIZE then AllDeposited(w.box, asset, portal) else 0)
               <= Received(portal, calls, asset)
  {
    hide Play, Deeds, Closed, Blobs, Replay, Received, Batch, Total;
    var w, closed := Play(portal, calls), Closed(Deeds(portal, calls));
    var boxes := closed + [w.box];
    AppliedOnce(portal, calls);
    ReceivedCovers(portal, calls, asset);
    Snoc(closed, w.box);
    ReplayTotal(boxes, asset, portal);
    assert Flatten(boxes) == Blobs(Deeds(portal, calls));
    DepositedConcat(Flatten(closed), w.box, asset, portal);
    FilledAtMost(closed, asset, portal);
  }

  lemma {:induction false} FilledAtMost(boxes: seq<seq<Blob>>, asset: Asset, portal: Address)
    ensures Filled(boxes, asset, portal) <= AllDeposited(Flatten(boxes), asset, portal)
  {
    if boxes != [] {
      var prior, last := boxes[..|boxes| - 1], boxes[|boxes| - 1];
      FilledAtMost(prior, asset, portal);
      DepositedConcat(Flatten(prior), last, asset, portal);
    }
  }
}
