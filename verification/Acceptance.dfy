/** When the mock wallet takes a call, and what an accepted one leaves behind. */
module Acceptance {
  import opened Common
  import opened Ledger
  import opened Accounts
  import opened Wallet

  // There is room for a blob; if it is the tenth, the batch has to go through.
  ghost predicate HasRoom(w: WalletState, portal: Address, blob: Blob) {
    var box := w.box + [blob];
    && |box| <= 10
    && (|box| == 10 ==> AllPaired(box, portal) && Fits(w.balances, AllShifts(box, portal)))
  }

  // The blob is in the box; the tenth has moved the funds, holder by holder, and no other has.
  ghost predicate Taken(w: WalletState, after: WalletState, portal: Address, blob: Blob) {
    && after.box == w.box + [blob]
    && (if |after.box| == 10 then AllPaired(after.box, portal) && Agrees(after.balances, w.balances, AllShifts(after.box, portal))
        else after.balances == w.balances)
  }

  lemma SubmitExactly(w: WalletState, portal: Address, sender: Address, op: nat, r: Request)
    ensures Submit(w, portal, sender, op, r).Some? <==>
              0 < r.size <= 512 && Unpack(sender, op, r).Some? && HasRoom(w, portal, Unpack(sender, op, r).value)
    ensures Submit(w, portal, sender, op, r).Some? ==>
              Taken(w, Submit(w, portal, sender, op, r).value.state, portal, Unpack(sender, op, r).value)
  {
    hide Batch, Fits, Agrees, Unpack;
    if Unpack(sender, op, r).Some? {
      BatchExactly(w.balances, w.box + [Unpack(sender, op, r).value], portal);
    }
  }

  lemma PlayNext(portal: Address, calls: seq<Call>, c: Call)
    ensures var w, r := Play(portal, calls), Perform(Play(portal, calls), portal, c, false);
            && (Accepted(portal, calls + [c]) <==> r.Some?)
            && Play(portal, calls + [c]) == if r.Some? then r.value.state else w
  {
    assert (calls + [c])[..|calls + [c]| - 1] == calls;
  }

  lemma WholeSum(amounts: seq<uint256>)
    ensures CheckedSum(amounts, |amounts|).Some? <==> Sum(amounts) <= UINT256_MAX
    ensures CheckedSum(amounts, |amounts|).Some? ==> CheckedSum(amounts, |amounts|).value == Sum(amounts)
  {
    assert amounts[..|amounts|] == amounts;
  }

  // An ether deposit is accepted exactly when it is paid, well formed, short enough, and there is room.
  lemma EtherDepositExactly(portal: Address, calls: seq<Call>, value: uint256, receivers: seq<Address>, amounts: seq<uint256>, dataSize: nat)
    ensures var w, c := Play(portal, calls), Call.EtherDeposit(value, receivers, amounts, dataSize);
            var after, blob := Play(portal, calls + [c]), Blob(EtherOp, Deposit, receivers, amounts, ZERO_ADDRESS, portal);
            && (Accepted(portal, calls + [c]) <==>
                  && |receivers| == |amounts| && Sum(amounts) <= value
                  && 32 * (8 + |receivers| + |amounts| + (dataSize + 31) / 32) <= 512
                  && HasRoom(w, portal, blob))
            && (if Accepted(portal, calls + [c]) then Taken(w, after, portal, blob) else after == w)
  {
    hide Play, Accepted, Submit, CheckedSum, HasRoom, Taken;
    PlayNext(portal, calls, Call.EtherDeposit(value, receivers, amounts, dataSize));
    WholeSum(amounts);
    SubmitExactly(Play(portal, calls), portal, portal, 0, DepositRequest(Ether, receivers, amounts, dataSize));
  }

  // What a token does while it is asked happens first, if the deposit is accepted.
  function WhileAsked(w: WalletState, portal: Address, nested: seq<Call>): WalletState {
    PerformAll(w, portal, nested, true).state
  }

  lemma Erc20DepositExactly(
      portal: Address, calls: seq<Call>, token: Address, receivers: seq<Address>, amounts: seq<uint256>, dataSize: nat,
      nested: seq<Call>, pulled: bool)
    ensures var c := Call.Erc20Deposit(token, receivers, amounts, dataSize, nested, pulled);
            var w, inner := Play(portal, calls), WhileAsked(Play(portal, calls), portal, nested);
            var after, blob := Play(portal, calls + [c]), Blob(ERC20Op, Deposit, receivers, amounts, token, portal);
            && (Accepted(portal, calls + [c]) <==>
                  && |receivers| == |amounts| && Sum(amounts) <= UINT256_MAX && pulled
                  && 32 * (9 + |receivers| + |amounts| + (dataSize + 31) / 32) <= 512
                  && HasRoom(inner, portal, blob))
            && (if Accepted(portal, calls + [c]) then Taken(inner, after, portal, blob) else after == w)
  {
    hide Play, Accepted, Submit, CheckedSum, HasRoom, Taken, PerformAll;
    PlayNext(portal, calls, Call.Erc20Deposit(token, receivers, amounts, dataSize, nested, pulled));
    WholeSum(amounts);
    SubmitExactly(WhileAsked(Play(portal, calls), portal, nested), portal, portal, 1,
                  DepositRequest(Token(token), receivers, amounts, dataSize));
  }

  // The blob that a direct input stands for, if any: the operation asked for chooses the decoding.
  predicate Stands(blob: Blob, sender: Address, op: nat, r: Request) {
    var body := if op == 0 then r.asEther else if op == 1 then r.asToken else None;
    && body.Some?
    && blob.operation == body.value.operation && blob.transaction == body.value.transaction
    && blob.receivers == body.value.receivers && blob.amounts == body.value.amounts
    && blob.erc20 == (if op == 0 then ZERO_ADDRESS else body.value.erc20) && blob.sender == sender
  }

  lemma DirectInputExactly(portal: Address, calls: seq<Call>, sender: Address, op: nat, r: Request)
    ensures var w, c := Play(portal, calls), DirectInput(sender, op, r); var after := Play(portal, calls + [c]);
            && (Accepted(portal, calls + [c]) <==>
                  0 < r.size <= 512 && exists blob :: Stands(blob, sender, op, r) && HasRoom(w, portal, blob))
            && (Accepted(portal, calls + [c]) ==> exists blob :: Stands(blob, sender, op, r) && Taken(w, after, portal, blob))
            && (!Accepted(portal, calls + [c]) ==> after == w)
  {
    hide Play, Accepted, Submit, HasRoom, Taken, Unpack, Stands;
    PlayNext(portal, calls, DirectInput(sender, op, r));
    SubmitExactly(Play(portal, calls), portal, sender, op, r);
    OneStands(sender, op, r);
  }

  lemma OneStands(sender: Address, op: nat, r: Request)
    ensures forall blob :: Stands(blob, sender, op, r) <==> Unpack(sender, op, r) == Some(blob)
  {
  }

  // A new epoch empties the box and moves no funds.
  lemma NewEpochExactly(portal: Address, calls: seq<Call>)
    ensures Accepted(portal, calls + [NewEpoch])
    ensures Play(portal, calls + [NewEpoch]) == Play(portal, calls).(box := [])
  {
    PlayNext(portal, calls, NewEpoch);
  }

  lemma PerformNext(w: WalletState, portal: Address, calls: seq<Call>, c: Call, locked: bool)
    ensures var r := Perform(PerformAll(w, portal, calls, locked).state, portal, c, locked);
            PerformAll(w, portal, calls + [c], locked).state == if r.Some? then r.value.state else PerformAll(w, portal, calls, locked).state
  {
    var all := calls + [c];
    assert all[..|all| - 1] == calls && all[|all| - 1] == c;
  }

  // While a token is asked, every deposit is refused; inputs and new epochs are taken as ever.
  lemma WhileAskedNext(w: WalletState, portal: Address, nested: seq<Call>, c: Call)
    ensures var before, after := WhileAsked(w, portal, nested), WhileAsked(w, portal, nested + [c]);
            match c
            case NewEpoch => after == before.(box := [])
            case DirectInput(sender, op, r) =>
              if 0 < r.size <= 512 && exists blob :: Stands(blob, sender, op, r) && HasRoom(before, portal, blob)
              then exists blob :: Stands(blob, sender, op, r) && Taken(before, after, portal, blob) else after == before
            case _ => after == before
  {
    hide Submit, HasRoom, Taken, Unpack, Stands;
    PerformNext(w, portal, nested, c, true);
    if c.DirectInput? {
      SubmitExactly(WhileAsked(w, portal, nested), portal, c.sender, c.op, c.request);
      OneStands(c.sender, c.op, c.request);
    }
  }
}
