/** The batch by elementary movements of funds: who has how much, and when the batch fits. */
module Accounts {
  import opened Common
  import opened Ledger

  datatype Shift =
    | Mint(asset: Asset, to: Address, amount: uint256)
    | Pay(asset: Asset, from: Address, to: Address, amount: uint256)

  // Are the amounts of a blob read at all?
  predicate Counts(blob: Blob, portal: Address) {
    blob.transaction.Transfer? || (blob.transaction.Deposit? && blob.sender == portal)
  }

  // Every receiver that counts has its amount.
  predicate Paired(blob: Blob, portal: Address) {
    Counts(blob, portal) ==> |blob.receivers| <= |blob.amounts|
  }

  // What a blob asks for its first n receivers, one by one.
  function Shifts(blob: Blob, portal: Address, n: nat): seq<Shift>
    requires n <= |blob.receivers| && (Counts(blob, portal) ==> n <= |blob.amounts|)
  {
    if !Counts(blob, portal) then []
    else
      seq(n, j requires 0 <= j < n =>
        if blob.transaction.Deposit? then Mint(blob.Asset(), blob.receivers[j], blob.amounts[j])
        else Pay(blob.Asset(), blob.sender, blob.receivers[j], blob.amounts[j]))
  }

  function AllShifts(box: seq<Blob>, portal: Address): seq<Shift>
    requires forall i :: 0 <= i < |box| ==> Paired(box[i], portal)
  {
    if box == [] then []
    else
      var last := box[|box| - 1];
      assert Paired(last, portal);
      AllShifts(box[..|box| - 1], portal) + Shifts(last, portal, |last.receivers|)
  }

  // The balance of one holder, as a number of any size: a payment happens when the payer has the amount.
  function Balance(l: Balances, shifts: seq<Shift>, asset: Asset, who: Address): int
    decreases |shifts|
  {
    if shifts == [] then Get(l.Book(asset), who)
    else
      var prior, last := shifts[..|shifts| - 1], shifts[|shifts| - 1];
      var before := Balance(l, prior, asset, who);
      if last.asset != asset then before
      else
        match last
        case Mint(_, to, amount) => if who == to then before + amount else before
        case Pay(_, from, to, amount) =>
          if Balance(l, prior, asset, from) < amount then before
          else before - (if who == from then amount else 0) + (if who == to then amount else 0)
  }

  // No balance ever exceeds 256 bits on the way.
  ghost predicate Fits(l: Balances, shifts: seq<Shift>) {
    shifts != [] ==>
      && Fits(l, shifts[..|shifts| - 1])
      && forall asset, who: Address :: Balance(l, shifts, asset, who) <= UINT256_MAX
  }

  ghost predicate Agrees(after: Balances, l: Balances, shifts: seq<Shift>) {
    forall asset, who: Address :: Get(after.Book(asset), who) == Balance(l, shifts, asset, who)
  }

  function Shifted(b: Book, s: Shift): Option<Book> {
    match s
    case Mint(_, to, amount) => Credit(b, to, amount)
    case Pay(_, from, to, amount) => Move(b, from, to, amount)
  }

  lemma LastShift(shifts: seq<Shift>, s: Shift)
    ensures (shifts + [s])[..|shifts + [s]| - 1] == shifts && (shifts + [s])[|shifts + [s]| - 1] == s
  {
  }

  lemma OneShift(l: Balances, now: Balances, shifts: seq<Shift>, s: Shift)
    requires Agrees(now, l, shifts) && Fits(l, shifts)
    ensures Shifted(now.Book(s.asset), s).Some? <==> Fits(l, shifts + [s])
    ensures Shifted(now.Book(s.asset), s).Some? ==> Agrees(now.With(s.asset, Shifted(now.Book(s.asset), s).value), l, shifts + [s])
  {
    LastShift(shifts, s);
    var book, r := now.Book(s.asset), Shifted(now.Book(s.asset), s);
    if r.Some? {
      ShiftedBook(book, s);
      var after := now.With(s.asset, r.value);
      forall asset, who: Address
        ensures Get(after.Book(asset), who) == Balance(l, shifts + [s], asset, who)
      {
        assert Get(now.Book(asset), who) == Balance(l, shifts, asset, who);
        if s.Pay? {
          assert Get(book, s.from) == Balance(l, shifts, s.asset, s.from);
        }
      }
    } else {
      assert Get(book, s.to) == Balance(l, shifts, s.asset, s.to);
      if s.Pay? {
        assert Get(book, s.from) == Balance(l, shifts, s.asset, s.from);
      }
      assert Balance(l, shifts + [s], s.asset, s.to) > UINT256_MAX;
    }
  }

  // One movement on a book, holder by holder.
  lemma ShiftedBook(b: Book, s: Shift)
    requires Shifted(b, s).Some?
    ensures forall who: Address ::
              Get(Shifted(b, s).value, who) ==
                match s
                case Mint(_, to, amount) => Get(b, who) + (if who == to then amount else 0)
                case Pay(_, from, to, amount) =>
                  if Get(b, from) < amount then Get(b, who)
                  else Get(b, who) - (if who == from then amount else 0) + (if who == to then amount else 0)
  {
  }

  // What the loop over the first n receivers of a blob makes of a book.
  function Looped(b: Book, blob: Blob, portal: Address, n: nat): Option<Book>
    requires n <= |blob.receivers|
  {
    match blob.transaction
    case Deposit => Deposits(b, blob, portal, n)
    case Transfer => Transfers(b, blob, n)
    case Withdraw => Some(b)
  }

  lemma NextShift(blob: Blob, portal: Address, n: nat)
    requires 0 < n <= |blob.receivers| && Counts(blob, portal) && n <= |blob.amounts|
    ensures Shifts(blob, portal, n) == Shifts(blob, portal, n - 1) + [Shifts(blob, portal, n)[n - 1]]
    ensures forall b: Book ::
              Looped(b, blob, portal, n) ==
                if Looped(b, blob, portal, n - 1).None? then None
                else Shifted(Looped(b, blob, portal, n - 1).value, Shifts(blob, portal, n)[n - 1])
    ensures Shifts(blob, portal, n)[n - 1].asset == blob.Asset()
  {
  }

  lemma {:induction false} NothingCounts(b: Book, blob: Blob, portal: Address, n: nat)
    requires n <= |blob.receivers| && !Counts(blob, portal)
    ensures Looped(b, blob, portal, n) == Some(b)
  {
    if n > 0 {
      NothingCounts(b, blob, portal, n - 1);
    }
  }

  lemma {:induction false} NoneWithoutAmount(b: Book, blob: Blob, portal: Address, n: nat)
    requires |blob.amounts| < n <= |blob.receivers| && Counts(blob, portal)
    ensures Looped(b, blob, portal, n) == None
  {
    if n > |blob.amounts| + 1 {
      NoneWithoutAmount(b, blob, portal, n - 1);
    }
  }

  // The loop over a blob does its movements, as long as they fit.
  lemma {:induction false} BlobShifts(l: Balances, now: Balances, shifts: seq<Shift>, blob: Blob, portal: Address, n: nat)
    requires Agrees(now, l, shifts) && Fits(l, shifts)
    requires n <= |blob.receivers| && (Counts(blob, portal) ==> n <= |blob.amounts|)
    ensures var r, all := Looped(now.Book(blob.Asset()), blob, portal, n), shifts + Shifts(blob, portal, n);
            && (r.Some? <==> Fits(l, all))
            && (r.Some? ==> Agrees(now.With(blob.Asset(), r.value), l, all))
  {
    hide Fits, Agrees, Looped, Balances.With, Balances.Book, Shifted;
    var asset := blob.Asset();
    if !Counts(blob, portal) {
      NothingCounts(now.Book(asset), blob, portal, n);
      assert shifts + [] == shifts;
    } else if n == 0 {
      assert Looped(now.Book(asset), blob, portal, 0) == Some(now.Book(asset)) by {
        NothingLooped(now.Book(asset), blob, portal);
      }
      assert Shifts(blob, portal, 0) == [] && shifts + [] == shifts;
    } else {
      BlobShifts(l, now, shifts, blob, portal, n - 1);
      NextShift(blob, portal, n);
      var before, s := shifts + Shifts(blob, portal, n - 1), Shifts(blob, portal, n)[n - 1];
      assert shifts + Shifts(blob, portal, n) == before + [s];
      var r := Looped(now.Book(asset), blob, portal, n - 1);
      if r.Some? {
        var mid := now.With(asset, r.value);
        OneShift(l, mid, before, s);
        if Shifted(r.value, s).Some? {
          WithTwice(now, asset, r.value, Shifted(r.value, s).value);
        }
      } else if Fits(l, before + [s]) {
        FitsBefore(l, before, s);
        assert false;
      }
    }
  }

  lemma NothingLooped(b: Book, blob: Blob, portal: Address)
    ensures Looped(b, blob, portal, 0) == Some(b)
  {
  }

  lemma FitsBefore(l: Balances, shifts: seq<Shift>, s: Shift)
    requires Fits(l, shifts + [s])
    ensures Fits(l, shifts)
  {
    LastShift(shifts, s);
  }

  lemma {:induction false} FitsPrefix(l: Balances, a: seq<Shift>, b: seq<Shift>)
    requires Fits(l, a + b)
    ensures Fits(l, a)
  {
    if b == [] {
      assert a + b == a;
    } else {
      assert (a + b)[..|a + b| - 1] == a + b[..|b| - 1];
      FitsPrefix(l, a, b[..|b| - 1]);
    }
  }

  ghost predicate AllPaired(box: seq<Blob>, portal: Address) {
    forall i :: 0 <= i < |box| ==> Paired(box[i], portal)
  }

  lemma ApplyLoops(l: Balances, blob: Blob, portal: Address)
    ensures ApplyBlob(l, blob, portal) ==
      (var r := Looped(l.Book(blob.Asset()), blob, portal, |blob.receivers|);
       if r.None? then None else Some(l.With(blob.Asset(), r.value)))
  {
  }

  // The batch goes through exactly when every amount is there and no balance overflows on the way, and
  // then every holder of every asset has the balance that the movements, taken one by one, give it.
  lemma {:induction false} BatchExactly(l: Balances, box: seq<Blob>, portal: Address)
    ensures Batch(l, box, portal).Some? <==> AllPaired(box, portal) && Fits(l, AllShifts(box, portal))
    ensures Batch(l, box, portal).Some? ==> Agrees(Batch(l, box, portal).value, l, AllShifts(box, portal))
  {
    hide ApplyBlob, Looped, Balances.With, Balances.Book, Fits, Agrees;
    if box == [] {
      NoShifts(l);
    } else {
      var prior, last := box[..|box| - 1], box[|box| - 1];
      BatchExactly(l, prior, portal);
      ApplyLoops(if Batch(l, prior, portal).Some? then Batch(l, prior, portal).value else l, last, portal);
      if AllPaired(box, portal) {
        var shifts := AllShifts(prior, portal);
        assert Paired(last, portal);
        if Batch(l, prior, portal).Some? {
          BlobShifts(l, Batch(l, prior, portal).value, shifts, last, portal, |last.receivers|);
        } else if Fits(l, AllShifts(box, portal)) {
          FitsPrefix(l, shifts, Shifts(last, portal, |last.receivers|));
          assert false;
        }
      } else if AllPaired(prior, portal) {
        assert !Paired(last, portal);
        if Batch(l, prior, portal).Some? {
          NoneWithoutAmount(Batch(l, prior, portal).value.Book(last.Asset()), last, portal, |last.receivers|);
        }
      }
    }
  }

  lemma NoShifts(l: Balances)
    ensures Fits(l, []) && Agrees(l, l, [])
  {
  }

  // What a deposit brings one holder: the amounts that stand beside it.
  function Share(blob: Blob, who: Address, n: nat): nat
    requires n <= |blob.receivers| && n <= |blob.amounts|
  {
    if n == 0 then 0
    else Share(blob, who, n - 1) + if blob.receivers[n - 1] == who then blob.amounts[n - 1] else 0
  }

  lemma {:induction false} SharesAddUp(l: Balances, blob: Blob, portal: Address, n: nat, who: Address)
    requires blob.transaction.Deposit? && blob.sender == portal && n <= |blob.receivers| && n <= |blob.amounts|
    ensures Balance(l, Shifts(blob, portal, n), blob.Asset(), who) == Get(l.Book(blob.Asset()), who) + Share(blob, who, n)
  {
    if n > 0 {
      SharesAddUp(l, blob, portal, n - 1, who);
      assert Shifts(blob, portal, n)[..n - 1] == Shifts(blob, portal, n - 1);
    }
  }

  // A deposit of the portal gives every holder its share, and no other asset to anybody.
  lemma DepositShares(l: Balances, blob: Blob, portal: Address, asset: Asset, who: Address)
    requires blob.transaction.Deposit? && blob.sender == portal && ApplyBlob(l, blob, portal).Some?
    ensures |blob.receivers| <= |blob.amounts|
    ensures Get(ApplyBlob(l, blob, portal).value.Book(asset), who) ==
              Get(l.Book(asset), who) + if asset == blob.Asset() then Share(blob, who, |blob.receivers|) else 0
  {
    hide ApplyBlob, Batch;
    OneBlobBatch(l, blob, portal);
    BatchExactly(l, [blob], portal);
    assert Paired([blob][0], portal);
    SharesAddUp(l, blob, portal, |blob.receivers|, who);
    OtherAsset(l, Shifts(blob, portal, |blob.receivers|), blob.Asset(), asset, who);
  }

  lemma OneBlobBatch(l: Balances, blob: Blob, portal: Address)
    ensures Batch(l, [blob], portal) == ApplyBlob(l, blob, portal)
    ensures Paired(blob, portal) ==> AllShifts([blob], portal) == Shifts(blob, portal, |blob.receivers|)
  {
    assert [blob][..0] == [];
    if Paired(blob, portal) {
      assert [] + Shifts(blob, portal, |blob.receivers|) == Shifts(blob, portal, |blob.receivers|);
    }
  }

  lemma {:induction false} OtherAsset(l: Balances, shifts: seq<Shift>, moved: Asset, asset: Asset, who: Address)
    requires forall i :: 0 <= i < |shifts| ==> shifts[i].asset == moved
    ensures asset != moved ==> Balance(l, shifts, asset, who) == Get(l.Book(asset), who)
  {
    if shifts != [] {
      OtherAsset(l, shifts[..|shifts| - 1], moved, asset, who);
    }
  }

  // A transfer to one receiver moves the amount when the sender has it, to the last unit, and otherwise
  // nothing; nobody else is touched.
  lemma TransferMoves(l: Balances, blob: Blob, portal: Address, who: Address)
    requires blob.transaction.Transfer? && |blob.receivers| == 1 && ApplyBlob(l, blob, portal).Some?
    ensures |blob.amounts| >= 1
    ensures var to, amount, asset := blob.receivers[0], blob.amounts[0], blob.Asset();
            var covered := amount <= Get(l.Book(asset), blob.sender);
            Get(ApplyBlob(l, blob, portal).value.Book(asset), who) ==
              Get(l.Book(asset), who)
              - (if covered && who == blob.sender then amount else 0)
              + (if covered && who == to then amount else 0)
  {
    hide ApplyBlob, Batch, Balances.Book, Fits;
    OneBlobBatch(l, blob, portal);
    BatchExactly(l, [blob], portal);
    assert Paired([blob][0], portal);
    var shifts, asset := Shifts(blob, portal, 1), blob.Asset();
    assert Balance(l, [], asset, who) == Get(l.Book(asset), who);
    assert Balance(l, [], asset, blob.sender) == Get(l.Book(asset), blob.sender);
    assert shifts[..0] == [] && shifts[0] == Pay(blob.Asset(), blob.sender, blob.receivers[0], blob.amounts[0]);
    assert Get(ApplyBlob(l, blob, portal).value.Book(asset), who) == Balance(l, shifts, asset, who);
  }
}
