/** The contracts of the mock wallet as objects, with their loops and locks. */
module MockWallet {
  import opened Common
  import opened Ledger
  import opened Wallet

  class MockInputImpl {
    const portalContract: Address
    var lock: bool
    var inputBlobBox: seq<Blob>
    var etherBalanceOf: Book
    var erc20BalanceOf: TokenBooks

    constructor (portal: Address)
      ensures portalContract == portal && !lock && Abs() == EMPTY
    {
      portalContract := portal;
      lock, inputBlobBox, etherBalanceOf, erc20BalanceOf := false, [], map[], map[];
    }

    ghost function Funds(): Balances
      reads this
    {
      Balances(etherBalanceOf, erc20BalanceOf)
    }

    ghost function Abs(): WalletState
      reads this
    {
      WalletState(inputBlobBox, Funds())
    }

    function BalanceOf(asset: Asset, who: Address): (r: uint256)
      reads this
      ensures r == Get(Funds().Book(asset), who)
    {
      match asset
      case Ether => if who in etherBalanceOf then etherBalanceOf[who] else 0
      case Token(t) => if t in erc20BalanceOf && who in erc20BalanceOf[t] then erc20BalanceOf[t][who] else 0
    }

    method SetBalance(asset: Asset, who: Address, amount: uint256)
      modifies this`etherBalanceOf, this`erc20BalanceOf
      ensures Funds() == old(Funds()).With(asset, old(Funds()).Book(asset)[who := amount])
    {
      match asset {
        case Ether => etherBalanceOf := etherBalanceOf[who := amount];
        case Token(t) =>
          var book := if t in erc20BalanceOf then erc20BalanceOf[t] else map[];
          assert who in book[who := amount];
          erc20BalanceOf := erc20BalanceOf[t := book[who := amount]];
      }
    }

    // Checked +=
    method Add(asset: Asset, who: Address, amount: uint256) returns (reverted: bool)
      modifies this`etherBalanceOf, this`erc20BalanceOf
      ensures var b := Credit(old(Funds()).Book(asset), who, amount);
              && (reverted <==> b.None?)
              && (!reverted ==> Funds() == old(Funds()).With(asset, b.value))
    {
      var sum := CheckedAdd(BalanceOf(asset, who), amount);
      if sum.None? {
        return true;
      }
      SetBalance(asset, who, sum.value);
      return false;
    }
  
    // One transfer; it is passed over when it is not covered.
    method Shift(asset: Asset, from: Address, to: Address, amount: uint256) returns (reverted: bool)
      modifies this`etherBalanceOf, this`erc20BalanceOf
      ensures var b := Move(old(Funds()).Book(asset), from, to, amount);
              && (reverted <==> b.None?)
              && (!reverted ==> Funds() == old(Funds()).With(asset, b.value))
    {
      hide Balances.Book, Balances.With, CheckedAdd;
      var balance := BalanceOf(asset, from);
      if balance < amount {
        return false;
      }
      ghost var less := Funds().Book(asset)[from := balance - amount];
      SetBalance(asset, from, balance - amount);
      reverted := Add(asset, to, amount);
      if !reverted {
        WithTwice(old(Funds()), asset, less, Credit(less, to, amount).value);
      }
    }

    // The inner loops of processBatchInputs

    method DepositBlob(blob: Blob) returns (reverted: bool)
      modifies this`etherBalanceOf, this`erc20BalanceOf
      ensures var b := Deposits(old(Funds()).Book(blob.Asset()), blob, portalContract, |blob.receivers|);
              && (reverted <==> b.None?)
              && (!reverted ==> Funds() == old(Funds()).With(blob.Asset(), b.value))
    {
      hide Balances.Book, Balances.With, CheckedAdd;
      ghost var book := Funds().Book(blob.Asset());
      var j := 0;
      while j < |blob.receivers|
        invariant 0 <= j <= |blob.receivers|
        invariant Deposits(book, blob, portalContract, j).Some?
        invariant Funds() == old(Funds()).With(blob.Asset(), Deposits(book, blob, portalContract, j).value)
      {
        var receiver := blob.receivers[j];
        if blob.sender == portalContract {
          if j >= |blob.amounts| {
            DepositsStayNone(book, blob, portalContract, j + 1);
            return true;
          }
          ghost var b := Deposits(book, blob, portalContract, j).value;
          var amount := blob.amounts[j];
          reverted := Add(blob.Asset(), receiver, amount);
          assert reverted <==> Credit(b, receiver, amount).None?;
          if !reverted {
            WithTwice(old(Funds()), blob.Asset(), b, Credit(b, receiver, amount).value);
          }
          if reverted {
            DepositsStayNone(book, blob, portalContract, j + 1);
            return;
          }
        }
        j := j + 1;
      }
      return false;
    }

    method TransferBlob(blob: Blob) returns (reverted: bool)
      modifies this`etherBalanceOf, this`erc20BalanceOf
      ensures var b := Transfers(old(Funds()).Book(blob.Asset()), blob, |blob.receivers|);
              && (reverted <==> b.None?)
              && (!reverted ==> Funds() == old(Funds()).With(blob.Asset(), b.value))
    {
      hide Balances.Book, Balances.With, CheckedAdd;
      ghost var book := Funds().Book(blob.Asset());
      var j := 0;
      while j < |blob.receivers|
        invariant 0 <= j <= |blob.receivers|
        invariant Transfers(book, blob, j).Some?
        invariant Funds() == old(Funds()).With(blob.Asset(), Transfers(book, blob, j).value)
      {
        var receiver := blob.receivers[j];
        if j >= |blob.amounts| {
          TransfersStayNone(book, blob, j + 1);
          return true;
        }
        ghost var b := Transfers(book, blob, j).value;
        var amount := blob.amounts[j];
        reverted := Shift(blob.Asset(), blob.sender, receiver, amount);
        if reverted {
          TransfersStayNone(book, blob, j + 1);
          return;
        }
        WithTwice(old(Funds()), blob.Asset(), b, Move(b, blob.sender, receiver, amount).value);
        j := j + 1;
      }
      return false;
    }

    method ProcessBlob(blob: Blob) returns (reverted: bool)
      modifies this`etherBalanceOf, this`erc20BalanceOf
      ensures var l := ApplyBlob(old(Funds()), blob, portalContract);
              && (reverted <==> l.None?)
              && (!reverted ==> l == Some(Funds()))
    {
      hide Balances.Book, Balances.With, Deposits, Transfers;
      reverted := false;
      if blob.transaction == Deposit {
        reverted := DepositBlob(blob);
      }
      if blob.transaction == Transfer {
        reverted := TransferBlob(blob);
      }
    }

    method ProcessBatchInputs() returns (reverted: bool)
      modifies this`etherBalanceOf, this`erc20BalanceOf
      ensures reverted <==> Batch(old(Funds()), inputBlobBox, portalContract).None?
      ensures !reverted ==> Batch(old(Funds()), inputBlobBox, portalContract) == Some(Funds())
    {
      hide ApplyBlob;
      var i := 0;
      while i < |inputBlobBox|
        invariant 0 <= i <= |inputBlobBox|
        invariant Batch(old(Funds()), inputBlobBox[..i], portalContract) == Some(Funds())
      {
        assert inputBlobBox[..i + 1][..i] == inputBlobBox[..i];
        reverted := ProcessBlob(inputBlobBox[i]);
        if reverted {
          BatchStaysNone(old(Funds()), inputBlobBox, portalContract, i + 1);
          return;
        }
        i := i + 1;
      }
      assert inputBlobBox[..i] == inputBlobBox;
      return false;
    }

    // What a call that reverts leaves behind is undone by its transaction.
    method AddInput(sender: Address, op: nat, r: Request) returns (reverted: bool)
      requires !lock
      modifies this
      ensures var w := Wallet.AddInput(old(Abs()), portalContract, sender, op, r);
              && (reverted <==> w.None?)
              && (!reverted ==> Some(Abs()) == w && !lock)
    {
      lock := true;
      if !(0 < r.size <= INPUT_LIMIT) || |inputBlobBox| + 1 > BOX_SIZE {
        return true;
      }
      var blob := Unpack(sender, op, r);
      if blob.None? {
        return true;
      }
      inputBlobBox := inputBlobBox + [blob.value];
      if |inputBlobBox| == BOX_SIZE {
        reverted := ProcessBatchInputs();
        if reverted {
          return;
        }
      }
      lock := false;
      return false;
    }

    method OnNewEpoch()
      modifies this`inputBlobBox
      ensures inputBlobBox == []
    {
      inputBlobBox := [];
    }
  }

  lemma {:induction false} DepositsStayNone(b: Book, blob: Blob, portal: Address, j: nat)
    requires j <= |blob.receivers| && Deposits(b, blob, portal, j).None?
    ensures Deposits(b, blob, portal, |blob.receivers|).None?
    decreases |blob.receivers| - j
  {
    if j < |blob.receivers| {
      DepositsStayNone(b, blob, portal, j + 1);
    }
  }

  lemma {:induction false} TransfersStayNone(b: Book, blob: Blob, j: nat)
    requires j <= |blob.receivers| && Transfers(b, blob, j).None?
    ensures Transfers(b, blob, |blob.receivers|).None?
    decreases |blob.receivers| - j
  {
    if j < |blob.receivers| {
      TransfersStayNone(b, blob, j + 1);
    }
  }

  lemma {:induction false} BatchStaysNone(l: Balances, box: seq<Blob>, portal: Address, i: nat)
    requires i <= |box| && Batch(l, box[..i], portal).None?
    ensures Batch(l, box, portal).None?
    decreases |box| - i
  {
    if i == |box| {
      assert box[..i] == box;
    } else {
      assert box[..i + 1][..i] == box[..i];
      BatchStaysNone(l, box, portal, i + 1);
    }
  }

  class MockPortalImpl {
    const self: Address
    const inputContract: MockInputImpl
    var lock: bool

    constructor (self: Address, input: MockInputImpl)
      requires input.portalContract == self
      ensures this.self == self && inputContract == input && !lock
    {
      this.self, inputContract, lock := self, input, false;
    }

    ghost predicate Ready()
      reads this, inputContract
    {
      inputContract.portalContract == self && !inputContract.lock
    }

    // The sum of the amounts; None when it overflows.
    method TotalAmount(amounts: seq<uint256>) returns (total: Option<uint256>)
      ensures total == CheckedSum(amounts, |amounts|)
    {
      total := Some(0);
      var i := 0;
      while i < |amounts|
        invariant 0 <= i <= |amounts| && total == CheckedSum(amounts, i) && total.Some?
      {
        total := CheckedAdd(total.value, amounts[i]);
        i := i + 1;
        if total.None? {
          SumStaysNone(amounts, i);
          return;
        }
      }
    }

    method EtherDeposit(value: uint256, receivers: seq<Address>, amounts: seq<uint256>, dataSize: nat) returns (reverted: bool)
      requires Ready()
      modifies this, inputContract
      ensures var d := Perform(old(inputContract.Abs()), self, Call.EtherDeposit(value, receivers, amounts, dataSize), old(lock));
              && (reverted <==> d.None?)
              && (!reverted ==> inputContract.Abs() == d.value.state && Ready() && !lock && !old(lock))
    {
      if lock {
        return true;
      }
      lock := true;
      if |receivers| != |amounts| {
        return true;
      }
      var total := TotalAmount(amounts);
      if total.None? || value < total.value {
        return true;
      }
      reverted := inputContract.AddInput(self, 0, DepositRequest(Ether, receivers, amounts, dataSize));
      lock := false;
    }

    // The token is asked under the lock; it may call back before it answers.
    method Erc20Deposit(
        token: Address, receivers: seq<Address>, amounts: seq<uint256>, dataSize: nat, nested: seq<Call>, pulled: bool)
        returns (reverted: bool)
      requires Ready()
      modifies this, inputContract
      ensures var c := Call.Erc20Deposit(token, receivers, amounts, dataSize, nested, pulled);
              var d := Perform(old(inputContract.Abs()), self, c, old(lock));
              && (reverted <==> d.None?)
              && (!reverted ==> inputContract.Abs() == d.value.state && Ready() && !lock && !old(lock))
      decreases nested, 1
    {
      if lock {
        return true;
      }
      lock := true;
      if |receivers| != |amounts| {
        return true;
      }
      var total := TotalAmount(amounts);
      if total.None? {
        return true;
      }
      CallBack(nested);
      if !pulled {
        return true;
      }
      reverted := inputContract.AddInput(self, 1, DepositRequest(Token(token), receivers, amounts, dataSize));
      lock := false;
    }

    // What a token does while it is asked.
    method CallBack(calls: seq<Call>)
      requires Ready()
      modifies this, inputContract
      ensures Ready() && lock == old(lock)
      ensures inputContract.Abs() == PerformAll(old(inputContract.Abs()), self, calls, lock).state
      decreases calls, 0
    {
      var i := 0;
      while i < |calls|
        invariant 0 <= i <= |calls| && Ready() && lock == old(lock)
        invariant inputContract.Abs() == PerformAll(old(inputContract.Abs()), self, calls[..i], lock).state
      {
        Transact(calls[i]);
        assert calls[..i + 1][..i] == calls[..i];
        i := i + 1;
      }
      assert calls[..i] == calls;
    }

    // A transaction, or a call inside one: whatever a reverted call has changed is put back.
    method Transact(c: Call)
      requires Ready()
      modifies this, inputContract
      ensures Ready() && lock == old(lock)
      ensures var d := Perform(old(inputContract.Abs()), self, c, old(lock));
              inputContract.Abs() == if d.Some? then d.value.state else old(inputContract.Abs())
      decreases c, 2
    {
      var box, ether, tokens := inputContract.inputBlobBox, inputContract.etherBalanceOf, inputContract.erc20BalanceOf;
      var reverted, held := false, lock;
      match c {
        case EtherDeposit(value, receivers, amounts, size) =>
          reverted := EtherDeposit(value, receivers, amounts, size);
        case Erc20Deposit(token, receivers, amounts, size, nested, pulled) =>
          reverted := Erc20Deposit(token, receivers, amounts, size, nested, pulled);
        case DirectInput(sender, op, request) =>
          reverted := inputContract.AddInput(sender, op, request);
        case NewEpoch =>
          inputContract.OnNewEpoch();
      }
      if reverted {
        lock := held;
        inputContract.lock := false;
        inputContract.inputBlobBox := box;
        inputContract.etherBalanceOf, inputContract.erc20BalanceOf := ether, tokens;
      }
    }
  }

  lemma {:induction false} SumStaysNone(amounts: seq<uint256>, i: nat)
    requires i <= |amounts| && CheckedSum(amounts, i).None?
    ensures CheckedSum(amounts, |amounts|).None?
    decreases |amounts| - i
  {
    if i < |amounts| {
      SumStaysNone(amounts, i + 1);
    }
  }

  // Every sequence of calls on freshly deployed contracts leads where Play says, so every theorem about
  // Play is a theorem about the contracts.
  method Run(portal: Address, calls: seq<Call>) returns (wallet: MockPortalImpl)
    ensures wallet.Ready() && !wallet.lock && wallet.self == portal && wallet.inputContract.Abs() == Play(portal, calls)
  {
    var input := new MockInputImpl(portal);
    wallet := new MockPortalImpl(portal, input);
    var i := 0;
    while i < |calls|
      invariant 0 <= i <= |calls|
      invariant fresh(wallet) && fresh(wallet.inputContract)
      invariant wallet.Ready() && !wallet.lock && wallet.self == portal
      invariant wallet.inputContract.Abs() == Play(portal, calls[..i])
    {
      wallet.Transact(calls[i]);
      assert calls[..i + 1][..i] == calls[..i];
      i := i + 1;
    }
    assert calls[..i] == calls;
  }
}
