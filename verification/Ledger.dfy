/** The balances of the mock wallet on layer 2: what a batch of inputs does to them. */
module Ledger {
  import opened Common

  datatype Operation = EtherOp | ERC20Op
  datatype Transaction = Deposit | Transfer | Withdraw

  datatype Blob = Blob(
    operation: Operation,
    transaction: Transaction,
    receivers: seq<Address>,
    amounts: seq<uint256>,
    erc20: Address,
    sender: Address)
  {
    function Asset(): Asset {
      if operation.EtherOp? then Ether else Token(erc20)
    }
  }

  datatype Asset = Ether | Token(token: Address)

  // The balances of one asset; an address that is not listed has none.
  type Book = map<Address, uint256>

  function Get(b: Book, who: Address): uint256 {
    if who in b then b[who] else 0
  }

  // A token without any holder is not listed.
  type TokenBooks = m: map<Address, Book> | forall t :: t in m ==> m[t] != map[] witness map[]

  // etherBalanceOf, and erc20BalanceOf turned round: by token, then by holder.
  datatype Balances = Balances(ether: Book, tokens: TokenBooks) {
    function Book(a: Asset): Book {
      match a
      case Ether => ether
      case Token(t) => if t in tokens then tokens[t] else map[]
    }

    function With(a: Asset, b: Book): (r: Balances)
      ensures forall other :: r.Book(other) == if other == a then b else Book(other)
      ensures b == Book(a) ==> r == this
    {
      match a
      case Ether => this.(ether := b)
      case Token(t) => this.(tokens := if b == map[] then tokens - {t} else tokens[t := b])
    }
  }

  lemma WithTwice(l: Balances, a: Asset, b: Book, b': Book)
    ensures l.With(a, b).With(a, b') == l.With(a, b')
  {
    if a.Token? {
      var t := a.token;
      assert l.tokens[t := b][t := b'] == l.tokens[t := b'] == (l.tokens - {t})[t := b'];
      assert l.tokens[t := b] - {t} == l.tokens - {t} == l.tokens - {t} - {t};
    }
  }

  function Credit(b: Book, who: Address, amount: uint256): Option<Book> {
    match CheckedAdd(Get(b, who), amount)
    case None => None
    case Some(sum) => Some(b[who := sum])
  }

  // A transfer that is not covered is passed over.
  function Move(b: Book, from: Address, to: Address, amount: uint256): Option<Book> {
    if Get(b, from) < amount then Some(b)
    else Credit(b[from := Get(b, from) - amount], to, amount)
  }

  // The inner loops, for the first n receivers; None is a revert: an overflow, or an amount that is not
  // there. The amounts of a deposit that does not come from the portal are not even read.
  function Deposits(b: Book, blob: Blob, portal: Address, n: nat): Option<Book>
    requires n <= |blob.receivers|
  {
    if n == 0 then Some(b)
    else
      match Deposits(b, blob, portal, n - 1)
      case None => None
      case Some(b') =>
        if blob.sender != portal then Some(b')
        else if n > |blob.amounts| then None
        else Credit(b', blob.receivers[n - 1], blob.amounts[n - 1])
  }

  function Transfers(b: Book, blob: Blob, n: nat): Option<Book>
    requires n <= |blob.receivers|
  {
    if n == 0 then Some(b)
    else
      match Transfers(b, blob, n - 1)
      case None => None
      case Some(b') =>
        if n > |blob.amounts| then None
        else Move(b', blob.sender, blob.receivers[n - 1], blob.amounts[n - 1])
  }

  function ApplyBlob(l: Balances, blob: Blob, portal: Address): Option<Balances> {
    var asset, n := blob.Asset(), |blob.receivers|;
    var r :=
      match blob.transaction
      case Deposit => Deposits(l.Book(asset), blob, portal, n)
      case Transfer => Transfers(l.Book(asset), blob, n)
      case Withdraw => Some(l.Book(asset));
    if r.None? then None else Some(l.With(asset, r.value))
  }

  // processBatchInputs
  function Batch(l: Balances, box: seq<Blob>, portal: Address): Option<Balances> {
    if box == [] then Some(l)
    else
      match Batch(l, box[..|box| - 1], portal)
      case None => None
      case Some(l') => ApplyBlob(l', box[|box| - 1], portal)
  }

  // Totals

  ghost function Total(b: Book): nat {
    if b == map[] then 0
    else
      var who :| who in b;
      b[who] + Total(b - {who})
  }

  lemma {:induction false} TotalWithout(b: Book, who: Address)
    requires who in b
    ensures Total(b) == b[who] + Total(b - {who})
    decreases |b|
  {
    var first :| first in b && Total(b) == b[first] + Total(b - {first});
    if first != who {
      TotalWithout(b - {first}, who);
      TotalWithout(b - {who}, first);
      assert b - {first} - {who} == b - {who} - {first};
    }
  }

  lemma TotalUpdate(b: Book, who: Address, amount: uint256)
    ensures Total(b[who := amount]) == Total(b) - Get(b, who) + amount
  {
    TotalWithout(b[who := amount], who);
    assert b[who := amount] - {who} == b - {who};
    if who in b {
      TotalWithout(b, who);
    } else {
      assert b - {who} == b;
    }
  }

  function Sum(amounts: seq<uint256>): nat {
    if amounts == [] then 0 else Sum(amounts[..|amounts| - 1]) + amounts[|amounts| - 1]
  }

  // What a blob deposits: only the portal can.
  function Deposited(blob: Blob, asset: Asset, portal: Address): nat {
    if blob.transaction.Deposit? && blob.sender == portal && blob.Asset() == asset && |blob.receivers| <= |blob.amounts|
    then Sum(blob.amounts[..|blob.receivers|]) else 0
  }

  function AllDeposited(box: seq<Blob>, asset: Asset, portal: Address): nat {
    if box == [] then 0 else AllDeposited(box[..|box| - 1], asset, portal) + Deposited(box[|box| - 1], asset, portal)
  }

  lemma {:induction false} DepositsTotal(b: Book, blob: Blob, portal: Address, n: nat)
    requires n <= |blob.receivers| && Deposits(b, blob, portal, n).Some?
    ensures blob.sender == portal ==> n <= |blob.amounts|
    ensures Total(Deposits(b, blob, portal, n).value) == Total(b) + if blob.sender == portal then Sum(blob.amounts[..n]) else 0
  {
    if n > 0 {
      DepositsTotal(b, blob, portal, n - 1);
      var b' := Deposits(b, blob, portal, n - 1).value;
      if blob.sender == portal {
        assert blob.amounts[..n][..n - 1] == blob.amounts[..n - 1];
        TotalUpdate(b', blob.receivers[n - 1], Get(b', blob.receivers[n - 1]) + blob.amounts[n - 1]);
      }
    }
  }

  lemma MoveTotal(b: Book, from: Address, to: Address, amount: uint256)
    requires Move(b, from, to, amount).Some?
    ensures Total(Move(b, from, to, amount).value) == Total(b)
  {
    if Get(b, from) >= amount {
      var less := b[from := Get(b, from) - amount];
      TotalUpdate(b, from, Get(b, from) - amount);
      TotalUpdate(less, to, Get(less, to) + amount);
    }
  }

  lemma {:induction false} TransfersTotal(b: Book, blob: Blob, n: nat)
    requires n <= |blob.receivers| && Transfers(b, blob, n).Some?
    ensures Total(Transfers(b, blob, n).value) == Total(b)
  {
    if n > 0 {
      TransfersTotal(b, blob, n - 1);
      MoveTotal(Transfers(b, blob, n - 1).value, blob.sender, blob.receivers[n - 1], blob.amounts[n - 1]);
    }
  }

  lemma BlobConserves(l: Balances, blob: Blob, asset: Asset, portal: Address)
    requires ApplyBlob(l, blob, portal).Some?
    ensures Total(ApplyBlob(l, blob, portal).value.Book(asset)) == Total(l.Book(asset)) + Deposited(blob, asset, portal)
  {
    var book, n := l.Book(blob.Asset()), |blob.receivers|;
    match blob.transaction
    case Deposit => DepositsTotal(book, blob, portal, n);
    case Transfer => TransfersTotal(book, blob, n);
    case Withdraw =>
  }

  // A batch adds to the total of every asset exactly what the portal has deposited in it; transfers only
  // move funds, to oneself too.
  lemma {:induction false} BatchConserves(l: Balances, box: seq<Blob>, asset: Asset, portal: Address)
    requires Batch(l, box, portal).Some?
    ensures Total(Batch(l, box, portal).value.Book(asset)) == Total(l.Book(asset)) + AllDeposited(box, asset, portal)
  {
    if box != [] {
      var prior := box[..|box| - 1];
      BatchConserves(l, prior, asset, portal);
      BlobConserves(Batch(l, prior, portal).value, box[|box| - 1], asset, portal);
    }
  }

  // A holder's balance only goes down by its own transfers.

  lemma {:induction false} DepositsOnlyAdd(b: Book, blob: Blob, portal: Address, n: nat, who: Address)
    requires n <= |blob.receivers| && Deposits(b, blob, portal, n).Some?
    ensures Get(Deposits(b, blob, portal, n).value, who) >= Get(b, who)
  {
    if n > 0 {
      DepositsOnlyAdd(b, blob, portal, n - 1, who);
    }
  }

  lemma {:induction false} TransfersSpendOwn(b: Book, blob: Blob, n: nat, who: Address)
    requires n <= |blob.receivers| && Transfers(b, blob, n).Some? && blob.sender != who
    ensures Get(Transfers(b, blob, n).value, who) >= Get(b, who)
  {
    if n > 0 {
      TransfersSpendOwn(b, blob, n - 1, who);
    }
  }

  ghost predicate Spends(blob: Blob, asset: Asset, who: Address) {
    blob.transaction.Transfer? && blob.Asset() == asset && blob.sender == who
  }

  lemma {:induction false} OnlyHoldersSpend(l: Balances, box: seq<Blob>, asset: Asset, portal: Address, who: Address)
    requires Batch(l, box, portal).Some?
    ensures Get(Batch(l, box, portal).value.Book(asset), who) >= Get(l.Book(asset), who)
            || exists i :: 0 <= i < |box| && Spends(box[i], asset, who)
  {
    if box != [] {
      var prior, blob := box[..|box| - 1], box[|box| - 1];
      OnlyHoldersSpend(l, prior, asset, portal, who);
      if !Spends(blob, asset, who) {
        var book, n := Batch(l, prior, portal).value.Book(blob.Asset()), |blob.receivers|;
        match blob.transaction {
          case Deposit => DepositsOnlyAdd(book, blob, portal, n, who);
          case Transfer =>
            if blob.Asset() == asset {
              TransfersSpendOwn(book, blob, n, who);
            }
          case Withdraw =>
        }
        if i :| 0 <= i < |prior| && Spends(prior[i], asset, who) {
          assert Spends(box[i], asset, who);
        }
      } else {
        assert Spends(box[|box| - 1], asset, who);
      }
    }
  }
}
