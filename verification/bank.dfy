/**
 * The account store and the session: the array `accounts`, the reference
 * `currentAccount` and the `sorted` flag, changed by the login, transfer,
 * close, loan and sort handlers.  Each handler is a method; its form inputs
 * are parameters.  A handler that dereferences `currentAccount` without a
 * check requires a current account (the script would throw otherwise).
 */
module Bank {
  import opened Inputs
  import opened Ledger
  import opened Usernames
  import opened Display

  /** An account record.  Owner, rate and PIN never change; the script mutates the rest. */
  class Account {
    const owner: string
    const interestRate: real
    const pin: int
    var movements: seq<real>
    /** Set by `createUserNames`; empty until then. */
    var username: string
    /** The balance cached by `calcDisplayBalance`; `None` while it is still `undefined`. */
    var balance: Option<real>

    constructor (owner: string, movements: seq<real>, interestRate: real, pin: int)
      ensures this.owner == owner && this.movements == movements
      ensures this.interestRate == interestRate && this.pin == pin
      ensures username == [] && balance == None
    {
      this.owner := owner;
      this.movements := movements;
      this.interestRate := interestRate;
      this.pin := pin;
      username := [];
      balance := None;
    }

    /** The handle `createUserNames` derives from the owner is the one stored. */
    ghost predicate HasDerivedHandle()
      reads this`username
    {
      username == Username(owner)
    }

    /** `calcDisplayBalance`: caches the sum of the movements; the movements stay as they are. */
    method CalcDisplayBalance()
      modifies this`balance
      ensures balance == Some(Balance(movements))
    {
      balance := Some(Balance(movements));
    }

    /**
     * `updateUI`: renders the movements in stored order (whatever the sort
     * flag says), caches the balance and computes the summary.
     */
    method UpdateUI() returns (screen: Screen)
      modifies this`balance
      ensures balance == Some(Balance(movements))
      ensures screen == ScreenOf(movements, interestRate)
    {
      var rows := DisplayMovements(movements, false);
      CalcDisplayBalance();
      screen := Screen(rows, balance.value, DisplaySummary(movements, interestRate));
    }
  }

  /** What `updateUI` puts on screen: the rows, the balance and the summary figures. */
  datatype Screen = Screen(rows: seq<Row>, balance: real, summary: Summary)

  function ScreenOf(movements: seq<real>, rate: real): Screen
  {
    Screen(Rows(View(movements, false)), Balance(movements), DisplaySummary(movements, rate))
  }

  /** The handles of the accounts, in store order. */
  function Handles(accs: seq<Account>): (names: seq<string>)
    reads accs
    ensures |names| == |accs|
    ensures forall i :: 0 <= i < |accs| ==> names[i] == accs[i].username
  {
    seq(|accs|, i reads accs requires 0 <= i < |accs| => accs[i].username)
  }

  /** `findIndex(x => x === name)`: the first position holding `name`, or -1. */
  function FirstIndex(names: seq<string>, name: string): (i: int)
    ensures -1 <= i < |names|
    ensures i >= 0 ==> names[i] == name && forall j :: 0 <= j < i ==> names[j] != name
    ensures i == -1 <==> name !in names
  {
    if names == [] then -1
    else if names[0] == name then 0
    else
      var k := FirstIndex(names[1..], name);
      assert names == [names[0]] + names[1..];
      if k == -1 then -1 else k + 1
  }

  /** The position `splice(start, 1)` removes: `start`, or the last one when `start` is -1. */
  function SplicePosition(length: nat, start: int): int
  {
    if start >= 0 then start else length - 1
  }

  /** `splice(start, 1)` for a `findIndex` result: removes one element, keeps the others in order. */
  function SpliceOne<T>(s: seq<T>, start: int): (r: seq<T>)
    requires -1 <= start < |s|
    ensures s == [] ==> r == []
    ensures s != [] ==>
      var k := SplicePosition(|s|, start);
      && |r| == |s| - 1
      && (forall j :: 0 <= j < k ==> r[j] == s[j])
      && (forall j :: k <= j < |r| ==> r[j] == s[j + 1])
      && multiset(r) + multiset{s[k]} == multiset(s)
    ensures forall x :: x in r ==> x in s
  {
    if s == [] then []
    else
      var k := SplicePosition(|s|, start);
      assert s == s[..k] + [s[k]] + s[k + 1..];
      s[..k] + s[k + 1..]
  }

  /** `movements.some(mov => mov >= threshold)`. */
  function SomeAtLeast(movements: seq<real>, threshold: real): (r: bool)
    ensures r <==> exists i :: 0 <= i < |movements| && movements[i] >= threshold
  {
    if movements == [] then false
    else
      assert forall i :: 0 < i < |movements| ==> movements[i] == movements[1..][i - 1];
      movements[0] >= threshold || SomeAtLeast(movements[1..], threshold)
  }

  /**
   * The loan rule: the requested amount is rounded down, must be positive,
   * and some earlier movement must reach a tenth of it.
   */
  predicate LoanApproved(movements: seq<real>, requested: Option<real>)
  {
    match Floor(requested)
    case None => false
    case Some(n) => SomeAtLeast(movements, n as real * 0.1) && n > 0
  }

  /** The store and the session. */
  class Bank {
    var accounts: seq<Account>
    var current: Account?
    var sorted: bool

    /** Every stored account carries the handle derived from its owner. */
    ghost predicate Valid()
      reads this, accounts
    {
      forall a :: a in accounts ==> a.HasDerivedHandle()
    }

    /** The store starts from the static records; `createUserNames` runs once. */
    constructor (accs: seq<Account>)
      modifies accs
      ensures Valid()
      ensures accounts == accs && current == null && !sorted
      ensures forall a :: a in accs ==> a.movements == old(a.movements) && a.balance == old(a.balance)
    {
      accounts := accs;
      current := null;
      sorted := false;
      new;
      CreateUserNames();
    }

    /** `createUserNames(accounts)`: stores each account's handle. */
    method CreateUserNames()
      modifies accounts
      ensures Valid()
      ensures forall a :: a in accounts ==> a.movements == old(a.movements) && a.balance == old(a.balance)
    {
      for i := 0 to |accounts|
        invariant forall j :: 0 <= j < i ==> accounts[j].username == Username(accounts[j].owner)
        invariant forall j :: 0 <= j < |accounts| ==>
          accounts[j].movements == old(accounts[j].movements) && accounts[j].balance == old(accounts[j].balance)
      {
        accounts[i].username := Username(accounts[i].owner);
      }
    }

    /** `accounts.find(acc => acc.username === name)`: the first account with that handle. */
    function Lookup(name: string): (r: Account?)
      reads this, accounts
      ensures r == null <==> forall a :: a in accounts ==> a.username != name
      ensures r != null ==> r.username == name
      ensures r != null ==>
        exists i :: 0 <= i < |accounts| && accounts[i] == r && forall j :: 0 <= j < i ==> accounts[j].username != name
    {
      var i := FirstIndex(Handles(accounts), name);
      if i >= 0 then accounts[i] else null
    }

    /**
     * Login: the account found by handle becomes current whether or not the
     * PIN matches; only a matching PIN refreshes its cached balance.
     */
    method Login(name: string, pin: Option<real>) returns (shown: Option<Screen>)
      requires Valid()
      modifies this`current, accounts`balance
      ensures Valid()
      ensures current == old(Lookup(name))
      ensures forall a :: a in accounts ==> a.movements == old(a.movements)
      ensures shown.Some? <==> current != null && PinMatches(current.pin, pin)
      ensures shown.Some? ==>
        && current.balance == Some(Balance(current.movements))
        && shown.value == ScreenOf(current.movements, current.interestRate)
      ensures forall a :: a in accounts && !(a == current && shown.Some?) ==> a.balance == old(a.balance)
    {
      current := Lookup(name);
      shown := None;
      if current != null && PinMatches(current.pin, pin) {
        var screen := current.UpdateUI();
        shown := Some(screen);
      }
    }

    /**
     * Transfer: accepted iff the receiver exists with a non-empty handle, the
     * amount is positive and at most the sender's cached balance, and the
     * receiver is not the sender.  Only the sender's cached balance is refreshed.
     */
    method Transfer(to: string, amount: Option<real>) returns (accepted: bool, shown: Option<Screen>)
      requires Valid() && current != null
      modifies accounts`movements, accounts`balance, current`movements, current`balance
      ensures Valid()
      ensures var receiver := old(Lookup(to));
        accepted <==>
          && receiver != null && receiver.username != []
          && amount.Some? && amount.value > 0.0
          && old(current.balance).Some? && amount.value <= old(current.balance).value
          && receiver != current
      ensures var receiver := old(Lookup(to));
        accepted ==>
          && receiver != null
          && current.movements == old(current.movements) + [-amount.value]
          && receiver.movements == old(receiver.movements) + [amount.value]
          && current.balance == Some(Balance(current.movements))
          && receiver.balance == old(receiver.balance)
      ensures shown == if accepted then Some(ScreenOf(current.movements, current.interestRate)) else None
      ensures !accepted ==> current.movements == old(current.movements) && current.balance == old(current.balance)
      ensures var receiver := old(Lookup(to));
        forall a :: a in accounts && a != current && (!accepted || a != receiver) ==>
          a.movements == old(a.movements) && a.balance == old(a.balance)
    {
      var receiver := Lookup(to);
      accepted := receiver != null && receiver.username != [] && amount.Some? && amount.value > 0.0
        && current.balance.Some? && amount.value <= current.balance.value && current != receiver;
      shown := None;
      if accepted {
        current.movements := current.movements + [-amount.value];
        receiver.movements := receiver.movements + [amount.value];
        var screen := current.UpdateUI();
        shown := Some(screen);
      }
    }

    /**
     * Close: when handle and PIN are the current account's, removes the
     * element at the first position holding that handle, or the last element
     * when no stored account holds it.  The current account stays current.
     */
    method Close(name: string, pin: Option<real>)
      requires Valid() && current != null
      modifies this`accounts
      ensures Valid()
      ensures current == old(current) && sorted == old(sorted)
      ensures if name == current.username && PinMatches(current.pin, pin)
        then accounts == SpliceOne(old(accounts), old(FirstIndex(Handles(accounts), name)))
        else accounts == old(accounts)
    {
      var index := FirstIndex(Handles(accounts), name);
      if current.username == name && PinMatches(current.pin, pin) {
        accounts := SpliceOne(accounts, index);
      }
    }

    /** Loan: appends the rounded-down amount when `LoanApproved`; otherwise nothing changes. */
    method Loan(requested: Option<real>) returns (accepted: bool, shown: Option<Screen>)
      requires Valid() && current != null
      modifies current`movements, current`balance
      ensures Valid()
      ensures accepted == LoanApproved(old(current.movements), requested)
      ensures accepted ==>
        && current.movements == old(current.movements) + [Floor(requested).value as real]
        && current.balance == Some(Balance(current.movements))
      ensures shown == if accepted then Some(ScreenOf(current.movements, current.interestRate)) else None
      ensures !accepted ==> current.movements == old(current.movements) && current.balance == old(current.balance)
    {
      var amount := Floor(requested);
      accepted := amount.Some? && SomeAtLeast(current.movements, amount.value as real * 0.1) && amount.value > 0;
      assert accepted == LoanApproved(current.movements, requested);
      shown := None;
      if accepted {
        current.movements := current.movements + [amount.value as real];
        var screen := current.UpdateUI();
        shown := Some(screen);
      }
    }

    /** Sort button: shows the other order and flips the flag; the stored list is untouched. */
    method ToggleSort() returns (rows: seq<Row>)
      requires current != null
      modifies this`sorted
      ensures sorted == !old(sorted)
      ensures rows == Rows(View(current.movements, sorted))
    {
      rows := DisplayMovements(current.movements, !sorted);
      sorted := !sorted;
    }
  }

  // ----- Lemmas about the handlers' rules -----

  /** A transfer moves money between two ledgers without creating or destroying any. */
  lemma TransferConservesMoney(sender: seq<real>, receiver: seq<real>, amount: real)
    ensures Balance(sender + [-amount]) == Balance(sender) - amount
    ensures Balance(receiver + [amount]) == Balance(receiver) + amount
    ensures Balance(sender + [-amount]) + Balance(receiver + [amount]) == Balance(sender) + Balance(receiver)
  {
    BalanceAppend(sender, -amount);
    BalanceAppend(receiver, amount);
  }

  /** An approved loan is positive and at most ten times some earlier movement. */
  lemma LoanBoundedByHistory(movements: seq<real>, requested: Option<real>)
    requires LoanApproved(movements, requested)
    ensures Floor(requested).Some? && Floor(requested).value > 0
    ensures exists i :: 0 <= i < |movements| && Floor(requested).value as real <= 10.0 * movements[i]
  {
    var n := Floor(requested).value;
    var i :| 0 <= i < |movements| && movements[i] >= n as real * 0.1;
    assert n as real <= 10.0 * movements[i];
  }

  /** With movements 430, 1000, 700, 50, 90 a loan of 50 passes (430 >= 5) and one of 20000 fails (1000 < 2000). */
  lemma LoanExamples(movements: seq<real>)
    requires movements == [430.0, 1000.0, 700.0, 50.0, 90.0]
    ensures LoanApproved(movements, Some(50.0))
    ensures !LoanApproved(movements, Some(20000.0))
    ensures !LoanApproved(movements, Some(0.5)) && !LoanApproved(movements, None)
  {
    assert movements[0] >= 50.0 * 0.1;
    assert forall i :: 0 <= i < |movements| ==> movements[i] < 20000.0 * 0.1;
  }

  /** When a stored account holds the handle, close removes the first such account and no other. */
  lemma {:induction false} CloseRemovesFirstMatch<T>(s: seq<T>, names: seq<string>, k: nat)
    requires |names| == |s| && k < |s|
    requires forall j :: 0 <= j < k ==> names[j] != names[k]
    ensures SpliceOne(s, FirstIndex(names, names[k])) == s[..k] + s[k + 1..]
  {
    var r := SpliceOne(s, FirstIndex(names, names[k]));
    assert FirstIndex(names, names[k]) == k;
    assert |r| == |s[..k] + s[k + 1..]|;
    forall j | 0 <= j < |r| ensures r[j] == (s[..k] + s[k + 1..])[j] {
      if j < k { assert r[j] == s[j]; } else { assert r[j] == s[j + 1]; }
    }
  }

  /** When no stored account holds the handle, close removes the last account. */
  lemma {:induction false} CloseWithoutMatchRemovesLast<T>(s: seq<T>, names: seq<string>, name: string)
    requires |names| == |s| && s != []
    requires name !in names
    ensures SpliceOne(s, FirstIndex(names, name)) == s[..|s| - 1]
  {
    var r := SpliceOne(s, FirstIndex(names, name));
    assert FirstIndex(names, name) == -1;
    forall j | 0 <= j < |r| ensures r[j] == s[..|s| - 1][j] {
      assert r[j] == s[j];
    }
  }
}
