/**
 * Client runs over the script's own store (`account1`, `account2`), showing
 * what callers can conclude from the handlers' contracts alone.
 */
module Scenarios {
  import opened Inputs
  import opened Usernames
  import opened Bank

  /** "Jonas Schmedtmann" logs in as "js", "Jessica Davis" as "jd". */
  lemma SampleHandles()
    ensures Username("Jonas Schmedtmann") == "js"
    ensures Username("Jessica Davis") == "jd"
  {
    assert "Jonas Schmedtmann" == "Jonas" + " " + "Schmedtmann";
    TwoWordOwner("Jonas", "Schmedtmann");
    assert "Jessica Davis" == "Jessica" + " " + "Davis";
    TwoWordOwner("Jessica", "Davis");
  }

  /** The movements of `account1` (Jonas Schmedtmann). */
  function JonasMovements(): seq<real>
  {
    [200.0, 455.23, -306.5, 25000.0, -642.21, -133.9, 79.97, 1300.0]
  }

  /** The movements of `account2` (Jessica Davis). */
  function JessicaMovements(): seq<real>
  {
    [5000.0, 3400.0, -150.0, -790.0, -3210.0, -1000.0, 8500.0, -30.0]
  }

  /** The store of the script: `account1` and `account2`, with their handles derived. */
  method SampleStore() returns (bank: Bank, jonas: Account, jessica: Account)
    ensures fresh(bank) && fresh(jonas) && fresh(jessica)
    ensures bank.Valid() && bank.accounts == [jonas, jessica] && bank.current == null && !bank.sorted
    ensures bank.Lookup("js") == jonas
    ensures jonas.username == "js" && jonas.pin == 1111 && jonas.balance == None
    ensures jonas.movements == JonasMovements()
    ensures jessica.username == "jd" && jessica.pin == 2222 && jessica.balance == None
    ensures jessica.movements == JessicaMovements()
  {
    jonas := new Account("Jonas Schmedtmann", JonasMovements(), 1.2, 1111);
    jessica := new Account("Jessica Davis", JessicaMovements(), 1.5, 2222);
    bank := new Bank([jonas, jessica]);
    assert jonas.HasDerivedHandle() && jessica.HasDerivedHandle();
    SampleHandles();
    assert Handles(bank.accounts)[0] == "js";
  }

  /** The sample store after logging in as "js" with the given PIN. */
  method LoginAsJonas(pin: Option<real>) returns (bank: Bank, jonas: Account, jessica: Account, shown: Option<Screen>)
    ensures fresh(bank) && fresh(jonas) && fresh(jessica)
    ensures bank.Valid() && bank.accounts == [jonas, jessica] && bank.current == jonas
    ensures jonas.username == "js" && jonas.pin == 1111 && jessica.username == "jd"
    ensures jonas.movements == JonasMovements()
    ensures shown.Some? <==> PinMatches(1111, pin)
    ensures shown.None? ==> jonas.balance == None
  {
    bank, jonas, jessica := SampleStore();
    shown := bank.Login("js", pin);
  }

  /**
   * A login with the wrong PIN still makes "js" current.  A transfer is then
   * refused, because the cached balance was never computed, but a loan is
   * granted on the account whose PIN was not given.
   */
  method WrongPinScenario() returns (transferred: bool, lent: bool, movements: seq<real>)
    ensures !transferred && lent
    ensures movements == JonasMovements() + [1000.0]
  {
    var bank, jonas, jessica, shown := LoginAsJonas(Some(1234.0));
    transferred, shown := bank.Transfer("jd", Some(100.0));
    assert jonas.movements == JonasMovements() by {
      assert !transferred;
    }
    assert LoanApproved(jonas.movements, Some(1000.9)) && Floor(Some(1000.9)) == Some(1000) by {
      assert Floor(Some(1000.9)).value == 1000;
      assert jonas.movements[0] >= 1000.0 * 0.1;
    }
    lent, shown := bank.Loan(Some(1000.9));
    movements := jonas.movements;
  }

  /**
   * Closing "js" twice with the right PIN: the first close removes Jonas's
   * account; the second finds no "js" in the store and removes the last
   * account, Jessica's.  Jonas stays current throughout.
   */
  method CloseTwiceScenario() returns (remaining: nat, stillCurrent: bool)
    ensures remaining == 0 && stillCurrent
  {
    var bank, jonas, jessica, shown := LoginAsJonas(Some(1111.0));
    assert Handles(bank.accounts)[0] == "js";
    bank.Close("js", Some(1111.0));
    assert bank.accounts == [jessica];
    bank.Close("js", Some(1111.0));
    remaining := |bank.accounts|;
    stillCurrent := bank.current == jonas;
  }

  /** "js" logs in and closes its own account: Jonas stays current but is no longer stored. */
  method CloseOwnAccount() returns (bank: Bank, jonas: Account)
    ensures fresh(jonas)
    ensures bank.Valid() && bank.current == jonas && jonas !in bank.accounts && |bank.accounts| == 1
    ensures jonas.username == "js" && jonas.movements != [] && jonas.movements[0] == 200.0
  {
    var jessica, shown;
    bank, jonas, jessica, shown := LoginAsJonas(Some(1111.0));
    assert Handles(bank.accounts)[0] == "js";
    bank.Close("js", Some(1111.0));
    assert bank.accounts == [jessica];
  }

  /**
   * After closing "js", Jonas is still current though no longer stored.  A
   * loan still goes to his account, and his handle stays "js".
   */
  method LoanAfterCloseScenario() returns (lent: bool, handle: string, stored: nat)
    ensures lent && handle == "js" && stored == 1
  {
    var bank, jonas := CloseOwnAccount();
    assert LoanApproved(jonas.movements, Some(50.0)) by {
      assert Floor(Some(50.0)).value == 50;
      assert jonas.movements[0] >= 50.0 * 0.1;
    }
    stored := |bank.accounts|;
    var shown;
    lent, shown := bank.Loan(Some(50.0));
    handle := jonas.username;
  }
}
