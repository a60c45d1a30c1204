/**
 * The ledger arithmetic of an account: balance, income, out and interest,
 * each a filter/map/reduce pipeline over the list of movements (positive
 * amounts are deposits, negative ones withdrawals).
 *
 * Every pipeline is defined from the back of the sequence, the way
 * `reduce((acc, curr) => acc + curr, 0)` folds from the left: the total of
 * a list is the total of all but its last element, plus that element.
 */
module Ledger {

  /** `reduce((acc, curr) => acc + curr, 0)`. */
  function Sum(s: seq<real>): real
  {
    if s == [] then 0.0 else Sum(s[..|s| - 1]) + s[|s| - 1]
  }

  predicate IsDeposit(m: real) { m > 0.0 }

  predicate IsWithdrawal(m: real) { m < 0.0 }

  /** An interest amount is paid only when it reaches one unit. */
  predicate Qualifies(interest: real) { interest >= 1.0 }

  /** `filter(keep)`: the elements satisfying `keep`, in their original order. */
  function Filter(s: seq<real>, keep: real -> bool): (r: seq<real>)
    ensures |r| <= |s|
    ensures forall x :: x in r <==> x in s && keep(x)
    ensures forall i :: 0 <= i < |r| ==> keep(r[i])
  {
    if s == [] then []
    else
      assert s == s[..|s| - 1] + [s[|s| - 1]];
      Filter(s[..|s| - 1], keep) + (if keep(s[|s| - 1]) then [s[|s| - 1]] else [])
  }

  /** Interest earned on one deposit at a percentage rate. */
  function DepositInterest(deposit: real, rate: real): real
  {
    deposit * rate / 100.0
  }

  /** `map(deposit => (deposit * interestRate) / 100)`. */
  function DepositInterests(deposits: seq<real>, rate: real): (r: seq<real>)
    ensures |r| == |deposits|
    ensures forall i :: 0 <= i < |r| ==> r[i] == DepositInterest(deposits[i], rate)
  {
    if deposits == [] then []
    else DepositInterests(deposits[..|deposits| - 1], rate) + [DepositInterest(deposits[|deposits| - 1], rate)]
  }

  /** The balance cached on the account by `calcDisplayBalance`. */
  function Balance(movements: seq<real>): real
  {
    Sum(movements)
  }

  /** Sum of the deposits. */
  function Income(movements: seq<real>): real
  {
    Sum(Filter(movements, IsDeposit))
  }

  /** Sum of the withdrawals (a non-positive number; shown as its absolute value). */
  function Out(movements: seq<real>): real
  {
    Sum(Filter(movements, IsWithdrawal))
  }

  /** The deposit interests that reach one unit. */
  function QualifyingInterests(movements: seq<real>, rate: real): seq<real>
  {
    Filter(DepositInterests(Filter(movements, IsDeposit), rate), Qualifies)
  }

  /** Total interest: the qualifying deposit interests, summed. */
  function Interest(movements: seq<real>, rate: real): real
  {
    Sum(QualifyingInterests(movements, rate))
  }

  datatype Summary = Summary(income: real, out: real, interest: real)

  /** The three figures `calclDisplaySummary` shows (out is shown as its absolute value). */
  function DisplaySummary(movements: seq<real>, rate: real): (r: Summary)
    ensures r.income >= 0.0 && r.out <= 0.0 && r.interest >= 0.0
    ensures r.income + r.out == Balance(movements)
  {
    IncomeNonNegative(movements);
    OutNonPositive(movements);
    InterestNonNegative(movements, rate);
    BalanceIsIncomePlusOut(movements);
    Summary(Income(movements), Out(movements), Interest(movements, rate))
  }

  // ----- Independent reference definition of the interest -----

  /** What one movement contributes to the interest total. */
  function InterestOf(m: real, rate: real): real
  {
    if IsDeposit(m) && Qualifies(DepositInterest(m, rate)) then DepositInterest(m, rate) else 0.0
  }

  /** Interest computed movement by movement, without intermediate lists. */
  function InterestByMovement(movements: seq<real>, rate: real): real
  {
    if movements == [] then 0.0
    else InterestByMovement(movements[..|movements| - 1], rate) + InterestOf(movements[|movements| - 1], rate)
  }

  // ----- Lemmas -----

  lemma {:induction false} SumAppend(s: seq<real>, t: seq<real>)
    ensures Sum(s + t) == Sum(s) + Sum(t)
    decreases |t|
  {
    if t == [] {
      assert s + t == s;
    } else {
      assert (s + t)[..|s + t| - 1] == s + t[..|t| - 1];
      SumAppend(s, t[..|t| - 1]);
    }
  }

  lemma BalanceAppend(movements: seq<real>, m: real)
    ensures Balance(movements + [m]) == Balance(movements) + m
  {
    assert (movements + [m])[..|movements|] == movements;
  }

  /** The filter of an extended list is the filter of the list, extended. */
  lemma FilterAppend(s: seq<real>, m: real, keep: real -> bool)
    ensures Filter(s + [m], keep) == Filter(s, keep) + (if keep(m) then [m] else [])
  {
    assert (s + [m])[..|s|] == s;
  }

  /** `filter` keeps every occurrence of a kept value and none of the others. */
  lemma {:induction false} FilterKeepsOccurrences(s: seq<real>, keep: real -> bool)
    ensures forall x :: multiset(Filter(s, keep))[x] == if keep(x) then multiset(s)[x] else 0
  {
    if s != [] {
      var init, last := s[..|s| - 1], s[|s| - 1];
      assert s == init + [last];
      FilterKeepsOccurrences(init, keep);
    }
  }

  lemma {:induction false} SumNonNegative(s: seq<real>)
    requires forall i :: 0 <= i < |s| ==> s[i] >= 0.0
    ensures Sum(s) >= 0.0
  {
    if s != [] {
      SumNonNegative(s[..|s| - 1]);
    }
  }

  lemma {:induction false} SumNonPositive(s: seq<real>)
    requires forall i :: 0 <= i < |s| ==> s[i] <= 0.0
    ensures Sum(s) <= 0.0
  {
    if s != [] {
      SumNonPositive(s[..|s| - 1]);
    }
  }

  /** Each summand at least one: the sum is at least the count. */
  lemma {:induction false} SumAtLeastCount(s: seq<real>)
    requires forall i :: 0 <= i < |s| ==> s[i] >= 1.0
    ensures Sum(s) >= |s| as real
  {
    if s != [] {
      SumAtLeastCount(s[..|s| - 1]);
    }
  }

  lemma IncomeNonNegative(movements: seq<real>)
    ensures Income(movements) >= 0.0
  {
    SumNonNegative(Filter(movements, IsDeposit));
  }

  lemma OutNonPositive(movements: seq<real>)
    ensures Out(movements) <= 0.0
  {
    SumNonPositive(Filter(movements, IsWithdrawal));
  }

  /** Balance = income + out: a zero movement falls in neither filter and adds nothing. */
  lemma {:induction false} BalanceIsIncomePlusOut(movements: seq<real>)
    ensures Balance(movements) == Income(movements) + Out(movements)
  {
    if movements != [] {
      var init, last := movements[..|movements| - 1], movements[|movements| - 1];
      assert movements == init + [last];
      BalanceIsIncomePlusOut(init);
      FiguresAppend(init, last, 0.0);
    }
  }

  /** Every paid interest is at least one unit, so the total is at least the number of them. */
  lemma InterestAtLeastQualifyingCount(movements: seq<real>, rate: real)
    ensures Interest(movements, rate) >= |QualifyingInterests(movements, rate)| as real
  {
    SumAtLeastCount(QualifyingInterests(movements, rate));
  }

  lemma InterestNonNegative(movements: seq<real>, rate: real)
    ensures Interest(movements, rate) >= 0.0
  {
    InterestAtLeastQualifyingCount(movements, rate);
  }

  /** Appending one movement adds exactly its own contribution to the interest. */
  lemma InterestAppend(movements: seq<real>, m: real, rate: real)
    ensures Interest(movements + [m], rate) == Interest(movements, rate) + InterestOf(m, rate)
  {
    var deposits := Filter(movements, IsDeposit);
    FilterAppend(movements, m, IsDeposit);
    if IsDeposit(m) {
      var ints := DepositInterests(deposits + [m], rate);
      assert ints == DepositInterests(deposits, rate) + [DepositInterest(m, rate)] by {
        assert (deposits + [m])[..|deposits|] == deposits;
      }
      FilterAppend(DepositInterests(deposits, rate), DepositInterest(m, rate), Qualifies);
      var kept := Filter(DepositInterests(deposits, rate), Qualifies);
      if Qualifies(DepositInterest(m, rate)) {
        assert (kept + [DepositInterest(m, rate)])[..|kept|] == kept;
      } else {
        assert kept + [] == kept;
      }
    } else {
      assert deposits + [] == deposits;
    }
  }

  /** The pipeline agrees with the movement-by-movement definition. */
  lemma {:induction false} InterestMatchesByMovement(movements: seq<real>, rate: real)
    ensures Interest(movements, rate) == InterestByMovement(movements, rate)
  {
    if movements != [] {
      var init, last := movements[..|movements| - 1], movements[|movements| - 1];
      assert movements == init + [last];
      InterestMatchesByMovement(init, rate);
      InterestAppend(init, last, rate);
    }
  }

  /** A deposit whose interest is below one unit leaves the total unchanged. */
  lemma SmallDepositEarnsNothing(movements: seq<real>, m: real, rate: real)
    requires IsDeposit(m) && DepositInterest(m, rate) < 1.0
    ensures Interest(movements + [m], rate) == Interest(movements, rate)
  {
    InterestAppend(movements, m, rate);
  }

  /** Appending one movement moves each figure by that movement's own share. */
  lemma FiguresAppend(movements: seq<real>, m: real, rate: real)
    ensures Balance(movements + [m]) == Balance(movements) + m
    ensures Income(movements + [m]) == Income(movements) + (if IsDeposit(m) then m else 0.0)
    ensures Out(movements + [m]) == Out(movements) + (if IsWithdrawal(m) then m else 0.0)
    ensures Interest(movements + [m], rate) == Interest(movements, rate) + InterestOf(m, rate)
  {
    BalanceAppend(movements, m);
    InterestAppend(movements, m, rate);
    assert Sum([m]) == m by { assert [m][..0] == []; }
    assert Income(movements + [m]) == Income(movements) + (if IsDeposit(m) then m else 0.0) by {
      FilterAppend(movements, m, IsDeposit);
      SumAppend(Filter(movements, IsDeposit), if IsDeposit(m) then [m] else []);
    }
    assert Out(movements + [m]) == Out(movements) + (if IsWithdrawal(m) then m else 0.0) by {
      FilterAppend(movements, m, IsWithdrawal);
      SumAppend(Filter(movements, IsWithdrawal), if IsWithdrawal(m) then [m] else []);
    }
  }

  /** The movements of the first sample account (`account1`). */
  predicate IsFirstSampleLedger(s: seq<real>)
  {
    && |s| == 8
    && s[0] == 200.0 && s[1] == 455.23 && s[2] == -306.5 && s[3] == 25000.0
    && s[4] == -642.21 && s[5] == -133.9 && s[6] == 79.97 && s[7] == 1300.0
  }

  /**
   * At 1.2% the first sample account earns 2.4 + 5.46276 + 300 + 15.6; the
   * deposit of 79.97 earns 0.95964, below one unit, and is left out.
   */
  lemma FirstSampleFigures(s: seq<real>)
    requires IsFirstSampleLedger(s)
    ensures Interest(s, 1.2) == 323.46276
    ensures Balance(s) == 25952.59
  {
    assert InterestByMovement(s[..1], 1.2) == 2.4 && Sum(s[..1]) == 200.0 by {
      assert s[..1][..0] == [];
    }
    assert InterestByMovement(s[..2], 1.2) == 7.86276 && Sum(s[..2]) == 655.23 by {
      assert s[..2][..1] == s[..1];
    }
    assert InterestByMovement(s[..3], 1.2) == 7.86276 && Sum(s[..3]) == 348.73 by {
      assert s[..3][..2] == s[..2];
    }
    assert InterestByMovement(s[..4], 1.2) == 307.86276 && Sum(s[..4]) == 25348.73 by {
      assert s[..4][..3] == s[..3];
    }
    assert InterestByMovement(s[..5], 1.2) == 307.86276 && Sum(s[..5]) == 24706.52 by {
      assert s[..5][..4] == s[..4];
    }
    assert InterestByMovement(s[..6], 1.2) == 307.86276 && Sum(s[..6]) == 24572.62 by {
      assert s[..6][..5] == s[..5];
    }
    assert InterestByMovement(s[..7], 1.2) == 307.86276 && Sum(s[..7]) == 24652.59 by {
      assert s[..7][..6] == s[..6];
    }
    assert s[..8] == s;
    InterestMatchesByMovement(s, 1.2);
  }
}
