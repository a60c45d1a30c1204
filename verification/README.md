# Bankist: a verified model of the account store and its ledger

Bankist is a single-page banking demo. A user logs in with a short handle
and a PIN, then sees their movements (deposits are positive amounts,
withdrawals negative), the balance, and a summary of income, out and
interest. They can transfer money to another user, request a loan, close
their account, or toggle the movement list between stored order and
ascending order.

This project models the logic behind that page in Dafny:

- `inputs.dfy` (module `Inputs`): how the handlers read numeric form
  fields. A number read with unary plus is either a number or NaN, written
  `Option<real>` here with `None` for NaN. It also covers PIN comparison
  and `Math.floor`.
- `ledger.dfy` (module `Ledger`): the balance, income, out and interest
  pipelines as recursive functions over the movements. It includes an
  independent movement-by-movement definition of interest, and lemmas
  tying the figures together: balance = income + out, interest is never
  negative, and how each figure changes when one movement is appended.
- `usernames.dfy` (module `Usernames`): deriving a handle from the owner's
  name (lower-case, split on single spaces, first character of each word).
  It is proved equal to a left-to-right scan for word starts, and `Split` is
  proved to invert `Join`.
- `display.dfy` (module `Display`): the ordering part of the movement
  list. The view is either the stored list or an ascending copy (a
  permutation, idempotent). Rows are prepended, so the rendered order is
  the reverse of the view, and each row's label follows the amount's sign.
- `bank.dfy` (module `Bank`): the mutable state. `Account` objects hold
  their movements, derived handle and cached balance. The `Bank` object
  holds the store of accounts, the current account and the sort flag. Each
  event handler is a method: login, transfer, close, loan, sort. Its form
  inputs are parameters. Its contract gives the exact acceptance condition
  and the exact new state.
- `scenarios.dfy` (module `Scenarios`): client code over the script's own
  store (Jonas Schmedtmann / "js" and Jessica Davis / "jd"). It shows
  consequences of the handlers' quirks derived from their contracts alone.

The model keeps the script's behaviour, including these quirks:

- Login makes the looked-up account current even when the PIN is wrong.
- A transfer compares the amount with the cached balance. That balance is
  absent until the account has been shown once.
- An account with an empty handle cannot receive a transfer (the handle is
  tested for truthiness).
- Closing with a handle that no stored account holds removes the last
  account, because `findIndex` returns -1 and `splice(-1, 1)` removes the
  last element.
- Closing never clears the current account.
- Showing an account renders its movements unsorted without resetting the
  sort flag.

Amounts are mathematical reals. Integers are unbounded.

## Model

| member | source | states |
|---|---|---|
| `Inputs.Floor` | script.js:229 | `Math.floor` of a field: NaN stays NaN, and a number n becomes the integer k with k <= n < k + 1 |
| `Ledger.Filter` | script.js:109-114 | `filter` keeps exactly the values of the input that satisfy the test, every kept element satisfies it, and the result is no longer than the input |
| `Ledger.FilterKeepsOccurrences` | script.js:109-114 | `filter` keeps every occurrence of a value that satisfies the test and none of any other value: the result's multiset is the input's restricted to the kept values |
| `Ledger.DepositInterests` | script.js:115-117 | `map` gives, position by position, each deposit times rate / 100 |
| `Ledger.DisplaySummary` | script.js:108-121 | income is non-negative, out is non-positive, interest is non-negative, and income + out equals the balance |
| `Ledger.SumAppend` | script.js:139 | the `reduce` sum of a concatenation is the sum of the two parts |
| `Ledger.BalanceAppend` | script.js:139 | appending a movement moves the balance by exactly that amount (the one-element case of `Ledger.SumAppend`) |
| `Ledger.IncomeNonNegative` | script.js:109-111 | the sum of the deposits is never negative |
| `Ledger.OutNonPositive` | script.js:112-114 | the sum of the withdrawals is never positive |
| `Ledger.BalanceIsIncomePlusOut` | script.js:109-114 | balance equals income plus out for every ledger; a zero movement falls in neither filter |
| `Ledger.InterestAtLeastQualifyingCount` | script.js:118-121 | every interest that is paid is at least one unit, so the total is at least their number |
| `Ledger.InterestNonNegative` | script.js:115-121 | total interest is never negative |
| `Ledger.InterestAppend` | script.js:115-121 | appending a movement adds exactly that movement's own interest share (zero for a withdrawal or a small deposit) |
| `Ledger.InterestMatchesByMovement` | script.js:115-121 | the filter/map/filter/reduce pipeline equals the movement-by-movement reference definition |
| `Ledger.SmallDepositEarnsNothing` | script.js:118-120 | a deposit whose interest is below one unit leaves the total interest unchanged |
| `Ledger.FiguresAppend` | script.js:108-121 | appending one movement changes balance, income, out and interest each by that movement's share |
| `Ledger.FirstSampleFigures` | script.js:8-12 | Jonas's sample ledger at 1.2% earns 323.46276 in interest and has balance 25952.59 |
| `Usernames.LowerChar` | script.js:130 | lower-casing a character gives no capital, and gives a space exactly for a space |
| `Usernames.ToLower` | script.js:130 | `toLowerCase` keeps the length and lower-cases each position |
| `Usernames.Split` | script.js:131 | `split(' ')` returns at least one piece, and no piece contains a space |
| `Usernames.Username` | script.js:129-133 | the handle is no longer than the owner's name and holds neither spaces nor capitals |
| `Usernames.JoinSplit` | script.js:131 | joining the pieces of a split with single spaces restores the string |
| `Usernames.SplitJoin` | script.js:131 | splitting a join of space-free words restores the words |
| `Usernames.InitialsAreWordStarts` | script.js:131-133 | first characters of the pieces, with empty pieces contributing nothing, equal the characters that start a word in a left-to-right scan |
| `Usernames.UsernameIsWordStarts` | script.js:129-133 | the handle is the lower-cased first character of every word of the owner, in order |
| `Usernames.UsernameLength` | script.js:129-133 | the handle has one character per non-empty word |
| `Usernames.TwoWordOwner` | script.js:129-133 | a two-word owner gets the two lower-cased initials |
| `Display.Insert` | script.js:93 | inserting adds exactly one occurrence of the element to the list's multiset |
| `Display.SortAscending` | script.js:93 | the sorted copy is ascending, has the same length, and is a permutation of the movements |
| `Display.Rows` | script.js:94-104 | there is one row per element of the view |
| `Display.DisplayMovements` | script.js:91-105 | the loop's prepends produce `Rows` of the view, one row per movement, where row k from the top shows view element n - 1 - k, numbered by its position |
| `Display.RowsAt` | script.js:94-104 | row k from the top is the row of view element n - 1 - k, numbered n - k |
| `Display.RowsReverseView` | script.js:104 | the rendered rows are the view in reverse order |
| `Display.RowKinds` | script.js:95 | a row is labelled deposit exactly when its amount is positive; zero is labelled withdrawal |
| `Display.InsertSorted` | script.js:93 | inserting into an ascending list keeps it ascending |
| `Display.SortedPermutationsEqual` | script.js:93 | two ascending lists with the same elements are equal, so the sorted view is unique |
| `Display.SortOfSorted` | script.js:93 | sorting an ascending list returns it unchanged |
| `Display.SortIdempotent` | script.js:93 | sorting the sorted view again changes nothing |
| `Bank.Account.constructor` | script.js:8-12 | a record starts with its owner, movements, rate and PIN; no handle and no cached balance yet |
| `Bank.Account.CalcDisplayBalance` | script.js:138-142 | the cached balance becomes the sum of the movements |
| `Bank.Account.UpdateUI` | script.js:144-151 | the balance is refreshed, and the screen shows the unsorted rows, the balance and the summary of the current movements |
| `Bank.Handles` | script.js:159 | the list of the stored accounts' handles, position by position |
| `Bank.FirstIndex` | script.js:211-213 | `findIndex` gives the first position holding the name, or -1 exactly when no position holds it |
| `Bank.SpliceOne` | script.js:218 | `splice(i, 1)` removes exactly the element at i (the last one when i is -1) and keeps the others in order |
| `Bank.SomeAtLeast` | script.js:230-232 | `some(mov => mov >= t)` holds exactly when some movement reaches t |
| `Bank.Bank.constructor` | script.js:62 | the store holds the given accounts with their handles derived, nobody is logged in, the list is unsorted, and no ledger changes |
| `Bank.Bank.CreateUserNames` | script.js:127-136 | every stored account gets the handle derived from its owner; movements and balances stay as they were |
| `Bank.Bank.Lookup` | script.js:158-160 | `find` returns the first stored account with the handle, or none exactly when no account has it |
| `Bank.Bank.Login` | script.js:158-173 | current becomes the looked-up account whatever the PIN; the account is shown and its balance refreshed exactly when the PIN matches; nothing else changes |
| `Bank.Bank.Transfer` | script.js:184-200 | accepted iff the receiver exists with a non-empty handle, the amount is positive and at most the sender's cached balance, and the receiver is not the sender; if accepted, -amount goes to the sender and +amount to the receiver; otherwise no ledger changes |
| `Bank.Bank.Close` | script.js:211-221 | when the handle and PIN are the current account's, the store loses exactly the element at `findIndex` of the handle (the last one when the handle is absent); otherwise the store is unchanged; the current account and the sort flag never change |
| `Bank.Bank.Loan` | script.js:229-237 | accepted iff the floored amount is positive and some movement reaches a tenth of it; if accepted, exactly that amount is appended and shown; otherwise the account is unchanged |
| `Bank.Bank.ToggleSort` | script.js:242-247 | the flag flips and the rows show the other order of the unchanged movements |
| `Bank.TransferConservesMoney` | script.js:196-197 | a transfer debits the sender and credits the receiver by the same amount, so the total of the two balances is unchanged |
| `Bank.LoanBoundedByHistory` | script.js:229-234 | an approved loan is positive and at most ten times some earlier movement |
| `Bank.LoanExamples` | script.js:229-234 | with movements 430, 1000, 700, 50, 90: 50 is approved; 20000, 0.5 and NaN are refused |
| `Bank.CloseRemovesFirstMatch` | script.js:211-218 | when a stored account holds the handle, closing removes that first matching account and no other |
| `Bank.CloseWithoutMatchRemovesLast` | script.js:211-218 | when no stored account holds the handle, closing removes the last account |
| `Scenarios.SampleHandles` | script.js:127-136 | "Jonas Schmedtmann" gets the handle "js" and "Jessica Davis" gets "jd" |
| `Scenarios.SampleStore` | script.js:8-62 | the script's store holds Jonas's and Jessica's accounts with their handles, PINs and movements, and "js" looks up Jonas |
| `Scenarios.LoginAsJonas` | script.js:155-178 | logging in as "js" makes Jonas current with any PIN; the screen appears exactly for PIN 1111 |
| `Scenarios.WrongPinScenario` | script.js:155-239 | after a wrong-PIN login, a transfer is refused (no cached balance) but a loan of 1000.9 appends 1000 to Jonas's movements |
| `Scenarios.CloseTwiceScenario` | script.js:209-224 | closing "js" twice empties the two-account store (the second close removes Jessica's account), and Jonas stays current |
| `Scenarios.CloseOwnAccount` | script.js:209-221 | when "js" closes its own account with the right PIN, the store shrinks to one account, and Jonas stays current with handle "js" though he is no longer stored |
| `Scenarios.LoanAfterCloseScenario` | script.js:209-237 | after "js" closes its own account, Jonas stays current outside the store, a loan of 50 is still granted to him, and his handle stays "js" |

## Left out

- Page rendering is not modelled: DOM queries, `innerHTML` and `insertAdjacentHTML`, opacity, the welcome text, focus and blur, and clearing the input fields. These are presentation side effects. The rows are modelled as values (number, label, amount) instead of HTML.
- `toFixed(2)` formatting and the `€`/`EUR` labels are not modelled. Amounts are kept as numbers.
- Event-listener wiring and `preventDefault` are not modelled. Each handler is a method call that takes its form inputs as parameters.
- JavaScript floating point is not modelled. Amounts are exact reals, so `0.1` and `rate / 100` carry no rounding error.
- A numeric field that parses to NaN is modelled as `None`. Every comparison with it is false, as in the script.
- The movement dates, currency and locale of the sample accounts are not modelled. The script never reads them.
- The unused `account3` and `account4` records are not modelled; they are never in the store. Neither are the lecture section's values.
- Bank.Bank.Loan: the script pushes the result of `toFixed(2)`, which is a string, not a number. Its `updateUI` then calls `toFixed` on that string while rendering the rows, which throws a TypeError. The balance and summary are therefore never recomputed, and the cached balance stays at its value from before the loan. Every later `updateUI` of that account throws the same way, so later transfers from it are checked against that stale balance. The model instead appends the floored number and refreshes the cached balance and the screen. It does not capture the exception or the stale balance that follows a granted loan.
- Usernames.ToLower: lower-cases ASCII capitals only. Unicode case mapping is not modelled.
- Bank.Account.constructor: the handle starts as the empty string, where the script has `undefined` until `createUserNames` runs. The store's constructor derives every handle before any handler can run, so no handler sees the difference.
- Bank.Bank.Close, Bank.Bank.Loan and Bank.Bank.ToggleSort require a current account. The script dereferences it unguarded, so these handlers throw without one.
- Bank.Bank.Transfer also requires a current account. Its condition short-circuits, though: with no receiver, an empty receiver handle, or an amount that is not positive, the script never reads `currentAccount` and does nothing. The model does not cover that logged-out case, in which the transfer is refused and nothing changes.
