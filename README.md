# FinSim accounts, schedules and money movers in Dafny

This project models the core of FinSim's `tools.py`, the building blocks of a
personal-finance simulation:

- `BankAccount`: a ledger of dated, numbered entries whose balances chain. The
  account starts at its first `update`. On each firing date of its compounding
  schedule it posts the interest accrued day by day.
- `Asset`: a financed or owned-outright purchase. It keeps an equity history
  revalued on each firing date of its compounding rule (monthly by default) by one
  month of appreciation, and is paid down by `payment`.
- `Schedule`: the firing dates expanded from a rule name. `onSchedule` gives
  the window a firing date closes.
- The schedule-driven movers `Revenue`, `Transfer` and `Payment`.

Modules:

- `Wrappers`: `Option`, `Result` and `Outcome`.
- `Calendar`: civil dates and day ordinals, with `_year`, `_month` and `_week`.
- `Schedules`: rule expansion and `onSchedule`.
- `Ledgers`: ledger entries and the pure operations on them, namely numbering,
  posting, `total`, `getHistory` and the interest of `compound`.
- `Accounts`: the classes `BankAccount` and `Asset`.
- `Movers`: the classes `Revenue`, `Transfer` and `Payment`.

Representation choices:

- Money is `real`.
- A date is a day ordinal: 0001-01-01 is day 1 and consecutive days differ
  by 1.
- A ledger is a sequence of entries in insertion order. The per-date view
  ("last entry of each date") is a map from dates to entries.
- A class's `update` takes a `Date`. A random draw, where FinSim makes
  one, is a `draw` parameter.

Where FinSim's Python code does something other than what its names,
comments and messages suggest, the model follows the code:

- A `Payment` paying from another account never flips `Own`, although
  `Asset.payment` prints 'Loan paid off!' (tools.py:220) when it does. The
  mover cuts a payment larger than the loan balance down to exactly the
  balance, and `Asset.payment` marks the asset owned only when the amount
  is strictly larger than the balance. So a loan paid down from another
  account reaches a zero balance with `Own` still false, and later firings
  keep posting payments of zero (`Movers.Payment.PayDue`, `Movers.Due`).
  Paying from the loan account itself is different: its balance is debited
  once by the withdrawal and again by the payment, and the second debit can
  flip `Own`.
- An owned asset's equity is not its market value, although tools.py:237-238
  records the bare market value for a date missing from the ledger. The
  recorded equity is the market value less the ledger balance of that date.
  The account's interest posting always puts a firing date into the ledger,
  so this holds for owned assets too (`Accounts.FiringDayEquity`, `Accounts.OwnedOutrightEquity`).
- The appreciation rate is redrawn on December 31, which is when `_year`
  fires, not on January 1 as the comment "if today is a new year"
  (tools.py:244) suggests.
- `update` adds no placeholder entry for dates that post nothing.
- The interest window is filled from the last balance. Before the first
  ledger date the window is filled with zero, otherwise with the account's
  current last balance. `compound`'s other branch needs unique ledger dates,
  and opening an account always posts two entries on one date.

## Model

| member | source | states |
|---|---|---|
| Calendar.YearEnd | tools.py:78-81 | `_year` fires exactly on December 31 and returns January 1 of the same year, `YearLength - 1` days earlier |
| Calendar.MonthJump | tools.py:84 | 32 days after the first of a month lies in the following month, so resetting the day gives that month's first |
| Calendar.MonthEnd | tools.py:83-86 | `_month` fires exactly on the last day of the month and returns the first of that month |
| Calendar.WeekEnd | tools.py:88-91 | `_week` fires exactly on Sundays and returns the Monday six days earlier |
| Schedules.ParseRuleNames | tools.py:260-282 | the five rule names parse to their rules and nothing else parses to a rule |
| Schedules.FromRule | tools.py:253-283 | definition of the rule expansion; properties in `Schedules.FromRuleShape`, `Schedules.MonthlyShape`, `Schedules.YearlyShape` |
| Schedules.FromDates | tools.py:284-285 | definition: a table's schedule is its index dates; properties in `Movers.TableAmountsFound` |
| Schedules.FromRuleShape | tools.py:253-283 | a rule's schedule has `36500 / divs` occurrences, strictly increasing, the first being the start date |
| Schedules.ProgressionIncreasing | tools.py:268-275 | daily, weekly and biweekly expansions are increasing runs of the given length starting at the start date |
| Schedules.MonthlyShape | tools.py:276-283 | the monthly expansion has the requested count, is increasing and starts after the month's start |
| Schedules.YearlyShape | tools.py:276-283 | the yearly expansion has the requested count, is increasing and starts after the year's start |
| Schedules.MissingYearDay | tools.py:276-283 | a year lacks the start's day of month only for February 29 in a common year, and such years end within a 400-year cycle |
| Schedules.OnSchedule | tools.py:299-313 | fires exactly on dates of the schedule, and the window it returns ends on that date |
| Schedules.OnScheduleAt | tools.py:303-311 | the first occurrence's window is that single day; a later one's runs from the day after the previous occurrence |
| Schedules.WindowsTile | tools.py:303-311 | consecutive windows are non-empty and adjacent, so interest windows neither overlap nor leave gaps |
| Schedules.FirstFiring | tools.py:123-134 | a schedule fires on its own start date with the one-day window |
| Ledgers.Append | tools.py:172-181 | definition of `updateLedger`'s posting; properties in `Ledgers.AppendWellFormed`, `Ledgers.NextNumIsCount`, `Ledgers.HistoryAfterAppend` |
| Ledgers.NextNumIsCount | tools.py:172-179 | the number given to a new entry counts the entries already on its date |
| Ledgers.AppendWellFormed | tools.py:172-181 | posting appends one entry, changes no earlier entry, moves the balance by the amount and keeps the ledger well formed |
| Ledgers.OpeningWellFormed | tools.py:99-111 | a new ledger is an Open row of zero then a Deposit of the initial balance on the same date, and it is well formed |
| Ledgers.AppendNonNegative | tools.py:172-181 | posting onto a non-negative ledger keeps it non-negative when the new balance is non-negative |
| Ledgers.OpeningNonNegative | tools.py:99-111 | a non-negative initial balance opens a non-negative ledger |
| Ledgers.LastBalanceIsSum | tools.py:172-181 | the balance of a well-formed ledger is the sum of all posted amounts |
| Ledgers.Total | tools.py:167-170 | definition of `total`; properties in `Ledgers.TotalAppend` |
| Ledgers.TotalAppend | tools.py:167-170 | posting adds its amount to the total of its own action and leaves every other action's total alone |
| Ledgers.HistoryKeys | tools.py:183-190 | the per-date view has exactly the ledger's dates |
| Ledgers.HistoryValue | tools.py:183-190 | each date maps to its last entry in insertion order |
| Ledgers.HistoryFromLedger | tools.py:183-190 | every value of the per-date view is an entry of the ledger |
| Ledgers.HistoryAfterAppend | tools.py:172-190 | after a posting, its date's entry in the per-date view is the new entry with the new balance |
| Ledgers.GetHistory | tools.py:183-190 | succeeds exactly for a started account's ledger and one of its columns; keyed by the ledger's dates; each date holds its last entry's value in that column |
| Ledgers.InterestDue | tools.py:139-162 | definition of `compound`'s interest; properties in `Ledgers.InterestNonNegative`, `Ledgers.QuietWindowInterest`, `Ledgers.OpeningDayInterest` |
| Ledgers.InterestNonNegative | tools.py:136-165 | a ledger with no negative balance earns non-negative interest at a non-negative rate over any window |
| Ledgers.QuietWindowInterest | tools.py:139-162 | over a window with no entries, interest is days × carried balance × rate/365 |
| Ledgers.OpeningDayInterest | tools.py:123-165 | compounding the one-day window on the opening date yields the initial balance × rate/365 |
| Accounts.BankAccount.constructor | tools.py:72-76 | a new account keeps its parameters and is not started |
| Accounts.BankAccount.Balance | tools.py:181 | the last balance is the sum of every amount posted to a well-formed ledger |
| Accounts.BankAccount.UpdateLedger | tools.py:172-181 | the ledger becomes the posting of the entry, and well-formedness and numbering are kept |
| Accounts.BankAccount.Initialize | tools.py:99-111 | the ledger becomes Open then Deposit of the initial balance, and the schedule is anchored at the date |
| Accounts.BankAccount.Deposit | tools.py:96-97 | posts a Deposit of the amount; a non-negative amount keeps the balances non-negative |
| Accounts.BankAccount.Withdraw | tools.py:113-118 | succeeds iff the balance covers the amount; then posts the negated amount, otherwise nothing changes; never goes negative |
| Accounts.BankAccount.TransferIn | tools.py:120-121 | posts a transfer labelled with the source's name; a source without a name fails and posts nothing |
| Accounts.BankAccount.Compound | tools.py:136-165 | posts the window's interest dated at the window's end; non-negative balances stay non-negative |
| Accounts.BankAccount.Update | tools.py:123-134 | the new ledger and schedule are `Updated` of the old ones; the first call opens the account and posts one day's interest; balances stay non-negative |
| Accounts.OpeningAccrual | tools.py:130-165 | compounding on the opening date, when it fires the schedule with the one-day window, posts one day of interest on the initial balance |
| Accounts.BankAccount.FirstUpdate | tools.py:123-134 | the first `update` opens the account and compounds the one-day window on the initial balance |
| Accounts.BankAccount.UpdatedNonNegative | tools.py:123-165 | with a non-negative initial balance and rate, `update` never makes a balance negative |
| Accounts.Upsert | tools.py:241-242 | definition of `.loc[date] = row`; properties in `Accounts.UpsertShape` |
| Accounts.EquityOn | tools.py:236-240 | definition of the recorded equity; properties in `Accounts.FiringDayEquity`, `Accounts.OwnedOutrightEquity` |
| Accounts.UpsertShape | tools.py:241-242 | a row for a new date is appended; a row for a present date replaces that date's row at its position, keeps the length and leaves every other row as it was |
| Accounts.UpsertNew | tools.py:241-242 | a row for a date not yet in the history is appended at the end |
| Accounts.UpsertInPlace | tools.py:241-242 | the row of a present date is replaced at its own position; the rows before and after it are unchanged |
| Accounts.FiringDayEquity | tools.py:235-242 | on a firing date the recorded equity is the market value less the balance just reached |
| Accounts.BankAccount.ZeroRateBalance | tools.py:123-165 | at a zero rate `update` keeps the balance at the initial balance, from any ledger whose balance is already the initial balance |
| Accounts.OwnedOutrightEquity | tools.py:207-242 | an owned-outright (zero-rate) account whose balance is still the purchase equity records, at any firing date of any later update, the market value less the purchase equity |
| Accounts.Asset.constructor | tools.py:194-216 | principal == equity gives an owned, zero-rate account of the equity; otherwise a financed account of principal − equity with the loan's figures |
| Accounts.Asset.Pay | tools.py:218-224 | an amount above the balance pays exactly the balance and marks the asset owned; otherwise it debits the amount and leaves `own` alone; the balance never ends below zero |
| Accounts.Asset.Update | tools.py:226-246 | updates the account; seeds the equity history at the opening date, or on a firing date revalues by a month of appreciation and records the equity; redraws the rate on December 31; an owned-outright asset's balance stays at the purchase equity |
| Movers.ValidateRevenue | tools.py:33-44 | rejects unsupported modes; an accepted pair is the mode and argument of the validated amount |
| Movers.ValidateRoundTrip | tools.py:33-44 | every amount of every mode passes validation under its own mode |
| Movers.ValidateRejectsMismatch | tools.py:33-44 | an argument of the wrong kind for the mode is rejected |
| Movers.GetAmount | tools.py:46-53 | a fixed amount, the draw, or a table row's amount, and succeeds on a table exactly on its row dates |
| Movers.GetAmountAsWritten | tools.py:46-53 | indexing a table by a date selects a column and always fails |
| Movers.TableAmountsFound | tools.py:55-68 | a table revenue's every firing date finds its amount |
| Movers.TableLookupDiscrepancy | tools.py:53 | a one-row table: the lookup as written fails where the row lookup finds 100 |
| Movers.Revenue.constructor | tools.py:24-32 | a new revenue keeps its validated amount, account, rule and name, and has no schedule yet |
| Movers.Revenue.Create | tools.py:24-44 | a revenue exists exactly when its mode and amount pass validation |
| Movers.Revenue.Update | tools.py:55-68 | builds the schedule on the first call; deposits the date's amount exactly on firing dates, a table's amount through the row lookup of the Findings row |
| Movers.Transfer.constructor | tools.py:317-322 | a new transfer keeps its accounts, amount and rule, and has no schedule yet |
| Movers.Transfer.Update | tools.py:324-337 | needs a started target only when the withdrawal succeeds; on a firing date withdraws and, on success, credits the target, including when source and target are one account; a source without a name fails after the withdrawal |
| Movers.TransferConserves | tools.py:331-337 | between distinct accounts a completed transfer keeps the sum of the two balances |
| Movers.ResolvePaymentAmount | tools.py:350-353 | definition of the amount rule (Python truthiness of `amount`, else `MonthlyPayment`); properties in `Movers.PaymentAmountOfAsset` |
| Movers.PaymentAmountOfAsset | tools.py:207-215 | without a non-zero amount of its own, a payment resolves exactly when the asset is financed (principal differs from equity), and then takes the loan's monthly payment |
| Movers.Due | tools.py:368-383 | the amount paid is the payment or the loan balance, whichever is smaller |
| Movers.Payment.constructor | tools.py:341-353 | a new payment keeps its accounts, rule and resolved amount, and has no schedule yet |
| Movers.Payment.Create | tools.py:341-353 | a payment exists exactly when its amount resolves; without a non-zero amount, exactly when the asset is financed |
| Movers.Payment.PayDue | tools.py:365-383 | withdraws the amount due and, on success, pays it; from another account `own` is unchanged and the loan balance stays non-negative; from the loan account itself the second debit may pay off the loan |
| Movers.Payment.Update | tools.py:355-383 | builds the schedule on the first call; only while not owned and on a firing date makes the payment `PayDue` describes, and otherwise changes no ledger |

## Left out

- The entry `id` (a UUID) is not modelled, and neither is the `id` column. `getHistory` accepts the other three columns. Its unused `transaction` parameter is dropped.
- The random draws (numpy distributions chosen by name) become `draw` parameters, and the distribution name is not modelled.
- The mortgage library's loan figures become the parameters `loanPayment` and `loanRatio`, and the loan term is dropped.
- A schedule given as a dictionary of recurrence arguments is not modelled. So are `Schedule.format` and `Schedule.rule`, beyond the expansion of the five rule names.
- Rule names are parsed to a `Rule` when an object is built. FinSim fails on an unknown name only at the first `update`.
- Dates are compared as day ordinals, and the comparison of dates with timestamps is not modelled.
- There is no upper bound on dates: a schedule may run past year 9999, where dateutil stops the expansion and returns a shorter list; pandas timestamps, used for ledger dates, already end in 2262.
- Amounts are exact reals, so floating-point rounding is not modelled.
- `Expense`, `subclass_check`, `_day`, and the printed messages are not modelled.
- Investment, Liability, `currentBalance` and the Simulation driver are not part of this model. Neither are carAnalysis.py and simulationAnalyzer.py.
- Movers require the accounts they read on a firing date to be started: a `Transfer`'s source, and its target when the withdrawal succeeds; a `Payment`'s source and the asset's account, whose balance sets the amount due. FinSim fails with a missing ledger in those cases.
- Accounts.BankAccount.UpdateLedger, Accounts.BankAccount.Deposit, Accounts.BankAccount.Withdraw, Accounts.BankAccount.TransferIn, Accounts.BankAccount.Compound: require a started account, where FinSim raises AttributeError (there is no `Ledger` before the first `update`); the model does not describe that error.
- Ledgers.Total: an empty ledger totals 0.0, where FinSim raises AttributeError on an account whose first `update` has not run; a started account's ledger is never empty.
- Constructor defaults are not modelled; every argument is explicit. FinSim's defaults are `BankAccount(rule='yearly', rate=0.06, name='None')` (tools.py:72), `Asset(rule='monthly', rate=0.06, term=30, name=None, time_value=0.03)` (tools.py:194-195) and `Revenue(mode='simple', rule='biweekly', name='None')` (tools.py:24). `Asset`'s default `name=None` is the name with which a transfer from it fails in `Accounts.BankAccount.TransferIn`.
- Movers.Revenue.Update: a table with several rows on one date yields the first row's amount.
- The type check that a payment targets an `Asset` is enforced by the types, and `isinstance` on booleans is not modelled.

## Findings

| source | as written | input that shows it | evidently intended | confidence | as-written member | corrected member |
|---|---|---|---|---|---|---|
| tools.py:53 | in table mode, `getAmount` indexes the table by the date, which looks the date up among the column labels and raises a KeyError | a table whose index holds `datetime.date` values, with one row dated on a firing date and one column `amount` (with a DatetimeIndex the Timestamps never match the `date` looked up at tools.py:302, so line 53 is not reached) | return the amount of the row dated on that date | medium, not executed | Movers.GetAmountAsWritten | Movers.GetAmount |
