/** The ledger of a `BankAccount`: an append-only list of entries in
    insertion order (what `Ledger.iloc` walks), the per-date view that
    `groupby(level=0).tail(1)` takes of it, and the interest sum of
    `compound`. The account class that owns a ledger is in module Accounts. */
module Ledgers {
  import opened Wrappers

  datatype Action = Open | Deposit | Withdraw | TransferFrom(source: string) | Interest | Payment

  /** One row `(date, num, action, amount, balance)`; `day` is a day ordinal
      and `num` numbers the entries of one day from 0. */
  datatype Entry = Entry(day: int, num: nat, action: Action, amount: real, balance: real)

  function LastBalance(l: seq<Entry>): real
    requires |l| > 0
  {
    l[|l| - 1].balance
  }

  /** Number of entries dated `day`. */
  function CountOn(l: seq<Entry>, day: int): nat
  {
    if l == [] then 0
    else CountOn(l[..|l| - 1], day) + (if l[|l| - 1].day == day then 1 else 0)
  }

  /** Largest `num` among the entries dated `day`, if there are any. */
  function MaxNumOn(l: seq<Entry>, day: int): Option<nat>
  {
    if l == [] then None
    else
      var e := l[|l| - 1];
      var m := MaxNumOn(l[..|l| - 1], day);
      if e.day != day then m
      else if m.Some? && m.value > e.num then m
      else Some(e.num)
  }

  /** The `num` that `updateLedger` gives a new entry: one more than the
      largest on that date, or 0 for a date not yet in the ledger. */
  function NextNum(l: seq<Entry>, day: int): nat
  {
    match MaxNumOn(l, day)
    case None => 0
    case Some(m) => m + 1
  }

  /** Each entry's `num` counts the entries of its date before it. */
  predicate Numbered(l: seq<Entry>)
  {
    l == [] || (Numbered(l[..|l| - 1]) && l[|l| - 1].num == CountOn(l[..|l| - 1], l[|l| - 1].day))
  }

  /** Each balance is the previous balance plus the entry's amount. */
  predicate Chained(l: seq<Entry>)
  {
    |l| <= 1 || (Chained(l[..|l| - 1]) && l[|l| - 1].balance == l[|l| - 2].balance + l[|l| - 1].amount)
  }

  /** A ledger as `initialize` starts it and `updateLedger` keeps it: an
      `Open` row of zero, a second row on the same date, numbered and
      chained entries. */
  predicate WellFormed(l: seq<Entry>)
  {
    |l| >= 2 && l[0] == Entry(l[0].day, 0, Open, 0.0, 0.0) && l[1].day == l[0].day
    && Numbered(l) && Chained(l)
  }

  /** No balance of the ledger is negative. */
  predicate NonNegative(l: seq<Entry>)
  {
    l == [] || (NonNegative(l[..|l| - 1]) && l[|l| - 1].balance >= 0.0)
  }

  /** The ledger after posting `amount` with `action` on `day`: one new
      entry, numbered after the day's earlier entries, whose balance is the
      last balance plus the amount. */
  function Append(l: seq<Entry>, action: Action, day: int, amount: real): seq<Entry>
    requires |l| > 0
  {
    l + [Entry(day, CountOn(l, day), action, amount, LastBalance(l) + amount)]
  }

  /** The ledger `initialize` seeds: the `Open` row, then a `Deposit` of the
      initial balance. */
  function Opening(day: int, initial: real): seq<Entry>
  {
    Append([Entry(day, 0, Open, 0.0, 0.0)], Deposit, day, initial)
  }

  // ---------------------------------------------------------------------
  // Sequence numbers

  lemma {:induction false} MaxNumIsCount(l: seq<Entry>, day: int)
    requires Numbered(l)
    ensures MaxNumOn(l, day) == if CountOn(l, day) == 0 then None else Some(CountOn(l, day) - 1)
  {
    if l != [] {
      MaxNumIsCount(l[..|l| - 1], day);
    }
  }

  /** `max(num on that date) + 1`, or 0 for a new date, is the number of
      entries already on that date. */
  lemma NextNumIsCount(l: seq<Entry>, day: int)
    requires Numbered(l)
    ensures NextNum(l, day) == CountOn(l, day)
  {
    MaxNumIsCount(l, day);
  }

  /** Posting keeps a ledger well formed and changes no earlier entry. */
  lemma AppendWellFormed(l: seq<Entry>, action: Action, day: int, amount: real)
    requires |l| > 0
    ensures var l' := Append(l, action, day, amount);
            |l'| == |l| + 1 && l'[..|l|] == l && LastBalance(l') == LastBalance(l) + amount
            && (Numbered(l) ==> Numbered(l')) && (WellFormed(l) ==> WellFormed(l'))
  {
    var l' := Append(l, action, day, amount);
    assert l'[..|l|] == l;
  }

  lemma OpeningWellFormed(day: int, initial: real)
    ensures WellFormed(Opening(day, initial))
    ensures Opening(day, initial) == [Entry(day, 0, Open, 0.0, 0.0), Entry(day, 1, Deposit, initial, initial)]
    ensures LastBalance(Opening(day, initial)) == initial
  {
    var o := [Entry(day, 0, Open, 0.0, 0.0)];
    assert o[..0] == [];
    assert CountOn(o, day) == 1;
    assert Numbered(o);
    AppendWellFormed(o, Deposit, day, initial);
  }

  /** Posting onto a non-negative ledger keeps it non-negative when the new
      balance is. */
  lemma AppendNonNegative(l: seq<Entry>, action: Action, day: int, amount: real)
    requires |l| > 0 && NonNegative(l) && LastBalance(l) + amount >= 0.0
    ensures NonNegative(Append(l, action, day, amount))
  {
    var l' := Append(l, action, day, amount);
    assert l'[..|l|] == l;
  }

  /** The opening ledger of a non-negative initial balance is
      non-negative. */
  lemma OpeningNonNegative(day: int, initial: real)
    requires initial >= 0.0
    ensures NonNegative(Opening(day, initial))
  {
    var l := Opening(day, initial);
    OpeningWellFormed(day, initial);
    assert l[..1][..0] == [];
  }

  lemma {:induction false} NonNegativeAt(l: seq<Entry>, i: nat)
    requires NonNegative(l) && i < |l|
    ensures l[i].balance >= 0.0
  {
    if i < |l| - 1 {
      NonNegativeAt(l[..|l| - 1], i);
    }
  }

  // ---------------------------------------------------------------------
  // Sums of amounts and `total`

  function SumAmounts(l: seq<Entry>): real
  {
    if l == [] then 0.0 else SumAmounts(l[..|l| - 1]) + l[|l| - 1].amount
  }

  /** `total(action)`: the sum of the amounts of the entries with that
      action (0 when there are none). */
  function Total(l: seq<Entry>, action: Action): real
  {
    if l == [] then 0.0
    else (if l[0].action == action then l[0].amount else 0.0) + Total(l[1..], action)
  }

  lemma {:induction false} ChainedBalance(l: seq<Entry>)
    requires |l| > 0 && Chained(l)
    ensures LastBalance(l) == l[0].balance - l[0].amount + SumAmounts(l)
  {
    if |l| > 1 {
      var p := l[..|l| - 1];
      ChainedBalance(p);
      assert p[0] == l[0];
    } else {
      assert l[..0] == [];
    }
  }

  /** The balance of a well-formed ledger is the sum of all its amounts:
      nothing enters or leaves the balance but a posted entry. */
  lemma LastBalanceIsSum(l: seq<Entry>)
    requires WellFormed(l)
    ensures LastBalance(l) == SumAmounts(l)
  {
    ChainedBalance(l);
  }

  /** Posting adds its amount to the total of its own action and to no
      other action's total. */
  lemma {:induction false} TotalAppend(l: seq<Entry>, e: Entry, action: Action)
    ensures Total(l + [e], action) == Total(l, action) + (if e.action == action then e.amount else 0.0)
  {
    if l != [] {
      assert (l + [e])[1..] == l[1..] + [e];
      TotalAppend(l[1..], e, action);
    } else {
      assert [e][1..] == [];
    }
  }

  // ---------------------------------------------------------------------
  // The per-date view (`groupby(level=0).tail(1)`) and `getHistory`

  /** The last entry of each date, keyed by date. */
  function History(l: seq<Entry>): map<int, Entry>
  {
    if l == [] then map[] else History(l[..|l| - 1])[l[|l| - 1].day := l[|l| - 1]]
  }

  function Days(l: seq<Entry>): set<int>
  {
    set i | 0 <= i < |l| :: l[i].day
  }

  /** The per-date view has exactly the dates of the ledger. */
  lemma {:induction false} HistoryKeys(l: seq<Entry>)
    ensures History(l).Keys == Days(l)
  {
    if l != [] {
      var p := l[..|l| - 1];
      HistoryKeys(p);
      forall d | d in Days(l) ensures d in Days(p) + {l[|l| - 1].day} {
        var i :| 0 <= i < |l| && l[i].day == d;
        if i < |p| { assert p[i] == l[i]; }
      }
      forall d | d in Days(p) ensures d in Days(l) {
        var i :| 0 <= i < |p| && p[i].day == d;
        assert l[i] == p[i];
      }
    }
  }

  /** For each date the per-date view holds that date's last entry in
      insertion order. */
  lemma {:induction false} HistoryValue(l: seq<Entry>, i: nat)
    requires i < |l| && forall j :: i < j < |l| ==> l[j].day != l[i].day
    ensures l[i].day in History(l) && History(l)[l[i].day] == l[i]
  {
    var p := l[..|l| - 1];
    if i < |p| {
      assert p[i] == l[i];
      forall j | i < j < |p| ensures p[j].day != p[i].day {
        assert p[j] == l[j];
      }
      HistoryValue(p, i);
    }
  }

  /** Every entry of the per-date view is an entry of the ledger. */
  lemma {:induction false} HistoryFromLedger(l: seq<Entry>, day: int)
    requires day in History(l)
    ensures exists i :: 0 <= i < |l| && History(l)[day] == l[i]
  {
    var p := l[..|l| - 1];
    if l[|l| - 1].day != day {
      HistoryFromLedger(p, day);
      var i :| 0 <= i < |p| && History(p)[day] == p[i];
      assert l[i] == p[i];
    }
  }

  /** Posting on a date makes the new entry that date's entry of the
      per-date view. */
  lemma HistoryAfterAppend(l: seq<Entry>, action: Action, day: int, amount: real)
    requires |l| > 0
    ensures var l' := Append(l, action, day, amount);
            day in History(l') && History(l')[day] == l'[|l|] && History(l')[day].balance == LastBalance(l')
  {
    var l' := Append(l, action, day, amount);
    assert l'[..|l'| - 1] == l;
  }

  /** A cell of `getHistory`'s result: an action or an amount. */
  datatype Cell = ActionCell(action: Action) | MoneyCell(value: real)

  function Project(e: Entry, column: string): Cell
  {
    if column == "action" then ActionCell(e.action)
    else if column == "amount" then MoneyCell(e.amount)
    else MoneyCell(e.balance)
  }

  /** `getHistory(column)`: the column's value of each date's last entry,
      keyed by date; an unknown column name is an error, and so is an
      account with no ledger yet (no `update` has run). */
  function GetHistory(l: seq<Entry>, column: string): (r: Result<map<int, Cell>>)
    ensures r.Ok? <==> l != [] && column in {"action", "amount", "balance"}
    ensures r.Ok? ==> r.value.Keys == Days(l)
    ensures r.Ok? ==> forall i :: 0 <= i < |l| && (forall j :: i < j < |l| ==> l[j].day != l[i].day)
                        ==> r.value[l[i].day] == Project(l[i], column)
  {
    HistoryKeys(l);
    forall i | 0 <= i < |l| && (forall j :: i < j < |l| ==> l[j].day != l[i].day)
      ensures l[i].day in History(l) && History(l)[l[i].day] == l[i]
    {
      HistoryValue(l, i);
    }
    if l == [] then Err("the account has no ledger before its first update")
    else if column in {"action", "amount", "balance"} then
      var h := History(l);
      Ok(map d | d in h :: Project(h[d], column))
    else Err("column is not in the ledger's columns")
  }

  // ---------------------------------------------------------------------
  // `compound`: interest accrued daily over a window, posted once

  /** The forward-filled balance of day `t` in the window that starts on
      `lo`: that of the latest date in [lo, t] with an entry, else `fill`. */
  function Filled(h: map<int, Entry>, lo: int, t: int, fill: real): real
    decreases t - lo
  {
    if t in h then h[t].balance
    else if t <= lo then fill
    else Filled(h, lo, t - 1, fill)
  }

  /** Sum of the forward-filled balances of the days lo..hi. */
  function WindowSum(h: map<int, Entry>, lo: int, hi: int, fill: real): real
    decreases hi - lo
  {
    if hi < lo then 0.0 else WindowSum(h, lo, hi - 1, fill) + Filled(h, lo, hi, fill)
  }

  /** The balance assumed before the first dated day of the window: 0 for a
      window that starts before the ledger's first date, else the current
      balance (`compound`'s `idx = -1` branch, taken because the opening
      `Open` and `Deposit` rows share a date, so the ledger's dates are
      never unique). */
  function FillValue(l: seq<Entry>, start: int): real
    requires |l| > 0
  {
    if start < l[0].day then 0.0 else LastBalance(l)
  }

  /** Interest on a sum of daily balances at an annual rate: `rate/365`
      per day. */
  function Accrued(balanceDays: real, rate: real): real
  {
    balanceDays * (rate / 365.0)
  }

  /** The interest `compound(start, end)` posts. */
  function InterestDue(l: seq<Entry>, rate: real, start: int, end: int): real
    requires |l| > 0
  {
    Accrued(WindowSum(History(l), start, end, FillValue(l, start)), rate)
  }

  lemma {:induction false} FilledNonNegative(h: map<int, Entry>, lo: int, t: int, fill: real)
    requires fill >= 0.0 && forall d :: d in h ==> h[d].balance >= 0.0
    ensures Filled(h, lo, t, fill) >= 0.0
    decreases t - lo
  {
    if t !in h && t > lo {
      FilledNonNegative(h, lo, t - 1, fill);
    }
  }

  lemma {:induction false} WindowSumNonNegative(h: map<int, Entry>, lo: int, hi: int, fill: real)
    requires fill >= 0.0 && forall d :: d in h ==> h[d].balance >= 0.0
    ensures WindowSum(h, lo, hi, fill) >= 0.0
    decreases hi - lo
  {
    if hi >= lo {
      WindowSumNonNegative(h, lo, hi - 1, fill);
      FilledNonNegative(h, lo, hi, fill);
    }
  }

  /** With a non-negative rate, a ledger whose balances are all non-negative
      earns non-negative interest over any window. */
  lemma InterestNonNegative(l: seq<Entry>, rate: real, start: int, end: int)
    requires |l| > 0 && NonNegative(l) && rate >= 0.0
    ensures InterestDue(l, rate, start, end) >= 0.0
  {
    var h := History(l);
    forall d | d in h ensures h[d].balance >= 0.0 {
      HistoryFromLedger(l, d);
      var i :| 0 <= i < |l| && h[d] == l[i];
      NonNegativeAt(l, i);
    }
    WindowSumNonNegative(h, start, end, FillValue(l, start));
  }

  lemma {:induction false} QuietFilled(h: map<int, Entry>, lo: int, t: int, fill: real)
    requires lo <= t && forall d :: lo <= d <= t ==> d !in h
    ensures Filled(h, lo, t, fill) == fill
    decreases t - lo
  {
    if t > lo {
      QuietFilled(h, lo, t - 1, fill);
    }
  }

  lemma {:induction false} QuietWindowSum(h: map<int, Entry>, lo: int, hi: int, fill: real)
    requires lo <= hi + 1 && forall d :: lo <= d <= hi ==> d !in h
    ensures WindowSum(h, lo, hi, fill) == (hi - lo + 1) as real * fill
    decreases hi - lo
  {
    if hi >= lo {
      QuietWindowSum(h, lo, hi - 1, fill);
      QuietFilled(h, lo, hi, fill);
    }
  }

  /** Daily accrual: over a window with no ledger activity, the interest is
      the number of days times the carried balance times rate/365. */
  lemma QuietWindowInterest(l: seq<Entry>, rate: real, start: int, end: int)
    requires |l| > 0 && start <= end
    requires forall i :: 0 <= i < |l| ==> !(start <= l[i].day <= end)
    ensures InterestDue(l, rate, start, end) == Accrued((end - start + 1) as real * FillValue(l, start), rate)
  {
    HistoryKeys(l);
    forall d | start <= d <= end ensures d !in History(l) {
      assert d !in Days(l);
    }
    QuietWindowSum(History(l), start, end, FillValue(l, start));
  }

  /** On the opening day the one-day window earns a day of interest on the
      initial balance. */
  lemma OpeningDayInterest(day: int, initial: real, rate: real)
    ensures InterestDue(Opening(day, initial), rate, day, day) == Accrued(initial, rate)
  {
    var l := Opening(day, initial);
    OpeningWellFormed(day, initial);
    HistoryValue(l, 1);
    assert History(l)[day] == l[1];
    assert FillValue(l, day) == initial;
    assert Filled(History(l), day, day, initial) == initial;
    assert WindowSum(History(l), day, day - 1, initial) == 0.0;
  }
}
