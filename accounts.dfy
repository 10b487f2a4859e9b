/** `BankAccount` and its financed-purchase variant `Asset`. An account is
    not started until its first `update`, which seeds the ledger and
    anchors the compounding schedule at that date; every later change
    appends to the ledger. In FinSim `Asset` extends `BankAccount`; here
    an asset holds the account whose ledger carries its loan balance. */
module Accounts {
  import opened Wrappers
  import opened Calendar
  import opened Schedules
  import opened Ledgers

  /** The ledger after the compounding step of `update` on `day`: the
      interest of the window ending on `day` is posted when `day` fires the
      schedule; otherwise nothing changes. */
  function Accrue(l: seq<Entry>, s: Schedule, rate: real, day: int): seq<Entry>
    requires |l| > 0
  {
    match OnSchedule(s, day)
    case None => l
    case Some(w) => Append(l, Interest, day, InterestDue(l, rate, w.0, w.1))
  }

  /** On the opening date, the first firing date of the schedule,
      compounding posts one day of interest on the initial balance. */
  lemma OpeningAccrual(day: int, initial: real, rate: real, s: Schedule)
    requires OnSchedule(s, day) == Some((day, day))
    ensures Accrue(Opening(day, initial), s, rate, day)
            == Append(Opening(day, initial), Interest, day, Accrued(initial, rate))
  {
    OpeningDayInterest(day, initial, rate);
  }

  class BankAccount {
    const name: Option<string>
    const initialBalance: real
    const rate: real
    const period: Rule
    var ledger: seq<Entry>
    var schedule: Option<Schedule>

    /** Not started: no ledger and no schedule. Started: a well-formed
        ledger and the compounding schedule. */
    ghost predicate Valid()
      reads this
    {
      if ledger == [] then schedule == None else WellFormed(ledger) && schedule.Some?
    }

    /** `hasattr(self, 'Ledger')`: the first `update` has run. */
    predicate Started()
      reads this
    {
      ledger != []
    }

    /** `Ledger.iloc[-1].balance`: in a well-formed ledger, the sum of every
        amount posted since the account opened. */
    function Balance(): (b: real)
      reads this
      requires Started()
      ensures WellFormed(ledger) ==> b == SumAmounts(ledger)
    {
      if WellFormed(ledger) then LastBalanceIsSum(ledger); LastBalance(ledger) else LastBalance(ledger)
    }

    /** The ledger and schedule after `update(date)` from ledger `l` and
        schedule `s`: start the account if it is not started, then post the
        interest of the window when the date is a firing date. */
    function Updated(l: seq<Entry>, s: Option<Schedule>, date: Date): (r: (seq<Entry>, Schedule))
      requires date.Valid() && (l == [] || (|l| > 0 && s.Some?))
    {
      var o := Ordinal(date);
      var sched := if l == [] then FromRule(period, date) else s.value;
      (Accrue(if l == [] then Opening(o, initialBalance) else l, sched, rate, o), sched)
    }

    /** The first `update` starts the account and, the start date being
        the schedule's first firing date, compounds one day of interest on
        the initial balance. */
    lemma FirstUpdate(date: Date)
      requires date.Valid()
      ensures Updated([], None, date).0
              == Append(Opening(Ordinal(date), initialBalance), Interest, Ordinal(date), Accrued(initialBalance, rate))
    {
      FirstFiring(period, date);
      OpeningAccrual(Ordinal(date), initialBalance, rate, FromRule(period, date));
    }

    /** With a non-negative initial balance and rate, `update` never makes a
        balance negative. */
    lemma UpdatedNonNegative(l: seq<Entry>, s: Option<Schedule>, date: Date)
      requires date.Valid() && (l == [] || (|l| > 0 && s.Some?))
      requires initialBalance >= 0.0 && rate >= 0.0 && NonNegative(l)
      ensures NonNegative(Updated(l, s, date).0)
    {
      var o := Ordinal(date);
      var seeded := if l == [] then Opening(o, initialBalance) else l;
      if l == [] {
        OpeningWellFormed(o, initialBalance);
        OpeningNonNegative(o, initialBalance);
      }
      var sched := if l == [] then FromRule(period, date) else s.value;
      match OnSchedule(sched, o)
      case None =>
      case Some(w) =>
        InterestNonNegative(seeded, rate, w.0, w.1);
        AppendNonNegative(seeded, Interest, o, InterestDue(seeded, rate, w.0, w.1));
        assert Accrue(seeded, sched, rate, o) == Append(seeded, Interest, o, InterestDue(seeded, rate, w.0, w.1));
    }

    /** At a zero rate every interest posting is zero, so `update` keeps
        the balance at the initial balance, update after update. */
    lemma ZeroRateBalance(l: seq<Entry>, s: Option<Schedule>, date: Date)
      requires date.Valid() && (l == [] || (|l| > 0 && s.Some?))
      requires rate == 0.0 && (l == [] || LastBalance(l) == initialBalance)
      ensures LastBalance(Updated(l, s, date).0) == initialBalance
    {
      var o := Ordinal(date);
      var seeded := if l == [] then Opening(o, initialBalance) else l;
      var sched := if l == [] then FromRule(period, date) else s.value;
      match OnSchedule(sched, o)
      case None =>
      case Some(w) =>
        assert InterestDue(seeded, rate, w.0, w.1) == 0.0;
        assert Accrue(seeded, sched, rate, o) == Append(seeded, Interest, o, 0.0);
    }

    constructor(balance: real, rule: Rule, rate: real, name: Option<string>)
      ensures Valid() && !Started()
      ensures initialBalance == balance && period == rule && this.rate == rate && this.name == name
    {
      this.name := name;
      initialBalance := balance;
      this.rate := rate;
      period := rule;
      ledger := [];
      schedule := None;
    }

    /** `updateLedger`: append one entry whose balance is the last balance
        plus the amount, numbered after the entries already on its date. */
    method UpdateLedger(action: Action, day: int, amount: real)
      requires Started() && Numbered(ledger)
      modifies this`ledger
      ensures ledger == Append(old(ledger), action, day, amount)
      ensures Numbered(ledger)
      ensures old(Valid()) ==> Valid()
    {
      var num := NextNum(ledger, day);
      NextNumIsCount(ledger, day);
      AppendWellFormed(ledger, action, day, amount);
      ledger := ledger + [Entry(day, num, action, amount, LastBalance(ledger) + amount)];
    }

    /** `initialize`: an `Open` row of zero, then a `Deposit` of the initial
        balance, and the compounding schedule anchored at the date. */
    method Initialize(date: Date)
      requires date.Valid()
      modifies this
      ensures Valid() && Started()
      ensures ledger == [Entry(Ordinal(date), 0, Open, 0.0, 0.0),
                         Entry(Ordinal(date), 1, Ledgers.Deposit, initialBalance, initialBalance)]
      ensures ledger == Opening(Ordinal(date), initialBalance)
      ensures Balance() == initialBalance
      ensures schedule == Some(FromRule(period, date))
    {
      var o := Ordinal(date);
      ledger := [Entry(o, 0, Open, 0.0, 0.0)];
      assert ledger[..0] == [];
      UpdateLedger(Ledgers.Deposit, o, initialBalance);
      OpeningWellFormed(o, initialBalance);
      schedule := Some(FromRule(period, date));
    }

    method Deposit(day: int, amount: real)
      requires Valid() && Started()
      modifies this`ledger
      ensures Valid()
      ensures ledger == Append(old(ledger), Ledgers.Deposit, day, amount)
      ensures amount >= 0.0 && old(NonNegative(ledger)) ==> NonNegative(ledger)
    {
      UpdateLedger(Ledgers.Deposit, day, amount);
      if amount >= 0.0 && NonNegative(old(ledger)) {
        AppendNonNegative(old(ledger), Ledgers.Deposit, day, amount);
      }
    }

    /** `withdraw`: declines, changing nothing, when the balance is less than
        the amount; otherwise posts the negated amount. */
    method Withdraw(day: int, amount: real) returns (ok: bool)
      requires Valid() && Started()
      modifies this`ledger
      ensures Valid()
      ensures ok <==> old(Balance()) >= amount
      ensures ledger == if ok then Append(old(ledger), Ledgers.Withdraw, day, -amount) else old(ledger)
      ensures ok ==> Balance() == old(Balance()) - amount && Balance() >= 0.0
      ensures old(NonNegative(ledger)) ==> NonNegative(ledger)
    {
      if LastBalance(ledger) < amount {
        return false;
      }
      UpdateLedger(Ledgers.Withdraw, day, -amount);
      if NonNegative(old(ledger)) {
        AppendNonNegative(old(ledger), Ledgers.Withdraw, day, -amount);
      }
      return true;
    }

    /** `transfer`: posts an incoming transfer labelled with the source
        account's name; a source without a name (None) makes the label's
        string concatenation raise, and nothing is posted. */
    method TransferIn(day: int, amount: real, source: Option<string>) returns (r: Outcome)
      requires Valid() && Started()
      modifies this`ledger
      ensures Valid()
      ensures r.Pass? <==> source.Some?
      ensures ledger == if source.Some? then Append(old(ledger), TransferFrom(source.value), day, amount)
                        else old(ledger)
      ensures amount >= 0.0 && old(NonNegative(ledger)) ==> NonNegative(ledger)
    {
      if source.None? {
        return Fail("the source account's name is None and cannot label the transfer");
      }
      UpdateLedger(TransferFrom(source.value), day, amount);
      if amount >= 0.0 && NonNegative(old(ledger)) {
        AppendNonNegative(old(ledger), TransferFrom(source.value), day, amount);
      }
      return Pass;
    }

    /** `compound(start, end)`: post, dated `end`, the interest accrued day
        by day over the window on the forward-filled balance. */
    method Compound(start: int, end: int)
      requires Valid() && Started()
      modifies this`ledger
      ensures Valid()
      ensures ledger == Append(old(ledger), Interest, end, InterestDue(old(ledger), rate, start, end))
      ensures rate >= 0.0 && old(NonNegative(ledger)) ==> NonNegative(ledger)
    {
      var interest := InterestDue(ledger, rate, start, end);
      if rate >= 0.0 && NonNegative(ledger) {
        InterestNonNegative(ledger, rate, start, end);
        AppendNonNegative(ledger, Interest, end, interest);
      }
      UpdateLedger(Interest, end, interest);
    }

    /** `update(date)`: start the account on its first call, then compound
        when the date fires the schedule. The very first call always
        compounds one day of interest on the initial balance. */
    method Update(date: Date)
      requires Valid() && date.Valid()
      modifies this
      ensures Valid() && Started()
      ensures (ledger, schedule.value) == Updated(old(ledger), old(schedule), date)
      ensures !old(Started()) ==> ledger == Append(Opening(Ordinal(date), initialBalance), Interest,
                                                   Ordinal(date), Accrued(initialBalance, rate))
      ensures initialBalance >= 0.0 && rate >= 0.0 && old(NonNegative(ledger)) ==> NonNegative(ledger)
    {
      if !Started() {
        FirstUpdate(date);
      }
      if initialBalance >= 0.0 && rate >= 0.0 && NonNegative(ledger) {
        UpdatedNonNegative(ledger, schedule, date);
      }
      var o := Ordinal(date);
      if !Started() {
        Initialize(date);
      }
      var window := OnSchedule(schedule.value, o);
      if window.Some? {
        Compound(window.value.0, window.value.1);
      }
    }
  }

  /** The time value of an asset: a fixed annual rate, or the parameters of
      the distribution a rate is drawn from. */
  datatype TimeValue = Fixed(rate: real) | Drawn(parameters: seq<real>)

  /** The appreciation rate in force: the fixed rate, or the draw. */
  function Appreciation(tv: TimeValue, draw: real): real
  {
    match tv
    case Fixed(r) => r
    case Drawn(_) => draw
  }

  /** One row of `EquityHistory`. */
  datatype Valuation = Valuation(day: int, marketValue: real, equity: real)

  /** `EquityHistory.loc[date] = row`: replace the row of that date in place,
      or append a row for a new date. */
  function Upsert(h: seq<Valuation>, v: Valuation): seq<Valuation>
  {
    if h == [] then [v]
    else if h[0].day == v.day then [v] + h[1..]
    else [h[0]] + Upsert(h[1..], v)
  }

  /** A row for a new date goes at the end; a row for a present date
      replaces that row and keeps the length. */
  lemma {:induction false} UpsertShape(h: seq<Valuation>, v: Valuation)
    ensures (forall i :: 0 <= i < |h| ==> h[i].day != v.day) ==> Upsert(h, v) == h + [v]
    ensures (exists i :: 0 <= i < |h| && h[i].day == v.day) ==> |Upsert(h, v)| == |h| && v in Upsert(h, v)
    ensures forall k :: 0 <= k < |h| && h[k].day == v.day && (forall j :: 0 <= j < k ==> h[j].day != v.day)
                        ==> Upsert(h, v) == h[..k] + [v] + h[k + 1..]
  {
    forall k | 0 <= k < |h| && h[k].day == v.day && (forall j :: 0 <= j < k ==> h[j].day != v.day)
      ensures Upsert(h, v) == h[..k] + [v] + h[k + 1..]
    {
      UpsertInPlace(h, v, k);
    }
    if forall i :: 0 <= i < |h| ==> h[i].day != v.day {
      UpsertNew(h, v);
    } else {
      var k := FirstDay(h, v.day);
      UpsertInPlace(h, v, k);
      assert Upsert(h, v)[k] == v;
    }
  }

  /** A row for a date not yet in the history goes at the end. */
  lemma {:induction false} UpsertNew(h: seq<Valuation>, v: Valuation)
    requires forall i :: 0 <= i < |h| ==> h[i].day != v.day
    ensures Upsert(h, v) == h + [v]
  {
    if h != [] {
      assert forall i :: 0 <= i < |h| - 1 ==> h[1..][i] == h[i + 1];
      UpsertNew(h[1..], v);
      assert [h[0]] + (h[1..] + [v]) == h + [v];
    }
  }

  /** The first position of a history dated `d`, when there is one. */
  lemma {:induction false} FirstDay(h: seq<Valuation>, d: int) returns (k: int)
    requires exists i :: 0 <= i < |h| && h[i].day == d
    ensures 0 <= k < |h| && h[k].day == d && forall j :: 0 <= j < k ==> h[j].day != d
  {
    if h[0].day == d {
      k := 0;
    } else {
      var i :| 0 <= i < |h| && h[i].day == d;
      assert h[1..][i - 1].day == d;
      var k' := FirstDay(h[1..], d);
      k := k' + 1;
      assert forall j :: 1 <= j < k ==> h[j] == h[1..][j - 1];
    }
  }

  /** The row of the first date equal to the new row's date is replaced in
      place; the rows before and after it stay as they were. */
  lemma {:induction false} UpsertInPlace(h: seq<Valuation>, v: Valuation, k: int)
    requires 0 <= k < |h| && h[k].day == v.day && forall j :: 0 <= j < k ==> h[j].day != v.day
    ensures Upsert(h, v) == h[..k] + [v] + h[k + 1..]
  {
    if k > 0 {
      assert h[0].day != v.day;
      assert h[1..][k - 1] == h[k];
      UpsertInPlace(h[1..], v, k - 1);
      assert h[1..][..k - 1] == h[1..k];
      assert h[1..][k..] == h[k + 1..];
      assert [h[0]] + h[1..k] == h[..k];
    }
  }

  /** The equity recorded on a revaluation date: the market value less the
      ledger balance of that date when the ledger has an entry on it, else
      the market value. */
  function EquityOn(l: seq<Entry>, day: int, marketValue: real): real
  {
    var h := History(l);
    if day in h then marketValue - h[day].balance else marketValue
  }

  /** On a firing date the interest posting puts that date in the ledger,
      so the equity recorded is always the market value less the balance
      just reached, whether or not the asset is owned. */
  lemma FiringDayEquity(l: seq<Entry>, interest: real, day: int, marketValue: real)
    requires |l| > 0
    ensures var l' := Append(l, Interest, day, interest);
            EquityOn(l', day, marketValue) == marketValue - LastBalance(l')
  {
    HistoryAfterAppend(l, Interest, day, interest);
  }

  /** An asset bought outright is a zero-rate account of the purchase
      equity. Its balance stays at that equity from update to update
      (`ZeroRateBalance`), so at any firing date, the first or a later one,
      the equity recorded is the market value less the purchase equity. */
  lemma OwnedOutrightEquity(a: BankAccount, l: seq<Entry>, s: Option<Schedule>, date: Date, marketValue: real)
    requires date.Valid() && (l == [] || (|l| > 0 && s.Some?))
    requires a.rate == 0.0 && (l == [] || LastBalance(l) == a.initialBalance)
    requires OnSchedule(a.Updated(l, s, date).1, Ordinal(date)).Some?
    ensures EquityOn(a.Updated(l, s, date).0, Ordinal(date), marketValue) == marketValue - a.initialBalance
  {
    var o := Ordinal(date);
    var seeded := if l == [] then Opening(o, a.initialBalance) else l;
    var sched := a.Updated(l, s, date).1;
    var w := OnSchedule(sched, o).value;
    if l == [] {
      OpeningWellFormed(o, a.initialBalance);
    }
    assert a.Updated(l, s, date).0 == Append(seeded, Interest, o, InterestDue(seeded, a.rate, w.0, w.1));
    FiringDayEquity(seeded, InterestDue(seeded, a.rate, w.0, w.1), o, marketValue);
    a.ZeroRateBalance(l, s, date);
  }

  class Asset {
    const account: BankAccount
    const principal: real
    const equity: real
    const timeValue: TimeValue
    const monthlyPayment: Option<real>
    const interestToPrincipal: Option<real>
    var appreciation: real
    var own: bool
    var equityHistory: seq<Valuation>

    /** A financed asset, and only a financed one, carries the loan's
        payment figures. */
    ghost predicate Valid()
      reads this, account
    {
      account.Valid()
      && (principal == equity ==> account.rate == 0.0 && account.initialBalance == equity)
      && (monthlyPayment.None? <==> principal == equity)
      && (interestToPrincipal.None? <==> principal == equity)
    }

    /** Owned outright when the principal equals the equity (a zero-rate
        account holding the equity); otherwise financed: the account holds
        the loan balance `principal - equity` at the loan's rate, and the
        loan's monthly payment and interest-to-principal figures, computed
        by a mortgage library, arrive as `loanPayment` and `loanRatio`. */
    constructor(principal: real, equity: real, rule: Rule, rate: real, name: Option<string>,
                timeValue: TimeValue, draw: real, loanPayment: real, loanRatio: real)
      ensures Valid() && fresh(account) && !account.Started()
      ensures this.principal == principal && this.equity == equity && this.timeValue == timeValue
      ensures own <==> principal == equity
      ensures account.initialBalance == if principal == equity then equity else principal - equity
      ensures account.rate == if principal == equity then 0.0 else rate
      ensures account.period == rule && account.name == name
      ensures monthlyPayment == if principal == equity then None else Some(loanPayment)
      ensures interestToPrincipal == if principal == equity then None else Some(loanRatio)
      ensures appreciation == Appreciation(timeValue, draw) && equityHistory == []
    {
      this.principal := principal;
      this.equity := equity;
      this.timeValue := timeValue;
      appreciation := Appreciation(timeValue, draw);
      equityHistory := [];
      own := true;
      if principal == equity {
        account := new BankAccount(equity, rule, 0.0, name);
        monthlyPayment := None;
        interestToPrincipal := None;
      } else {
        account := new BankAccount(principal - equity, rule, rate, name);
        own := false;
        monthlyPayment := Some(loanPayment);
        interestToPrincipal := Some(loanRatio);
      }
    }

    /** `payment`: an amount strictly above the balance pays off exactly the
        balance and marks the asset owned; any other amount is debited as is
        and leaves `own` alone. The balance never ends below zero. */
    method Pay(day: int, amount: real)
      requires Valid() && account.Started()
      modifies this`own, account`ledger
      ensures Valid()
      ensures var b := old(account.Balance());
              if b < amount then
                account.ledger == Append(old(account.ledger), Ledgers.Payment, day, -b) && own
              else
                account.ledger == Append(old(account.ledger), Ledgers.Payment, day, -amount) && own == old(own)
      ensures account.Balance() == if old(account.Balance()) < amount then 0.0 else old(account.Balance()) - amount
      ensures account.Balance() >= 0.0
      ensures old(NonNegative(account.ledger)) ==> NonNegative(account.ledger)
    {
      var b := LastBalance(account.ledger);
      if b < amount {
        account.UpdateLedger(Ledgers.Payment, day, -b);
        if NonNegative(old(account.ledger)) {
          AppendNonNegative(old(account.ledger), Ledgers.Payment, day, -b);
        }
        own := true;
      } else {
        account.UpdateLedger(Ledgers.Payment, day, -amount);
        if NonNegative(old(account.ledger)) {
          AppendNonNegative(old(account.ledger), Ledgers.Payment, day, -amount);
        }
      }
    }

    /** `update(date)`: update the account; then seed the equity history
        with (principal, equity) at the account's opening date, or, on a
        later firing date, revalue the market value by a month of
        appreciation and record the equity; on December 31 redraw the
        appreciation rate (`draw` stands for the random draw). */
    method Update(date: Date, draw: real)
      requires Valid() && date.Valid()
      modifies this`equityHistory, this`appreciation, account
      ensures Valid() && account.Started()
      ensures (account.ledger, account.schedule.value)
              == old(account.Updated(account.ledger, account.schedule, date))
      ensures var o := Ordinal(date);
              equityHistory ==
                if old(equityHistory) == [] then
                  [Valuation(account.ledger[0].day, principal, equity)]
                else if OnSchedule(account.schedule.value, o).None? then
                  old(equityHistory)
                else
                  var mv := old(equityHistory)[|old(equityHistory)| - 1].marketValue
                            * (1.0 + old(appreciation) / 12.0);
                  Upsert(old(equityHistory), Valuation(o, mv, EquityOn(account.ledger, o, mv)))
      ensures appreciation == if YearEnd(date).Some? then Appreciation(timeValue, draw) else old(appreciation)
      ensures principal == equity && (!old(account.Started()) || old(account.Balance()) == equity)
              ==> account.Balance() == equity
    {
      if principal == equity && (!account.Started() || account.Balance() == equity) {
        account.ZeroRateBalance(account.ledger, account.schedule, date);
      }
      account.Update(date);
      var o := Ordinal(date);
      if equityHistory == [] {
        equityHistory := [Valuation(account.ledger[0].day, principal, equity)];
      } else if OnSchedule(account.schedule.value, o).Some? {
        var mv := equityHistory[|equityHistory| - 1].marketValue * (1.0 + appreciation / 12.0);
        equityHistory := Upsert(equityHistory, Valuation(o, mv, EquityOn(account.ledger, o, mv)));
        assert mv == old(equityHistory)[|old(equityHistory)| - 1].marketValue * (1.0 + old(appreciation) / 12.0);
      }
      if YearEnd(date).Some? {
        appreciation := Appreciation(timeValue, draw);
      }
    }
  }
}
