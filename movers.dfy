/** The simulation components that move money between accounts on a
    schedule: `Revenue` deposits income into an account, `Transfer` moves a
    fixed amount from one account to another, and `Payment` pays a financed
    asset's loan down from an account. Each builds its schedule lazily, at
    the date of its first `update`, and acts only on that schedule's firing
    dates. */
module Movers {
  import opened Wrappers
  import opened Calendar
  import opened Schedules
  import opened Ledgers
  import opened Accounts

  // ---------------------------------------------------------------------
  // Revenue amounts

  /** One dated row of a revenue table. */
  datatype Row = Row(day: int, amount: real)

  /** A revenue table: rows indexed by date, holding the amounts in one
      column named `column`. */
  datatype RevenueTable = RevenueTable(column: string, rows: seq<Row>)

  /** The kinds of value a caller can pass as a revenue's amount. */
  datatype AmountArg = Number(value: real) | Sequence(values: seq<real>) | Frame(table: RevenueTable) | Other

  /** A validated revenue amount, one per mode: a fixed number, the
      parameters of the distribution it is drawn from, or a table. */
  datatype RevenueAmount = Simple(value: real) | Distribution(parameters: seq<real>) | Table(table: RevenueTable)

  function ModeName(a: RevenueAmount): string
  {
    match a
    case Simple(_) => "simple"
    case Distribution(_) => "distribution"
    case Table(_) => "dataframe"
  }

  /** The argument a validated amount was given as. */
  function Argument(a: RevenueAmount): AmountArg
  {
    match a
    case Simple(v) => Number(v)
    case Distribution(p) => Sequence(p)
    case Table(t) => Frame(t)
  }

  /** The type check of the `Revenue` constructor: the mode must be one of
      the three supported modes and the amount must have that mode's kind. */
  function ValidateRevenue(mode: string, arg: AmountArg): (r: Result<RevenueAmount>)
    ensures mode !in {"simple", "distribution", "dataframe"} ==> r.Err?
    ensures r.Ok? ==> ModeName(r.value) == mode && Argument(r.value) == arg
  {
    if mode == "distribution" then
      if arg.Sequence? then Ok(Distribution(arg.values))
      else Err("distribution mode takes the distribution's arguments as the amount")
    else if mode == "dataframe" then
      if arg.Frame? then Ok(Table(arg.table))
      else Err("dataframe mode takes a table of revenues as the amount")
    else if mode == "simple" then
      if arg.Number? then Ok(Simple(arg.value))
      else Err("simple mode takes a number as the amount")
    else Err("unsupported mode")
  }

  /** Every amount of every mode passes validation under its own mode: the
      check rejects nothing it should accept. */
  lemma ValidateRoundTrip(a: RevenueAmount)
    ensures ValidateRevenue(ModeName(a), Argument(a)) == Ok(a)
  {
  }

  /** A mode with an argument of another kind is rejected. */
  lemma ValidateRejectsMismatch(mode: string, arg: AmountArg)
    requires arg.Other? || (mode == "simple" && !arg.Number?)
             || (mode == "distribution" && !arg.Sequence?) || (mode == "dataframe" && !arg.Frame?)
    ensures ValidateRevenue(mode, arg).Err?
  {
  }

  function RowDays(rows: seq<Row>): (days: seq<int>)
    ensures |days| == |rows| && forall i :: 0 <= i < |rows| ==> days[i] == rows[i].day
  {
    if rows == [] then [] else RowDays(rows[..|rows| - 1]) + [rows[|rows| - 1].day]
  }

  /** The amount of the first row dated `day`, if there is one. */
  function RowAmount(rows: seq<Row>, day: int): (r: Option<real>)
    ensures r.Some? <==> day in RowDays(rows)
    ensures r.Some? ==> exists i :: 0 <= i < |rows| && rows[i].day == day && rows[i].amount == r.value
                                    && forall j :: 0 <= j < i ==> rows[j].day != day
  {
    if rows == [] then None
    else if rows[0].day == day then Some(rows[0].amount)
    else
      assert RowDays(rows) == [rows[0].day] + RowDays(rows[1..]);
      var r := RowAmount(rows[1..], day);
      if r.Some? then
        var i :| 0 <= i < |rows[1..]| && rows[1..][i].day == day && rows[1..][i].amount == r.value
                 && forall j :: 0 <= j < i ==> rows[1..][j].day != day;
        assert rows[i + 1].day == day && forall j :: 0 <= j < i + 1 ==> rows[j].day != day;
        r
      else r
  }

  /** A column label of a table: a date or a name. */
  datatype Label = DayLabel(day: int) | TextLabel(text: string)

  /** Indexing a table by a label selects a column: only the table's own
      column name finds anything. */
  function ColumnLookup(t: RevenueTable, key: Label): (r: Result<seq<real>>)
    ensures r.Ok? <==> key == TextLabel(t.column)
  {
    if key == TextLabel(t.column) then Ok(seq(|t.rows|, i requires 0 <= i < |t.rows| => t.rows[i].amount))
    else Err("KeyError: no column with that label")
  }

  /** `getAmount` as written: a table is indexed by the date, which selects
      a column, not a row. */
  function GetAmountAsWritten(a: RevenueAmount, day: int, draw: real): (r: Result<real>)
    ensures a.Table? ==> r.Err?
    ensures a.Simple? ==> r == Ok(a.value)
    ensures a.Distribution? ==> r == Ok(draw)
  {
    match a
    case Simple(v) => Ok(v)
    case Distribution(_) => Ok(draw)
    case Table(t) =>
      match ColumnLookup(t, DayLabel(day))
      case Ok(column) => Err("a column of amounts is not an amount")
      case Err(e) => Err(e)
  }

  /** `getAmount`: the fixed amount, a draw from the distribution (`draw`
      stands for it), or the table's amount on that date. */
  function GetAmount(a: RevenueAmount, day: int, draw: real): (r: Result<real>)
    ensures a.Simple? ==> r == Ok(a.value)
    ensures a.Distribution? ==> r == Ok(draw)
    ensures a.Table? ==> (r.Ok? <==> day in RowDays(a.table.rows))
    ensures a.Table? && r.Ok? ==> exists i :: 0 <= i < |a.table.rows| && a.table.rows[i] == Row(day, r.value)
  {
    match a
    case Simple(v) => Ok(v)
    case Distribution(_) => Ok(draw)
    case Table(t) =>
      match RowAmount(t.rows, day)
      case Some(v) => Ok(v)
      case None => Err("no row for that date")
  }

  /** The schedule of a table revenue is its row dates, so every firing
      date finds its amount. */
  lemma TableAmountsFound(t: RevenueTable, day: int, draw: real)
    requires OnSchedule(FromDates(RowDays(t.rows)), day).Some?
    ensures GetAmount(Table(t), day, draw).Ok?
  {
  }

  /** On a table whose rows include a date, the lookup as written fails on
      that date while the row lookup finds its amount. */
  lemma TableLookupDiscrepancy(day: int)
    ensures var t := RevenueTable("amount", [Row(day, 100.0)]);
            GetAmountAsWritten(Table(t), day, 0.0).Err? && GetAmount(Table(t), day, 0.0) == Ok(100.0)
  {
    var t := RevenueTable("amount", [Row(day, 100.0)]);
    assert RowDays(t.rows) == [day];
  }

  // ---------------------------------------------------------------------
  // Revenue

  class Revenue {
    const amount: RevenueAmount
    const account: BankAccount
    const rule: Rule
    const name: string
    var schedule: Option<Schedule>

    /** A table revenue fires on its row dates. */
    ghost predicate Valid()
      reads this
    {
      amount.Table? && schedule.Some? ==> schedule.value == FromDates(RowDays(amount.table.rows))
    }

    /** The schedule in force on an `update` dated `date`: the one already
        built, or the one the first `update` builds. */
    function ScheduleAt(date: Date): Schedule
      reads this
      requires date.Valid()
    {
      if schedule.Some? then schedule.value
      else if amount.Table? then FromDates(RowDays(amount.table.rows))
      else FromRule(rule, date)
    }

    constructor(amount: RevenueAmount, account: BankAccount, rule: Rule, name: string)
      ensures Valid() && schedule == None
      ensures this.amount == amount && this.account == account && this.rule == rule && this.name == name
    {
      this.amount := amount;
      this.account := account;
      this.rule := rule;
      this.name := name;
      schedule := None;
    }

    /** The constructor with its type check: a revenue exists exactly when
        its mode and amount pass `ValidateRevenue`. */
    static method Create(mode: string, arg: AmountArg, account: BankAccount, rule: Rule, name: string)
      returns (r: Result<Revenue>)
      ensures r.Ok? <==> ValidateRevenue(mode, arg).Ok?
      ensures r.Ok? ==> fresh(r.value) && r.value.Valid() && r.value.schedule == None
                        && r.value.amount == ValidateRevenue(mode, arg).value
                        && r.value.account == account && r.value.rule == rule
    {
      var v := ValidateRevenue(mode, arg);
      if v.Err? {
        return Err(v.message);
      }
      var rev := new Revenue(v.value, account, rule, name);
      return Ok(rev);
    }

    /** `update(date)`: build the schedule on the first call, then deposit
        the amount of the date into the account when the date fires it. */
    method Update(date: Date, draw: real)
      requires Valid() && date.Valid() && account.Valid()
      requires OnSchedule(ScheduleAt(date), Ordinal(date)).Some? ==> account.Started()
      modifies this`schedule, account`ledger
      ensures Valid() && account.Valid()
      ensures schedule == Some(old(ScheduleAt(date)))
      ensures var o := Ordinal(date);
              if OnSchedule(schedule.value, o).Some? then
                GetAmount(amount, o, draw).Ok?
                && account.ledger == Append(old(account.ledger), Ledgers.Deposit, o, GetAmount(amount, o, draw).value)
              else account.ledger == old(account.ledger)
    {
      var o := Ordinal(date);
      if schedule.None? {
        if amount.Table? {
          schedule := Some(FromDates(RowDays(amount.table.rows)));
        } else {
          schedule := Some(FromRule(rule, date));
        }
      }
      if OnSchedule(schedule.value, o).Some? {
        if amount.Table? {
          TableAmountsFound(amount.table, o, draw);
        }
        account.Deposit(o, GetAmount(amount, o, draw).value);
      }
    }
  }

  // ---------------------------------------------------------------------
  // Transfer

  class Transfer {
    const source: BankAccount
    const target: BankAccount
    const amount: real
    const rule: Rule
    var schedule: Option<Schedule>

    function ScheduleAt(date: Date): Schedule
      reads this
      requires date.Valid()
    {
      if schedule.Some? then schedule.value else FromRule(rule, date)
    }

    constructor(source: BankAccount, target: BankAccount, amount: real, rule: Rule)
      ensures this.source == source && this.target == target && this.amount == amount && this.rule == rule
      ensures schedule == None
    {
      this.source := source;
      this.target := target;
      this.amount := amount;
      this.rule := rule;
      schedule := None;
    }

    /** `update(date)`: build the schedule on the first call; on a firing
        date withdraw the amount from the source and, when the withdrawal
        succeeds, credit it to the target labelled with the source's name.
        A source without a name fails after the withdrawal. Between two
        distinct accounts a completed transfer keeps the sum of their
        balances. */
    method Update(date: Date) returns (r: Outcome)
      requires date.Valid() && source.Valid() && target.Valid()
      requires OnSchedule(ScheduleAt(date), Ordinal(date)).Some?
               ==> source.Started() && (source.Balance() >= amount ==> target.Started())
      modifies this`schedule, source`ledger, target`ledger
      ensures source.Valid() && target.Valid()
      ensures schedule == Some(old(ScheduleAt(date)))
      ensures var o := Ordinal(date);
              var fires := OnSchedule(schedule.value, o).Some?;
              var ok := fires && old(source.Balance()) >= amount;
              var withdrawn := if ok then Append(old(source.ledger), Ledgers.Withdraw, o, -amount) else old(source.ledger);
              var credited := ok && source.name.Some?;
              (r.Fail? <==> ok && source.name.None?)
              && (source != target ==>
                    source.ledger == withdrawn
                    && target.ledger == if credited then Append(old(target.ledger), TransferFrom(source.name.value), o, amount)
                                        else old(target.ledger))
              && (source == target ==>
                    target.ledger == if credited then Append(withdrawn, TransferFrom(source.name.value), o, amount)
                                     else withdrawn)
    {
      var o := Ordinal(date);
      if schedule.None? {
        schedule := Some(FromRule(rule, date));
      }
      r := Pass;
      if OnSchedule(schedule.value, o).Some? {
        var ok := source.Withdraw(o, amount);
        if ok {
          r := target.TransferIn(o, amount, source.name);
        }
      }
    }
  }

  /** Between two distinct accounts, a withdrawal and the matching credit
      leave the sum of the two balances as it was. */
  lemma TransferConserves(from: seq<Entry>, to: seq<Entry>, day: int, amount: real, name: string)
    requires |from| > 0 && |to| > 0
    ensures LastBalance(Append(from, Ledgers.Withdraw, day, -amount)) + LastBalance(Append(to, TransferFrom(name), day, amount))
            == LastBalance(from) + LastBalance(to)
  {
  }

  // ---------------------------------------------------------------------
  // Payment

  /** The payment amount: the given amount when it is present and non-zero,
      otherwise the asset's monthly loan payment; an asset owned outright
      has none, and the construction fails. */
  function ResolvePaymentAmount(amount: Option<real>, monthlyPayment: Option<real>): (r: Result<real>)
    ensures amount.Some? && amount.value != 0.0 ==> r == Ok(amount.value)
    ensures (amount.None? || amount.value == 0.0) ==> (r.Ok? <==> monthlyPayment.Some?)
    ensures (amount.None? || amount.value == 0.0) && r.Ok? ==> r.value == monthlyPayment.value
  {
    if amount.Some? && amount.value != 0.0 then Ok(amount.value)
    else if monthlyPayment.Some? then Ok(monthlyPayment.value)
    else Err("the asset has no monthly payment")
  }

  /** Without an amount of its own, a payment takes the asset's monthly
      loan payment, which only a financed asset has: the construction
      succeeds exactly when the asset is financed (principal above equity). */
  lemma PaymentAmountOfAsset(amount: Option<real>, a: Asset)
    requires a.Valid()
    ensures var r := ResolvePaymentAmount(amount, a.monthlyPayment);
            (r.Ok? <==> (amount.Some? && amount.value != 0.0) || a.principal != a.equity)
            && ((amount.None? || amount.value == 0.0) && r.Ok? ==> r == Ok(a.monthlyPayment.value))
  {
  }

  /** The amount a payment moves: the payment, or the whole loan balance
      when that is smaller. */
  function Due(payment: real, balance: real): (r: real)
    ensures r <= payment && r <= balance && (r == payment || r == balance)
  {
    if payment > balance then balance else payment
  }

  class Payment {
    const source: BankAccount
    const target: Asset
    const rule: Rule
    const amount: real
    var schedule: Option<Schedule>

    function ScheduleAt(date: Date): Schedule
      reads this
      requires date.Valid()
    {
      if schedule.Some? then schedule.value else FromRule(rule, date)
    }

    constructor(source: BankAccount, target: Asset, rule: Rule, amount: real)
      ensures this.source == source && this.target == target && this.rule == rule && this.amount == amount
      ensures schedule == None
    {
      this.source := source;
      this.target := target;
      this.rule := rule;
      this.amount := amount;
      schedule := None;
    }

    /** The constructor with its amount resolution: a payment exists exactly
        when an amount resolves. */
    static method Create(source: BankAccount, target: Asset, rule: Rule, amount: Option<real>)
      returns (r: Result<Payment>)
      ensures r.Ok? <==> ResolvePaymentAmount(amount, target.monthlyPayment).Ok?
      ensures target.Valid() && (amount.None? || amount.value == 0.0) ==> (r.Ok? <==> target.principal != target.equity)
      ensures r.Ok? ==> fresh(r.value) && r.value.schedule == None
                        && r.value.amount == ResolvePaymentAmount(amount, target.monthlyPayment).value
                        && r.value.source == source && r.value.target == target && r.value.rule == rule
    {
      var a := ResolvePaymentAmount(amount, target.monthlyPayment);
      if a.Err? {
        return Err(a.message);
      }
      var p := new Payment(source, target, rule, a.value);
      return Ok(p);
    }

    /** One payment on a firing date while the asset is not owned: withdraw
        the amount due (the payment, or the loan balance when smaller) from
        the source and, when that succeeds, pay it to the asset. Paying from
        another account leaves `own` as it was and the loan balance
        non-negative; paying from the loan account itself debits it twice. */
    method PayDue(day: int)
      requires source.Valid() && target.Valid() && source.Started() && target.account.Started() && !target.own
      modifies source`ledger, target`own, target.account`ledger
      ensures source.Valid() && target.Valid()
      ensures var due := Due(amount, old(target.account.Balance()));
              var ok := old(source.Balance()) >= due;
              (!ok ==> source.ledger == old(source.ledger) && target.account.ledger == old(target.account.ledger)
                       && !target.own)
              && (ok && source != target.account ==>
                    source.ledger == Append(old(source.ledger), Ledgers.Withdraw, day, -due)
                    && target.account.ledger == Append(old(target.account.ledger), Ledgers.Payment, day, -due)
                    && !target.own && target.account.Balance() >= 0.0)
              && (ok && source == target.account ==>
                    var withdrawn := Append(old(source.ledger), Ledgers.Withdraw, day, -due);
                    var left := LastBalance(withdrawn);
                    target.account.ledger == Append(withdrawn, Ledgers.Payment, day, -(if left < due then left else due))
                    && target.own == (left < due))
    {
      var due := Due(amount, LastBalance(target.account.ledger));
      var ok := source.Withdraw(day, due);
      if ok {
        target.Pay(day, due);
      }
    }

    /** `update(date)`: build the schedule on the first call; while the
        asset is not owned, make one payment on each firing date. */
    method Update(date: Date)
      requires date.Valid() && source.Valid() && target.Valid()
      requires !target.own && OnSchedule(ScheduleAt(date), Ordinal(date)).Some?
               ==> source.Started() && target.account.Started()
      modifies this`schedule, source`ledger, target`own, target.account`ledger
      ensures source.Valid() && target.Valid()
      ensures schedule == Some(old(ScheduleAt(date)))
      ensures var o := Ordinal(date);
              var acts := !old(target.own) && OnSchedule(schedule.value, o).Some?;
              var due := Due(amount, if acts then old(target.account.Balance()) else 0.0);
              var ok := acts && old(source.Balance()) >= due;
              (!ok ==> source.ledger == old(source.ledger) && target.account.ledger == old(target.account.ledger)
                       && target.own == old(target.own))
              && (ok && source != target.account ==>
                    source.ledger == Append(old(source.ledger), Ledgers.Withdraw, o, -due)
                    && target.account.ledger == Append(old(target.account.ledger), Ledgers.Payment, o, -due)
                    && !target.own && target.account.Balance() >= 0.0)
              && (ok && source == target.account ==>
                    var withdrawn := Append(old(source.ledger), Ledgers.Withdraw, o, -due);
                    var left := LastBalance(withdrawn);
                    target.account.ledger == Append(withdrawn, Ledgers.Payment, o, -(if left < due then left else due))
                    && target.own == (left < due))
    {
      var o := Ordinal(date);
      if schedule.None? {
        schedule := Some(FromRule(rule, date));
      }
      if !target.own && OnSchedule(schedule.value, o).Some? {
        PayDue(o);
      }
    }
  }
}
