/**
 * The installment-reminder editor: pt-BR currency normalisation, the validation done on
 * save, the installment counter shown to the user, and "mark as paid", which records an
 * expense, advances the paid counter, deactivates the reminder after the last installment
 * and rolls the due date to `day_of_month` of the following month.
 *
 * Amounts are integer cents. Remote writes are modelled by the values the handlers would
 * send once the remote call succeeds.
 */
module ReminderEditModal {
  import opened Wrappers
  import opened Text
  import opened Calendar

  /** A row of the reminders table, as far as the modal reads it. */
  datatype Reminder = Reminder(
    description: string,
    amount: int,
    installmentsTotal: int,
    installmentsPaid: int,
    dayOfMonth: Option<int>,
    nextDueDate: Date)

  // ---------------------------------------------------------------- currency text

  /**
   * The normalisation inside `parseCurrencyPtBr`: drop every whitespace character, then
   * every '.', then turn every ',' into '.'.
   */
  function NormalizeCurrencyPtBr(value: string): string {
    ReplaceAll(RemoveAll(RemoveSpaces(value), '.'), ',', '.')
  }

  /**
   * The normalised text has no whitespace and no ','; it has one '.' per ',' of the input
   * (the thousands separators are gone), and every other character occurs as often as before.
   */
  lemma NormalizeCurrencyPtBrShape(value: string)
    ensures var r := NormalizeCurrencyPtBr(value);
      && ',' !in r
      && (forall i :: 0 <= i < |r| ==> !IsJsSpace(r[i]))
      && Count(r, '.') == Count(value, ',')
      && (forall c :: c != '.' && c != ',' && !IsJsSpace(c) ==> Count(r, c) == Count(value, c))
  {
    var a := RemoveSpaces(value);
    var b := RemoveAll(a, '.');
    var r := ReplaceAll(b, ',', '.');
    assert r == NormalizeCurrencyPtBr(value);
    assert Count(r, '.') == Count(value, ',') by {
      NormalizedCommaCount(value);
    }
    assert forall i :: 0 <= i < |r| ==> !IsJsSpace(r[i]) by {
      forall i | 0 <= i < |r| ensures !IsJsSpace(r[i]) {
        assert r[i] == '.' || r[i] in b;
      }
    }
    assert forall c :: c != '.' && c != ',' && !IsJsSpace(c) ==> Count(r, c) == Count(value, c) by {
      forall c | c != '.' && c != ',' && !IsJsSpace(c)
        ensures Count(r, c) == Count(value, c)
      {
        assert Count(r, c) == Count(b, c) == Count(a, c);
      }
    }
  }

  /** Each ',' of the input becomes one '.', and no other '.' survives. */
  lemma NormalizedCommaCount(value: string)
    ensures Count(NormalizeCurrencyPtBr(value), '.') == Count(value, ',')
  {
    var a := RemoveSpaces(value);
    var b := RemoveAll(a, '.');
    assert Count(b, '.') == 0;
    assert Count(b, ',') == Count(a, ',') == Count(value, ',');
  }

  /**
   * The normalisation works character by character and keeps the order of what stays: it
   * distributes over concatenation ...
   */
  lemma NormalizeCurrencyPtBrAppend(a: string, b: string)
    ensures NormalizeCurrencyPtBr(a + b) == NormalizeCurrencyPtBr(a) + NormalizeCurrencyPtBr(b)
  {
    RemoveSpacesAppend(a, b);
    RemoveAllAppend(RemoveSpaces(a), RemoveSpaces(b), '.');
    ReplaceAllAppend(RemoveAll(RemoveSpaces(a), '.'), RemoveAll(RemoveSpaces(b), '.'), ',', '.');
  }

  /** ... and on one character it drops whitespace and '.', turns ',' into '.' and keeps the rest. */
  lemma NormalizeCurrencyPtBrChar(c: char)
    ensures NormalizeCurrencyPtBr([c]) ==
      if IsJsSpace(c) || c == '.' then [] else if c == ',' then ['.'] else [c]
  {
    assert [c][1..] == [];
  }

  /** Normalising a string is normalising its first character, then the rest. */
  lemma NormalizeCurrencyPtBrCons(s: string)
    requires s != []
    ensures NormalizeCurrencyPtBr(s) ==
      (if IsJsSpace(s[0]) || s[0] == '.' then [] else if s[0] == ',' then ['.'] else [s[0]])
      + NormalizeCurrencyPtBr(s[1..])
  {
    assert s == [s[0]] + s[1..];
    NormalizeCurrencyPtBrAppend([s[0]], s[1..]);
    NormalizeCurrencyPtBrChar(s[0]);
  }

  /** What one character of the input becomes. */
  function PtBrChar(c: char): string {
    if IsJsSpace(c) || c == '.' then [] else if c == ',' then ['.'] else [c]
  }

  /** The normalisation as a single left-to-right pass, one character at a time. */
  function Charwise(s: string): string {
    if s == [] then [] else PtBrChar(s[0]) + Charwise(s[1..])
  }

  /** The three whole-string replacements amount to one character-by-character pass. */
  lemma {:induction false} NormalizeIsCharwise(s: string)
    ensures NormalizeCurrencyPtBr(s) == Charwise(s)
  {
    if s != [] {
      NormalizeCurrencyPtBrCons(s);
      NormalizeIsCharwise(s[1..]);
    }
  }

  /** Digits pass through the normalisation unchanged. */
  lemma DigitsKept(s: string)
    requires forall i :: 0 <= i < |s| ==> '0' <= s[i] <= '9'
    ensures NormalizeCurrencyPtBr(s) == s
  {
    NormalizeIsCharwise(s);
    CharwiseKeepsDigits(s);
  }

  lemma {:induction false} CharwiseKeepsDigits(s: string)
    requires forall i :: 0 <= i < |s| ==> '0' <= s[i] <= '9'
    ensures Charwise(s) == s
  {
    if s != [] {
      assert PtBrChar(s[0]) == [s[0]] by {
        DigitIsNotSpace(s[0]);
      }
      CharwiseKeepsDigits(s[1..]);
    }
  }

  lemma DigitIsNotSpace(c: char)
    requires '0' <= c <= '9'
    ensures !IsJsSpace(c)
  {
  }

  /**
   * A pt-BR amount with a thousands separator, such as "1.234,56", becomes "1234.56": the
   * '.' is dropped, the ',' becomes the decimal point and the digits keep their order.
   */
  lemma ThousandsSeparatorDropped(units: string, thousands: string, cents: string)
    requires forall i :: 0 <= i < |units| ==> '0' <= units[i] <= '9'
    requires forall i :: 0 <= i < |thousands| ==> '0' <= thousands[i] <= '9'
    requires forall i :: 0 <= i < |cents| ==> '0' <= cents[i] <= '9'
    ensures NormalizeCurrencyPtBr(units + "." + thousands + "," + cents)
         == units + thousands + "." + cents
  {
    var p1 := units + ".";
    var p2 := p1 + thousands;
    var p3 := p2 + ",";
    assert NormalizeCurrencyPtBr(p1) == units by {
      NormalizeCurrencyPtBrAppend(units, ".");
      NormalizeCurrencyPtBrChar('.');
      DigitsKept(units);
    }
    assert NormalizeCurrencyPtBr(p2) == units + thousands by {
      NormalizeCurrencyPtBrAppend(p1, thousands);
      DigitsKept(thousands);
    }
    assert NormalizeCurrencyPtBr(p3) == units + thousands + "." by {
      NormalizeCurrencyPtBrAppend(p2, ",");
      NormalizeCurrencyPtBrChar(',');
    }
    NormalizeCurrencyPtBrAppend(p3, cents);
    DigitsKept(cents);
  }

  // ---------------------------------------------------------------- save

  datatype SaveError = MissingDescription | InvalidAmount | InvalidDay

  /** The fields `handleSave` writes; `installmentsTotal` is `None` where JavaScript would write NaN. */
  datatype ReminderEdit = ReminderEdit(
    description: string,
    amount: int,
    installmentsTotal: Option<int>,
    dayOfMonth: int)

  datatype SaveOutcome = Rejected(error: SaveError) | Update(edit: ReminderEdit)

  /** `Math.max(1, n)`, where NaN (`None`) stays NaN. */
  function AtLeastOne(n: Option<int>): (r: Option<int>)
    ensures r.None? <==> n.None?
    ensures r.Some? ==> r.value >= 1 && r.value >= n.value
    ensures n.Some? && n.value >= 1 ==> r == n
  {
    match n
    case None => None
    case Some(k) => Some(if k < 1 then 1 else k)
  }

  /**
   * `handleSave` once a user and a reminder are present. `toNumber` stands for `Number(...)`
   * in cents (`None` for NaN and the infinities) and `parseInt` for `parseInt(..., 10)`
   * (`None` for NaN); both are parameters because numeric parsing is not modelled.
   * The checks run in the source's order: description, amount, day.
   */
  function Save(
    description: string, amount: string, installmentsTotal: string, paymentDay: string,
    toNumber: string -> Option<int>, parseInt: string -> Option<int>): (r: SaveOutcome)
    ensures r == Rejected(MissingDescription) <==> Trim(description) == []
    ensures r == Rejected(InvalidAmount) <==>
      Trim(description) != [] && !(toNumber(NormalizeCurrencyPtBr(amount)).Some? && toNumber(NormalizeCurrencyPtBr(amount)).value > 0)
    ensures r.Update? <==>
      && Trim(description) != []
      && toNumber(NormalizeCurrencyPtBr(amount)).Some? && toNumber(NormalizeCurrencyPtBr(amount)).value > 0
      && parseInt(paymentDay).Some? && 1 <= parseInt(paymentDay).value <= 31
    ensures r.Update? ==>
      && r.edit.description == Trim(description)
      && Some(r.edit.amount) == toNumber(NormalizeCurrencyPtBr(amount))
      && Some(r.edit.dayOfMonth) == parseInt(paymentDay)
      && 1 <= r.edit.dayOfMonth <= 31
      && r.edit.installmentsTotal == AtLeastOne(parseInt(if installmentsTotal == [] then "1" else installmentsTotal))
      && (r.edit.installmentsTotal.Some? ==> r.edit.installmentsTotal.value >= 1)
      && (r.edit.installmentsTotal.None? <==> parseInt(if installmentsTotal == [] then "1" else installmentsTotal).None?)
  {
    var trimmed := Trim(description);
    if trimmed == [] then Rejected(MissingDescription)
    else
      var parsedAmount := toNumber(NormalizeCurrencyPtBr(amount));
      if parsedAmount.None? || parsedAmount.value <= 0 then Rejected(InvalidAmount)
      else
        var total := AtLeastOne(parseInt(if installmentsTotal == [] then "1" else installmentsTotal));
        var day := parseInt(paymentDay);
        if day.None? || day.value == 0 || day.value < 1 || day.value > 31 then Rejected(InvalidDay)
        else Update(ReminderEdit(trimmed, parsedAmount.value, total, day.value))
  }

  /** An empty installments field is saved as a single installment. */
  lemma EmptyInstallmentsMeansOne(
    description: string, amount: string, paymentDay: string,
    toNumber: string -> Option<int>, parseInt: string -> Option<int>)
    requires parseInt("1") == Some(1)
    requires Save(description, amount, [], paymentDay, toNumber, parseInt).Update?
    ensures Save(description, amount, [], paymentDay, toNumber, parseInt).edit.installmentsTotal == Some(1)
  {
  }

  // ---------------------------------------------------------------- installment display

  function Min(a: int, b: int): int { if a < b then a else b }
  function Max(a: int, b: int): int { if a < b then b else a }

  /** The status line's "Parcela k de total": `min(total, max(1, paid + 1))`. */
  function DisplayedInstallment(paid: int, total: int): (k: int)
    ensures total >= 1 ==> 1 <= k <= total
    ensures 0 <= paid < total ==> k == paid + 1
    ensures total >= 1 && paid >= total ==> k == total
  {
    Min(total, Max(1, paid + 1))
  }

  /** The "mark as paid" button is rendered only while installments remain. */
  predicate CanMarkAsPaid(r: Reminder) {
    r.installmentsPaid < r.installmentsTotal
  }

  /** The number on the button: `min(total, paid + 1)`. */
  function ButtonInstallment(r: Reminder): int {
    Min(r.installmentsTotal, r.installmentsPaid + 1)
  }

  /**
   * Whenever the button is offered (and the counter is not negative), it names the
   * installment the status line shows, which is the next unpaid one.
   */
  lemma ButtonNamesNextInstallment(r: Reminder)
    requires CanMarkAsPaid(r) && r.installmentsPaid >= 0
    ensures ButtonInstallment(r) == DisplayedInstallment(r.installmentsPaid, r.installmentsTotal)
    ensures ButtonInstallment(r) == r.installmentsPaid + 1
  {
  }

  // ---------------------------------------------------------------- mark as paid

  /** The expense `handleMarkAsPaid` inserts (its type is always 'saida'). */
  datatype Expense = Expense(description: string, amount: int, occurredOn: Date)

  /** The fields `handleMarkAsPaid` writes back to the reminder. */
  datatype PaymentUpdate = PaymentUpdate(installmentsPaid: int, nextDueDate: Date, active: bool)

  /** `new Date(d.getFullYear(), d.getMonth() + 1, 0).getDate()`: the length of `d`'s month. */
  function LastDayOfMonth(d: Date): int {
    MakeDate(d.year, d.month + 1, 0).day
  }

  /**
   * `handleMarkAsPaid` once both remote calls succeed; `today` is the date the expense is
   * recorded on. The next due date moves only when installments remain and `day_of_month`
   * is set (and non-zero); for days 1..31 it becomes `new Date(y, m + 1, day)`, with the
   * Date constructor's carry, because the clamp to the month's last day never fires.
   */
  method MarkAsPaid(r: Reminder, today: Date) returns (expense: Expense, update: PaymentUpdate)
    ensures expense == Expense(r.description, r.amount, today)
    ensures update.installmentsPaid == r.installmentsPaid + 1
    ensures update.active <==> update.installmentsPaid < r.installmentsTotal
    ensures !update.active || r.dayOfMonth.None? || r.dayOfMonth == Some(0) ==>
      update.nextDueDate == r.nextDueDate
    ensures update.active && r.dayOfMonth.Some? && 1 <= r.dayOfMonth.value <= 31 ==>
      update.nextDueDate == MakeDate(r.nextDueDate.year, r.nextDueDate.month + 1, r.dayOfMonth.value)
  {
    expense := Expense(r.description, r.amount, today);
    var newInstallmentsPaid := r.installmentsPaid + 1;
    var isLastInstallment := newInstallmentsPaid >= r.installmentsTotal;
    var nextDueDate := r.nextDueDate;
    if !isLastInstallment && r.dayOfMonth.Some? && r.dayOfMonth.value != 0 {
      var day := r.dayOfMonth.value;
      var currentDue := r.nextDueDate;
      var nextMonth := MakeDate(currentDue.year, currentDue.month + 1, day);
      var lastDay := LastDayOfMonth(nextMonth);
      if 1 <= day <= 31 {
        ClampNeverFires(currentDue, day);
      }
      if day > lastDay {
        nextMonth := MakeDate(nextMonth.year, nextMonth.month, lastDay);
      }
      nextDueDate := nextMonth;
    }
    update := PaymentUpdate(newInstallmentsPaid, nextDueDate, !isLastInstallment);
  }

  /**
   * The clamp guarded by `day_of_month > lastDayOfMonth` is dead for every day 1..31: the
   * last day is read from the date the constructor already carried, and a carry only
   * happens out of a month of 30 days or fewer, into a month of 31.
   */
  lemma ClampNeverFires(due: Date, day: int)
    requires 1 <= day <= 31
    ensures day <= LastDayOfMonth(MakeDate(due.year, due.month + 1, day))
  {
    var y, m := due.year, due.month + 1;
    var next := MakeDate(y, m, day);
    DayZeroIsLastOfPrevious(next.year, next.month + 1);
    assert LastDayOfMonth(next) == DaysInMonth(next.year, next.month);
    if day <= MonthLength(y, m) {
      MakeDateInMonth(y, m, day);
    } else {
      ShortMonthThenLongMonth(y, m);
      MakeDateCarry(y, m, day);
    }
  }

  /**
   * Beyond 31 the clamp is live: day 40 after a January due date overflows February and
   * lands on 12 March, so the clamp compares 40 with March's 31 days.
   */
  lemma ClampFiresBeyondThirtyOne()
    ensures var next := MakeDate(2025, 1, 40);
      next == Date(2025, 2, 12) && LastDayOfMonth(next) == 31
  {
    MakeDateCarry(2025, 1, 40);
    DayZeroIsLastOfPrevious(2025, 3);
  }

  /**
   * As written, a reminder due on 2025-01-15 with `day_of_month` 31 is rolled to
   * 2025-03-03, skipping February, where the comment at the clamp intends 2025-02-28.
   */
  lemma RolloverSkipsFebruary()
    ensures MakeDate(2025, 0 + 1, 31) == Date(2025, 2, 3)
  {
    MakeDateCarry(2025, 1, 31);
  }

  /**
   * The rollover the clamp's comment describes: `day` of the month after `due`'s month,
   * or that month's last day when it is shorter.
   */
  function ClampedNextDue(due: Date, day: int): (r: Date)
    requires 1 <= day
    ensures Valid(r)
    ensures r.year == FirstOfMonth(due.year, due.month + 1).year
    ensures r.month == FirstOfMonth(due.year, due.month + 1).month
    ensures r.day == Min(day, MonthLength(due.year, due.month + 1))
  {
    var first := FirstOfMonth(due.year, due.month + 1);
    Date(first.year, first.month, Min(day, MonthLength(due.year, due.month + 1)))
  }

  /** The intended rollover and the code agree exactly when the day exists in the next month. */
  lemma ClampedNextDueAgreement(due: Date, day: int)
    requires 1 <= day <= 31
    ensures ClampedNextDue(due, day) == MakeDate(due.year, due.month + 1, day)
        <==> day <= MonthLength(due.year, due.month + 1)
  {
    var y, m := due.year, due.month + 1;
    if day <= MonthLength(y, m) {
      MakeDateInMonth(y, m, day);
    } else {
      ShortMonthThenLongMonth(y, m);
      MakeDateCarry(y, m, day);
    }
  }
}
