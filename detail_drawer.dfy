/**
 The payment drawer of one house. Its period picker offers the period keys
 of the house's status rows that lie inside the selected bounds; its form
 records a payment for the selected period, either with the amount typed by
 the user ("Simpan Pembayaran") or with exactly the outstanding due
 ("Bayar Lunas").

 The status rows and the payments table live in the database: the rows are
 passed in, and the answer of the remote insert is a parameter of the
 operations that insert. So are the user's answers to the confirmation
 prompts and the wall clock.
 */
module DetailDrawer {
  import opened Options
  import opened JsString
  import opened JsNumber
  import opened Period

  datatype Tab = Rent | Water
  datatype Mode = Single | Range

  datatype PeriodRange = PeriodRange(from: string, to: string)
  datatype House = House(id: string, code: string, owner: string)

  /** A row of the rent or the water status view; the two differ only in the names of their fields. */
  datatype StatusRow = StatusRow(period: string, bill: real, paid: real, due: real)

  /** Status rows by house id, then by period key. */
  type StatusMap = map<string, map<string, StatusRow>>

  /** What the page passes to the drawer. */
  datatype Props = Props(
    open: bool,
    house: Option<House>,
    mode: Mode,
    singlePeriodISO: string,
    range: PeriodRange,
    rentStatus: StatusMap,
    waterStatus: StatusMap)

  datatype Form = Form(periodMonth: string, paidAt: string, amount: string, paymentMethod: string, note: string)
  datatype Field = PeriodMonth | PaidAt | Amount | Method | Note

  /** The row sent to the payments table; an optional text field is left out when the form's text is empty. */
  datatype Payload = Payload(
    houseId: string,
    period: string,
    kind: Tab,
    amount: real,
    paidAt: Option<string>,
    paymentMethod: Option<string>,
    note: Option<string>)

  /** How a save attempt ends: refused before any insert, or the insert's answer. */
  datatype Outcome =
    | InvalidAmount
    | NothingDue
    | Declined
    | InsertFailed(payload: Payload, message: string)
    | Saved(payload: Payload)
  {
    predicate Attempted() { InsertFailed? || Saved? }
  }

  /** The slack allowed above the due before an amount counts as overpaying. */
  const OverpayTolerance: real := 0.0001

  const EmptyForm: Form := Form("", "", "", "", "")

  /** `if (text) payload.field = text`: empty text is left out of the payload. */
  function OptionalText(text: string): (r: Option<string>)
    ensures r.None? <==> text == ""
    ensures r.Some? ==> r.value == text
  {
    if text == "" then None else Some(text)
  }

  /** The month the form falls back to: that of the single period, or of the start of the range. */
  function DefaultMonth(mode: Mode, singlePeriodISO: string, range: PeriodRange): (m: string)
    ensures mode == Single ==> m == IsoToMonth(singlePeriodISO)
    ensures mode == Range ==> m == IsoToMonth(range.from)
  {
    if mode == Single then IsoToMonth(singlePeriodISO) else IsoToMonth(range.from)
  }

  /** The bounds of the period picker: the single period on both sides, or the range as given. */
  function PeriodBounds(mode: Mode, singlePeriodISO: string, range: PeriodRange): (b: PeriodRange)
    ensures mode == Single ==> b.from == singlePeriodISO && b.to == singlePeriodISO
    ensures mode == Range ==> b == range
  {
    if mode == Single then PeriodRange(singlePeriodISO, singlePeriodISO) else range
  }

  function Bounds(props: Props): PeriodRange
  {
    PeriodBounds(props.mode, props.singlePeriodISO, props.range)
  }

  /** The status rows of the active tab. */
  function StatusMapFor(tab: Tab, props: Props): StatusMap
  {
    if tab == Rent then props.rentStatus else props.waterStatus
  }

  /** `statusMap[houseId] || {}`. */
  function HouseStatus(statusMap: StatusMap, houseId: string): map<string, StatusRow>
  {
    if houseId in statusMap then statusMap[houseId] else map[]
  }

  /** The picker's filter: an empty bound keeps every key, otherwise `from <= p <= to` in string order. */
  predicate InBounds(p: string, b: PeriodRange)
  {
    b.from == "" || b.to == "" || (Le(b.from, p) && Le(p, b.to))
  }

  /**
   `availablePeriods`: the period keys the picker offers. Without a house,
   none. Otherwise the keys of the house's status rows inside the bounds,
   in ascending order, each once; when no key is inside, the bounds
   themselves (`to` only when non-empty and different from `from`).
   */
  function AvailablePeriods(house: Option<House>, statusMap: StatusMap, b: PeriodRange): (r: seq<string>)
    ensures house.None? ==> r == []
    ensures house.Some? ==> |r| >= 1
    ensures house.Some? && (exists p :: p in HouseStatus(statusMap, house.value.id) && InBounds(p, b)) ==>
      && (forall p :: p in r <==> p in HouseStatus(statusMap, house.value.id) && InBounds(p, b))
      && StrictlyAscending(r)
    ensures house.Some? && (forall p :: p in HouseStatus(statusMap, house.value.id) ==> !InBounds(p, b)) ==>
      r == if b.to != "" && b.to != b.from then [b.from, b.to] else [b.from]
  {
    match house
    case None => []
    case Some(h) =>
      var rows := HouseStatus(statusMap, h.id);
      var filtered := set p | p in rows && InBounds(p, b);
      if |filtered| > 0 then
        SortedElements(filtered)
      else
        assert forall p :: p in rows ==> p !in filtered;
        if b.to != "" && b.to != b.from then [b.from, b.to] else [b.from]
  }

  /** `availablePeriods` for the drawer's props and active tab. */
  function Offered(props: Props, tab: Tab): seq<string>
  {
    AvailablePeriods(props.house, StatusMapFor(tab, props), Bounds(props))
  }

  /** `selectedPeriodISO`: the period key of the form's month, or of the default month when the form's is empty. */
  function SelectedPeriod(props: Props, form: Form, now: LocalDate): string
  {
    var month := if form.periodMonth != "" then form.periodMonth
                 else DefaultMonth(props.mode, props.singlePeriodISO, props.range);
    MonthToISOFirst(month, now)
  }

  /** `dueValue`: the due of the house's status row for the period, 0 when there is no such row. */
  function DueValue(statusMap: StatusMap, houseId: string, period: string): (due: real)
    ensures houseId in statusMap && period in statusMap[houseId] ==> due == statusMap[houseId][period].due
    ensures !(houseId in statusMap && period in statusMap[houseId]) ==> due == 0.0
  {
    var rows := HouseStatus(statusMap, houseId);
    if period in rows then rows[period].due else 0.0
  }

  /** The due shown for the selected period of the active tab. */
  function CurrentDue(props: Props, tab: Tab, form: Form, now: LocalDate): real
    requires props.house.Some?
  {
    DueValue(StatusMapFor(tab, props), props.house.value.id, SelectedPeriod(props, form, now))
  }

  /** What "Simpan Pembayaran" does with the typed amount, the selected period and its due. */
  function SubmitOutcome(
    form: Form, houseId: string, period: string, tab: Tab, due: real,
    confirmOverpay: bool, insertError: Option<string>): Outcome
  {
    var amount := ParseNumber(form.amount);
    // `!amount` holds for 0 and NaN; `amount <= 0` covers the rest.
    if amount.NaN? || amount.value <= 0.0 then InvalidAmount
    else if due > 0.0 && amount.value > due + OverpayTolerance && !confirmOverpay then Declined
    else
      var payload := Payload(houseId, period, tab, amount.value,
                             OptionalText(form.paidAt), OptionalText(form.paymentMethod), OptionalText(form.note));
      match insertError
      case Some(message) => InsertFailed(payload, message)
      case None => Saved(payload)
  }

  /**
   The guards of "Simpan Pembayaran". An amount that is NaN, zero or
   negative is refused without any insert. An amount above a positive due
   by more than the tolerance is inserted only if the user confirms. The
   inserted payment carries the parsed amount and the active tab as its kind.
   */
  lemma SubmitGuards(
    form: Form, houseId: string, period: string, tab: Tab, due: real,
    confirmOverpay: bool, insertError: Option<string>)
    ensures var r := SubmitOutcome(form, houseId, period, tab, due, confirmOverpay, insertError);
      var amount := ParseNumber(form.amount);
      && (r == InvalidAmount <==> amount.NaN? || amount.value <= 0.0)
      && (r == Declined <==>
            amount.Finite? && amount.value > 0.0 && due > 0.0 && amount.value > due + OverpayTolerance && !confirmOverpay)
      && (r.Attempted() ==>
            r.payload == Payload(houseId, period, tab, amount.value,
                                 OptionalText(form.paidAt), OptionalText(form.paymentMethod), OptionalText(form.note)))
      && (r.Attempted() ==> r.payload.amount > 0.0)
      && (r.Attempted() && due > 0.0 && !confirmOverpay ==> r.payload.amount <= due + OverpayTolerance)
      && (r.Saved? <==> r.Attempted() && insertError.None?)
      && (r.InsertFailed? ==> insertError == Some(r.message))
      && r != NothingDue
  {
  }

  /** What "Bayar Lunas" does with the selected period and its due. */
  function MarkLunasOutcome(
    form: Form, houseId: string, period: string, tab: Tab, due: real,
    confirmed: bool, insertError: Option<string>): Outcome
  {
    if due <= 0.0 then NothingDue
    else if !confirmed then Declined
    else
      var payload := Payload(houseId, period, tab, due, OptionalText(form.paidAt), None, None);
      match insertError
      case Some(message) => InsertFailed(payload, message)
      case None => Saved(payload)
  }

  /**
   The guards of "Bayar Lunas". Nothing is inserted when the due is not
   positive or the user declines; otherwise the inserted payment is exactly
   the due, of the active tab's kind, without method or note.
   */
  lemma MarkLunasGuards(
    form: Form, houseId: string, period: string, tab: Tab, due: real,
    confirmed: bool, insertError: Option<string>)
    ensures var r := MarkLunasOutcome(form, houseId, period, tab, due, confirmed, insertError);
      && (r == NothingDue <==> due <= 0.0)
      && (r == Declined <==> due > 0.0 && !confirmed)
      && (r.Attempted() <==> due > 0.0 && confirmed)
      && (r.Attempted() ==> r.payload == Payload(houseId, period, tab, due, OptionalText(form.paidAt), None, None))
      && (r.Saved? <==> r.Attempted() && insertError.None?)
      && (r.InsertFailed? ==> insertError == Some(r.message))
      && r != InvalidAmount
  {
  }

  /**
   The optional fields of an inserted payment: "Simpan Pembayaran" sends the
   paid date, method and note exactly when the form's text is non-empty, and
   then that text; "Bayar Lunas" sends only the paid date, under the same rule.
   */
  lemma OptionalFieldsFollowForm(
    form: Form, houseId: string, period: string, tab: Tab, due: real, confirm: bool, insertError: Option<string>)
    ensures var r := SubmitOutcome(form, houseId, period, tab, due, confirm, insertError);
      r.Attempted() ==>
        && (r.payload.paidAt.Some? <==> form.paidAt != "")
        && (r.payload.paymentMethod.Some? <==> form.paymentMethod != "")
        && (r.payload.note.Some? <==> form.note != "")
        && (r.payload.paidAt.Some? ==> r.payload.paidAt.value == form.paidAt)
        && (r.payload.paymentMethod.Some? ==> r.payload.paymentMethod.value == form.paymentMethod)
        && (r.payload.note.Some? ==> r.payload.note.value == form.note)
    ensures var r := MarkLunasOutcome(form, houseId, period, tab, due, confirm, insertError);
      r.Attempted() ==>
        && (r.payload.paidAt.Some? <==> form.paidAt != "")
        && (r.payload.paidAt.Some? ==> r.payload.paidAt.value == form.paidAt)
        && r.payload.paymentMethod.None? && r.payload.note.None?
  {
  }

  /** The selected period is always normalised: normalising it again changes nothing. */
  lemma SelectedPeriodIsNormal(props: Props, form: Form, now: LocalDate)
    ensures MonthToISOFirst(SelectedPeriod(props, form, now), now) == SelectedPeriod(props, form, now)
  {
    var month := if form.periodMonth != "" then form.periodMonth
                 else DefaultMonth(props.mode, props.singlePeriodISO, props.range);
    Idempotent(month, now);
  }

  /** The due shown is that of the house's status row for the selected period in the active tab, 0 without such a row. */
  lemma CurrentDueOfSelectedPeriod(props: Props, tab: Tab, form: Form, now: LocalDate)
    requires props.house.Some?
    ensures var rows := HouseStatus(StatusMapFor(tab, props), props.house.value.id);
      var p := SelectedPeriod(props, form, now);
      && (p in rows ==> CurrentDue(props, tab, form, now) == rows[p].due)
      && (p !in rows ==> CurrentDue(props, tab, form, now) == 0.0)
  {
  }

  /** An empty bound keeps every key; with both bounds the same key, only that key is kept. */
  lemma InBoundsOfEqualBounds(p: string, k: string)
    ensures k == "" ==> InBounds(p, PeriodRange(k, k))
    ensures k != "" ==> (InBounds(p, PeriodRange(k, k)) <==> p == k)
  {
    if k != "" {
      if InBounds(p, PeriodRange(k, k)) {
        LeAntisymmetric(p, k);
      }
      if p == k {
        LeReflexive(k);
      }
    }
  }

  /** `submitPayment`'s outcome for the drawer's props, active tab and form. */
  function SubmitOutcomeFor(
    props: Props, tab: Tab, form: Form, now: LocalDate,
    confirmOverpay: bool, insertError: Option<string>): Outcome
    requires props.house.Some?
  {
    SubmitOutcome(form, props.house.value.id, SelectedPeriod(props, form, now), tab,
                  CurrentDue(props, tab, form, now), confirmOverpay, insertError)
  }

  /** `markLunas`'s outcome for the drawer's props, active tab and form. */
  function MarkLunasOutcomeFor(
    props: Props, tab: Tab, form: Form, now: LocalDate,
    confirmed: bool, insertError: Option<string>): Outcome
    requires props.house.Some?
  {
    MarkLunasOutcome(form, props.house.value.id, SelectedPeriod(props, form, now), tab,
                     CurrentDue(props, tab, form, now), confirmed, insertError)
  }

  /** The form after a saved payment: amount and note cleared, every other field kept. */
  function ClearedAfterSave(form: Form): (f: Form)
    ensures f.amount == "" && f.note == ""
    ensures f.periodMonth == form.periodMonth && f.paidAt == form.paidAt && f.paymentMethod == form.paymentMethod
  {
    form.(amount := "", note := "")
  }

  /**
   The form the drawer opens with: the month of the first offered period
   (the start bound when nothing is offered), today's date, every other
   field empty.
   */
  function OpenedForm(offered: seq<string>, bounds: PeriodRange, today: string): (f: Form)
    ensures f.periodMonth == IsoToMonth(if |offered| > 0 then offered[0] else bounds.from)
    ensures f.paidAt == today && f.amount == "" && f.paymentMethod == "" && f.note == ""
  {
    var defaultPeriod := if |offered| > 0 then offered[0] else bounds.from;
    Form(IsoToMonth(defaultPeriod), today, "", "", "")
  }

  /** The text a form holds in one of its inputs. */
  function FieldValue(form: Form, field: Field): string
  {
    match field
    case PeriodMonth => form.periodMonth
    case PaidAt => form.paidAt
    case Amount => form.amount
    case Method => form.paymentMethod
    case Note => form.note
  }

  /** Two forms that hold the same text in every input are the same form. */
  lemma FieldsDetermineForm(a: Form, b: Form)
    requires forall g :: FieldValue(a, g) == FieldValue(b, g)
    ensures a == b
  {
    assert FieldValue(a, PeriodMonth) == FieldValue(b, PeriodMonth);
    assert FieldValue(a, PaidAt) == FieldValue(b, PaidAt);
    assert FieldValue(a, Amount) == FieldValue(b, Amount);
    assert FieldValue(a, Method) == FieldValue(b, Method);
    assert FieldValue(a, Note) == FieldValue(b, Note);
  }

  /** The form after the user types `value` into one of its inputs: that input holds `value`, every other input is kept. */
  function WithField(form: Form, field: Field, value: string): (f: Form)
    ensures FieldValue(f, field) == value
    ensures forall g :: g != field ==> FieldValue(f, g) == FieldValue(form, g)
  {
    match field
    case PeriodMonth => form.(periodMonth := value)
    case PaidAt => form.(paidAt := value)
    case Amount => form.(amount := value)
    case Method => form.(paymentMethod := value)
    case Note => form.(note := value)
  }

  /** Typing twice into the same input leaves only the second text. */
  lemma LastEditWins(form: Form, field: Field, first: string, second: string)
    ensures WithField(WithField(form, field, first), field, second) == WithField(form, field, second)
  {
    var a := WithField(WithField(form, field, first), field, second);
    var b := WithField(form, field, second);
    forall g
      ensures FieldValue(a, g) == FieldValue(b, g)
    {
    }
    FieldsDetermineForm(a, b);
  }

  /** Edits of two different inputs do not interfere: their order does not matter. */
  lemma EditsCommute(form: Form, f1: Field, v1: string, f2: Field, v2: string)
    requires f1 != f2
    ensures WithField(WithField(form, f1, v1), f2, v2) == WithField(WithField(form, f2, v2), f1, v1)
  {
    var a := WithField(WithField(form, f1, v1), f2, v2);
    var b := WithField(WithField(form, f2, v2), f1, v1);
    forall g
      ensures FieldValue(a, g) == FieldValue(b, g)
    {
    }
    FieldsDetermineForm(a, b);
  }

  /** The drawer's own state: the active tab and the payment form. */
  class Drawer {
    var tab: Tab
    var form: Form

    constructor ()
      ensures tab == Rent && form == EmptyForm
    {
      tab := Rent;
      form := EmptyForm;
    }

    /** A click on the "Sewa" or "Air" tab. */
    method SelectTab(t: Tab)
      modifies this
      ensures tab == t && form == old(form)
    {
      tab := t;
    }

    /** An input's change handler. */
    method EditField(field: Field, value: string)
      modifies this
      ensures tab == old(tab)
      ensures form == WithField(old(form), field, value)
    {
      form := WithField(form, field, value);
    }

    /** The effect that resets the form while the drawer is open on a house. */
    method ResetForm(props: Props, today: string)
      modifies this
      ensures tab == old(tab)
      ensures props.open && props.house.Some? ==> form == OpenedForm(Offered(props, tab), Bounds(props), today)
      ensures !(props.open && props.house.Some?) ==> form == old(form)
    {
      if !props.open || props.house.None? {
        return;
      }
      form := OpenedForm(Offered(props, tab), Bounds(props), today);
    }

    /** `submitPayment`: the handler exists only while the drawer is open on a house. */
    method SubmitPayment(props: Props, now: LocalDate, confirmOverpay: bool, insertError: Option<string>)
      returns (outcome: Outcome)
      requires props.open && props.house.Some?
      modifies this
      ensures tab == old(tab)
      ensures outcome == SubmitOutcomeFor(props, tab, old(form), now, confirmOverpay, insertError)
      ensures form == if outcome.Saved? then ClearedAfterSave(old(form)) else old(form)
    {
      var before := form;
      outcome := SubmitOutcomeFor(props, tab, before, now, confirmOverpay, insertError);
      if outcome.Saved? {
        form := ClearedAfterSave(before);
      }
    }

    /** `markLunas`: pays exactly the due of the selected period; the form is left as it is. */
    method MarkLunas(props: Props, now: LocalDate, confirmed: bool, insertError: Option<string>)
      returns (outcome: Outcome)
      requires props.open && props.house.Some?
      ensures outcome == MarkLunasOutcomeFor(props, tab, form, now, confirmed, insertError)
      ensures outcome.Attempted() ==> outcome.payload.amount == CurrentDue(props, tab, form, now) > 0.0
      ensures outcome.Attempted() ==> outcome.payload.kind == tab && outcome.payload.period == SelectedPeriod(props, form, now)
    {
      outcome := MarkLunasOutcomeFor(props, tab, form, now, confirmed, insertError);
    }
  }
}
