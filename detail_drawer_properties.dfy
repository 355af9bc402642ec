/**
 Properties of the payment drawer that relate its period picker, its form
 and its two save actions.
 */
module DetailDrawerProperties {
  import opened Options
  import opened JsString
  import opened JsNumber
  import opened Period
  import opened DetailDrawer

  /**
   In single-period mode the picker offers exactly the selected period,
   whether or not the house has a status row for it.
   */
  lemma SingleModeOffersOnlyItsPeriod(h: House, statusMap: StatusMap, single: string, range: PeriodRange)
    requires single != ""
    ensures AvailablePeriods(Some(h), statusMap, PeriodBounds(Single, single, range)) == [single]
  {
    var b := PeriodBounds(Single, single, range);
    var rows := HouseStatus(statusMap, h.id);
    var r := AvailablePeriods(Some(h), statusMap, b);
    forall p | InBounds(p, b)
      ensures p == single
    {
      InBoundsOfEqualBounds(p, single);
    }
    if single in rows {
      InBoundsOfEqualBounds(single, single);
      assert forall p :: p in r <==> p == single;
      assert r[0] == single;
    }
  }

  /**
   With both bounds given and in order, every offered period lies between
   them, the fallback included.
   */
  lemma OrderedRangeStaysInRange(h: House, statusMap: StatusMap, b: PeriodRange)
    requires b.from != "" && b.to != "" && Le(b.from, b.to)
    ensures forall p :: p in AvailablePeriods(Some(h), statusMap, b) ==> Le(b.from, p) && Le(p, b.to)
  {
    LeReflexive(b.from);
    LeReflexive(b.to);
  }

  /**
   When some status row lies inside the bounds, the first offered period is
   the earliest such row's period.
   */
  lemma FirstOfferedIsEarliest(h: House, statusMap: StatusMap, b: PeriodRange)
    requires exists p :: p in HouseStatus(statusMap, h.id) && InBounds(p, b)
    ensures var r := AvailablePeriods(Some(h), statusMap, b);
      && r[0] in HouseStatus(statusMap, h.id) && InBounds(r[0], b)
      && forall p :: p in HouseStatus(statusMap, h.id) && InBounds(p, b) ==> Le(r[0], p)
  {
    var r := AvailablePeriods(Some(h), statusMap, b);
    assert r[0] in r;
    forall p | p in HouseStatus(statusMap, h.id) && InBounds(p, b)
      ensures Le(r[0], p)
    {
      assert p in r;
      var j :| 0 <= j < |r| && r[j] == p;
      if j == 0 {
        LeReflexive(p);
      }
    }
  }

  /**
   The drawer opens on the first offered period: when that is a well-formed
   period key, it is the period the form selects, and the due shown is that
   period's due.
   */
  lemma OpenedFormSelectsFirstOffered(props: Props, tab: Tab, today: string, now: LocalDate)
    requires props.house.Some?
    requires IsPeriodKey(Offered(props, tab)[0])
    ensures var form := OpenedForm(Offered(props, tab), Bounds(props), today);
      && SelectedPeriod(props, form, now) == Offered(props, tab)[0]
      && CurrentDue(props, tab, form, now) ==
           DueValue(StatusMapFor(tab, props), props.house.value.id, Offered(props, tab)[0])
  {
    var k := Offered(props, tab)[0];
    KeyRoundTrip(k, now);
  }

  /** In single-period mode, an untouched month selects the single period itself. */
  lemma SingleModeDefaultsToItsPeriod(props: Props, form: Form, now: LocalDate)
    requires props.mode == Single && IsPeriodKey(props.singlePeriodISO)
    requires form.periodMonth == ""
    ensures SelectedPeriod(props, form, now) == props.singlePeriodISO
  {
    KeyRoundTrip(props.singlePeriodISO, now);
  }

  /** A month picked in the form is saved as the first day of that month. */
  lemma PickedMonthIsSaved(props: Props, form: Form, now: LocalDate)
    requires IsMonthValue(form.periodMonth)
    ensures SelectedPeriod(props, form, now) == form.periodMonth + "-01"
  {
    MonthValueToKey(form.periodMonth, now);
  }

  /**
   The form a save leaves behind has an empty amount, so pressing save again
   without typing a new amount is refused without an insert, whatever the
   period, due, answer to the prompt or insert result.
   */
  lemma ResubmitAfterSaveIsRejected(
    form: Form, houseId: string, period: string, tab: Tab, due: real, confirm: bool, error: Option<string>)
    ensures SubmitOutcome(ClearedAfterSave(form), houseId, period, tab, due, confirm, error) == InvalidAmount
  {
    assert ParseNumber(ClearedAfterSave(form).amount) == Finite(0.0);
  }

  /**
   Typing exactly the due never asks for confirmation, and inserts the same
   payment as "Bayar Lunas" except that the form's method and note are kept.
   */
  lemma ExactDueNeedsNoConfirmation(
    form: Form, houseId: string, period: string, tab: Tab, due: real, error: Option<string>)
    requires due > 0.0 && ParseNumber(form.amount) == Finite(due)
    ensures var submitted := SubmitOutcome(form, houseId, period, tab, due, false, error);
      var settled := MarkLunasOutcome(form, houseId, period, tab, due, true, error);
      && submitted.Attempted() && settled.Attempted()
      && submitted.payload == settled.payload.(paymentMethod := OptionalText(form.paymentMethod),
                                               note := OptionalText(form.note))
  {
    assert due <= due + OverpayTolerance;
  }

  /**
   The overpay prompt needs a positive due: for a period with no positive
   due (no status row, or already paid) any positive amount is inserted
   without asking, and with exactly that amount.
   */
  lemma NoDueNeedsNoConfirmation(
    form: Form, houseId: string, period: string, tab: Tab, due: real, error: Option<string>)
    requires due <= 0.0 && ParseNumber(form.amount).Finite? && ParseNumber(form.amount).value > 0.0
    ensures var r := SubmitOutcome(form, houseId, period, tab, due, false, error);
      && r.Attempted()
      && r.payload.amount == ParseNumber(form.amount).value
      && (error.None? ==> r.Saved?)
  {
    SubmitGuards(form, houseId, period, tab, due, false, error);
  }
}
