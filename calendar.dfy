/**
 * The booking date picker of the front end (Projekt_yolo/js/calendar.js): two
 * date inputs, a nights/total summary, a reserve button that opens a popup, and
 * the handlers that keep the chosen stay sensible. The page talks to no server.
 *
 * Dates are day numbers. A date input's value is a day or None for the empty
 * string. `todayStr` is computed once when the page loads, so `today` is a
 * constant of the widget.
 */
module Calendar {
  import opened Wrappers

  const PricePerNight := 2500

  type Day = int

  /** The values of the check-in and check-out inputs. */
  datatype Dates = Dates(checkin: Option<Day>, checkout: Option<Day>)

  const NoDates := Dates(None, None)

  /** `new Date(a) <= new Date(b)`: an empty input parses to Invalid Date, which compares false. */
  predicate NotAfter(a: Option<Day>, b: Option<Day>) {
    a.Some? && b.Some? && a.value <= b.value
  }

  /**
   * What the handlers maintain: no chosen date lies before today, and a stay
   * with both ends chosen lasts at least one night.
   */
  predicate Ordered(today: Day, d: Dates) {
    (d.checkin.Some? ==> today <= d.checkin.value) &&
    (d.checkout.Some? ==> today <= d.checkout.value) &&
    (d.checkin.Some? && d.checkout.Some? ==> d.checkin.value < d.checkout.value)
  }

  /** `getNights`: whole days from check-in to check-out, 0 while either input is empty. */
  function Nights(d: Dates): (n: int)
    ensures d.checkin.None? || d.checkout.None? ==> n == 0
    ensures d.checkin.Some? && d.checkout.Some? ==> d.checkin.value + n == d.checkout.value
  {
    if d.checkin.None? || d.checkout.None? then 0
    else d.checkout.value - d.checkin.value
  }

  /** On ordered dates there is at least one night exactly when both ends are chosen. */
  lemma NightsOfOrdered(today: Day, d: Dates)
    requires Ordered(today, d)
    ensures Nights(d) >= 0
    ensures Nights(d) >= 1 <==> d.checkin.Some? && d.checkout.Some?
  {
  }

  datatype Label = Singular | Plural

  /**
   * What `updateSummary` shows: the nights count and its label (' noćenje' or
   * ' noćenja'), the total in euros, and whether the reserve button is disabled.
   */
  datatype Summary = Summary(nights: int, word: Label, total: int, reserveDisabled: bool)

  /** The summary `updateSummary` shows for a given `getNights()` value. */
  function SummaryFor(nights: int): (s: Summary)
    ensures s.nights == if nights > 0 then nights else 0
    ensures s.total == s.nights * PricePerNight
    ensures s.reserveDisabled <==> s.nights == 0
    ensures s.word == Singular <==> s.nights == 1
  {
    if nights <= 0 then Summary(0, Plural, 0, true)
    else
      var total := nights * PricePerNight;
      Summary(nights, if nights == 1 then Singular else Plural, total, false)
  }

  /** On ordered dates the reserve button is enabled exactly when both ends are chosen. */
  lemma ReserveEnabledExactlyWhenBothSet(today: Day, d: Dates)
    requires Ordered(today, d)
    ensures !SummaryFor(Nights(d)).reserveDisabled <==> d.checkin.Some? && d.checkout.Some?
  {
  }

  /**
   * The dates after the user puts `v` into the check-in input and its change
   * handler runs. A past check-in is dropped; a check-out that is past, or not
   * after the new check-in, is dropped. The result is ordered whatever came before.
   */
  function CheckinChanged(today: Day, d: Dates, v: Option<Day>): (r: Dates)
    ensures Ordered(today, r)
    ensures r.checkin.Some? <==> v.Some? && today <= v.value
    ensures r.checkin.Some? ==> r.checkin == v
    ensures r.checkout.Some? ==> r.checkout == d.checkout
    ensures
      d.checkout.Some? && today <= d.checkout.value && (r.checkin.None? || r.checkin.value < d.checkout.value) ==>
        r.checkout == d.checkout
  {
    var checkin := if v.Some? && v.value < today then None else v;
    var checkout :=
      if d.checkout.Some? && (d.checkout.value < today || NotAfter(d.checkout, checkin)) then None
      else d.checkout;
    Dates(checkin, checkout)
  }

  /**
   * The dates after the user puts `v` into the check-out input and its change
   * handler runs. A past check-out is dropped; with no check-in, or a check-out
   * on or before the check-in, both inputs are emptied.
   */
  function CheckoutChanged(today: Day, d: Dates, v: Option<Day>): (r: Dates)
    ensures Ordered(today, d) ==> Ordered(today, r)
    ensures r.checkin.Some? ==> r.checkin == d.checkin
    ensures r.checkout.Some? ==> r.checkout == v
    ensures d.checkin.None? ==> r == NoDates
    ensures v.Some? && today <= v.value && NotAfter(v, d.checkin) ==> r == NoDates
    ensures d.checkin.Some? && (v.None? || v.value < today) ==> r == Dates(d.checkin, None)
    ensures d.checkin.Some? && v.Some? && today <= v.value && d.checkin.value < v.value ==>
      r == Dates(d.checkin, v)
  {
    var checkout := if v.Some? && v.value < today then None else v;
    if d.checkin.None? || NotAfter(checkout, d.checkin) then NoDates
    else Dates(d.checkin, checkout)
  }

  /** The events the page reacts to. */
  datatype Event =
    | CheckinChange(checkinValue: Option<Day>)
    | CheckoutChange(checkoutValue: Option<Day>)
    | ClearClick
    | ReserveClick
    | PopupCloseClick

  /** The dates after one event; the clicks empty both inputs except a reserve click with nights. */
  function AfterEvent(today: Day, d: Dates, e: Event): (r: Dates)
    ensures Ordered(today, d) ==> Ordered(today, r)
    ensures e.ClearClick? || e.PopupCloseClick? ==> r == NoDates
    ensures e.ReserveClick? ==> r == if Nights(d) <= 0 then NoDates else d
  {
    match e
    case CheckinChange(v) => CheckinChanged(today, d, v)
    case CheckoutChange(v) => CheckoutChanged(today, d, v)
    case ClearClick => NoDates
    case ReserveClick => if Nights(d) <= 0 then NoDates else d
    case PopupCloseClick => NoDates
  }

  /** The dates after a sequence of events, in order. */
  function Run(today: Day, d: Dates, events: seq<Event>): Dates
    decreases |events|
  {
    if events == [] then d else Run(today, AfterEvent(today, d, events[0]), events[1..])
  }

  /** No sequence of events breaks the ordering. */
  lemma {:induction false} RunKeepsOrdered(today: Day, d: Dates, events: seq<Event>)
    requires Ordered(today, d)
    ensures Ordered(today, Run(today, d, events))
    decreases |events|
  {
    if events != [] {
      RunKeepsOrdered(today, AfterEvent(today, d, events[0]), events[1..]);
    }
  }

  /**
   * From a freshly loaded page, whatever the user does: whenever both dates are
   * set the check-in is before the check-out, there is at least one night, and
   * the summary enables the reserve button; otherwise it is disabled.
   */
  lemma ReachableDatesAreBookable(today: Day, events: seq<Event>)
    ensures var d := Run(today, NoDates, events);
      (d.checkin.Some? && d.checkout.Some? ==> d.checkin.value < d.checkout.value) &&
      (Nights(d) >= 1 <==> d.checkin.Some? && d.checkout.Some?) &&
      (!SummaryFor(Nights(d)).reserveDisabled <==> d.checkin.Some? && d.checkout.Some?)
  {
    RunKeepsOrdered(today, NoDates, events);
    ReserveEnabledExactlyWhenBothSet(today, Run(today, NoDates, events));
  }

  /** Choosing the same day for check-in and check-out ends with nothing chosen and no nights. */
  lemma SameDayStayIsCleared(today: Day, day: Day)
    requires today <= day
    ensures Run(today, NoDates, [CheckinChange(Some(day)), CheckoutChange(Some(day))]) == NoDates
  {
    var events := [CheckinChange(Some(day)), CheckoutChange(Some(day))];
    var afterCheckin := Dates(Some(day), None);
    assert AfterEvent(today, NoDates, events[0]) == afterCheckin;
    assert events[1..] == [CheckoutChange(Some(day))];
    assert AfterEvent(today, afterCheckin, CheckoutChange(Some(day))) == NoDates;
    assert Run(today, afterCheckin, events[1..]) == Run(today, NoDates, []);
  }

  /** Clearing twice is the same as clearing once. */
  lemma ClearIsIdempotent(today: Day, d: Dates)
    ensures AfterEvent(today, AfterEvent(today, d, ClearClick), ClearClick) == AfterEvent(today, d, ClearClick)
  {
  }

  /** The page: the inputs with their `min` attributes, the summary and the popup. */
  class BookingWidget {
    const today: Day
    var checkin: Option<Day>
    var checkout: Option<Day>
    var checkinMin: Day
    var checkoutMin: Day
    var summary: Summary
    var popupHidden: bool

    function Current(): Dates
      reads this
    {
      Dates(checkin, checkout)
    }

    /**
     * The dates are ordered; the check-in input never allows a day before today,
     * and the check-out input never a day before the chosen check-in.
     */
    ghost predicate Valid()
      reads this
    {
      Ordered(today, Current()) &&
      checkinMin == today && today <= checkoutMin &&
      (checkin.Some? ==> checkoutMin == checkin.value)
    }

    /** The summary shows what the current dates call for. */
    ghost predicate SummaryCurrent()
      reads this
    {
      summary == SummaryFor(Nights(Current()))
    }

    /**
     * The page as loaded: empty inputs whose `min` is today. The summary and the
     * popup start as the markup has them.
     */
    constructor (today: Day, markupSummary: Summary, markupPopupHidden: bool)
      ensures Valid()
      ensures this.today == today && Current() == NoDates
      ensures checkinMin == today && checkoutMin == today
      ensures summary == markupSummary && popupHidden == markupPopupHidden
    {
      this.today := today;
      checkin, checkout := None, None;
      checkinMin, checkoutMin := today, today;
      summary := markupSummary;
      popupHidden := markupPopupHidden;
    }

    /** `updateSummary`. */
    method UpdateSummary()
      modifies this`summary
      ensures SummaryCurrent()
    {
      var nights := Nights(Current());
      if nights <= 0 {
        summary := Summary(0, Plural, 0, true);
        return;
      }
      var total := nights * PricePerNight;
      summary := Summary(nights, if nights == 1 then Singular else Plural, total, false);
    }

    /** The user sets the check-in input to `value`; its change handler runs. */
    method OnCheckinChange(value: Option<Day>)
      requires Valid()
      modifies this`checkin, this`checkout, this`checkinMin, this`checkoutMin, this`summary
      ensures Valid() && SummaryCurrent()
      ensures Current() == CheckinChanged(today, old(Current()), value)
      ensures checkin.Some? ==> checkoutMin == checkin.value && checkinMin == old(checkinMin)
      ensures checkin.None? ==> checkinMin == today && checkoutMin == old(checkoutMin)
    {
      checkin := value;
      if checkin.Some? && checkin.value < today {
        checkin := None;
      }
      if checkout.Some? {
        if checkout.value < today || NotAfter(checkout, checkin) {
          checkout := None;
        }
      }
      if checkin.Some? {
        checkoutMin := checkin.value;
      } else {
        checkinMin := today;
      }
      UpdateSummary();
    }

    /** The user sets the check-out input to `value`; its change handler runs. */
    method OnCheckoutChange(value: Option<Day>)
      requires Valid()
      modifies this`checkin, this`checkout, this`summary
      ensures Valid() && SummaryCurrent()
      ensures Current() == CheckoutChanged(today, old(Current()), value)
    {
      checkout := value;
      if checkout.Some? && checkout.value < today {
        checkout := None;
      }
      if checkin.None? || NotAfter(checkout, checkin) {
        checkin := None;
        checkout := None;
      }
      UpdateSummary();
    }

    /** The clear button. */
    method OnClearClick()
      requires Valid()
      modifies this`checkin, this`checkout, this`summary
      ensures Valid() && SummaryCurrent()
      ensures Current() == NoDates
    {
      checkin := None;
      checkout := None;
      UpdateSummary();
    }

    /** The reserve button: without nights it empties the inputs, otherwise it opens the popup. */
    method OnReserveClick()
      requires Valid()
      modifies this`checkin, this`checkout, this`summary, this`popupHidden
      ensures Valid()
      ensures Current() == AfterEvent(today, old(Current()), ReserveClick)
      ensures Nights(old(Current())) <= 0 ==>
        Current() == NoDates && SummaryCurrent() && popupHidden == old(popupHidden)
      ensures Nights(old(Current())) > 0 ==>
        Current() == old(Current()) && summary == old(summary) && !popupHidden
      ensures old(SummaryCurrent()) ==> SummaryCurrent()
    {
      var nights := Nights(Current());
      if nights <= 0 {
        checkin := None;
        checkout := None;
        UpdateSummary();
        return;
      }
      popupHidden := false;
    }

    /** The popup's close button: hides the popup and empties the inputs. */
    method OnPopupCloseClick()
      requires Valid()
      modifies this`checkin, this`checkout, this`summary, this`popupHidden
      ensures Valid() && SummaryCurrent()
      ensures popupHidden && Current() == NoDates
    {
      popupHidden := true;
      checkin := None;
      checkout := None;
      UpdateSummary();
    }
  }
}
