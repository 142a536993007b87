/** The client's paid reservation and the handler that edits it: the
    client picks a destination, a date and a time; the handler checks all
    three are present, reads the date (a datetime, or text whose first
    word is "YYYY-MM-DD") and the time (a time value, or text "H:M" or
    "H:M:S" of which only the first two fields count), builds the new
    departure and only then writes the two fields it changes.

    `datetime.strptime(..., "%Y-%m-%d")` and `int(...)` are library
    calls; they are passed in as functions (`None` stands for the
    exception they raise). */
module Reservation {
  import opened Common

  /** A `datetime` value, field by field. */
  datatype DateTime = DateTime(year: int, month: int, day: int, hour: int, minute: int, second: int, microsecond: int)

  /** The date picker's value: nothing, a `datetime`, or text. */
  datatype DateInput = NoDate | DateValue(dt: DateTime) | DateText(text: string)

  /** The time picker's value: nothing, an `ft.Time`, a time object of
      another class (the picker's seed is a `datetime.time`), or text. */
  datatype TimeInput = NoTime | TimeValue(hour: int, minute: int) | OtherTime(hour: int, minute: int) | TimeText(text: string)

  datatype UpdateOutcome = MissingSelection | UpdateFailed | Updated

  /** Python truthiness of the three selections: `None` and "" are false. */
  predicate Present(destination: string, date: DateInput, time: TimeInput)
  {
    && destination != ""
    && !date.NoDate? && date != DateText("")
    && !time.NoTime? && time != TimeText("")
  }

  /** `dt.replace(hour=h, minute=m)`: same calendar date, seconds and
      microseconds; fails (ValueError) unless h is 0..23 and m is 0..59. */
  function ReplaceTime(dt: DateTime, h: int, m: int): (r: Option<DateTime>)
    ensures r.Some? <==> 0 <= h < 24 && 0 <= m < 60
    ensures r.Some? ==> r.value.hour == h && r.value.minute == m
    ensures r.Some? ==> r.value.(hour := dt.hour, minute := dt.minute) == dt
  {
    if 0 <= h < 24 && 0 <= m < 60 then Some(dt.(hour := h, minute := m)) else None
  }

  /** `list(map(int, xs))`: every piece must parse. */
  function ParseAll(xs: seq<string>, parseInt: string -> Option<int>): (r: Option<seq<int>>)
    ensures r.Some? <==> forall i :: 0 <= i < |xs| ==> parseInt(xs[i]).Some?
    ensures r.Some? ==> |r.value| == |xs| && forall i :: 0 <= i < |xs| ==> r.value[i] == parseInt(xs[i]).value
    decreases |xs|
  {
    if |xs| == 0 then Some([])
    else
      match parseInt(xs[0])
      case None => None
      case Some(v) =>
        match ParseAll(xs[1..], parseInt)
        case None => None
        case Some(vs) => Some([v] + vs)
  }

  /** `list(map(int, text.split(':')[:2]))`. */
  function TimeParts(text: string, parseInt: string -> Option<int>): Option<seq<int>>
  {
    var fields := Split(text, ':');
    ParseAll(if |fields| >= 2 then fields[..2] else fields, parseInt)
  }

  /** Hour and minute of the selected time. Text with a single field gives
      a one-element list, and taking its second element fails; a time
      object that is not an `ft.Time` is sent to `.split`, which it lacks. */
  function HourMinute(time: TimeInput, parseInt: string -> Option<int>): Option<(int, int)>
  {
    match time
    case NoTime => None
    case TimeValue(h, m) => Some((h, m))
    case OtherTime(_, _) => None
    case TimeText(text) =>
      match TimeParts(text, parseInt)
      case None => None
      case Some(parts) => if |parts| >= 2 then Some((parts[0], parts[1])) else None
  }

  /** The selected date: a `datetime` as it is, or text cut at its first
      space and read as "%Y-%m-%d". */
  function DepartureDate(date: DateInput, parseDate: string -> Option<DateTime>): Option<DateTime>
  {
    match date
    case NoDate => None
    case DateValue(dt) => Some(dt)
    case DateText(text) => parseDate(Split(text, ' ')[0])
  }

  /** The departure the handler would store, or `None` when any step of
      the `try` block raises. */
  function NewDeparture(date: DateInput, time: TimeInput, parseInt: string -> Option<int>,
                        parseDate: string -> Option<DateTime>): Option<DateTime>
  {
    match DepartureDate(date, parseDate)
    case None => None
    case Some(day) =>
      match HourMinute(time, parseInt)
      case None => None
      case Some(hm) => ReplaceTime(day, hm.0, hm.1)
  }

  // ---------------------------------------------------------------------
  // Properties of the parsing steps

  /** "H:M:S" and "H:M" both split into H and M first; the short one into
      exactly those two fields. */
  lemma TwoFields(h: string, m: string, sec: string)
    requires ':' !in h && ':' !in m
    ensures |Split(h + ":" + m + ":" + sec, ':')| >= 2
    ensures Split(h + ":" + m + ":" + sec, ':')[..2] == [h, m]
    ensures Split(h + ":" + m, ':') == [h, m]
  {
    assert h + ":" + m + ":" + sec == h + [':'] + (m + [':'] + sec);
    SplitAfterPiece(h, ':', m + [':'] + sec);
    SplitAfterPiece(m, ':', sec);
    var tail := Split(sec, ':');
    assert ([h] + ([m] + tail))[..2] == [h, m];
    assert h + ":" + m == h + [':'] + m;
    SplitAfterPiece(h, ':', m);
    SplitWhole(m, ':');
  }

  /** Seconds are ignored: "H:M:S" gives the same hour and minute as "H:M". */
  lemma SecondsIgnored(h: string, m: string, sec: string, parseInt: string -> Option<int>)
    requires ':' !in h && ':' !in m
    ensures TimeParts(h + ":" + m + ":" + sec, parseInt) == TimeParts(h + ":" + m, parseInt)
  {
    TwoFields(h, m, sec);
    assert [h, m][..2] == [h, m];
  }

  /** The hour and minute of "H:M" or "H:M:S" text are the two parsed numbers. */
  lemma TextTime(h: string, m: string, sec: string, parseInt: string -> Option<int>)
    requires ':' !in h && ':' !in m
    requires parseInt(h).Some? && parseInt(m).Some?
    ensures HourMinute(TimeText(h + ":" + m + ":" + sec), parseInt) == Some((parseInt(h).value, parseInt(m).value))
    ensures HourMinute(TimeText(h + ":" + m), parseInt) == Some((parseInt(h).value, parseInt(m).value))
  {
    SecondsIgnored(h, m, sec, parseInt);
    SplitAfterPiece(h, ':', m);
    SplitWhole(m, ':');
    assert h + ":" + m == h + [':'] + m;
    assert ([h] + [m])[..2] == [h, m];
  }

  /** Text with no colon at all never yields an hour and minute, whatever
      the parser makes of it: it is one field, and the second is missing. */
  lemma NoColonNone(text: string, parseInt: string -> Option<int>)
    requires ':' !in text
    ensures HourMinute(TimeText(text), parseInt).None?
  {
    SplitWhole(text, ':');
  }

  /** Only the text before the first space is read as the date. */
  lemma DateFirstWord(w: string, rest: string, parseDate: string -> Option<DateTime>)
    requires ' ' !in w
    ensures DepartureDate(DateText(w + " " + rest), parseDate) == parseDate(w)
    ensures DepartureDate(DateText(w), parseDate) == parseDate(w)
  {
    SplitAfterPiece(w, ' ', rest);
    assert w + " " + rest == w + [' '] + rest;
    SplitWhole(w, ' ');
  }

  /** From text inputs "D rest" and "H:M:S": the stored departure is the
      parsed day D with its hour and minute replaced by H and M. */
  lemma DepartureFromText(w: string, rest: string, h: string, m: string, sec: string,
                          parseInt: string -> Option<int>, parseDate: string -> Option<DateTime>)
    requires ' ' !in w && ':' !in h && ':' !in m
    requires parseDate(w).Some? && parseInt(h).Some? && parseInt(m).Some?
    requires 0 <= parseInt(h).value < 24 && 0 <= parseInt(m).value < 60
    ensures NewDeparture(DateText(w + " " + rest), TimeText(h + ":" + m + ":" + sec), parseInt, parseDate)
      == Some(parseDate(w).value.(hour := parseInt(h).value, minute := parseInt(m).value))
  {
    DateFirstWord(w, rest, parseDate);
    TextTime(h, m, sec, parseInt);
  }

  /** An out-of-range hour or minute makes the whole update fail. */
  lemma OutOfRangeFails(date: DateInput, time: TimeInput, parseInt: string -> Option<int>,
                        parseDate: string -> Option<DateTime>)
    requires HourMinute(time, parseInt).Some?
    requires var hm := HourMinute(time, parseInt).value; !(0 <= hm.0 < 24 && 0 <= hm.1 < 60)
    ensures NewDeparture(date, time, parseInt, parseDate).None?
  {
  }

  /** A time object that is not an `ft.Time` makes the update fail, whatever
      its hour and minute, while the same hour and minute as an `ft.Time`
      go through unchanged. */
  lemma ForeignTimeFails(date: DateInput, h: int, m: int, parseInt: string -> Option<int>,
                         parseDate: string -> Option<DateTime>)
    ensures NewDeparture(date, OtherTime(h, m), parseInt, parseDate).None?
    ensures DepartureDate(date, parseDate).Some? && 0 <= h < 24 && 0 <= m < 60 ==>
      NewDeparture(date, TimeValue(h, m), parseInt, parseDate)
        == Some(DepartureDate(date, parseDate).value.(hour := h, minute := m))
  {
  }

  // ---------------------------------------------------------------------
  // The reservation record

  class ClientReservation {
    var packageName: string
    var status: string
    var originalDestination: string
    var currentDestination: string
    var basePrice: real
    var departure: DateTime
    var availableDestinations: seq<string>

    /** The seeded reservation; its departure is 10:00 on the day a week
        after the clock's reading, which the caller supplies. */
    constructor (weekFromNow: DateTime)
      ensures packageName == "Aventura Total 5 Noches" && status == "Pago Confirmado"
      ensures originalDestination == "Playas del Sol" && currentDestination == "Playas del Sol"
      ensures basePrice == 899.50
      ensures departure == weekFromNow.(hour := 10, minute := 0)
      ensures availableDestinations == ["Playas del Sol", "Ciudad Antigua", "Montaña Escondida"]
    {
      packageName := "Aventura Total 5 Noches";
      status := "Pago Confirmado";
      originalDestination := "Playas del Sol";
      currentDestination := "Playas del Sol";
      basePrice := 899.50;
      departure := weekFromNow.(hour := 10, minute := 0);
      availableDestinations := ["Playas del Sol", "Ciudad Antigua", "Montaña Escondida"];
    }

    /** `update_reservation`: validate the three selections, build the new
        departure, and only when every step has succeeded write the new
        destination and departure; every other field is left alone. */
    method UpdateReservation(newDestination: string, selectedDate: DateInput, selectedTime: TimeInput,
                             parseInt: string -> Option<int>, parseDate: string -> Option<DateTime>)
      returns (outcome: UpdateOutcome)
      modifies this`currentDestination, this`departure
      ensures outcome == MissingSelection <==> !Present(newDestination, selectedDate, selectedTime)
      ensures outcome == Updated <==>
        Present(newDestination, selectedDate, selectedTime) &&
        NewDeparture(selectedDate, selectedTime, parseInt, parseDate).Some?
      ensures outcome == Updated ==>
        currentDestination == newDestination &&
        departure == NewDeparture(selectedDate, selectedTime, parseInt, parseDate).value
      ensures outcome != Updated ==>
        currentDestination == old(currentDestination) && departure == old(departure)
    {
      if !Present(newDestination, selectedDate, selectedTime) {
        return MissingSelection;
      }
      var departureDate: DateTime;
      match selectedDate {
        case DateValue(dt) =>
          departureDate := dt;
        case DateText(text) =>
          var parsed := parseDate(Split(text, ' ')[0]);
          if parsed.None? {
            return UpdateFailed;
          }
          departureDate := parsed.value;
      }
      var hour: int, minute: int;
      match selectedTime {
        case TimeValue(h, m) =>
          hour, minute := h, m;
        case OtherTime(_, _) =>
          return UpdateFailed;
        case TimeText(text) =>
          var timeParts := TimeParts(text, parseInt);
          if timeParts.None? || |timeParts.value| < 2 {
            return UpdateFailed;
          }
          hour, minute := timeParts.value[0], timeParts.value[1];
      }
      var finalDeparture := ReplaceTime(departureDate, hour, minute);
      if finalDeparture.None? {
        return UpdateFailed;
      }
      currentDestination := newDestination;
      departure := finalDeparture.value;
      outcome := Updated;
    }
  }
}
