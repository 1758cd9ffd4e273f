/** The home page's reservation form: the main form (party size and date-time),
    the date-time check, the modal that asks for name and e-mail, the
    submission to the reservation route and the closing of the modal. Time is
    abstract: a parsed date-time is a timestamp with its local clock reading
    and its UTC calendar date. */
module ReservationForm {
  import opened Text
  import ReservationRoutes

  type Hour = h: nat | h < 24
  type Sixty = m: nat | m < 60

  /** A valid Date: its timestamp, its local hour, minute and second, and the
      YYYY-MM-DD date of its UTC (toISOString) form. */
  datatype Moment = Moment(stamp: int, hour: Hour, minute: Sixty, second: Sixty, utcDate: string)

  const PastMessage := "La date de réservation ne peut pas être dans le passé"
  const HoursMessage := "Les réservations sont possibles entre 11h00 et 22h00"
  const RequiredMessage := "Veuillez remplir tous les champs requis"
  const SubmitFailedMessage := "Une erreur s'est produite lors de la réservation. Veuillez réessayer."

  const Opening := 11
  const Closing := 22

  /** validateDateTime on `new Date(text)`, None standing for an Invalid Date.
      The past is checked first, then the opening hours [11, 22). An Invalid
      Date passes both checks, since every comparison with NaN is false. */
  function ValidateDateTime(selected: Option<Moment>, now: int): (error: Option<string>)
    ensures error == Some(PastMessage) <==> selected.Some? && selected.value.stamp < now
    ensures error == Some(HoursMessage) <==>
              selected.Some? && selected.value.stamp >= now
              && !(Opening <= selected.value.hour < Closing)
    ensures error.None? <==>
              selected.None? || (selected.value.stamp >= now && Opening <= selected.value.hour < Closing)
  {
    if selected.None? then None
    else if selected.value.stamp < now then Some(PastMessage)
    else if selected.value.hour < Opening || selected.value.hour >= Closing then Some(HoursMessage)
    else None
  }

  /** Only the hour is looked at: minutes and seconds never change the
      answer, so 21:59 is accepted while 22:00 and 10:59 are refused. */
  lemma MinutesIgnored(m: Moment, now: int, minute: Sixty, second: Sixty)
    ensures ValidateDateTime(Some(m.(minute := minute, second := second)), now) == ValidateDateTime(Some(m), now)
    ensures m.stamp >= now ==>
              && ValidateDateTime(Some(m.(hour := 21, minute := 59)), now).None?
              && ValidateDateTime(Some(m.(hour := 22, minute := 0)), now) == Some(HoursMessage)
              && ValidateDateTime(Some(m.(hour := 10, minute := 59)), now) == Some(HoursMessage)
  {
  }

  /** JavaScript's parseInt(s, 10): leading white space skipped, an optional
      sign, then the longest run of digits; None (NaN) when there is none. */
  function ParseIntPrefix(s: string): (n: Option<int>)
    ensures n.Some? ==> exists i | 0 <= i < |s| :: IsDigit(s[i])
  {
    var t := TrimStart(s);
    var negative := t != [] && t[0] == '-';
    var body := if t != [] && (t[0] == '-' || t[0] == '+') then t[1..] else t;
    var k := DigitRun(body);
    if k == 0 then None
    else
      var magnitude := DigitsValue(body[..k]);
      assert body[0] in s by {
        assert body[0] in t;
      }
      Some(if negative then -(magnitude as int) else magnitude)
  }

  lemma TrimStartOfDigits(d: string)
    requires d != [] && AllDigits(d)
    ensures TrimStart(d) == d
  {
    assert IsDigit(d[0]);
  }

  lemma DigitRunOfDigits(d: string)
    requires AllDigits(d)
    ensures DigitRun(d) == |d|
  {
    DigitRunOf(d, "");
    assert d + "" == d;
  }

  /** A digit string reads as its decimal value. */
  lemma ParseIntOfDigits(d: string)
    requires d != [] && AllDigits(d)
    ensures ParseIntPrefix(d) == Some(DigitsValue(d) as int)
  {
    TrimStartOfDigits(d);
    DigitRunOfDigits(d);
    assert d[..|d|] == d;
  }

  /** The numeral of a number reads back as that number. */
  lemma ParseIntOfNumeral(n: nat)
    ensures ParseIntPrefix(NatToString(n)) == Some(n)
  {
    ParseIntOfDigits(NatToString(n));
  }

  // ---------------------------------------------------------------- time text

  /** toTimeString().split(' ')[0]: the local time as HH:MM:SS. */
  function TimeTextAsWritten(m: Moment): string
  {
    Pad2(m.hour) + ":" + Pad2(m.minute) + ":" + Pad2(m.second)
  }

  /** The time the reservation route accepts: the local time as HH:MM. */
  function TimeText(m: Moment): string
  {
    Pad2(m.hour) + ":" + Pad2(m.minute)
  }

  /** The form's own time text is refused by the route's time pattern, for
      every date-time: it is eight characters long. */
  lemma TimeTextAsWrittenRefused(m: Moment)
    ensures |TimeTextAsWritten(m)| == 8
    ensures !ReservationRoutes.TimePattern(TimeTextAsWritten(m))
  {
  }

  /** The HH:MM text is accepted and says the selected hour and minute. */
  lemma TimeTextAccepted(m: Moment)
    ensures ReservationRoutes.TimePattern(TimeText(m))
    ensures ReservationRoutes.ClockOf(TimeText(m)) == (m.hour as nat, m.minute as nat)
  {
    ReservationRoutes.TimePatternComplete(m.hour, m.minute, false);
    assert TimeText(m) == ReservationRoutes.ClockText(m.hour, m.minute, false);
    var hm := ReservationRoutes.ClockOf(TimeText(m));
    ClockTextInjective(hm.0, hm.1, m.hour, m.minute);
  }

  lemma ClockTextInjective(h1: nat, m1: nat, h2: nat, m2: nat)
    requires h1 < 24 && m1 < 60 && h2 < 24 && m2 < 60
    requires ReservationRoutes.ClockText(h1, m1, false) == ReservationRoutes.ClockText(h2, m2, false)
    ensures h1 == h2 && m1 == m2
  {
    var t1 := ReservationRoutes.ClockText(h1, m1, false);
    var t2 := ReservationRoutes.ClockText(h2, m2, false);
    assert t1[..2] == Pad2(h1) && t2[..2] == Pad2(h2);
    assert t1[3..] == Pad2(m1) && t2[3..] == Pad2(m2);
  }

  // ---------------------------------------------------------------- component

  /** The body posted to the reservation route; guests is None where
      parseInt gave NaN (sent as null). */
  datatype Payload = Payload(name: string, email: string, guests: Option<int>,
                             date: string, time: string, status: string)

  /** The body the route's validators see for a payload: each field as sent,
      guests as its numeral (null reads as absent) and no phone. */
  function Received(p: Payload): (body: ReservationRoutes.ReservationBody)
    ensures TextOf(body.time) == p.time && body.phone.None?
  {
    ReservationRoutes.ReservationBody(
      Some(p.name), Some(p.email), None, Some(p.date), Some(p.time),
      if p.guests.Some? then Some(IntToString(p.guests.value)) else None, Some(p.status))
  }

  /** Every payload the form builds (see Home.BeginSubmit) is answered with
      a "time" error by the route, whatever the other fields hold. */
  lemma FormPayloadRefused(name: string, email: string, guests: Option<int>, m: Moment,
                           lib: ReservationRoutes.Validators)
    ensures var errors := ReservationRoutes.FieldErrors(
              Received(Payload(name, email, guests, m.utcDate, TimeTextAsWritten(m), "pending")), lib);
            errors != [] && exists e :: e in errors && e.path == "time"
  {
    TimeTextAsWrittenRefused(m);
  }

  /** With the HH:MM text in its place, the route raises no "time" error. */
  lemma CorrectedPayloadTimeAccepted(name: string, email: string, guests: Option<int>, m: Moment,
                                     lib: ReservationRoutes.Validators)
    ensures var errors := ReservationRoutes.FieldErrors(
              Received(Payload(name, email, guests, m.utcDate, TimeText(m), "pending")), lib);
            forall e :: e in errors ==> e.path != "time"
  {
    TimeTextAccepted(m);
  }

  /** How the POST settles: an HTTP answer with its status and the `message`
      of its body, if any, or no answer at all. */
  datatype Outcome = Responded(status: int, message: Option<string>) | NoResponse

  /** The message shown for an outcome, None for the 201 that counts as
      success. Another 2xx is turned into a thrown Error, which has no
      response; axios rejects any other status with the response attached. */
  function SubmitError(outcome: Outcome): (error: Option<string>)
    ensures error.None? <==> outcome.Responded? && outcome.status == 201
    ensures error.Some? && error.value != SubmitFailedMessage ==>
              outcome.Responded? && !(200 <= outcome.status < 300) && outcome.message == error
    ensures error.Some? ==> error.value != ""
  {
    match outcome
    case NoResponse => Some(SubmitFailedMessage)
    case Responded(status, message) =>
      if status == 201 then None
      else if 200 <= status < 300 then Some(SubmitFailedMessage)
      else if message.Some? && message.value != "" then message
      else Some(SubmitFailedMessage)
  }

  const DefaultPartySize := "2"

  class Home {
    var showModal: bool
    var submitting: bool
    var success: bool
    var errorMessage: string
    var partySize: string
    var reservationTime: string
    var customerName: string
    var customerEmail: string

    /** The main and modal forms at their defaults. */
    ghost predicate Cleared()
      reads this
    {
      partySize == DefaultPartySize && reservationTime == "" && customerName == "" && customerEmail == ""
    }

    constructor ()
      ensures Cleared()
      ensures !showModal && !submitting && !success && errorMessage == ""
    {
      showModal := false;
      submitting := false;
      success := false;
      errorMessage := "";
      partySize := DefaultPartySize;
      reservationTime := "";
      customerName := "";
      customerEmail := "";
    }

    /** handleMainFormChange: one main-form field takes the typed value and
        any error message is cleared. */
    method MainFormChanged(isPartySize: bool, value: string)
      modifies this`partySize, this`reservationTime, this`errorMessage
      ensures errorMessage == ""
      ensures isPartySize ==> partySize == value && reservationTime == old(reservationTime)
      ensures !isPartySize ==> reservationTime == value && partySize == old(partySize)
    {
      if isPartySize {
        partySize := value;
      } else {
        reservationTime := value;
      }
      errorMessage := "";
    }

    /** handleModalInputChange: one modal field takes the typed value. */
    method ModalInputChanged(isName: bool, value: string)
      modifies this`customerName, this`customerEmail
      ensures isName ==> customerName == value && customerEmail == old(customerEmail)
      ensures !isName ==> customerEmail == value && customerName == old(customerName)
    {
      if isName {
        customerName := value;
      } else {
        customerEmail := value;
      }
    }

    /** handleReservationClick: both fields must be filled, then the
        date-time must pass ValidateDateTime; only then the error is cleared
        and the modal opens. `parse` is `new Date` and `now` the clock. */
    method ReservationClicked(parse: string -> Option<Moment>, now: int)
      modifies this`errorMessage, this`showModal
      ensures partySize == "" || reservationTime == "" ==>
                errorMessage == RequiredMessage && showModal == old(showModal)
      ensures partySize != "" && reservationTime != "" && ValidateDateTime(parse(reservationTime), now).Some? ==>
                errorMessage == ValidateDateTime(parse(reservationTime), now).value && showModal == old(showModal)
      ensures partySize != "" && reservationTime != "" && ValidateDateTime(parse(reservationTime), now).None? ==>
                errorMessage == "" && showModal
    {
      if partySize == "" || reservationTime == "" {
        errorMessage := RequiredMessage;
        return;
      }
      var dateTimeError := ValidateDateTime(parse(reservationTime), now);
      if dateTimeError.Some? {
        errorMessage := dateTimeError.value;
        return;
      }
      errorMessage := "";
      showModal := true;
    }

    /** The first half of handleSubmitReservation, up to the POST: it
        returns the body to send, or None when formatting the date throws (an
        Invalid Date has no ISO form), which ends the submission at once. */
    method BeginSubmit(parse: string -> Option<Moment>) returns (payload: Option<Payload>)
      modifies this`submitting, this`errorMessage
      ensures parse(reservationTime).None? ==>
                payload.None? && !submitting && errorMessage == SubmitFailedMessage
      ensures parse(reservationTime).Some? ==>
                var m := parse(reservationTime).value;
                && payload == Some(Payload(customerName, customerEmail, ParseIntPrefix(partySize),
                                           m.utcDate, TimeTextAsWritten(m), "pending"))
                && submitting && errorMessage == ""
    {
      submitting := true;
      errorMessage := "";
      var selected := parse(reservationTime);
      if selected.None? {
        submitting := false;
        errorMessage := SubmitFailedMessage;
        return None;
      }
      var m := selected.value;
      payload := Some(Payload(customerName, customerEmail, ParseIntPrefix(partySize),
                              m.utcDate, TimeTextAsWritten(m), "pending"));
    }

    /** The second half: the POST has settled. */
    method FinishSubmit(outcome: Outcome)
      modifies this`submitting, this`success, this`errorMessage
      ensures !submitting
      ensures SubmitError(outcome).None? ==> success && errorMessage == old(errorMessage)
      ensures SubmitError(outcome).Some? ==> success == old(success) && errorMessage == SubmitError(outcome).value
    {
      var error := SubmitError(outcome);
      submitting := false;
      if error.None? {
        success := true;
      } else {
        errorMessage := error.value;
      }
    }

    /** handleCloseModal: the modal always closes; after a success both forms
        go back to their defaults and the success flag is cleared, otherwise
        what was typed stays. */
    method CloseModal()
      modifies this
      ensures !showModal
      ensures old(success) ==> Cleared() && !success
      ensures !old(success) ==>
                && partySize == old(partySize) && reservationTime == old(reservationTime)
                && customerName == old(customerName) && customerEmail == old(customerEmail)
                && !success
      ensures submitting == old(submitting) && errorMessage == old(errorMessage)
    {
      showModal := false;
      if success {
        success := false;
        partySize := DefaultPartySize;
        reservationTime := "";
        customerName := "";
        customerEmail := "";
      }
    }
  }
}
