/** The reservation route: the express-validator chain on a submitted
    reservation, the POST handler that validates before it inserts, and the
    GET handler that lists every stored row. */
module ReservationRoutes {
  import opened Text

  // ---------------------------------------------------------------- time

  predicate HourDigits(a: char, b: char)
  {
    ('0' <= a <= '1' && IsDigit(b)) || (a == '2' && '0' <= b <= '3')
  }

  predicate MinuteDigits(a: char, b: char)
  {
    '0' <= a <= '5' && IsDigit(b)
  }

  /** The pattern ^([0-1]?[0-9]|2[0-3]):[0-5][0-9]$ read character by
      character: a one-digit hour, or a two-digit hour 00-23, then a colon and
      two minute digits 00-59. */
  predicate TimePattern(s: string)
  {
    || (|s| == 4 && IsDigit(s[0]) && s[1] == ':' && MinuteDigits(s[2], s[3]))
    || (|s| == 5 && HourDigits(s[0], s[1]) && s[2] == ':' && MinuteDigits(s[3], s[4]))
  }

  /** The clock text of hour h and minute m: the hour in two digits, or in one
      when it is below 10 and `short` is asked for; the minute always in two. */
  function ClockText(h: nat, m: nat, short: bool): string
    requires h < 24 && m < 60
  {
    (if short && h < 10 then [DigitChar(h)] else Pad2(h)) + ":" + Pad2(m)
  }

  /** What an accepted time says: hour 0-23 and minute 0-59, and the text is
      exactly their clock text. */
  function ClockOf(s: string): (hm: (nat, nat))
    requires TimePattern(s)
    ensures hm.0 < 24 && hm.1 < 60
    ensures s == ClockText(hm.0, hm.1, |s| == 4)
  {
    if |s| == 4 then
      ShortClockText(s);
      (DigitValue(s[0]), DigitValue(s[2]) * 10 + DigitValue(s[3]))
    else
      LongClockText(s);
      (DigitValue(s[0]) * 10 + DigitValue(s[1]), DigitValue(s[3]) * 10 + DigitValue(s[4]))
  }

  lemma ShortClockText(s: string)
    requires |s| == 4 && IsDigit(s[0]) && s[1] == ':' && MinuteDigits(s[2], s[3])
    ensures DigitValue(s[2]) * 10 + DigitValue(s[3]) < 60
    ensures s == ClockText(DigitValue(s[0]), DigitValue(s[2]) * 10 + DigitValue(s[3]), true)
  {
    Pad2Of(s[2], s[3]);
    assert s == [s[0]] + ":" + [s[2], s[3]];
  }

  lemma LongClockText(s: string)
    requires |s| == 5 && HourDigits(s[0], s[1]) && s[2] == ':' && MinuteDigits(s[3], s[4])
    ensures DigitValue(s[0]) * 10 + DigitValue(s[1]) < 24 && DigitValue(s[3]) * 10 + DigitValue(s[4]) < 60
    ensures s == ClockText(DigitValue(s[0]) * 10 + DigitValue(s[1]), DigitValue(s[3]) * 10 + DigitValue(s[4]), false)
  {
    Pad2Of(s[0], s[1]);
    Pad2Of(s[3], s[4]);
    assert s == [s[0], s[1]] + ":" + [s[3], s[4]];
  }

  /** Every hour 0-23 and minute 0-59 is accepted, with the hour in two
      digits and, below 10, in one. */
  lemma TimePatternComplete(h: nat, m: nat, short: bool)
    requires h < 24 && m < 60
    ensures TimePattern(ClockText(h, m, short))
  {
    var t := ClockText(h, m, short);
    if short && h < 10 {
      assert t[0] == DigitChar(h) && t[1] == ':' && t[2..] == Pad2(m);
    } else {
      assert t[..2] == Pad2(h) && t[2] == ':' && t[3..] == Pad2(m);
      assert DigitValue(t[0]) == h / 10;
    }
  }

  /** The pattern's own examples. */
  lemma TimePatternExamples()
    ensures TimePattern("7:30") && TimePattern("19:30") && TimePattern("07:05")
    ensures !TimePattern("24:00") && !TimePattern("19:30:00") && !TimePattern("19:5") && !TimePattern("")
  {
  }

  // ---------------------------------------------------------------- guests

  /** isInt's default pattern ^[-+]?[0-9]+$ (leading zeros allowed). */
  predicate IntegerText(s: string)
  {
    var digits := if s != [] && (s[0] == '+' || s[0] == '-') then s[1..] else s;
    digits != [] && AllDigits(digits)
  }

  /** The number an integer text denotes. */
  function IntegerValue(s: string): int
    requires IntegerText(s)
  {
    if s[0] == '-' then -(DigitsValue(s[1..]) as int)
    else if s[0] == '+' then DigitsValue(s[1..])
    else DigitsValue(s)
  }

  /** isInt({ gt: 0 }): an integer text whose value exceeds 0. */
  predicate PositiveInt(s: string)
  {
    IntegerText(s) && IntegerValue(s) > 0
  }

  /** The numeral of an integer passes the guests check exactly when the
      integer is greater than 0. */
  lemma PositiveIntOfNumeral(n: int)
    ensures PositiveInt(IntToString(n)) <==> n > 0
  {
    var s := IntToString(n);
    if n < 0 {
      assert s[0] == '-' && s[1..] == NatToString(-n);
      assert IntegerValue(s) == n;
    } else {
      assert s == NatToString(n) && IsDigit(s[0]);
    }
  }

  // ---------------------------------------------------------------- chain

  /** A submitted reservation as the validators see it: the text of each
      field, None when the field is absent. `status` stands for any field the
      chain does not name. */
  datatype ReservationBody = ReservationBody(
    name: Option<string>, email: Option<string>, phone: Option<string>,
    date: Option<string>, time: Option<string>, guests: Option<string>,
    status: Option<string>)

  /** The library checks and sanitizers, taken as given functions. */
  datatype Validators = Validators(
    isEmail: string -> bool, normalizeEmail: string -> string, escape: string -> string,
    isISO8601: string -> bool, toDate: string -> int)

  datatype FieldError = FieldError(path: string, value: string, msg: string)

  const DefaultMessage := "Invalid value"

  function Check(ok: bool, path: string, f: Option<string>): (errors: seq<FieldError>)
    ensures errors == [] <==> ok
  {
    if ok then [] else [FieldError(path, TextOf(f), DefaultMessage)]
  }

  predicate EmailOk(body: ReservationBody, lib: Validators)
  {
    body.email.None? || lib.isEmail(body.email.value)
  }

  /** validationResult(req).array() after the chain: one error per failing
      field, in chain order. name and phone only sanitize; email is checked
      only when present; date, time and guests are always checked. */
  function FieldErrors(body: ReservationBody, lib: Validators): (errors: seq<FieldError>)
    ensures errors == [] <==>
              EmailOk(body, lib) && lib.isISO8601(TextOf(body.date))
              && TimePattern(TextOf(body.time)) && PositiveInt(TextOf(body.guests))
    ensures forall e :: e in errors ==> e.path in {"email", "date", "time", "guests"} && e.msg == DefaultMessage
    ensures (exists e :: e in errors && e.path == "guests") <==> !PositiveInt(TextOf(body.guests))
    ensures (exists e :: e in errors && e.path == "time") <==> !TimePattern(TextOf(body.time))
  {
    var email := Check(EmailOk(body, lib), "email", body.email);
    var date := Check(lib.isISO8601(TextOf(body.date)), "date", body.date);
    var time := Check(TimePattern(TextOf(body.time)), "time", body.time);
    var guests := Check(PositiveInt(TextOf(body.guests)), "guests", body.guests);
    var errors := email + date + time + guests;
    assert forall e :: e in errors <==> e in email || e in date || e in time || e in guests;
    errors
  }

  // ---------------------------------------------------------------- store

  datatype ReservationRow = ReservationRow(
    id: nat, name: Option<string>, email: Option<string>, phone: Option<string>,
    date: int, time: string, guests: string)

  function MapOption(f: Option<string>, g: string -> string): Option<string>
  {
    if f.Some? then Some(g(f.value)) else None
  }

  /** The row inserted for an accepted body: name and phone trimmed and
      escaped, email normalized, date converted, time and guests as sent;
      nothing else of the body is stored. */
  function NewRow(id: nat, body: ReservationBody, lib: Validators): ReservationRow
  {
    ReservationRow(
      id,
      MapOption(body.name, s => lib.escape(Trim(s))),
      MapOption(body.email, lib.normalizeEmail),
      MapOption(body.phone, s => lib.escape(Trim(s))),
      lib.toDate(TextOf(body.date)),
      TextOf(body.time),
      TextOf(body.guests))
  }

  /** Every accepted reservation stores a well-formed clock time and the
      submitted guests text, whose value is above 0; the body's other fields
      (such as status) play no part. */
  lemma AcceptedRowWellFormed(id: nat, body: ReservationBody, lib: Validators, status: Option<string>)
    requires FieldErrors(body, lib) == []
    ensures var row := NewRow(id, body, lib);
      && TimePattern(row.time) && PositiveInt(row.guests)
      && body.time == Some(row.time) && body.guests == Some(row.guests)
      && row == NewRow(id, body.(status := status), lib)
  {
  }

  /** The two submissions the route is meant for: guests 4 is accepted,
      guests 0 is refused with exactly one error, on guests. */
  lemma GuestsScenario(lib: Validators)
    requires lib.isISO8601("2025-06-01")
    ensures FieldErrors(ReservationBody(None, None, None, Some("2025-06-01"), Some("19:30"), Some("4"), None), lib) == []
    ensures FieldErrors(ReservationBody(None, None, None, Some("2025-06-01"), Some("19:30"), Some("0"), None), lib)
            == [FieldError("guests", "0", DefaultMessage)]
  {
    assert PositiveInt("4") && !PositiveInt("0") && TimePattern("19:30");
  }

  datatype PostReply = Created(reservationId: nat) | Invalid(errors: seq<FieldError>) | InsertFailed

  datatype ListReply = Rows(rows: seq<ReservationRow>) | FetchFailed

  function PostStatus(reply: PostReply): int
  {
    match reply
    case Created(_) => 201
    case Invalid(_) => 400
    case InsertFailed => 500
  }

  function ListStatus(reply: ListReply): int
  {
    if reply.Rows? then 200 else 500
  }

  const CreatedMessage := "Reservation created successfully!"
  const InsertFailedMessage := "Error creating reservation."
  const FetchFailedMessage := "Error fetching reservations."

  /** The reservations table. Ids are handed out in increasing order. */
  class ReservationTable {
    var rows: seq<ReservationRow>
    var nextId: nat

    /** Ids increase along the table and stay below nextId; every stored row
        holds a valid time and a guests value above 0. */
    ghost predicate Valid()
      reads this
    {
      && (forall i, j :: 0 <= i < j < |rows| ==> rows[i].id < rows[j].id)
      && (forall i :: 0 <= i < |rows| ==> rows[i].id < nextId)
      && (forall i :: 0 <= i < |rows| ==> TimePattern(rows[i].time) && PositiveInt(rows[i].guests))
    }

    constructor ()
      ensures Valid() && rows == [] && nextId == 1
    {
      rows := [];
      nextId := 1;
    }

    /** POST: validate first; only an accepted body reaches the INSERT, whose
        outcome `insertFails` is the database's answer. */
    method Post(body: ReservationBody, lib: Validators, insertFails: bool) returns (reply: PostReply)
      requires Valid()
      modifies this
      ensures Valid()
      ensures FieldErrors(body, lib) != [] ==>
                reply == Invalid(FieldErrors(body, lib)) && rows == old(rows) && nextId == old(nextId)
      ensures FieldErrors(body, lib) == [] && insertFails ==>
                reply == InsertFailed && rows == old(rows) && nextId == old(nextId)
      ensures FieldErrors(body, lib) == [] && !insertFails ==>
                && reply == Created(old(nextId))
                && rows == old(rows) + [NewRow(old(nextId), body, lib)]
                && nextId == old(nextId) + 1
    {
      var errors := FieldErrors(body, lib);
      if errors != [] {
        return Invalid(errors);
      }
      if insertFails {
        return InsertFailed;
      }
      var row := NewRow(nextId, body, lib);
      AcceptedRowWellFormed(nextId, body, lib, body.status);
      rows := rows + [row];
      reply := Created(nextId);
      nextId := nextId + 1;
    }

    /** GET: every stored row, as stored and in store order. */
    method List(fetchFails: bool) returns (reply: ListReply)
      requires Valid()
      ensures fetchFails ==> reply == FetchFailed
      ensures !fetchFails ==> reply == Rows(rows)
      ensures reply.Rows? ==> forall r :: r in reply.rows ==> TimePattern(r.time) && PositiveInt(r.guests)
    {
      if fetchFails {
        return FetchFailed;
      }
      reply := Rows(rows);
    }
  }
}
