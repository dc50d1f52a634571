/** The validation in app/admin/operations/routes/actions.ts: the zod
    schemas RouteSchema, StopSchema and ScheduleSchema and the id guards of
    updateRoute and deleteRoute. An action either returns errors or issues
    one write to the store; the write itself is I/O and is returned here as
    a Command value. */
module RouteActions {
  import opened Common

  datatype Field = Id | Name | Description | RouteId | StopOrder | DepartureTime | TotalSeats

  datatype Command =
    | RouteInsert(name: string, description: Option<string>)
    | RouteUpdate(id: string, name: string, description: Option<string>)
    | RouteDelete(id: string)
    | StopInsert(routeId: string, name: string, stopOrder: int)
    | ScheduleInsert(routeId: string, departureTime: string, totalSeats: int)

  /** What an action returns: field errors from a failed parse, the
      "ID required" error, or the write it issues. */
  datatype ActionResult = FieldErrors(fields: set<Field>) | MissingId | Write(cmd: Command)

  // ---------------------------------------------------------------------
  // Characters and numerals

  predicate IsDigit(c: char) {
    '0' <= c <= '9'
  }

  function DigitValue(c: char): nat
    requires IsDigit(c)
  {
    c as int - '0' as int
  }

  function Digit(d: nat): (c: char)
    requires d < 10
    ensures IsDigit(c) && DigitValue(c) == d
  {
    ('0' as int + d) as char
  }

  predicate AllDigits(s: string) {
    forall i :: 0 <= i < |s| ==> IsDigit(s[i])
  }

  /** The value of a string of decimal digits. */
  function DigitsValue(s: string): nat
    requires AllDigits(s)
  {
    if |s| == 0 then 0 else 10 * DigitsValue(s[..|s| - 1]) + DigitValue(s[|s| - 1])
  }

  /** The white space and line terminators that `Number()` trims from a
      string before reading it: tab, line feed, vertical tab, form feed,
      carriage return, space, no-break space, the byte order mark, the line
      and paragraph separators, and the other space separators of Unicode
      (U+1680, U+2000 to U+200A, U+202F, U+205F, U+3000). */
  predicate IsSpace(c: char) {
    ('\t' <= c <= '\r') || c == ' ' || c == '\U{00A0}' || c == '\U{FEFF}' ||
    c == '\U{1680}' || ('\U{2000}' <= c <= '\U{200A}') || c == '\U{2028}' || c == '\U{2029}' ||
    c == '\U{202F}' || c == '\U{205F}' || c == '\U{3000}'
  }

  function TrimStart(s: string): (r: string)
    ensures |r| == 0 || !IsSpace(r[0])
  {
    if |s| > 0 && IsSpace(s[0]) then TrimStart(s[1..]) else s
  }

  function TrimEnd(s: string): (r: string)
    ensures |r| == 0 || !IsSpace(r[|r| - 1])
  {
    if |s| > 0 && IsSpace(s[|s| - 1]) then TrimEnd(s[..|s| - 1]) else s
  }

  /** A decimal numeral without sign, `digits`, `digits.digits`, `.digits` or
      `digits.`, read as an integer when every fraction digit is zero; None
      for anything that is not such a numeral or is not a whole number. */
  function UnsignedInteger(s: string): Option<nat>
  {
    if '.' in s then
      var dot := IndexOf(s, '.');
      WholeNumber(s[..dot], s[dot + 1..])
    else WholeNumber(s, "")
  }

  /** The numeral with these whole and fraction digits, if it is one and is
      a whole number. */
  function WholeNumber(whole: string, fraction: string): Option<nat>
  {
    if |whole| + |fraction| == 0 || !AllDigits(whole) || !AllDigits(fraction) then None
    else if exists i :: 0 <= i < |fraction| && fraction[i] != '0' then None
    else Some(DigitsValue(whole))
  }

  function IndexOf(s: string, c: char): (k: nat)
    requires c in s
    ensures k < |s| && s[k] == c && c !in s[..k]
  {
    if s[0] == c then 0 else 1 + IndexOf(s[1..], c)
  }

  /** `Number(v)` as z.coerce.number() computes it, when the result is an
      integer; None when it is NaN or not a whole number. */
  function Coerce(v: FormValue): (r: Option<int>)
    ensures v.Undefined? ==> r.None?
    ensures v.Null? || (v.Str? && Trim(v.text) == "") ==> r == Some(0)
  {
    match v
    case Undefined => None
    case Null => Some(0)
    case Str(text) =>
      var t := Trim(text);
      if t == "" then Some(0)
      else
        var signed := t[0] == '-' || t[0] == '+';
        match UnsignedInteger(if signed then t[1..] else t)
        case None => None
        case Some(n) => Some(if t[0] == '-' then -(n as int) else n)
  }

  /** The trimming of `Number()` (and String.prototype.trim). */
  function Trim(s: string): string {
    TrimEnd(TrimStart(s))
  }

  /** The decimal numeral of n. */
  function Decimal(n: nat): (s: string)
    ensures |s| > 0 && AllDigits(s)
  {
    if n < 10 then [Digit(n)] else Decimal(n / 10) + [Digit(n % 10)]
  }

  lemma {:induction false} DecimalValue(n: nat)
    ensures DigitsValue(Decimal(n)) == n
  {
    if n >= 10 {
      DecimalValue(n / 10);
      var s := Decimal(n);
      assert s[..|s| - 1] == Decimal(n / 10);
    }
  }

  lemma NoDotInDigits(s: string)
    requires AllDigits(s)
    ensures '.' !in s
  {
    forall i | 0 <= i < |s| ensures s[i] != '.' { assert IsDigit(s[i]); }
  }

  lemma UnsignedDecimal(n: nat)
    ensures UnsignedInteger(Decimal(n)) == Some(n)
  {
    var d := Decimal(n);
    NoDotInDigits(d);
    DecimalValue(n);
  }

  /** A numeral whose fraction has a non-zero digit is not a whole number. */
  lemma FractionRejected(whole: string, fraction: string, k: nat)
    requires AllDigits(whole) && AllDigits(fraction)
    requires k < |fraction| && fraction[k] != '0'
    ensures UnsignedInteger(whole + "." + fraction) == None
  {
    var s := whole + "." + fraction;
    NoDotInDigits(whole);
    assert s[|whole|] == '.';
    assert IndexOf(s, '.') == |whole| by {
      var i := IndexOf(s, '.');
      assert s[..i] == whole[..i] || i >= |whole|;
    }
    assert s[..|whole|] == whole;
    assert s[|whole| + 1..] == fraction;
  }

  /** The characters a numeral starts and ends with. */
  predicate NumeralEdge(c: char) {
    IsDigit(c) || c == '.' || c == '-' || c == '+'
  }

  /** A text that starts and ends with a numeral's character is its own
      trim. */
  lemma TrimKeeps(s: string)
    requires |s| > 0 && NumeralEdge(s[0]) && NumeralEdge(s[|s| - 1])
    ensures Trim(s) == s
  {
    assert !IsSpace(s[0]) && !IsSpace(s[|s| - 1]);
  }

  /** Coercion reads back the numeral of any integer. */
  lemma CoerceDecimal(n: int)
    ensures Coerce(Str(if n < 0 then "-" + Decimal(-n) else Decimal(n))) == Some(n)
  {
    var m: nat := if n < 0 then -n else n;
    var d := Decimal(m);
    UnsignedDecimal(m);
    assert IsDigit(d[0]) && IsDigit(d[|d| - 1]);
    if n < 0 {
      var t := "-" + d;
      assert t[0] == '-' && t[|t| - 1] == d[|d| - 1] && t[1..] == d;
      TrimKeeps(t);
      SignedRead(t, d, m);
    } else {
      TrimKeeps(d);
      SignedRead(d, d, m);
    }
  }

  /** A trimmed text whose unsigned part reads as n coerces to n, negated
      after a minus sign. */
  lemma SignedRead(t: string, u: string, n: nat)
    requires |t| > 0 && Trim(t) == t
    requires u == (if t[0] == '-' || t[0] == '+' then t[1..] else t)
    requires UnsignedInteger(u) == Some(n)
    ensures Coerce(Str(t)) == Some(if t[0] == '-' then -(n as int) else n)
  {
  }

  // ---------------------------------------------------------------------
  // The time grammar /^([01]\d|2[0-3]):([0-5]\d)$/

  predicate IsTime(s: string) {
    |s| == 5 &&
    ((('0' <= s[0] <= '1') && IsDigit(s[1])) || (s[0] == '2' && '0' <= s[1] <= '3')) &&
    s[2] == ':' &&
    '0' <= s[3] <= '5' && IsDigit(s[4])
  }

  /** The regex accepts exactly five characters HH:MM whose hours read 00-23
      and whose minutes read 00-59. */
  lemma TimeIff(s: string)
    ensures IsTime(s) <==>
      |s| == 5 && s[2] == ':' && IsDigit(s[0]) && IsDigit(s[1]) && IsDigit(s[3]) && IsDigit(s[4]) &&
      10 * DigitValue(s[0]) + DigitValue(s[1]) <= 23 &&
      10 * DigitValue(s[3]) + DigitValue(s[4]) <= 59
  {
  }

  function TimeString(hours: nat, minutes: nat): string
    requires hours < 24 && minutes < 60
  {
    [Digit(hours / 10), Digit(hours % 10), ':', Digit(minutes / 10), Digit(minutes % 10)]
  }

  /** Every time of day, written HH:MM, is accepted. */
  lemma TimeStringAccepted(hours: nat, minutes: nat)
    requires hours < 24 && minutes < 60
    ensures IsTime(TimeString(hours, minutes))
  {
    TimeIff(TimeString(hours, minutes));
  }

  // ---------------------------------------------------------------------
  // One predicate per field rule

  /** z.string().optional(): undefined or a string, but not null. */
  predicate OptionalText(v: FormValue) {
    !v.Null?
  }

  /** z.string().min(1) */
  predicate NonEmptyText(v: FormValue) {
    v.Str? && |v.text| >= 1
  }

  predicate UuidText(v: FormValue) {
    v.Str? && IsUuid(v.text)
  }

  predicate TimeText(v: FormValue) {
    v.Str? && IsTime(v.text)
  }

  /** z.coerce.number().int().min(lo) */
  function IntegerAtLeast(v: FormValue, lo: int): (r: bool)
    ensures v.Undefined? ==> !r
    ensures v.Null? ==> (r <==> lo <= 0)
  {
    Coerce(v).Some? && Coerce(v).value >= lo
  }

  function TextOf(v: FormValue): Option<string> {
    if v.Str? then Some(v.text) else None
  }

  /** The fields RouteSchema rejects. */
  function RouteErrors(id: FormValue, name: FormValue, description: FormValue): (e: set<Field>)
    ensures e == {} <==> OptionalText(id) && NonEmptyText(name) && OptionalText(description)
  {
    (if OptionalText(id) then {} else {Id}) +
    (if NonEmptyText(name) then {} else {Name}) +
    (if OptionalText(description) then {} else {Description})
  }

  /** The fields StopSchema rejects. */
  function StopErrors(routeId: FormValue, name: FormValue, stopOrder: FormValue): (e: set<Field>)
    ensures e == {} <==> UuidText(routeId) && NonEmptyText(name) && IntegerAtLeast(stopOrder, 0)
  {
    (if UuidText(routeId) then {} else {RouteId}) +
    (if NonEmptyText(name) then {} else {Name}) +
    (if IntegerAtLeast(stopOrder, 0) then {} else {StopOrder})
  }

  /** The fields ScheduleSchema rejects. */
  function ScheduleErrors(routeId: FormValue, departureTime: FormValue, totalSeats: FormValue): (e: set<Field>)
    ensures e == {} <==> UuidText(routeId) && TimeText(departureTime) && IntegerAtLeast(totalSeats, 1)
  {
    (if UuidText(routeId) then {} else {RouteId}) +
    (if TimeText(departureTime) then {} else {DepartureTime}) +
    (if IntegerAtLeast(totalSeats, 1) then {} else {TotalSeats})
  }

  // ---------------------------------------------------------------------
  // The actions

  /** createRoute: the id key is never set, so it is undefined. */
  function CreateRoute(name: FormValue, description: FormValue): (r: ActionResult)
    ensures r.Write? <==> NonEmptyText(name) && OptionalText(description)
    ensures r.Write? ==> r.cmd == RouteInsert(name.text, TextOf(description))
    ensures !r.Write? ==> r.FieldErrors? && r.fields != {} && r.fields <= {Name, Description}
  {
    var e := RouteErrors(Undefined, name, description);
    if e != {} then FieldErrors(e) else Write(RouteInsert(name.text, TextOf(description)))
  }

  /** updateRoute: FormData.get('id') is null when the field is missing,
      which the schema rejects; an empty id passes the schema and is caught by
      the `!id` guard. */
  function UpdateRoute(id: FormValue, name: FormValue, description: FormValue): (r: ActionResult)
    ensures r.FieldErrors? <==> !(OptionalText(id) && NonEmptyText(name) && OptionalText(description))
    ensures r.MissingId? <==> OptionalText(id) && NonEmptyText(name) && OptionalText(description) && !Truthy(id)
    ensures r.Write? ==> Truthy(id) && r.cmd == RouteUpdate(id.text, name.text, TextOf(description))
  {
    var e := RouteErrors(id, name, description);
    if e != {} then FieldErrors(e)
    else if !Truthy(id) then MissingId
    else Write(RouteUpdate(id.text, name.text, TextOf(description)))
  }

  function DeleteRoute(routeId: string): (r: ActionResult)
    ensures r.MissingId? <==> routeId == ""
    ensures r.Write? <==> routeId != ""
    ensures r.Write? ==> r.cmd == RouteDelete(routeId)
  {
    if routeId == "" then MissingId else Write(RouteDelete(routeId))
  }

  /** addStopToRoute */
  function AddStop(routeId: FormValue, name: FormValue, stopOrder: FormValue): (r: ActionResult)
    ensures r.Write? <==> UuidText(routeId) && NonEmptyText(name) && IntegerAtLeast(stopOrder, 0)
    ensures r.Write? ==> r.cmd == StopInsert(routeId.text, name.text, Coerce(stopOrder).value)
    ensures !r.Write? ==> r.FieldErrors? && r.fields != {}
  {
    var e := StopErrors(routeId, name, stopOrder);
    if e != {} then FieldErrors(e) else Write(StopInsert(routeId.text, name.text, Coerce(stopOrder).value))
  }

  /** addScheduleToRoute */
  function AddSchedule(routeId: FormValue, departureTime: FormValue, totalSeats: FormValue): (r: ActionResult)
    ensures r.Write? <==> UuidText(routeId) && TimeText(departureTime) && IntegerAtLeast(totalSeats, 1)
    ensures r.Write? ==> r.cmd == ScheduleInsert(routeId.text, departureTime.text, Coerce(totalSeats).value)
    ensures !r.Write? ==> r.FieldErrors? && r.fields != {}
  {
    var e := ScheduleErrors(routeId, departureTime, totalSeats);
    if e != {} then FieldErrors(e)
    else Write(ScheduleInsert(routeId.text, departureTime.text, Coerce(totalSeats).value))
  }

  /** A seat count typed as a numeral is accepted iff it is at least one;
      a stop order iff it is at least zero. */
  lemma NumeralBounds(n: int)
    ensures var v := Str(if n < 0 then "-" + Decimal(-n) else Decimal(n));
      (IntegerAtLeast(v, 1) <==> n >= 1) && (IntegerAtLeast(v, 0) <==> n >= 0)
  {
    CoerceDecimal(n);
  }

  /** Number(null) and Number('') are 0: a missing or empty stop order is
      stored as 0, while a missing or empty seat count is rejected. */
  lemma EmptyNumberIsZero()
    ensures IntegerAtLeast(Null, 0) && IntegerAtLeast(Str(""), 0)
    ensures !IntegerAtLeast(Null, 1) && !IntegerAtLeast(Str(""), 1)
  {
  }

  /** A decimal numeral, with or without a sign, whose fraction has a
      non-zero digit is rejected for both number fields. */
  lemma FractionalEntryRejected(sign: string, whole: string, fraction: string, k: nat, lo: int)
    requires sign == "" || sign == "-" || sign == "+"
    requires AllDigits(whole) && AllDigits(fraction)
    requires k < |fraction| && fraction[k] != '0'
    ensures !IntegerAtLeast(Str(sign + (whole + "." + fraction)), lo)
  {
    var u := whole + "." + fraction;
    FractionRejected(whole, fraction, k);
    FractionEdges(whole, fraction);
    if sign == "" {
      assert sign + u == u;
      EdgedNone(u, u);
    } else {
      SignedNone(sign, u);
    }
  }

  /** A sign before a text that ends with a digit and is no whole numeral
      coerces to nothing. */
  lemma SignedNone(sign: string, u: string)
    requires sign == "-" || sign == "+"
    requires |u| > 0 && IsDigit(u[|u| - 1]) && UnsignedInteger(u).None?
    ensures Coerce(Str(sign + u)).None?
  {
    var t := sign + u;
    assert t[0] == sign[0] && t[1..] == u && t[|t| - 1] == u[|u| - 1];
    EdgedNone(t, u);
  }

  /** A numeral with a fraction starts with a digit or the point and ends
      with a digit. */
  lemma FractionEdges(whole: string, fraction: string)
    requires AllDigits(whole) && AllDigits(fraction) && |fraction| > 0
    ensures var u := whole + "." + fraction;
      (u[0] == '.' || IsDigit(u[0])) && IsDigit(u[|u| - 1])
  {
    var u := whole + "." + fraction;
    assert u[|u| - 1] == fraction[|fraction| - 1];
    if |whole| > 0 {
      assert u[0] == whole[0];
    }
  }

  /** A text that starts and ends with a numeral's character and whose
      unsigned part is no whole numeral coerces to nothing. */
  lemma EdgedNone(t: string, u: string)
    requires |t| > 0 && NumeralEdge(t[0]) && NumeralEdge(t[|t| - 1])
    requires u == (if t[0] == '-' || t[0] == '+' then t[1..] else t)
    requires UnsignedInteger(u).None?
    ensures Coerce(Str(t)).None?
  {
    TrimKeeps(t);
    UnsignedNone(t, u);
  }

  /** A trimmed text whose unsigned part is no whole numeral coerces to
      nothing. */
  lemma UnsignedNone(t: string, u: string)
    requires |t| > 0 && Trim(t) == t
    requires u == (if t[0] == '-' || t[0] == '+' then t[1..] else t)
    requires UnsignedInteger(u).None?
    ensures Coerce(Str(t)).None?
  {
  }

  /** The characters that can occur in some numeric literal Number() reads:
      digits, the point, signs, the exponent and radix letters, hexadecimal
      letters, and the letters of "Infinity". */
  predicate NumeralChar(c: char) {
    IsDigit(c) || IsHex(c) || c in ".+-eExXoObBInfinity"
  }

  /** A numeral the model reads holds digits and at most a point. */
  lemma UnsignedCharacters(s: string, k: nat)
    requires UnsignedInteger(s).Some? && k < |s|
    ensures IsDigit(s[k]) || s[k] == '.'
  {
    if '.' in s {
      var dot := IndexOf(s, '.');
      if k < dot {
        assert s[k] == s[..dot][k];
      } else if k > dot {
        assert s[k] == s[dot + 1..][k - dot - 1];
      }
    }
  }

  /** An entry that, once trimmed, holds a character no numeric literal can
      contain is NaN for Number() and is rejected for both number fields. */
  lemma ForeignCharacterRejected(text: string, k: nat, lo: int)
    requires k < |Trim(text)| && !NumeralChar(Trim(text)[k])
    ensures !IntegerAtLeast(Str(text), lo)
  {
    var t := Trim(text);
    var signed := t[0] == '-' || t[0] == '+';
    var u := if signed then t[1..] else t;
    if UnsignedInteger(u).Some? {
      if signed {
        assert k > 0 && u[k - 1] == t[k];
        UnsignedCharacters(u, k - 1);
      } else {
        UnsignedCharacters(u, k);
      }
    }
  }
}
