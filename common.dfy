/** Types shared by every part of the model: the two database enums, the
    values a form field can take, small wrapper datatypes, and the text form
    of a uuid. */
module Common {

  /** gsb_reservation_status */
  datatype ReservationStatus = Confirmed | Cancelled | Completed

  /** gsb_user_role */
  datatype UserRole = Employee | CompanyAdmin | OperationsAdmin

  datatype Option<+T> = None | Some(value: T)

  /** The outcome of an action that returns no value: it passed, or it failed
      with an error of kind E. */
  datatype Outcome<+E> = Pass | Fail(error: E)

  /** What a server action sees for one field: `undefined` (the key was never
      put in the object), `null` (FormData.get of a missing field) or a string. */
  datatype FormValue = Undefined | Null | Str(text: string)

  /** JavaScript truthiness of a FormValue: only a non-empty string is truthy. */
  predicate Truthy(v: FormValue) {
    v.Str? && v.text != ""
  }

  // ---------------------------------------------------------------------
  // Uuids

  predicate IsHex(c: char) {
    '0' <= c <= '9' || 'a' <= c <= 'f' || 'A' <= c <= 'F'
  }

  /** The 8-4-4-4-12 text form of a uuid, in either letter case: what
      z.string().uuid() accepts. */
  predicate IsUuid(s: string) {
    |s| == 36 &&
    forall i :: 0 <= i < 36 ==>
      if i == 8 || i == 13 || i == 18 || i == 23 then s[i] == '-' else IsHex(s[i])
  }

  function Lower(c: char): char {
    if 'A' <= c <= 'Z' then (c as int + 32) as char else c
  }

  /** The spelling a uuid column stores and returns for a uuid written as s.
      The store compares uuids by value, so an `.eq` filter on a uuid column
      matches a row exactly when the row's stored id is the key of the
      filter's text: the letter case of the text does not matter. A JS `===`
      on two ids, by contrast, compares spellings. */
  function UuidKey(s: string): (k: string)
    ensures |k| == |s|
    ensures forall i :: 0 <= i < |k| ==> !('A' <= k[i] <= 'Z')
  {
    seq(|s|, i requires 0 <= i < |s| => Lower(s[i]))
  }

  /** A spelling that the store could have returned: it is its own key. */
  predicate Canonical(s: string) {
    UuidKey(s) == s
  }

  /** A key is canonical, so storing a key and reading it back gives it
      unchanged. */
  lemma KeyIsCanonical(s: string)
    ensures Canonical(UuidKey(s))
  {
    var k := UuidKey(s);
    assert forall i :: 0 <= i < |k| ==> UuidKey(k)[i] == k[i];
  }

  /** Two spellings that differ only in the case of their letters have the
      same key, and a uuid's key is a uuid with no capital letter. */
  lemma KeyIgnoresCase(a: string, b: string)
    requires |a| == |b| && forall i :: 0 <= i < |a| ==> Lower(a[i]) == Lower(b[i])
    ensures UuidKey(a) == UuidKey(b)
    ensures IsUuid(a) ==> IsUuid(UuidKey(a)) && forall i :: 0 <= i < |a| ==> !('A' <= UuidKey(a)[i] <= 'Z')
  {
  }

  /** An id as a uuid column holds it: a uuid, in its stored spelling. */
  predicate StoredId(s: string) {
    IsUuid(s) && Canonical(s)
  }

  /** Lower-casing keeps a character a hyphen or a hexadecimal digit exactly
      when it was one. */
  lemma LowerKeepsUuidChars(c: char)
    ensures Lower(c) == '-' <==> c == '-'
    ensures IsHex(Lower(c)) <==> IsHex(c)
  {
  }

  /** A text is a uuid exactly when its key is, so the key of a uuid is a
      stored id. */
  lemma KeyKeepsUuid(s: string)
    ensures IsUuid(UuidKey(s)) <==> IsUuid(s)
    ensures IsUuid(s) ==> StoredId(UuidKey(s))
  {
    var k := UuidKey(s);
    forall i | 0 <= i < |s|
      ensures (k[i] == '-' <==> s[i] == '-') && (IsHex(k[i]) <==> IsHex(s[i]))
    {
      LowerKeepsUuidChars(s[i]);
    }
    KeyIsCanonical(s);
  }

  /** A filter text that is no uuid names no stored id. */
  lemma NonUuidNamesNoStoredId(f: string, s: string)
    requires StoredId(s) && !IsUuid(f)
    ensures UuidKey(f) != s
  {
    KeyKeepsUuid(f);
  }
}
