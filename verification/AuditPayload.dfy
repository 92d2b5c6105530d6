/** The payload of an audit event: redaction, and the canonical JSON text that is hashed. */
module AuditPayload {
  import opened Numerals
  import opened Text

  /** A JSON value. An object is kept in the order in which it is printed, that is, by sorted key. */
  datatype Json =
    | Null
    | Bool(b: bool)
    | Num(n: int)
    | Float(text: FloatText)
    | Str(s: string)
    | Arr(items: seq<Json>)
    | Obj(fields: seq<Field>)

  datatype Field = Field(key: string, value: Json)

  /** The characters of a printed number, NaN, Infinity and -Infinity included. */
  predicate NumberChar(c: char) {
    IsDigit(c) || c in "-+.eINafinty"
  }

  /** A number's text starts with a digit, the sign, or the letter of NaN or Infinity. */
  predicate NumberStart(c: char) {
    IsDigit(c) || c == '-' || c == 'I' || c == 'N'
  }

  /** A printed float: unlike an integer's text it has more in it than digits and the sign. */
  predicate IsFloatText(s: string) {
    && s != "" && NumberStart(s[0])
    && (forall i :: 0 <= i < |s| ==> NumberChar(s[i]))
    && (exists i :: 0 <= i < |s| && !IsDigit(s[i]) && s[i] != '-')
  }

  /** A float is kept as Python prints it, which determines it. */
  type FloatText = s: string | IsFloatText(s) ghost witness NanIsFloatText()

  ghost function NanIsFloatText(): (s: string)
    ensures IsFloatText(s)
  {
    var s := "NaN";
    assert s[0] == 'N';
    s
  }

  // ---------------------------------------------------------------- redaction

  const REDACTED := "[REDACTED]"
  const SENSITIVE_KEYS := {
    "password", "passcode", "token", "access_token", "authorization", "secret", "email", "phone",
    "phone_number", "chat_id", "sender_id", "message", "text"
  }

  predicate IsDigit(c: char) {
    '0' <= c <= '9'
  }

  function DigitCount(s: string): nat {
    if s == "" then 0 else DigitCount(s[1..]) + (if IsDigit(s[0]) then 1 else 0)
  }

  predicate Revealing(s: string) {
    '@' in s || DigitCount(s) >= 6
  }

  function RedactText(s: string): string {
    if Revealing(s) then REDACTED else s
  }

  predicate Sensitive(key: string) {
    Lower(Strip(key)) in SENSITIVE_KEYS
  }

  function Sanitize(j: Json): Json
    decreases j, 1
  {
    match j
    case Str(s) => Str(RedactText(s))
    case Arr(items) => Arr(SanitizeItems(items))
    case Obj(fields) => Obj(SanitizeFields(fields))
    case _ => j
  }

  function SanitizeItems(items: seq<Json>): seq<Json>
    decreases items, 0
  {
    if items == [] then [] else [Sanitize(items[0])] + SanitizeItems(items[1..])
  }

  function SanitizeFields(fields: seq<Field>): seq<Field>
    decreases fields, 0
  {
    if fields == [] then []
    else
      var f := fields[0];
      [Field(f.key, if Sensitive(f.key) then Str(REDACTED) else Sanitize(f.value))] + SanitizeFields(fields[1..])
  }

  /** Nothing left to hide: sensitive fields hold the marker, and no string value, at any depth, holds an
      '@' or six digits. The keys of objects are not looked at. */
  predicate Clean(j: Json)
    decreases j, 1
  {
    match j
    case Str(s) => !Revealing(s)
    case Arr(items) => CleanItems(items)
    case Obj(fields) => CleanFields(fields)
    case _ => true
  }

  predicate CleanItems(items: seq<Json>)
    decreases items, 0
  {
    items == [] || (Clean(items[0]) && CleanItems(items[1..]))
  }

  predicate CleanFields(fields: seq<Field>)
    decreases fields, 0
  {
    fields == [] ||
    (var f := fields[0];
     (if Sensitive(f.key) then f.value == Str(REDACTED) else Clean(f.value)) && CleanFields(fields[1..]))
  }

  lemma MarkerIsNotRevealing()
    ensures !Revealing(REDACTED)
  {
    var marker := REDACTED;
    assert forall i :: 0 <= i < |marker| ==> !IsDigit(marker[i]);
    NoDigits(marker);
  }

  lemma {:induction false} NoDigits(s: string)
    requires forall i :: 0 <= i < |s| ==> !IsDigit(s[i])
    ensures DigitCount(s) == 0
  {
    if s != "" { NoDigits(s[1..]); }
  }

  /** Sanitizing always gives a clean payload, and a payload is clean exactly when sanitizing leaves it
      as it is; so sanitizing twice is sanitizing once. */
  lemma {:induction false} SanitizeCleans(j: Json)
    ensures Clean(Sanitize(j))
    ensures Clean(j) <==> Sanitize(j) == j
    ensures Sanitize(Sanitize(j)) == Sanitize(j)
  {
    SanitizeSettles(j);
    SanitizeSettles(Sanitize(j));
  }

  lemma {:induction false} SanitizeSettles(j: Json)
    ensures Clean(Sanitize(j))
    ensures Clean(j) <==> Sanitize(j) == j
    decreases j, 1
  {
    match j
    case Str(s) => MarkerIsNotRevealing();
    case Arr(items) => ItemsSettle(items);
    case Obj(fields) => FieldsSettle(fields);
    case _ =>
  }

  lemma {:induction false} ItemsSettle(items: seq<Json>)
    ensures CleanItems(SanitizeItems(items))
    ensures CleanItems(items) <==> SanitizeItems(items) == items
    decreases items, 0
  {
    if items != [] {
      var clean, rest := Sanitize(items[0]), SanitizeItems(items[1..]);
      SanitizeSettles(items[0]);
      ItemsSettle(items[1..]);
      SameList(clean, rest, items);
      assert ([clean] + rest)[1..] == rest;
    }
  }

  lemma {:induction false} FieldsSettle(fields: seq<Field>)
    ensures CleanFields(SanitizeFields(fields))
    ensures CleanFields(fields) <==> SanitizeFields(fields) == fields
    decreases fields, 0
  {
    if fields != [] {
      var f, rest := fields[0], SanitizeFields(fields[1..]);
      var clean := Field(f.key, if Sensitive(f.key) then Str(REDACTED) else Sanitize(f.value));
      if !Sensitive(f.key) { SanitizeSettles(f.value); }
      FieldsSettle(fields[1..]);
      SameList(clean, rest, fields);
      assert ([clean] + rest)[1..] == rest;
    }
  }

  lemma SameList<T>(head: T, tail: seq<T>, whole: seq<T>)
    requires whole != []
    ensures [head] + tail == whole <==> head == whole[0] && tail == whole[1..]
  {
    assert ([head] + tail)[0] == head && ([head] + tail)[1..] == tail;
    assert whole == [whole[0]] + whole[1..];
  }

  // ---------------------------------------------------------------- canonical JSON text

  const HEX := "0123456789abcdef"

  function Hex4(n: nat): string
    requires n < 0x1_0000
  {
    [HEX[n / 16 / 16 / 16], HEX[n / 16 / 16 % 16], HEX[n / 16 % 16], HEX[n % 16]]
  }

  /** The two halves of a surrogate pair. */
  function HighUnit(n: nat): nat
    requires n >= 0x1_0000
  {
    0xd800 + (n - 0x1_0000) / 1024
  }

  function LowUnit(n: nat): nat
    requires n >= 0x1_0000
  {
    0xdc00 + (n - 0x1_0000) % 1024
  }

  /** A character inside a JSON string, in pure ASCII; beyond the basic plane as a surrogate pair. */
  function EscapeChar(c: char): string {
    var n := c as int;
    if c == '"' then "\\\""
    else if c == '\\' then "\\\\"
    else if n == 10 then "\\n"
    else if n == 13 then "\\r"
    else if n == 9 then "\\t"
    else if n == 12 then "\\f"
    else if n == 8 then "\\b"
    else if 32 <= n <= 126 then [c]
    else if n < 0x1_0000 then "\\u" + Hex4(n)
    else "\\u" + Hex4(HighUnit(n)) + "\\u" + Hex4(LowUnit(n))
  }

  function Escape(s: string): string {
    if s == "" then "" else EscapeChar(s[0]) + Escape(s[1..])
  }

  function Magnitude(n: int): nat {
    if n < 0 then -n else n
  }

  function Print(j: Json): string
    decreases j, 1
  {
    match j
    case Null => "null"
    case Bool(b) => if b then "true" else "false"
    case Num(n) => (if n < 0 then "-" else "") + Numeral(Magnitude(n), 10)
    case Float(text) => text
    case Str(s) => "\"" + Escape(s) + "\""
    case Arr(items) => "[" + PrintItems(items) + "]"
    case Obj(fields) => "{" + PrintFields(fields) + "}"
  }

  function PrintItems(items: seq<Json>): string
    decreases items, 0
  {
    if items == [] then ""
    else if |items| == 1 then Print(items[0])
    else Print(items[0]) + "," + PrintItems(items[1..])
  }

  function PrintField(f: Field): string
    decreases f, 2
  {
    "\"" + Escape(f.key) + "\":" + Print(f.value)
  }

  function PrintFields(fields: seq<Field>): string
    decreases fields, 0
  {
    if fields == [] then ""
    else if |fields| == 1 then PrintField(fields[0])
    else PrintField(fields[0]) + "," + PrintFields(fields[1..])
  }
}
