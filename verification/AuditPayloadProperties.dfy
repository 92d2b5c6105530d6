/** The canonical text determines the payload: JSON printing is injective. */
module AuditPayloadProperties {
  import opened Numerals
  import opened Options
  import opened AuditChain
  import opened AuditChainProperties
  import opened AuditPayload

  // ---------------------------------------------------------------- reading back one character

  function HexValue(c: char): nat {
    if '0' <= c <= '9' then (c - '0') as nat else if 'a' <= c <= 'f' then (c - 'a') as nat + 10 else 0
  }

  /** The number that the four characters from position `at` on spell in hexadecimal. */
  function Hex4Value(s: string, at: nat): nat
    requires |s| >= at + 4
  {
    HexValue(s[at]) * 4096 + HexValue(s[at + 1]) * 256 + HexValue(s[at + 2]) * 16 + HexValue(s[at + 3])
  }

  lemma HexDigitRead(d: nat)
    requires d < 16
    ensures HexValue(HEX[d]) == d
  {
  }

  lemma Hex4Read(n: nat, s: string, at: nat)
    requires n < 0x1_0000 && |s| >= at + 4
    requires s[at] == Hex4(n)[0] && s[at + 1] == Hex4(n)[1] && s[at + 2] == Hex4(n)[2] && s[at + 3] == Hex4(n)[3]
    ensures Hex4Value(s, at) == n
  {
    var a := n / 16;
    var b := a / 16;
    HexDigitRead(b / 16);
    HexDigitRead(b % 16);
    HexDigitRead(a % 16);
    HexDigitRead(n % 16);
  }

  /** The code point that an escaped character at the front of a text stands for. */
  function FirstCode(s: string): int {
    if |s| == 0 then -1
    else if s[0] != '\\' then s[0] as int
    else if |s| < 2 then -1
    else if s[1] == 'n' then 10
    else if s[1] == 'r' then 13
    else if s[1] == 't' then 9
    else if s[1] == 'f' then 12
    else if s[1] == 'b' then 8
    else if s[1] != 'u' then s[1] as int
    else if |s| < 6 then -1
    else
      var unit := Hex4Value(s, 2);
      if 0xd800 <= unit < 0xdc00 && |s| >= 12 then
        0x1_0000 + (unit - 0xd800) * 1024 + (Hex4Value(s, 8) - 0xdc00)
      else unit
  }

  lemma UnitReads(n: nat, rest: string)
    requires n < 0x1_0000 && !(0xd800 <= n < 0xdc00)
    ensures FirstCode("\\u" + Hex4(n) + rest) == n
  {
    Hex4Read(n, "\\u" + Hex4(n) + rest, 2);
  }

  lemma PairReads(unit: nat, low: nat, rest: string)
    requires 0xd800 <= unit < 0xdc00 <= low < 0xe000
    ensures FirstCode("\\u" + Hex4(unit) + "\\u" + Hex4(low) + rest)
        == 0x1_0000 + (unit - 0xd800) * 1024 + (low - 0xdc00)
  {
    var hi, lo := Hex4(unit), Hex4(low);
    assert |hi| == 4 && |lo| == 4;
    PairSpells(hi, lo, rest);
    var s := "\\u" + hi + "\\u" + lo + rest;
    Hex4Read(unit, s, 2);
    Hex4Read(low, s, 8);
  }

  lemma UnitsOf(n: nat)
    requires 0x1_0000 <= n < 0x11_0000
    ensures 0xd800 <= HighUnit(n) < 0xdc00 <= LowUnit(n) < 0xe000
    ensures 0x1_0000 + (HighUnit(n) - 0xd800) * 1024 + (LowUnit(n) - 0xdc00) == n
  {
  }

  lemma PairSpells(hi: string, lo: string, rest: string)
    requires |hi| == 4 && |lo| == 4
    ensures var s := "\\u" + hi + "\\u" + lo + rest;
            && |s| >= 12 && s[0] == '\\' && s[1] == 'u'
            && s[2] == hi[0] && s[3] == hi[1] && s[4] == hi[2] && s[5] == hi[3]
            && s[8] == lo[0] && s[9] == lo[1] && s[10] == lo[2] && s[11] == lo[3]
  {
  }

  lemma FirstCodeReads(c: char, rest: string)
    ensures FirstCode(EscapeChar(c) + rest) == c as int
  {
    if c as int >= 0x1_0000 {
      AstralReads(c, rest);
    } else if c as int > 126 {
      BasicReads(c, rest);
    } else {
      AsciiReads(c, rest);
    }
  }

  lemma AstralReads(c: char, rest: string)
    requires c as int >= 0x1_0000
    ensures FirstCode(EscapeChar(c) + rest) == c as int
  {
    UnitsOf(c as int);
    PairReads(HighUnit(c as int), LowUnit(c as int), rest);
  }

  lemma BasicReads(c: char, rest: string)
    requires 126 < c as int < 0x1_0000
    ensures FirstCode(EscapeChar(c) + rest) == c as int
  {
    var n := c as int;
    assert EscapeChar(c) == "\\u" + Hex4(n);
    UnitReads(n, rest);
  }

  lemma AsciiReads(c: char, rest: string)
    requires c as int <= 126
    ensures FirstCode(EscapeChar(c) + rest) == c as int
  {
    var n := c as int;
    if n < 32 && n != 10 && n != 13 && n != 9 && n != 12 && n != 8 {
      UnitReads(n, rest);
    } else if n < 32 || c == '"' || c == '\\' {
      assert (EscapeChar(c) + rest)[0] == '\\' && (EscapeChar(c) + rest)[1] == EscapeChar(c)[1];
    }
  }

  lemma EscapeCharStart(c: char)
    ensures EscapeChar(c) != "" && EscapeChar(c)[0] != '"'
  {
  }

  /** Escaped characters are told apart whatever follows them. */
  lemma EscapeCharUnique(c: char, x: string, d: char, y: string)
    requires EscapeChar(c) + x == EscapeChar(d) + y
    ensures c == d && x == y
  {
    FirstCodeReads(c, x);
    FirstCodeReads(d, y);
    assert c as int == d as int;
    DropFront(EscapeChar(c), x, y);
  }

  // ---------------------------------------------------------------- texts piece by piece

  lemma DropFront(front: string, x: string, y: string)
    requires front + x == front + y
    ensures x == y
  {
    assert x == (front + x)[|front|..] && y == (front + y)[|front|..];
  }

  lemma DropHead(c: char, x: string, d: char, y: string)
    requires [c] + x == [d] + y
    ensures c == d && x == y
  {
    assert ([c] + x)[0] == c && ([d] + y)[0] == d;
    DropFront([c], x, y);
  }

  // ---------------------------------------------------------------- strings

  /** The rest of a string literal after its opening quote, and what follows it. */
  function Quoted(s: string, x: string): string {
    Escape(s) + ("\"" + x)
  }

  lemma QuotedStep(s: string, x: string)
    requires s != ""
    ensures Quoted(s, x) == EscapeChar(s[0]) + Quoted(s[1..], x)
    ensures Quoted(s, x) != "" && Quoted(s, x)[0] != '"'
  {
    EscapeCharStart(s[0]);
  }

  lemma QuotedEnd(x: string)
    ensures Quoted("", x) == "\"" + x
  {
  }

  lemma {:induction false} QuotedUnique(s: string, x: string, t: string, y: string)
    requires Quoted(s, x) == Quoted(t, y)
    ensures s == t && x == y
  {
    QuotedEnd(x);
    QuotedEnd(y);
    if s != "" { QuotedStep(s, x); }
    if t != "" { QuotedStep(t, y); }
    if s != "" && t != "" {
      EscapeCharUnique(s[0], Quoted(s[1..], x), t[0], Quoted(t[1..], y));
      QuotedUnique(s[1..], x, t[1..], y);
    } else if s == "" && t == "" {
      DropFront("\"", x, y);
    }
  }

  // ---------------------------------------------------------------- numbers

  predicate StartsWithNumberChar(s: string) {
    s != "" && NumberChar(s[0])
  }

  predicate NumberChars(s: string) {
    forall i :: 0 <= i < |s| ==> NumberChar(s[i])
  }

  lemma {:induction false} NumberRunUnique(a: string, x: string, b: string, y: string)
    requires a + x == b + y && !StartsWithNumberChar(x) && !StartsWithNumberChar(y)
    requires NumberChars(a) && NumberChars(b)
    ensures a == b && x == y
  {
    if a != "" { assert (a + x)[0] == a[0] && NumberChar(a[0]); }
    if b != "" { assert (b + y)[0] == b[0] && NumberChar(b[0]); }
    if a != "" && b != "" {
      assert (a + x)[1..] == a[1..] + x && (b + y)[1..] == b[1..] + y;
      NumberRunUnique(a[1..], x, b[1..], y);
    } else {
      assert "" + x == x && "" + y == y;
    }
  }

  predicate Digits(s: string) {
    forall i :: 0 <= i < |s| ==> IsDigit(s[i])
  }

  lemma NumeralDigits(n: nat)
    ensures Numeral(n, 10) != "" && Digits(Numeral(n, 10))
  {
    NumeralForm(n, 10);
  }

  /** An integer's text is its digits, after the sign if it is negative. */
  lemma NumText(n: int)
    ensures var s := Print(Num(n));
            && s != "" && NumberStart(s[0]) && (s[0] == '-' <==> n < 0)
            && s[if n < 0 then 1 else 0..] == Numeral(Magnitude(n), 10)
            && (forall i :: 0 <= i < |s| ==> IsDigit(s[i]) || s[i] == '-')
  {
    NumeralDigits(Magnitude(n));
    var digits := Numeral(Magnitude(n), 10);
    assert Print(Num(n)) == if n < 0 then ['-'] + digits else digits;
  }

  lemma NumberText(j: Json)
    requires j.Num? || j.Float?
    ensures Print(j) != "" && NumberStart(Print(j)[0]) && NumberChars(Print(j))
  {
    if j.Num? { NumText(j.n); }
  }

  /** Numbers are told apart by their texts, an integer from a float by the float's further characters. */
  lemma NumberTextInjective(j: Json, k: Json)
    requires (j.Num? || j.Float?) && (k.Num? || k.Float?) && Print(j) == Print(k)
    ensures j == k
  {
    if j.Num? { NumText(j.n); }
    if k.Num? { NumText(k.n); }
    if j.Num? && k.Num? { NumeralInjective(Magnitude(j.n), Magnitude(k.n), 10); }
  }

  lemma NumberUnique(j: Json, x: string, k: Json, y: string)
    requires (j.Num? || j.Float?) && (k.Num? || k.Float?)
    requires Print(j) + x == Print(k) + y && !StartsWithNumberChar(x) && !StartsWithNumberChar(y)
    ensures j == k && x == y
  {
    NumberText(j);
    NumberText(k);
    NumberRunUnique(Print(j), x, Print(k), y);
    NumberTextInjective(j, k);
  }

  // ---------------------------------------------------------------- values

  /** What may follow a value inside a longer text. */
  predicate Ends(x: string) {
    x == "" || x[0] == ',' || x[0] == ']' || x[0] == '}'
  }

  /** The kind of a value shows in the first character of its text. */
  function Kind(c: char): nat {
    if c == 'n' then 0
    else if c == 't' || c == 'f' then 1
    else if NumberStart(c) then 2
    else if c == '"' then 3
    else if c == '[' then 4
    else if c == '{' then 5
    else 6
  }

  function KindOf(j: Json): nat {
    match j
    case Null => 0
    case Bool(_) => 1
    case Num(_) => 2
    case Float(_) => 2
    case Str(_) => 3
    case Arr(_) => 4
    case Obj(_) => 5
  }

  lemma FirstCharShowsKind(j: Json, x: string)
    ensures Print(j) + x != "" && Kind((Print(j) + x)[0]) == KindOf(j)
  {
    if j.Num? || j.Float? { NumberText(j); }
  }

  /** JSON text is uniquely decodable: the value at the front of a text, and what follows it, are
      determined by the text. */
  lemma {:induction false} PrintUnique(j: Json, x: string, k: Json, y: string)
    requires Print(j) + x == Print(k) + y && Ends(x) && Ends(y)
    ensures j == k && x == y
    decreases j, 1
  {
    FirstCharShowsKind(j, x);
    FirstCharShowsKind(k, y);
    match j
    case Null => DropFront("null", x, y);
    case Bool(b) => BoolUnique(b, x, k.b, y);
    case Num(_) => NumberUnique(j, x, k, y);
    case Float(_) => NumberUnique(j, x, k, y);
    case Str(s) => StrUnique(s, x, k.s, y);
    case Arr(items) =>
      ArrText(items, x);
      ArrText(k.items, y);
      DropHead('[', ItemsText(items, x), '[', ItemsText(k.items, y));
      ItemsUnique(items, x, k.items, y);
    case Obj(fields) =>
      ObjText(fields, x);
      ObjText(k.fields, y);
      DropHead('{', FieldsText(fields, x), '{', FieldsText(k.fields, y));
      FieldsUnique(fields, x, k.fields, y);
  }

  lemma BoolUnique(b: bool, x: string, c: bool, y: string)
    requires Print(Bool(b)) + x == Print(Bool(c)) + y
    ensures b == c && x == y
  {
    assert ("true" + (if b then x else y))[0] == 't' && ("false" + (if b then y else x))[0] == 'f';
    if b == c { DropFront(Print(Bool(b)), x, y); }
  }

  lemma StrUnique(s: string, x: string, t: string, y: string)
    requires Print(Str(s)) + x == Print(Str(t)) + y
    ensures s == t && x == y
  {
    assert Print(Str(s)) + x == ['"'] + Quoted(s, x);
    assert Print(Str(t)) + y == ['"'] + Quoted(t, y);
    DropHead('"', Quoted(s, x), '"', Quoted(t, y));
    QuotedUnique(s, x, t, y);
  }

  // ---------------------------------------------------------------- lists

  /** The items and the closing bracket, and what follows it. */
  function ItemsText(items: seq<Json>, x: string): string {
    PrintItems(items) + ("]" + x)
  }

  lemma ArrText(items: seq<Json>, x: string)
    ensures Print(Arr(items)) + x == ['['] + ItemsText(items, x)
  {
  }

  function AfterItem(items: seq<Json>, x: string): string
    requires items != []
  {
    if |items| == 1 then [']'] + x else [','] + ItemsText(items[1..], x)
  }

  lemma Regroup(a: string, b: string, x: string)
    ensures (a + "," + b) + x == a + ([','] + (b + x))
  {
  }

  lemma ItemsSplit(items: seq<Json>, x: string)
    requires items != []
    ensures ItemsText(items, x) == Print(items[0]) + AfterItem(items, x)
    ensures ItemsText(items, x) != "" && ItemsText(items, x)[0] != ']'
  {
    FirstCharShowsKind(items[0], AfterItem(items, x));
    if |items| > 1 { Regroup(Print(items[0]), PrintItems(items[1..]), "]" + x); }
  }

  lemma AfterItemUnique(a: seq<Json>, x: string, b: seq<Json>, y: string)
    requires a != [] && b != [] && AfterItem(a, x) == AfterItem(b, y)
    ensures |a| == 1 <==> |b| == 1
    ensures |a| == 1 ==> x == y
    ensures |a| > 1 ==> ItemsText(a[1..], x) == ItemsText(b[1..], y)
  {
    assert AfterItem(a, x)[0] == AfterItem(b, y)[0];
    assert AfterItem(a, x)[1..] == if |a| == 1 then x else ItemsText(a[1..], x);
    assert AfterItem(b, y)[1..] == if |b| == 1 then y else ItemsText(b[1..], y);
  }

  lemma EmptyItemsUnique(a: seq<Json>, x: string, b: seq<Json>, y: string)
    requires ItemsText(a, x) == ItemsText(b, y)
    ensures a == [] <==> b == []
    ensures a == [] ==> x == y
  {
    if a != [] { ItemsSplit(a, x); } else { assert ItemsText(a, x) == [']'] + x; }
    if b != [] { ItemsSplit(b, y); } else { assert ItemsText(b, y) == [']'] + y; }
    if a == [] && b == [] { DropHead(']', x, ']', y); }
  }

  lemma {:induction false} ItemsUnique(a: seq<Json>, x: string, b: seq<Json>, y: string)
    requires ItemsText(a, x) == ItemsText(b, y)
    ensures a == b && x == y
    decreases a, 0
  {
    EmptyItemsUnique(a, x, b, y);
    if a != [] {
      var u, v := AfterItem(a, x), AfterItem(b, y);
      ItemsSplit(a, x);
      ItemsSplit(b, y);
      PrintUnique(a[0], u, b[0], v);
      AfterItemUnique(a, x, b, y);
      if |a| > 1 { ItemsUnique(a[1..], x, b[1..], y); }
      SameItems(a, b);
    }
  }

  lemma SameItems<T>(a: seq<T>, b: seq<T>)
    requires a != [] && b != [] && a[0] == b[0] && (|a| == 1 <==> |b| == 1) && (|a| > 1 ==> a[1..] == b[1..])
    ensures a == b
  {
    assert a == [a[0]] + a[1..] && b == [b[0]] + b[1..];
  }

  // ---------------------------------------------------------------- objects

  function FieldsText(fields: seq<Field>, x: string): string {
    PrintFields(fields) + ("}" + x)
  }

  lemma ObjText(fields: seq<Field>, x: string)
    ensures Print(Obj(fields)) + x == ['{'] + FieldsText(fields, x)
  {
  }

  function AfterField(fields: seq<Field>, x: string): string
    requires fields != []
  {
    if |fields| == 1 then ['}'] + x else [','] + FieldsText(fields[1..], x)
  }

  lemma FieldText(f: Field, x: string)
    ensures PrintField(f) + x == ['"'] + Quoted(f.key, [':'] + (Print(f.value) + x))
  {
    Reassociate(Escape(f.key), Print(f.value), x);
  }

  lemma Reassociate(key: string, value: string, x: string)
    ensures ("\"" + key + "\":" + value) + x == ['"'] + (key + ("\"" + ([':'] + (value + x))))
  {
  }

  lemma FieldsSplit(fields: seq<Field>, x: string)
    requires fields != []
    ensures FieldsText(fields, x) == PrintField(fields[0]) + AfterField(fields, x)
    ensures FieldsText(fields, x) != "" && FieldsText(fields, x)[0] == '"'
  {
    FieldText(fields[0], AfterField(fields, x));
    if |fields| > 1 { Regroup(PrintField(fields[0]), PrintFields(fields[1..]), "}" + x); }
  }

  lemma {:induction false} FieldUnique(f: Field, x: string, g: Field, y: string)
    requires PrintField(f) + x == PrintField(g) + y && Ends(x) && Ends(y)
    ensures f == g && x == y
    decreases f, 2
  {
    var u, v := Print(f.value) + x, Print(g.value) + y;
    FieldText(f, x);
    FieldText(g, y);
    DropHead('"', Quoted(f.key, [':'] + u), '"', Quoted(g.key, [':'] + v));
    QuotedUnique(f.key, [':'] + u, g.key, [':'] + v);
    DropHead(':', u, ':', v);
    PrintUnique(f.value, x, g.value, y);
  }

  lemma AfterFieldUnique(a: seq<Field>, x: string, b: seq<Field>, y: string)
    requires a != [] && b != [] && AfterField(a, x) == AfterField(b, y)
    ensures |a| == 1 <==> |b| == 1
    ensures |a| == 1 ==> x == y
    ensures |a| > 1 ==> FieldsText(a[1..], x) == FieldsText(b[1..], y)
  {
    assert AfterField(a, x)[0] == AfterField(b, y)[0];
    assert AfterField(a, x)[1..] == if |a| == 1 then x else FieldsText(a[1..], x);
    assert AfterField(b, y)[1..] == if |b| == 1 then y else FieldsText(b[1..], y);
  }

  lemma EmptyFieldsUnique(a: seq<Field>, x: string, b: seq<Field>, y: string)
    requires FieldsText(a, x) == FieldsText(b, y)
    ensures a == [] <==> b == []
    ensures a == [] ==> x == y
  {
    if a != [] { FieldsSplit(a, x); } else { assert FieldsText(a, x) == ['}'] + x; }
    if b != [] { FieldsSplit(b, y); } else { assert FieldsText(b, y) == ['}'] + y; }
    if a == [] && b == [] { DropHead('}', x, '}', y); }
  }

  lemma {:induction false} FieldsUnique(a: seq<Field>, x: string, b: seq<Field>, y: string)
    requires FieldsText(a, x) == FieldsText(b, y)
    ensures a == b && x == y
    decreases a, 0
  {
    EmptyFieldsUnique(a, x, b, y);
    if a != [] {
      var u, v := AfterField(a, x), AfterField(b, y);
      FieldsSplit(a, x);
      FieldsSplit(b, y);
      FieldUnique(a[0], u, b[0], v);
      AfterFieldUnique(a, x, b, y);
      if |a| > 1 { FieldsUnique(a[1..], x, b[1..], y); }
      SameItems(a, b);
    }
  }

  /** Equal canonical texts come from equal payloads. */
  lemma PrintInjective(j: Json, k: Json)
    requires Print(j) == Print(k)
    ensures j == k
  {
    assert Print(j) + "" == Print(j) && Print(k) + "" == Print(k);
    PrintUnique(j, "", k, "");
  }

  lemma ListIsJson(a: Json, b: Json)
    ensures Print(Arr([])) == "[]" && Print(Arr([a, b])) == "[" + (Print(a) + "," + Print(b)) + "]"
  {
    var items := [a, b];
    assert items[0] == a && items[1..] == [b];
    assert PrintItems(items) == Print(a) + "," + PrintItems([b]);
    assert Print(Arr([])) == "[" + "" + "]";
  }

  lemma PlainKeyIsJson(c: char, value: Json)
    requires 'a' <= c <= 'z'
    ensures PrintField(Field([c], value)) == "\"" + [c] + "\":" + Print(value)
  {
    assert Escape([c]) == EscapeChar(c) + Escape([c][1..]) == [c] + "";
  }

  /** The text is JSON as the Python library writes it without blanks. */
  lemma ItIsJson(a: Json, b: Json, f: Field, g: Field, c: char)
    requires 'a' <= c <= 'z'
    ensures Print(Null) == "null" && Print(Bool(true)) == "true" && Print(Bool(false)) == "false"
    ensures Print(Arr([])) == "[]" && Print(Arr([a, b])) == "[" + (Print(a) + "," + Print(b)) + "]"
    ensures Print(Obj([])) == "{}" && Print(Obj([f, g])) == "{" + (PrintField(f) + "," + PrintField(g)) + "}"
    ensures PrintField(Field([c], a)) == "\"" + [c] + "\":" + Print(a)
  {
    ListIsJson(a, b);
    PlainKeyIsJson(c, a);
    var fields := [f, g];
    assert fields[0] == f && fields[1..] == [g];
    assert PrintFields(fields) == PrintField(f) + "," + PrintFields([g]);
    assert Print(Obj([])) == "{" + "" + "}";
  }

  // ---------------------------------------------------------------- what sanitizing leaves to be read

  /** A key at some depth that sanitizing leaves in place holds an '@'. */
  predicate KeyShowsAt(j: Json)
    decreases j, 1
  {
    match j
    case Arr(items) => SomeItemShowsAt(items)
    case Obj(fields) => SomeFieldShowsAt(fields)
    case _ => false
  }

  predicate SomeItemShowsAt(items: seq<Json>)
    decreases items, 0
  {
    items != [] && (KeyShowsAt(items[0]) || SomeItemShowsAt(items[1..]))
  }

  predicate SomeFieldShowsAt(fields: seq<Field>)
    decreases fields, 0
  {
    fields != [] &&
    (var f := fields[0];
     '@' in f.key || (!Sensitive(f.key) && KeyShowsAt(f.value)) || SomeFieldShowsAt(fields[1..]))
  }

  lemma Hex4HasNoAt(n: nat)
    requires n < 0x1_0000
    ensures '@' !in Hex4(n)
  {
    assert forall d :: 0 <= d < 16 ==> HEX[d] != '@';
  }

  lemma EscapeCharAt(c: char)
    ensures '@' in EscapeChar(c) <==> c == '@'
  {
    var n := c as int;
    if n < 0x1_0000 {
      Hex4HasNoAt(n);
    } else {
      UnitsOf(n);
      Hex4HasNoAt(HighUnit(n));
      Hex4HasNoAt(LowUnit(n));
    }
  }

  lemma {:induction false} EscapeAt(s: string)
    ensures '@' in Escape(s) <==> '@' in s
  {
    if s != "" {
      EscapeCharAt(s[0]);
      EscapeAt(s[1..]);
      assert s == [s[0]] + s[1..];
    }
  }

  lemma NumberHasNoAt(j: Json)
    requires j.Num? || j.Float?
    ensures '@' !in Print(j)
  {
    NumberText(j);
  }

  lemma PrintStrAt(s: string)
    ensures '@' in Print(Str(s)) <==> '@' in s
  {
    EscapeAt(s);
  }

  lemma PrintItemsAt(items: seq<Json>)
    requires items != []
    ensures '@' in PrintItems(items) <==> '@' in Print(items[0]) || '@' in PrintItems(items[1..])
  {
  }

  lemma PrintFieldsAt(fields: seq<Field>)
    requires fields != []
    ensures var f := fields[0];
            '@' in PrintFields(fields) <==> '@' in f.key || '@' in Print(f.value) || '@' in PrintFields(fields[1..])
  {
    EscapeAt(fields[0].key);
    assert '@' in PrintField(fields[0]) <==> '@' in fields[0].key || '@' in Print(fields[0].value);
  }

  lemma MarkerShowsNoAt()
    ensures '@' !in Print(Str(REDACTED))
  {
    MarkerIsNotRevealing();
    PrintStrAt(REDACTED);
  }

  /** The canonical text of a sanitized payload shows an '@' exactly when a surviving key holds one: values
      are redacted, keys are not. */
  lemma {:induction false} AtSignSurvivesIff(j: Json)
    ensures '@' in Print(Sanitize(j)) <==> KeyShowsAt(j)
    decreases j, 1
  {
    match j
    case Str(s) =>
      MarkerIsNotRevealing();
      PrintStrAt(RedactText(s));
    case Arr(items) => AtSurvivesInItems(items);
    case Obj(fields) => AtSurvivesInFields(fields);
    case Num(_) => NumberHasNoAt(j);
    case Float(_) => NumberHasNoAt(j);
    case _ =>
  }

  lemma {:induction false} AtSurvivesInItems(items: seq<Json>)
    ensures '@' in PrintItems(SanitizeItems(items)) <==> SomeItemShowsAt(items)
    decreases items, 0
  {
    if items != [] {
      var clean := SanitizeItems(items);
      AtSignSurvivesIff(items[0]);
      AtSurvivesInItems(items[1..]);
      PrintItemsAt(clean);
      assert clean[0] == Sanitize(items[0]) && clean[1..] == SanitizeItems(items[1..]);
    }
  }

  lemma {:induction false} AtSurvivesInFields(fields: seq<Field>)
    ensures '@' in PrintFields(SanitizeFields(fields)) <==> SomeFieldShowsAt(fields)
    decreases fields, 0
  {
    if fields != [] {
      var f, clean := fields[0], SanitizeFields(fields);
      if Sensitive(f.key) { MarkerShowsNoAt(); } else { AtSignSurvivesIff(f.value); }
      AtSurvivesInFields(fields[1..]);
      PrintFieldsAt(clean);
      assert clean[0] == Field(f.key, if Sensitive(f.key) then Str(REDACTED) else Sanitize(f.value));
      assert clean[1..] == SanitizeFields(fields[1..]);
    }
  }

  // ---------------------------------------------------------------- the whole history

  /** The head of a channel's chain determines the hashed payload of every record in it. */
  lemma {:induction false} HeadDeterminesPayloads(h: Hash, a: seq<Row>, b: seq<Row>, payloadsA: seq<Json>,
                                                  payloadsB: seq<Json>)
    requires HexDigest(h) && Chained(h, a) && Chained(h, b)
    requires CollisionFree(h, Materials(a) + Materials(b))
    requires |payloadsA| == |a| && forall i :: 0 <= i < |a| ==> a[i].body == Print(payloadsA[i])
    requires |payloadsB| == |b| && forall i :: 0 <= i < |b| ==> b[i].body == Print(payloadsB[i])
    requires Head(a) == Head(b)
    ensures payloadsA == payloadsB
  {
    HeadDeterminesHistory(h, a, b);
    forall i | 0 <= i < |a| ensures payloadsA[i] == payloadsB[i] {
      assert SameRecord(a[i], b[i]);
      PrintInjective(payloadsA[i], payloadsB[i]);
    }
  }
}
