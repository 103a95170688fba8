/**
  The canonical JSON text that the audit chain hashes: sorted keys, no blanks, ASCII
  escapes. `CanonicalInjective` is what the chain needs of it: the text determines the value,
  even when more text follows.

  A dictionary is the sequence of its fields in key order. A number is its literal.
 */
module CanonicalJson {

  predicate NumeralChar(c: char) {
    '0' <= c <= '9' || c == '+' || c == '-' || c == '.' || c == 'e'
  }

  type Numeral = s: string | s != "" && forall c :: c in s ==> NumeralChar(c) witness "0"

  datatype Field = Field(key: string, value: Json)

  datatype Json =
    | Null
    | Bool(b: bool)
    | Number(literal: Numeral)
    | Text(s: string)
    | Array(items: seq<Json>)
    | Object(fields: seq<Field>)

  // ---------------------------------------------------------------- printing
  //
  // Each printer takes the text that follows, so that `Print(j, rest)` is the text of `j`
  // with `rest` after it.

  function HexDigit(n: nat): char
    requires n < 16
  {
    if n < 10 then '0' + n as char else 'a' + (n - 10) as char
  }

  /** The four hexadecimal digits of one 16-bit unit. */
  function Hex4(n: nat): (s: string)
    requires n < 0x10000
    ensures |s| == 4
  {
    [HexDigit(n / 4096), HexDigit(n % 4096 / 256), HexDigit(n % 256 / 16), HexDigit(n % 16)]
  }

  /** The letter after the backslash for a character with a short escape, a blank for the others. */
  function ShortEscape(c: char): (e: char)
    ensures e != 'u'
  {
    match c
    case '\"' => '\"'
    case '\\' => '\\'
    case '\n' => 'n'
    case '\r' => 'r'
    case '\t' => 't'
    case _ => if c as int == 8 then 'b' else if c as int == 12 then 'f' else ' '
  }

  function High(c: char): (n: nat)
    requires c as int >= 0x10000
    ensures 0xD800 <= n < 0xDC00
  {
    0xD800 + (c as int - 0x10000) / 1024
  }

  function Low(c: char): (n: nat)
    requires c as int >= 0x10000
    ensures 0xDC00 <= n < 0xE000
  {
    0xDC00 + (c as int - 0x10000) % 1024
  }

  function EscapeChar(c: char): (e: string)
    ensures e != "" && e[0] != '\"'
  {
    if ShortEscape(c) != ' ' then ['\\', ShortEscape(c)]
    else if 32 <= c as int <= 126 then [c]
    else if c as int < 0x10000 then "\\u" + Hex4(c as int)
    else "\\u" + Hex4(High(c)) + "\\u" + Hex4(Low(c))
  }

  function Escape(s: string, rest: string): string {
    if s == "" then rest else EscapeChar(s[0]) + Escape(s[1..], rest)
  }

  function Quote(s: string, rest: string): string {
    ['\"'] + Escape(s, ['\"'] + rest)
  }

  function Print(j: Json, rest: string): string
    decreases j, 1
  {
    match j
    case Null => "null" + rest
    case Bool(b) => (if b then "true" else "false") + rest
    case Number(literal) => literal + rest
    case Text(s) => Quote(s, rest)
    case Array(items) =>
      ['['] + (if items == [] then [']'] + rest else Print(items[0], PrintItems(items[1..], rest)))
    case Object(fields) =>
      ['{'] + (if fields == [] then ['}'] + rest else PrintField(fields[0], PrintFields(fields[1..], rest)))
  }

  function PrintItems(items: seq<Json>, rest: string): string
    decreases items, 0
  {
    if items == [] then [']'] + rest else [','] + Print(items[0], PrintItems(items[1..], rest))
  }

  function PrintField(f: Field, rest: string): string
    decreases f, 2
  {
    Quote(f.key, [':'] + Print(f.value, rest))
  }

  function PrintFields(fields: seq<Field>, rest: string): string
    decreases fields, 0
  {
    if fields == [] then ['}'] + rest else [','] + PrintField(fields[0], PrintFields(fields[1..], rest))
  }

  // ---------------------------------------------------------------- reading one escape

  function HexValue(c: char): int {
    if c <= '9' then c as int - '0' as int else c as int - 'a' as int + 10
  }

  function Value4(s: string): int
    requires |s| >= 4
  {
    HexValue(s[0]) * 4096 + HexValue(s[1]) * 256 + HexValue(s[2]) * 16 + HexValue(s[3])
  }

  lemma HexRoundTrip(n: nat)
    requires n < 16
    ensures HexValue(HexDigit(n)) == n
  {}

  lemma Hex4RoundTrip(n: nat)
    requires n < 0x10000
    ensures Value4(Hex4(n)) == n
  {
    HexRoundTrip(n / 4096);
    HexRoundTrip(n % 4096 / 256);
    HexRoundTrip(n % 256 / 16);
    HexRoundTrip(n % 16);
    assert n % 4096 == n % 4096 / 256 * 256 + n % 4096 % 256;
    assert n % 256 == n % 256 / 16 * 16 + n % 256 % 16;
    assert n % 4096 % 256 == n % 256 && n % 256 % 16 == n % 16;
  }

  /** How long the escape at the start of a text is. */
  function EscapeLength(t: string): nat {
    if t == "" || t[0] != '\\' then 1
    else if |t| < 6 || t[1] != 'u' then 2
    else if 0xD800 <= Value4(t[2..]) < 0xDC00 then 12
    else 6
  }

  lemma EscapeLengthCorrect(c: char, rest: string)
    ensures EscapeLength(EscapeChar(c) + rest) == |EscapeChar(c)|
  {
    var e := EscapeChar(c);
    var t := e + rest;
    assert t[0] == e[0];
    if |e| > 1 {
      assert t[1] == e[1];
    }
    if |e| >= 6 {
      var n := if c as int < 0x10000 then c as int else High(c);
      Hex4RoundTrip(n);
      assert t[2] == Hex4(n)[0] && t[3] == Hex4(n)[1] && t[4] == Hex4(n)[2] && t[5] == Hex4(n)[3];
    }
  }

  lemma EscapeCharInjective(c: char, d: char)
    requires EscapeChar(c) == EscapeChar(d)
    ensures c == d
  {
    var e, f := EscapeChar(c), EscapeChar(d);
    assert e[0] == f[0] && |e| == |f|;
    if |e| == 2 {
      assert e[1] == f[1];
    } else if |e| == 6 {
      assert e[2..] == Hex4(c as int) && f[2..] == Hex4(d as int);
      Hex4RoundTrip(c as int);
      Hex4RoundTrip(d as int);
    } else if |e| == 12 {
      assert e[2..6] == Hex4(High(c)) && f[2..6] == Hex4(High(d));
      assert e[8..] == Hex4(Low(c)) && f[8..] == Hex4(Low(d));
      Hex4RoundTrip(High(c));
      Hex4RoundTrip(High(d));
      Hex4RoundTrip(Low(c));
      Hex4RoundTrip(Low(d));
    }
  }

  // ---------------------------------------------------------------- injectivity

  /** Two equal texts with first parts of equal length have equal parts. */
  lemma SplitSame(a: string, b: string, x: string, y: string)
    requires a + x == b + y && |a| == |b|
    ensures a == b && x == y
  {
    assert a == (a + x)[..|a|] && b == (b + y)[..|b|];
    assert x == (a + x)[|a|..] && y == (b + y)[|b|..];
  }

  lemma Uncons(c: char, d: char, x: string, y: string)
    requires [c] + x == [d] + y
    ensures c == d && x == y
  {
    SplitSame([c], [d], x, y);
    assert [c][0] == [d][0];
  }

  lemma CharPrefix(c: char, d: char, x: string, y: string)
    requires EscapeChar(c) + x == EscapeChar(d) + y
    ensures c == d && x == y
  {
    EscapeLengthCorrect(c, x);
    EscapeLengthCorrect(d, y);
    SplitSame(EscapeChar(c), EscapeChar(d), x, y);
    EscapeCharInjective(c, d);
  }

  lemma EscapeStart(s: string, x: string)
    ensures var t := Escape(s, ['\"'] + x);
      t != "" && (t[0] == '\"' <==> s == "")
  {}

  lemma {:induction false} EscapePrefix(s: string, t: string, x: string, y: string)
    requires Escape(s, ['\"'] + x) == Escape(t, ['\"'] + y)
    ensures s == t && x == y
    decreases |s|
  {
    EscapeStart(s, x);
    EscapeStart(t, y);
    if s == "" {
      Uncons('\"', '\"', x, y);
    } else {
      CharPrefix(s[0], t[0], Escape(s[1..], ['\"'] + x), Escape(t[1..], ['\"'] + y));
      EscapePrefix(s[1..], t[1..], x, y);
    }
  }

  lemma QuotePrefix(s: string, t: string, x: string, y: string)
    requires Quote(s, x) == Quote(t, y)
    ensures s == t && x == y
  {
    Uncons('\"', '\"', Escape(s, ['\"'] + x), Escape(t, ['\"'] + y));
    EscapePrefix(s, t, x, y);
  }

  /** Text that cannot continue a number. */
  predicate Delimited(x: string) {
    x == "" || !NumeralChar(x[0])
  }

  function NumeralLength(t: string): nat {
    if t == "" || !NumeralChar(t[0]) then 0 else 1 + NumeralLength(t[1..])
  }

  lemma {:induction false} NumeralLengthCorrect(m: string, x: string)
    requires Delimited(x) && forall c :: c in m ==> NumeralChar(c)
    ensures NumeralLength(m + x) == |m|
  {
    if m == "" {
      assert m + x == x;
    } else {
      assert (m + x)[1..] == m[1..] + x && m[0] in m;
      NumeralLengthCorrect(m[1..], x);
    }
  }

  lemma NumeralPrefix(m: Numeral, n: Numeral, x: string, y: string)
    requires m + x == n + y && Delimited(x) && Delimited(y)
    ensures m == n && x == y
  {
    NumeralLengthCorrect(m, x);
    NumeralLengthCorrect(n, y);
    SplitSame(m, n, x, y);
  }

  /** What the first character of a printed value says about it. */
  predicate StartsLike(c: char, j: Json) {
    match j
    case Null => c == 'n'
    case Bool(b) => c == if b then 't' else 'f'
    case Number(_) => NumeralChar(c)
    case Text(_) => c == '\"'
    case Array(_) => c == '['
    case Object(_) => c == '{'
  }

  lemma FirstChar(j: Json, rest: string)
    ensures Print(j, rest) != "" && StartsLike(Print(j, rest)[0], j)
  {
    if j.Number? {
      assert j.literal[0] in j.literal;
    }
  }

  lemma SameKind(a: Json, b: Json, x: string, y: string)
    requires Print(a, x) == Print(b, y)
    ensures match a
      case Null => b.Null?
      case Bool(p) => b == a
      case Number(_) => b.Number?
      case Text(_) => b.Text?
      case Array(_) => b.Array?
      case Object(_) => b.Object?
  {
    FirstChar(a, x);
    FirstChar(b, y);
  }

  lemma {:induction false} ValuePrefix(a: Json, b: Json, x: string, y: string)
    requires Print(a, x) == Print(b, y) && Delimited(x) && Delimited(y)
    ensures a == b && x == y
    decreases a, 1
  {
    SameKind(a, b, x, y);
    match a
    case Null => SplitSame("null", "null", x, y);
    case Bool(p) => var w := if p then "true" else "false"; SplitSame(w, w, x, y);
    case Number(m) => NumeralPrefix(m, b.literal, x, y);
    case Text(s) => QuotePrefix(s, b.s, x, y);
    case Array(items) => ArrayPrefix(items, b.items, x, y);
    case Object(fields) => ObjectPrefix(fields, b.fields, x, y);
  }

  lemma ItemsDelimited(items: seq<Json>, rest: string)
    ensures Delimited(PrintItems(items, rest))
  {}

  lemma FieldsDelimited(fields: seq<Field>, rest: string)
    ensures Delimited(PrintFields(fields, rest))
  {}

  lemma {:induction false} ArrayPrefix(items: seq<Json>, others: seq<Json>, x: string, y: string)
    requires Print(Array(items), x) == Print(Array(others), y)
    ensures items == others && x == y
    decreases items, 1
  {
    var left := if items == [] then [']'] + x else Print(items[0], PrintItems(items[1..], x));
    var right := if others == [] then [']'] + y else Print(others[0], PrintItems(others[1..], y));
    Uncons('[', '[', left, right);
    if items != [] { FirstChar(items[0], PrintItems(items[1..], x)); }
    if others != [] { FirstChar(others[0], PrintItems(others[1..], y)); }
    if items == [] || others == [] {
      Uncons(']', ']', x, y);
    } else {
      ItemsDelimited(items[1..], x);
      ItemsDelimited(others[1..], y);
      ValuePrefix(items[0], others[0], PrintItems(items[1..], x), PrintItems(others[1..], y));
      ItemsPrefix(items[1..], others[1..], x, y);
    }
  }

  lemma {:induction false} ItemsPrefix(items: seq<Json>, others: seq<Json>, x: string, y: string)
    requires PrintItems(items, x) == PrintItems(others, y)
    ensures items == others && x == y
    decreases items, 0
  {
    assert PrintItems(items, x)[0] == PrintItems(others, y)[0];
    if items == [] || others == [] {
      Uncons(']', ']', x, y);
    } else {
      var x', y' := PrintItems(items[1..], x), PrintItems(others[1..], y);
      Uncons(',', ',', Print(items[0], x'), Print(others[0], y'));
      ItemsDelimited(items[1..], x);
      ItemsDelimited(others[1..], y);
      ValuePrefix(items[0], others[0], x', y');
      ItemsPrefix(items[1..], others[1..], x, y);
    }
  }

  lemma {:induction false} FieldPrefix(f: Field, g: Field, x: string, y: string)
    requires PrintField(f, x) == PrintField(g, y) && Delimited(x) && Delimited(y)
    ensures f == g && x == y
    decreases f, 2
  {
    QuotePrefix(f.key, g.key, [':'] + Print(f.value, x), [':'] + Print(g.value, y));
    Uncons(':', ':', Print(f.value, x), Print(g.value, y));
    ValuePrefix(f.value, g.value, x, y);
  }

  lemma {:induction false} ObjectPrefix(fields: seq<Field>, others: seq<Field>, x: string, y: string)
    requires Print(Object(fields), x) == Print(Object(others), y)
    ensures fields == others && x == y
    decreases fields, 1
  {
    var left := if fields == [] then ['}'] + x else PrintField(fields[0], PrintFields(fields[1..], x));
    var right := if others == [] then ['}'] + y else PrintField(others[0], PrintFields(others[1..], y));
    Uncons('{', '{', left, right);
    assert left[0] == right[0];
    if fields == [] || others == [] {
      Uncons('}', '}', x, y);
    } else {
      FieldsDelimited(fields[1..], x);
      FieldsDelimited(others[1..], y);
      FieldPrefix(fields[0], others[0], PrintFields(fields[1..], x), PrintFields(others[1..], y));
      FieldsPrefix(fields[1..], others[1..], x, y);
    }
  }

  lemma {:induction false} FieldsPrefix(fields: seq<Field>, others: seq<Field>, x: string, y: string)
    requires PrintFields(fields, x) == PrintFields(others, y)
    ensures fields == others && x == y
    decreases fields, 0
  {
    assert PrintFields(fields, x)[0] == PrintFields(others, y)[0];
    if fields == [] || others == [] {
      Uncons('}', '}', x, y);
    } else {
      var x', y' := PrintFields(fields[1..], x), PrintFields(others[1..], y);
      Uncons(',', ',', PrintField(fields[0], x'), PrintField(others[0], y'));
      FieldsDelimited(fields[1..], x);
      FieldsDelimited(others[1..], y);
      FieldPrefix(fields[0], others[0], x', y');
      FieldsPrefix(fields[1..], others[1..], x, y);
    }
  }

  function Canonical(j: Json): string {
    Print(j, "")
  }

  /** The canonical text determines the value. */
  lemma CanonicalInjective(a: Json, b: Json)
    requires Canonical(a) == Canonical(b)
    ensures a == b
  {
    ValuePrefix(a, b, "", "");
  }
}
