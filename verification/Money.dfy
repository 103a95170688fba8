/**
  Rupee amounts in Indian grouping: three digits, then pairs. Paise are rounded to whole
  rupees exactly, ties to even; the binary quotient the program rounds is not modelled.
 */
module Money {
  import opened Common
  import opened Decimal

  const RUPEE := '\U{20B9}'

  // ---------------------------------------------------------------- what grouping means

  /** The text without its commas. */
  function Plain(s: string): string {
    if s == "" then ""
    else if s[|s| - 1] == ',' then Plain(s[..|s| - 1])
    else Plain(s[..|s| - 1]) + [s[|s| - 1]]
  }

  function FromRight(s: string, j: nat): char
    requires j < |s|
  {
    s[|s| - 1 - j]
  }

  predicate CommaAt(j: nat) { j >= 3 && j % 3 == 0 }

  /** Counting characters from the right, commas stand at 3, 6, 9 and so on, and nowhere else. */
  ghost predicate IndianCommas(s: string) {
    s != "" && s[0] != ',' && forall j :: 0 <= j < |s| ==> (FromRight(s, j) == ',' <==> CommaAt(j))
  }

  // ---------------------------------------------------------------- the grouping

  function GroupPairs(head: string): string {
    if |head| <= 2 then head else GroupPairs(head[..|head| - 2]) + "," + head[|head| - 2..]
  }

  function Group(s: string): string {
    if |s| <= 3 then s else GroupPairs(s[..|s| - 3]) + "," + s[|s| - 3..]
  }

  function Magnitude(n: int): nat { if n < 0 then -n else n }

  /** The nearest whole number of rupees, the even one of two. */
  function Rupees(paise: int): int {
    var q, r := paise / 100, paise % 100;
    if r < 50 || (r == 50 && q % 2 == 0) then q else q + 1
  }

  lemma RupeesExactly(paise: int, n: int)
    ensures Rupees(paise) == n <==>
      -50 < 100 * n - paise < 50 || (n % 2 == 0 && (100 * n - paise == 50 || 100 * n - paise == -50))
  {
    var q, r := paise / 100, paise % 100;
    assert paise == 100 * q + r && 0 <= r < 100;
  }

  function Format(n: int): string {
    (if n < 0 then "-" else "") + [RUPEE] + Group(Digits(Magnitude(n)))
  }

  function Join(parts: seq<string>): string {
    if parts == [] then ""
    else if |parts| == 1 then parts[0]
    else parts[0] + "," + Join(parts[1..])
  }

  lemma {:induction false} JoinSnoc(parts: seq<string>, last: string)
    requires parts != []
    ensures Join(parts + [last]) == Join(parts) + "," + last
  {
    if |parts| > 1 {
      JoinSnoc(parts[1..], last);
      assert (parts + [last])[1..] == parts[1..] + [last];
    }
  }

  /** Splits off pairs from the right, then joins them before the last three digits. */
  method GroupDigits(s: string) returns (text: string)
    ensures text == Group(s)
  {
    if |s| <= 3 {
      return s;
    }
    var head, tail := s[..|s| - 3], s[|s| - 3..];
    var parts: seq<string> := [];
    ghost var whole := head;
    while |head| > 2
      invariant head != ""
      invariant GroupPairs(whole) == if parts == [] then GroupPairs(head) else GroupPairs(head) + "," + Join(parts)
    {
      parts := [head[|head| - 2..]] + parts;
      head := head[..|head| - 2];
    }
    if head != "" {
      parts := [head] + parts;
    }
    assert Join(parts) == GroupPairs(whole);
    JoinSnoc(parts, tail);
    text := Join(parts + [tail]);
  }

  method FormatInr(paise: int) returns (text: string)
    ensures text == Format(Rupees(paise))
  {
    var n := Rupees(paise);
    var grouped := GroupDigits(Digits(if n < 0 then -n else n));
    text := (if n < 0 then "-" else "") + [RUPEE] + grouped;
  }

  // ---------------------------------------------------------------- the properties

  lemma PlainSnoc(s: string, c: char)
    ensures Plain(s + [c]) == if c == ',' then Plain(s) else Plain(s) + [c]
  {
    assert (s + [c])[..|s|] == s;
  }

  lemma {:induction false} PlainAppend(s: string, digits: string)
    requires ',' !in digits
    ensures Plain(s + digits) == Plain(s) + digits
  {
    if digits == "" {
      assert s + digits == s;
    } else {
      var init, c := digits[..|digits| - 1], digits[|digits| - 1];
      assert s + digits == (s + init) + [c];
      PlainAppend(s, init);
      PlainSnoc(s + init, c);
    }
  }

  lemma PlainGroup(s: string, digits: string)
    requires ',' !in digits
    ensures Plain(s + "," + digits) == Plain(s) + digits
  {
    PlainSnoc(s, ',');
    PlainAppend(s + ",", digits);
  }

  lemma PlainOfDigits(s: string)
    requires ',' !in s
    ensures Plain(s) == s
  {
    PlainAppend("", s);
    assert "" + s == s;
  }

  lemma {:induction false} PlainOfPairs(head: string)
    requires ',' !in head
    ensures Plain(GroupPairs(head)) == head
  {
    if |head| <= 2 {
      PlainOfDigits(head);
    } else {
      PlainOfPairs(head[..|head| - 2]);
      PlainGroup(GroupPairs(head[..|head| - 2]), head[|head| - 2..]);
    }
  }

  /** Dropping the commas gives back the digits. */
  lemma PlainOfGroup(s: string)
    requires ',' !in s
    ensures Plain(Group(s)) == s
  {
    if |s| <= 3 {
      PlainOfDigits(s);
    } else {
      PlainOfPairs(s[..|s| - 3]);
      PlainGroup(GroupPairs(s[..|s| - 3]), s[|s| - 3..]);
    }
  }

  /** A text whose commas go on as the Indian ones do, `k` characters from the right. */
  ghost predicate CommasFrom(s: string, k: nat) {
    forall j :: 0 <= j < |s| ==> (FromRight(s, j) == ',' <==> CommaAt(j + k))
  }

  /** Prepending a text whose commas continue the pattern of a suffix. */
  lemma CommasConcat(s: string, t: string, k: nat)
    requires CommasFrom(t, k) && CommasFrom(s, k + |t|)
    ensures CommasFrom(s + t, k)
  {
    forall j | 0 <= j < |s + t| ensures FromRight(s + t, j) == ',' <==> CommaAt(j + k) {
      if j < |t| {
        assert FromRight(s + t, j) == FromRight(t, j);
      } else {
        assert FromRight(s + t, j) == FromRight(s, j - |t|);
      }
    }
  }

  /** A short group, and one with its comma, at a place where the pattern repeats. */
  lemma ShortGroup(digits: string, q: nat)
    requires |digits| <= 2 && ',' !in digits
    ensures CommasFrom(digits, 3 * q + 1)
    ensures |digits| == 2 ==> CommasFrom("," + digits, 3 * q + 1)
  {
    assert (3 * q + 1) % 3 == 1 && (3 * q + 2) % 3 == 2 && (3 * q + 3) % 3 == 0;
  }

  lemma {:induction false} PairCommas(head: string, q: nat)
    requires ',' !in head && head != ""
    ensures GroupPairs(head) != "" && GroupPairs(head)[0] != ',' && CommasFrom(GroupPairs(head), 3 * q + 1)
  {
    if |head| <= 2 {
      ShortGroup(head, q);
    } else {
      var init, pair := head[..|head| - 2], head[|head| - 2..];
      PairCommas(init, q + 1);
      ShortGroup(pair, q);
      CommasConcat(GroupPairs(init), "," + pair, 3 * q + 1);
      assert GroupPairs(head) == GroupPairs(init) + ("," + pair);
    }
  }

  /** The last group has three digits, the middle ones two, the first one or two. */
  lemma GroupShape(s: string)
    requires s != "" && ',' !in s
    ensures IndianCommas(Group(s))
  {
    if |s| > 3 {
      PairCommas(s[..|s| - 3], 1);
      CommasConcat(GroupPairs(s[..|s| - 3]), "," + s[|s| - 3..], 0);
      assert Group(s) == GroupPairs(s[..|s| - 3]) + ("," + s[|s| - 3..]);
    }
    assert CommasFrom(Group(s), 0);
  }

  lemma CommasInit(s: string, k: nat)
    requires s != "" && CommasFrom(s, k)
    ensures CommasFrom(s[..|s| - 1], k + 1) && (s[|s| - 1] == ',' <==> CommaAt(k))
  {
    var init := s[..|s| - 1];
    assert FromRight(s, 0) == s[|s| - 1];
    forall j | 0 <= j < |init| ensures FromRight(init, j) == ',' <==> CommaAt(j + (k + 1)) {
      assert FromRight(init, j) == FromRight(s, j + 1);
    }
  }

  lemma {:induction false} OnlyCommas(s: string)
    requires Plain(s) == "" && s != ""
    ensures s[0] == ','
  {
    if |s| > 1 {
      OnlyCommas(s[..|s| - 1]);
    }
  }

  lemma SamePlainInit(a: string, b: string)
    requires a != "" && b != "" && Plain(a) == Plain(b) && (a[|a| - 1] == ',' <==> b[|b| - 1] == ',')
    ensures Plain(a[..|a| - 1]) == Plain(b[..|b| - 1]) && a[|a| - 1] == b[|b| - 1]
  {
    if a[|a| - 1] != ',' {
      var n := |Plain(a)| - 1;
      assert Plain(a[..|a| - 1]) == Plain(a)[..n] && Plain(b[..|b| - 1]) == Plain(b)[..n];
      assert a[|a| - 1] == Plain(a)[n] && b[|b| - 1] == Plain(b)[n];
    }
  }

  /** Comma positions and digits determine the text: there is only one Indian grouping. */
  lemma {:induction false} GroupingUnique(a: string, b: string, k: nat)
    requires Plain(a) == Plain(b) && CommasFrom(a, k) && CommasFrom(b, k)
    requires (a != "" ==> a[0] != ',') && (b != "" ==> b[0] != ',')
    ensures a == b
    decreases |a| + |b|
  {
    if a == "" {
      if b != "" {
        OnlyCommas(b);
      }
    } else if b == "" {
      OnlyCommas(a);
    } else {
      CommasInit(a, k);
      CommasInit(b, k);
      SamePlainInit(a, b);
      GroupingUnique(a[..|a| - 1], b[..|b| - 1], k + 1);
      assert a == a[..|a| - 1] + [a[|a| - 1]] && b == b[..|b| - 1] + [b[|b| - 1]];
    }
  }

  /** Any text with these digits and Indian commas is the one the printer produces. */
  lemma GroupIsTheOnly(s: string, text: string)
    requires s != "" && ',' !in s && Plain(text) == s && IndianCommas(text)
    ensures text == Group(s)
  {
    GroupShape(s);
    PlainOfGroup(s);
    assert CommasFrom(text, 0) && CommasFrom(Group(s), 0);
    GroupingUnique(text, Group(s), 0);
  }

  // ---------------------------------------------------------------- round trip

  predicate Numeral(s: string) { forall c :: c in s ==> IsDigit(c) }

  function ParseMagnitude(text: string): Option<int> {
    if text == "" || text[0] != RUPEE || !Numeral(Plain(text[1..])) then None else Some(Value(Plain(text[1..])))
  }

  /** Reads an amount back: the sign, the symbol, and the digits once the commas are dropped. */
  function Parse(text: string): Option<int> {
    if text == "" || text[0] != '-' then ParseMagnitude(text)
    else match ParseMagnitude(text[1..])
      case None => None
      case Some(n) => Some(-n)
  }

  lemma ParseOfGroup(n: nat)
    ensures ParseMagnitude([RUPEE] + Group(Digits(n))) == Some(n)
  {
    PlainOfGroup(Digits(n));
    ValueOfDigits(n);
    assert ([RUPEE] + Group(Digits(n)))[1..] == Group(Digits(n));
  }

  /** Reading back what was printed gives the same amount, whatever its sign and size. */
  lemma RoundTrip(n: int)
    ensures Parse(Format(n)) == Some(n)
  {
    var body := [RUPEE] + Group(Digits(Magnitude(n)));
    ParseOfGroup(Magnitude(n));
    if n < 0 {
      assert Format(n) == "-" + body && Format(n)[1..] == body;
    } else {
      assert Format(n) == body;
    }
  }

  // ---------------------------------------------------------------- what is printed

  /** Symbol, digits in Indian grouping, no leading zero; a minus sign only before a number that is not zero. */
  ghost predicate Canonical(text: string) {
    text != "" && if text[0] == '-' then CanonicalBody(text[1..], true) else CanonicalBody(text, false)
  }

  ghost predicate CanonicalBody(body: string, negative: bool) {
    && body != "" && body[0] == RUPEE && IndianCommas(body[1..])
    && Numeral(Plain(body[1..])) && PlainDigits(Plain(body[1..]), negative)
  }

  predicate PlainDigits(s: string, negative: bool) {
    s != "" && (s[0] == '0' ==> |s| == 1 && !negative)
  }

  /** The digits of a number as they are printed. */
  lemma DigitsAreCanonical(n: nat)
    ensures CanonicalBody([RUPEE] + Group(Digits(n)), n > 0)
  {
    assert |Digits(0)| == 1;
    hide Digits, Group, Plain, IndianCommas;
    GroupShape(Digits(n));
    PlainOfGroup(Digits(n));
    assert ([RUPEE] + Group(Digits(n)))[1..] == Group(Digits(n));
    if n > 0 {
      NoLeadingZero(n);
    }
  }

  lemma PrintedIsCanonical(n: int)
    ensures Canonical(Format(n))
  {
    hide Digits, Group, CanonicalBody;
    var body := [RUPEE] + Group(Digits(Magnitude(n)));
    DigitsAreCanonical(Magnitude(n));
    if n < 0 {
      assert Format(n) == "-" + body && Format(n)[1..] == body;
    } else {
      assert Format(n) == body;
      NotNegative(body, n > 0);
    }
  }

  lemma NotNegative(body: string, negative: bool)
    requires CanonicalBody(body, negative)
    ensures CanonicalBody(body, false)
  {}

  lemma GroupedDigits(body: string, negative: bool) returns (m: nat)
    requires CanonicalBody(body, negative)
    ensures body == [RUPEE] + Group(Digits(m)) && ParseMagnitude(body) == Some(m) && (negative ==> m > 0)
  {
    var digits := Plain(body[1..]);
    m := Value(digits);
    DigitsOfValue(digits);
    GroupIsTheOnly(digits, body[1..]);
    assert body == [RUPEE] + body[1..];
  }

  lemma FormatOfMagnitude(m: nat)
    ensures Format(m) == [RUPEE] + Group(Digits(m))
    ensures m > 0 ==> Format(0 - m) == "-" + ([RUPEE] + Group(Digits(m)))
  {
    assert Magnitude(m) == m && Magnitude(0 - m) == m;
    assert "" + [RUPEE] == [RUPEE] && "-" + [RUPEE] + Group(Digits(m)) == "-" + ([RUPEE] + Group(Digits(m)));
  }

  lemma ParseSigned(body: string, m: nat)
    requires ParseMagnitude(body) == Some(m)
    ensures Parse(body) == Some(m) && Parse("-" + body) == Some(0 - m)
  {
    assert ("-" + body)[1..] == body && RUPEE != '-';
  }

  /** What a canonical text reads as, and that it is the printed form of it. */
  lemma CanonicalIsPrinted(text: string)
    requires Canonical(text)
    ensures Parse(text).Some? && text == Format(Parse(text).value)
  {
    var body := if text[0] == '-' then text[1..] else text;
    var m := GroupedDigits(body, text[0] == '-');
    FormatOfMagnitude(m);
    ParseSigned(body, m);
    assert text[0] == '-' ==> text == "-" + body;
  }

  /** The printed texts are exactly the canonical ones, each printing the amount it reads as. */
  lemma PrintedExactly(text: string, n: int)
    ensures text == Format(n) <==> Canonical(text) && Parse(text) == Some(n)
  {
    if text == Format(n) {
      PrintedIsCanonical(n);
      RoundTrip(n);
    } else if Canonical(text) {
      CanonicalIsPrinted(text);
    }
  }
}
