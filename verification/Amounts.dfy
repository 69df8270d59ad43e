/** Printing amounts with thousands separators and reading them back
    (`fmt_master_amount`, `parse_master_filter_amount` and `parse_diesel_number`). */
module Amounts {
  import opened Ascii
  import opened Mongo
  import opened Words
  import opened Layout
  import opened Decimal

  // ---------------------------------------------------------------- printing

  /** `{:,}` on a natural number. */
  function Grouped(n: nat): string {
    if n < 1000 then Print(n) else Grouped(n / 1000) + ("," + Three(n % 1000))
  }

  /** `{:03d}` and `{:02d}`. */
  function Three(n: nat): (s: string)
    ensures |s| == 3 && AllDigits(s)
  {
    Padded(n, 3)
  }

  function Two(n: nat): (s: string)
    ensures |s| == 2 && AllDigits(s)
  {
    Padded(n, 2)
  }

  function Sign(n: int): string { if n < 0 then "-" else "" }

  /** `{:,.0f}` of a whole amount. */
  function FormatWhole(n: int): string { Sign(n) + Grouped(Abs(n)) }

  /** `{:,.2f}` of an amount given in cents. */
  function FormatCents(n: int): string {
    Sign(n) + (Grouped(Abs(n) / 100) + ("." + Two(Abs(n) % 100)))
  }

  // ---------------------------------------------------------------- reading

  /** A decimal number: `units` times ten to the power of minus `scale`. */
  datatype Quantity = Number(units: int, scale: nat)

  function Without(s: string, c: char): string {
    if s == "" then "" else (if s[0] == c then "" else [s[0]]) + Without(s[1..], c)
  }

  function CountOf(s: string, c: char): nat {
    if s == "" then 0 else (if s[0] == c then 1 else 0) + CountOf(s[1..], c)
  }

  /** `partition`: where the first `c` is, or the length. */
  function IndexOf(s: string, c: char): (i: nat)
    ensures i <= |s|
    ensures i < |s| ==> s[i] == c
    ensures forall j | 0 <= j < i :: s[j] != c
  {
    if s == "" || s[0] == c then 0 else 1 + IndexOf(s[1..], c)
  }

  /** `float` on plain decimal text: digits with at most one point and an optional sign. */
  function Unsigned(s: string): Option<Quantity> {
    var i := IndexOf(s, '.');
    var digits := if i < |s| then s[..i] + s[i + 1..] else s;
    if digits == "" || !AllDigits(digits) then None
    else Some(Number(Parse(digits), |digits| - i))
  }

  function Float(s: string): Option<Quantity> {
    if s != "" && s[0] == '-' then
      var v := Unsigned(s[1..]);
      if v.Some? then Some(Number(-v.value.units, v.value.scale)) else None
    else Unsigned(if s != "" && s[0] == '+' then s[1..] else s)
  }

  const PREFIXES := ["TZS", "TSH", "TZ", "USD", "ZMW", "ZK"]

  predicate StartsWith(s: string, prefix: string) { |prefix| <= |s| && s[..|prefix|] == prefix }

  /** The first currency code of the list that the text starts with is cut off. */
  function DropPrefix(s: string, prefixes: seq<string>): string {
    if prefixes == [] then s
    else if StartsWith(Upper(s), prefixes[0]) then Strip(s[|prefixes[0]|..])
    else DropPrefix(s, prefixes[1..])
  }

  function DropCode(s: string): string { DropPrefix(s, PREFIXES) }

  function ParseMasterAmount(value: string): Option<Quantity> {
    var text := Without(Without(Strip(value), ','), ' ');
    if text == "" || text == DASH then None else Float(DropCode(text))
  }

  function ReplaceAll(s: string, c: char, other: char): string {
    seq(|s|, i requires 0 <= i < |s| => if s[i] == c then other else s[i])
  }

  predicate MeansNothing(text: string) {
    text == "" || Lower(text) in ["none", "n/a", "na", "-", DASH]
  }

  /** The comma is a thousands separator or a decimal comma, by what else the text holds. */
  function ResolveCommas(text: string): string {
    if ',' in text && '.' in text then Without(text, ',')
    else if CountOf(text, ',') > 1 then Without(text, ',')
    else if ',' in text then
      if |text| - IndexOf(text, ',') - 1 != 3 then ReplaceAll(text, ',', '.') else Without(text, ',')
    else text
  }

  function ParseDieselNumber(value: string): Option<Quantity> {
    if MeansNothing(Strip(value)) then None
    else Float(ResolveCommas(Without(Without(Strip(value), ' '), '%')))
  }

  // ---------------------------------------------------------------- what is printed

  /** Characters of printed amounts. */
  predicate Plain(s: string) {
    forall i | 0 <= i < |s| :: IsDigit(s[i]) || s[i] == ',' || s[i] == '.' || s[i] == '-'
  }

  lemma {:induction false} WithoutConcat(a: string, b: string, c: char)
    ensures Without(a + b, c) == Without(a, c) + Without(b, c)
    ensures CountOf(a + b, c) == CountOf(a, c) + CountOf(b, c)
    decreases |a|
  {
    if a == "" {
      assert a + b == b;
    } else {
      assert (a + b)[1..] == a[1..] + b;
      WithoutConcat(a[1..], b, c);
    }
  }

  lemma {:induction false} WithoutAbsent(s: string, c: char)
    requires c !in s
    ensures Without(s, c) == s && CountOf(s, c) == 0
  {
    if s != "" {
      assert s[0] in s && forall x | x in s[1..] :: x in s;
      WithoutAbsent(s[1..], c);
      assert s == [s[0]] + s[1..];
    }
  }

  lemma PrintStep(n: nat)
    requires n >= 10
    ensures Print(n) == Print(n / 10) + [DigitChar(n % 10)]
  {
  }

  lemma Quotients(n: nat)
    ensures n / 10 / 10 == n / 100 && n / 100 / 10 == n / 1000
    ensures n % 1000 % 10 == n % 10 && n % 1000 / 10 % 10 == n / 10 % 10 && n % 1000 / 100 % 10 == n / 100 % 10
  {
  }

  lemma PaddedStep(n: nat, width: nat)
    requires width > 0
    ensures Padded(n, width) == Padded(n / 10, width - 1) + [DigitChar(n % 10)]
  {
  }

  lemma ThreeDigits(r: nat)
    ensures Three(r) == [DigitChar(r / 100 % 10)] + [DigitChar(r / 10 % 10)] + [DigitChar(r % 10)]
  {
    Quotients(r);
    PaddedStep(r, 3);
    PaddedStep(r / 10, 2);
    PaddedStep(r / 100, 1);
  }

  lemma Thousand(n: nat)
    requires n >= 1000
    ensures Print(n) == Print(n / 1000) + Three(n % 1000)
  {
    Quotients(n);
    PrintStep(n);
    PrintStep(n / 10);
    PrintStep(n / 100);
    ThreeDigits(n % 1000);
  }

  lemma DigitsHold(s: string, c: char)
    requires AllDigits(s) && !IsDigit(c)
    ensures Without(s, c) == s && CountOf(s, c) == 0 && c !in s
  {
    WithoutAbsent(s, c);
  }

  lemma GroupAdds(head: string, tail: string)
    requires AllDigits(tail)
    ensures Without(head + ("," + tail), ',') == Without(head, ',') + tail
    ensures CountOf(head + ("," + tail), ',') == CountOf(head, ',') + 1
  {
    DigitsHold(tail, ',');
    var rest := "," + tail;
    assert rest[0] == ',' && rest[1..] == tail;
    WithoutConcat(head, rest, ',');
  }

  /** Taking the separators out of a grouped number leaves the number. */
  lemma {:induction false} GroupedDigits(n: nat)
    ensures Without(Grouped(n), ',') == Print(n)
  {
    if n < 1000 {
      DigitsHold(Print(n), ',');
    } else {
      GroupedDigits(n / 1000);
      Thousand(n);
      GroupAdds(Grouped(n / 1000), Three(n % 1000));
    }
  }

  lemma {:induction false} GroupedShape(n: nat)
    ensures Grouped(n) != "" && IsDigit(Grouped(n)[0]) && IsDigit(Grouped(n)[|Grouped(n)| - 1])
    ensures forall i | 0 <= i < |Grouped(n)| :: IsDigit(Grouped(n)[i]) || Grouped(n)[i] == ','
  {
    if n >= 1000 { GroupedShape(n / 1000); }
  }

  /** One comma means exactly three digits after it. */
  lemma {:induction false} GroupedCommas(n: nat)
    ensures n < 1000 ==> ',' !in Grouped(n)
    ensures n >= 1000 ==> CountOf(Grouped(n), ',') >= 1
    ensures n >= 1000000 ==> CountOf(Grouped(n), ',') > 1
    ensures 1000 <= n < 1000000 ==> |Grouped(n)| - IndexOf(Grouped(n), ',') - 1 == 3
  {
    if n < 1000 {
      DigitsHold(Print(n), ',');
    } else {
      GroupedCommas(n / 1000);
      GroupAdds(Grouped(n / 1000), Three(n % 1000));
      if n < 1000000 {
        var head := Grouped(n / 1000);
        assert Grouped(n)[|head|] == ',';
        assert forall i | 0 <= i < |head| :: head[i] in head && Grouped(n)[i] == head[i];
      }
    }
  }

  // ---------------------------------------------------------------- round trips

  function BareUnsigned(n: nat, cents: bool): string {
    if cents then Print(n / 100) + ("." + Two(n % 100)) else Print(n)
  }

  /** Printed text without its separators. */
  function Bare(n: int, cents: bool): string {
    Sign(n) + BareUnsigned(Abs(n), cents)
  }

  function Format(n: int, cents: bool): string {
    if cents then FormatCents(n) else FormatWhole(n)
  }

  lemma FormatIsBare(n: int, cents: bool)
    ensures Without(Format(n, cents), ',') == Bare(n, cents)
  {
    WithoutAbsent(Sign(n), ',');
    if cents {
      var whole, part := Grouped(Abs(n) / 100), "." + Two(Abs(n) % 100);
      GroupedDigits(Abs(n) / 100);
      DigitsHold(Two(Abs(n) % 100), ',');
      WithoutAbsent(part, ',');
      WithoutConcat(whole, part, ',');
      WithoutConcat(Sign(n), whole + part, ',');
    } else {
      GroupedDigits(Abs(n));
      WithoutConcat(Sign(n), Grouped(Abs(n)), ',');
    }
  }

  lemma ParseTwoMore(a: string, c: nat)
    requires AllDigits(a) && c < 100
    ensures AllDigits(a + Two(c)) && Parse(a + Two(c)) == 100 * Parse(a) + c
  {
    var s := a + Two(c);
    assert Padded(c, 2) == Padded(c / 10, 1) + [DigitChar(c % 10)];
    assert Padded(c / 10, 1) == Padded(c / 100, 0) + [DigitChar(c / 10 % 10)];
    assert s[..|s| - 1] == a + [DigitChar(c / 10 % 10)];
    assert (a + [DigitChar(c / 10 % 10)])[..|a|] == a;
  }

  lemma IndexOfPoint(whole: string, part: string)
    requires AllDigits(whole) && AllDigits(part)
    ensures IndexOf(whole + ("." + part), '.') == |whole|
    ensures IndexOf(whole, '.') == |whole|
  {
    assert (whole + ("." + part))[|whole|] == '.';
    assert forall i | 0 <= i < |whole| :: (whole + ("." + part))[i] == whole[i];
  }

  lemma UnsignedWhole(n: nat)
    ensures Unsigned(Print(n)) == Some(Number(n, 0))
  {
    IndexOfPoint(Print(n), "");
    ParsePrint(n);
  }

  lemma UnsignedParts(whole: string, part: string)
    requires whole + part != "" && AllDigits(whole) && AllDigits(part)
    ensures AllDigits(whole + part)
    ensures Unsigned(whole + ("." + part)) == Some(Number(Parse(whole + part), |part|))
  {
    var s := whole + ("." + part);
    IndexOfPoint(whole, part);
    assert s[..|whole|] == whole && s[|whole| + 1..] == part;
  }

  lemma UnsignedReads(n: nat, cents: bool)
    ensures Unsigned(BareUnsigned(n, cents)) == Some(Number(n, if cents then 2 else 0))
  {
    if cents {
      UnsignedParts(Print(n / 100), Two(n % 100));
      ParseTwoMore(Print(n / 100), n % 100);
      ParsePrint(n / 100);
    } else {
      UnsignedWhole(n);
    }
  }

  lemma FloatOfMinus(body: string, units: int, scale: nat)
    requires Unsigned(body) == Some(Number(units, scale))
    ensures Float("-" + body) == Some(Number(-units, scale))
  {
    var s := "-" + body;
    assert s[0] == '-' && s[1..] == body;
  }

  lemma FloatOfBody(body: string)
    requires body != "" && IsDigit(body[0])
    ensures Float(body) == Unsigned(body)
  {
  }

  lemma BareStarts(n: nat, cents: bool)
    ensures BareUnsigned(n, cents) != "" && IsDigit(BareUnsigned(n, cents)[0])
  {
  }

  lemma FloatReads(n: int, cents: bool)
    ensures Float(Bare(n, cents)) == Some(Number(n, if cents then 2 else 0))
  {
    var body := BareUnsigned(Abs(n), cents);
    UnsignedReads(Abs(n), cents);
    if n < 0 {
      FloatOfMinus(body, Abs(n), if cents then 2 else 0);
      assert Bare(n, cents) == "-" + body;
    } else {
      BareStarts(n, cents);
      FloatOfBody(body);
      assert Bare(n, cents) == body;
    }
  }

  /** Printed amounts start and end like numbers and hold no letters or blanks. */
  lemma FormatShape(n: int, cents: bool)
    ensures var s := Format(n, cents);
      && Plain(s) && s != "" && IsDigit(s[|s| - 1]) && (IsDigit(s[0]) || (s[0] == '-' && |s| >= 2 && IsDigit(s[1])))
  {
    if cents { CentsShape(n); } else { WholeShape(n); }
  }

  lemma WholeShape(n: int)
    ensures var s := FormatWhole(n);
      && Plain(s) && s != "" && IsDigit(s[|s| - 1]) && (IsDigit(s[0]) || (s[0] == '-' && |s| >= 2 && IsDigit(s[1])))
  {
    GroupedShape(Abs(n));
  }

  lemma CentsShape(n: int)
    ensures var s := FormatCents(n);
      && Plain(s) && s != "" && IsDigit(s[|s| - 1]) && (IsDigit(s[0]) || (s[0] == '-' && |s| >= 2 && IsDigit(s[1])))
  {
    GroupedShape(Abs(n) / 100);
  }

  lemma {:induction false} NoPrefix(s: string, prefixes: seq<string>)
    requires s != "" && (IsDigit(s[0]) || s[0] == '-')
    requires forall i | 0 <= i < |prefixes| :: prefixes[i] != "" && IsUpper(prefixes[i][0])
    ensures DropPrefix(s, prefixes) == s
  {
    if prefixes != [] {
      assert Upper(s)[0] == s[0] && prefixes[0][0] != s[0];
      NoPrefix(s, prefixes[1..]);
    }
  }

  lemma NoCode(s: string)
    requires s != "" && (IsDigit(s[0]) || s[0] == '-')
    ensures DropCode(s) == s
  {
    NoPrefix(s, PREFIXES);
  }

  lemma PlainHasNoBlank(s: string)
    requires Plain(s)
    ensures ' ' !in s && '%' !in s
    ensures s != "" ==> Strip(s) == s
  {
  }

  lemma BareShape(n: int, cents: bool)
    ensures var s := Bare(n, cents);
      Plain(s) && s != "" && (IsDigit(s[0]) || s[0] == '-') && ' ' !in s && s != DASH
  {
    var s := Bare(n, cents);
    var body := BareUnsigned(Abs(n), cents);
    assert IsDigit(body[0]) && Plain(body);
  }

  /** `parse_master_filter_amount` reads back every whole amount and every amount in cents
      exactly as `fmt_master_amount` printed it. */
  lemma MasterReadsBack(n: int, cents: bool)
    ensures ParseMasterAmount(Format(n, cents)) == Some(Number(n, if cents then 2 else 0))
  {
    var s := Format(n, cents);
    FormatShape(n, cents);
    PlainHasNoBlank(s);
    FormatIsBare(n, cents);
    BareShape(n, cents);
    WithoutAbsent(Bare(n, cents), ' ');
    NoCode(Bare(n, cents));
    FloatReads(n, cents);
  }

  /** Each comma and point rule of `parse_diesel_number` only ever drops separators from
      a printed amount. */
  lemma CommasResolve(n: int, cents: bool)
    ensures ResolveCommas(Format(n, cents)) == Bare(n, cents)
  {
    var s := Format(n, cents);
    FormatIsBare(n, cents);
    if ',' !in s {
      WithoutAbsent(s, ',');
    } else if cents {
      assert s[|Sign(n)| + |Grouped(Abs(n) / 100)|] == '.';
    } else {
      WholeCommas(n);
    }
  }

  lemma WholeCommas(n: int)
    requires ',' in FormatWhole(n)
    ensures CountOf(FormatWhole(n), ',') > 1
      || |FormatWhole(n)| - IndexOf(FormatWhole(n), ',') - 1 == 3
  {
    var body := Grouped(Abs(n));
    GroupedCommas(Abs(n));
    WithoutAbsent(Sign(n), ',');
    WithoutConcat(Sign(n), body, ',');
    if n < 0 { assert FormatWhole(n)[1..] == body; } else { assert FormatWhole(n) == body; }
  }

  lemma NotNothing(s: string)
    requires s != "" && (IsDigit(s[0]) || (s[0] == '-' && |s| >= 2))
    ensures !MeansNothing(s)
  {
    assert Lower(s)[0] == s[0] && |Lower(s)| == |s|;
  }

  /** `parse_diesel_number` reads printed amounts back through every branch. */
  lemma DieselReadsBack(n: int, cents: bool)
    ensures ParseDieselNumber(Format(n, cents)) == Some(Number(n, if cents then 2 else 0))
  {
    var s := Format(n, cents);
    FormatShape(n, cents);
    PlainHasNoBlank(s);
    NotNothing(s);
    WithoutAbsent(s, ' ');
    WithoutAbsent(s, '%');
    CommasResolve(n, cents);
    FloatReads(n, cents);
  }

  // ---------------------------------------------------------------- other texts

  /** Digits with at most one point among them. */
  predicate Numeral(s: string, whole: string, part: string) {
    && AllDigits(whole) && AllDigits(part) && whole + part != ""
    && (s == whole + ("." + part) || (s == whole && part == ""))
  }

  lemma NumeralIsRead(s: string, whole: string, part: string)
    requires Numeral(s, whole, part)
    ensures Unsigned(s) == Some(Number(Parse(whole + part), |part|))
  {
    if s == whole + ("." + part) {
      UnsignedParts(whole, part);
    } else {
      assert whole + part == whole;
      WholeIsRead(whole);
    }
  }

  lemma WholeIsRead(s: string)
    requires s != "" && AllDigits(s)
    ensures Unsigned(s) == Some(Number(Parse(s), 0))
  {
    IndexOfPoint(s, "");
  }

  lemma ReadIsNumeral(s: string)
    requires Unsigned(s).Some?
    ensures exists whole, part :: Numeral(s, whole, part)
  {
    var i := IndexOf(s, '.');
    if i < |s| {
      PointAt(s, i);
      SplitDigits(s[..i], s[i + 1..]);
      assert Numeral(s, s[..i], s[i + 1..]);
    } else {
      WholeNumeral(s);
    }
  }

  lemma WholeNumeral(s: string)
    requires s != "" && AllDigits(s)
    ensures Numeral(s, s, "")
  {
    assert s + "" == s;
  }

  lemma PointAt(s: string, i: nat)
    requires i < |s| && s[i] == '.'
    ensures s == s[..i] + ("." + s[i + 1..])
  {
  }

  lemma SplitDigits(a: string, b: string)
    ensures AllDigits(a + b) <==> AllDigits(a) && AllDigits(b)
  {
    if AllDigits(a + b) {
      forall i | 0 <= i < |a| ensures IsDigit(a[i]) { assert (a + b)[i] == a[i]; }
      forall i | 0 <= i < |b| ensures IsDigit(b[i]) { assert (a + b)[|a| + i] == b[i]; }
    }
  }

  /** A text is a number exactly when it is a numeral, with a sign or without. */
  lemma FloatExactly(s: string)
    ensures Float(s).Some? <==>
      exists whole, part :: Numeral(s, whole, part)
        || (s != "" && (s[0] == '-' || s[0] == '+') && Numeral(s[1..], whole, part))
  {
    var body := if s != "" && (s[0] == '-' || s[0] == '+') then s[1..] else s;
    forall whole, part
      ensures Numeral(body, whole, part) ==> Unsigned(body).Some?
      ensures Numeral(s, whole, part) ==> body == s
    {
      if Numeral(body, whole, part) { NumeralIsRead(body, whole, part); }
      if Numeral(s, whole, part) && s[0] == '.' { assert s[0] != '-'; }
      if Numeral(s, whole, part) && whole != "" { assert s[0] == whole[0]; }
    }
    if Unsigned(body).Some? { ReadIsNumeral(body); }
  }

  /** Digits, commas and points, with a digit at either end. */
  predicate NumberChars(s: string) {
    s != "" && IsDigit(s[0]) && IsDigit(s[|s| - 1])
    && forall i | 0 <= i < |s| :: IsDigit(s[i]) || s[i] == ',' || s[i] == '.'
  }

  lemma NumberText(s: string)
    requires NumberChars(s)
    ensures ParseDieselNumber(s) == Float(ResolveCommas(s))
  {
    assert Strip(s) == s;
    WithoutAbsent(s, ' ');
    WithoutAbsent(s, '%');
    NotNothing(s);
  }

  lemma CommaFirst(b: string)
    ensures Without("," + b, ',') == Without(b, ',') && CountOf("," + b, ',') == 1 + CountOf(b, ',')
  {
    assert ("," + b)[0] == ',' && ("," + b)[1..] == b;
  }

  lemma CommaAt(a: string, b: string)
    requires AllDigits(a)
    ensures ',' in a + ("," + b) && IndexOf(a + ("," + b), ',') == |a|
  {
    var s := a + ("," + b);
    assert s[|a|] == ',';
    assert forall i | 0 <= i < |a| :: s[i] == a[i];
  }

  lemma Commas(a: string, b: string)
    requires AllDigits(a)
    ensures Without(a + ("," + b), ',') == a + Without(b, ',')
    ensures CountOf(a + ("," + b), ',') == 1 + CountOf(b, ',')
  {
    DigitsHold(a, ',');
    CommaFirst(b);
    WithoutConcat(a, "," + b, ',');
  }

  lemma FloatOfDigits(s: string, whole: string, part: string)
    requires whole != "" && Numeral(s, whole, part)
    ensures Float(s) == Some(Number(Parse(whole + part), |part|))
  {
    NumeralIsRead(s, whole, part);
    assert s[0] == whole[0];
    FloatOfBody(s);
  }

  /** A comma alone in a number is a separator when three digits follow it, and otherwise
      the decimal point. */
  lemma LoneComma(whole: string, part: string)
    requires whole != "" && part != "" && AllDigits(whole) && AllDigits(part)
    ensures ParseDieselNumber(whole + ("," + part)) ==
      Some(Number(Parse(whole + part), if |part| == 3 then 0 else |part|))
  {
    var s := whole + ("," + part);
    LoneResolves(whole, part);
    assert s[0] == whole[0] && s[|s| - 1] == part[|part| - 1];
    NumberText(s);
    SplitDigits(whole, part);
    if |part| == 3 {
      assert whole + part + "" == whole + part;
      FloatOfDigits(whole + part, whole + part, "");
    } else {
      FloatOfDigits(whole + ("." + part), whole, part);
    }
  }

  lemma LoneResolves(whole: string, part: string)
    requires AllDigits(whole) && AllDigits(part)
    ensures ResolveCommas(whole + ("," + part)) == if |part| == 3 then whole + part else whole + ("." + part)
  {
    var s := whole + ("," + part);
    Commas(whole, part);
    CommaAt(whole, part);
    DigitsHold(part, ',');
    NoPoint(whole, part);
    PointForComma(whole, part);
  }

  lemma NoPoint(whole: string, part: string)
    requires AllDigits(whole) && AllDigits(part)
    ensures '.' !in whole + ("," + part)
  {
  }

  lemma PointForComma(whole: string, part: string)
    requires AllDigits(whole) && AllDigits(part)
    ensures ReplaceAll(whole + ("," + part), ',', '.') == whole + ("." + part)
  {
  }

  /** Two commas, or a comma and a point, are separators. */
  lemma ManyCommas(whole: string, part: string, rest: string)
    requires whole != "" && rest != "" && AllDigits(whole) && AllDigits(part) && AllDigits(rest)
    ensures ParseDieselNumber(whole + ("," + (part + ("," + rest)))) == Some(Number(Parse(whole + (part + rest)), 0))
  {
    var s, digits := whole + ("," + (part + ("," + rest))), whole + (part + rest);
    Commas(part, rest);
    Commas(whole, part + ("," + rest));
    CommaAt(whole, part + ("," + rest));
    DigitsHold(rest, ',');
    SplitDigits(part, rest);
    SplitDigits(whole, part + rest);
    assert s[0] == whole[0] && s[|s| - 1] == rest[|rest| - 1];
    NumberText(s);
    assert digits + "" == digits;
    FloatOfDigits(digits, digits, "");
  }

  lemma PointedCommas(whole: string, part: string, rest: string)
    requires whole != "" && rest != "" && AllDigits(whole) && AllDigits(part) && AllDigits(rest)
    ensures ParseDieselNumber(whole + ("," + (part + ("." + rest)))) ==
      Some(Number(Parse(whole + (part + rest)), |rest|))
  {
    PointedResolves(whole, part, rest);
    PointedChars(whole, part, rest);
    SplitDigits(whole, part);
    Regrouped(whole, part, rest);
    ReadsAsNumeral(whole + ("," + (part + ("." + rest))), whole + part, rest);
  }

  lemma ReadsAsNumeral(s: string, whole: string, part: string)
    requires NumberChars(s) && whole != "" && AllDigits(whole) && AllDigits(part)
    requires ResolveCommas(s) == whole + ("." + part)
    ensures ParseDieselNumber(s) == Some(Number(Parse(whole + part), |part|))
  {
    NumberText(s);
    FloatOfDigits(whole + ("." + part), whole, part);
  }

  lemma PointedChars(whole: string, part: string, rest: string)
    requires whole != "" && rest != "" && AllDigits(whole) && AllDigits(part) && AllDigits(rest)
    ensures NumberChars(whole + ("," + (part + ("." + rest))))
  {
    var s := whole + ("," + (part + ("." + rest)));
    assert s[0] == whole[0] && s[|s| - 1] == rest[|rest| - 1];
  }

  lemma PointedResolves(whole: string, part: string, rest: string)
    requires AllDigits(whole) && AllDigits(part) && AllDigits(rest)
    ensures ResolveCommas(whole + ("," + (part + ("." + rest)))) == (whole + part) + ("." + rest)
  {
    var tail := part + ("." + rest);
    Commas(whole, tail);
    CommaAt(whole, tail);
    PointedIsKept(part, rest);
    Regrouped(whole, part, rest);
    assert (whole + ("," + tail))[|whole| + 1 + |part|] == '.';
  }

  lemma Regrouped(whole: string, part: string, rest: string)
    ensures whole + (part + ("." + rest)) == (whole + part) + ("." + rest)
    ensures (whole + part) + rest == whole + (part + rest)
  {
  }

  lemma PointedIsKept(part: string, rest: string)
    requires AllDigits(part) && AllDigits(rest)
    ensures Without(part + ("." + rest), ',') == part + ("." + rest)
  {
    WithoutAbsent(part + ("." + rest), ',');
  }

  /** Blanks around a text do not matter, and a printed amount may end in a per cent sign,
      with spaces before it. */
  lemma DieselTrims(value: string, core: string)
    requires Trimmed(value, core)
    ensures ParseDieselNumber(value) == ParseDieselNumber(core)
  {
    TrimmedIsStrip(value, core);
    StripBlank(value);
  }

  predicate Spaces(gap: string) { forall i | 0 <= i < |gap| :: gap[i] == ' ' }

  lemma {:induction false} SpacesGo(gap: string)
    requires Spaces(gap)
    ensures Without(gap, ' ') == ""
  {
    if gap != "" { SpacesGo(gap[1..]); }
  }

  lemma DieselPercent(n: int, cents: bool, gap: string)
    requires Spaces(gap)
    ensures ParseDieselNumber(Format(n, cents) + (gap + "%")) == Some(Number(n, if cents then 2 else 0))
  {
    var s := Format(n, cents);
    var all := s + (gap + "%");
    FormatShape(n, cents);
    assert all[0] == s[0] && all[|all| - 1] == '%' && |all| >= 2;
    NothingAround(all);
    NotNothing(all);
    DropsPercent(s, gap);
    CommasResolve(n, cents);
    FloatReads(n, cents);
  }

  lemma NothingAround(s: string)
    requires s != "" && !IsBlank(s[0]) && !IsBlank(s[|s| - 1])
    ensures Strip(s) == s
  {
  }

  lemma DropsPercent(s: string, gap: string)
    requires Plain(s) && Spaces(gap)
    ensures Without(Without(s + (gap + "%"), ' '), '%') == s
  {
    PlainHasNoBlank(s);
    WithoutConcat(gap, "%", ' ');
    WithoutConcat(s, gap + "%", ' ');
    WithoutAbsent(s, ' ');
    SpacesGo(gap);
    WithoutAbsent("%", ' ');
    assert Without(s + (gap + "%"), ' ') == s + "%";
    WithoutConcat(s, "%", '%');
    WithoutAbsent(s, '%');
    assert Without("%", '%') == "";
  }

  // ---------------------------------------------------------------- currency codes

  predicate Letters(code: string) { code != "" && forall i | 0 <= i < |code| :: IsUpper(code[i]) }

  lemma CodesAreLetters(code: string)
    requires IsCode(code)
    ensures Letters(code)
  {
  }

  predicate IsCode(code: string) { code in {"TZS", "TSH", "TZ", "USD", "ZMW", "ZK"} }

  lemma {:induction false} DropsAt(s: string, prefixes: seq<string>, k: nat)
    requires k < |prefixes| && StartsWith(Upper(s), prefixes[k])
    requires forall j | 0 <= j < k :: !StartsWith(Upper(s), prefixes[j])
    ensures DropPrefix(s, prefixes) == Strip(s[|prefixes[k]|..])
    decreases k
  {
    if k > 0 { DropsAt(s, prefixes[1..], k - 1); }
  }

  /** The other code differs from this one, or goes on where this one ends. */
  predicate Departs(other: string, code: string) {
    (|other| > |code| && IsUpper(other[|code|])) || exists i | 0 <= i < |other| && i < |code| :: other[i] != code[i]
  }

  /** No other code is found where one stands with something else than a letter behind it. */
  lemma OtherCode(s: string, code: string, other: string)
    requires |code| < |s| && Upper(s)[..|code|] == code && !IsUpper(Upper(s)[|code|])
    requires Departs(other, code)
    ensures !StartsWith(Upper(s), other)
  {
    assert forall i | 0 <= i < |code| :: Upper(s)[i] == code[i];
  }

  lemma CodeAt(code: string) returns (k: nat)
    requires IsCode(code)
    ensures k < |PREFIXES| && PREFIXES[k] == code
    ensures forall j | 0 <= j < k :: Departs(PREFIXES[j], code)
  {
    k := if code == "TZS" then 0 else if code == "TSH" then 1 else if code == "TZ" then 2
      else if code == "USD" then 3 else if code == "ZMW" then 4 else 5;
    assert PREFIXES[0] == "TZS" && PREFIXES[1] == "TSH" && PREFIXES[2] == "TZ" && PREFIXES[3] == "USD"
      && PREFIXES[4] == "ZMW";
    assert PREFIXES[0][1] == 'Z' && PREFIXES[0][2] == 'S' && PREFIXES[1][1] == 'S' && PREFIXES[0][0] == 'T'
      && PREFIXES[1][0] == 'T'
      && PREFIXES[2][0] == 'T' && PREFIXES[3][0] == 'U' && PREFIXES[4][1] == 'M';
  }

  lemma CodeDrops(written: string, code: string, rest: string)
    requires IsCode(code) && Upper(written) == code
    requires rest != "" && !IsUpper(UpperChar(rest[0]))
    ensures DropCode(written + rest) == Strip(rest)
  {
    var s := written + rest;
    var k := CodeAt(code);
    assert |written| == |code| && Upper(s)[..|code|] == code && Upper(s)[|code|] == UpperChar(rest[0]);
    forall j | 0 <= j < k ensures !StartsWith(Upper(s), PREFIXES[j]) { OtherCode(s, code, PREFIXES[j]); }
    DropsAt(s, PREFIXES, k);
    assert s[|code|..] == rest;
  }

  lemma CodedCore(before: string, written: string, code: string, gap: string, amount: string, after: string)
    requires AllBlank(before) && AllBlank(after) && Letters(code) && SameLetters(written, code)
    requires amount != "" && IsDigit(amount[|amount| - 1])
    ensures Strip(before + (written + (gap + amount)) + after) == written + (gap + amount)
  {
    var body := written + (gap + amount);
    var s := before + body + after;
    assert body[0] == written[0] && body[|body| - 1] == amount[|amount| - 1];
    assert s[..|before|] == before && s[|before| + |body|..] == after && s[|before|..|before| + |body|] == body;
    assert !IsBlank(body[0]);
    CoreIsStrip(s, |before|, |before| + |body|, body);
  }

  lemma {:induction false} WithoutBlank(gap: string, c: char)
    requires AllBlank(gap)
    ensures AllBlank(Without(gap, c))
  {
    if gap != "" { WithoutBlank(gap[1..], c); }
  }

  lemma CodedDigits(written: string, code: string, gap: string, n: int, cents: bool)
    requires AllBlank(gap) && IsCode(code) && SameLetters(written, code)
    ensures var text := Without(Without(written + (gap + Format(n, cents)), ','), ' ');
      text != "" && text != DASH && DropCode(text) == Bare(n, cents)
  {
    var g := Without(gap, ' ');
    CodesAreLetters(code);
    WithoutAll(written, code, gap, n, cents);
    WithoutBlank(gap, ' ');
    LettersHold(written, code);
    BareAfterCode(written, code, g, n, cents);
    Starts(written, g + Bare(n, cents));
  }

  lemma BareAfterCode(written: string, code: string, g: string, n: int, cents: bool)
    requires AllBlank(g) && IsCode(code) && SameLetters(written, code)
    ensures DropCode(written + (g + Bare(n, cents))) == Bare(n, cents)
  {
    BareShape(n, cents);
    AfterCode(g, Bare(n, cents));
    CodesAreLetters(code);
    SameLettersMeans(written, code);
    CodeDrops(written, code, g + Bare(n, cents));
  }

  lemma Starts(a: string, b: string)
    requires a != "" && a[0] != DASH[0]
    ensures a + b != "" && a + b != DASH
  {
    assert (a + b)[0] == a[0];
  }

  lemma AfterCode(g: string, amount: string)
    requires AllBlank(g) && Plain(amount) && amount != "" && (IsDigit(amount[0]) || amount[0] == '-')
    ensures var rest := g + amount; rest != "" && !IsUpper(UpperChar(rest[0])) && Strip(rest) == amount
  {
    StripsTo(g, amount);
    assert (g + amount)[0] == if g == "" then amount[0] else g[0];
  }

  lemma WithoutAll(written: string, code: string, gap: string, n: int, cents: bool)
    requires AllBlank(gap) && Letters(code) && SameLetters(written, code)
    ensures Without(Without(written + (gap + Format(n, cents)), ','), ' ') ==
      written + (Without(gap, ' ') + Bare(n, cents))
  {
    WithoutAbsent(gap, ',');
    LettersHold(written, code);
    FormatIsBare(n, cents);
    WithoutConcat(gap, Format(n, cents), ',');
    WithoutConcat(written, gap + Format(n, cents), ',');
    BareShape(n, cents);
    WithoutAbsent(Bare(n, cents), ' ');
    WithoutConcat(gap, Bare(n, cents), ' ');
    WithoutConcat(written, gap + Bare(n, cents), ' ');
  }

  lemma StripsTo(g: string, amount: string)
    requires AllBlank(g) && Plain(amount) && amount != ""
    ensures Strip(g + amount) == amount
  {
    var s := g + amount;
    assert s[..|g|] == g && s[|s|..] == "" && s[|g|..|s|] == amount;
    CoreIsStrip(s, |g|, |s|, amount);
  }

  lemma LettersHold(written: string, code: string)
    requires Letters(code) && SameLetters(written, code)
    ensures Without(written, ',') == written && Without(written, ' ') == written
    ensures written != "" && written != DASH && written[0] != DASH[0]
  {
    WithoutAbsent(written, ',');
    WithoutAbsent(written, ' ');
  }

  /** A code in any case, then blanks and the amount as it was printed, with any blanks
      around: the amount is read. */
  lemma CodedReadsBack(before: string, written: string, code: string, gap: string, n: int, cents: bool, after: string)
    requires AllBlank(before) && AllBlank(gap) && AllBlank(after)
    requires IsCode(code) && SameLetters(written, code)
    ensures ParseMasterAmount(before + (written + (gap + Format(n, cents))) + after) ==
      Some(Number(n, if cents then 2 else 0))
  {
    var body := written + (gap + Format(n, cents));
    FormatShape(n, cents);
    CodesAreLetters(code);
    CodedCore(before, written, code, gap, Format(n, cents), after);
    CodedDigits(written, code, gap, n, cents);
    FloatReads(n, cents);
  }
}
