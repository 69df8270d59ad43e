/** `truck_sort_key` (backend/app/accountant_master_ops.py): the text that MongoDB sorts
    truck labels by. */
module Plates {
  import opened Ascii
  import opened Mongo
  import opened Words
  import opened Layout
  import opened Decimal

  // ---------------------------------------------------------------- words, char by char

  /** How one more character in front changes the words of a text. */
  lemma SplitChar(c: char, s: string)
    ensures IsBlank(c) ==> Split([c] + s) == Split(s)
    ensures !IsBlank(c) && (s == "" || IsBlank(s[0])) ==> Split([c] + s) == [[c]] + Split(s)
    ensures !IsBlank(c) && s != "" && !IsBlank(s[0]) ==>
      Split(s) != [] && Split([c] + s) == [[c] + Split(s)[0]] + Split(s)[1..]
  {
    var t := [c] + s;
    assert t[1..] == s;
    if IsBlank(c) {
      assert TrimLeft(t) == TrimLeft(s);
    } else {
      var n := WordLength(s);
      assert TrimLeft(t) == t && WordLength(t) == 1 + n;
      assert t[..1 + n] == [c] + s[..n] && t[1 + n..] == s[n..];
      if s == "" || IsBlank(s[0]) {
        assert n == 0 && s[..0] == "" && s[0..] == s;
      } else {
        assert TrimLeft(s) == s;
      }
    }
  }

  /** `str.replace("  ", " ")`. */
  function SquashPairs(s: string): string {
    if s == "" then ""
    else if |s| >= 2 && s[0] == ' ' && s[1] == ' ' then " " + SquashPairs(s[2..])
    else [s[0]] + SquashPairs(s[1..])
  }

  lemma {:induction false} SquashKeepsWords(s: string)
    ensures Split(SquashPairs(s)) == Split(s)
    ensures s != "" ==> SquashPairs(s) != "" && SquashPairs(s)[0] == s[0]
    ensures s == "" ==> SquashPairs(s) == ""
    decreases |s|
  {
    if |s| >= 2 && s[0] == ' ' && s[1] == ' ' {
      SquashKeepsWords(s[2..]);
      SplitChar(' ', SquashPairs(s[2..]));
      SplitChar(' ', s[1..]);
      SplitChar(' ', s[2..]);
      assert s == [' '] + s[1..] && s[1..] == [' '] + s[2..];
    } else if s != "" {
      SquashKeepsWords(s[1..]);
      SplitChar(s[0], SquashPairs(s[1..]));
      SplitChar(s[0], s[1..]);
      assert s == [s[0]] + s[1..];
    }
  }

  lemma {:induction false} SplitAfterBlanks(p: string, s: string)
    requires AllBlank(p)
    ensures Split(p + s) == Split(s)
    decreases |p|
  {
    if p == "" {
      assert p + s == s;
    } else {
      SplitAfterBlanks(p[1..], s);
      SplitChar(p[0], p[1..] + s);
      assert p + s == [p[0]] + (p[1..] + s);
    }
  }

  /** A solid word in front of a gap or the end is the first word. */
  lemma {:induction false} SplitWord(w: string, s: string)
    requires Solid(w) && (s == "" || IsBlank(s[0]))
    ensures Split(w + s) == [w] + Split(s)
    decreases |w|
  {
    assert w + s == [w[0]] + (w[1..] + s);
    if |w| == 1 {
      assert w[1..] + s == s && w == [w[0]];
      SplitChar(w[0], s);
    } else {
      assert w[1..][0] == w[1] && !IsBlank(w[1]);
      SplitWord(w[1..], s);
      SplitChar(w[0], w[1..] + s);
      assert (w[1..] + s)[0] == w[1];
      assert [w[0]] + w[1..] == w;
    }
  }

  lemma SplitBlank(s: string)
    requires AllBlank(s)
    ensures Split(s) == []
  {
    TrimLeftBlank(s);
  }

  // ---------------------------------------------------------------- plates

  datatype Plate = Plate(number: nat, suffix: string)

  /** How many digits a text starts with. */
  function DigitCount(s: string): (n: nat)
    ensures n <= |s|
    ensures forall i | 0 <= i < n :: IsDigit(s[i])
    ensures n < |s| ==> !IsDigit(s[n])
  {
    if s == "" || !IsDigit(s[0]) then 0 else 1 + DigitCount(s[1..])
  }

  predicate IsSuffix(s: string) {
    2 <= |s| <= 3 && forall i | 0 <= i < |s| :: IsUpper(s[i])
  }

  /** `^T\s*(\d+)\s*([A-Z]{2,3})$`, or `^T(\d+)\s+([A-Z]{2,3})$` when `canonical`. */
  function MatchPlate(s: string, canonical: bool): Option<Plate> {
    if s == "" || s[0] != 'T' then None
    else
      var a := if canonical then s[1..] else TrimLeft(s[1..]);
      var n := DigitCount(a);
      var rest := TrimLeft(a[n..]);
      if n == 0 || !IsSuffix(rest) || (canonical && rest == a[n..]) then None
      else Some(Plate(Parse(a[..n]), rest))
  }

  const TEN_DIGITS: nat := 10_000_000_000

  /** `{:010d}`. */
  function TenWide(n: nat): string {
    if n < TEN_DIGITS then Padded(n, 10) else Print(n)
  }

  function PlateKey(p: Plate): string { "1|" + TenWide(p.number) + "|" + p.suffix }

  /** `re.sub(r"\s+", " ", text.upper()).strip()`. */
  function Compact(text: string): string { Join(Split(Upper(text))) }

  function TruckSortKey(raw: string): string {
    var text := Strip(raw);
    var canonical := MatchPlate(SquashPairs(Upper(text)), true);
    var loose := MatchPlate(Compact(text), false);
    if text == "" then "3|"
    else if canonical.Some? then PlateKey(canonical.value)
    else if loose.Some? then PlateKey(loose.value)
    else "2|" + Compact(text)
  }

  lemma {:induction false} DigitCountOver(ds: string, s: string)
    requires AllDigits(ds) && (s == "" || !IsDigit(s[0]))
    ensures DigitCount(ds + s) == |ds|
    decreases |ds|
  {
    if ds == "" {
      assert ds + s == s;
    } else {
      assert (ds + s)[1..] == ds[1..] + s;
      DigitCountOver(ds[1..], s);
    }
  }

  /** A plate written with gaps `p` and `q`. */
  function Written(p: string, ds: string, q: string, suffix: string): string {
    "T" + (p + (ds + (q + suffix)))
  }

  predicate WellWritten(p: string, ds: string, q: string, suffix: string) {
    AllBlank(p) && AllBlank(q) && ds != "" && AllDigits(ds) && IsSuffix(suffix)
  }

  /** The plate pattern reads back what a plate is written from, with any gaps. */
  lemma MatchWritten(p: string, ds: string, q: string, suffix: string)
    requires WellWritten(p, ds, q, suffix)
    ensures MatchPlate(Written(p, ds, q, suffix), false) == Some(Plate(Parse(ds), suffix))
  {
    var s := Written(p, ds, q, suffix);
    assert s[1..] == p + (ds + (q + suffix));
    assert (q + suffix)[0] == if q == "" then suffix[0] else q[0];
    TrimLeftOver(p, ds + (q + suffix));
    DigitCountOver(ds, q + suffix);
    assert (ds + (q + suffix))[..|ds|] == ds && (ds + (q + suffix))[|ds|..] == q + suffix;
    TrimLeftOver(q, suffix);
  }

  function Gap(p: string): string { if p == "" then "" else " " }

  lemma OneWord(w: string)
    requires Solid(w)
    ensures Split(w) == [w] && Join(Split(w)) == w
  {
    SplitBlank("");
    SplitWord(w, "");
    assert w + "" == w;
  }

  lemma TwoWords(v: string, p: string, w: string)
    requires Solid(v) && AllBlank(p) && p != "" && Solid(w)
    ensures Split(v + (p + w)) == [v, w] && Join(Split(v + (p + w))) == v + " " + w
  {
    OneWord(w);
    SplitAfterBlanks(p, w);
    SplitWord(v, p + w);
    assert [v, w][1..] == [w];
  }

  lemma ThreeWords(u: string, p: string, v: string, q: string, w: string)
    requires Solid(u) && AllBlank(p) && p != "" && Solid(v) && AllBlank(q) && q != "" && Solid(w)
    ensures Join(Split(u + (p + (v + (q + w))))) == u + " " + (v + " " + w)
  {
    TwoWords(v, q, w);
    SplitAfterBlanks(p, v + (q + w));
    SplitWord(u, p + (v + (q + w)));
    assert [u, v, w][1..] == [v, w];
  }

  lemma Glued(ds: string, q: string, suffix: string)
    requires WellWritten("", ds, q, suffix)
    ensures Join(Split(Written("", ds, q, suffix))) == Written("", ds, Gap(q), suffix)
  {
    assert Solid("T" + ds) && Solid(suffix);
    if q == "" {
      assert Solid("T" + (ds + suffix));
      OneWord("T" + (ds + suffix));
      assert "" + (ds + ("" + suffix)) == ds + suffix;
    } else {
      TwoWords("T" + ds, q, suffix);
      assert Written("", ds, q, suffix) == ("T" + ds) + (q + suffix);
      assert Written("", ds, " ", suffix) == "T" + ds + " " + suffix;
    }
  }

  lemma Parted(p: string, ds: string, q: string, suffix: string)
    requires WellWritten(p, ds, q, suffix) && p != ""
    ensures Join(Split(Written(p, ds, q, suffix))) == Written(" ", ds, Gap(q), suffix)
  {
    assert Solid("T") && Solid(ds) && Solid(suffix) && Solid(ds + suffix);
    if q == "" {
      assert "" + suffix == suffix;
      TwoWords("T", p, ds + suffix);
      Associate("T", " ", ds + suffix);
    } else {
      ThreeWords("T", p, ds, q, suffix);
      Associate("T", " ", ds + (" " + suffix));
      Associate(ds, " ", suffix);
    }
  }

  lemma Associate(a: string, b: string, c: string)
    ensures a + (b + c) == a + b + c
  {
  }

  /** Collapsing white space keeps a plate a plate. */
  lemma CompactPlate(p: string, ds: string, q: string, suffix: string)
    requires WellWritten(p, ds, q, suffix)
    ensures Join(Split(Written(p, ds, q, suffix))) == Written(Gap(p), ds, Gap(q), suffix)
  {
    if p == "" {
      Glued(ds, q, suffix);
    } else {
      Parted(p, ds, q, suffix);
    }
  }

  /** Whatever the canonical pattern finds, the loose pattern finds in the compact text. */
  lemma CanonicalIsLoose(text: string)
    requires MatchPlate(SquashPairs(text), true).Some?
    ensures MatchPlate(Join(Split(text)), false) == MatchPlate(SquashPairs(text), true)
  {
    SquashKeepsWords(text);
    var ds, q, suffix := CanonicalParts(SquashPairs(text));
    CompactPlate("", ds, q, suffix);
    MatchWritten("", ds, Gap(q), suffix);
  }

  lemma CanonicalParts(s: string) returns (ds: string, q: string, suffix: string)
    requires MatchPlate(s, true).Some?
    ensures WellWritten("", ds, q, suffix) && s == Written("", ds, q, suffix)
    ensures MatchPlate(s, true) == Some(Plate(Parse(ds), suffix))
  {
    var a := s[1..];
    ds, q, suffix := NumberAndSuffix(a);
    Assembled(s, "", a, |ds|, q, suffix);
  }

  /** The key depends on the compact text alone. */
  lemma KeyOfCompact(raw: string)
    requires Strip(raw) != ""
    ensures var compact := Compact(Strip(raw));
      TruckSortKey(raw) ==
        if MatchPlate(compact, false).Some? then PlateKey(MatchPlate(compact, false).value) else "2|" + compact
  {
    if MatchPlate(SquashPairs(Upper(Strip(raw))), true).Some? {
      CanonicalIsLoose(Upper(Strip(raw)));
    }
  }

  // ---------------------------------------------------------------- which labels are plates

  /** A T, some digits and two or three capitals, with blanks or nothing between them. */
  predicate ReadsAs(s: string, p: string, ds: string, q: string, suffix: string) {
    && s == "T" + (p + (ds + (q + suffix))) && AllBlank(p) && AllBlank(q)
    && 1 <= |ds| && (forall i | 0 <= i < |ds| :: '0' <= ds[i] <= '9')
    && 2 <= |suffix| <= 3 && (forall i | 0 <= i < |suffix| :: 'A' <= suffix[i] <= 'Z')
  }

  lemma LooseMeans(s: string)
    requires MatchPlate(s, false).Some?
    ensures s != "" && s[0] == 'T'
    ensures var a := TrimLeft(s[1..]); DigitCount(a) > 0 && IsSuffix(TrimLeft(a[DigitCount(a)..]))
  {
  }

  lemma LooseParts(s: string) returns (p: string, ds: string, q: string, suffix: string)
    requires MatchPlate(s, false).Some?
    ensures ReadsAs(s, p, ds, q, suffix)
  {
    LooseMeans(s);
    var tail := s[1..];
    var a := TrimLeft(tail);
    TrimLeftParts(tail);
    p := tail[..|tail| - |a|];
    ds, q, suffix := NumberAndSuffix(a);
    Assembled(s, p, a, |ds|, q, suffix);
  }

  lemma NumberAndSuffix(a: string) returns (ds: string, q: string, suffix: string)
    requires DigitCount(a) > 0 && IsSuffix(TrimLeft(a[DigitCount(a)..]))
    ensures |ds| == DigitCount(a) && suffix == TrimLeft(a[|ds|..])
    ensures ds == a[..|ds|] && a[|ds|..] == q + suffix && AllBlank(q)
    ensures ds != "" && AllDigits(ds) && IsSuffix(suffix)
  {
    var b := a[DigitCount(a)..];
    TrimLeftParts(b);
    suffix := TrimLeft(b);
    ds, q := a[..DigitCount(a)], b[..|b| - |suffix|];
  }

  lemma Assembled(s: string, p: string, a: string, n: nat, q: string, suffix: string)
    requires s != "" && s[0] == 'T' && s[1..] == p + a && n <= |a| && a[n..] == q + suffix
    ensures s == "T" + (p + (a[..n] + (q + suffix)))
  {
    assert a == a[..n] + a[n..];
  }

  lemma ReadsAsMeans(s: string, p: string, ds: string, q: string, suffix: string)
    requires ReadsAs(s, p, ds, q, suffix)
    ensures MatchPlate(s, false) == Some(Plate(Parse(ds), suffix))
  {
    MatchWritten(p, ds, q, suffix);
  }

  /** The key of a label by its words in capitals, one blank apart: that of its number and
      suffix when these read as a plate, the words themselves when they do not, and one
      for all blank labels. */
  lemma LabelKey(words: seq<string>, gaps: seq<string>)
    requires IsLayout(words, gaps)
    ensures var one, key := OneBlankApart(UpperWords(words)), TruckSortKey(Laid(words, gaps));
      && (words == [] ==> key == "3|")
      && (forall p, ds, q, suffix | ReadsAs(one, p, ds, q, suffix) :: key == PlateKey(Plate(Parse(ds), suffix)))
      && (words != [] && (forall p, ds, q, suffix :: !ReadsAs(one, p, ds, q, suffix)) ==> key == "2|" + one)
  {
    var raw, one := Laid(words, gaps), OneBlankApart(UpperWords(words));
    NormalizeMeans(words, gaps);
    SplitLaid(words, gaps);
    TrimLeftBlank(raw);
    StripBlank(raw);
    if words != [] {
      KeyOfCompact(raw);
      if MatchPlate(one, false).Some? { var p, ds, q, suffix := LooseParts(one); }
    }
    forall p, ds, q, suffix | ReadsAs(one, p, ds, q, suffix)
      ensures TruckSortKey(raw) == PlateKey(Plate(Parse(ds), suffix))
    {
      ReadsAsMeans(one, p, ds, q, suffix);
    }
  }

  // ---------------------------------------------------------------- spacing and case

  lemma UpperConcat(a: string, b: string)
    ensures Upper(a + b) == Upper(a) + Upper(b)
  {
  }

  lemma UpperBlank(p: string)
    requires AllBlank(p)
    ensures Upper(p) == p
  {
  }

  lemma StripOver(p: string, s: string, q: string)
    requires AllBlank(p) && AllBlank(q) && s != "" && !IsBlank(s[0]) && !IsBlank(s[|s| - 1])
    ensures Strip(p + s + q) == s
  {
    assert p + s + q == p + (s + q);
    TrimLeftOver(p, s + q);
    TrimRightOver(s, q);
  }

  predicate IsAnyCaseSuffix(s: string) {
    2 <= |s| <= 3 && forall i | 0 <= i < |s| :: IsUpper(s[i]) || IsLower(s[i])
  }

  function AnyCase(t: char, p: string, ds: string, q: string, suffix: string): string {
    [t] + (p + (ds + (q + suffix)))
  }

  /** Every way of writing a plate, in any case and with any spacing around and between
      its parts, has the key of its number and suffix. */
  lemma SpacingAndCase(before: string, t: char, p: string, ds: string, q: string,
      suffix: string, after: string)
    requires AllBlank(before) && AllBlank(p) && AllBlank(q) && AllBlank(after)
    requires t == 'T' || t == 't'
    requires ds != "" && AllDigits(ds) && IsAnyCaseSuffix(suffix)
    ensures TruckSortKey(before + AnyCase(t, p, ds, q, suffix) + after) ==
      PlateKey(Plate(Parse(ds), Upper(suffix)))
  {
    var plate := AnyCase(t, p, ds, q, suffix);
    assert plate[|plate| - 1] == suffix[|suffix| - 1];
    StripOver(before, plate, after);
    UpperPlate(t, p, ds, q, suffix);
    CompactPlate(p, ds, q, Upper(suffix));
    MatchWritten(Gap(p), ds, Gap(q), Upper(suffix));
    KeyOfCompact(before + plate + after);
  }

  lemma UpperPlate(t: char, p: string, ds: string, q: string, suffix: string)
    requires AllBlank(p) && AllBlank(q) && (t == 'T' || t == 't') && AllDigits(ds) && IsAnyCaseSuffix(suffix)
    ensures Upper(AnyCase(t, p, ds, q, suffix)) == Written(p, ds, q, Upper(suffix))
    ensures IsSuffix(Upper(suffix))
  {
    UpperBlank(p);
    UpperBlank(q);
    assert Upper(ds) == ds && Upper([t]) == "T";
    UpperConcat(q, suffix);
    UpperConcat(ds, q + suffix);
    UpperConcat(p, ds + (q + suffix));
    UpperConcat([t], p + (ds + (q + suffix)));
  }

  // ---------------------------------------------------------------- order

  /** The order MongoDB sorts text by. */
  predicate Before(a: string, b: string) {
    if b == "" then false
    else if a == "" then true
    else if a[0] != b[0] then a[0] < b[0]
    else Before(a[1..], b[1..])
  }

  lemma {:induction false} BeforeSamePrefix(p: string, a: string, b: string)
    ensures Before(p + a, p + b) <==> Before(a, b)
    decreases |p|
  {
    if p == "" {
      assert p + a == a && p + b == b;
    } else {
      assert (p + a)[1..] == p[1..] + a && (p + b)[1..] == p[1..] + b;
      BeforeSamePrefix(p[1..], a, b);
    }
  }

  /** Equal-width decimal texts sort by value, and then by what follows. */
  lemma {:induction false} PaddedOrder(m: nat, n: nat, width: nat, a: string, b: string)
    requires m < Power10(width) && n < Power10(width)
    ensures Before(Padded(m, width) + a, Padded(n, width) + b) <==> m < n || (m == n && Before(a, b))
    decreases width
  {
    if width == 0 {
      assert Padded(m, 0) + a == a && Padded(n, 0) + b == b;
    } else {
      var x, y := [DigitChar(m % 10)] + a, [DigitChar(n % 10)] + b;
      assert Padded(m, width) + a == Padded(m / 10, width - 1) + x;
      assert Padded(n, width) + b == Padded(n / 10, width - 1) + y;
      PaddedOrder(m / 10, n / 10, width - 1, x, y);
      assert x[1..] == a && y[1..] == b;
    }
  }

  lemma TenDigits()
    ensures Power10(10) == TEN_DIGITS
  {
    assert Power10(5) == 100_000;
  }

  /** The number of digits a key is printed with. */
  function Width(n: nat): nat { |TenWide(n)| }

  lemma WidthOfSmall(n: nat)
    ensures n < TEN_DIGITS ==> Width(n) == 10
  {
  }

  lemma KeyDigits(n: nat)
    ensures n < Power10(Width(n)) && TenWide(n) == Padded(n, Width(n))
  {
    TenDigits();
    if n >= TEN_DIGITS { PrintWidth(n); }
  }

  lemma FitsWidth(n: nat)
    ensures n < Power10(Width(n))
  {
    KeyDigits(n);
  }

  lemma {:induction false} PowerGrows(j: nat, k: nat)
    requires j <= k
    ensures 0 < Power10(j) <= Power10(k)
    decreases k
  {
    if j < k { PowerGrows(j, k - 1); } else if k > 0 { PowerGrows(k - 1, k - 1); }
  }

  lemma WiderIsNotSmaller(m: nat, n: nat)
    requires m <= n
    ensures Width(m) <= Width(n)
  {
    KeyDigits(n);
    TenDigits();
    if m >= TEN_DIGITS {
      PrintWidth(m);
      if Width(n) < Width(m) { PowerGrows(Width(n), Width(m) - 1); }
    } else if n >= TEN_DIGITS && Width(n) < Width(m) {
      PowerGrows(Width(n), 10);
    }
  }

  lemma KeyTail(p: Plate)
    ensures PlateKey(p) == "1|" + (Padded(p.number, Width(p.number)) + ("|" + p.suffix))
  {
    KeyDigits(p.number);
    assert "1|" + TenWide(p.number) + "|" + p.suffix == "1|" + (TenWide(p.number) + ("|" + p.suffix));
  }

  /** Comparing a number with a longer one, whatever follows them. */
  lemma DigitsCompare(m: nat, n: nat, width: nat, k: nat, s: string, t: string)
    requires m < Power10(width) && n < Power10(width + k)
    ensures var lead := LeadingDigits(n, k);
      && (Before(Padded(m, width) + ("|" + s), Padded(n, width + k) + ("|" + t)) <==>
            m < lead || (m == lead && k == 0 && Before(s, t)))
      && (Before(Padded(n, width + k) + ("|" + t), Padded(m, width) + ("|" + s)) <==>
            lead < m || (m == lead && (k > 0 || Before(t, s))))
  {
    var lead := LeadingDigits(n, k);
    PaddedSplits(n, width + k, k);
    LeadingDigitsFit(n, width, k);
    var a, b := "|" + s, Padded(n, k) + ("|" + t);
    assert Padded(n, width + k) + ("|" + t) == Padded(lead, width) + b;
    PaddedOrder(m, lead, width, a, b);
    PaddedOrder(lead, m, width, b, a);
    if k == 0 {
      assert b == "|" + t;
      BeforeSamePrefix("|", s, t);
      BeforeSamePrefix("|", t, s);
    } else {
      assert IsDigit(b[0]) && a[0] == '|';
    }
  }

  lemma KeysCompare(x: Plate, y: Plate, k: nat)
    requires Width(y.number) == Width(x.number) + k
    ensures var lead := LeadingDigits(y.number, k);
      && (Before(PlateKey(x), PlateKey(y)) <==>
            x.number < lead || (x.number == lead && k == 0 && Before(x.suffix, y.suffix)))
      && (Before(PlateKey(y), PlateKey(x)) <==>
            lead < x.number || (x.number == lead && (k > 0 || Before(y.suffix, x.suffix))))
  {
    FitsWidth(x.number);
    FitsWidth(y.number);
    KeyTail(x);
    KeyTail(y);
    var a, b := Padded(x.number, Width(x.number)) + ("|" + x.suffix),
      Padded(y.number, Width(y.number)) + ("|" + y.suffix);
    DigitsCompare(x.number, y.number, Width(x.number), k, x.suffix, y.suffix);
    BeforeSamePrefix("1|", a, b);
    BeforeSamePrefix("1|", b, a);
  }

  /** Keys of plates with numbers below ten to the tenth sort by number, then by suffix. */
  lemma PlatesInOrder(x: Plate, y: Plate)
    requires x.number < TEN_DIGITS && y.number < TEN_DIGITS
    ensures Before(PlateKey(x), PlateKey(y)) <==>
      x.number < y.number || (x.number == y.number && Before(x.suffix, y.suffix))
  {
    WidthOfSmall(x.number);
    WidthOfSmall(y.number);
    KeysCompare(x, y, 0);
  }

  /** The leading digits of the larger number, as many as the smaller key has. */
  function Leading(m: nat, n: nat): nat
    requires m <= n
  {
    WiderIsNotSmaller(m, n);
    LeadingDigits(n, Width(n) - Width(m))
  }

  /** For plate numbers of any length: the smaller number sorts first exactly when it is
      below the leading digits of the larger; otherwise the larger one does. */
  lemma KeyOrderOfNumbers(x: Plate, y: Plate)
    requires x.number < y.number
    ensures Before(PlateKey(x), PlateKey(y)) <==> x.number < Leading(x.number, y.number)
    ensures Before(PlateKey(y), PlateKey(x)) <==> x.number >= Leading(x.number, y.number)
  {
    WiderIsNotSmaller(x.number, y.number);
    KeysCompare(x, y, Width(y.number) - Width(x.number));
  }

  /** So the keys of two numbers agree with their order exactly when both keys are equally
      wide or the shorter number is below the leading digits of the longer. */
  lemma KeysAgreeWithNumbers(x: Plate, y: Plate)
    requires x.number != y.number
    ensures (Before(PlateKey(x), PlateKey(y)) <==> x.number < y.number) <==>
      var lo, hi := if x.number < y.number then x.number else y.number,
        if x.number < y.number then y.number else x.number;
      Width(lo) == Width(hi) || lo < Leading(lo, hi)
  {
    if x.number < y.number {
      KeyOrderOfNumbers(x, y);
    } else {
      KeyOrderOfNumbers(y, x);
    }
  }

  /** It does disagree from eleven digits on. */
  lemma ElevenDigitsAreOutOfOrder(suffix: string)
    ensures Before(PlateKey(Plate(TEN_DIGITS, suffix)), PlateKey(Plate(TEN_DIGITS - 1, suffix)))
  {
    assert Width(TEN_DIGITS) == 11;
    KeyOrderOfNumbers(Plate(TEN_DIGITS - 1, suffix), Plate(TEN_DIGITS, suffix));
    assert LeadingDigits(TEN_DIGITS, 1) == LeadingDigits(TEN_DIGITS / 10, 0);
  }

  /** Plates, then other labels, then blanks. */
  function Rank(raw: string): nat {
    if AllBlank(raw) then 3 else if MatchPlate(Compact(Strip(raw)), false).Some? then 1 else 2
  }

  /** Plates sort before all other labels, and those before blanks. */
  lemma RanksInOrder(x: string, y: string)
    requires Rank(x) < Rank(y)
    ensures Before(TruckSortKey(x), TruckSortKey(y))
  {
    FirstOfKey(x);
    FirstOfKey(y);
  }

  lemma FirstOfKey(raw: string)
    ensures TruckSortKey(raw) != "" && TruckSortKey(raw)[0] == DigitChar(Rank(raw))
  {
    StripBlank(raw);
    if Strip(raw) != "" { KeyOfCompact(raw); }
  }
}
