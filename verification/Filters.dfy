/** What the filters of Master Expenses ask of a row (backend/app/accountant_master_ops.py),
    said of the texts as they were sent and of the stored fields. */
module Filters {
  import opened Ascii
  import opened Mongo
  import opened Words
  import opened Layout
  import opened Decimal
  import opened Spread
  import opened Plates
  import opened Search
  import opened MasterQuery

  /** The character is the letter, in either case, and an underscore counts as a blank. */
  predicate Reads(c: char, letter: char) {
    c == letter || ('A' <= c <= 'Z' && c as int + 32 == letter as int) || (c == '_' && letter == ' ')
  }

  /** Between blanks, the text reads as the word. */
  predicate Says(text: string, word: string) {
    exists a, b | 0 <= a <= b <= |text| :: Between(text, a, b, word)
  }

  predicate Between(text: string, a: int, b: int, word: string) {
    0 <= a <= b <= |text| && AllBlank(text[..a]) && AllBlank(text[b..])
    && |word| == b - a && forall i | 0 <= i < |word| :: Reads(text[a + i], word[i])
  }

  /** Words of small letters with single blanks inside. */
  predicate Plain(word: string) {
    word != "" && word[0] != ' ' && word[|word| - 1] != ' '
    && forall i | 0 <= i < |word| :: 'a' <= word[i] <= 'z' || word[i] == ' '
  }

  lemma SaysMeans(text: string, word: string)
    requires Plain(word)
    ensures Says(text, word) <==> Underscored(Lower(Strip(text))) == word
  {
    if Underscored(Lower(Strip(text))) == word {
      var a, b := StripIsBetween(text);
      forall i | 0 <= i < |word| ensures Reads(text[a + i], word[i]) {
        assert word[i] == Underscored(Lower(Strip(text)))[i] && Strip(text)[i] == text[a + i];
      }
      assert Between(text, a, b, word);
    }
    if a, b :| Between(text, a, b, word) {
      SaysOnce(text, a, b, word);
    }
  }

  lemma SaysOnce(text: string, a: int, b: int, word: string)
    requires Plain(word) && Between(text, a, b, word)
    ensures Underscored(Lower(Strip(text))) == word
  {
    CoreIsStrip(text, a, b, text[a..b]);
    forall i | 0 <= i < |word| ensures Underscored(Lower(text[a..b]))[i] == word[i] {
      assert Reads(text[a + i], word[i]);
    }
  }

  // ---------------------------------------------------------------- the texts that count

  /** One of the texts sent is this one once the blanks around it are dropped; empty texts
      and the dash that stands for an empty cell do not count. */
  predicate Sent(raw: seq<string>, v: string) {
    v != "" && v != "\U{2014}" && exists i | 0 <= i < |raw| :: Trimmed(raw[i], v)
  }

  lemma {:induction false} ValuesStrip(raw: seq<string>, v: string)
    ensures v in Values(raw) <==> v != "" && v != "\U{2014}" && exists i | 0 <= i < |raw| :: Strip(raw[i]) == v
  {
    if raw != [] {
      var n := |raw| - 1;
      ValuesStrip(raw[..n], v);
      assert raw == raw[..n] + [raw[n]];
    }
  }

  lemma ValuesMean(raw: seq<string>, v: string)
    ensures v in Values(raw) <==> Sent(raw, v)
  {
    ValuesStrip(raw, v);
    forall i | 0 <= i < |raw| ensures Trimmed(raw[i], v) <==> Strip(raw[i]) == v { TrimmedIsStrip(raw[i], v); }
  }

  lemma {:induction false} ParsedMeans(parse: string -> Option<int>, vals: seq<string>, n: int)
    ensures n in Parsed(parse, vals) <==> exists v | v in vals :: parse(v) == Some(n)
  {
    if vals != [] {
      var m := |vals| - 1;
      ParsedMeans(parse, vals[..m], n);
      assert vals == vals[..m] + [vals[m]];
    }
  }

  /** The number is what one of the texts sent is parsed to. */
  ghost predicate Named(parse: string -> Option<int>, raw: seq<string>, n: int) {
    exists v :: Sent(raw, v) && parse(v) == Some(n)
  }

  lemma NamedMeans(parse: string -> Option<int>, raw: seq<string>, n: int)
    ensures n in Parsed(parse, Values(raw)) <==> Named(parse, raw, n)
  {
    ParsedMeans(parse, Values(raw), n);
    if v :| v in Values(raw) && parse(v) == Some(n) { ValuesMean(raw, v); }
    if v :| Sent(raw, v) && parse(v) == Some(n) { ValuesMean(raw, v); }
  }

  lemma NothingNamed(parse: string -> Option<int>, raw: seq<string>)
    ensures Parsed(parse, Values(raw)) == [] <==> forall n :: !Named(parse, raw, n)
  {
    var all := Parsed(parse, Values(raw));
    if all != [] { NamedMeans(parse, raw, all[0]); }
    if n :| Named(parse, raw, n) { NamedMeans(parse, raw, n); }
  }

  // ---------------------------------------------------------------- receipt status

  /** The text asks for the status: it says that word, and both "missing" and "no receipt"
      ask for either of the two statuses of a missing receipt. */
  predicate AsksFor(text: string, status: string) {
    || (status == "received" && Says(text, "received"))
    || (status == "pending" && Says(text, "pending"))
    || ((status == "missing" || status == "no_receipt") && (Says(text, "missing") || Says(text, "no receipt")))
  }

  predicate Wanted(raw: seq<string>, status: string) { exists i | 0 <= i < |raw| :: AsksFor(raw[i], status) }

  lemma {:induction false} InEach(f: string -> seq<string>, vals: seq<string>, st: string)
    ensures st in Each(f, vals) <==> exists v | v in vals :: st in f(v)
  {
    if vals != [] {
      var n := |vals| - 1;
      InEach(f, vals[..n], st);
      assert vals == vals[..n] + [vals[n]];
    }
  }

  /** The stored statuses that one text stands for. */
  lemma TextNames(text: string, st: string)
    ensures st in StatusesOf(text) <==> AsksFor(text, st)
  {
    SaysMeans(text, "received");
    SaysMeans(text, "pending");
    SaysMeans(text, "missing");
    SaysMeans(text, "no receipt");
  }

  /** What is said between blanks is said by the stripped text too, which is neither empty
      nor the dash. */
  lemma SaysStripped(text: string, word: string)
    requires Plain(word)
    ensures Says(Strip(text), word) <==> Says(text, word)
    ensures Says(text, word) ==> Strip(text) != "" && Strip(text) != "\U{2014}"
  {
    SaysMeans(text, word);
    SaysMeans(Strip(text), word);
    StripBlank(text);
    if Strip(text) == "\U{2014}" { assert Underscored(Lower(Strip(text)))[0] == '\U{2014}'; }
  }

  lemma AsksStripped(text: string, st: string)
    ensures AsksFor(Strip(text), st) <==> AsksFor(text, st)
    ensures AsksFor(text, st) ==> Strip(text) != "" && Strip(text) != "\U{2014}"
  {
    SaysStripped(text, "received");
    SaysStripped(text, "pending");
    SaysStripped(text, "missing");
    SaysStripped(text, "no receipt");
  }

  lemma WantedMeans(raw: seq<string>, st: string)
    ensures st in Statuses(Values(raw)) <==> Wanted(raw, st)
  {
    InEach(StatusesOf, Values(raw), st);
    if v :| v in Values(raw) && st in StatusesOf(v) {
      ValuesStrip(raw, v);
      var i :| 0 <= i < |raw| && Strip(raw[i]) == v;
      TextNames(v, st);
      AsksStripped(raw[i], st);
    }
    if i :| 0 <= i < |raw| && AsksFor(raw[i], st) {
      AsksStripped(raw[i], st);
      TextNames(Strip(raw[i]), st);
      ValuesStrip(raw, Strip(raw[i]));
    }
  }

  predicate StatusIn(d: Doc, raw: seq<string>) {
    ReceiptStatus in d && d[ReceiptStatus].Text? && Wanted(raw, d[ReceiptStatus].s)
  }

  /** A row passes a receipt filter when its status is one that a text asks for, or when
      no text asks for any. */
  lemma ReceiptFilter(d: Doc, raw: seq<string>, ctx: Context)
    ensures Passes(d, ByReceipt, Values(raw), ctx) <==> StatusIn(d, raw) || forall st :: !Wanted(raw, st)
  {
    var all := Statuses(Values(raw));
    if all != [] { WantedMeans(raw, all[0]); }
    forall st ensures st in all <==> Wanted(raw, st) { WantedMeans(raw, st); }
  }

  /** No text says two of the words. */
  lemma SaysOneWord(text: string)
    ensures Says(text, "received") ==> !Says(text, "pending") && !Says(text, "missing") && !Says(text, "no receipt")
    ensures Says(text, "pending") ==> !Says(text, "missing") && !Says(text, "no receipt")
  {
    SaysMeans(text, "received");
    SaysMeans(text, "pending");
    SaysMeans(text, "missing");
    SaysMeans(text, "no receipt");
  }

  /** The filter of one text, said of the text and of the stored status. */
  lemma OneReceipt(d: Doc, text: string, ctx: Context)
    ensures Passes(d, ByReceipt, Values([text]), ctx) <==>
      if Says(text, "received") then Get(d, ReceiptStatus) == Some(Text("received"))
      else if Says(text, "pending") then Get(d, ReceiptStatus) == Some(Text("pending"))
      else if Says(text, "missing") || Says(text, "no receipt") then
        Get(d, ReceiptStatus) == Some(Text("missing")) || Get(d, ReceiptStatus) == Some(Text("no_receipt"))
      else true
  {
    ReceiptFilter(d, [text], ctx);
    SaysOneWord(text);
    forall st ensures Wanted([text], st) <==> AsksFor(text, st) { assert [text][0] == text; }
    AsksForSome(text);
  }

  lemma AsksForSome(text: string)
    ensures (forall st :: !AsksFor(text, st)) <==>
      !Says(text, "received") && !Says(text, "pending") && !Says(text, "missing") && !Says(text, "no receipt")
  {
    if Says(text, "received") { assert AsksFor(text, "received"); }
    if Says(text, "pending") { assert AsksFor(text, "pending"); }
    if Says(text, "missing") || Says(text, "no receipt") { assert AsksFor(text, "missing"); }
  }

  // ---------------------------------------------------------------- the other columns

  predicate TextOf(d: Doc, f: Field, texts: set<string>) {
    f in d && d[f].Text? && d[f].s in texts
  }

  ghost predicate AmountNamed(d: Doc, raw: seq<string>, ctx: Context) {
    Amount in d && d[Amount].Num? && Named(ctx.amount, raw, d[Amount].n)
  }

  lemma AmountMeans(d: Doc, raw: seq<string>, ctx: Context)
    ensures (exists n | n in Parsed(ctx.amount, Values(raw)) :: Get(d, Amount) == Some(Num(n))) <==>
      AmountNamed(d, raw, ctx)
  {
    if Amount in d && d[Amount].Num? { NamedMeans(ctx.amount, raw, d[Amount].n); }
  }

  /** An amount filter asks for the currency, in one of its codes, and for an amount that a
      text names; it asks nothing when no text names one. */
  lemma TzsFilter(d: Doc, raw: seq<string>, ctx: Context)
    ensures Passes(d, ByTzs, Values(raw), ctx) <==>
      || (forall n :: !Named(ctx.amount, raw, n))
      || (TextOf(d, Currency, {"TZS", "TSH", "TZ", "tzs", "tsh", "tz"}) && AmountNamed(d, raw, ctx))
  {
    NothingNamed(ctx.amount, raw);
    CodesMean(d);
    AmountMeans(d, raw, ctx);
  }

  lemma UsdFilter(d: Doc, raw: seq<string>, ctx: Context)
    ensures Passes(d, ByUsd, Values(raw), ctx) <==>
      || (forall n :: !Named(ctx.amount, raw, n))
      || (TextOf(d, Currency, {"USD", "usd"}) && AmountNamed(d, raw, ctx))
  {
    NothingNamed(ctx.amount, raw);
    CodesMean(d);
    AmountMeans(d, raw, ctx);
  }

  lemma CodesMean(d: Doc)
    ensures (exists c | c in TZS_CODES :: Get(d, Currency) == Some(Text(c))) <==>
      TextOf(d, Currency, {"TZS", "TSH", "TZ", "tzs", "tsh", "tz"})
    ensures (exists c | c in USD_CODES :: Get(d, Currency) == Some(Text(c))) <==> TextOf(d, Currency, {"USD", "usd"})
  {
    if Currency in d && d[Currency].Text? {
      var c := d[Currency].s;
      assert c in TZS_CODES <==> c in {"TZS", "TSH", "TZ", "tzs", "tsh", "tz"};
      assert c in USD_CODES <==> c in {"USD", "usd"};
    }
  }

  /** A date filter asks for a time within one of the days named, to the last second, and
      nothing when no text names a day. */
  lemma DateFilter(d: Doc, raw: seq<string>, ctx: Context)
    ensures Passes(d, ByDate, Values(raw), ctx) <==>
      || (forall n :: !Named(ctx.day, raw, n))
      || (Date in d && d[Date].Time?
          && exists n | n <= d[Date].t <= n + 23 * 3600 + 59 * 60 + 59 :: Named(ctx.day, raw, n))
  {
    NothingNamed(ctx.day, raw);
    forall n ensures n in Parsed(ctx.day, Values(raw)) <==> Named(ctx.day, raw, n) {
      NamedMeans(ctx.day, raw, n);
    }
  }

  /** The stored text is the one sent, in any case, or that and a line break. */
  predicate SameText(d: Doc, f: Field, v: string) {
    f in d && IsString(d[f])
    && (Upper(StringOf(d[f])) == Upper(v) || Upper(StringOf(d[f])) == Upper(v) + "\n")
  }

  lemma SentMeans(raw: seq<string>)
    ensures forall v :: v in Values(raw) <==> Sent(raw, v)
    ensures forall v | Sent(raw, v) :: Strip(v) == v
    ensures Values(raw) == [] <==> forall v :: !Sent(raw, v)
  {
    forall v ensures v in Values(raw) <==> Sent(raw, v) { ValuesMean(raw, v); }
    forall v | Sent(raw, v) ensures Strip(v) == v {
      var i :| 0 <= i < |raw| && Trimmed(raw[i], v);
      TrimmedIsStrip(raw[i], v);
      StripBlank(raw[i]);
    }
    if Values(raw) != [] { assert Values(raw)[0] in Values(raw); }
  }

  lemma SameTextMeans(d: Doc, f: Field, v: string)
    ensures TextIs(d, f, v) <==> SameText(d, f, v)
  {
  }

  /** The text columns ask for one of the texts sent in their field, and nothing when
      nothing was sent. */
  lemma TextFilter(d: Doc, f: Field, raw: seq<string>, ctx: Context)
    ensures Passes(d, Column.ByText(f), Values(raw), ctx) <==>
      (forall v :: !Sent(raw, v)) || exists v | Sent(raw, v) :: SameText(d, f, v)
  {
    SentMeans(raw);
    AnySame(d, f, Values(raw));
    assert Passes(d, Column.ByText(f), Values(raw), ctx) <==>
      Values(raw) == [] || exists v | v in Values(raw) :: TextIs(d, f, v);
  }

  lemma AnySame(d: Doc, f: Field, vals: seq<string>)
    ensures (exists v | v in vals :: TextIs(d, f, v)) <==> exists v | v in vals :: SameText(d, f, v)
  {
    forall v ensures TextIs(d, f, v) <==> SameText(d, f, v) { SameTextMeans(d, f, v); }
  }

  /** An item may also be found in the category name. */
  lemma ItemFilter(d: Doc, raw: seq<string>, ctx: Context)
    ensures Passes(d, ByItem, Values(raw), ctx) <==>
      (forall v :: !Sent(raw, v)) || exists v | Sent(raw, v) :: SameText(d, Item, v) || SameText(d, CategoryName, v)
  {
    SentMeans(raw);
    forall v, f | f in {Item, CategoryName} ensures TextIs(d, f, v) <==> SameText(d, f, v) { SameTextMeans(d, f, v); }
  }

  /** The phrase REFUND TO FLOAT, in any case, also asks for flagged rows. */
  lemma RefFloatFilter(d: Doc, raw: seq<string>, ctx: Context)
    ensures Passes(d, ByRefFloat, Values(raw), ctx) <==>
      || (forall v :: !Sent(raw, v))
      || (exists v | Sent(raw, v) :: SameText(d, RefFloat, v) || (Upper(v) == "REFUND TO FLOAT" && Flagged(d)))
  {
    SentMeans(raw);
    forall v ensures TextIs(d, RefFloat, v) <==> SameText(d, RefFloat, v) { SameTextMeans(d, RefFloat, v); }
    forall v | Sent(raw, v)
      ensures RefFloatIs(d, v) <==> SameText(d, RefFloat, v) || (Upper(v) == "REFUND TO FLOAT" && Flagged(d))
    {
    }
  }

  predicate Flagged(d: Doc) { NotesFlag in d && d[NotesFlag] == Bool(true) }

  // ---------------------------------------------------------------- the range of days

  /** Days are counted from midnight to their last second: a row is in the range when it is
      in the period, not before the midnight that begins the first day and not after the
      last second of the last. */
  lemma RangeOfDays(d: Doc, r: Request, first: int, last: int, a: int, b: int)
    requires r.dateFrom == Some(86400 * first + a) && 0 <= a < 86400
    requires r.dateTo == Some(86400 * last + b) && 0 <= b < 86400
    ensures InRange(d, r) <==>
      Date in d && d[Date].Time? && r.start <= d[Date].t <= r.end && 86400 * first <= d[Date].t < 86400 * (last + 1)
    ensures InRange(d, r.(dateTo := None)) <==>
      Date in d && d[Date].Time? && r.start <= d[Date].t <= r.end && 86400 * first <= d[Date].t
    ensures InRange(d, r.(dateFrom := None)) <==>
      Date in d && d[Date].Time? && r.start <= d[Date].t <= r.end && d[Date].t < 86400 * (last + 1)
    ensures InRange(d, r.(dateFrom := None, dateTo := None)) <==>
      Date in d && d[Date].Time? && r.start <= d[Date].t <= r.end
  {
    assert DayStart(86400 * first + a) == 86400 * first;
    assert DayStart(86400 * last + b) == 86400 * last;
  }

  /** Live rows are verified, and neither asked to be deleted nor in the trash. */
  lemma LiveMeans(d: Doc)
    ensures Live(d) <==>
      && Verified in d && d[Verified] == Bool(true)
      && (DeletionRequested in d ==> d[DeletionRequested] != Bool(true))
      && (Trashed in d ==> d[Trashed] != Bool(true))
  {
  }

  /** The stored text has the one asked for in it, in any case. */
  predicate HasText(d: Doc, f: Field, text: string) {
    f in d && IsString(d[f])
      && exists a, b | 0 <= a <= b <= |StringOf(d[f])| :: Upper(StringOf(d[f])[a..b]) == Upper(text)
  }

  lemma UpperSlice(s: string, a: int, b: int)
    requires 0 <= a <= b <= |s|
    ensures Upper(s)[a..b] == Upper(s[a..b])
  {
  }

  lemma FoldedPart(s: string, text: string)
    ensures Contains(Upper(s), Upper(text)) <==> exists a, b | 0 <= a <= b <= |s| :: Upper(s[a..b]) == Upper(text)
  {
    if i: nat :| i <= |Upper(s)| && PartAt(Upper(s), Upper(text), i) {
      UpperSlice(s, i, i + |text|);
    }
    if a, b :| 0 <= a <= b <= |s| && Upper(s[a..b]) == Upper(text) {
      UpperSlice(s, a, b);
      assert |Upper(s[a..b])| == b - a && |Upper(text)| == b - a;
      assert PartAt(Upper(s), Upper(text), a);
    }
  }

  lemma HasTextMeans(d: Doc, f: Field, text: string)
    ensures Holds(HasFold(text), Get(d, f)) <==> HasText(d, f, text)
  {
    if f in d && IsString(d[f]) { FoldedPart(StringOf(d[f]), text); }
  }

  // ---------------------------------------------------------------- the search box

  /** Digits, after a T and blanks or after nothing. */
  predicate ReadsAsNumber(s: string, p: string, ds: string) {
    (s == "T" + (p + ds) || (p == "" && s == ds)) && AllBlank(p) && ds != "" && AllDigits(ds)
  }

  /** Neither a number nor a plate. */
  ghost predicate ReadsAsText(s: string) {
    (forall p, ds :: !ReadsAsNumber(s, p, ds)) && (forall p, ds, q, suffix :: !ReadsAs(s, p, ds, q, suffix))
  }

  lemma NumberPartMeans(s: string, p: string, ds: string)
    requires ReadsAsNumber(s, p, ds)
    ensures NumberPart(s) == ds
  {
    if s == "T" + (p + ds) {
      assert s[1..] == p + ds;
    } else {
      assert p + ds == ds && s[0] != 'T';
    }
    TrimLeftOver(p, ds);
  }

  lemma NumberPartReads(s: string) returns (p: string)
    requires s != "" && !IsBlank(s[0]) && NumberPart(s) != "" && AllDigits(NumberPart(s))
    ensures ReadsAsNumber(s, p, NumberPart(s))
  {
    if s[0] == 'T' {
      var tail := s[1..];
      TrimLeftParts(tail);
      p := tail[..|tail| - |TrimLeft(tail)|];
      assert s == "T" + tail;
    } else {
      p := "";
    }
  }

  /** What a search finds, by its trimmed text in capitals: everything when there is none;
      labels with the number when it reads as one; labels with the plate when it reads as
      one; and otherwise rows that have the text in their label or description. */
  lemma SearchMeans(d: Doc, search: string, core: string)
    requires Trimmed(search, core)
    ensures core == "" ==> Found(d, search)
    ensures forall p, ds | ReadsAsNumber(Upper(core), p, ds) :: Found(d, search) <==> NumberFound(d, ds)
    ensures forall p, ds, q, suffix | ReadsAs(Upper(core), p, ds, q, suffix) ::
      Found(d, search) <==> PlateFound(d, "T" + (ds + suffix))
    ensures core != "" && ReadsAsText(Upper(core)) ==>
      (Found(d, search) <==> HasText(d, TruckNumber, core) || HasText(d, Description, core))
  {
    TrimmedIsStrip(search, core);
    var u := Upper(core);
    forall p, ds | ReadsAsNumber(u, p, ds) ensures KindOf(search) == ByNumber(ds) { NumberPartMeans(u, p, ds); }
    forall p, ds, q, suffix | ReadsAs(u, p, ds, q, suffix) ensures KindOf(search) == ByPlate("T" + (ds + suffix)) {
      PlateSearchKind(p, ds, q, suffix, search);
    }
    if core != "" && ReadsAsText(u) { OtherSearch(d, search, core); }
  }

  lemma OtherSearch(d: Doc, search: string, core: string)
    requires Trimmed(search, core) && core != ""
    requires ReadsAsText(Upper(core))
    ensures Found(d, search) <==> HasText(d, TruckNumber, core) || HasText(d, Description, core)
  {
    TrimmedIsStrip(search, core);
    var u := Upper(core);
    assert !IsBlank(u[0]);
    if NumberPart(u) != "" && AllDigits(NumberPart(u)) { var p := NumberPartReads(u); }
    if MatchPlate(u, false).Some? { var p, ds, q, suffix := LooseParts(u); }
    HasTextMeans(d, TruckNumber, core);
    HasTextMeans(d, Description, core);
  }

  /** A number finds a label with a plate, however that is written, exactly when the plate
      has that number. */
  lemma NumberFindsPlate(d: Doc, ds: string, p: string, ds': string, q: string, suffix: string)
    requires HasLabel(d) && ReadsAs(Upper(StringOf(d[TruckNumber])), p, ds', q, suffix)
    requires ds != "" && AllDigits(ds)
    ensures NumberFound(d, ds) <==> ds == ds'
  {
    var text, number := Upper(StringOf(d[TruckNumber])), ds' + (q + suffix);
    assert text[1..] == p + number;
    TrimLeftOver(p, number);
    assert NumberPart(text) == number;
    assert NumberFound(d, ds) <==> LabelStarts(number, ds, true);
    NumberEnds(ds', q, suffix, |ds'|, ds);
    if n: nat :| n <= |number| && Heads(number, number[..n], ds) && PlateEnd(number[n..], true) {
      NumberEnds(ds', q, suffix, n, ds);
    }
  }

  lemma NumberEnds(ds': string, q: string, suffix: string, n: nat, ds: string)
    requires ds' != "" && AllDigits(ds') && AllBlank(q) && IsSuffix(suffix) && ds != "" && AllDigits(ds)
    requires n <= |ds' + (q + suffix)|
    ensures var number := ds' + (q + suffix);
      Heads(number, number[..n], ds) && PlateEnd(number[n..], true) <==> n == |ds'| && ds == ds'
  {
    var number := ds' + (q + suffix);
    if n < |ds'| {
      assert number[n..][0] == ds'[n];
      assert TrimLeft(number[n..]) == number[n..];
    } else if n == |ds'| {
      assert number[..n] == ds' && number[n..] == q + suffix;
      UnspacedSolid(ds');
      TrimLeftOver(q, suffix);
    } else {
      LetterInHead(ds', q, suffix, n, ds);
    }
  }

  lemma LetterInHead(ds': string, q: string, suffix: string, n: nat, ds: string)
    requires AllDigits(ds') && AllBlank(q) && IsSuffix(suffix) && AllDigits(ds)
    requires |ds'| < n <= |ds' + (q + suffix)|
    ensures !Heads(ds' + (q + suffix), (ds' + (q + suffix))[..n], ds)
  {
    var number := ds' + (q + suffix);
    var head := number[..n];
    var last := head[n - 1];
    assert last == (q + suffix)[n - 1 - |ds'|];
    if !IsBlank(last) {
      assert head == head[..n - 1] + [last];
      UnspacedConcat(head[..n - 1], [last]);
      assert Unspaced([last]) == [last];
      var read := Unspaced(head);
      assert read[|read| - 1] == last;
    }
  }

  // ---------------------------------------------------------------- suppliers

  /** A supplier payment has one of the names, which are in small letters, for a category;
      a row without a category has the empty name. */
  predicate PaysSupplier(d: Doc, names: seq<string>) {
    exists i | 0 <= i < |names| ::
      if CategoryName in d && IsString(d[CategoryName])
      then Lower(StringOf(d[CategoryName])) == names[i] else names[i] == ""
  }

  /** What the query excludes. */
  lemma SupplierExcluded(d: Doc, query: Query, names: seq<string>)
    ensures Matches(ExcludeSupplierPayments(query, names), d) <==> Matches(query, d) && !PaysSupplier(d, names)
  {
    ExcludeDenotes(query, names, d);
    if LowerOrEmpty(Get(d, CategoryName)) in names {
      var i :| 0 <= i < |names| && names[i] == LowerOrEmpty(Get(d, CategoryName));
      assert PaysSupplier(d, names);
    }
  }

  // ---------------------------------------------------------------- the dictionary built

  predicate PlainQuery(query: Query) { ListOf(query.all) == [] && query.any.Absent? }

  /** A single clause with one entry goes straight into a query that has neither `$and`
      nor `$or`, under its own key. */
  lemma MergeField(query: Query, f: Field, c: Cond)
    requires PlainQuery(query) && f !in query.fields
    ensures MergeAndClauses(query, [One(f, c)]) == query.(all := Absent, fields := query.fields[f := c])
  {
    assert One(f, c).fields == map[f := c] && |map[f := c]| == 1;
    assert query.fields + map[f := c] == query.fields[f := c];
  }

  lemma MergeOther(query: Query, list: seq<Query>, e: Expr)
    requires PlainQuery(query) && e.LowerNotIn?
    ensures MergeAndClauses(query, []) == query
    ensures MergeAndClauses(query, [AllOf(list)]) == query.(all := Given(list))
    ensures MergeAndClauses(query, [AnyOf(list)]) == query.(all := Absent, any := Given(list))
    ensures query.expr.NoExpr? ==>
      MergeAndClauses(query, [Query(map[], Absent, Absent, e)]) == query.(all := Absent, expr := e)
  {
    assert query.fields + map[] == query.fields;
  }

  /** Every other list of clauses is put behind the clauses of the query's `$and`. */
  lemma MergeStacks(query: Query, clauses: seq<Query>)
    requires clauses != []
    requires !PlainQuery(query) || |clauses| > 1 || !OneNewEntry(query, clauses[0])
    ensures MergeAndClauses(query, clauses) == query.(all := Given(ListOf(query.all) + clauses))
  {
    if |clauses| == 1 && Keys(clauses[0]) == 1 && NoSharedKey(clauses[0], query.(all := Absent)) && PlainQuery(query) {
      OneEntry(clauses[0]);
    }
  }

  /** The clause has one entry, under a key that the query (without its `$and`) lacks. */
  ghost predicate OneNewEntry(query: Query, clause: Query) {
    || (exists f, c :: f !in query.fields && clause == One(f, c))
    || (exists list :: clause == AllOf(list))
    || (exists list :: clause == AnyOf(list) && query.any.Absent?)
    || (exists e: Expr :: e.LowerNotIn? && clause == Query(map[], Absent, Absent, e) && query.expr.NoExpr?)
  }

  lemma OneEntry(q: Query)
    requires Keys(q) == 1
    ensures || (exists f, c :: q == One(f, c)) || (exists list :: q == AllOf(list)) || (exists list :: q == AnyOf(list))
      || (q.expr.LowerNotIn? && q == Query(map[], Absent, Absent, q.expr))
  {
    if q.fields == map[] {
      if q.all.Given? { assert q == AllOf(q.all.list); }
      if q.any.Given? { assert q == AnyOf(q.any.list); }
    } else {
      var f :| f in q.fields;
      assert |q.fields.Keys| == 1;
      forall g | g in q.fields ensures g == f {
        if g != f { assert {f, g} <= q.fields.Keys; Cardinality({f, g}, q.fields.Keys); }
      }
      assert q.fields == map[f := q.fields[f]];
      assert q == One(f, q.fields[f]);
    }
  }

  lemma {:induction false} Cardinality(a: set<Field>, b: set<Field>)
    requires a <= b
    ensures |a| <= |b|
  {
    if x :| x in a { Cardinality(a - {x}, b - {x}); }
  }

  // ---------------------------------------------------------------- trash in feeds

  const LIVE := map[Trashed := IsNot(Bool(true))]

  /** A feed query that says nothing about trash gets `{"trashed": {"$ne": true}}` beside it
      under `$and`; `{"trashed": null}` says nothing at the top and something under `$and`. */
  lemma LiveFeed(q: Query, entry: Cond, part: Query)
    ensures AndNotTrashed(Fields(map[])) == Fields(LIVE)
    ensures Trashed in q.fields && q.fields[Trashed] != Is(Null) ==> AndNotTrashed(q) == q
    ensures q.all.Given? && part in q.all.list && Trashed in part.fields ==> AndNotTrashed(q) == q
    ensures (Trashed in q.fields ==> q.fields[Trashed] == Is(Null)) && q != Fields(map[])
        && (q.all.Given? ==> forall p | p in q.all.list :: Trashed !in p.fields)
      ==> AndNotTrashed(q) == AllOf([q, Fields(LIVE)])
  {
    if Keys(q) == 0 { assert q.fields == map[]; }
  }

  /** A pipeline's first stage gets it as one more entry, unless it has one for trash. */
  lemma LivePipeline(stage: Query)
    ensures InjectNotTrashed(None) == Fields(LIVE)
    ensures InjectNotTrashed(Some(stage)) ==
      if Trashed in stage.fields then stage else stage.(fields := stage.fields[Trashed := IsNot(Bool(true))])
  {
  }
}
