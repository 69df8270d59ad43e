/** The search box of Master Expenses (`master_search_clause` in
    backend/app/accountant_master_ops.py): a number, a plate, or any text. */
module Search {
  import opened Ascii
  import opened Mongo
  import opened Words
  import opened Decimal
  import opened Spread
  import opened Plates

  datatype Kind = Everything | ByNumber(digits: string) | ByPlate(compact: string) | ByText(text: string)

  /** `^T?\s*(\d+)$`, then `^T\s*\d+\s*[A-Z]{2,3}$`, then anything. */
  function KindOf(search: string): Kind {
    var text := Strip(search);
    var number := NumberPart(Upper(text));
    if text == "" then Everything
    else if number != "" && AllDigits(number) then ByNumber(number)
    else if MatchPlate(Upper(text), false).Some? then ByPlate(Unspaced(Upper(text)))
    else ByText(text)
  }

  function SearchClause(search: string): Option<Query> {
    match KindOf(search)
    case Everything => None
    case ByNumber(digits) => Some(One(TruckNumber, PlateLike(PlatePattern(true, digits, true))))
    case ByPlate(compact) => Some(One(TruckNumber, PlateLike(PlatePattern(false, compact, false))))
    case ByText(text) => Some(AnyOf([One(TruckNumber, HasFold(text)), One(Description, HasFold(text))]))
  }

  predicate HasLabel(d: Doc) { TruckNumber in d && IsString(d[TruckNumber]) }

  predicate NumberFound(d: Doc, digits: string) {
    HasLabel(d) && LabelStarts(NumberPart(Upper(StringOf(d[TruckNumber]))), digits, true)
  }

  predicate PlateFound(d: Doc, compact: string) {
    HasLabel(d) && LabelStarts(Upper(StringOf(d[TruckNumber])), compact, false)
  }

  predicate TextFound(d: Doc, text: string) {
    Holds(HasFold(text), Get(d, TruckNumber)) || Holds(HasFold(text), Get(d, Description))
  }

  /** What a search asks of a row. */
  predicate Found(d: Doc, search: string) {
    match KindOf(search)
    case Everything => true
    case ByNumber(digits) => NumberFound(d, digits)
    case ByPlate(compact) => PlateFound(d, compact)
    case ByText(text) => TextFound(d, text)
  }

  lemma {:induction false} UnspacedIsSolid(s: string)
    ensures forall i | 0 <= i < |Unspaced(s)| :: !IsBlank(Unspaced(s)[i])
    ensures s != "" && !IsBlank(s[0]) ==> Unspaced(s) != ""
  {
    if s != "" { UnspacedIsSolid(s[1..]); }
  }

  lemma NumberClauseMeans(digits: string, d: Doc)
    requires digits != "" && AllDigits(digits)
    ensures Matches(One(TruckNumber, PlateLike(PlatePattern(true, digits, true))), d) <==> NumberFound(d, digits)
  {
    OneMeans(TruckNumber, PlateLike(PlatePattern(true, digits, true)), d);
    if HasLabel(d) { PatternMeans(PlatePattern(true, digits, true), StringOf(d[TruckNumber])); }
  }

  lemma PlateClauseMeans(compact: string, d: Doc)
    requires Solid(compact)
    ensures Matches(One(TruckNumber, PlateLike(PlatePattern(false, compact, false))), d) <==> PlateFound(d, compact)
  {
    OneMeans(TruckNumber, PlateLike(PlatePattern(false, compact, false)), d);
    if HasLabel(d) { PatternMeans(PlatePattern(false, compact, false), StringOf(d[TruckNumber])); }
  }

  lemma TextClauseMeans(text: string, d: Doc)
    ensures Matches(AnyOf([One(TruckNumber, HasFold(text)), One(Description, HasFold(text))]), d) <==>
      TextFound(d, text)
  {
    var a, b := One(TruckNumber, HasFold(text)), One(Description, HasFold(text));
    OneMeans(TruckNumber, HasFold(text), d);
    OneMeans(Description, HasFold(text), d);
    assert a in [a, b] && b in [a, b];
  }

  lemma KindIsReadable(search: string)
    ensures KindOf(search).ByNumber? ==> KindOf(search).digits != "" && AllDigits(KindOf(search).digits)
    ensures KindOf(search).ByPlate? ==> Solid(KindOf(search).compact)
  {
    UnspacedIsSolid(Upper(Strip(search)));
  }

  /** The clause finds exactly the rows that the search asks for. */
  lemma SearchClauseMeans(search: string, d: Doc)
    ensures Found(d, search) <==> (SearchClause(search).Some? ==> Matches(SearchClause(search).value, d))
  {
    KindIsReadable(search);
    match KindOf(search) {
      case Everything =>
      case ByNumber(digits) => NumberClauseMeans(digits, d);
      case ByPlate(compact) => PlateClauseMeans(compact, d);
      case ByText(text) => TextClauseMeans(text, d);
    }
  }

  // ---------------------------------------------------------------- plates find plates

  lemma WrittenReads(p: string, ds: string, q: string, suffix: string)
    requires WellWritten(p, ds, q, suffix)
    ensures Unspaced(Written(p, ds, q, suffix)) == "T" + (ds + suffix)
  {
    UnspacedSolid(suffix);
    SkipGap(q, suffix);
    TakeWord(ds, q + suffix);
    SkipGap(p, ds + (q + suffix));
    AfterT(p + (ds + (q + suffix)));
  }

  lemma SkipGap(p: string, s: string)
    requires AllBlank(p)
    ensures Unspaced(p + s) == Unspaced(s)
  {
    UnspacedConcat(p, s);
    UnspacedBlank(p);
  }

  lemma TakeWord(w: string, s: string)
    requires AllDigits(w)
    ensures Unspaced(w + s) == w + Unspaced(s)
  {
    UnspacedConcat(w, s);
    UnspacedSolid(w);
  }

  lemma AfterT(s: string)
    ensures Unspaced("T" + s) == "T" + Unspaced(s)
  {
    assert ("T" + s)[1..] == s;
  }

  lemma WrittenShape(p: string, ds: string, q: string, suffix: string)
    requires WellWritten(p, ds, q, suffix)
    ensures WholeLabel(Written(p, ds, q, suffix))
  {
    var s := Written(p, ds, q, suffix);
    assert s[|s| - 1] == suffix[|suffix| - 1];
  }

  /** Neither padded nor followed by a slash. */
  predicate WholeLabel(s: string) {
    s != "" && !IsBlank(s[0]) && !IsBlank(s[|s| - 1]) && '/' !in s
  }

  lemma NoMorePlate(rest: string)
    requires rest != "" ==> !IsBlank(rest[|rest| - 1])
    requires '/' !in rest
    ensures PlateEnd(rest, false) <==> rest == ""
  {
    TrimLeftParts(rest);
    var t := TrimLeft(rest);
    assert t != "" ==> t[0] == rest[|rest| - |t|];
  }

  /** A text that is a whole plate begins as another plate reads exactly when it is that plate. */
  lemma WholePlateStarts(s: string, body: string)
    requires WholeLabel(s)
    ensures LabelStarts(s, body, false) <==> Unspaced(s) == body
  {
    forall n: nat | n <= |s| ensures PlateEnd(s[n..], false) <==> n == |s| {
      NoMorePlate(s[n..]);
    }
    assert s[..|s|] == s;
    assert Unspaced(s) == body ==> Heads(s, s[..|s|], body);
  }

  lemma SameParts(ds: string, suffix: string, ds': string, suffix': string)
    requires AllDigits(ds) && AllDigits(ds') && IsSuffix(suffix) && IsSuffix(suffix')
    ensures ds + suffix == ds' + suffix' <==> ds == ds' && suffix == suffix'
  {
    if ds + suffix == ds' + suffix' {
      DigitCountOver(ds, suffix);
      DigitCountOver(ds', suffix');
      assert (ds + suffix)[..|ds|] == ds && (ds' + suffix')[..|ds'|] == ds';
      assert (ds + suffix)[|ds|..] == suffix && (ds' + suffix')[|ds'|..] == suffix';
    }
  }

  lemma NumberPartOfPlate(p: string, ds: string, q: string, suffix: string)
    requires WellWritten(p, ds, q, suffix)
    ensures !AllDigits(NumberPart(Written(p, ds, q, suffix)))
  {
    var s, number := Written(p, ds, q, suffix), ds + (q + suffix);
    assert s[1..] == p + number;
    TrimLeftOver(p, number);
    assert number[|number| - 1] == suffix[|suffix| - 1];
  }

  lemma PlateSearchKind(p: string, ds: string, q: string, suffix: string, search: string)
    requires WellWritten(p, ds, q, suffix) && Upper(Strip(search)) == Written(p, ds, q, suffix)
    ensures KindOf(search) == ByPlate("T" + (ds + suffix))
  {
    WrittenReads(p, ds, q, suffix);
    MatchWritten(p, ds, q, suffix);
    NumberPartOfPlate(p, ds, q, suffix);
    assert Strip(search) != "";
  }

  /** A row labelled with a plate, written with any gaps. */
  lemma PlateFoundExact(d: Doc, p: string, ds: string, q: string, suffix: string,
      ds': string, suffix': string)
    requires HasLabel(d) && Upper(StringOf(d[TruckNumber])) == Written(p, ds, q, suffix)
      && WellWritten(p, ds, q, suffix)
    requires AllDigits(ds') && IsSuffix(suffix')
    ensures PlateFound(d, "T" + (ds' + suffix')) <==> ds == ds' && suffix == suffix'
  {
    WrittenShape(p, ds, q, suffix);
    WholePlateStarts(Written(p, ds, q, suffix), "T" + (ds' + suffix'));
    WrittenReads(p, ds, q, suffix);
    PrefixT(ds + suffix, ds' + suffix');
    SameParts(ds, suffix, ds', suffix');
  }

  /** Searching for a plate, however it is typed, finds a row labelled with a plate, however
      that is written, exactly when the two have the same digits and the same suffix. */
  lemma PlateSearchExact(before: string, t: char, p: string, ds: string, q: string,
      suffix: string, after: string, d: Doc, u: char, p': string, ds': string, q': string, suffix': string)
    requires AllBlank(before) && AllBlank(p) && AllBlank(q) && AllBlank(after) && AllBlank(p') && AllBlank(q')
    requires (t == 'T' || t == 't') && (u == 'T' || u == 't')
    requires ds != "" && AllDigits(ds) && IsAnyCaseSuffix(suffix)
    requires ds' != "" && AllDigits(ds') && IsAnyCaseSuffix(suffix')
    requires HasLabel(d) && StringOf(d[TruckNumber]) == AnyCase(u, p', ds', q', suffix')
    ensures Found(d, before + AnyCase(t, p, ds, q, suffix) + after) <==>
      ds' == ds && Upper(suffix') == Upper(suffix)
  {
    var plate := AnyCase(t, p, ds, q, suffix);
    LastOfPlate(t, p, ds, q, suffix);
    StripOver(before, plate, after);
    UpperPlate(t, p, ds, q, suffix);
    PlateSearchKind(p, ds, q, Upper(suffix), before + plate + after);
    UpperPlate(u, p', ds', q', suffix');
    PlateFoundExact(d, p', ds', q', Upper(suffix'), ds, Upper(suffix));
  }

  lemma LastOfPlate(t: char, p: string, ds: string, q: string, suffix: string)
    requires IsAnyCaseSuffix(suffix)
    ensures var plate := AnyCase(t, p, ds, q, suffix);
      plate[0] == t && plate[|plate| - 1] == suffix[|suffix| - 1]
  {
  }

  lemma PrefixT(a: string, b: string)
    ensures "T" + a == "T" + b <==> a == b
  {
    assert ("T" + a)[1..] == a && ("T" + b)[1..] == b;
  }
}
