/** Master Expenses queries (backend/app/accountant_master_ops.py): dictionaries are
    built and merged key by key, and must still mean the conjunction of everything asked. */
module MasterQuery {
  import opened Ascii
  import opened Mongo
  import opened Words
  import opened Search

  // ---------------------------------------------------------------- merging

  predicate AllMatch(list: seq<Query>, d: Doc) { forall c | c in list :: Matches(c, d) }

  predicate AnyMatch(list: seq<Query>, d: Doc) { exists c | c in list :: Matches(c, d) }

  function ListOf(c: Clauses): seq<Query> { if c.Given? then c.list else [] }

  /** Number of keys of a query dictionary. */
  function Keys(q: Query): nat {
    |q.fields| + (if q.all.Given? then 1 else 0) + (if q.any.Given? then 1 else 0)
      + (if q.expr.NoExpr? then 0 else 1)
  }

  /** No key of `only` is a key of `out`. */
  predicate NoSharedKey(only: Query, out: Query) {
    && (forall f | f in only.fields :: f !in out.fields)
    && !(only.all.Given? && out.all.Given?) && !(only.any.Given? && out.any.Given?)
    && !(only.expr.LowerNotIn? && out.expr.LowerNotIn?)
  }

  /** `dict.update`. */
  function Updated(out: Query, only: Query): Query {
    Query(out.fields + only.fields,
      if only.all.Given? then only.all else out.all,
      if only.any.Given? then only.any else out.any,
      if only.expr.LowerNotIn? then only.expr else out.expr)
  }

  function MergeAndClauses(query: Query, clauses: seq<Query>): Query {
    if clauses == [] then query
    else
      var out := query.(all := Absent);
      var merged := ListOf(query.all) + clauses;
      if |merged| == 1 && out.any.Absent? && ListOf(query.all) == []
         && Keys(merged[0]) == 1 && NoSharedKey(merged[0], out)
      then Updated(out, merged[0])
      else out.(all := Given(merged))
  }

  lemma AllMatchConcat(a: seq<Query>, b: seq<Query>, d: Doc)
    ensures AllMatch(a + b, d) <==> AllMatch(a, d) && AllMatch(b, d)
    ensures AnyMatch(a + b, d) <==> AnyMatch(a, d) || AnyMatch(b, d)
  {
    assert forall c :: c in a + b <==> c in a || c in b;
  }

  /** Inlining a clause that shares no key is taking the conjunction. */
  lemma UpdatedMeans(out: Query, only: Query, d: Doc)
    requires NoSharedKey(only, out)
    ensures Matches(Updated(out, only), d) <==> Matches(out, d) && Matches(only, d)
  {
    BothFields(out.fields, only.fields, d);
    Parts(out, d);
    Parts(only, d);
    Parts(Updated(out, only), d);
  }

  /** A dictionary means what its entries mean. */
  lemma Parts(q: Query, d: Doc)
    ensures Matches(q, d) <==>
      && FieldsHold(q.fields, d) && (q.all.Given? ==> AllMatch(q.all.list, d))
      && (q.any.Given? ==> AnyMatch(q.any.list, d)) && ExprHolds(q.expr, d)
  {
  }

  predicate FieldsHold(fields: map<Field, Cond>, d: Doc) {
    forall f | f in fields :: Holds(fields[f], Get(d, f))
  }

  lemma BothFields(a: map<Field, Cond>, b: map<Field, Cond>, d: Doc)
    requires forall f | f in b :: f !in a
    ensures FieldsHold(a + b, d) <==> FieldsHold(a, d) && FieldsHold(b, d)
  {
    assert forall f | f in a :: f in a + b && (a + b)[f] == a[f];
    assert forall f | f in b :: f in a + b && (a + b)[f] == b[f];
  }

  lemma PutAllMeans(out: Query, list: seq<Query>, d: Doc)
    requires out.all.Absent?
    ensures Matches(out.(all := Given(list)), d) <==> Matches(out, d) && AllMatch(list, d)
  {
  }

  lemma TakeAllMeans(query: Query, d: Doc)
    ensures Matches(query, d) <==> Matches(query.(all := Absent), d) && AllMatch(ListOf(query.all), d)
  {
  }

  /** In every branch the merged dictionary denotes the query and all the clauses. */
  lemma MergeDenotes(query: Query, clauses: seq<Query>, d: Doc)
    ensures Matches(MergeAndClauses(query, clauses), d) <==> Matches(query, d) && AllMatch(clauses, d)
  {
    var out, merged := query.(all := Absent), ListOf(query.all) + clauses;
    TakeAllMeans(query, d);
    AllMatchConcat(ListOf(query.all), clauses, d);
    if clauses != [] {
      PutAllMeans(out, merged, d);
      if |merged| == 1 && NoSharedKey(merged[0], out) {
        UpdatedMeans(out, merged[0], d);
        assert merged == [merged[0]];
      }
    }
  }

  function SupplierClause(names: seq<string>): Query {
    Query(map[], Absent, Absent, LowerNotIn(CategoryName, names))
  }

  function ExcludeSupplierPayments(query: Query, names: seq<string>): Query {
    if names == [] then query else MergeAndClauses(query, [SupplierClause(names)])
  }

  /** Excluding suppliers is one more conjunct, whatever the query already holds, an
      `$expr` included. */
  lemma ExcludeDenotes(query: Query, names: seq<string>, d: Doc)
    ensures Matches(ExcludeSupplierPayments(query, names), d) <==>
      Matches(query, d) && LowerOrEmpty(Get(d, CategoryName)) !in names
  {
    MergeDenotes(query, [SupplierClause(names)], d);
    assert SupplierClause(names) in [SupplierClause(names)];
    assert Matches(SupplierClause(names), d) <==> LowerOrEmpty(Get(d, CategoryName)) !in names;
  }

  // ---------------------------------------------------------------- column filters

  datatype Column = ByDate | ByItem | ByReceipt | ByTzs | ByUsd | ByRefFloat | ByCashier
    | ByText(field: Field) | NotAColumn

  datatype Filter = Filter(column: Column, raw: seq<string>)

  /** `strptime` and `float` on filter texts, and the accounts the cashier names stand for. */
  datatype Context = Context(day: string -> Option<int>, amount: string -> Option<int>, cashiers: seq<nat>)

  const DAY_SECONDS := 86400

  /** `normalize_multi_filter` without the dash that stands for an empty cell. */
  function Values(raw: seq<string>): seq<string> {
    if raw == [] then []
    else
      var text := Strip(raw[|raw| - 1]);
      Values(raw[..|raw| - 1]) + (if text == "" || text == DASH then [] else [text])
  }

  predicate TextIs(d: Doc, f: Field, s: string) { Holds(SameFold(s), Get(d, f)) }

  predicate HasStatus(d: Doc, statuses: seq<string>) {
    exists st | st in statuses :: Get(d, ReceiptStatus) == Some(Text(st))
  }

  const TZS_CODES := ["TZS", "TSH", "TZ", "tzs", "tsh", "tz"]
  const USD_CODES := ["USD", "usd"]

  predicate HasMoney(d: Doc, codes: seq<string>, amounts: seq<int>) {
    && (exists c | c in codes :: Get(d, Currency) == Some(Text(c)))
    && (exists a | a in amounts :: Get(d, Amount) == Some(Num(a)))
  }

  predicate OnDay(d: Doc, day: int) {
    Date in d && d[Date].Time? && day <= d[Date].t <= day + DAY_SECONDS - 1
  }

  /** The days, amounts or statuses that a filter's texts name. */
  function Parsed(parse: string -> Option<int>, vals: seq<string>): seq<int> {
    if vals == [] then []
    else
      var one := parse(vals[|vals| - 1]);
      Parsed(parse, vals[..|vals| - 1]) + (if one.Some? then [one.value] else [])
  }

  function Underscored(s: string): string {
    seq(|s|, i requires 0 <= i < |s| => if s[i] == '_' then ' ' else s[i])
  }

  function StatusesOf(text: string): seq<string> {
    var key := Underscored(Lower(Strip(text)));
    if key == "received" then ["received"]
    else if key == "pending" then ["pending"]
    else if key == "missing" || key == "no receipt" then ["missing", "no_receipt"]
    else []
  }

  function Each(f: string -> seq<string>, vals: seq<string>): seq<string> {
    if vals == [] then [] else Each(f, vals[..|vals| - 1]) + f(vals[|vals| - 1])
  }

  function Statuses(vals: seq<string>): seq<string> { Each(StatusesOf, vals) }

  const REFUND := "REFUND TO FLOAT"

  predicate RefFloatIs(d: Doc, v: string) {
    TextIs(d, RefFloat, v) || (Upper(Strip(v)) == REFUND && IsTrue(d, NotesFlag))
  }

  /** What a column filter asks of a row. A filter whose texts name nothing asks nothing. */
  predicate Passes(d: Doc, column: Column, vals: seq<string>, ctx: Context) {
    vals == [] ||
    match column
    case ByDate => Parsed(ctx.day, vals) == [] || exists day | day in Parsed(ctx.day, vals) :: OnDay(d, day)
    case ByItem => exists v | v in vals :: TextIs(d, Item, v) || TextIs(d, CategoryName, v)
    case ByReceipt => Statuses(vals) == [] || HasStatus(d, Statuses(vals))
    case ByTzs => Parsed(ctx.amount, vals) == [] || HasMoney(d, TZS_CODES, Parsed(ctx.amount, vals))
    case ByUsd => Parsed(ctx.amount, vals) == [] || HasMoney(d, USD_CODES, Parsed(ctx.amount, vals))
    case ByRefFloat => exists v | v in vals :: RefFloatIs(d, v)
    case ByCashier => ctx.cashiers == [] || exists id | id in ctx.cashiers :: Get(d, CashierId) == Some(Oid(id))
    case ByText(field) => exists v | v in vals :: TextIs(d, field, v)
    case NotAColumn => true
  }

  // ---------------------------------------------------------------- clauses

  function Texts(list: seq<string>): seq<Value> {
    seq(|list|, i requires 0 <= i < |list| => Text(list[i]))
  }

  function Nums(list: seq<int>): seq<Value> {
    seq(|list|, i requires 0 <= i < |list| => Num(list[i]))
  }

  function Oids(list: seq<nat>): seq<Value> {
    seq(|list|, i requires 0 <= i < |list| => Oid(list[i]))
  }

  lemma OneOfTexts(list: seq<string>, v: Option<Value>)
    ensures Holds(OneOf(Texts(list)), v) <==> exists s | s in list :: v == Some(Text(s))
  {
    forall s | s in list ensures Text(s) in Texts(list) {
      var i :| 0 <= i < |list| && list[i] == s;
      assert Texts(list)[i] == Text(s);
    }
  }

  lemma OneOfNums(list: seq<int>, v: Option<Value>)
    ensures Holds(OneOf(Nums(list)), v) <==> exists n | n in list :: v == Some(Num(n))
  {
    forall n | n in list ensures Num(n) in Nums(list) {
      var i :| 0 <= i < |list| && list[i] == n;
      assert Nums(list)[i] == Num(n);
    }
  }

  lemma OneOfOids(list: seq<nat>, v: Option<Value>)
    ensures Holds(OneOf(Oids(list)), v) <==> exists n | n in list :: v == Some(Oid(n))
  {
    forall n | n in list ensures Oid(n) in Oids(list) {
      var i :| 0 <= i < |list| && list[i] == n;
      assert Oids(list)[i] == Oid(n);
    }
  }

  function MoneyClause(codes: seq<string>, amounts: seq<int>): Query {
    Fields(map[Currency := OneOf(Texts(codes)), Amount := OneOf(Nums(amounts))])
  }

  lemma MoneyMeans(codes: seq<string>, amounts: seq<int>, d: Doc)
    ensures Matches(MoneyClause(codes, amounts), d) <==> HasMoney(d, codes, amounts)
  {
    var q := MoneyClause(codes, amounts).fields;
    assert q.Keys == {Currency, Amount};
    assert Matches(MoneyClause(codes, amounts), d) <==>
      Holds(q[Currency], Get(d, Currency)) && Holds(q[Amount], Get(d, Amount));
    OneOfTexts(codes, Get(d, Currency));
    OneOfNums(amounts, Get(d, Amount));
  }

  lemma OneMore(list: seq<Query>, c: Query, d: Doc)
    ensures AnyMatch(list + [c], d) <==> AnyMatch(list, d) || Matches(c, d)
    ensures AllMatch(list + [c], d) <==> AllMatch(list, d) && Matches(c, d)
  {
    AllMatchConcat(list, [c], d);
    assert c in [c];
  }

  lemma AnyOfMeans(list: seq<Query>, d: Doc)
    ensures Matches(AnyOf(list), d) <==> AnyMatch(list, d)
  {
  }

  function DayClause(day: int): Query { One(Date, Between(Some(day), Some(day + DAY_SECONDS - 1))) }

  /** Alternatives of a date filter. */
  method DayClauses(days: seq<int>) returns (ors: seq<Query>)
    ensures |ors| == |days|
    ensures forall d :: AnyMatch(ors, d) <==> exists day | day in days :: OnDay(d, day)
  {
    ors := [];
    for i := 0 to |days|
      invariant |ors| == i
      invariant forall d :: AnyMatch(ors, d) <==> exists day | day in days[..i] :: OnDay(d, day)
    {
      assert days[..i + 1] == days[..i] + [days[i]];
      forall d ensures AnyMatch(ors + [DayClause(days[i])], d) <==> AnyMatch(ors, d) || OnDay(d, days[i]) {
        OneMore(ors, DayClause(days[i]), d);
        OneMeans(Date, Between(Some(days[i]), Some(days[i] + DAY_SECONDS - 1)), d);
      }
      ors := ors + [DayClause(days[i])];
    }
    assert days[..|days|] == days;
  }

  /** Alternatives of an item filter: each text is looked for in two fields. */
  method ItemClauses(vals: seq<string>) returns (ors: seq<Query>)
    ensures forall d :: AnyMatch(ors, d) <==>
      exists v | v in vals :: TextIs(d, Item, v) || TextIs(d, CategoryName, v)
  {
    ors := [];
    for i := 0 to |vals|
      invariant forall d :: AnyMatch(ors, d) <==>
        exists v | v in vals[..i] :: TextIs(d, Item, v) || TextIs(d, CategoryName, v)
    {
      assert vals[..i + 1] == vals[..i] + [vals[i]];
      var item, category := One(Item, SameFold(vals[i])), One(CategoryName, SameFold(vals[i]));
      forall d ensures AnyMatch(ors + [item] + [category], d) <==>
        AnyMatch(ors, d) || TextIs(d, Item, vals[i]) || TextIs(d, CategoryName, vals[i])
      {
        OneMore(ors, item, d);
        OneMore(ors + [item], category, d);
        OneMeans(Item, SameFold(vals[i]), d);
        OneMeans(CategoryName, SameFold(vals[i]), d);
      }
      ors := ors + [item] + [category];
    }
    assert vals[..|vals|] == vals;
  }

  /** Alternatives of a refund filter; the phrase REFUND TO FLOAT also asks for the flag. */
  method RefFloatClauses(vals: seq<string>) returns (ors: seq<Query>)
    ensures forall d :: AnyMatch(ors, d) <==> exists v | v in vals :: RefFloatIs(d, v)
  {
    ors := [];
    for i := 0 to |vals|
      invariant forall d :: AnyMatch(ors, d) <==> exists v | v in vals[..i] :: RefFloatIs(d, v)
    {
      assert vals[..i + 1] == vals[..i] + [vals[i]];
      var was := ors;
      var flag, text := One(NotesFlag, Is(YES)), One(RefFloat, SameFold(vals[i]));
      var refund := Upper(Strip(vals[i])) == REFUND;
      if refund { ors := ors + [flag]; }
      forall d ensures AnyMatch(ors + [text], d) <==> AnyMatch(was, d) || RefFloatIs(d, vals[i]) {
        OneMore(was, flag, d);
        OneMore(ors, text, d);
        OneMeans(NotesFlag, Is(YES), d);
        OneMeans(RefFloat, SameFold(vals[i]), d);
      }
      ors := ors + [text];
    }
    assert vals[..|vals|] == vals;
  }

  /** `master_exact_ors`. */
  method TextClauses(field: Field, vals: seq<string>) returns (ors: seq<Query>)
    ensures forall d :: AnyMatch(ors, d) <==> exists v | v in vals :: TextIs(d, field, v)
  {
    ors := [];
    for i := 0 to |vals|
      invariant forall d :: AnyMatch(ors, d) <==> exists v | v in vals[..i] :: TextIs(d, field, v)
    {
      assert vals[..i + 1] == vals[..i] + [vals[i]];
      var c := One(field, SameFold(vals[i]));
      forall d ensures AnyMatch(ors + [c], d) <==> AnyMatch(ors, d) || TextIs(d, field, vals[i]) {
        OneMore(ors, c, d);
        OneMeans(field, SameFold(vals[i]), d);
      }
      ors := ors + [c];
    }
    assert vals[..|vals|] == vals;
  }

  /** What a clause, when there is one, asks of a row. */
  ghost predicate Asks(clause: Option<Query>, d: Doc) {
    clause.Some? ==> Matches(clause.value, d)
  }

  /** The clause of a column whose texts stand for a set of stored values. */
  method ValueClause(column: Column, vals: seq<string>, ctx: Context) returns (clause: Option<Query>)
    requires vals != [] && (column.ByReceipt? || column.ByTzs? || column.ByUsd? || column.ByCashier?)
    ensures forall d :: Asks(clause, d) <==> Passes(d, column, vals, ctx)
  {
    clause := None;
    if column.ByReceipt? {
      var statuses := Statuses(vals);
      if statuses != [] { clause := Some(One(ReceiptStatus, OneOf(Texts(statuses)))); }
      forall d ensures Asks(clause, d) <==> Passes(d, column, vals, ctx) {
        OneMeans(ReceiptStatus, OneOf(Texts(statuses)), d);
        OneOfTexts(statuses, Get(d, ReceiptStatus));
      }
    } else if column.ByCashier? {
      if ctx.cashiers != [] { clause := Some(One(CashierId, OneOf(Oids(ctx.cashiers)))); }
      forall d ensures Asks(clause, d) <==> Passes(d, column, vals, ctx) {
        OneMeans(CashierId, OneOf(Oids(ctx.cashiers)), d);
        OneOfOids(ctx.cashiers, Get(d, CashierId));
      }
    } else {
      var codes := if column.ByTzs? then TZS_CODES else USD_CODES;
      var amounts := Parsed(ctx.amount, vals);
      if amounts != [] { clause := Some(MoneyClause(codes, amounts)); }
      forall d ensures Asks(clause, d) <==> Passes(d, column, vals, ctx) {
        MoneyMeans(codes, amounts, d);
      }
    }
  }

  /** The clause of a column that becomes a list of alternatives. */
  method ChoiceClause(column: Column, vals: seq<string>, ctx: Context) returns (clause: Option<Query>)
    requires vals != [] && (column.ByDate? || column.ByItem? || column.ByRefFloat? || column.ByText?)
    ensures forall d :: Asks(clause, d) <==> Passes(d, column, vals, ctx)
  {
    var ors: seq<Query>;
    if column.ByItem? {
      ors := ItemClauses(vals);
    } else if column.ByRefFloat? {
      ors := RefFloatClauses(vals);
    } else if column.ByText? {
      ors := TextClauses(column.field, vals);
    } else {
      ors := DayClauses(Parsed(ctx.day, vals));
      if ors == [] { return None; }
    }
    clause := Some(AnyOf(ors));
    forall d ensures Asks(clause, d) <==> Passes(d, column, vals, ctx) { AnyOfMeans(ors, d); }
  }

  /** `append_master_column_filters`: rows pass the extended list exactly when they pass
      the list that was there and every filter. */
  method AppendColumnFilters(clauses: seq<Query>, filters: seq<Filter>, ctx: Context)
    returns (out: seq<Query>)
    ensures forall d :: AllMatch(out, d) <==> AllMatch(clauses, d) && PassesAll(d, filters, ctx)
  {
    out := clauses;
    for i := 0 to |filters|
      invariant forall d :: AllMatch(out, d) <==> AllMatch(clauses, d) && PassesAll(d, filters[..i], ctx)
    {
      var column, vals := filters[i].column, Values(filters[i].raw);
      var clause: Option<Query> := None;
      if vals != [] && column != NotAColumn {
        if column.ByReceipt? || column.ByTzs? || column.ByUsd? || column.ByCashier? {
          clause := ValueClause(column, vals, ctx);
        } else {
          clause := ChoiceClause(column, vals, ctx);
        }
      }
      var was := out;
      if clause.Some? { out := out + [clause.value]; }
      forall d ensures AllMatch(out, d) <==> AllMatch(clauses, d) && PassesAll(d, filters[..i + 1], ctx) {
        if clause.Some? { OneMore(was, clause.value, d); }
        PassesOneMore(d, filters, i, ctx);
        assert Asks(clause, d) <==> Passes(d, column, vals, ctx);
      }
    }
    assert filters[..|filters|] == filters;
  }

  predicate PassesAll(d: Doc, filters: seq<Filter>, ctx: Context) {
    forall f | f in filters :: Passes(d, f.column, Values(f.raw), ctx)
  }

  lemma PassesOneMore(d: Doc, filters: seq<Filter>, i: nat, ctx: Context)
    requires i < |filters|
    ensures PassesAll(d, filters[..i + 1], ctx) <==>
      PassesAll(d, filters[..i], ctx) && Passes(d, filters[i].column, Values(filters[i].raw), ctx)
  {
    assert filters[..i + 1] == filters[..i] + [filters[i]];
  }

  // ---------------------------------------------------------------- the whole query

  /** `start` and `end` are the bounds of the asked month or year. */
  datatype Request = Request(start: int, end: int, search: string, truck: string,
    category: string, receipt: string, description: string,
    dateFrom: Option<int>, dateTo: Option<int>, filters: seq<Filter>)

  function DayStart(t: int): int { t - t % DAY_SECONDS }

  function Max(a: int, b: int): int { if a < b then b else a }

  function Min(a: int, b: int): int { if a < b then a else b }

  predicate Live(d: Doc) {
    IsTrue(d, Verified) && !IsTrue(d, DeletionRequested) && !IsTrue(d, Trashed)
  }

  /** In the asked period and in the asked range of days. */
  predicate InRange(d: Doc, r: Request) {
    && InSpan(d, Date, r.start, r.end)
    && (r.dateFrom.Some? ==> DayStart(r.dateFrom.value) <= d[Date].t)
    && (r.dateTo.Some? ==> d[Date].t <= DayStart(r.dateTo.value) + DAY_SECONDS - 1)
  }

  predicate ReceiptIs(d: Doc, receipt: string) {
    if Strip(receipt) == "" || receipt == "all" then true
    else if Strip(receipt) == "missing" then HasStatus(d, ["missing", "no_receipt"])
    else Get(d, ReceiptStatus) == Some(Str(Strip(receipt)))
  }

  /** Everything the request asks of a row. */
  predicate Shown(d: Doc, r: Request, ctx: Context) {
    && Live(d) && InRange(d, r)
    && Found(d, r.search)
    && (Strip(r.description) != "" ==> Holds(HasFold(Strip(r.description)), Get(d, Description)))
    && (Strip(r.truck) != "" ==> Get(d, TruckNumber) == Some(Str(Strip(r.truck))))
    && (Strip(r.category) != "" ==> TextIs(d, CategoryName, Strip(r.category)))
    && ReceiptIs(d, r.receipt)
    && PassesAll(d, r.filters, ctx)
  }

  function BaseMatch(lo: int, hi: int): map<Field, Cond> {
    map[Verified := Is(YES), DeletionRequested := IsNot(YES), Trashed := IsNot(YES),
        Date := Between(Some(lo), Some(hi))]
  }

  lemma BaseMatchMeans(lo: int, hi: int, d: Doc)
    ensures FieldsHold(BaseMatch(lo, hi), d) <==> Live(d) && InSpan(d, Date, lo, hi)
  {
    var q := BaseMatch(lo, hi);
    assert q.Keys == {Verified, DeletionRequested, Trashed, Date};
    assert FieldsHold(q, d) <==>
      && Holds(q[Verified], Get(d, Verified)) && Holds(q[DeletionRequested], Get(d, DeletionRequested))
      && Holds(q[Trashed], Get(d, Trashed)) && Holds(q[Date], Get(d, Date));
  }

  lemma AddField(fields: map<Field, Cond>, f: Field, c: Cond, d: Doc)
    requires f !in fields
    ensures FieldsHold(fields[f := c], d) <==> FieldsHold(fields, d) && Holds(c, Get(d, f))
  {
    BothFields(fields, map[f := c], d);
    assert fields + map[f := c] == fields[f := c];
    assert map[f := c][f] == c;
  }

  function WithEntry(fields: map<Field, Cond>, asked: bool, f: Field, c: Cond): map<Field, Cond> {
    if asked then fields[f := c] else fields
  }

  lemma EntryMeans(fields: map<Field, Cond>, asked: bool, f: Field, c: Cond, d: Doc)
    requires f !in fields
    ensures FieldsHold(WithEntry(fields, asked, f, c), d) <==> FieldsHold(fields, d) && (asked ==> Holds(c, Get(d, f)))
  {
    AddField(fields, f, c, d);
  }

  function ReceiptCond(receipt: string): Cond {
    if Strip(receipt) == "missing" then OneOf(Texts(["missing", "no_receipt"])) else Is(Str(Strip(receipt)))
  }

  lemma ReceiptMeans(receipt: string, d: Doc)
    ensures ReceiptIs(d, receipt) <==>
      (Strip(receipt) != "" && receipt != "all" ==> Holds(ReceiptCond(receipt), Get(d, ReceiptStatus)))
  {
    OneOfTexts(["missing", "no_receipt"], Get(d, ReceiptStatus));
  }

  /** The dictionary entries of the exact filters; no later one overwrites an earlier one. */
  method ExactEntries(r: Request, lo: int, hi: int) returns (fields: map<Field, Cond>)
    ensures forall d :: FieldsHold(fields, d) <==>
      && Live(d) && InSpan(d, Date, lo, hi)
      && (Strip(r.truck) != "" ==> Get(d, TruckNumber) == Some(Str(Strip(r.truck))))
      && (Strip(r.category) != "" ==> TextIs(d, CategoryName, Strip(r.category)))
      && ReceiptIs(d, r.receipt)
  {
    var base := BaseMatch(lo, hi);
    var trucks := WithEntry(base, Strip(r.truck) != "", TruckNumber, Is(Str(Strip(r.truck))));
    var categories := WithEntry(trucks, Strip(r.category) != "", CategoryName, SameFold(Strip(r.category)));
    fields := WithEntry(categories, Strip(r.receipt) != "" && r.receipt != "all", ReceiptStatus,
      ReceiptCond(r.receipt));
    forall d ensures FieldsHold(fields, d) <==>
      && Live(d) && InSpan(d, Date, lo, hi)
      && (Strip(r.truck) != "" ==> Get(d, TruckNumber) == Some(Str(Strip(r.truck))))
      && (Strip(r.category) != "" ==> TextIs(d, CategoryName, Strip(r.category)))
      && ReceiptIs(d, r.receipt)
    {
      BaseMatchMeans(lo, hi, d);
      EntryMeans(base, Strip(r.truck) != "", TruckNumber, Is(Str(Strip(r.truck))), d);
      EntryMeans(trucks, Strip(r.category) != "", CategoryName, SameFold(Strip(r.category)), d);
      EntryMeans(categories, Strip(r.receipt) != "" && r.receipt != "all", ReceiptStatus, ReceiptCond(r.receipt), d);
      ReceiptMeans(r.receipt, d);
    }
  }

  /** `build_master_query` followed by `exclude_supplier_payments`: a row matches exactly
      when it is live, in both date ranges, passes every filter supplied and is not a
      supplier payment. */
  method BuildMasterQuery(r: Request, ctx: Context, suppliers: seq<string>) returns (query: Query)
    ensures forall d :: Matches(query, d) <==>
      Shown(d, r, ctx) && LowerOrEmpty(Get(d, CategoryName)) !in suppliers
  {
    var lo := if r.dateFrom.Some? then Max(r.start, DayStart(r.dateFrom.value)) else r.start;
    var hi := if r.dateTo.Some? then Min(r.end, DayStart(r.dateTo.value) + DAY_SECONDS - 1) else r.end;
    var fields := ExactEntries(r, lo, hi);
    var clauses := OpeningClauses(r);
    clauses := AppendColumnFilters(clauses, r.filters, ctx);
    var merged := MergeAndClauses(Fields(fields), clauses);
    query := ExcludeSupplierPayments(merged, suppliers);
    forall d ensures Matches(query, d) <==>
      Shown(d, r, ctx) && LowerOrEmpty(Get(d, CategoryName)) !in suppliers
    {
      MergeDenotes(Fields(fields), clauses, d);
      ExcludeDenotes(merged, suppliers, d);
      FieldsMean(fields, d);
    }
  }

  lemma FieldsMean(fields: map<Field, Cond>, d: Doc)
    ensures Matches(Fields(fields), d) <==> FieldsHold(fields, d)
  {
  }

  method OpeningClauses(r: Request) returns (clauses: seq<Query>)
    ensures forall d :: AllMatch(clauses, d) <==>
      && Found(d, r.search)
      && (Strip(r.description) != "" ==> Holds(HasFold(Strip(r.description)), Get(d, Description)))
  {
    var box := SearchClause(r.search);
    var first: seq<Query> := if box.Some? then [box.value] else [];
    var text := One(Description, HasFold(Strip(r.description)));
    clauses := if Strip(r.description) != "" then first + [text] else first;
    forall d ensures AllMatch(clauses, d) <==>
      && Found(d, r.search)
      && (Strip(r.description) != "" ==> Holds(HasFold(Strip(r.description)), Get(d, Description)))
    {
      OneMore(first, text, d);
      OneMeans(Description, HasFold(Strip(r.description)), d);
      SearchClauseMeans(r.search, d);
      if box.Some? { assert box.value in first; }
    }
  }

  // ---------------------------------------------------------------- live rows of feeds

  const NOT_TRASHED := Fields(map[Trashed := IsNot(YES)])

  /** The query already says something about trash; `{"trashed": None}` does not count at
      the top, and does count under `$and`. */
  predicate MentionsTrash(q: Query) {
    (Trashed in q.fields && q.fields[Trashed] != Is(Null))
      || exists part | part in ListOf(q.all) :: Trashed in part.fields
  }

  /** `and_not_trashed` (backend/app/feed_ops.py). */
  function AndNotTrashed(q: Query): Query {
    if Keys(q) == 0 then NOT_TRASHED else if MentionsTrash(q) then q else AllOf([q, NOT_TRASHED])
  }

  /** A pipeline by its first `$match`, if it starts with one. */
  function InjectNotTrashed(stage: Option<Query>): Query {
    if stage.None? then NOT_TRASHED
    else if Trashed in stage.value.fields then stage.value
    else stage.value.(fields := stage.value.fields[Trashed := IsNot(YES)])
  }

  lemma NotTrashedMeans(d: Doc)
    ensures Matches(NOT_TRASHED, d) <==> !IsTrue(d, Trashed)
  {
    OneMeans(Trashed, IsNot(YES), d);
  }

  /** A query that says nothing about trash keeps its meaning and loses the trashed rows;
      one that does is left as it is. */
  lemma AndNotTrashedDenotes(q: Query, d: Doc)
    ensures MentionsTrash(q) ==> AndNotTrashed(q) == q
    ensures !MentionsTrash(q) ==>
      (Matches(AndNotTrashed(q), d) <==> Matches(q, d) && !IsTrue(d, Trashed))
  {
    NotTrashedMeans(d);
    if Keys(q) == 0 {
      assert q.fields == map[];
    } else {
      assert q in [q, NOT_TRASHED] && NOT_TRASHED in [q, NOT_TRASHED];
    }
  }

  /** The same for the first stage of a pipeline. */
  lemma InjectNotTrashedDenotes(stage: Option<Query>, d: Doc)
    requires stage.Some? ==> Trashed !in stage.value.fields
    ensures Matches(InjectNotTrashed(stage), d) <==>
      (stage.Some? ==> Matches(stage.value, d)) && !IsTrue(d, Trashed)
  {
    NotTrashedMeans(d);
    if stage.Some? {
      var q := stage.value;
      AddField(q.fields, Trashed, IsNot(YES), d);
      Parts(q, d);
      Parts(InjectNotTrashed(stage), d);
    }
  }
}
