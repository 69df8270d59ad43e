/** Cashier overview charts (backend/app/cashier_overview_ops.py): one pass over the
    documents fills nested buckets, and no money is lost on the way to the slices. */
module Charts {
  import opened Ascii
  import opened Mongo
  import opened Words
  import opened Layout
  import opened Decimal

  // ---------------------------------------------------------------- documents

  /** `day` is None when the stored date cannot be read; amounts are in minor units. */
  datatype Expense = Expense(day: Option<int>, amount: int, currency: string, item: string,
    category: string, payee: string, trashed: bool, discarded: bool)

  datatype Coin = Tzs | Usd | Zmw | Count

  const UNASSIGNED := "Unassigned"

  function OrElse(s: string, other: string): string { if s == "" then other else s }

  function ItemLabel(d: Expense): string {
    OrElse(Strip(OrElse(d.item, d.category)), "Uncategorised")
  }

  function PayeeLabel(d: Expense): string { OrElse(Strip(d.payee), UNASSIGNED) }

  function CurrencyKey(d: Expense): Option<Coin> {
    var cur := Upper(Strip(d.currency));
    if cur in ["TZS", "TSH", "TZ", ""] then Some(Tzs)
    else if cur == "USD" then Some(Usd)
    else if cur in ["ZMW", "ZMB", "ZK"] then Some(Zmw)
    else None
  }

  /** The chart a document is counted in, by the trimmed text of its currency in any case:
      shillings when there is none, and no chart when it is none of the codes. */
  lemma CurrencyMeans(d: Expense, text: string)
    requires Trimmed(d.currency, text)
    ensures CurrencyKey(d) == Some(Tzs) <==>
      text == "" || SameLetters(text, "TZS") || SameLetters(text, "TSH") || SameLetters(text, "TZ")
    ensures CurrencyKey(d) == Some(Usd) <==> SameLetters(text, "USD")
    ensures CurrencyKey(d) == Some(Zmw) <==>
      SameLetters(text, "ZMW") || SameLetters(text, "ZMB") || SameLetters(text, "ZK")
    ensures CurrencyKey(d) != Some(Count)
  {
    TrimmedIsStrip(d.currency, text);
    SameLettersMeans(text, "TZS");
    SameLettersMeans(text, "TSH");
    SameLettersMeans(text, "TZ");
    SameLettersMeans(text, "USD");
    SameLettersMeans(text, "ZMW");
    SameLettersMeans(text, "ZMB");
    SameLettersMeans(text, "ZK");
    assert |Upper(text)| == |text|;
    CodesDiffer(Upper(text));
  }

  lemma CodesDiffer(cur: string)
    ensures cur in ["TZS", "TSH", "TZ", ""] <==> cur == "TZS" || cur == "TSH" || cur == "TZ" || cur == ""
    ensures cur in ["ZMW", "ZMB", "ZK"] <==> cur == "ZMW" || cur == "ZMB" || cur == "ZK"
    ensures cur in ["TZS", "TSH", "TZ", ""] ==> cur != "USD" && cur !in ["ZMW", "ZMB", "ZK"]
    ensures cur in ["ZMW", "ZMB", "ZK"] ==> cur != "USD"
  {
  }

  /** The names a document is charted under: its item, or its category when it has no
      item, and its payee, each trimmed, or the word for none. */
  lemma LabelsMean(d: Expense, item: string, payee: string)
    requires Trimmed(if |d.item| == 0 then d.category else d.item, item) && Trimmed(d.payee, payee)
    ensures ItemLabel(d) == if |item| == 0 then "Uncategorised" else item
    ensures PayeeLabel(d) == if |payee| == 0 then "Unassigned" else payee
  {
    TrimmedIsStrip(if d.item == "" then d.category else d.item, item);
    TrimmedIsStrip(d.payee, payee);
  }

  datatype Year = Year(first: int, last: int)

  /** The documents a chart is made of. */
  predicate Charted(d: Expense, y: Year) {
    && d.day.Some? && y.first <= d.day.value <= y.last
    && !d.trashed && !d.discarded && d.amount != 0 && CurrencyKey(d).Some?
  }

  /** Which documents are charted: dated in the year, neither in trash nor discarded, with an
      amount of either sign in a known currency. */
  lemma ChartedMeans(d: Expense, y: Year, text: string)
    requires Trimmed(d.currency, text)
    ensures Charted(d, y) <==>
      && d.day.Some? && y.first <= d.day.value && d.day.value <= y.last && !d.trashed && !d.discarded
      && (d.amount > 0 || d.amount < 0)
      && (text == "" || SameLetters(text, "TZS") || SameLetters(text, "TSH") || SameLetters(text, "TZ")
          || SameLetters(text, "USD")
          || SameLetters(text, "ZMW") || SameLetters(text, "ZMB") || SameLetters(text, "ZK"))
  {
    CurrencyMeans(d, text);
  }

  // ---------------------------------------------------------------- what the sums should be

  datatype Group = Everything | OfItem(item: string) | OnDay(day: int)
    | OfPayee(payee: string) | OfPayeeOn(payee: string, day: int)

  predicate In(g: Group, d: Expense) {
    match g
    case Everything => true
    case OfItem(item) => ItemLabel(d) == item
    case OnDay(day) => d.day == Some(day)
    case OfPayee(payee) => PayeeLabel(d) == payee
    case OfPayeeOn(payee, day) => PayeeLabel(d) == payee && d.day == Some(day)
  }

  function Gain(d: Expense, c: Coin): nat {
    if c == Count then 1 else if CurrencyKey(d) == Some(c) then Abs(d.amount) else 0
  }

  /** Money of one currency, or the number of documents, in a group. */
  function Sum(docs: seq<Expense>, y: Year, g: Group, c: Coin): nat {
    if docs == [] then 0
    else
      var d := docs[|docs| - 1];
      Sum(docs[..|docs| - 1], y, g, c) + (if Charted(d, y) && In(g, d) then Gain(d, c) else 0)
  }

  // ---------------------------------------------------------------- buckets

  datatype Bucket = Bucket(tzs: nat, usd: nat, zmw: nat, count: nat)

  const EMPTY := Bucket(0, 0, 0, 0)

  function Part(b: Bucket, c: Coin): nat {
    match c case Tzs => b.tzs case Usd => b.usd case Zmw => b.zmw case Count => b.count
  }

  /** `_add_money`. */
  function AddMoney(b: Bucket, d: Expense): Bucket {
    if d.amount == 0 || CurrencyKey(d).None? then b
    else match CurrencyKey(d).value
      case Tzs => b.(tzs := b.tzs + Abs(d.amount))
      case Usd => b.(usd := b.usd + Abs(d.amount))
      case _ => b.(zmw := b.zmw + Abs(d.amount))
  }

  /** `_rank_key`. */
  function RankKey(b: Bucket): nat {
    var m := if b.tzs < b.usd then b.usd else b.tzs;
    if m < b.zmw then b.zmw else m
  }

  /** Slices are ranked by their largest amount in any one currency. */
  lemma RankIsLargest(b: Bucket)
    ensures RankKey(b) in {b.tzs, b.usd, b.zmw}
    ensures RankKey(b) >= b.tzs && RankKey(b) >= b.usd && RankKey(b) >= b.zmw
  {
  }

  function BucketAt<K>(m: map<K, Bucket>, k: K): Bucket { if k in m then m[k] else EMPTY }

  ghost function MapSum<K>(m: map<K, Bucket>, c: Coin): nat {
    if m == map[] then 0 else var k :| k in m; Part(m[k], c) + MapSum(m - {k}, c)
  }

  /** Any key may be taken out first. */
  lemma {:induction false} MapSumWithout<K>(m: map<K, Bucket>, k: K, c: Coin)
    requires k in m
    ensures MapSum(m, c) == Part(m[k], c) + MapSum(m - {k}, c)
    decreases |m|
  {
    var first :| first in m && MapSum(m, c) == Part(m[first], c) + MapSum(m - {first}, c);
    if first != k {
      MapSumWithout(m - {first}, k, c);
      MapSumWithout(m - {k}, first, c);
      assert m - {first} - {k} == m - {k} - {first};
    }
  }

  lemma MapSumPut<K>(m: map<K, Bucket>, k: K, b: Bucket, c: Coin)
    ensures MapSum(m[k := b], c) + Part(BucketAt(m, k), c) == MapSum(m, c) + Part(b, c)
  {
    MapSumWithout(m[k := b], k, c);
    assert m[k := b] - {k} == m - {k};
    if k in m { MapSumWithout(m, k, c); } else { assert m - {k} == m; }
  }

  // ---------------------------------------------------------------- ranking

  datatype Slice = Slice(name: string, money: Bucket)

  predicate Descending(list: seq<Slice>) {
    forall i, j | 0 <= i < j < |list| :: RankKey(list[i].money) >= RankKey(list[j].money)
  }

  /** Insert before the first slice that ranks lower. */
  function InsertRanked(list: seq<Slice>, s: Slice): (r: seq<Slice>)
    ensures multiset(r) == multiset(list) + multiset{s}
    ensures Descending(list) ==> Descending(r)
  {
    if list == [] then [s]
    else if RankKey(list[0].money) < RankKey(s.money) then [s] + list
    else
      var r := [list[0]] + InsertRanked(list[1..], s);
      InsertedAfter(list, s, InsertRanked(list[1..], s));
      r
  }

  lemma InsertedAfter(list: seq<Slice>, s: Slice, rest: seq<Slice>)
    requires list != [] && RankKey(list[0].money) >= RankKey(s.money)
    requires multiset(rest) == multiset(list[1..]) + multiset{s}
    ensures multiset([list[0]] + rest) == multiset(list) + multiset{s}
    ensures Descending(list) && Descending(rest) ==> Descending([list[0]] + rest)
  {
    assert list == [list[0]] + list[1..];
    if Descending(list) && Descending(rest) {
      forall j | 0 <= j < |rest| ensures RankKey(list[0].money) >= RankKey(rest[j].money) {
        assert rest[j] in multiset(rest);
        assert rest[j] in multiset(list[1..]) || rest[j] == s;
        if rest[j] in list[1..] {
          var i :| 0 <= i < |list[1..]| && list[1..][i] == rest[j];
          assert list[i + 1] == rest[j];
        }
      }
    }
  }

  function ListSum(list: seq<Slice>, c: Coin): nat {
    if list == [] then 0 else Part(list[0].money, c) + ListSum(list[1..], c)
  }

  lemma {:induction false} InsertedSum(list: seq<Slice>, s: Slice, c: Coin)
    ensures ListSum(InsertRanked(list, s), c) == ListSum(list, c) + Part(s.money, c)
    decreases |list|
  {
    if list != [] && RankKey(list[0].money) >= RankKey(s.money) {
      InsertedSum(list[1..], s, c);
    } else {
      assert ([s] + list)[1..] == list;
    }
  }

  lemma {:induction false} ListSumConcat(a: seq<Slice>, b: seq<Slice>, c: Coin)
    ensures ListSum(a + b, c) == ListSum(a, c) + ListSum(b, c)
    decreases |a|
  {
    if a == [] {
      assert a + b == b;
    } else {
      assert (a + b)[1..] == a[1..] + b;
      ListSumConcat(a[1..], b, c);
    }
  }

  function Entries(m: map<string, Bucket>): set<Slice> {
    set k | k in m :: Slice(k, m[k])
  }

  lemma EntryMeans(m: map<string, Bucket>, s: Slice)
    ensures s in Entries(m) <==> s.name in m && m[s.name] == s.money
  {
    if s.name in m && m[s.name] == s.money { assert s == Slice(s.name, m[s.name]); }
  }

  /** The list ranks exactly the entries of the map. */
  ghost predicate Ranks(list: seq<Slice>, m: map<string, Bucket>) {
    Descending(list) && multiset(list) == multiset(Entries(m))
    && forall c :: ListSum(list, c) == MapSum(m, c)
  }

  lemma RankStep(list: seq<Slice>, done: map<string, Bucket>, k: string, b: Bucket)
    requires Ranks(list, done) && k !in done
    ensures Ranks(InsertRanked(list, Slice(k, b)), done[k := b])
  {
    var s := Slice(k, b);
    forall c ensures ListSum(InsertRanked(list, s), c) == MapSum(done[k := b], c) {
      InsertedSum(list, s, c);
      MapSumPut(done, k, b, c);
    }
    EntriesPut(done, k, b);
  }

  lemma EntriesPut(m: map<string, Bucket>, k: string, b: Bucket)
    requires k !in m
    ensures Slice(k, b) !in Entries(m) && Entries(m[k := b]) == Entries(m) + {Slice(k, b)}
    ensures multiset(Entries(m[k := b])) == multiset(Entries(m)) + multiset{Slice(k, b)}
  {
    EntryMeans(m, Slice(k, b));
    forall e ensures e in Entries(m[k := b]) <==> e in Entries(m) + {Slice(k, b)} {
      EntryMeans(m[k := b], e);
      EntryMeans(m, e);
    }
  }

  /** Of `m`, the keys in `todo` are still to be ranked. */
  predicate PartOf(done: map<string, Bucket>, todo: set<string>, m: map<string, Bucket>) {
    done.Keys + todo == m.Keys && done.Keys !! todo && forall k | k in done :: done[k] == m[k]
  }

  lemma PartStep(done: map<string, Bucket>, todo: set<string>, m: map<string, Bucket>, k: string)
    requires PartOf(done, todo, m) && k in todo
    ensures k in m && k !in done && PartOf(done[k := m[k]], todo - {k}, m)
  {
  }

  lemma AllRanked(done: map<string, Bucket>, m: map<string, Bucket>)
    requires PartOf(done, {}, m)
    ensures done == m
  {
  }

  /** `sorted(totals.items(), key=rank, reverse=True)`; the order of equals is left open. */
  method Ranked(m: map<string, Bucket>) returns (list: seq<Slice>)
    ensures Ranks(list, m)
  {
    list := [];
    var todo := m.Keys;
    ghost var done: map<string, Bucket> := map[];
    RanksNothing();
    while todo != {}
      invariant Ranks(list, done) && PartOf(done, todo, m)
      decreases todo
    {
      var k :| k in todo;
      PartStep(done, todo, m, k);
      RankStep(list, done, k, m[k]);
      list, done, todo := InsertRanked(list, Slice(k, m[k])), done[k := m[k]], todo - {k};
    }
    AllRanked(done, m);
  }

  /** Entries with money, as the charts keep them. */
  function Positive(list: seq<Slice>): (r: seq<Slice>)
    ensures forall s :: s in r <==> s in list && RankKey(s.money) > 0
  {
    if list == [] then []
    else (if RankKey(list[0].money) > 0 then [list[0]] else []) + Positive(list[1..])
  }

  lemma {:induction false} PositiveSum(list: seq<Slice>, c: Coin)
    requires c != Count
    ensures ListSum(Positive(list), c) == ListSum(list, c)
  {
    if list != [] {
      PositiveSum(list[1..], c);
      if RankKey(list[0].money) > 0 {
        assert Positive(list)[1..] == Positive(list[1..]);
      } else {
        assert Positive(list) == Positive(list[1..]);
      }
    }
  }

  lemma {:induction false} PositiveEntries(list: seq<Slice>, s: Slice)
    ensures multiset(Positive(list))[s] == if RankKey(s.money) > 0 then multiset(list)[s] else 0
  {
    if list != [] {
      PositiveEntries(list[1..], s);
      assert list == [list[0]] + list[1..];
    }
  }

  lemma {:induction false} PositiveDescends(list: seq<Slice>)
    requires Descending(list)
    ensures Descending(Positive(list))
  {
    if list != [] {
      PositiveDescends(list[1..]);
      var tail := Positive(list[1..]);
      forall j | 0 <= j < |tail| ensures RankKey(list[0].money) >= RankKey(tail[j].money) {
        assert tail[j] in list[1..];
        var i :| 0 <= i < |list[1..]| && list[1..][i] == tail[j];
        assert list[i + 1] == tail[j];
      }
    }
  }

  lemma ListSumNext(list: seq<Slice>, i: nat, c: Coin)
    requires i < |list|
    ensures ListSum(list[..i + 1], c) == ListSum(list[..i], c) + Part(list[i].money, c)
  {
    assert list[..i + 1] == list[..i] + [list[i]];
    ListSumConcat(list[..i], [list[i]], c);
    assert [list[i]][1..] == [];
  }

  function Added(a: Bucket, b: Bucket): (r: Bucket)
    ensures forall c | c != Count :: Part(r, c) == Part(a, c) + Part(b, c)
  {
    Bucket(a.tzs + b.tzs, a.usd + b.usd, a.zmw + b.zmw, 0)
  }

  /** The pooled remainder. */
  method Pool(rest: seq<Slice>) returns (other: Bucket)
    ensures forall c | c != Count :: Part(other, c) == ListSum(rest, c)
  {
    other := EMPTY;
    for i := 0 to |rest|
      invariant forall c | c != Count :: Part(other, c) == ListSum(rest[..i], c)
    {
      other := Added(other, rest[i].money);
      forall c | c != Count ensures Part(other, c) == ListSum(rest[..i + 1], c) {
        ListSumNext(rest, i, c);
      }
    }
    assert rest[..|rest|] == rest;
  }

  function AtLeastOne(n: int): nat { if n < 1 then 1 else n }

  function WithMoney(m: map<string, Bucket>): set<Slice> {
    set s | s in Entries(m) && RankKey(s.money) > 0
  }

  /** Every entry with money is in one of the two lists, and none in the first ranks
      below one in the second. */
  ghost predicate SplitsByRank(m: map<string, Bucket>, top: seq<Slice>, rest: seq<Slice>) {
    && multiset(top + rest) == multiset(WithMoney(m))
    && (forall i, j | 0 <= i < |top| && 0 <= j < |rest| :: RankKey(top[i].money) >= RankKey(rest[j].money))
    && Descending(top)
  }

  lemma PositiveOfEntries(m: map<string, Bucket>, ranked: seq<Slice>)
    requires multiset(ranked) == multiset(Entries(m))
    ensures multiset(Positive(ranked)) == multiset(WithMoney(m))
  {
    forall s ensures multiset(Positive(ranked))[s] == multiset(WithMoney(m))[s] { PositiveEntries(ranked, s); }
  }

  lemma CutListSum(list: seq<Slice>, n: nat, c: Coin)
    requires n <= |list|
    ensures ListSum(list[..n], c) + ListSum(list[n..], c) == ListSum(list, c)
  {
    assert list[..n] + list[n..] == list;
    ListSumConcat(list[..n], list[n..], c);
  }

  lemma CutSums(m: map<string, Bucket>, ranked: seq<Slice>, n: nat, c: Coin)
    requires Ranks(ranked, m) && n <= |Positive(ranked)| && c != Count
    ensures ListSum(Positive(ranked)[..n], c) + ListSum(Positive(ranked)[n..], c) == MapSum(m, c)
  {
    CutListSum(Positive(ranked), n, c);
    PositiveSum(ranked, c);
  }

  lemma CutByRank(m: map<string, Bucket>, ranked: seq<Slice>, n: nat)
    requires Ranks(ranked, m) && n <= |Positive(ranked)|
    ensures SplitsByRank(m, Positive(ranked)[..n], Positive(ranked)[n..])
  {
    var list := Positive(ranked);
    PositiveDescends(ranked);
    PositiveOfEntries(m, ranked);
    CutDescending(list, n);
  }

  lemma CutDescending(list: seq<Slice>, n: nat)
    requires Descending(list) && n <= |list|
    ensures list[..n] + list[n..] == list && Descending(list[..n])
    ensures forall i, j | 0 <= i < |list[..n]| && 0 <= j < |list[n..]| ::
      RankKey(list[..n][i].money) >= RankKey(list[n..][j].money)
  {
  }

  lemma ShownIsEntry(m: map<string, Bucket>, top: seq<Slice>, rest: seq<Slice>, i: nat)
    requires SplitsByRank(m, top, rest) && i < |top|
    ensures top[i].name in m && m[top[i].name] == top[i].money && RankKey(top[i].money) > 0
  {
    assert (top + rest)[i] == top[i];
    assert top[i] in multiset(top + rest);
    EntryMeans(m, top[i]);
  }

  lemma RanksNothing()
    ensures Ranks([], map[])
  {
    assert Entries(map[]) == {};
  }

  /** The at most `limit` highest ranked entries with money. */
  method TopOf(m: map<string, Bucket>, limit: nat) returns (top: seq<Slice>, rest: seq<Slice>)
    ensures SplitsByRank(m, top, rest) && |top| <= limit && (rest != [] ==> |top| == limit)
    ensures forall c | c != Count :: ListSum(top, c) + ListSum(rest, c) == MapSum(m, c)
  {
    var all := Ranked(m);
    var ranked := Positive(all);
    var n := if limit < |ranked| then limit else |ranked|;
    CutByRank(m, all, n);
    forall c | c != Count ensures ListSum(ranked[..n], c) + ListSum(ranked[n..], c) == MapSum(m, c) {
      CutSums(m, all, n, c);
    }
    top, rest := ranked[..n], ranked[n..];
  }

  method WithOther(top: seq<Slice>, rest: seq<Slice>) returns (slices: seq<Slice>)
    ensures rest == [] ==> slices == top
    ensures rest != [] ==> |slices| == |top| + 1 && slices[..|top|] == top && slices[|top|].name == "Other"
    ensures forall c | c != Count :: ListSum(slices, c) == ListSum(top, c) + ListSum(rest, c)
  {
    slices := top;
    if rest == [] { return; }
    var other := Pool(rest);
    slices := slices + [Slice("Other", other)];
    forall c ensures ListSum(slices, c) == ListSum(top, c) + Part(other, c) {
      ListSumConcat(top, [Slice("Other", other)], c);
      assert [Slice("Other", other)][1..] == [];
    }
  }

  /** `_top_breakdown`: the largest entries by name and one pool for all others; per
      currency the slices add up to everything. */
  method TopBreakdown(totals: map<string, Bucket>, topN: int)
    returns (slices: seq<Slice>, ghost top: seq<Slice>, ghost rest: seq<Slice>)
    ensures SplitsByRank(totals, top, rest)
    ensures |top| <= AtLeastOne(topN) && (rest != [] ==> |top| == AtLeastOne(topN))
    ensures rest == [] ==> slices == top
    ensures rest != [] ==> |slices| == |top| + 1 && slices[..|top|] == top && slices[|top|].name == "Other"
    ensures forall c | c != Count :: ListSum(slices, c) == MapSum(totals, c)
  {
    var largest, others := TopOf(totals, AtLeastOne(topN));
    top, rest := largest, others;
    slices := WithOther(largest, others);
  }

  // ---------------------------------------------------------------- filling the buckets

  lemma SumStep(docs: seq<Expense>, i: nat, y: Year, g: Group, c: Coin)
    requires i < |docs|
    ensures Sum(docs[..i + 1], y, g, c) ==
      Sum(docs[..i], y, g, c) + (if Charted(docs[i], y) && In(g, docs[i]) then Gain(docs[i], c) else 0)
  {
    assert docs[..i + 1][..i] == docs[..i];
  }

  lemma AddMoneyGains(b: Bucket, d: Expense, y: Year, c: Coin)
    requires Charted(d, y)
    ensures Part(AddMoney(b, d), c) == Part(b, c) + if c == Count then 0 else Gain(d, c)
  {
  }

  ghost predicate ItemsFilled(docs: seq<Expense>, y: Year, items: map<string, Bucket>) {
    && (forall k, c | c != Count :: Part(BucketAt(items, k), c) == Sum(docs, y, OfItem(k), c))
    && (forall c | c != Count :: MapSum(items, c) == Sum(docs, y, Everything, c))
  }

  ghost predicate DaysFilled(docs: seq<Expense>, y: Year, days: map<int, Bucket>) {
    && (forall k, c :: Part(BucketAt(days, k), c) == Sum(docs, y, OnDay(k), c))
    && (forall c :: MapSum(days, c) == Sum(docs, y, Everything, c))
  }

  function DaysOf(m: map<string, map<int, Bucket>>, payee: string): map<int, Bucket> {
    if payee in m then m[payee] else map[]
  }

  ghost predicate PayeesFilled(docs: seq<Expense>, y: Year, payees: map<string, Bucket>,
      days: map<string, map<int, Bucket>>)
  {
    && UNASSIGNED !in payees && payees.Keys == days.Keys
    && (forall p, c | p != UNASSIGNED && c != Count ::
          Part(BucketAt(payees, p), c) == Sum(docs, y, OfPayee(p), c))
    && (forall p, k, c | p != UNASSIGNED && c != Count ::
          Part(BucketAt(DaysOf(days, p), k), c) == Sum(docs, y, OfPayeeOn(p, k), c))
    && (forall p, c | p != UNASSIGNED && c != Count ::
          MapSum(DaysOf(days, p), c) == Sum(docs, y, OfPayee(p), c))
  }

  function WithItem(items: map<string, Bucket>, d: Expense): map<string, Bucket> {
    items[ItemLabel(d) := AddMoney(BucketAt(items, ItemLabel(d)), d)]
  }

  function WithDay(days: map<int, Bucket>, d: Expense): map<int, Bucket>
    requires d.day.Some?
  {
    var b := AddMoney(BucketAt(days, d.day.value), d);
    days[d.day.value := b.(count := b.count + 1)]
  }

  lemma ItemStep(docs: seq<Expense>, i: nat, y: Year, items: map<string, Bucket>)
    requires i < |docs| && Charted(docs[i], y) && ItemsFilled(docs[..i], y, items)
    ensures ItemsFilled(docs[..i + 1], y, WithItem(items, docs[i]))
  {
    var d := docs[i];
    var k := ItemLabel(d);
    forall c | c != Count ensures MapSum(WithItem(items, d), c) == Sum(docs[..i + 1], y, Everything, c) {
      SumStep(docs, i, y, Everything, c);
      AddMoneyGains(BucketAt(items, k), d, y, c);
      MapSumPut(items, k, AddMoney(BucketAt(items, k), d), c);
    }
    forall j, c | c != Count
      ensures Part(BucketAt(WithItem(items, d), j), c) == Sum(docs[..i + 1], y, OfItem(j), c)
    {
      SumStep(docs, i, y, OfItem(j), c);
      AddMoneyGains(BucketAt(items, k), d, y, c);
    }
  }

  lemma DayStep(docs: seq<Expense>, i: nat, y: Year, days: map<int, Bucket>)
    requires i < |docs| && Charted(docs[i], y) && DaysFilled(docs[..i], y, days)
    ensures DaysFilled(docs[..i + 1], y, WithDay(days, docs[i]))
  {
    var d := docs[i];
    var k := d.day.value;
    var b := WithDay(days, d)[k];
    forall c ensures Part(b, c) == Part(BucketAt(days, k), c) + Gain(d, c) {
      AddMoneyGains(BucketAt(days, k), d, y, c);
    }
    forall c ensures MapSum(WithDay(days, d), c) == Sum(docs[..i + 1], y, Everything, c) {
      SumStep(docs, i, y, Everything, c);
      MapSumPut(days, k, b, c);
    }
    forall j, c ensures Part(BucketAt(WithDay(days, d), j), c) == Sum(docs[..i + 1], y, OnDay(j), c) {
      SumStep(docs, i, y, OnDay(j), c);
    }
  }

  lemma SkipStep(docs: seq<Expense>, i: nat, y: Year)
    requires i < |docs| && !Charted(docs[i], y)
    ensures forall g, c :: Sum(docs[..i + 1], y, g, c) == Sum(docs[..i], y, g, c)
  {
    forall g, c ensures Sum(docs[..i + 1], y, g, c) == Sum(docs[..i], y, g, c) { SumStep(docs, i, y, g, c); }
  }

  lemma SkipItems(docs: seq<Expense>, i: nat, y: Year, items: map<string, Bucket>, days: map<int, Bucket>)
    requires i < |docs| && !Charted(docs[i], y)
    requires ItemsFilled(docs[..i], y, items) && DaysFilled(docs[..i], y, days)
    ensures ItemsFilled(docs[..i + 1], y, items) && DaysFilled(docs[..i + 1], y, days)
  {
    SkipStep(docs, i, y);
  }

  function WithPayee(payees: map<string, Bucket>, d: Expense): map<string, Bucket> {
    payees[PayeeLabel(d) := AddMoney(BucketAt(payees, PayeeLabel(d)), d)]
  }

  function WithPayeeDay(days: map<int, Bucket>, d: Expense): map<int, Bucket>
    requires d.day.Some?
  {
    days[d.day.value := AddMoney(BucketAt(days, d.day.value), d)]
  }

  /** A document without a named payee is in no payee's series. */
  lemma SkipPayees(docs: seq<Expense>, i: nat, y: Year, payees: map<string, Bucket>,
      days: map<string, map<int, Bucket>>)
    requires i < |docs| && (!Charted(docs[i], y) || PayeeLabel(docs[i]) == UNASSIGNED)
    requires PayeesFilled(docs[..i], y, payees, days)
    ensures PayeesFilled(docs[..i + 1], y, payees, days)
  {
    forall p, c | p != UNASSIGNED ensures Sum(docs[..i + 1], y, OfPayee(p), c) == Sum(docs[..i], y, OfPayee(p), c) {
      SumStep(docs, i, y, OfPayee(p), c);
    }
    forall p, k, c | p != UNASSIGNED
      ensures Sum(docs[..i + 1], y, OfPayeeOn(p, k), c) == Sum(docs[..i], y, OfPayeeOn(p, k), c)
    {
      SumStep(docs, i, y, OfPayeeOn(p, k), c);
    }
  }

  lemma PayeeDaySum(docs: seq<Expense>, i: nat, y: Year, days: map<int, Bucket>, p: string, c: Coin, k: int)
    requires i < |docs| && Charted(docs[i], y) && c != Count && PayeeLabel(docs[i]) == p
    requires Part(BucketAt(days, k), c) == Sum(docs[..i], y, OfPayeeOn(p, k), c)
    ensures Part(BucketAt(WithPayeeDay(days, docs[i]), k), c) == Sum(docs[..i + 1], y, OfPayeeOn(p, k), c)
  {
    AddMoneyGains(BucketAt(days, docs[i].day.value), docs[i], y, c);
    SumStep(docs, i, y, OfPayeeOn(p, k), c);
  }

  lemma PayeeDaySums(docs: seq<Expense>, i: nat, y: Year, days: map<int, Bucket>, p: string, c: Coin)
    requires i < |docs| && Charted(docs[i], y) && c != Count && PayeeLabel(docs[i]) == p
    requires forall k :: Part(BucketAt(days, k), c) == Sum(docs[..i], y, OfPayeeOn(p, k), c)
    requires MapSum(days, c) == Sum(docs[..i], y, OfPayee(p), c)
    ensures forall k ::
      Part(BucketAt(WithPayeeDay(days, docs[i]), k), c) == Sum(docs[..i + 1], y, OfPayeeOn(p, k), c)
    ensures MapSum(WithPayeeDay(days, docs[i]), c) == Sum(docs[..i + 1], y, OfPayee(p), c)
  {
    var d := docs[i];
    var day := d.day.value;
    AddMoneyGains(BucketAt(days, day), d, y, c);
    MapSumPut(days, day, AddMoney(BucketAt(days, day), d), c);
    SumStep(docs, i, y, OfPayee(p), c);
    forall k ensures
      Part(BucketAt(WithPayeeDay(days, d), k), c) == Sum(docs[..i + 1], y, OfPayeeOn(p, k), c)
    {
      PayeeDaySum(docs, i, y, days, p, c, k);
    }
  }

  lemma OtherPayee(docs: seq<Expense>, i: nat, y: Year, p: string, c: Coin)
    requires i < |docs| && PayeeLabel(docs[i]) != p
    ensures Sum(docs[..i + 1], y, OfPayee(p), c) == Sum(docs[..i], y, OfPayee(p), c)
    ensures forall k :: Sum(docs[..i + 1], y, OfPayeeOn(p, k), c) == Sum(docs[..i], y, OfPayeeOn(p, k), c)
  {
    SumStep(docs, i, y, OfPayee(p), c);
    forall k ensures Sum(docs[..i + 1], y, OfPayeeOn(p, k), c) == Sum(docs[..i], y, OfPayeeOn(p, k), c) {
      SumStep(docs, i, y, OfPayeeOn(p, k), c);
    }
  }

  lemma PayeeStep(docs: seq<Expense>, i: nat, y: Year, payees: map<string, Bucket>,
      days: map<string, map<int, Bucket>>)
    requires i < |docs| && Charted(docs[i], y) && PayeeLabel(docs[i]) != UNASSIGNED
    requires PayeesFilled(docs[..i], y, payees, days)
    ensures var p := PayeeLabel(docs[i]);
      PayeesFilled(docs[..i + 1], y, WithPayee(payees, docs[i]), days[p := WithPayeeDay(DaysOf(days, p), docs[i])])
  {
    var d := docs[i];
    var p := PayeeLabel(d);
    var days' := days[p := WithPayeeDay(DaysOf(days, p), d)];
    assert WithPayee(payees, d).Keys == payees.Keys + {p} && days'.Keys == days.Keys + {p};
    forall q, c | q != UNASSIGNED && c != Count
      ensures Part(BucketAt(WithPayee(payees, d), q), c) == Sum(docs[..i + 1], y, OfPayee(q), c)
      ensures MapSum(DaysOf(days', q), c) == Sum(docs[..i + 1], y, OfPayee(q), c)
      ensures forall k :: Part(BucketAt(DaysOf(days', q), k), c) == Sum(docs[..i + 1], y, OfPayeeOn(q, k), c)
    {
      if q == p {
        ThisPayee(docs, i, y, BucketAt(payees, p), DaysOf(days, p), c);
      } else {
        OtherPayee(docs, i, y, q, c);
      }
    }
  }

  lemma ThisPayee(docs: seq<Expense>, i: nat, y: Year, sum: Bucket, days: map<int, Bucket>, c: Coin)
    requires i < |docs| && Charted(docs[i], y) && c != Count
    requires var p := PayeeLabel(docs[i]);
      && Part(sum, c) == Sum(docs[..i], y, OfPayee(p), c)
      && (forall k :: Part(BucketAt(days, k), c) == Sum(docs[..i], y, OfPayeeOn(p, k), c))
      && MapSum(days, c) == Sum(docs[..i], y, OfPayee(p), c)
    ensures var p := PayeeLabel(docs[i]);
      && Part(AddMoney(sum, docs[i]), c) == Sum(docs[..i + 1], y, OfPayee(p), c)
      && (forall k ::
            Part(BucketAt(WithPayeeDay(days, docs[i]), k), c) == Sum(docs[..i + 1], y, OfPayeeOn(p, k), c))
      && MapSum(WithPayeeDay(days, docs[i]), c) == Sum(docs[..i + 1], y, OfPayee(p), c)
  {
    AddMoneyGains(sum, docs[i], y, c);
    SumStep(docs, i, y, OfPayee(PayeeLabel(docs[i])), c);
    PayeeDaySums(docs, i, y, days, PayeeLabel(docs[i]), c);
  }

  // ---------------------------------------------------------------- the whole computation

  datatype Series = Series(name: string, daily: map<int, Bucket>)

  /** One pass over the documents. */
  method FillBuckets(docs: seq<Expense>, y: Year)
    returns (items: map<string, Bucket>, daily: map<int, Bucket>, payees: map<string, Bucket>,
      payeeDays: map<string, map<int, Bucket>>)
    ensures ItemsFilled(docs, y, items) && DaysFilled(docs, y, daily)
    ensures PayeesFilled(docs, y, payees, payeeDays)
  {
    items, daily, payees, payeeDays := map[], map[], map[], map[];
    for i := 0 to |docs|
      invariant ItemsFilled(docs[..i], y, items) && DaysFilled(docs[..i], y, daily)
      invariant PayeesFilled(docs[..i], y, payees, payeeDays)
    {
      var d := docs[i];
      if !Charted(d, y) {
        SkipItems(docs, i, y, items, daily);
        SkipPayees(docs, i, y, payees, payeeDays);
        continue;
      }
      ItemStep(docs, i, y, items);
      DayStep(docs, i, y, daily);
      items, daily := WithItem(items, d), WithDay(daily, d);
      var payee := PayeeLabel(d);
      if payee == UNASSIGNED {
        SkipPayees(docs, i, y, payees, payeeDays);
        continue;
      }
      PayeeStep(docs, i, y, payees, payeeDays);
      payees := WithPayee(payees, d);
      payeeDays := payeeDays[payee := WithPayeeDay(DaysOf(payeeDays, payee), d)];
    }
    assert docs[..|docs|] == docs;
  }

  /** At most `limit` different names of the map, all with money, highest first, and nobody
      with money who is not among them ranks above one who is. */
  ghost predicate NamesTop(names: seq<string>, m: map<string, Bucket>, limit: nat) {
    && |names| <= limit
    && (forall i, j | 0 <= i < j < |names| :: names[i] != names[j])
    && (forall i | 0 <= i < |names| :: names[i] in m && RankKey(m[names[i]]) > 0)
    && (forall i, j | 0 <= i < j < |names| && names[i] in m && names[j] in m ::
          RankKey(m[names[i]]) >= RankKey(m[names[j]]))
    && (forall k | k in m && RankKey(m[k]) > 0 && k !in names ::
          |names| == limit && forall i | 0 <= i < |names| && names[i] in m :: RankKey(m[names[i]]) >= RankKey(m[k]))
  }

  /** Of any two entries with money, a named one and one left out, the named one does not
      rank lower; and something is left out only when `limit` different names are taken. */
  lemma NamesTopMeans(names: seq<string>, m: map<string, Bucket>, limit: nat, i: nat, j: nat, k: string)
    requires NamesTop(names, m, limit) && i < |names|
    ensures |names| <= limit && names[i] in m && RankKey(m[names[i]]) > 0
    ensures i < j < |names| ==>
      names[i] != names[j] && names[j] in m && RankKey(m[names[i]]) >= RankKey(m[names[j]])
    ensures k in m && RankKey(m[k]) > 0 ==>
      k in names || (|names| == limit && RankKey(m[names[i]]) >= RankKey(m[k]))
  {
  }

  function NamesOf(list: seq<Slice>): seq<string> {
    seq(|list|, i requires 0 <= i < |list| => list[i].name)
  }

  lemma NamesDiffer(m: map<string, Bucket>, top: seq<Slice>, rest: seq<Slice>, i: nat, j: nat)
    requires SplitsByRank(m, top, rest) && i < j < |top|
    ensures top[i].name != top[j].name
  {
    ShownIsEntry(m, top, rest, i);
    ShownIsEntry(m, top, rest, j);
    assert top[i] == (top + rest)[i] && top[j] == (top + rest)[j];
    NoTwice(top + rest, WithMoney(m), i, j);
  }

  /** A list of a set's elements repeats none. */
  lemma NoTwice<T>(list: seq<T>, elements: set<T>, i: nat, j: nat)
    requires multiset(list) == multiset(elements) && i < j < |list|
    ensures list[i] != list[j]
  {
    var x := list[j];
    assert list == list[..j] + list[j..];
    assert multiset(list)[x] == multiset(list[..j])[x] + multiset(list[j..])[x];
    assert list[j..][0] == x && x in multiset(list[j..]);
    assert multiset(elements)[x] <= 1;
    assert x !in multiset(list[..j]);
    assert list[..j][i] in multiset(list[..j]);
  }

  lemma SplitNamesTop(m: map<string, Bucket>, top: seq<Slice>, rest: seq<Slice>, limit: nat)
    requires SplitsByRank(m, top, rest) && |top| <= limit && (rest != [] ==> |top| == limit)
    ensures NamesTop(NamesOf(top), m, limit)
  {
    var names := NamesOf(top);
    forall i | 0 <= i < |top|
      ensures top[i].name in m && m[top[i].name] == top[i].money && RankKey(top[i].money) > 0
    {
      ShownIsEntry(m, top, rest, i);
    }
    forall i, j | 0 <= i < j < |top| ensures names[i] != names[j] { NamesDiffer(m, top, rest, i, j); }
    forall k | k in m && RankKey(m[k]) > 0 && k !in names
      ensures |top| == limit && forall i | 0 <= i < |top| :: RankKey(top[i].money) >= RankKey(m[k])
    {
      LeftOutIsInRest(m, top, rest, k);
    }
  }

  lemma LeftOutIsInRest(m: map<string, Bucket>, top: seq<Slice>, rest: seq<Slice>, k: string)
    requires SplitsByRank(m, top, rest) && k in m && RankKey(m[k]) > 0 && k !in NamesOf(top)
    ensures exists j | 0 <= j < |rest| :: rest[j] == Slice(k, m[k])
  {
    var s := Slice(k, m[k]);
    EntryMeans(m, s);
    assert s in multiset(top + rest);
    assert forall i | 0 <= i < |top| :: NamesOf(top)[i] == top[i].name;
    assert s !in top;
    assert s in top + rest && s in rest;
  }

  /** At least one payee, at least as many as are shown. */
  function PoolSize(topPayees: int, payeePool: int): nat {
    if payeePool < AtLeastOne(topPayees) then AtLeastOne(topPayees) else payeePool
  }

  function SeriesNames(series: seq<Series>): seq<string> {
    seq(|series|, i requires 0 <= i < |series| => series[i].name)
  }

  /** The named payees with the most money, each with its own days. */
  method PayeeSeries(docs: seq<Expense>, y: Year, payees: map<string, Bucket>,
      payeeDays: map<string, map<int, Bucket>>, pool: nat)
    returns (series: seq<Series>)
    requires PayeesFilled(docs, y, payees, payeeDays)
    ensures NamesTop(SeriesNames(series), payees, pool)
    ensures forall i, c | 0 <= i < |series| && c != Count ::
      MapSum(series[i].daily, c) == Sum(docs, y, OfPayee(series[i].name), c)
    ensures forall i, day, c | 0 <= i < |series| && c != Count ::
      Part(BucketAt(series[i].daily, day), c) == Sum(docs, y, OfPayeeOn(series[i].name, day), c)
  {
    var largest, others := TopOf(payees, pool);
    SplitNamesTop(payees, largest, others, pool);
    series := seq(|largest|, i requires 0 <= i < |largest| =>
      Series(largest[i].name, DaysOf(payeeDays, largest[i].name)));
    assert SeriesNames(series) == NamesOf(largest);
    forall i | 0 <= i < |series| ensures series[i].name != UNASSIGNED {
      assert SeriesNames(series)[i] in payees;
    }
  }

  /** `compute_overview_charts`: per currency, item slices and daily totals add up to the
      same money; daily counts add up to the documents charted; each payee's days add up
      to that payee's money; and whoever is named ranks at least as high as whoever is
      pooled or left out. */
  method ComputeOverviewCharts(docs: seq<Expense>, y: Year, topItems: int, topPayees: int, payeePool: int)
    returns (items: seq<Slice>, daily: map<int, Bucket>, series: seq<Series>,
      ghost itemTotals: map<string, Bucket>, ghost named: nat, ghost payeeTotals: map<string, Bucket>)
    ensures forall c | c != Count :: ListSum(items, c) == MapSum(daily, c) == Sum(docs, y, Everything, c)
    ensures MapSum(daily, Count) == Sum(docs, y, Everything, Count)
    ensures DaysFilled(docs, y, daily)
    ensures ItemsFilled(docs, y, itemTotals) && named <= |items| <= named + 1
    ensures NamesTop(NamesOf(items[..named]), itemTotals, if topItems < 1 then 1 else topItems)
    ensures Descending(items[..named]) && (named < |items| ==> items[named].name == "Other")
    ensures forall i | 0 <= i < named :: items[i].name in itemTotals && items[i].money == itemTotals[items[i].name]
    ensures forall p, c | p != UNASSIGNED && c != Count ::
      Part(BucketAt(payeeTotals, p), c) == Sum(docs, y, OfPayee(p), c)
    ensures NamesTop(SeriesNames(series), payeeTotals, PoolSize(topPayees, payeePool))
    ensures PoolSize(topPayees, payeePool) >= 1 && PoolSize(topPayees, payeePool) in {1, topPayees, payeePool}
    ensures PoolSize(topPayees, payeePool) >= topPayees && PoolSize(topPayees, payeePool) >= payeePool
    ensures forall i, c | 0 <= i < |series| && c != Count ::
      MapSum(series[i].daily, c) == Sum(docs, y, OfPayee(series[i].name), c)
    ensures forall i, day, c | 0 <= i < |series| && c != Count ::
      Part(BucketAt(series[i].daily, day), c) == Sum(docs, y, OfPayeeOn(series[i].name, day), c)
  {
    var totals, payees, payeeDays;
    totals, daily, payees, payeeDays := FillBuckets(docs, y);
    itemTotals, payeeTotals := totals, payees;
    ghost var top, rest;
    items, top, rest := TopBreakdown(totals, topItems);
    named := |top|;
    SplitNamesTop(totals, top, rest, AtLeastOne(topItems));
    assert items[..named] == top;
    forall i | 0 <= i < named ensures items[i].name in totals && items[i].money == totals[items[i].name] {
      ShownIsEntry(totals, top, rest, i);
      assert items[..named][i] == items[i];
    }
    series := PayeeSeries(docs, y, payees, payeeDays, PoolSize(topPayees, payeePool));
  }
}
