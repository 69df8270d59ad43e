/** The part of MongoDB the register relies on: documents as finite maps from
    field to scalar, query dictionaries with a meaning, and the writes that
    `update_many`, `delete_many` and `insert_one` perform on one collection. */
module Mongo {
  import opened Ascii
  import opened Spread

  datatype Option<+T> = None | Some(value: T)

  /** The three values the service writes to `register_status`; any other text is `Text`. */
  datatype Stage = AsDraft | AsParked | AsSubmitted

  datatype Value =
    | Null
    | Bool(b: bool)
    | Num(n: int)
    | Text(s: string)
    | Status(stage: Stage)
    | Oid(oid: nat)
    | Time(t: int)

  /** The word a status stands for. */
  function StatusText(stage: Stage): string {
    match stage
    case AsDraft => "draft"
    case AsParked => "parked"
    case AsSubmitted => "submitted"
  }

  /** The value that a text is stored as. */
  function Str(s: string): Value {
    if s == "draft" then Status(AsDraft) else if s == "parked" then Status(AsParked)
    else if s == "submitted" then Status(AsSubmitted) else Text(s)
  }

  predicate IsString(v: Value) { v.Text? || v.Status? }

  function StringOf(v: Value): string
    requires IsString(v)
  {
    if v.Text? then v.s else StatusText(v.stage)
  }

  /** A text reads back as it was stored. */
  lemma StoredText(s: string)
    ensures IsString(Str(s)) && StringOf(Str(s)) == s
  {
  }

  const YES := Bool(true)
  const NO := Bool(false)

  datatype Field =
    // lifecycle flags
    | RegisterStatus | Verified | Rejected | Discarded | DeletionRequested | Trashed
    | RestoreRequested | EditedAfterVerification | CashierId
    // audit metadata
    | VerifiedBy | VerifiedAt | RejectionReason | LastEditedAt | LastEditedBy
    | DeletionRequestedAt | DeletionRequestedBy | TrashedAt | TrashedBy
    | RestoreRequestedAt | RestoreRequestedBy | CreatedAt
    | PossibleDuplicate | DateDiscrepancy | DuplicateOfId
    // links and idempotency keys
    | OriginalTransactionId | ClientRowId | DailyImportId | ImportRowKey
    | MasterImportSource | MasterImportId | MasterSerial | ImportPrimaryDate
    // ledger content
    | Date | Description | TruckNumber | Amount | Currency | AmountUsd | LpoDo | DoNumber
    | Memo | ReceiptStatus | NotesFlag | RefFloat | Ownership | Approver | Payee | Cheque
    | ReportedDate | CategoryName | CategoryId | Item | CategoryConfidence | Month | Year
    | TruckSortKey | DayOrder | Other(name: string)

  /** A stored document; a field that is not a key is missing. */
  type Doc = map<Field, Value>
  type Id = nat
  type Rows = map<Id, Doc>

  function Get(d: Doc, f: Field): Option<Value> {
    if f in d then Some(d[f]) else None
  }

  predicate IsTrue(d: Doc, f: Field) { Get(d, f) == Some(YES) }

  predicate IsFalse(d: Doc, f: Field) { Get(d, f) == Some(NO) }

  /** Python truth of `doc.get(f)`. */
  predicate Truthy(d: Doc, f: Field) {
    f in d &&
    match d[f]
    case Null => false
    case Bool(b) => b
    case Num(n) => n != 0
    case Text(s) => s != ""
    case Status(_) => true
    case Oid(_) => true
    case Time(_) => true
  }

  // ---------------------------------------------------------------- queries

  /** The right-hand side of one `field: ...` entry of a query dictionary. */
  datatype Cond =
    | Is(v: Value)
    | IsNot(v: Value)
    | OneOf(vs: seq<Value>)
    | Exists(present: bool)
    | Between(lo: Option<int>, hi: Option<int>)
    | SameFold(text: string)
    | HasFold(text: string)
    | PlateLike(pattern: PlatePattern)

  /** `{$expr: {$not: {$in: [{$toLower: {$ifNull: [field, ""]}}, names]}}}`, or no `$expr` entry. */
  datatype Expr = NoExpr | LowerNotIn(field: Field, names: seq<string>)

  datatype Clauses = Absent | Given(list: seq<Query>)

  /** A query dictionary: at most one entry per field, and one each of `$and`, `$or`, `$expr`. */
  datatype Query = Query(fields: map<Field, Cond>, all: Clauses, any: Clauses, expr: Expr)

  function Fields(fields: map<Field, Cond>): Query {
    Query(fields, Absent, Absent, NoExpr)
  }

  function AnyOf(list: seq<Query>): Query {
    Query(map[], Absent, Given(list), NoExpr)
  }

  function AllOf(list: seq<Query>): Query {
    Query(map[], Given(list), Absent, NoExpr)
  }

  /** `^text$`: the `$` also matches before a newline that ends the value. */
  predicate EndsAt(s: string, text: string) { s == text || s == text + "\n" }

  predicate Holds(c: Cond, v: Option<Value>) {
    match c
    case Is(w) => v == Some(w) || (w.Null? && v.None?)
    case IsNot(w) => !(v == Some(w) || (w.Null? && v.None?))
    case OneOf(ws) => exists w | w in ws :: v == Some(w) || (w.Null? && v.None?)
    case Exists(present) => v.Some? == present
    case Between(lo, hi) =>
      && v.Some? && v.value.Time?
      && (lo.Some? ==> lo.value <= v.value.t)
      && (hi.Some? ==> v.value.t <= hi.value)
    case SameFold(s) => v.Some? && IsString(v.value) && EndsAt(Upper(StringOf(v.value)), Upper(s))
    case HasFold(s) => v.Some? && IsString(v.value) && Contains(Upper(StringOf(v.value)), Upper(s))
    case PlateLike(p) => v.Some? && IsString(v.value) && PatternMatches(p, StringOf(v.value))
  }

  function LowerOrEmpty(v: Option<Value>): string {
    if v.Some? && IsString(v.value) then Lower(StringOf(v.value)) else ""
  }

  predicate ExprHolds(e: Expr, d: Doc) {
    e.LowerNotIn? ==> LowerOrEmpty(Get(d, e.field)) !in e.names
  }

  predicate Matches(q: Query, d: Doc)
    decreases q
  {
    && (forall f | f in q.fields :: Holds(q.fields[f], Get(d, f)))
    && (q.all.Given? ==> forall c | c in q.all.list :: Matches(c, d))
    && (q.any.Given? ==> exists c | c in q.any.list :: Matches(c, d))
    && ExprHolds(q.expr, d)
  }

  function One(f: Field, c: Cond): Query { Fields(map[f := c]) }

  lemma OneMeans(f: Field, c: Cond, d: Doc)
    ensures Matches(One(f, c), d) <==> Holds(c, Get(d, f))
  {
    assert One(f, c).fields[f] == c;
  }

  predicate InSpan(d: Doc, f: Field, lo: int, hi: int) {
    f in d && d[f].Time? && lo <= d[f].t <= hi
  }

  /** A query together with an optional `_id: {$in: ids}` entry. */
  datatype Selector = Selector(ids: Option<set<Id>>, query: Query)

  predicate Picks(sel: Selector, id: Id, d: Doc) {
    (sel.ids.Some? ==> id in sel.ids.value) && Matches(sel.query, d)
  }

  function Picked(rows: Rows, sel: Selector): set<Id> {
    set id | id in rows && Picks(sel, id, rows[id])
  }

  function CountOf(rows: Rows, q: Query): nat {
    |Picked(rows, Selector(None, q))|
  }

  // ---------------------------------------------------------------- writes

  /** `$set` merged over the document, then `$unset`. */
  function Modify(d: Doc, set_: Doc, unset: set<Field>): Doc {
    (d + set_) - unset
  }

  lemma PlusIsAssociative(a: Doc, b: Doc, c: Doc)
    ensures a + (b + c) == a + b + c
  {
  }

  function UpdateWhere(rows: Rows, sel: Selector, set_: Doc, unset: set<Field>): Rows {
    map id | id in rows ::
      if Picks(sel, id, rows[id]) then Modify(rows[id], set_, unset) else rows[id]
  }

  function DeleteWhere(rows: Rows, sel: Selector): Rows {
    map id | id in rows && !Picks(sel, id, rows[id]) :: rows[id]
  }

  /** Rows a write really changed, as `modified_count` counts them. */
  function Modified(rows: Rows, sel: Selector, set_: Doc, unset: set<Field>): set<Id> {
    set id | id in rows && Picks(sel, id, rows[id]) && Modify(rows[id], set_, unset) != rows[id]
  }
}
