/** The version-stamped catalog (backend/app/catalog_snapshot.py and the client half in
    tahmeed/services/catalog_service.py) as interleaved steps of writers, API processes
    and clients, cut at every await. */
module Catalog {
  import opened Ascii
  import opened Mongo
  import opened Words
  import opened Layout
  import opened Decimal

  // ---------------------------------------------------------------- entity tags

  function EtagFor(version: nat): string { "\"" + Print(version) + "\"" }

  /** `header.split(",", 1)[0]`. */
  function BeforeComma(s: string): string {
    if s == "" || s[0] == ',' then "" else [s[0]] + BeforeComma(s[1..])
  }

  function DropWeak(s: string): string {
    if |s| >= 2 && s[..2] == "W/" then Strip(s[2..]) else s
  }

  function Unquote(s: string): string {
    if |s| >= 2 && s[0] == '"' && s[|s| - 1] == '"' then s[1..|s| - 1] else s
  }

  predicate EtagMatches(header: Option<string>, version: nat) {
    header.Some? && header.value != ""
    && Unquote(DropWeak(Strip(BeforeComma(header.value)))) == Print(version)
  }

  lemma {:induction false} NoComma(s: string)
    requires forall i | 0 <= i < |s| :: s[i] != ','
    ensures BeforeComma(s) == s
  {
    if s != "" { NoComma(s[1..]); }
  }

  /** What stands before the first comma, or everything when there is none. */
  predicate FirstEntry(header: string, first: string) {
    && (forall i | 0 <= i < |first| :: first[i] != ',')
    && |first| <= |header| && first == header[..|first|] && (|first| < |header| ==> header[|first|] == ',')
  }

  lemma {:induction false} FirstEntryMeans(header: string, first: string)
    requires FirstEntry(header, first)
    ensures BeforeComma(header) == first
  {
    if first != "" {
      assert header[0] == first[0];
      FirstEntryMeans(header[1..], first[1..]);
    }
  }

  /** The version in decimal, with or without quotes. */
  predicate IsTag(text: string, version: nat) {
    text == Print(version) || text == ['"'] + Print(version) + ['"']
  }

  lemma TagMeans(text: string, version: nat)
    ensures IsTag(text, version) <==> Unquote(text) == Print(version)
  {
    if |text| >= 2 && text[0] == '"' && text[|text| - 1] == '"' {
      assert text == ['"'] + text[1..|text| - 1] + ['"'];
      assert Print(version)[0] != '"';
    }
    if text == ['"'] + Print(version) + ['"'] { assert text[1..|text| - 1] == Print(version); }
  }

  /** Which headers match a version: the first entry counts, trimmed, and may be marked
      as weak. */
  lemma EtagExactly(header: string, first: string, core: string, version: nat)
    requires FirstEntry(header, first) && Trimmed(first, core)
    ensures EtagMatches(Some(header), version) <==>
      IsTag(core, version) || WeakTag(core, version)
    ensures !EtagMatches(None, version)
  {
    FirstEntryMeans(header, first);
    TrimmedIsStrip(first, core);
    CoreMatches(core, version);
    if header == "" { StripBlank(first); }
  }

  lemma CoreMatches(core: string, version: nat)
    ensures Unquote(DropWeak(core)) == Print(version) <==> IsTag(core, version) || WeakTag(core, version)
  {
    TagMeans(core, version);
    if |core| >= 2 && core[..2] == "W/" {
      assert core[0] == 'W';
      NoWeakTag(core, version);
      TagMeans(Strip(core[2..]), version);
      TrimmedIsStrip(core[2..], Strip(core[2..]));
      forall tag | Trimmed(core[2..], tag) ensures tag == Strip(core[2..]) { TrimmedIsStrip(core[2..], tag); }
    }
  }

  lemma NoWeakTag(core: string, version: nat)
    requires core != "" && core[0] == 'W'
    ensures !IsTag(core, version)
  {
    assert IsDigit(Print(version)[0]);
  }

  /** A mark of weakness, and then a tag after any blanks. */
  ghost predicate WeakTag(core: string, version: nat) {
    |core| >= 2 && core[..2] == "W/" && exists tag :: Trimmed(core[2..], tag) && IsTag(tag, version)
  }

  lemma NothingToStrip(s: string)
    requires s != "" && !IsBlank(s[0]) && !IsBlank(s[|s| - 1])
    ensures Strip(s) == s
  {
  }

  lemma QuotedText(body: string)
    ensures Unquote("\"" + body + "\"") == body
    ensures DropWeak("\"" + body + "\"") == "\"" + body + "\""
    ensures Strip("\"" + body + "\"") == "\"" + body + "\""
  {
    var tag := "\"" + body + "\"";
    assert tag[0] == '"' && tag[|tag| - 1] == '"' && tag[1..|tag| - 1] == body;
    NothingToStrip(tag);
  }

  /** A tag this server issued matches exactly the version it was issued for. */
  lemma EtagRoundTrip(v: nat, w: nat)
    ensures EtagMatches(Some(EtagFor(v)), w) <==> v == w
  {
    NoComma(EtagFor(v));
    QuotedText(Print(v));
    PrintIsInjective(v, w);
  }

  lemma WeakText(tag: string)
    requires tag != "" && !IsBlank(tag[0]) && !IsBlank(tag[|tag| - 1])
    ensures DropWeak(Strip("W/" + tag)) == tag
  {
    var weak := "W/" + tag;
    assert weak[|weak| - 1] == tag[|tag| - 1] && weak[0] == 'W';
    NothingToStrip(weak);
    assert weak[..2] == "W/" && weak[2..] == tag;
    NothingToStrip(tag);
  }

  /** Also when a proxy has weakened it on the way. */
  lemma WeakEtagRoundTrip(v: nat, w: nat)
    ensures EtagMatches(Some("W/" + EtagFor(v)), w) <==> v == w
  {
    var tag := EtagFor(v);
    NoComma("W/" + tag);
    QuotedText(Print(v));
    WeakText(tag);
    PrintIsInjective(v, w);
  }

  // ---------------------------------------------------------------- state

  const PARTS: nat := 6

  /** One catalog write: it changes one of the six parts a snapshot reads. */
  datatype Change = Change(part: nat, serial: nat)

  datatype Slot = Slot(version: nat, body: set<Change>)

  datatype Phase =
    | Asked
    | Building(version: nat, next: nat, got: set<Change>)
    | NotModified(version: nat)
    | Full(version: nat, body: set<Change>)

  /** `owed` are the writes whose bump was stored when this request read the version. */
  datatype Request = Request(process: nat, header: Option<nat>, owed: set<Change>, phase: Phase)

  /** `etag` and `header` are given by the version in the tag; its text is `EtagFor`. */
  datatype Client = Client(body: Option<set<Change>>, etag: Option<nat>, stale: bool, waiting: Option<nat>)

  /** A body is the set of writes it reflects. */
  datatype State = State(version: nat, applied: set<Change>, bumped: map<Change, nat>,
    slots: map<nat, Slot>, requests: map<nat, Request>, clients: map<nat, Client>)

  const START := State(0, {}, map[], map[], map[], map[])

  datatype Step =
    | WriteData(change: Change)
    | DropCache(process: nat)
    | Bump(change: Change)
    | Send(client: nat, request: nat, process: nat)
    | ReadVersion(request: nat)
    | ReadPart(request: nat)
    | StoreSlot(request: nat)
    | Receive(client: nat)
    | Lose(client: nat)
    | MarkStale(client: nat)

  function ClientOf(s: State, c: nat): Client {
    if c in s.clients then s.clients[c] else Client(None, None, false, None)
  }

  /** `If-None-Match` is sent unless the client knows it is stale. */
  function HeaderOf(c: Client): Option<nat> {
    if c.stale then None else c.etag
  }

  predicate HeaderMatches(header: Option<nat>, version: nat) {
    EtagMatches(if header.Some? then Some(EtagFor(header.value)) else None, version)
  }

  /** Everything between the version read and the next await: match the header, try the
      process cache, or start building. */
  function AfterVersion(s: State, q: Request): Request {
    var phase :=
      if HeaderMatches(q.header, s.version) then NotModified(s.version)
      else if q.process in s.slots && s.slots[q.process].version == s.version
      then Full(s.version, s.slots[q.process].body)
      else Building(s.version, 0, {});
    q.(owed := s.bumped.Keys, phase := phase)
  }

  function PartNow(s: State, part: nat): set<Change> {
    set w | w in s.applied && w.part == part
  }

  predicate Answered(s: State, c: nat) {
    var waiting := ClientOf(s, c).waiting;
    waiting.Some? && waiting.value in s.requests
    && (s.requests[waiting.value].phase.NotModified? || s.requests[waiting.value].phase.Full?)
  }

  /** What the client does with a 200 or a 304. */
  function Received(client: Client, phase: Phase): Client
    requires phase.NotModified? || phase.Full?
  {
    var body := if phase.Full? then Some(phase.body)
      else if client.body.Some? then client.body else Some({});
    Client(body, Some(phase.version), false, None)
  }

  /** One step; a step that is not enabled changes nothing. */
  function Next(s: State, step: Step): State {
    match step
    case WriteData(w) => if w.part < PARTS then s.(applied := s.applied + {w}) else s
    case DropCache(p) => s.(slots := s.slots - {p})
    case Bump(w) =>
      if w in s.applied && w !in s.bumped
      then s.(version := s.version + 1, bumped := s.bumped[w := s.version + 1]) else s
    case Send(c, r, p) =>
      if r !in s.requests && ClientOf(s, c).waiting == None
      then s.(requests := s.requests[r := Request(p, HeaderOf(ClientOf(s, c)), {}, Asked)],
              clients := s.clients[c := ClientOf(s, c).(waiting := Some(r))])
      else s
    case ReadVersion(r) =>
      if r in s.requests && s.requests[r].phase.Asked?
      then s.(requests := s.requests[r := AfterVersion(s, s.requests[r])]) else s
    case ReadPart(r) =>
      if r in s.requests && s.requests[r].phase.Building? && s.requests[r].phase.next < PARTS
      then
        var b := s.requests[r].phase;
        var more := Building(b.version, b.next + 1, b.got + PartNow(s, b.next));
        s.(requests := s.requests[r := s.requests[r].(phase := more)])
      else s
    case StoreSlot(r) =>
      if r in s.requests && s.requests[r].phase.Building? && s.requests[r].phase.next == PARTS
      then
        var q := s.requests[r];
        s.(slots := s.slots[q.process := Slot(q.phase.version, q.phase.got)],
           requests := s.requests[r := q.(phase := Full(q.phase.version, q.phase.got))])
      else s
    case Receive(c) =>
      if Answered(s, c)
      then s.(clients := s.clients[c := Received(ClientOf(s, c), s.requests[ClientOf(s, c).waiting.value].phase)])
      else s
    case Lose(c) => s.(clients := s.clients[c := ClientOf(s, c).(waiting := None)])
    case MarkStale(c) => s.(clients := s.clients[c := ClientOf(s, c).(stale := true)])
  }

  function Run(s: State, steps: seq<Step>): State {
    if steps == [] then s else Next(Run(s, steps[..|steps| - 1]), steps[|steps| - 1])
  }

  // ---------------------------------------------------------------- the invariant

  /** The body reflects every write of a part below `parts` whose bump gave at most `v`. */
  predicate Reflects(s: State, body: set<Change>, v: nat, parts: nat) {
    v <= s.version && forall w | w in s.bumped && s.bumped[w] <= v && w.part < parts :: w in body
  }

  predicate WritesInOrder(s: State) {
    && (forall w | w in s.applied :: w.part < PARTS)
    && (forall w | w in s.bumped :: w in s.applied && s.bumped[w] <= s.version)
  }

  predicate SlotsFresh(s: State) {
    forall p | p in s.slots :: Reflects(s, s.slots[p].body, s.slots[p].version, PARTS)
  }

  /** The writes a request is owed were all bumped to at most the version it read. */
  predicate OwedBy(s: State, owed: set<Change>, v: nat) {
    forall w | w in owed :: w in s.bumped && s.bumped[w] <= v
  }

  predicate RequestFresh(s: State, q: Request) {
    match q.phase
    case Asked => true
    case Building(v, next, got) => next <= PARTS && Reflects(s, got, v, next) && OwedBy(s, q.owed, v)
    case NotModified(v) => q.header == Some(v) && OwedBy(s, q.owed, v)
    case Full(v, body) => Reflects(s, body, v, PARTS) && OwedBy(s, q.owed, v)
  }

  predicate RequestsFresh(s: State) {
    forall r | r in s.requests :: RequestFresh(s, s.requests[r])
  }

  /** A client's body reflects its tag, and a request it waits for carries that tag or none. */
  predicate ClientFresh(s: State, c: Client) {
    && (c.etag.Some? ==> c.body.Some? && Reflects(s, c.body.value, c.etag.value, PARTS))
    && (c.waiting.Some? ==> c.waiting.value in s.requests)
    && (c.waiting.Some? && s.requests[c.waiting.value].header.Some? ==>
          s.requests[c.waiting.value].header == c.etag)
  }

  predicate ClientsFresh(s: State) {
    forall c | c in s.clients :: ClientFresh(s, s.clients[c])
  }

  predicate Invariant(s: State) {
    WritesInOrder(s) && SlotsFresh(s) && RequestsFresh(s) && ClientsFresh(s)
  }

  // ---------------------------------------------------------------- every step keeps it

  lemma BumpKeeps(s: State, w: Change)
    requires Invariant(s)
    ensures Invariant(Next(s, Bump(w)))
  {
    var t := Next(s, Bump(w));
    if w in s.applied && w !in s.bumped {
      forall body, v, parts | Reflects(s, body, v, parts) ensures Reflects(t, body, v, parts) {
      }
      forall owed, v | OwedBy(s, owed, v) ensures OwedBy(t, owed, v) {
      }
    }
  }

  lemma WriteKeeps(s: State, w: Change)
    requires Invariant(s)
    ensures Invariant(Next(s, WriteData(w)))
  {
    var t := Next(s, WriteData(w));
    assert forall body, v, parts :: Reflects(t, body, v, parts) <==> Reflects(s, body, v, parts);
    assert forall owed, v :: OwedBy(t, owed, v) <==> OwedBy(s, owed, v);
  }

  /** Steps that leave writes and versions alone keep what bodies reflect. */
  lemma SameWritesSameBodies(s: State, t: State)
    requires t.version == s.version && t.applied == s.applied && t.bumped == s.bumped
    ensures WritesInOrder(s) ==> WritesInOrder(t)
    ensures forall body, v, parts :: Reflects(t, body, v, parts) <==> Reflects(s, body, v, parts)
    ensures forall owed, v :: OwedBy(t, owed, v) <==> OwedBy(s, owed, v)
  {
  }

  /** Reading the version fixes what the request is owed and what its answer is stamped. */
  lemma ReadVersionIsFresh(s: State, q: Request)
    requires WritesInOrder(s) && SlotsFresh(s)
    ensures RequestFresh(s, AfterVersion(s, q)) && AfterVersion(s, q).header == q.header
    ensures AfterVersion(s, q).owed == s.bumped.Keys
  {
    if q.header.Some? { EtagRoundTrip(q.header.value, s.version); }
  }

  /** A part read after the version read holds every write owed in that part. */
  lemma ReadPartIsFresh(s: State, q: Request)
    requires WritesInOrder(s) && RequestFresh(s, q) && q.phase.Building? && q.phase.next < PARTS
    ensures Reflects(s, q.phase.got + PartNow(s, q.phase.next), q.phase.version, q.phase.next + 1)
  {
  }

  lemma RequestStepKeeps(s: State, r: nat, q: Request)
    requires Invariant(s) && r in s.requests && RequestFresh(s, q) && q.header == s.requests[r].header
    ensures Invariant(s.(requests := s.requests[r := q]))
  {
    SameWritesSameBodies(s, s.(requests := s.requests[r := q]));
  }

  lemma ReadVersionKeeps(s: State, r: nat)
    requires Invariant(s)
    ensures Invariant(Next(s, ReadVersion(r)))
  {
    if r in s.requests {
      ReadVersionIsFresh(s, s.requests[r]);
      RequestStepKeeps(s, r, AfterVersion(s, s.requests[r]));
    }
  }

  lemma ReadPartKeeps(s: State, r: nat)
    requires Invariant(s)
    ensures Invariant(Next(s, ReadPart(r)))
  {
    if r in s.requests && s.requests[r].phase.Building? && s.requests[r].phase.next < PARTS {
      var b := s.requests[r].phase;
      assert RequestFresh(s, s.requests[r]);
      ReadPartIsFresh(s, s.requests[r]);
      RequestStepKeeps(s, r, s.requests[r].(phase :=
        Building(b.version, b.next + 1, b.got + PartNow(s, b.next))));
    }
  }

  lemma ServerStepKeeps(s: State, step: Step)
    requires Invariant(s) && (step.ReadVersion? || step.ReadPart? || step.StoreSlot? || step.DropCache?)
    ensures Invariant(Next(s, step))
  {
    match step {
      case ReadVersion(r) => ReadVersionKeeps(s, r);
      case ReadPart(r) => ReadPartKeeps(s, r);
      case StoreSlot(r) => StoreSlotKeeps(s, r);
      case DropCache(p) => SameWritesSameBodies(s, Next(s, step));
    }
  }

  lemma StoreSlotKeeps(s: State, r: nat)
    requires Invariant(s)
    ensures Invariant(Next(s, StoreSlot(r)))
  {
    if r in s.requests && s.requests[r].phase.Building? && s.requests[r].phase.next == PARTS {
      var q := s.requests[r];
      var b := q.phase;
      assert RequestFresh(s, q);
      var mid := s.(slots := s.slots[q.process := Slot(b.version, b.got)]);
      SameWritesSameBodies(s, mid);
      RequestStepKeeps(mid, r, q.(phase := Full(b.version, b.got)));
    }
  }

  lemma ReceivedIsFresh(s: State, c: nat)
    requires Invariant(s) && c in s.clients && Answered(s, c)
    ensures var q := s.requests[s.clients[c].waiting.value];
      && ClientFresh(s, Received(s.clients[c], q.phase))
      && Received(s.clients[c], q.phase).body.Some?
      && q.owed <= Received(s.clients[c], q.phase).body.value
  {
    var q := s.requests[s.clients[c].waiting.value];
    assert RequestFresh(s, q) && ClientFresh(s, s.clients[c]);
    var body := Received(s.clients[c], q.phase).body.value;
    forall w | w in q.owed ensures w in body {
      assert w in s.bumped && w in s.applied;
    }
  }

  lemma ReplaceClientKeeps(s: State, c: nat, client: Client)
    requires Invariant(s) && ClientFresh(s, client)
    ensures Invariant(s.(clients := s.clients[c := client]))
  {
    SameWritesSameBodies(s, s.(clients := s.clients[c := client]));
  }

  lemma SendKeeps(s: State, c: nat, r: nat, p: nat)
    requires Invariant(s)
    ensures Invariant(Next(s, Send(c, r, p)))
  {
    if r !in s.requests {
      var mid := s.(requests := s.requests[r := Request(p, HeaderOf(ClientOf(s, c)), {}, Asked)]);
      SameWritesSameBodies(s, mid);
      assert forall d | d in s.clients :: ClientFresh(s, s.clients[d]);
      ReplaceClientKeeps(mid, c, ClientOf(s, c).(waiting := Some(r)));
    }
  }

  lemma ClientStepKeeps(s: State, step: Step)
    requires Invariant(s) && (step.Receive? || step.Lose? || step.MarkStale?)
    ensures Invariant(Next(s, step))
  {
    match step {
      case Receive(c) =>
        if Answered(s, c) {
          ReceivedIsFresh(s, c);
          ReplaceClientKeeps(s, c, Received(s.clients[c], s.requests[s.clients[c].waiting.value].phase));
        }
      case Lose(c) => ReplaceClientKeeps(s, c, ClientOf(s, c).(waiting := None));
      case MarkStale(c) => ReplaceClientKeeps(s, c, ClientOf(s, c).(stale := true));
    }
  }

  lemma StepKeeps(s: State, step: Step)
    requires Invariant(s)
    ensures Invariant(Next(s, step))
  {
    match step {
      case WriteData(w) => WriteKeeps(s, w);
      case Bump(w) => BumpKeeps(s, w);
      case DropCache(_) => ServerStepKeeps(s, step);
      case ReadVersion(_) => ServerStepKeeps(s, step);
      case ReadPart(_) => ServerStepKeeps(s, step);
      case StoreSlot(_) => ServerStepKeeps(s, step);
      case Send(c, r, p) => SendKeeps(s, c, r, p);
      case Receive(_) => ClientStepKeeps(s, step);
      case Lose(_) => ClientStepKeeps(s, step);
      case MarkStale(_) => ClientStepKeeps(s, step);
    }
  }

  // ---------------------------------------------------------------- every run

  lemma {:induction false} RunKeeps(steps: seq<Step>)
    ensures Invariant(Run(START, steps))
    decreases |steps|
  {
    if steps != [] {
      RunKeeps(steps[..|steps| - 1]);
      StepKeeps(Run(START, steps[..|steps| - 1]), steps[|steps| - 1]);
    }
  }

  /** Under every interleaving: a body that a server sends or caches stamped `v` reflects
      every catalog write whose bump produced a version of at most `v`. */
  lemma StampedBodiesAreComplete(steps: seq<Step>, w: Change)
    requires w in Run(START, steps).bumped
    ensures var s := Run(START, steps);
      && (forall r | r in s.requests && s.requests[r].phase.Full?
            && s.bumped[w] <= s.requests[r].phase.version :: w in s.requests[r].phase.body)
      && (forall p | p in s.slots && s.bumped[w] <= s.slots[p].version :: w in s.slots[p].body)
  {
    RunKeeps(steps);
    var s := Run(START, steps);
    forall r | r in s.requests && s.requests[r].phase.Full? && s.bumped[w] <= s.requests[r].phase.version
      ensures w in s.requests[r].phase.body
    {
      assert RequestFresh(s, s.requests[r]);
    }
  }

  /** Whatever a client is answered (200 from the database or from a process cache, or
      304), afterwards it holds every write whose bump was stored when the server read
      the version for it. */
  lemma ClientsMissNothing(steps: seq<Step>, c: nat)
    requires Answered(Run(START, steps), c)
    ensures var s := Run(START, steps);
      var client := ClientOf(Next(s, Receive(c)), c);
      client.body.Some? && s.requests[ClientOf(s, c).waiting.value].owed <= client.body.value
  {
    RunKeeps(steps);
    ReceivedIsFresh(Run(START, steps), c);
  }

  lemma {:induction false} RunKeepsFrom(s: State, steps: seq<Step>)
    requires Invariant(s)
    ensures Invariant(Run(s, steps))
    decreases |steps|
  {
    if steps != [] {
      RunKeepsFrom(s, steps[..|steps| - 1]);
      StepKeeps(Run(s, steps[..|steps| - 1]), steps[|steps| - 1]);
    }
  }

  predicate HasRead(s: State, r: nat) {
    r in s.requests && !s.requests[r].phase.Asked?
  }

  lemma ReadStays(s: State, step: Step, r: nat)
    requires HasRead(s, r)
    ensures var t := Next(s, step);
      && HasRead(t, r) && t.requests[r].phase.version == s.requests[r].phase.version
      && t.requests[r].owed == s.requests[r].owed
  {
  }

  /** From its version read on, a request keeps the version it read and what it is owed,
      through any further run. */
  lemma {:induction false} AnswerIsFixed(s: State, steps: seq<Step>, r: nat)
    requires HasRead(s, r)
    ensures var t := Run(s, steps);
      && HasRead(t, r) && t.requests[r].phase.version == s.requests[r].phase.version
      && t.requests[r].owed == s.requests[r].owed
    decreases |steps|
  {
    if steps != [] {
      AnswerIsFixed(s, steps[..|steps| - 1], r);
      ReadStays(Run(s, steps[..|steps| - 1]), steps[|steps| - 1], r);
    }
  }

  /** What a request is owed is exactly what was bumped when it read the version, however
      the run goes on. */
  lemma OwedIsFixed(s: State, steps: seq<Step>, r: nat)
    requires r in s.requests && s.requests[r].phase.Asked?
    ensures var t := Run(s, [ReadVersion(r)] + steps);
      HasRead(t, r) && t.requests[r].owed == s.bumped.Keys && t.requests[r].phase.version == s.version
  {
    var read := Next(s, ReadVersion(r));
    RunAfter(s, ReadVersion(r), steps);
    assert HasRead(read, r) && read.requests[r].owed == s.bumped.Keys;
    AnswerIsFixed(read, steps, r);
  }

  lemma {:induction false} RunAfter(s: State, first: Step, steps: seq<Step>)
    ensures Run(s, [first] + steps) == Run(Next(s, first), steps)
    decreases |steps|
  {
    var all := [first] + steps;
    if steps == [] {
      assert all[..|all| - 1] == [];
    } else {
      assert all[..|all| - 1] == [first] + steps[..|steps| - 1];
      RunAfter(s, first, steps[..|steps| - 1]);
    }
  }

  /** A 304 never leaves a client without a body. */
  lemma NotModifiedFindsABody(steps: seq<Step>, c: nat)
    requires Answered(Run(START, steps), c)
    requires Run(START, steps).requests[ClientOf(Run(START, steps), c).waiting.value].phase.NotModified?
    ensures ClientOf(Run(START, steps), c).body.Some?
  {
    RunKeeps(steps);
    var s := Run(START, steps);
    assert RequestFresh(s, s.requests[s.clients[c].waiting.value]) && ClientFresh(s, s.clients[c]);
  }

  // ---------------------------------------------------------------- a lost mark

  /** The request the client waits for has read a version that is out of date by now. */
  predicate InFlightBehind(s: State, c: nat) {
    var waiting := ClientOf(s, c).waiting;
    waiting.Some? && HasRead(s, waiting.value) && s.requests[waiting.value].phase.version < s.version
  }

  /** `t` is later than `s`: bumps stay, a version once read stays, and versions read since
      are no older than the one at `s`. */
  ghost predicate Later(s: State, t: State) {
    && s.version <= t.version && s.requests.Keys <= t.requests.Keys
    && (forall w | w in s.bumped :: w in t.bumped && t.bumped[w] == s.bumped[w])
    && (forall r | HasRead(s, r) ::
          HasRead(t, r) && t.requests[r].phase.version == s.requests[r].phase.version)
    && (forall r | HasRead(t, r) && !HasRead(s, r) :: s.version <= t.requests[r].phase.version)
  }

  /** The client still waits for the request of `s`, for a newer one, or for none. */
  predicate NothingReceived(s: State, t: State, c: nat) {
    var waiting := ClientOf(t, c).waiting;
    waiting.Some? ==> waiting == ClientOf(s, c).waiting || waiting.value !in s.requests
  }

  ghost predicate SinceMark(s: State, t: State, c: nat) {
    Later(s, t) && NothingReceived(s, t, c)
  }

  lemma VersionsGrow(t: State, step: Step)
    ensures var u := Next(t, step);
      && t.version <= u.version && t.requests.Keys <= u.requests.Keys
      && (forall w | w in t.bumped :: w in u.bumped && u.bumped[w] == t.bumped[w])
  {
  }

  lemma NewReadIsLater(t: State, step: Step, r: nat)
    requires HasRead(Next(t, step), r) && !HasRead(t, r)
    ensures t.version <= Next(t, step).requests[r].phase.version
  {
  }

  lemma NextIsLater(t: State, step: Step)
    ensures Later(t, Next(t, step))
  {
    VersionsGrow(t, step);
    forall r | HasRead(t, r)
      ensures HasRead(Next(t, step), r) && Next(t, step).requests[r].phase.version == t.requests[r].phase.version
    {
      ReadStays(t, step, r);
    }
    forall r | HasRead(Next(t, step), r) && !HasRead(t, r)
      ensures t.version <= Next(t, step).requests[r].phase.version
    {
      NewReadIsLater(t, step, r);
    }
  }

  lemma LaterStep(s: State, t: State, step: Step)
    requires Later(s, t)
    ensures Later(s, Next(t, step))
  {
    NextIsLater(t, step);
    LaterTransitive(s, t, Next(t, step));
  }

  lemma LaterTransitive(s: State, t: State, u: State)
    requires Later(s, t) && Later(t, u)
    ensures Later(s, u)
  {
  }

  lemma NothingReceivedStep(s: State, t: State, c: nat, step: Step)
    requires NothingReceived(s, t, c) && step != Receive(c) && s.requests.Keys <= t.requests.Keys
    ensures NothingReceived(s, Next(t, step), c)
  {
  }

  lemma {:induction false} SinceMarkRun(s: State, c: nat, steps: seq<Step>)
    requires Receive(c) !in steps
    ensures SinceMark(s, Run(Next(s, MarkStale(c)), steps), c)
    decreases |steps|
  {
    if steps != [] {
      var rest, last := steps[..|steps| - 1], steps[|steps| - 1];
      assert steps == rest + [last];
      SinceMarkRun(s, c, rest);
      LaterStep(s, Run(Next(s, MarkStale(c)), rest), last);
      NothingReceivedStep(s, Run(Next(s, MarkStale(c)), rest), c, last);
    }
  }

  /** When exactly a stale mark is honoured. Mark the client in any reachable state and let
      anything happen until its next body arrives, lost requests and further marks
      included. The client ends up not stale either way; the mark is lost, its tag below the
      version at the mark, exactly when that body answers the request that was in flight at
      the mark and that request had already read an older version. In every other case the
      body holds every write bumped by the mark. */
  lemma MarkIsLostExactlyWhenBehind(before: seq<Step>, c: nat, steps: seq<Step>)
    requires Receive(c) !in steps
    requires Answered(Run(Next(Run(START, before), MarkStale(c)), steps), c)
    ensures
      var s := Run(START, before);
      var t := Run(Next(s, MarkStale(c)), steps);
      var client := ClientOf(Next(t, Receive(c)), c);
      && !client.stale && client.etag.Some? && client.body.Some?
      && (client.etag.value < s.version <==>
            InFlightBehind(s, c) && ClientOf(t, c).waiting == ClientOf(s, c).waiting)
      && (client.etag.value >= s.version ==> s.bumped.Keys <= client.body.value)
  {
    var s := Run(START, before);
    var marked := Next(s, MarkStale(c));
    var t := Run(marked, steps);
    RunKeeps(before);
    StepKeeps(s, MarkStale(c));
    RunKeepsFrom(marked, steps);
    SinceMarkRun(s, c, steps);
    ReceivedIsFresh(t, c);
    MarkOutcome(s, t, c);
  }

  lemma MarkOutcome(s: State, t: State, c: nat)
    requires Invariant(s) && Invariant(t) && SinceMark(s, t, c) && c in t.clients && Answered(t, c)
    ensures var client := Received(t.clients[c], t.requests[t.clients[c].waiting.value].phase);
      && (client.etag.value < s.version <==>
            InFlightBehind(s, c) && ClientOf(t, c).waiting == ClientOf(s, c).waiting)
      && (client.etag.value >= s.version ==> s.bumped.Keys <= client.body.value)
  {
    ReceivedIsFresh(t, c);
    var client := Received(t.clients[c], t.requests[t.clients[c].waiting.value].phase);
    if client.etag.value >= s.version {
      forall w | w in s.bumped ensures w in client.body.value {
        assert s.bumped[w] <= s.version && w in t.applied;
      }
    }
  }

  lemma RunMore(steps: seq<Step>, step: Step)
    ensures Run(START, steps + [step]) == Next(Run(START, steps), step)
  {
    assert (steps + [step])[..|steps|] == steps;
  }

  /** Client 0 and process 0 in the middle of a first snapshot, `k` parts read. */
  function Reading(k: nat): State {
    State(0, {}, map[], map[], map[0 := Request(0, None, {}, Building(0, k, {}))],
      map[0 := Client(None, None, false, Some(0))])
  }

  function ReadingSteps(k: nat): seq<Step> {
    if k == 0 then [Send(0, 0, 0), ReadVersion(0)] else ReadingSteps(k - 1) + [ReadPart(0)]
  }

  lemma FirstAnswerIsBuilt()
    ensures Next(Next(START, Send(0, 0, 0)), ReadVersion(0)) == Reading(0)
  {
    var sent := Next(START, Send(0, 0, 0));
    assert sent.bumped.Keys == {};
    assert AfterVersion(sent, sent.requests[0]) == Request(0, None, {}, Building(0, 0, {}));
  }

  lemma ReadEmptyPart(k: nat)
    requires k < PARTS
    ensures Next(Reading(k), ReadPart(0)) == Reading(k + 1)
  {
    assert PartNow(Reading(k), k) == {} && {} + PartNow(Reading(k), k) == {};
    assert Reading(k).requests[0 := Request(0, None, {}, Building(0, k + 1, {}))] == Reading(k + 1).requests;
  }

  lemma FirstSteps()
    ensures Run(START, ReadingSteps(0)) == Next(Next(START, Send(0, 0, 0)), ReadVersion(0))
  {
    RunMore([], Send(0, 0, 0));
    RunMore([Send(0, 0, 0)], ReadVersion(0));
    assert [] + [Send(0, 0, 0)] == [Send(0, 0, 0)];
    assert [Send(0, 0, 0)] + [ReadVersion(0)] == [Send(0, 0, 0), ReadVersion(0)];
  }

  lemma {:induction false} ReadingRun(k: nat)
    requires k <= PARTS
    ensures Run(START, ReadingSteps(k)) == Reading(k)
  {
    if k == 0 {
      FirstSteps();
      FirstAnswerIsBuilt();
    } else {
      ReadingRun(k - 1);
      RunMore(ReadingSteps(k - 1), ReadPart(0));
      ReadEmptyPart(k - 1);
    }
  }

  /** The mark is set while the reply is on its way: a snapshot of all six parts. */
  function LostMark(w: Change): seq<Step> {
    ReadingSteps(6) + [StoreSlot(0)] + [WriteData(w)] + [Bump(w)] + [MarkStale(0)] + [Receive(0)]
  }

  /** The losing case is reachable: `mark_catalog_stale` between a reply and its arrival
      leaves the client not stale, with a body that misses a write bumped before the mark. */
  lemma MarkInFlightIsLost(w: Change)
    requires w.part < 6
    ensures var s := Run(START, LostMark(w));
      && w in s.bumped && ClientOf(s, 0) == Client(Some({}), Some(0), false, None)
  {
    ReadingRun(6);
    var a := ReadingSteps(6);
    RunMore(a, StoreSlot(0));
    RunMore(a + [StoreSlot(0)], WriteData(w));
    RunMore(a + [StoreSlot(0)] + [WriteData(w)], Bump(w));
    RunMore(a + [StoreSlot(0)] + [WriteData(w)] + [Bump(w)], MarkStale(0));
    RunMore(a + [StoreSlot(0)] + [WriteData(w)] + [Bump(w)] + [MarkStale(0)], Receive(0));
  }
}
