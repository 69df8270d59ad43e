/** More about every run of the catalog: bodies hold nothing that was not written, the
    version counts the bumps, and a stale client gets a body. */
module Snapshots {
  import opened Mongo
  import opened Catalog

  /** Bodies hold only writes that were applied, and one being built only those of the
      parts read so far; the version is the number of bumps. */
  ghost predicate Sound(s: State) {
    s.version == |s.bumped| && SlotsSound(s) && RequestsSound(s) && ClientsSound(s)
  }

  ghost predicate SlotsSound(s: State) { forall p | p in s.slots :: s.slots[p].body <= s.applied }

  ghost predicate RequestsSound(s: State) {
    forall r | r in s.requests :: SoundPhase(s.applied, s.requests[r].phase)
  }

  ghost predicate ClientsSound(s: State) {
    forall c | c in s.clients && s.clients[c].body.Some? :: s.clients[c].body.value <= s.applied
  }

  ghost predicate SoundPhase(applied: set<Change>, phase: Phase) {
    match phase
    case Building(_, next, got) => got <= applied && forall w | w in got :: w.part < next
    case Full(_, body) => body <= applied
    case _ => true
  }

  lemma SlotsStep(s: State, step: Step)
    requires SlotsSound(s) && RequestsSound(s)
    ensures SlotsSound(Next(s, step)) && s.applied <= Next(s, step).applied
  {
    if step.StoreSlot? && step.request in s.requests { assert SoundPhase(s.applied, s.requests[step.request].phase); }
  }

  lemma RequestStep(s: State, step: Step, r: nat)
    requires SlotsSound(s) && RequestsSound(s) && r in Next(s, step).requests
    ensures SoundPhase(Next(s, step).applied, Next(s, step).requests[r].phase)
  {
    if r in s.requests { assert SoundPhase(s.applied, s.requests[r].phase); }
  }

  lemma ClientsStep(s: State, step: Step)
    requires RequestsSound(s) && ClientsSound(s)
    ensures ClientsSound(Next(s, step))
  {
    if step.Receive? && Answered(s, step.client) {
      assert SoundPhase(s.applied, s.requests[ClientOf(s, step.client).waiting.value].phase);
    }
  }

  lemma SoundStep(s: State, step: Step)
    requires Sound(s)
    ensures Sound(Next(s, step))
  {
    SlotsStep(s, step);
    ClientsStep(s, step);
    forall r | r in Next(s, step).requests ensures SoundPhase(Next(s, step).applied, Next(s, step).requests[r].phase) {
      RequestStep(s, step, r);
    }
    CountStep(s, step);
  }

  lemma CountStep(s: State, step: Step)
    requires s.version == |s.bumped|
    ensures Next(s, step).version == |Next(s, step).bumped|
  {
  }

  lemma {:induction false} SoundRun(steps: seq<Step>)
    ensures Sound(Run(START, steps))
    decreases |steps|
  {
    if steps != [] {
      SoundRun(steps[..|steps| - 1]);
      SoundStep(Run(START, steps[..|steps| - 1]), steps[|steps| - 1]);
    }
  }

  /** On every run, whatever a client, a cache or an answer holds was written before. */
  lemma NothingIsInvented(steps: seq<Step>, w: Change)
    ensures var s := Run(START, steps);
      && s.version == |s.bumped|
      && ((exists p :: p in s.slots && w in s.slots[p].body)
          || (exists r :: r in s.requests && s.requests[r].phase.Full? && w in s.requests[r].phase.body)
          || (exists c :: c in s.clients && s.clients[c].body.Some? && w in s.clients[c].body.value)
          ==> w in s.applied)
  {
    SoundRun(steps);
    var s := Run(START, steps);
    if r :| r in s.requests && s.requests[r].phase.Full? && w in s.requests[r].phase.body {
      assert SoundPhase(s.applied, s.requests[r].phase);
    }
  }

  predicate Untagged(s: State, r: nat) {
    r in s.requests && s.requests[r].header.None? && !s.requests[r].phase.NotModified?
  }

  lemma UntaggedStep(s: State, step: Step, r: nat)
    requires Untagged(s, r)
    ensures Untagged(Next(s, step), r)
  {
  }

  lemma {:induction false} UntaggedRun(s: State, steps: seq<Step>, r: nat)
    requires Untagged(s, r)
    ensures Untagged(Run(s, steps), r)
    decreases |steps|
  {
    if steps != [] {
      UntaggedRun(s, steps[..|steps| - 1], r);
      UntaggedStep(Run(s, steps[..|steps| - 1]), steps[|steps| - 1], r);
    }
  }

  /** A client that knows it is stale, or has nothing yet, is never answered with 304,
      however the run goes on. */
  lemma StaleGetsABody(s: State, c: nat, r: nat, p: nat, steps: seq<Step>)
    requires r !in s.requests && ClientOf(s, c).waiting.None?
    requires ClientOf(s, c).stale || ClientOf(s, c).etag.None?
    ensures var t := Run(Next(s, Send(c, r, p)), steps);
      r in t.requests && !t.requests[r].phase.NotModified?
  {
    UntaggedRun(Next(s, Send(c, r, p)), steps, r);
  }

  /** What the version read decides: a request that carries the tag of that version is
      answered with 304; any other one with the body the process has of that version, and
      with a new one only when it has none. */
  lemma VersionDecides(s: State, r: nat)
    requires r in s.requests && s.requests[r].phase.Asked?
    ensures var q, t := s.requests[r], Next(s, ReadVersion(r));
      && t.slots == s.slots && t.clients == s.clients && t.version == s.version
      && t.requests[r].phase ==
           if q.header == Some(s.version) then NotModified(s.version)
           else if q.process in s.slots && s.slots[q.process].version == s.version
           then Full(s.version, s.slots[q.process].body)
           else Building(s.version, 0, {})
  {
    var q := s.requests[r];
    if q.header.Some? { EtagRoundTrip(q.header.value, s.version); }
  }

  /** A client that is not stale asks with the version of the body it has. */
  lemma FreshSendsItsTag(s: State, c: nat, r: nat, p: nat)
    requires r !in s.requests && ClientOf(s, c).waiting.None? && !ClientOf(s, c).stale
    ensures Next(s, Send(c, r, p)).requests[r].header == ClientOf(s, c).etag
  {
  }

  /** A client waits for one request at a time; losing the reply ends the wait and changes
      nothing else, so that it can ask again. */
  lemma OneRequestAtATime(s: State, c: nat, r: nat, p: nat)
    ensures ClientOf(s, c).waiting.Some? ==> Next(s, Send(c, r, p)) == s
    ensures var t := Next(s, Lose(c));
      && ClientOf(t, c) == ClientOf(s, c).(waiting := None) && t.requests == s.requests
      && (r !in s.requests ==> ClientOf(Next(t, Send(c, r, p)), c).waiting == Some(r))
  {
  }
}
