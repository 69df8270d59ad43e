/** The database-wide lease of backend/app/api.py and the one-time bootstrap it guards,
    as interleaved steps of any number of API processes. */
module Lease {
  import opened Mongo

  const LEASE_SECONDS: nat := 60

  datatype Held = Held(owner: nat, expires: nat)

  /** `read` is the clock a process saw before its first database call. */
  datatype Phase =
    | Trying(read: nat)
    | Replacing(read: nat)
    | Holding(expires: nat)
    | Checked(expires: nat)
    | Leaving
    | Ended

  /** Process ids stand for their random owner strings. */
  datatype State = State(now: nat, lease: Option<Held>, users: nat, phases: map<nat, Phase>)

  datatype Step =
    | Tick(seconds: nat)
    | Begin(process: nat)
    | InsertLease(process: nat)
    | TakeOver(process: nat)
    | CountUsers(process: nat)
    | CreateUser(process: nat)
    | Release(process: nat)

  const START := State(0, None, 0, map[])

  predicate In(s: State, p: nat) { p in s.phases }

  function To(s: State, p: nat, phase: Phase): State { s.(phases := s.phases[p := phase]) }

  function Next(s: State, step: Step): State {
    match step
    case Tick(d) => s.(now := s.now + d)
    case Begin(p) => if In(s, p) then s else To(s, p, Trying(s.now))
    case InsertLease(p) =>
      if !In(s, p) || !s.phases[p].Trying? then s
      else if s.lease.Some? then To(s, p, Replacing(s.phases[p].read))
      else To(s, p, Holding(s.phases[p].read + LEASE_SECONDS)).(
        lease := Some(Held(p, s.phases[p].read + LEASE_SECONDS)))
    case TakeOver(p) =>
      if !In(s, p) || !s.phases[p].Replacing? then s
      else if s.lease.Some? && s.lease.value.expires <= s.phases[p].read
      then To(s, p, Holding(s.phases[p].read + LEASE_SECONDS)).(
        lease := Some(Held(p, s.phases[p].read + LEASE_SECONDS)))
      else To(s, p, Ended)
    case CountUsers(p) =>
      if !In(s, p) || !s.phases[p].Holding? then s
      else if s.users > 0 then To(s, p, Leaving)
      else To(s, p, Checked(s.phases[p].expires))
    case CreateUser(p) =>
      if !In(s, p) || !s.phases[p].Checked? then s
      else To(s, p, Leaving).(users := s.users + 1)
    case Release(p) =>
      if !In(s, p) || !(s.phases[p].Leaving? || s.phases[p].Holding? || s.phases[p].Checked?) then s
      else To(s, p, Ended).(
        lease := if s.lease.Some? && s.lease.value.owner == p then None else s.lease)
  }

  /** The user is stored before the process's own lease has run out. */
  predicate InTime(s: State, step: Step) {
    (step.CreateUser? && In(s, step.process) && s.phases[step.process].Checked?)
    ==> s.now < s.phases[step.process].expires
  }

  function Run(s: State, steps: seq<Step>): State
    decreases |steps|
  {
    if steps == [] then s else Run(Next(s, steps[0]), steps[1..])
  }

  predicate RunInTime(s: State, steps: seq<Step>)
    decreases |steps|
  {
    steps == [] || (InTime(s, steps[0]) && RunInTime(Next(s, steps[0]), steps[1..]))
  }

  predicate Owns(s: State, p: nat, expires: nat) {
    s.now < expires ==> s.lease == Some(Held(p, expires))
  }

  /** On every run: a process whose lease has not run out is the one owner in the database. */
  predicate Leased(s: State) {
    && (forall p | p in s.phases && s.phases[p].Trying? :: s.phases[p].read <= s.now)
    && (forall p | p in s.phases && s.phases[p].Replacing? :: s.phases[p].read <= s.now)
    && (forall p | p in s.phases && (s.phases[p].Holding? || s.phases[p].Checked?) ::
          Owns(s, p, s.phases[p].expires))
  }

  lemma LeasedStep(s: State, step: Step)
    requires Leased(s)
    ensures Leased(Next(s, step))
  {
  }

  /** A run is in time when each of its steps is. */
  lemma {:induction false} RunInTimeMeans(s: State, steps: seq<Step>)
    ensures RunInTime(s, steps) <==> forall n: nat | n < |steps| :: InTime(Run(s, steps[..n]), steps[n])
    decreases |steps|
  {
    if steps != [] {
      RunInTimeMeans(Next(s, steps[0]), steps[1..]);
      assert steps[..0] == [];
      forall n: nat | n < |steps| - 1
        ensures Run(s, steps[..n + 1]) == Run(Next(s, steps[0]), steps[1..][..n]) && steps[n + 1] == steps[1..][n]
      {
        assert steps[..n + 1][0] == steps[0] && steps[..n + 1][1..] == steps[1..][..n];
      }
      if forall n: nat | n < |steps| :: InTime(Run(s, steps[..n]), steps[n]) {
        assert InTime(Run(s, steps[..0]), steps[0]);
        forall n: nat | n < |steps| - 1 ensures InTime(Run(Next(s, steps[0]), steps[1..][..n]), steps[1..][n]) {
          assert InTime(Run(s, steps[..n + 1]), steps[n + 1]);
        }
      }
      if RunInTime(s, steps) {
        forall n: nat | n < |steps| ensures InTime(Run(s, steps[..n]), steps[n]) {
          if n > 0 { assert InTime(Run(Next(s, steps[0]), steps[1..][..n - 1]), steps[1..][n - 1]); }
        }
      }
    }
  }

  predicate Bootstrapping(s: State, p: nat) {
    In(s, p) && (s.phases[p].Holding? || s.phases[p].Checked? || s.phases[p].Leaving?)
  }

  predicate AtPhase(s: State, p: nat, phase: Phase) { p in s.phases && s.phases[p] == phase }

  /** Leaving a bootstrap ends it and gives up the process's own lease, and no other. */
  lemma ReleaseMeans(s: State, p: nat)
    requires Bootstrapping(s, p)
    ensures var t := Next(s, Release(p));
      && t.phases == s.phases[p := Ended] && t.users == s.users && t.now == s.now
      && (forall held :: t.lease == Some(held) <==> s.lease == Some(held) && held.owner != p)
  {
  }

  /** A new process gets the lease exactly when there is none or it has run out. */
  lemma NextProcess(s: State, q: nat)
    requires q !in s.phases
    ensures var t := Run(s, [Begin(q), InsertLease(q), TakeOver(q)]);
      if s.lease.None? || s.lease.value.expires <= s.now
      then AtPhase(t, q, Holding(s.now + 60)) && t.lease == Some(Held(q, s.now + 60))
      else AtPhase(t, q, Ended) && t.lease == s.lease
  {
    RunThree(s, Begin(q), InsertLease(q), TakeOver(q), []);
    assert [Begin(q), InsertLease(q), TakeOver(q)] + [] == [Begin(q), InsertLease(q), TakeOver(q)];
  }

  /** The owner that leaves makes room for the next process at once. */
  lemma AfterRelease(s: State, p: nat, q: nat)
    requires Bootstrapping(s, p) && s.lease.Some? && s.lease.value.owner == p && q !in s.phases
    ensures var t := Run(s, [Release(p), Begin(q), InsertLease(q)]);
      AtPhase(t, q, Holding(s.now + 60)) && t.lease == Some(Held(q, s.now + 60))
  {
    RunThree(s, Release(p), Begin(q), InsertLease(q), []);
    assert [Release(p), Begin(q), InsertLease(q)] + [] == [Release(p), Begin(q), InsertLease(q)];
  }

  /** A process that is not bootstrapping has nothing to release. */
  lemma ReleaseOnce(s: State, p: nat)
    requires !Bootstrapping(s, p)
    ensures Next(s, Release(p)) == s
  {
  }

  /** When users are created in time, what an unexpired holder counted is still so. */
  predicate Invariant(s: State) {
    && Leased(s) && s.users <= 1
    && (forall p | p in s.phases && s.phases[p].Checked? && s.now < s.phases[p].expires :: s.users == 0)
  }

  lemma StepKeeps(s: State, step: Step)
    requires Invariant(s) && InTime(s, step)
    ensures Invariant(Next(s, step))
  {
    LeasedStep(s, step);
  }

  /** At most one process holds an unexpired lease. */
  lemma OneHolder(s: State, p: nat, q: nat)
    requires Leased(s) && p in s.phases && q in s.phases
    requires s.phases[p].Holding? || s.phases[p].Checked?
    requires s.phases[q].Holding? || s.phases[q].Checked?
    requires s.now < s.phases[p].expires && s.now < s.phases[q].expires
    ensures p == q
  {
  }

  /** However bootstraps interleave, at most one first user is created as long as every
      creation happens within the creator's lease. */
  lemma {:induction false} OneFirstUser(s: State, steps: seq<Step>)
    requires Invariant(s) && RunInTime(s, steps)
    ensures Invariant(Run(s, steps)) && Run(s, steps).users <= 1
    decreases |steps|
  {
    if steps != [] {
      StepKeeps(s, steps[0]);
      OneFirstUser(Next(s, steps[0]), steps[1..]);
    }
  }

  // ---------------------------------------------------------------- a second user

  /** Processes that counted no users and have not created one yet. */
  function Ready(s: State): set<nat> {
    set p | p in s.phases && s.phases[p].Checked?
  }

  /** The users there are and those on their way. */
  function Coming(s: State): nat { s.users + |Ready(s)| }

  predicate OnlyCreates(steps: seq<Step>) {
    forall i | 0 <= i < |steps| :: steps[i].CreateUser?
  }

  lemma CreateKeepsComing(s: State, p: nat)
    ensures Coming(Next(s, CreateUser(p))) == Coming(s)
    ensures p in Ready(s) ==> Ready(Next(s, CreateUser(p))) == Ready(s) - {p}
  {
    var t := Next(s, CreateUser(p));
    if p in Ready(s) {
      assert Ready(t) == Ready(s) - {p};
    } else {
      assert t == s;
    }
  }

  lemma {:induction false} CreatesReachAtMost(s: State, steps: seq<Step>)
    requires OnlyCreates(steps)
    ensures Run(s, steps).users <= Coming(s)
    decreases |steps|
  {
    if steps != [] {
      CreateKeepsComing(s, steps[0].process);
      CreatesReachAtMost(Next(s, steps[0]), steps[1..]);
    }
  }

  lemma {:induction false} CreatesReach(s: State) returns (steps: seq<Step>)
    ensures OnlyCreates(steps) && Run(s, steps).users == Coming(s)
    decreases |Ready(s)|
  {
    if Ready(s) == {} {
      steps := [];
    } else {
      var p :| p in Ready(s);
      CreateKeepsComing(s, p);
      var rest := CreatesReach(Next(s, CreateUser(p)));
      steps := [CreateUser(p)] + rest;
      assert steps[1..] == rest;
    }
  }

  /** From any state, creations alone can lead to a second user exactly when the users
      there are and the processes that have counted make two. */
  lemma SecondUserWithin(s: State)
    ensures (exists steps :: OnlyCreates(steps) && Run(s, steps).users >= 2) <==> Coming(s) >= 2
  {
    if Coming(s) >= 2 {
      var steps := CreatesReach(s);
      assert OnlyCreates(steps) && Run(s, steps).users >= 2;
    }
    forall steps | OnlyCreates(steps) ensures Run(s, steps).users <= Coming(s) { CreatesReachAtMost(s, steps); }
  }

  /** Two processes have both counted no users, and the lease of one has run out. */
  predicate Overtaken(s: State) {
    s.users == 0 && exists p, q | p in s.phases && q in s.phases ::
      p != q && s.phases[p].Checked? && s.phases[q].Checked? && s.phases[p].expires <= s.now
  }

  lemma TwoReadyMeansOvertaken(s: State, p: nat, q: nat)
    requires Leased(s) && s.users == 0 && p != q && p in Ready(s) && q in Ready(s)
    ensures Overtaken(s)
  {
    if s.now < s.phases[p].expires && s.now < s.phases[q].expires { OneHolder(s, p, q); }
  }

  lemma OvertakenMeansTwo(s: State)
    requires Overtaken(s)
    ensures Coming(s) >= 2
  {
    var p, q :| p in s.phases && q in s.phases
      && p != q && s.phases[p].Checked? && s.phases[q].Checked? && s.phases[p].expires <= s.now;
    assert {p, q} <= Ready(s);
    assert Ready(s) == {p, q} + (Ready(s) - {p, q});
  }

  /** The step that makes it two is a count that overlooks a process already past its count. */
  lemma TurningPoint(s: State, step: Step)
    requires Leased(s) && Coming(s) <= 1 && Coming(Next(s, step)) >= 2
    ensures Overtaken(Next(s, step))
  {
    LeasedStep(s, step);
    if step.CountUsers? && Counts(s, step.process) {
      var p := step.process;
      assert Ready(Next(s, step)) == Ready(s) + {p};
      var q :| q in Ready(s);
      TwoReadyMeansOvertaken(Next(s, step), p, q);
    } else {
      OnlyCountsGrow(s, step);
    }
  }

  /** The process is about to count no users. */
  predicate Counts(s: State, p: nat) {
    p in s.phases && s.phases[p].Holding? && s.users == 0
  }

  lemma OnlyCountsGrow(s: State, step: Step)
    requires !(step.CountUsers? && Counts(s, step.process))
    ensures Coming(Next(s, step)) <= Coming(s)
  {
    if step.CreateUser? {
      CreateKeepsComing(s, step.process);
    } else {
      FewerReady(s, step);
      assert Ready(s) == Ready(Next(s, step)) + (Ready(s) - Ready(Next(s, step)));
    }
  }

  lemma FewerReady(s: State, step: Step)
    requires !(step.CountUsers? && Counts(s, step.process)) && !step.CreateUser?
    ensures Ready(Next(s, step)) <= Ready(s) && Next(s, step).users == s.users
  {
  }

  lemma {:induction false} TwoHasATurningPoint(s: State, steps: seq<Step>) returns (n: nat)
    requires Leased(s) && Coming(s) <= 1 && Coming(Run(s, steps)) >= 2
    ensures n <= |steps| && Overtaken(Run(s, steps[..n]))
    decreases |steps|
  {
    var t := Next(s, steps[0]);
    LeasedStep(s, steps[0]);
    if Coming(t) >= 2 {
      TurningPoint(s, steps[0]);
      n := 1;
      assert steps[..1] == [steps[0]];
      assert [steps[0]][1..] == [];
    } else {
      var m := TwoHasATurningPoint(t, steps[1..]);
      n := m + 1;
      assert steps[..n][1..] == steps[1..][..m];
    }
  }

  /** Somewhere along the run, creations alone could have led to a second user. */
  ghost predicate SecondUserPossible(steps: seq<Step>) {
    exists n: nat | n <= |steps| ::
      exists creates :: OnlyCreates(creates) && Run(Run(START, steps[..n]), creates).users >= 2
  }

  ghost predicate EverOvertaken(steps: seq<Step>) {
    exists n: nat | n <= |steps| :: Overtaken(Run(START, steps[..n]))
  }

  /** When exactly a second first user can appear, on every run and whatever the timing:
      a second one becomes possible exactly when at some moment two processes have counted
      no users and the lease of one of them has run out. */
  lemma SecondUserExactly(steps: seq<Step>)
    ensures SecondUserPossible(steps) <==> EverOvertaken(steps)
  {
    forall n: nat | n <= |steps| ensures
      (exists creates :: OnlyCreates(creates) && Run(Run(START, steps[..n]), creates).users >= 2)
      <==> Coming(Run(START, steps[..n])) >= 2
    {
      SecondUserWithin(Run(START, steps[..n]));
    }
    if n: nat :| n <= |steps| && Overtaken(Run(START, steps[..n])) {
      OvertakenMeansTwo(Run(START, steps[..n]));
    }
    if n: nat :| n <= |steps| && Coming(Run(START, steps[..n])) >= 2 {
      assert Ready(START) == {};
      var m := TwoHasATurningPoint(START, steps[..n]);
      assert steps[..n][..m] == steps[..m];
    }
  }

  /** In particular a run that ends with two users went through such a moment. */
  lemma TwoUsersWereOvertaken(steps: seq<Step>)
    requires Run(START, steps).users >= 2
    ensures EverOvertaken(steps)
  {
    assert Ready(START) == {};
    var n := TwoHasATurningPoint(START, steps);
  }

  lemma RunThree(s: State, a: Step, b: Step, c: Step, rest: seq<Step>)
    ensures Run(s, [a, b, c] + rest) == Run(Next(Next(Next(s, a), b), c), rest)
  {
    assert [a, b, c] + rest == [a] + ([b] + ([c] + rest));
    RunOne(s, a, [b] + ([c] + rest));
    RunOne(Next(s, a), b, [c] + rest);
    RunOne(Next(Next(s, a), b), c, rest);
  }

  lemma RunOne(s: State, a: Step, rest: seq<Step>)
    ensures Run(s, [a] + rest) == Run(Next(s, a), rest)
  {
    assert ([a] + rest)[1..] == rest;
  }

  const STALLED: seq<Step> := [Begin(0), InsertLease(0), CountUsers(0)]
  const TAKEN_OVER: seq<Step> := [Tick(LEASE_SECONDS), Begin(1), InsertLease(1)]
  const BOTH_CREATE: seq<Step> := [CountUsers(1), CreateUser(1), CreateUser(0)]

  /** It does happen: a holder that stalls past its lease and the process that takes over
      create two. */
  lemma LateCreationBreaksIt()
    ensures Run(START, STALLED + (TAKEN_OVER + ([TakeOver(1)] + (BOTH_CREATE + [])))).users == 2
  {
    var stalled := State(0, Some(Held(0, 60)), 0, map[0 := Checked(60)]);
    var waiting := State(60, Some(Held(0, 60)), 0, map[0 := Checked(60), 1 := Replacing(60)]);
    var taken := State(60, Some(Held(1, 120)), 0, map[0 := Checked(60), 1 := Holding(120)]);
    RunThree(START, Begin(0), InsertLease(0), CountUsers(0), TAKEN_OVER + ([TakeOver(1)] + (BOTH_CREATE + [])));
    assert Next(Next(Next(START, Begin(0)), InsertLease(0)), CountUsers(0)) == stalled;
    RunThree(stalled, Tick(60), Begin(1), InsertLease(1), [TakeOver(1)] + (BOTH_CREATE + []));
    assert Next(Next(Next(stalled, Tick(60)), Begin(1)), InsertLease(1)) == waiting;
    assert Next(waiting, TakeOver(1)) == taken;
    assert ([TakeOver(1)] + (BOTH_CREATE + []))[1..] == BOTH_CREATE + [];
    RunThree(taken, CountUsers(1), CreateUser(1), CreateUser(0), []);
  }
}
