/** Cron fires of one workflow on many replicas: the per-minute fire lock, the overlap lock, the in-flight check. */
module CronFire {
  import opened Helpers

  datatype Lock = Lock(owner: nat, expiry: nat)

  // `fireTtl` and `overlapTtl` are the lifetimes of the two locks.  `delay` bounds the time from reading
  // the clock to the SET NX of the fire lock, `hold` the time from the overlap lock to the insert.
  // `lockErrors` says whether the overlap SET NX may raise, in which case the code goes on without it.
  datatype Config = Config(fireTtl: nat, overlapTtl: nat, delay: nat, hold: nat, lockErrors: bool)

  // One invocation of the job function, on any replica.
  datatype Job =
    | Fired(minute: nat, due: nat)
    | Claimed(minute: nat)
    | Guarded(minute: nat, locked: bool, due: nat)
    | Checked(minute: nat, locked: bool, due: nat)
    | Inserted(minute: nat, locked: bool)
    | Ended

  // `inserted` lists the minutes of the executions inserted so far; `inFlight` holds the indices of those
  // that are not terminal.  `overlapped` records that an execution was inserted beside one in flight.
  datatype State = State(now: nat, fire: map<nat, Lock>, overlap: Option<Lock>, jobs: map<nat, Job>,
                         inserted: seq<nat>, inFlight: set<nat>, overlapped: bool)

  datatype Step =
    | Fire(a: nat) | Claim(a: nat) | Guard(a: nat) | GuardError(a: nat) | Check(a: nat) | Insert(a: nat)
    | Renew(a: nat) | Leave(a: nat) | Crash(a: nat) | Finish(run: nat) | Tick

  const INIT := State(0, map[], None, map[], [], {}, false)

  predicate Live(s: State, l: Lock) {
    s.now < l.expiry
  }

  predicate Owns(s: State, l: Option<Lock>, a: nat) {
    l.Some? && Live(s, l.value) && l.value.owner == a
  }

  // A job with a deadline acts before the deadline passes.
  predicate MayWait(s: State, j: Job) {
    match j
    case Fired(_, due) => s.now < due
    case Guarded(_, _, due) => s.now < due
    case Checked(_, _, due) => s.now < due
    case _ => true
  }

  predicate Enabled(c: Config, s: State, step: Step) {
    match step
    case Fire(a) => a !in s.jobs
    case Claim(a) => a in s.jobs && s.jobs[a].Fired?
    case Guard(a) => a in s.jobs && s.jobs[a].Claimed?
    case GuardError(a) => a in s.jobs && s.jobs[a].Claimed? && c.lockErrors
    case Check(a) => a in s.jobs && s.jobs[a].Guarded?
    case Insert(a) => a in s.jobs && s.jobs[a].Checked?
    case Renew(a) => a in s.jobs && (s.jobs[a].Guarded? || s.jobs[a].Checked? || s.jobs[a].Inserted?)
    case Leave(a) => a in s.jobs
    case Crash(a) => a in s.jobs
    case Finish(run) => run in s.inFlight
    case Tick => forall a :: a in s.jobs ==> MayWait(s, s.jobs[a])
  }

  function Apply(c: Config, s: State, step: Step): State
    requires Enabled(c, s, step)
  {
    match step
    case Fire(a) => s.(jobs := s.jobs[a := Fired(s.now / 60, s.now + c.delay)])
    case Claim(a) =>
      var minute := s.jobs[a].minute;
      if minute in s.fire && Live(s, s.fire[minute]) then s.(jobs := s.jobs[a := Ended])
      else s.(jobs := s.jobs[a := Claimed(minute)], fire := s.fire[minute := Lock(a, s.now + c.fireTtl)])
    case Guard(a) =>
      if s.overlap.Some? && Live(s, s.overlap.value) then s.(jobs := s.jobs[a := Ended])
      else s.(jobs := s.jobs[a := Guarded(s.jobs[a].minute, true, s.now + c.hold)],
              overlap := Some(Lock(a, s.now + c.overlapTtl)))
    case GuardError(a) => s.(jobs := s.jobs[a := Guarded(s.jobs[a].minute, false, s.now + c.hold)])
    case Check(a) =>
      if s.inFlight != {} then s.(jobs := s.jobs[a := Ended], overlap := Released(s, a, s.jobs[a].locked))
      else s.(jobs := s.jobs[a := Checked(s.jobs[a].minute, s.jobs[a].locked, s.jobs[a].due)])
    case Insert(a) =>
      s.(jobs := s.jobs[a := Inserted(s.jobs[a].minute, s.jobs[a].locked)],
         inserted := s.inserted + [s.jobs[a].minute],
         inFlight := s.inFlight + {|s.inserted|},
         overlapped := s.overlapped || s.inFlight != {})
    case Renew(a) =>
      var minute := s.jobs[a].minute;
      var fire := if minute in s.fire && Owns(s, Some(s.fire[minute]), a)
                  then s.fire[minute := Lock(a, s.now + c.fireTtl)] else s.fire;
      // The overlap lock is renewed with the lifetime of the fire lock.
      var overlap := if s.jobs[a].locked && Owns(s, s.overlap, a) then Some(Lock(a, s.now + c.fireTtl)) else s.overlap;
      s.(fire := fire, overlap := overlap)
    case Leave(a) => s.(jobs := s.jobs[a := Ended], overlap := Released(s, a, Locked(s.jobs[a])))
    case Crash(a) => s.(jobs := s.jobs[a := Ended])
    case Finish(run) => s.(inFlight := s.inFlight - {run})
    case Tick => s.(now := s.now + 1)
  }

  predicate Locked(j: Job) {
    (j.Guarded? || j.Checked? || j.Inserted?) && j.locked
  }

  // Compare-and-delete of the overlap lock.
  function Released(s: State, a: nat, locked: bool): Option<Lock> {
    if locked && s.overlap.Some? && s.overlap.value.owner == a then None else s.overlap
  }

  ghost predicate Reachable(c: Config, s: State, steps: seq<Step>)
    decreases |steps|
  {
    if steps == [] then s == INIT
    else
      var last := |steps| - 1;
      exists before :: Reachable(c, before, steps[..last]) && Enabled(c, before, steps[last]) &&
                       s == Apply(c, before, steps[last])
  }

  ghost predicate CanReach(c: Config, s: State) {
    exists steps :: Reachable(c, s, steps)
  }

  /* ----- At most one execution per minute ----- */

  ghost predicate OncePerMinute(c: Config) {
    forall s :: CanReach(c, s) ==> MinutesDistinct(s)
  }

  // What the invariant says about one job: how late it may still claim, or that it owns its minute.
  predicate JobInTime(c: Config, s: State, a: nat, j: Job) {
    match j
    case Fired(minute, due) => 60 * minute <= s.now <= due <= 60 * minute + 59 + c.delay
    case Inserted(minute, _) => 60 * minute <= s.now
    case Ended => true
    case _ => 60 * j.minute <= s.now && j.minute in s.fire && s.fire[j.minute].owner == a
  }

  ghost predicate JobsInTime(c: Config, s: State) {
    forall a :: a in s.jobs ==> JobInTime(c, s, a, s.jobs[a])
  }

  predicate Spent(s: State, a: nat) {
    a in s.jobs && (s.jobs[a].Inserted? || s.jobs[a].Ended?)
  }

  ghost predicate LocksLastTheMinute(c: Config, s: State) {
    forall m :: m in s.fire ==> s.fire[m].expiry >= 60 * m + c.fireTtl && s.fire[m].owner in s.jobs
  }

  // An inserted minute is claimed for good, by a job that is done inserting.
  ghost predicate InsertedMinutesSpent(s: State) {
    forall i :: 0 <= i < |s.inserted| ==> s.inserted[i] in s.fire && Spent(s, s.fire[s.inserted[i]].owner)
  }

  ghost predicate MinutesDistinct(s: State) {
    forall i, j :: 0 <= i < j < |s.inserted| ==> s.inserted[i] != s.inserted[j]
  }

  // A minute belongs to the first job that claims it, until no job of that minute can claim any more.
  ghost predicate MinuteInv(c: Config, s: State) {
    JobsInTime(c, s) && LocksLastTheMinute(c, s) && InsertedMinutesSpent(s) && MinutesDistinct(s)
  }

  // Nobody can claim a minute a second time.
  lemma NoSecondClaim(c: Config, s: State, a: nat)
    requires c.fireTtl >= 60 + c.delay && JobsInTime(c, s) && LocksLastTheMinute(c, s)
    requires a in s.jobs && s.jobs[a].Fired? && s.jobs[a].minute in s.fire
    ensures Live(s, s.fire[s.jobs[a].minute])
  {
    assert JobInTime(c, s, a, s.jobs[a]);
  }

  lemma JobsInTimeStep(c: Config, s: State, step: Step)
    requires c.fireTtl >= 60 + c.delay && JobsInTime(c, s) && LocksLastTheMinute(c, s) && Enabled(c, s, step)
    ensures JobsInTime(c, Apply(c, s, step))
  {
    var t := Apply(c, s, step);
    forall a | a in t.jobs
      ensures JobInTime(c, t, a, t.jobs[a])
    {
      if step.Claim? {
        ClaimInTime(c, s, step.a, a);
      } else if a in s.jobs {
        assert JobInTime(c, s, a, s.jobs[a]);
        StaysInTime(c, s, step, a);
      }
    }
  }

  lemma StaysInTime(c: Config, s: State, step: Step, a: nat)
    requires a in s.jobs && JobInTime(c, s, a, s.jobs[a]) && Enabled(c, s, step) && !step.Claim?
    ensures var t := Apply(c, s, step); a in t.jobs ==> JobInTime(c, t, a, t.jobs[a])
  {
    assert step.Tick? ==> MayWait(s, s.jobs[a]);
  }

  lemma ClaimInTime(c: Config, s: State, claimer: nat, a: nat)
    requires c.fireTtl >= 60 + c.delay && JobsInTime(c, s) && LocksLastTheMinute(c, s) && Enabled(c, s, Claim(claimer))
    requires a in Apply(c, s, Claim(claimer)).jobs
    ensures JobInTime(c, Apply(c, s, Claim(claimer)), a, Apply(c, s, Claim(claimer)).jobs[a])
  {
    assert JobInTime(c, s, a, s.jobs[a]) && JobInTime(c, s, claimer, s.jobs[claimer]);
    if s.jobs[claimer].minute in s.fire {
      NoSecondClaim(c, s, claimer);
    }
  }

  lemma LocksStep(c: Config, s: State, step: Step)
    requires JobsInTime(c, s) && LocksLastTheMinute(c, s) && Enabled(c, s, step)
    ensures LocksLastTheMinute(c, Apply(c, s, step))
  {
    if step.Claim? || step.Renew? {
      assert JobInTime(c, s, step.a, s.jobs[step.a]);
    }
  }

  // What is inserted is new: the minute was not spent before.
  lemma InsertIsNew(c: Config, s: State, a: nat)
    requires MinuteInv(c, s) && Enabled(c, s, Insert(a))
    ensures s.jobs[a].minute !in s.inserted
  {
    assert JobInTime(c, s, a, s.jobs[a]);
    forall i | 0 <= i < |s.inserted|
      ensures s.inserted[i] != s.jobs[a].minute
    {
      assert Spent(s, s.fire[s.inserted[i]].owner);
    }
  }

  lemma DistinctStep(c: Config, s: State, step: Step)
    requires MinuteInv(c, s) && Enabled(c, s, step)
    ensures MinutesDistinct(Apply(c, s, step))
  {
    if step.Insert? {
      InsertIsNew(c, s, step.a);
    }
  }

  // A minute that is spent stays so, and with the same owner.
  lemma StaysSpent(c: Config, s: State, step: Step, m: nat)
    requires c.fireTtl >= 60 + c.delay && MinuteInv(c, s) && Enabled(c, s, step)
    requires m in s.fire && Spent(s, s.fire[m].owner)
    ensures var t := Apply(c, s, step); m in t.fire && Spent(t, t.fire[m].owner)
  {
    if step.Claim? && s.jobs[step.a].minute == m {
      NoSecondClaim(c, s, step.a);
    }
  }

  lemma InsertedStep(c: Config, s: State, step: Step)
    requires c.fireTtl >= 60 + c.delay && MinuteInv(c, s) && Enabled(c, s, step)
    ensures InsertedMinutesSpent(Apply(c, s, step)) && MinutesDistinct(Apply(c, s, step))
  {
    var t := Apply(c, s, step);
    DistinctStep(c, s, step);
    forall i | 0 <= i < |t.inserted|
      ensures t.inserted[i] in t.fire && Spent(t, t.fire[t.inserted[i]].owner)
    {
      if i < |s.inserted| {
        StaysSpent(c, s, step, s.inserted[i]);
      } else {
        assert JobInTime(c, s, step.a, s.jobs[step.a]);
      }
    }
  }

  lemma {:induction false} MinuteInvAlways(c: Config, s: State, steps: seq<Step>)
    requires c.fireTtl >= 60 + c.delay && Reachable(c, s, steps)
    ensures MinuteInv(c, s)
    decreases |steps|
  {
    if steps != [] {
      var last := |steps| - 1;
      var before :| Reachable(c, before, steps[..last]) && Enabled(c, before, steps[last]) && s == Apply(c, before, steps[last]);
      MinuteInvAlways(c, before, steps[..last]);
      JobsInTimeStep(c, before, steps[last]);
      LocksStep(c, before, steps[last]);
      InsertedStep(c, before, steps[last]);
    }
  }

  lemma Do(c: Config, s: State, step: Step) returns (t: State)
    requires CanReach(c, s) && Enabled(c, s, step)
    ensures t == Apply(c, s, step) && CanReach(c, t)
  {
    t := Apply(c, s, step);
    var steps :| Reachable(c, s, steps);
    var run := steps + [step];
    assert run[..|run| - 1] == steps && run[|run| - 1] == step;
    assert Reachable(c, t, run);
  }

  lemma StartReached(c: Config)
    ensures CanReach(c, INIT)
  {
    assert Reachable(c, INIT, []);
  }

  predicate MayWaitFor(s: State, k: nat) {
    forall a :: a in s.jobs ==> s.jobs[a].Fired? || s.jobs[a].Guarded? || s.jobs[a].Checked? ==> s.now + k <= s.jobs[a].due
  }

  lemma {:induction false} Wait(c: Config, s: State, k: nat)
    requires CanReach(c, s) && MayWaitFor(s, k)
    ensures CanReach(c, s.(now := s.now + k))
  {
    if k == 0 {
      assert s.(now := s.now) == s;
    } else {
      Wait(c, s, k - 1);
      var t := s.(now := s.now + (k - 1));
      forall a | a in t.jobs
        ensures MayWait(t, t.jobs[a])
      {
      }
      t := Do(c, t, Tick);
    }
  }

  lemma FireIn(c: Config, s: State, a: nat, minute: nat) returns (t: State)
    requires CanReach(c, s) && a !in s.jobs && 60 * minute <= s.now < 60 * minute + 60
    ensures CanReach(c, t) && t == s.(jobs := s.jobs[a := Fired(minute, s.now + c.delay)])
  {
    t := FireNow(c, s, a);
  }

  // From the fire to the overlap lock, when nothing is in the way.
  lemma Enter(c: Config, s: State, a: nat) returns (t: State)
    requires CanReach(c, s) && a in s.jobs && s.jobs[a].Fired? && s.overlap == None
    requires s.jobs[a].minute in s.fire ==> !Live(s, s.fire[s.jobs[a].minute])
    ensures CanReach(c, t)
    ensures t == s.(jobs := s.jobs[a := Guarded(s.jobs[a].minute, true, s.now + c.hold)],
                    fire := s.fire[s.jobs[a].minute := Lock(a, s.now + c.fireTtl)],
                    overlap := Some(Lock(a, s.now + c.overlapTtl)))
  {
    var claimed := ClaimFresh(c, s, a);
    t := GuardFresh(c, claimed, a);
    assert s.jobs[a := Claimed(s.jobs[a].minute)][a := Guarded(s.jobs[a].minute, true, s.now + c.hold)] ==
           s.jobs[a := Guarded(s.jobs[a].minute, true, s.now + c.hold)];
  }

  // From the overlap lock to the insert and out again, when nothing is in flight.
  lemma InsertAndLeave(c: Config, s: State, a: nat) returns (t: State)
    requires CanReach(c, s) && a in s.jobs && s.jobs[a].Guarded? && s.jobs[a].locked && s.inFlight == {}
    requires s.overlap.Some? && s.overlap.value.owner == a
    ensures CanReach(c, t)
    ensures t == s.(jobs := s.jobs[a := Ended], inserted := s.inserted + [s.jobs[a].minute],
                    inFlight := {|s.inserted|}, overlap := None)
  {
    t := Do(c, s, Check(a));
    t := Do(c, t, Insert(a));
    t := Do(c, t, Leave(a));
    assert t.jobs == s.jobs[a := Ended];
    assert t.inFlight == {|s.inserted|};
  }

  lemma FireNow(c: Config, s: State, a: nat) returns (t: State)
    requires CanReach(c, s) && a !in s.jobs
    ensures CanReach(c, t) && t == s.(jobs := s.jobs[a := Fired(s.now / 60, s.now + c.delay)])
  {
    t := Do(c, s, Fire(a));
  }

  lemma ClaimFresh(c: Config, s: State, a: nat) returns (t: State)
    requires CanReach(c, s) && a in s.jobs && s.jobs[a].Fired?
    requires s.jobs[a].minute in s.fire ==> !Live(s, s.fire[s.jobs[a].minute])
    ensures CanReach(c, t)
    ensures t == s.(jobs := s.jobs[a := Claimed(s.jobs[a].minute)], fire := s.fire[s.jobs[a].minute := Lock(a, s.now + c.fireTtl)])
  {
    t := Do(c, s, Claim(a));
  }

  lemma GuardFresh(c: Config, s: State, a: nat) returns (t: State)
    requires CanReach(c, s) && a in s.jobs && s.jobs[a].Claimed? && s.overlap == None
    ensures CanReach(c, t)
    ensures t == s.(jobs := s.jobs[a := Guarded(s.jobs[a].minute, true, s.now + c.hold)], overlap := Some(Lock(a, s.now + c.overlapTtl)))
  {
    t := Do(c, s, Guard(a));
  }

  // The fire of minute 0 is served and over; its lock still stands.
  lemma FirstServed(c: Config) returns (s: State)
    ensures CanReach(c, s)
    ensures s == State(0, map[0 := Lock(0, c.fireTtl)], None, map[0 := Ended], [0], {}, false)
  {
    StartReached(c);
    s := Do(c, INIT, Fire(0));
    s := Enter(c, s, 0);
    s := InsertAndLeave(c, s, 0);
    s := Do(c, s, Finish(0));
    assert s.fire == map[0 := Lock(0, c.fireTtl)] && s.jobs == map[0 := Ended] && s.inserted == [0];
  }

  // A second job of minute 0.
  lemma SecondFired(c: Config, early: nat) returns (s: State)
    requires early <= 59
    ensures CanReach(c, s)
    ensures s == State(early, map[0 := Lock(0, c.fireTtl)], None, map[0 := Ended, 1 := Fired(0, early + c.delay)], [0], {}, false)
  {
    var served := FirstServed(c);
    Wait(c, served, early);
    s := FireIn(c, served.(now := early), 1, 0);
    assert served.jobs[1 := Fired(0, early + c.delay)] == map[0 := Ended, 1 := Fired(0, early + c.delay)];
  }

  // It gets to claim when the lock has just run out.
  lemma SecondFiredInTime(c: Config) returns (s: State)
    requires c.fireTtl < 60 + c.delay
    ensures CanReach(c, s) && s.now == c.fireTtl && s.fire == map[0 := Lock(0, c.fireTtl)]
    ensures s.overlap == None && s.inFlight == {} && s.inserted == [0]
    ensures 1 in s.jobs && s.jobs[1].Fired? && s.jobs[1].minute == 0
  {
    var early := if c.fireTtl <= 59 then c.fireTtl else 59;
    s := SecondFired(c, early);
    Wait(c, s, c.fireTtl - early);
    s := s.(now := c.fireTtl);
  }

  // The minute's lock is gone while a job of that minute has yet to claim it.
  lemma MinuteServedTwice(c: Config)
    requires c.fireTtl < 60 + c.delay
    ensures !OncePerMinute(c)
  {
    var s := SecondFiredInTime(c);
    s := Enter(c, s, 1);
    s := InsertAndLeave(c, s, 1);
    assert s.inserted == [0, 0] && s.inserted[0] == s.inserted[1];
  }

  // At most one execution per minute over all runs, exactly if the fire lock outlives the minute and the delay.
  lemma OncePerMinuteIff(c: Config)
    ensures OncePerMinute(c) <==> c.fireTtl >= 60 + c.delay
  {
    if c.fireTtl >= 60 + c.delay {
      forall s | CanReach(c, s)
        ensures MinutesDistinct(s)
      {
        var steps :| Reachable(c, s, steps);
        MinuteInvAlways(c, s, steps);
      }
    } else {
      MinuteServedTwice(c);
    }
  }

  /* ----- No execution beside one in flight ----- */

  ghost predicate NeverOverlaps(c: Config) {
    forall s :: CanReach(c, s) ==> !s.overlapped
  }

  // A job between the overlap lock and its insert owns the lock until after its deadline.
  predicate JobExcludes(c: Config, s: State, a: nat, j: Job) {
    (j.Guarded? || j.Checked?) ==>
      j.locked && s.overlap.Some? && s.overlap.value.owner == a &&
      s.now <= j.due < s.overlap.value.expiry && j.due <= s.now + c.hold && (j.Checked? ==> s.inFlight == {})
  }

  ghost predicate OverlapInv(c: Config, s: State) {
    !s.overlapped && forall a :: a in s.jobs ==> JobExcludes(c, s, a, s.jobs[a])
  }

  lemma OverlapInvStep(c: Config, s: State, step: Step)
    requires !c.lockErrors && c.hold < c.overlapTtl && c.hold < c.fireTtl
    requires OverlapInv(c, s) && Enabled(c, s, step)
    ensures OverlapInv(c, Apply(c, s, step))
  {
    var t := Apply(c, s, step);
    if step.Insert? {
      assert JobExcludes(c, s, step.a, s.jobs[step.a]);
    }
    forall a | a in t.jobs
      ensures JobExcludes(c, t, a, t.jobs[a])
    {
      if a in s.jobs {
        assert JobExcludes(c, s, a, s.jobs[a]);
        if step.Tick? {
          assert MayWait(s, s.jobs[a]);
        }
      }
    }
  }

  lemma {:induction false} OverlapInvAlways(c: Config, s: State, steps: seq<Step>)
    requires !c.lockErrors && c.hold < c.overlapTtl && c.hold < c.fireTtl
    requires Reachable(c, s, steps)
    ensures OverlapInv(c, s)
    decreases |steps|
  {
    if steps != [] {
      var last := |steps| - 1;
      var before :| Reachable(c, before, steps[..last]) && Enabled(c, before, steps[last]) && s == Apply(c, before, steps[last]);
      OverlapInvAlways(c, before, steps[..last]);
      OverlapInvStep(c, before, steps[last]);
    }
  }

  // Two jobs, of minutes 0 and 1, that hold their fire locks and are about to take the overlap lock.
  lemma TwoClaimed(c: Config) returns (s: State)
    ensures CanReach(c, s)
    ensures s.jobs == map[0 := Claimed(0), 1 := Claimed(1)] && s.overlap == None && s.inFlight == {} && s.inserted == []
  {
    StartReached(c);
    s := Do(c, INIT, Fire(0));
    s := Do(c, s, Claim(0));
    Wait(c, s, 60);
    s := s.(now := 60);
    s := Do(c, s, Fire(1));
    s := Do(c, s, Claim(1));
  }

  // Both have seen nothing in flight; both insert.
  lemma BothInsert(c: Config, s: State)
    requires CanReach(c, s) && s.jobs.Keys == {0, 1} && s.jobs[0].Checked? && s.jobs[1].Guarded?
    requires s.inFlight == {}
    ensures !NeverOverlaps(c)
  {
    var t := Do(c, s, Check(1));
    t := Do(c, t, Insert(1));
    assert |s.inserted| in t.inFlight;
    t := Do(c, t, Insert(0));
    assert t.overlapped;
  }

  // Without the lock both get past the check.
  lemma OverlapAfterErrors(c: Config)
    requires c.lockErrors
    ensures !NeverOverlaps(c)
  {
    var s := TwoClaimed(c);
    s := Do(c, s, GuardError(0));
    s := Do(c, s, Check(0));
    s := Do(c, s, GuardError(1));
    BothInsert(c, s);
  }

  // Job 0 has passed the check, and its lock runs out before it inserts.
  lemma OverlapAfterExpiry(c: Config, s: State, life: nat)
    requires CanReach(c, s) && life <= c.hold
    requires s.jobs == map[0 := Checked(0, true, s.now + c.hold), 1 := Claimed(1)]
    requires s.overlap == Some(Lock(0, s.now + life)) && s.inFlight == {}
    ensures !NeverOverlaps(c)
  {
    Wait(c, s, life);
    var t := s.(now := s.now + life);
    t := Do(c, t, Guard(1));
    BothInsert(c, t);
  }

  lemma OverlapAfterSlowJob(c: Config)
    requires c.hold >= c.overlapTtl || c.hold >= c.fireTtl
    ensures !NeverOverlaps(c)
  {
    var s := OneChecked(c);
    if c.hold >= c.overlapTtl {
      OverlapAfterExpiry(c, s, c.overlapTtl);
    } else {
      s := Do(c, s, Renew(0));
      OverlapAfterExpiry(c, s, c.fireTtl);
    }
  }

  lemma OneGuarded(c: Config) returns (s: State)
    ensures CanReach(c, s) && s.inFlight == {}
    ensures s.jobs == map[0 := Guarded(0, true, s.now + c.hold), 1 := Claimed(1)]
    ensures s.overlap == Some(Lock(0, s.now + c.overlapTtl))
  {
    var two := TwoClaimed(c);
    s := GuardFresh(c, two, 0);
    FirstOfTwo(Claimed(0), Claimed(1), Guarded(0, true, two.now + c.hold));
  }

  lemma FirstOfTwo(j: Job, k: Job, next: Job)
    ensures map[0 := j, 1 := k][0 := next] == map[0 := next, 1 := k]
  {
  }

  lemma OneChecked(c: Config) returns (s: State)
    ensures CanReach(c, s) && s.inFlight == {}
    ensures s.jobs == map[0 := Checked(0, true, s.now + c.hold), 1 := Claimed(1)]
    ensures s.overlap == Some(Lock(0, s.now + c.overlapTtl))
  {
    s := OneGuarded(c);
    s := Do(c, s, Check(0));
  }

  // Never an execution beside one in flight, exactly if the overlap lock cannot be lost before the insert:
  // its SET NX does not raise, and both its own lifetime and the one a renewal gives it are long enough.
  lemma NeverOverlapsIff(c: Config)
    ensures NeverOverlaps(c) <==> !c.lockErrors && c.hold < c.overlapTtl && c.hold < c.fireTtl
  {
    if !c.lockErrors && c.hold < c.overlapTtl && c.hold < c.fireTtl {
      forall s | CanReach(c, s)
        ensures !s.overlapped
      {
        var steps :| Reachable(c, s, steps);
        OverlapInvAlways(c, s, steps);
      }
    } else if c.lockErrors {
      OverlapAfterErrors(c);
    } else {
      OverlapAfterSlowJob(c);
    }
  }

  /* ----- Whose locks they are ----- */

  // A lock that is live is moved by its owner only: the fire lock by a renewal, the overlap lock by a renewal or
  // by a job that is through with it.
  lemma LiveLocksAreTheOwners(c: Config, s: State, step: Step)
    requires Enabled(c, s, step)
    ensures forall m :: m in s.fire && Live(s, s.fire[m]) ==>
              var t := Apply(c, s, step);
              m in t.fire && (t.fire[m] == s.fire[m] || (step == Renew(s.fire[m].owner) && t.fire[m] == Lock(step.a, s.now + c.fireTtl)))
    ensures s.overlap.Some? && Live(s, s.overlap.value) ==>
              var t, a := Apply(c, s, step), s.overlap.value.owner;
              t.overlap == s.overlap || (step == Renew(a) && t.overlap == Some(Lock(a, s.now + c.fireTtl))) ||
              ((step == Leave(a) || step == Check(a)) && t.overlap == None && t.jobs[a] == Ended)
  {
  }

  // A renewal gives every live lock of the job another lifetime, and changes nothing else.
  lemma RenewalExtends(c: Config, s: State, a: nat)
    requires Enabled(c, s, Renew(a))
    ensures var t, minute := Apply(c, s, Renew(a)), s.jobs[a].minute;
            (minute in s.fire && Owns(s, Some(s.fire[minute]), a) ==> t.fire[minute].expiry == s.now + c.fireTtl) &&
            (s.jobs[a].locked && Owns(s, s.overlap, a) ==> t.overlap == Some(Lock(a, s.now + c.fireTtl))) &&
            t == s.(fire := t.fire, overlap := t.overlap)
  {
  }

  // An execution is in flight from its insert to its own finish.
  lemma InFlightUntilFinished(c: Config, s: State, step: Step, run: nat)
    requires Enabled(c, s, step)
    ensures run in Apply(c, s, step).inFlight <==> (run in s.inFlight && step != Finish(run)) || (step.Insert? && run == |s.inserted|)
    ensures Apply(c, s, step).inserted == s.inserted + if step.Insert? then [s.jobs[step.a].minute] else []
  {
  }

  // When the overlap lock raises, the job goes on as if it had it, but holds nothing.
  lemma ErrorGoesOnUnlocked(c: Config, s: State, a: nat)
    requires Enabled(c, s, GuardError(a)) && s.inFlight == {}
    ensures var t := Apply(c, s, GuardError(a));
            t.jobs[a].Guarded? && !t.jobs[a].locked && t == s.(jobs := t.jobs) &&
            Enabled(c, t, Check(a)) && var u := Apply(c, t, Check(a)); u.jobs[a].Checked? && u.overlap == s.overlap
  {
  }

  // A job that crashes leaves its locks to expire; one that leaves takes its overlap lock with it.
  lemma CrashLeavesLocks(c: Config, s: State, a: nat)
    requires a in s.jobs
    ensures Apply(c, s, Crash(a)) == s.(jobs := s.jobs[a := Ended])
    ensures var t := Apply(c, s, Leave(a));
            t == s.(jobs := s.jobs[a := Ended], overlap := t.overlap) &&
            (Locked(s.jobs[a]) ==> !Owns(t, t.overlap, a)) && (!Owns(s, s.overlap, a) && s.overlap.Some? && Live(s, s.overlap.value) ==> t.overlap == s.overlap)
  {
  }

  // Whoever comes second stops there, and gives back the overlap lock it took: the minute is claimed, the
  // overlap lock is held, or an execution is in flight.
  lemma LatecomersStop(c: Config, s: State, a: nat, step: Step)
    requires a in s.jobs && Enabled(c, s, step)
    requires (step == Claim(a) && s.jobs[a].minute in s.fire && Live(s, s.fire[s.jobs[a].minute])) ||
             (step == Guard(a) && s.overlap.Some? && Live(s, s.overlap.value)) ||
             (step == Check(a) && s.inFlight != {})
    ensures var t := Apply(c, s, step);
            t == s.(jobs := s.jobs[a := Ended], overlap := t.overlap) &&
            (step != Check(a) ==> t.overlap == s.overlap) &&
            (step == Check(a) && s.jobs[a].locked && s.overlap.Some? && s.overlap.value.owner == a ==> t.overlap == None)
  {
  }

  // And nobody stops without need: a fire whose minute is free, with the overlap lock free and nothing in flight,
  // inserts one execution of its minute, and holds both locks over it.
  lemma FreeMinuteIsServed(c: Config, s: State, a: nat, minute: nat) returns (t: State)
    requires CanReach(c, s) && a !in s.jobs && s.overlap == None && s.inFlight == {}
    requires 60 * minute <= s.now < 60 * minute + 60 && (minute in s.fire ==> !Live(s, s.fire[minute]))
    ensures CanReach(c, t)
    ensures t == s.(jobs := s.jobs[a := Inserted(minute, true)], inserted := s.inserted + [minute], inFlight := {|s.inserted|},
                    overlap := Some(Lock(a, s.now + c.overlapTtl)), fire := s.fire[minute := Lock(a, s.now + c.fireTtl)])
  {
    t := FireAndEnter(c, s, a, minute);
    t := CheckAndInsert(c, t, a);
    assert t.jobs == s.jobs[a := Inserted(minute, true)];
  }

  lemma FireAndEnter(c: Config, s: State, a: nat, minute: nat) returns (t: State)
    requires CanReach(c, s) && a !in s.jobs && s.overlap == None && 60 * minute <= s.now < 60 * minute + 60
    requires minute in s.fire ==> !Live(s, s.fire[minute])
    ensures CanReach(c, t)
    ensures t == s.(jobs := s.jobs[a := Guarded(minute, true, s.now + c.hold)], fire := s.fire[minute := Lock(a, s.now + c.fireTtl)],
                    overlap := Some(Lock(a, s.now + c.overlapTtl)))
  {
    var fired := FireIn(c, s, a, minute);
    t := Enter(c, fired, a);
    assert t.jobs == s.jobs[a := Guarded(minute, true, s.now + c.hold)];
  }

  lemma CheckAndInsert(c: Config, s: State, a: nat) returns (t: State)
    requires CanReach(c, s) && a in s.jobs && s.jobs[a].Guarded? && s.inFlight == {}
    ensures CanReach(c, t)
    ensures t == s.(jobs := s.jobs[a := Inserted(s.jobs[a].minute, s.jobs[a].locked)],
                    inserted := s.inserted + [s.jobs[a].minute], inFlight := {|s.inserted|})
  {
    t := Do(c, s, Check(a));
    t := Do(c, t, Insert(a));
    assert t.jobs == s.jobs[a := Inserted(s.jobs[a].minute, s.jobs[a].locked)];
    assert t.inFlight == {|s.inserted|};
  }
}
