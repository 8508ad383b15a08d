/** The sweep over abandoned executions: bounded crash resumes, and cancellation that wins over them. */
module CrashResume {
  import opened Helpers

  datatype Status = Running | Paused | Resuming | Completed | Failed | Cancelled

  // `max` bounds the crash resumes of one execution; `sweepers` is how many sweeps may be under way at once
  // (the sweep lock is meant to make that 1).
  datatype Config = Config(max: nat, sweepers: nat)

  // One sweep's handling of the execution, from its read of the document on.
  datatype Sweep =
    | Read(status: Status, attempts: int, cancel: bool)
    | Claimed(was: Status)
    | RollingBack(was: Status)

  // For the record: `resumes` counts the resume jobs the sweeps have enqueued.
  datatype State = State(status: Status, count: int, cancelRequested: bool, assistantTest: bool,
                         sweeps: map<nat, Sweep>, resumes: nat)

  datatype Step =
    | SweepReads(k: nat)       // the stale document is found
    | SweepWrites(k: nat)      // compare-and-set on the status that was read
    | Enqueue(k: nat) | EnqueueFails(k: nat) | Rollback(k: nat)
    | SweepDies(k: nat)
    | RequestCancel
    | WorkerStarts | WorkerPauses | Decided | WorkerEnds(status: Status)

  predicate Terminal(status: Status) {
    status == Completed || status == Failed || status == Cancelled
  }

  ghost predicate Initial(s: State) {
    s.status == Running && s.count == 0 && s.sweeps == map[] && s.resumes == 0 && !s.cancelRequested
  }

  predicate Enabled(c: Config, s: State, step: Step) {
    match step
    case SweepReads(k) => k !in s.sweeps && |s.sweeps| < c.sweepers && (s.status == Running || s.status == Resuming)
    case SweepWrites(k) => k in s.sweeps && s.sweeps[k].Read?
    case Enqueue(k) => k in s.sweeps && s.sweeps[k].Claimed?
    case EnqueueFails(k) => k in s.sweeps && s.sweeps[k].Claimed?
    case Rollback(k) => k in s.sweeps && s.sweeps[k].RollingBack?
    case SweepDies(k) => k in s.sweeps
    case RequestCancel => !Terminal(s.status)
    case WorkerStarts => s.status == Resuming
    case WorkerPauses => s.status == Running
    case Decided => s.status == Paused
    case WorkerEnds(status) => s.status == Running && Terminal(status)
  }

  function Apply(c: Config, s: State, step: Step): State
    requires Enabled(c, s, step)
  {
    match step
    case SweepReads(k) => s.(sweeps := s.sweeps[k := Read(s.status, s.count, s.cancelRequested)])
    case SweepWrites(k) =>
      var r := s.sweeps[k];
      if s.status != r.status then s.(sweeps := s.sweeps - {k})
      else if r.cancel then s.(sweeps := s.sweeps - {k}, status := Cancelled)
      else if s.assistantTest then s.(sweeps := s.sweeps - {k}, status := Failed)
      else if r.attempts < c.max then s.(sweeps := s.sweeps[k := Claimed(r.status)], status := Resuming, count := s.count + 1)
      else s.(sweeps := s.sweeps - {k}, status := Failed)
    case Enqueue(k) => s.(sweeps := s.sweeps - {k}, resumes := s.resumes + 1)
    case EnqueueFails(k) => s.(sweeps := s.sweeps[k := RollingBack(s.sweeps[k].was)])
    case Rollback(k) => s.(sweeps := s.sweeps - {k}, status := s.sweeps[k].was, count := s.count - 1)
    case SweepDies(k) => s.(sweeps := s.sweeps - {k})
    case RequestCancel => s.(cancelRequested := true)
    case WorkerStarts => s.(status := Running)
    case WorkerPauses => s.(status := Paused)
    case Decided => s.(status := Resuming)
    case WorkerEnds(status) => s.(status := status)
  }

  ghost predicate Reachable(c: Config, s: State, steps: seq<Step>)
    decreases |steps|
  {
    if steps == [] then Initial(s)
    else
      var last := |steps| - 1;
      exists before :: Reachable(c, before, steps[..last]) && Enabled(c, before, steps[last]) &&
                       s == Apply(c, before, steps[last])
  }

  ghost predicate CanReach(c: Config, s: State) {
    exists steps :: Reachable(c, s, steps)
  }

  /* ----- Bounded resumes ----- */

  // At most one sweep is under way; one that read the document knows the count, and one that has taken an
  // attempt has not used it yet.
  ghost predicate BoundedInv(c: Config, s: State) {
    (forall j, k :: j in s.sweeps && k in s.sweeps ==> j == k) &&
    (forall k :: k in s.sweeps ==> if s.sweeps[k].Read? then s.sweeps[k].attempts == s.count else s.resumes < s.count) &&
    s.resumes <= s.count <= c.max
  }

  lemma BoundedInvStep(c: Config, s: State, step: Step)
    requires c.sweepers <= 1 && BoundedInv(c, s) && Enabled(c, s, step)
    ensures BoundedInv(c, Apply(c, s, step))
  {
    if step.SweepReads? {
      assert s.sweeps == map[];
    }
  }

  lemma {:induction false} BoundedInvAlways(c: Config, s: State, steps: seq<Step>)
    requires c.sweepers <= 1 && Reachable(c, s, steps)
    ensures BoundedInv(c, s)
    decreases |steps|
  {
    if steps != [] {
      var last := |steps| - 1;
      var before :| Reachable(c, before, steps[..last]) && Enabled(c, before, steps[last]) && s == Apply(c, before, steps[last]);
      BoundedInvAlways(c, before, steps[..last]);
      BoundedInvStep(c, before, steps[last]);
    }
  }

  ghost predicate ResumesBounded(c: Config) {
    forall s :: CanReach(c, s) ==> s.resumes <= c.max
  }

  lemma Do(c: Config, s: State, step: Step) returns (t: State)
    requires CanReach(c, s) && Enabled(c, s, step)
    ensures t == Apply(c, s, step) && CanReach(c, t)
  {
    t := Apply(c, s, step);
    var steps :| Reachable(c, s, steps);
    var run := steps + [step];
    assert run[..|run| - 1] == steps && run[|run| - 1] == step;
    assert Reachable(c, t, run);
  }

  function Resumed(status: Status, n: nat): State {
    State(status, n, false, false, map[], n)
  }

  // After any number of crash resumes up to the bound, one sweep at a time.
  lemma {:induction false} ResumeRepeatedly(c: Config, n: nat)
    requires n <= c.max && c.sweepers >= 1
    ensures CanReach(c, Resumed(if n == 0 then Running else Resuming, n))
  {
    if n == 0 {
      assert Reachable(c, Resumed(Running, 0), []);
    } else {
      ResumeRepeatedly(c, n - 1);
      ResumeOnce(c, if n == 1 then Running else Resuming, n - 1);
    }
  }

  lemma ResumeOnce(c: Config, status: Status, n: nat)
    requires n < c.max && c.sweepers >= 1 && (status == Running || status == Resuming)
    requires CanReach(c, Resumed(status, n))
    ensures CanReach(c, Resumed(Resuming, n + 1))
  {
    var from := Resumed(status, n);
    var read := Do(c, from, SweepReads(0));
    assert read == from.(sweeps := map[0 := Read(status, n, false)]);
    var claimed := Do(c, read, SweepWrites(0));
    assert claimed == State(Resuming, n + 1, false, false, map[0 := Claimed(status)], n);
    var done := Do(c, claimed, Enqueue(0));
    assert done == Resumed(Resuming, n + 1);
  }

  // Two sweeps that read the same resuming document both win: the compare-and-set looks at the status only.
  lemma TwoSweepsExceed(c: Config)
    requires c.sweepers >= 2 && c.max >= 1
    ensures !ResumesBounded(c)
  {
    var s: State;
    if c.max == 1 {
      ResumeRepeatedly(c, 0);
      s := Do(c, Resumed(Running, 0), WorkerPauses);
      s := Do(c, s, Decided);
    } else {
      ResumeRepeatedly(c, c.max - 1);
      s := Resumed(Resuming, c.max - 1);
    }
    s := Do(c, s, SweepReads(0));
    assert |s.sweeps| == 1;
    s := Do(c, s, SweepReads(1));
    s := BothResume(c, s);
    assert s.resumes == c.max + 1;
  }

  lemma BothResume(c: Config, s: State) returns (t: State)
    requires CanReach(c, s) && s.status == Resuming && !s.assistantTest && s.count < c.max
    requires s.sweeps == map[0 := Read(Resuming, s.count, false), 1 := Read(Resuming, s.count, false)]
    ensures CanReach(c, t) && t.resumes == s.resumes + 2
  {
    t := Do(c, s, SweepWrites(0));
    t := Do(c, t, SweepWrites(1));
    t := Do(c, t, Enqueue(0));
    t := Do(c, t, Enqueue(1));
  }

  // Over any run the sweeps enqueue at most `max` resumes, exactly if they never overlap (or the bound is 0).
  lemma ResumesBoundedIff(c: Config)
    ensures ResumesBounded(c) <==> c.sweepers <= 1 || c.max == 0
  {
    if c.sweepers <= 1 {
      forall s | CanReach(c, s)
        ensures s.resumes <= c.max
      {
        var steps :| Reachable(c, s, steps);
        BoundedInvAlways(c, s, steps);
      }
    } else if c.max == 0 {
      forall s | CanReach(c, s)
        ensures s.resumes <= c.max
      {
        var steps :| Reachable(c, s, steps);
        NeverWithoutAttempts(c, s, steps);
      }
    } else {
      TwoSweepsExceed(c);
    }
  }

  ghost predicate NothingUsed(s: State) {
    s.resumes == 0 && s.count == 0 && forall k :: k in s.sweeps ==> s.sweeps[k].Read? && s.sweeps[k].attempts == 0
  }

  lemma NothingUsedStep(c: Config, s: State, step: Step)
    requires c.max == 0 && NothingUsed(s) && Enabled(c, s, step)
    ensures NothingUsed(Apply(c, s, step))
  {
  }

  lemma {:induction false} NeverWithoutAttempts(c: Config, s: State, steps: seq<Step>)
    requires c.max == 0 && Reachable(c, s, steps)
    ensures NothingUsed(s)
    decreases |steps|
  {
    if steps != [] {
      var last := |steps| - 1;
      var before :| Reachable(c, before, steps[..last]) && Enabled(c, before, steps[last]) && s == Apply(c, before, steps[last]);
      NeverWithoutAttempts(c, before, steps[..last]);
      NothingUsedStep(c, before, steps[last]);
    }
  }

  /* ----- Cancel priority ----- */

  // The sweeps under way that have not seen a cancel request.
  function Unaware(s: State): set<nat> {
    set k | k in s.sweeps && !(s.sweeps[k].Read? && s.sweeps[k].cancel)
  }

  // After a cancel request, a resume that is enqueued uses up an unaware sweep, and no new one appears.
  lemma CancelledStep(c: Config, s: State, step: Step)
    requires Enabled(c, s, step) && s.cancelRequested
    ensures var t := Apply(c, s, step);
            t.cancelRequested && t.resumes + |Unaware(t)| <= s.resumes + |Unaware(s)|
  {
    var t := Apply(c, s, step);
    match step
    case SweepReads(k) => assert Unaware(t) == Unaware(s);
    case SweepWrites(k) => SweepMoves(s, t, k);
    case Enqueue(k) =>
      SweepMoves(s, t, k);
      assert Unaware(t) == Unaware(s) - {k};
    case EnqueueFails(k) => SweepMoves(s, t, k);
    case Rollback(k) => SweepMoves(s, t, k);
    case SweepDies(k) => SweepMoves(s, t, k);
    case _ => assert Unaware(t) == Unaware(s);
  }

  lemma SweepMoves(s: State, t: State, k: nat)
    requires k in s.sweeps && t.sweeps.Keys <= s.sweeps.Keys
    requires forall x :: x in t.sweeps && x != k ==> t.sweeps[x] == s.sweeps[x]
    requires k in t.sweeps ==> k in Unaware(s)
    ensures |t.sweeps.Keys| <= |s.sweeps.Keys| && Unaware(t) <= Unaware(s) && |Unaware(t)| <= |Unaware(s)|
  {
    SubsetCard(t.sweeps.Keys, s.sweeps.Keys);
    SubsetCard(Unaware(t), Unaware(s));
  }

  // The run goes on from s by these steps and arrives at t.
  ghost predicate Continues(c: Config, s: State, steps: seq<Step>, t: State)
    decreases |steps|
  {
    if steps == [] then t == s
    else Enabled(c, s, steps[0]) && Continues(c, Apply(c, s, steps[0]), steps[1..], t)
  }

  // Cancel beats resume, however many sweeps overlap: from the request on, the sweeps that were then under
  // way without having seen it can resume once each, and no later sweep ever does.
  lemma {:induction false} CancelWins(c: Config, s: State, steps: seq<Step>, t: State)
    requires s.cancelRequested && Continues(c, s, steps, t)
    ensures t.resumes <= s.resumes + |Unaware(s)|
    ensures Unaware(s) == {} ==> t.resumes <= s.resumes
    decreases |steps|
  {
    if steps != [] {
      CancelledStep(c, s, steps[0]);
      CancelWins(c, Apply(c, s, steps[0]), steps[1..], t);
    }
  }

  /* ----- One undisturbed sweep ----- */

  function Attempts(c: Config, s: State): int {
    c.max - s.count
  }

  // A sweep of a stale run that nothing interrupts ends the run or uses up one attempt; when the enqueue
  // fails it leaves the document's status and count as they were.
  lemma SweepProgress(c: Config, s: State, k: nat, enqueueWorks: bool) returns (t: State)
    requires c.sweepers >= 1 && s.sweeps == map[] && (s.status == Running || s.status == Resuming) && 0 <= s.count
    ensures var t1 := Apply(c, Apply(c, s, SweepReads(k)), SweepWrites(k));
            if k !in t1.sweeps then t == t1 && Terminal(t.status) && (s.cancelRequested ==> t.status == Cancelled)
            else if enqueueWorks then
              t == Apply(c, t1, Enqueue(k)) && !s.cancelRequested && 0 <= Attempts(c, t) < Attempts(c, s) && t.resumes == s.resumes + 1
            else
              t == Apply(c, Apply(c, t1, EnqueueFails(k)), Rollback(k)) &&
              t.status == s.status && t.count == s.count && t.resumes == s.resumes && t.sweeps == map[]
  {
    var t0 := Apply(c, s, SweepReads(k));
    var t1 := Apply(c, t0, SweepWrites(k));
    if k !in t1.sweeps {
      t := t1;
    } else if enqueueWorks {
      t := Apply(c, t1, Enqueue(k));
    } else {
      t := Apply(c, Apply(c, t1, EnqueueFails(k)), Rollback(k));
    }
  }

  // What an undisturbed sweep makes of a stale run: cancelled exactly if that was asked for; failed if it was a
  // test of the assistant's or has no attempt left; resumed otherwise, with one attempt used.
  lemma SweepDecides(c: Config, s: State, k: nat)
    requires c.sweepers >= 1 && s.sweeps == map[] && (s.status == Running || s.status == Resuming)
    ensures Enabled(c, s, SweepReads(k)) && Enabled(c, Apply(c, s, SweepReads(k)), SweepWrites(k))
    ensures var t := Apply(c, Apply(c, s, SweepReads(k)), SweepWrites(k));
            (t.status == Cancelled <==> s.cancelRequested) &&
            (t.status == Failed <==> !s.cancelRequested && (s.assistantTest || s.count >= c.max)) &&
            (t.status == Resuming <==> !s.cancelRequested && !s.assistantTest && s.count < c.max) &&
            (k in t.sweeps <==> t.status == Resuming) && t.resumes == s.resumes &&
            t.count == if t.status == Resuming then s.count + 1 else s.count
  {
  }

  // A run that is asked to stop is cancelled by the next undisturbed sweep, and is not resumed.
  lemma CancelThenSweep(c: Config, s: State, k: nat)
    requires c.sweepers >= 1 && s.sweeps == map[] && (s.status == Running || s.status == Resuming)
    ensures Enabled(c, s, RequestCancel)
    ensures var asked := Apply(c, s, RequestCancel);
            Continues(c, asked, [SweepReads(k), SweepWrites(k)], asked.(status := Cancelled)) && asked.cancelRequested
  {
    var asked := Apply(c, s, RequestCancel);
    SweepDecides(c, asked, k);
    var read := Apply(c, asked, SweepReads(k));
    var t := Apply(c, read, SweepWrites(k));
    assert t == asked.(status := Cancelled);
    var steps := [SweepReads(k), SweepWrites(k)];
    assert steps[1..][0] == SweepWrites(k) && steps[1..][1..] == [];
    assert Continues(c, t, [], t);
  }

  // The others move the status and nothing else: a worker starts a resuming run, pauses it or ends it with its
  // verdict, and a decision lets a paused run resume.
  lemma OthersMoveStatus(c: Config, s: State, step: Step)
    requires Enabled(c, s, step) && (step.WorkerStarts? || step.WorkerPauses? || step.Decided? || step.WorkerEnds?)
    ensures var t := Apply(c, s, step);
            t == s.(status := t.status) && t.status != s.status &&
            (s.status == Resuming ==> t.status == Running) && (s.status == Paused ==> t.status == Resuming) &&
            (s.status == Running ==> t.status == if step.WorkerEnds? then step.status else Paused)
  {
  }

  // A sweep that finds the status changed, or dies, leaves the document to the others.
  lemma LosersLeaveNoTrace(c: Config, s: State, step: Step)
    requires Enabled(c, s, step)
    requires step.SweepDies? || step.SweepReads? || (step.SweepWrites? && s.status != s.sweeps[step.k].status)
    ensures var t := Apply(c, s, step); t == s.(sweeps := t.sweeps)
    ensures !step.SweepReads? ==> step.k !in Apply(c, s, step).sweeps
  {
  }
}
