/** One execution waiting for approvals: deciders, cancellers, the timeout sweep, the crash sweep and the
    workers race over its stored status. */
module ApprovalRace {

  datatype Status = Running | Paused | Resuming | Completed | Failed | Cancelled

  // `window` bounds the time from a decider's compare-and-set to its enqueue or rollback, `work` the time
  // from the enqueue of a job to the next status its worker stores; `cutoff` is the age at which the crash
  // sweep takes a running or resuming execution for abandoned.  With `lossy` a worker may die between
  // taking a job and writing anything.
  datatype Config = Config(window: nat, work: nat, cutoff: nat, lossy: bool)

  // An approve or reject request, from its fast-path read on; `pause` is the pause it won.
  datatype Decider =
    | Asked(approve: bool)
    | Won(approve: bool, pause: nat, due: nat)
    | RollingBack(pause: nat, due: nat)

  datatype Job = Job(approve: bool, due: nat)

  // `pause` numbers the pauses of the run, `startedAt` is 0.  A worker is known by the time by which it
  // stores a status.  For the record: `jobs` counts the decided jobs per pause, `rejected` the pauses with
  // a rejecting job, `passed` the pauses beyond which the run was taken.
  datatype State = State(now: nat, status: Status, pause: nat, resumedAt: nat, cancelRequested: bool,
                         queue: seq<Job>, workers: map<nat, nat>, deciders: map<nat, Decider>, cancellers: set<nat>,
                         jobs: map<nat, nat>, rejected: set<nat>, passed: set<nat>)

  datatype Step =
    | Ask(a: nat, approve: bool)  // read the document, go on only if it is paused
    | Cas(a: nat)                 // PAUSED -> RESUMING, or 409
    | Enqueue(a: nat) | EnqueueFails(a: nat) | Rollback(a: nat)
    | AskCancel(a: nat)           // read the document; mark it when it is not terminal
    | CancelCas(a: nat)           // PAUSED -> CANCELLED, or leave it to the flag
    | Expire                      // the approval timeout: PAUSED -> FAILED, or nothing
    | SweepResume | SweepGiveUp   // the crash sweep on an overdue run
    | Start(w: nat) | Lose        // a worker takes the oldest job, or dies with it
    | WorkerPauses(w: nat) | WorkerEnds(w: nat, status: Status) | WorkerDies(w: nat)
    | Tick

  function Init(c: Config): State {
    State(0, Running, 0, 0, false, [], map[0 := c.work], map[], {}, map[], {}, {})
  }

  predicate Terminal(status: Status) {
    status == Completed || status == Failed || status == Cancelled
  }

  function JobsOf(s: State, pause: nat): nat {
    if pause in s.jobs then s.jobs[pause] else 0
  }

  // All the crash sweep looks at: the stored status, and when the run was started or resumed.
  predicate Overdue(c: Config, s: State) {
    (s.status == Running && s.now > c.cutoff) || (s.status == Resuming && s.now > s.resumedAt + c.cutoff)
  }

  predicate Holding(d: Decider) {
    !d.Asked?
  }

  // Whoever has to act first acts before time goes on.
  predicate MayTick(s: State) {
    (forall a :: a in s.deciders && Holding(s.deciders[a]) ==> s.now < s.deciders[a].due) &&
    (forall j :: j in s.queue ==> s.now < j.due) &&
    (forall w :: w in s.workers ==> s.now < s.workers[w])
  }

  predicate Enabled(c: Config, s: State, step: Step) {
    match step
    case Ask(a, _) => a !in s.deciders && s.status == Paused
    case Cas(a) => a in s.deciders && s.deciders[a].Asked?
    case Enqueue(a) => a in s.deciders && s.deciders[a].Won?
    case EnqueueFails(a) => a in s.deciders && s.deciders[a].Won?
    case Rollback(a) => a in s.deciders && s.deciders[a].RollingBack?
    case AskCancel(a) => a !in s.cancellers && !Terminal(s.status)
    case CancelCas(a) => a in s.cancellers
    case Expire => true
    case SweepResume => Overdue(c, s) && !s.cancelRequested
    case SweepGiveUp => Overdue(c, s)
    case Start(w) => s.queue != [] && w !in s.workers
    case Lose => s.queue != [] && c.lossy
    case WorkerPauses(w) => w in s.workers
    case WorkerEnds(w, status) => w in s.workers && Terminal(status)
    case WorkerDies(w) => w in s.workers
    case Tick => MayTick(s)
  }

  // A worker stores its status unconditionally, and only when it is done: a resumed run stays RESUMING.
  function Apply(c: Config, s: State, step: Step): State
    requires Enabled(c, s, step)
  {
    match step
    case Ask(a, approve) => s.(deciders := s.deciders[a := Asked(approve)])
    case Cas(a) =>
      if s.status != Paused then s.(deciders := s.deciders - {a})
      else s.(status := Resuming, resumedAt := s.now,
              deciders := s.deciders[a := Won(s.deciders[a].approve, s.pause, s.now + c.window)])
    case Enqueue(a) =>
      var d := s.deciders[a];
      s.(deciders := s.deciders - {a}, queue := s.queue + [Job(d.approve, s.now + c.work)],
         jobs := s.jobs[d.pause := JobsOf(s, d.pause) + 1],
         rejected := if d.approve then s.rejected else s.rejected + {d.pause})
    case EnqueueFails(a) => s.(deciders := s.deciders[a := RollingBack(s.deciders[a].pause, s.deciders[a].due)])
    case Rollback(a) => s.(deciders := s.deciders - {a}, status := Paused)
    case AskCancel(a) =>
      s.(cancelRequested := true, cancellers := if s.status == Paused then s.cancellers + {a} else s.cancellers)
    case CancelCas(a) =>
      s.(cancellers := s.cancellers - {a}, status := if s.status == Paused then Cancelled else s.status)
    case Expire => s.(status := if s.status == Paused then Failed else s.status)
    case SweepResume => s.(status := Resuming, resumedAt := s.now, queue := s.queue + [Job(true, s.now + c.work)])
    case SweepGiveUp => s.(status := if s.cancelRequested then Cancelled else Failed)
    case Start(w) =>
      if s.status != Paused && s.status != Resuming then s.(queue := s.queue[1..])
      else if s.queue[0].approve
      then s.(queue := s.queue[1..], workers := s.workers[w := s.queue[0].due], passed := s.passed + {s.pause})
      else s.(queue := s.queue[1..], status := Failed)
    case Lose => s.(queue := s.queue[1..])
    case WorkerPauses(w) => s.(status := Paused, pause := s.pause + 1, workers := s.workers - {w})
    case WorkerEnds(w, status) => s.(status := status, workers := s.workers - {w})
    case WorkerDies(w) => s.(workers := s.workers - {w})
    case Tick => s.(now := s.now + 1)
  }

  ghost predicate Reachable(c: Config, s: State, steps: seq<Step>)
    decreases |steps|
  {
    if steps == [] then s == Init(c)
    else
      var last := |steps| - 1;
      exists before :: Reachable(c, before, steps[..last]) && Enabled(c, before, steps[last]) &&
                       s == Apply(c, before, steps[last])
  }

  ghost predicate CanReach(c: Config, s: State) {
    exists steps :: Reachable(c, s, steps)
  }

  /* ----- The invariant while nobody outlasts the sweep ----- */

  // Deciders and workers together are done before the run is overdue.
  predicate Quick(c: Config) {
    c.window + c.work <= c.cutoff
  }

  // The current pause has no job yet and has not been passed.
  predicate Undecided(s: State) {
    JobsOf(s, s.pause) == 0 && s.pause !in s.rejected && s.pause !in s.passed
  }

  // A decider that won has the run to itself: nobody else moves the status until it is done.
  predicate HoldsRun(c: Config, s: State, d: Decider) {
    Holding(d) ==>
      s.status == Resuming && s.queue == [] && s.workers == map[] && d.pause == s.pause && Undecided(s) &&
      s.now <= d.due == s.resumedAt + c.window
  }

  ghost predicate OneHolder(c: Config, s: State) {
    (forall a :: a in s.deciders ==> HoldsRun(c, s, s.deciders[a])) &&
    (forall a, b :: a in s.deciders && b in s.deciders && Holding(s.deciders[a]) && Holding(s.deciders[b]) ==> a == b)
  }

  // A job has the run to itself, too.
  predicate OneJob(c: Config, s: State) {
    s.queue != [] ==>
      |s.queue| == 1 && s.workers == map[] && s.status == Resuming &&
      s.now <= s.queue[0].due <= s.resumedAt + c.window + c.work
  }

  // And so does a worker.
  ghost predicate OneWorker(c: Config, s: State) {
    (forall w, v :: w in s.workers && v in s.workers ==> w == v) &&
    (forall w :: w in s.workers ==>
       s.now <= s.workers[w] &&
       ((s.status == Running && s.workers[w] <= c.work) ||
        (s.status == Resuming && s.workers[w] <= s.resumedAt + c.window + c.work)))
  }

  // While the run is paused, nothing is under way and nothing decided.
  predicate PausedIsOpen(s: State) {
    s.status == Paused ==> s.queue == [] && s.workers == map[] && Undecided(s)
  }

  // The resume jobs that decisions have put on the queue, per pause.
  ghost predicate AtMostOneJob(s: State) {
    forall p: nat :: JobsOf(s, p) <= 1
  }

  ghost predicate History(s: State) {
    AtMostOneJob(s) &&
    (forall p: nat :: JobsOf(s, p) > 0 || p in s.rejected || p in s.passed ==> p <= s.pause) &&
    (forall p :: p in s.rejected ==> JobsOf(s, p) == 1)
  }

  ghost predicate Inv(c: Config, s: State) {
    OneHolder(c, s) && OneJob(c, s) && OneWorker(c, s) && PausedIsOpen(s) && History(s)
  }

  // An overdue run is nobody's.
  lemma OverdueIsAbandoned(c: Config, s: State)
    requires Quick(c) && Inv(c, s) && Overdue(c, s)
    ensures s.queue == [] && s.workers == map[] && forall a :: a in s.deciders ==> !Holding(s.deciders[a])
  {
    forall a | a in s.deciders
      ensures !Holding(s.deciders[a])
    {
      assert HoldsRun(c, s, s.deciders[a]);
    }
    assert forall w :: w !in s.workers;
  }

  // A decider that is to act still has the run to itself.
  lemma HolderHasRun(c: Config, s: State, a: nat)
    requires Inv(c, s) && a in s.deciders
    ensures HoldsRun(c, s, s.deciders[a])
    ensures Holding(s.deciders[a]) ==> forall b :: b in s.deciders && b != a ==> !Holding(s.deciders[b])
  {
  }

  // The crash sweep finds nobody at work, and a decider that acts finds no other.
  lemma ActsAlone(c: Config, s: State, step: Step)
    requires Quick(c) && Inv(c, s) && Enabled(c, s, step)
    ensures step.SweepResume? || step.SweepGiveUp? ==>
              s.queue == [] && s.workers == map[] && forall a :: a in s.deciders ==> !Holding(s.deciders[a])
    ensures step.Enqueue? || step.Rollback? ==>
              HoldsRun(c, s, s.deciders[step.a]) && forall b :: b in s.deciders && b != step.a ==> !Holding(s.deciders[b])
  {
    if step.SweepResume? || step.SweepGiveUp? {
      OverdueIsAbandoned(c, s);
    } else if step.Enqueue? || step.Rollback? {
      HolderHasRun(c, s, step.a);
    }
  }

  lemma OneHolderStep(c: Config, s: State, step: Step)
    requires Quick(c) && Inv(c, s) && Enabled(c, s, step)
    ensures OneHolder(c, Apply(c, s, step))
  {
    ActsAlone(c, s, step);
    var t := Apply(c, s, step);
    forall a | a in t.deciders
      ensures HoldsRun(c, t, t.deciders[a])
    {
      assert a in s.deciders ==> HoldsRun(c, s, s.deciders[a]);
    }
  }

  lemma OneJobStep(c: Config, s: State, step: Step)
    requires Quick(c) && Inv(c, s) && Enabled(c, s, step)
    ensures OneJob(c, Apply(c, s, step))
  {
    ActsAlone(c, s, step);
  }

  lemma OneWorkerStep(c: Config, s: State, step: Step)
    requires Quick(c) && Inv(c, s) && Enabled(c, s, step)
    ensures OneWorker(c, Apply(c, s, step))
  {
    ActsAlone(c, s, step);
  }

  lemma PausedIsOpenStep(c: Config, s: State, step: Step)
    requires Quick(c) && Inv(c, s) && Enabled(c, s, step)
    ensures PausedIsOpen(Apply(c, s, step))
  {
    ActsAlone(c, s, step);
    if step.WorkerPauses? {
      assert JobsOf(s, s.pause + 1) == 0;
    }
  }

  lemma HistoryStep(c: Config, s: State, step: Step)
    requires Quick(c) && Inv(c, s) && Enabled(c, s, step)
    ensures History(Apply(c, s, step))
  {
    ActsAlone(c, s, step);
    var t := Apply(c, s, step);
    if step.Enqueue? {
      assert forall p: nat :: JobsOf(t, p) == if p == s.pause then 1 else JobsOf(s, p);
    } else {
      assert forall p: nat :: JobsOf(t, p) == JobsOf(s, p);
    }
  }

  lemma {:induction false} InvAlways(c: Config, s: State, steps: seq<Step>)
    requires Quick(c) && Reachable(c, s, steps)
    ensures Inv(c, s)
    decreases |steps|
  {
    if steps != [] {
      var last := |steps| - 1;
      var before :| Reachable(c, before, steps[..last]) && Enabled(c, before, steps[last]) && s == Apply(c, before, steps[last]);
      InvAlways(c, before, steps[..last]);
      OneHolderStep(c, before, steps[last]);
      OneJobStep(c, before, steps[last]);
      OneWorkerStep(c, before, steps[last]);
      PausedIsOpenStep(c, before, steps[last]);
      HistoryStep(c, before, steps[last]);
    }
  }

  /* ----- Runs, step by step ----- */

  lemma Do(c: Config, s: State, step: Step) returns (t: State)
    requires CanReach(c, s) && Enabled(c, s, step)
    ensures t == Apply(c, s, step) && CanReach(c, t)
  {
    t := Apply(c, s, step);
    var steps :| Reachable(c, s, steps);
    var run := steps + [step];
    assert run[..|run| - 1] == steps && run[|run| - 1] == step;
    assert Reachable(c, t, run);
  }

  lemma {:induction false} Wait(c: Config, s: State, k: nat)
    requires CanReach(c, s)
    requires forall a :: a in s.deciders && Holding(s.deciders[a]) ==> s.now + k <= s.deciders[a].due
    requires forall j :: j in s.queue ==> s.now + k <= j.due
    requires forall w :: w in s.workers ==> s.now + k <= s.workers[w]
    ensures CanReach(c, s.(now := s.now + k))
  {
    if k == 0 {
      assert s.(now := s.now) == s;
    } else {
      Wait(c, s, k - 1);
      var t := s.(now := s.now + (k - 1));
      assert MayTick(t);
      t := Do(c, t, Tick);
    }
  }

  // Paused for the first time.
  lemma FirstPause(c: Config) returns (s: State)
    ensures CanReach(c, s) && s == Init(c).(status := Paused, pause := 1, workers := map[])
  {
    assert Reachable(c, Init(c), []);
    s := Do(c, Init(c), WorkerPauses(0));
    assert s.workers == map[];
  }

  // A decider asks and wins.
  lemma Decide(c: Config, s: State, a: nat, approve: bool) returns (t: State)
    requires CanReach(c, s) && s.status == Paused && a !in s.deciders
    ensures CanReach(c, t)
    ensures t == s.(status := Resuming, resumedAt := s.now, deciders := s.deciders[a := Won(approve, s.pause, s.now + c.window)])
  {
    t := Do(c, s, Ask(a, approve));
    t := Do(c, t, Cas(a));
    assert s.deciders[a := Asked(approve)][a := Won(approve, s.pause, s.now + c.window)] ==
           s.deciders[a := Won(approve, s.pause, s.now + c.window)];
  }

  // A decider asks, wins and enqueues.
  lemma DecideAndEnqueue(c: Config, s: State, a: nat, approve: bool) returns (t: State)
    requires CanReach(c, s) && s.status == Paused && a !in s.deciders
    ensures CanReach(c, t)
    ensures t == s.(status := Resuming, resumedAt := s.now, queue := s.queue + [Job(approve, s.now + c.work)],
                    jobs := s.jobs[s.pause := JobsOf(s, s.pause) + 1],
                    rejected := if approve then s.rejected else s.rejected + {s.pause})
  {
    var won := Decide(c, s, a, approve);
    t := Do(c, won, Enqueue(a));
    assert won.deciders - {a} == s.deciders;
  }

  // The first decider takes its time, at most until the run is overdue.
  lemma LateJob(c: Config) returns (s: State)
    ensures CanReach(c, s) && s.now == if c.window <= c.cutoff then c.window else c.cutoff + 1
    ensures s == Init(c).(now := s.now, status := Resuming, pause := 1, workers := map[],
                          queue := [Job(true, s.now + c.work)], jobs := map[1 := 1])
  {
    s := FirstPause(c);
    s := Decide(c, s, 0, true);
    var late := if c.window <= c.cutoff then c.window else c.cutoff + 1;
    Wait(c, s, late);
    s := s.(now := late);
    s := Do(c, s, Enqueue(0));
    assert s.deciders == map[];
  }

  // Then the queue does; the sweep adds a job of its own.
  lemma TwoJobs(c: Config) returns (s: State)
    requires !Quick(c)
    ensures CanReach(c, s) && s.status == Resuming && s.pause == 1 && !s.cancelRequested
    ensures s.now == s.resumedAt == c.cutoff + 1 && s.workers == map[] && s.deciders == map[]
    ensures |s.queue| == 2 && s.queue[0].approve && s.queue[1] == Job(true, s.now + c.work)
    ensures s.jobs == map[1 := 1] && s.rejected == {} && s.cancellers == {}
  {
    s := LateJob(c);
    Wait(c, s, c.cutoff + 1 - s.now);
    s := s.(now := c.cutoff + 1);
    s := Do(c, s, SweepResume);
  }

  // The first job has led to a second pause, and the sweep's job is still there.
  lemma JobLeftOver(c: Config) returns (s: State)
    requires !Quick(c)
    ensures CanReach(c, s) && s.status == Paused && s.pause == 2 && !s.cancelRequested && s.cancellers == {}
    ensures s.workers == map[] && s.deciders == map[] && s.queue == [Job(true, s.now + c.work)]
    ensures s.jobs == map[1 := 1] && s.rejected == {}
  {
    var two := TwoJobs(c);
    s := Do(c, two, Start(0));
    s := Do(c, s, WorkerPauses(0));
    assert s.workers == map[];
  }

  // A decider has won the second pause, and the left-over job is running.
  lemma WorkerBesideDecider(c: Config) returns (s: State)
    requires !Quick(c)
    ensures CanReach(c, s) && s.status == Resuming && s.pause == 2 && 0 in s.workers && s.queue == []
    ensures s.deciders == map[1 := Won(true, 2, s.now + c.window)] && s.jobs == map[1 := 1] && s.cancellers == {}
  {
    s := JobLeftOver(c);
    s := Decide(c, s, 1, true);
    s := Do(c, s, Start(0));
  }

  /* ----- One job per pause ----- */

  ghost predicate ResolvedOnce(c: Config) {
    forall s :: CanReach(c, s) ==> AtMostOneJob(s)
  }

  // The left-over job leads to a third pause, which is decided, opened again by the rollback of the decider
  // of the second, and decided again.
  lemma ResolvedTwice(c: Config)
    requires !Quick(c)
    ensures !ResolvedOnce(c)
  {
    var s := WorkerBesideDecider(c);
    s := Do(c, s, WorkerPauses(0));
    s := DecideAndEnqueue(c, s, 2, true);
    s := Do(c, s, EnqueueFails(1));
    s := Do(c, s, Rollback(1));
    assert s.deciders == map[];
    s := DecideAndEnqueue(c, s, 3, true);
    assert JobsOf(s, 3) == 2;
  }

  // At most one decision per pause reaches the queue, over all interleavings, exactly if deciders, queue and
  // worker together are done before the crash sweep takes the run for abandoned.
  lemma ResolvedOnceIff(c: Config)
    ensures ResolvedOnce(c) <==> c.window + c.work <= c.cutoff
  {
    if Quick(c) {
      forall s | CanReach(c, s)
        ensures AtMostOneJob(s)
      {
        var steps :| Reachable(c, s, steps);
        InvAlways(c, s, steps);
      }
    } else {
      ResolvedTwice(c);
    }
  }

  /* ----- One worker ----- */

  // No two workers run the nodes behind a pause at the same time.
  ghost predicate NeverTwoWorkers(c: Config) {
    forall s, w, v :: CanReach(c, s) && w in s.workers && v in s.workers ==> w == v
  }

  // The decider's job and the sweep's are both started.
  lemma TwoWorkers(c: Config)
    requires !Quick(c)
    ensures !NeverTwoWorkers(c)
  {
    var s := TwoJobs(c);
    s := Do(c, s, Start(0));
    s := Do(c, s, Start(1));
    assert 0 in s.workers && 1 in s.workers;
  }

  // Again exactly under the same condition.
  lemma NeverTwoWorkersIff(c: Config)
    ensures NeverTwoWorkers(c) <==> c.window + c.work <= c.cutoff
  {
    if Quick(c) {
      forall s, w, v | CanReach(c, s) && w in s.workers && v in s.workers
        ensures w == v
      {
        var steps :| Reachable(c, s, steps);
        InvAlways(c, s, steps);
      }
    } else {
      TwoWorkers(c);
    }
  }

  /* ----- A cancelled, timed-out or finished run stays so ----- */

  predicate Unmoved(s: State, t: State) {
    t.status == s.status && t.queue == [] && t.jobs == s.jobs
  }

  ghost predicate TerminalIsFinal(c: Config) {
    forall s, step :: CanReach(c, s) && Terminal(s.status) && Enabled(c, s, step) ==> Unmoved(s, Apply(c, s, step))
  }

  lemma TerminalStep(c: Config, s: State, step: Step)
    requires Inv(c, s) && Terminal(s.status) && Enabled(c, s, step)
    ensures Unmoved(s, Apply(c, s, step))
  {
    forall a | a in s.deciders
      ensures Holding(s.deciders[a]) ==> s.status == Resuming
    {
      assert HoldsRun(c, s, s.deciders[a]);
    }
    assert forall w :: w !in s.workers;
  }

  // The left-over run stops as cancelled, and the rollback of the decider beside it pauses it again.
  lemma CancelledRunComesBack(c: Config)
    requires !Quick(c)
    ensures !TerminalIsFinal(c)
  {
    var s := WorkerBesideDecider(c);
    s := Do(c, s, AskCancel(0));
    s := Do(c, s, WorkerEnds(0, Cancelled));
    s := Do(c, s, EnqueueFails(1));
    assert Terminal(s.status) && Apply(c, s, Rollback(1)).status == Paused;
  }

  // Once a run is cancelled, failed or completed, no interleaving revives it or enqueues a resume, exactly
  // under the same condition.
  lemma TerminalIsFinalIff(c: Config)
    ensures TerminalIsFinal(c) <==> c.window + c.work <= c.cutoff
  {
    if Quick(c) {
      forall s, step | CanReach(c, s) && Terminal(s.status) && Enabled(c, s, step)
        ensures Unmoved(s, Apply(c, s, step))
      {
        var steps :| Reachable(c, s, steps);
        InvAlways(c, s, steps);
        TerminalStep(c, s, step);
      }
    } else {
      CancelledRunComesBack(c);
    }
  }

  /* ----- A rejected pause is not passed ----- */

  ghost predicate RejectionsHold(c: Config) {
    forall s, p :: CanReach(c, s) && p in s.rejected ==> p !in s.passed
  }

  // While no job is lost, a rejecting job is on the queue until the run has failed.
  ghost predicate RejectionInv(s: State) {
    (forall p :: p in s.rejected ==> p !in s.passed) &&
    (s.pause in s.rejected ==> Terminal(s.status) || (s.queue != [] && !s.queue[0].approve)) &&
    (s.queue != [] && !s.queue[0].approve ==> s.pause in s.rejected)
  }

  lemma RejectionInvStep(c: Config, s: State, step: Step)
    requires Quick(c) && !c.lossy && Inv(c, s) && RejectionInv(s) && Enabled(c, s, step)
    ensures RejectionInv(Apply(c, s, step))
  {
    ActsAlone(c, s, step);
  }

  lemma {:induction false} RejectionInvAlways(c: Config, s: State, steps: seq<Step>)
    requires Quick(c) && !c.lossy && Reachable(c, s, steps)
    ensures RejectionInv(s)
    decreases |steps|
  {
    if steps != [] {
      var last := |steps| - 1;
      var before :| Reachable(c, before, steps[..last]) && Enabled(c, before, steps[last]) && s == Apply(c, before, steps[last]);
      RejectionInvAlways(c, before, steps[..last]);
      InvAlways(c, before, steps[..last]);
      RejectionInvStep(c, before, steps[last]);
    }
  }

  // The rejecting job dies with its worker; the crash sweep resumes the run as approved.
  lemma LostRejectionIsPassed(c: Config)
    requires c.lossy
    ensures !RejectionsHold(c)
  {
    var s := FirstPause(c);
    s := DecideAndEnqueue(c, s, 0, false);
    s := Do(c, s, Lose);
    Wait(c, s, c.cutoff + 1);
    s := s.(now := c.cutoff + 1);
    s := Do(c, s, SweepResume);
    s := Do(c, s, Start(0));
    assert 1 in s.rejected && 1 in s.passed;
  }

  // The left-over job runs ahead of the rejecting one.
  lemma OvertakenRejectionIsPassed(c: Config)
    requires !Quick(c)
    ensures !RejectionsHold(c)
  {
    var s := JobLeftOver(c);
    s := DecideAndEnqueue(c, s, 1, false);
    s := Do(c, s, Start(0));
    assert 2 in s.rejected && 2 in s.passed;
  }

  // A rejected pause is never passed, exactly if no worker can die with the rejecting job and nobody
  // outlasts the sweep, which does not look at the decision and resumes every run as approved.
  lemma RejectionsHoldIff(c: Config)
    ensures RejectionsHold(c) <==> !c.lossy && c.window + c.work <= c.cutoff
  {
    if c.lossy {
      LostRejectionIsPassed(c);
    } else if !Quick(c) {
      OvertakenRejectionIsPassed(c);
    } else {
      forall s, p | CanReach(c, s) && p in s.rejected
        ensures p !in s.passed
      {
        var steps :| Reachable(c, s, steps);
        RejectionInvAlways(c, s, steps);
      }
    }
  }

  /* ----- What is asked for happens ----- */

  // These steps, one after the other, lead from s to t.
  ghost predicate Runs(c: Config, s: State, steps: seq<Step>, t: State)
    decreases |steps|
  {
    if steps == [] then t == s
    else Enabled(c, s, steps[0]) && Runs(c, Apply(c, s, steps[0]), steps[1..], t)
  }

  lemma RunsOne(c: Config, s: State, step: Step, steps: seq<Step>, t: State)
    requires Enabled(c, s, step) && Runs(c, Apply(c, s, step), steps, t)
    ensures Runs(c, s, [step] + steps, t)
  {
    assert ([step] + steps)[1..] == steps;
  }

  // A cancel ends a pause then and there, and leaves no job behind.
  lemma CancelEndsPause(c: Config, s: State, a: nat)
    requires s.status == Paused && a !in s.cancellers
    ensures Runs(c, s, [AskCancel(a), CancelCas(a)], s.(status := Cancelled, cancelRequested := true))
  {
    var asked := Apply(c, s, AskCancel(a));
    var t := s.(status := Cancelled, cancelRequested := true);
    assert asked.cancellers - {a} == s.cancellers;
    assert Runs(c, t, [], t);
    RunsOne(c, asked, CancelCas(a), [], t);
    RunsOne(c, s, AskCancel(a), [CancelCas(a)], t);
  }

  // However late the second half of a cancel comes: no pause outlasts it, and a decision that was made in
  // the meantime stands, with the request on record.
  lemma NoPauseOutlastsCancel(c: Config, s: State, steps: seq<Step>, a: nat)
    requires Reachable(c, s, steps) && Enabled(c, s, CancelCas(a))
    ensures var t := Apply(c, s, CancelCas(a));
            t.status != Paused && (s.status != Paused ==> t.status == s.status) && t.cancelRequested &&
            t.queue == s.queue && t.jobs == s.jobs && t.deciders == s.deciders && t.workers == s.workers
  {
    CancellersAsked(c, s, steps);
  }

  lemma {:induction false} CancellersAsked(c: Config, s: State, steps: seq<Step>)
    requires Reachable(c, s, steps)
    ensures s.cancellers != {} ==> s.cancelRequested
    decreases |steps|
  {
    if steps != [] {
      var last := |steps| - 1;
      var before :| Reachable(c, before, steps[..last]) && Enabled(c, before, steps[last]) && s == Apply(c, before, steps[last]);
      CancellersAsked(c, before, steps[..last]);
      CancellersAskedStep(c, before, steps[last]);
    }
  }

  lemma CancellersAskedStep(c: Config, s: State, step: Step)
    requires Enabled(c, s, step) && (s.cancellers != {} ==> s.cancelRequested)
    ensures Apply(c, s, step).cancellers != {} ==> Apply(c, s, step).cancelRequested
  {
  }

  // The timeout of an approval ends a pause as failed, and a run that is no longer paused not at all.
  lemma ExpiryEndsPause(c: Config, s: State)
    ensures Enabled(c, s, Expire)
    ensures Apply(c, s, Expire).status != Paused
    ensures s.status == Paused ==> Apply(c, s, Expire) == s.(status := Failed)
    ensures s.status != Paused ==> Apply(c, s, Expire) == s
  {
  }

  // Ended is ended: whatever runs afterwards, no job is enqueued and nothing is run.
  lemma {:induction false} EndedForGood(c: Config, s: State, steps: seq<Step>, t: State)
    requires Quick(c) && CanReach(c, s) && Terminal(s.status) && Runs(c, s, steps, t)
    ensures t.status == s.status && t.jobs == s.jobs && t.passed == s.passed && (steps != [] ==> t.queue == [])
    decreases |steps|
  {
    if steps != [] {
      TerminalIsFinalIff(c);
      var next := Do(c, s, steps[0]);
      NothingPassed(c, s, steps[0]);
      EndedForGood(c, next, steps[1..], t);
    }
  }

  lemma NothingPassed(c: Config, s: State, step: Step)
    requires Terminal(s.status) && Enabled(c, s, step)
    ensures Apply(c, s, step).passed == s.passed
  {
  }

  // A paused run that is cancelled stays cancelled, and the pause is never decided.
  lemma CancelledForGood(c: Config, s: State, a: nat, steps: seq<Step>, t: State)
    requires Quick(c) && CanReach(c, s) && s.status == Paused && a !in s.cancellers
    requires Runs(c, s, [AskCancel(a), CancelCas(a)] + steps, t)
    ensures t.status == Cancelled && t.jobs == s.jobs && t.passed == s.passed
  {
    CancelEndsPause(c, s, a);
    var asked := Do(c, s, AskCancel(a));
    var ended := Do(c, asked, CancelCas(a));
    assert ([AskCancel(a), CancelCas(a)] + steps)[1..] == [CancelCas(a)] + steps;
    assert ([CancelCas(a)] + steps)[1..] == steps;
    EndedForGood(c, ended, steps, t);
  }

  predicate AllDeciding(steps: seq<Step>) {
    forall i :: 0 <= i < |steps| ==> steps[i].Ask? || steps[i].Cas?
  }

  // Whoever has won in t had already won in s.
  ghost predicate NobodyElseWins(s: State, t: State) {
    forall b :: b in t.deciders && Holding(t.deciders[b]) ==> b in s.deciders && t.deciders[b] == s.deciders[b]
  }

  // One winner: the first compare-and-set on a pause takes it, with that decider's own verdict, and whoever
  // comes after is dropped, over any run of requests.
  lemma FirstWins(c: Config, s: State, a: nat, steps: seq<Step>, t: State)
    requires s.status == Paused && Enabled(c, s, Cas(a)) && Runs(c, Apply(c, s, Cas(a)), steps, t) && AllDeciding(steps)
    ensures a in t.deciders && t.deciders[a] == Won(s.deciders[a].approve, s.pause, s.now + c.window)
    ensures t.status == Resuming && NobodyElseWins(s.(deciders := s.deciders[a := t.deciders[a]]), t)
    ensures forall b :: Cas(b) in steps && Ask(b, true) !in steps && Ask(b, false) !in steps ==> b !in t.deciders
  {
    FirstHasWon(c, s, Apply(c, s, Cas(a)), a, steps, t);
  }

  lemma FirstHasWon(c: Config, s: State, next: State, a: nat, steps: seq<Step>, t: State)
    requires a in s.deciders && s.deciders[a].Asked? && next.status == Resuming
    requires next.deciders == s.deciders[a := Won(s.deciders[a].approve, s.pause, s.now + c.window)]
    requires Runs(c, next, steps, t) && AllDeciding(steps)
    ensures a in t.deciders && t.deciders[a] == next.deciders[a] && t.status == Resuming
    ensures NobodyElseWins(s.(deciders := s.deciders[a := t.deciders[a]]), t)
    ensures forall b :: Cas(b) in steps && Ask(b, true) !in steps && Ask(b, false) !in steps ==> b !in t.deciders
  {
    OthersLose(c, next, a, steps, t);
  }

  lemma {:induction false} OthersLose(c: Config, s: State, a: nat, steps: seq<Step>, t: State)
    requires s.status != Paused && a in s.deciders && Holding(s.deciders[a])
    requires Runs(c, s, steps, t) && AllDeciding(steps)
    ensures t.status == s.status && a in t.deciders && t.deciders[a] == s.deciders[a] && NobodyElseWins(s, t)
    ensures forall b :: (b !in s.deciders || Cas(b) in steps) && Ask(b, true) !in steps && Ask(b, false) !in steps ==> b !in t.deciders
    decreases |steps|
  {
    if steps != [] {
      var next := Apply(c, s, steps[0]);
      assert steps[0].Ask? || steps[0].Cas?;
      assert forall i :: 0 <= i < |steps| - 1 ==> steps[1..][i] == steps[i + 1];
      assert forall x :: x in steps <==> x == steps[0] || x in steps[1..];
      OthersLose(c, next, a, steps[1..], t);
    }
  }

  // A decider that asks and wins.
  lemma Wins(c: Config, s: State, a: nat, approve: bool, steps: seq<Step>, t: State)
    requires s.status == Paused && a !in s.deciders
    requires Runs(c, s.(status := Resuming, resumedAt := s.now, deciders := s.deciders[a := Won(approve, s.pause, s.now + c.window)]), steps, t)
    ensures Runs(c, s, [Ask(a, approve), Cas(a)] + steps, t)
  {
    var asked := Apply(c, s, Ask(a, approve));
    assert asked.deciders[a := Won(approve, s.pause, s.now + c.window)] == s.deciders[a := Won(approve, s.pause, s.now + c.window)];
    RunsOne(c, asked, Cas(a), steps, t);
    RunsOne(c, s, Ask(a, approve), [Cas(a)] + steps, t);
    assert [Ask(a, approve)] + ([Cas(a)] + steps) == [Ask(a, approve), Cas(a)] + steps;
  }

  function Carried(c: Config, s: State, approve: bool, w: nat): State {
    if approve
    then s.(status := Resuming, resumedAt := s.now, workers := map[w := s.now + c.work],
            jobs := s.jobs[s.pause := 1], passed := s.passed + {s.pause})
    else s.(status := Failed, resumedAt := s.now, jobs := s.jobs[s.pause := 1], rejected := s.rejected + {s.pause})
  }

  lemma EnqueuedAndStarted(c: Config, s: State, won: State, a: nat, approve: bool, w: nat)
    requires s.queue == [] && s.workers == map[] && JobsOf(s, s.pause) == 0 && a !in s.deciders
    requires won == s.(status := Resuming, resumedAt := s.now, deciders := s.deciders[a := Won(approve, s.pause, s.now + c.window)])
    ensures Runs(c, won, [Enqueue(a), Start(w)], Carried(c, s, approve, w))
  {
    var queued := Apply(c, won, Enqueue(a));
    assert won.deciders - {a} == s.deciders && queued.queue == [Job(approve, s.now + c.work)];
    var t := Apply(c, queued, Start(w));
    assert t == Carried(c, s, approve, w);
    RunsOne(c, queued, Start(w), [], t);
    RunsOne(c, won, Enqueue(a), [Start(w)], t);
  }

  // What is decided on a paused run is carried out: approved, one worker runs it on past this pause;
  // rejected, it ends as failed and nothing is run.
  lemma DecisionIsCarriedOut(c: Config, s: State, a: nat, approve: bool, w: nat)
    requires Quick(c) && CanReach(c, s) && s.status == Paused && a !in s.deciders
    ensures Runs(c, s, [Ask(a, approve), Cas(a)] + [Enqueue(a), Start(w)], Carried(c, s, approve, w))
  {
    var run :| Reachable(c, s, run);
    InvAlways(c, s, run);
    var won := s.(status := Resuming, resumedAt := s.now, deciders := s.deciders[a := Won(approve, s.pause, s.now + c.window)]);
    EnqueuedAndStarted(c, s, won, a, approve, w);
    Wins(c, s, a, approve, [Enqueue(a), Start(w)], Carried(c, s, approve, w));
  }

  // A decision that cannot be enqueued opens the same pause again, with no job for it.
  lemma LostDecisionReopens(c: Config, s: State, a: nat, approve: bool)
    requires s.status == Paused && a !in s.deciders
    ensures Runs(c, s, [Ask(a, approve), Cas(a)] + [EnqueueFails(a), Rollback(a)], s.(resumedAt := s.now))
  {
    var won := s.(status := Resuming, resumedAt := s.now, deciders := s.deciders[a := Won(approve, s.pause, s.now + c.window)]);
    var failed := Apply(c, won, EnqueueFails(a));
    var t := Apply(c, failed, Rollback(a));
    assert t.deciders == s.deciders;
    RunsOne(c, failed, Rollback(a), [], t);
    RunsOne(c, won, EnqueueFails(a), [Rollback(a)], t);
    Wins(c, s, a, approve, [EnqueueFails(a), Rollback(a)], t);
  }

  // A worker that pauses opens the next pause, which nobody has decided; one that ends stores its verdict; one
  // that dies leaves the run to the sweep.
  lemma WorkerLeaves(c: Config, s: State, w: nat, step: Step)
    requires Quick(c) && CanReach(c, s) && w in s.workers
    requires step == WorkerPauses(w) || step == WorkerDies(w) || (step.WorkerEnds? && step.w == w && Terminal(step.status))
    ensures Enabled(c, s, step)
    ensures var t := Apply(c, s, step);
            t.workers == map[] && t.queue == [] && t.jobs == s.jobs && t.passed == s.passed &&
            (step.WorkerPauses? ==> t.status == Paused && t.pause == s.pause + 1 && Undecided(t)) &&
            (step.WorkerEnds? ==> t.status == step.status && t.pause == s.pause) &&
            (step.WorkerDies? ==> t.status == s.status && t.pause == s.pause && !Terminal(t.status) && t.status != Paused)
  {
    var run :| Reachable(c, s, run);
    InvAlways(c, s, run);
    assert forall v :: v in s.workers ==> v == w;
    assert JobsOf(s, s.pause + 1) == 0;
  }

  // A request to cancel is kept, over any run.
  lemma {:induction false} RequestIsKept(c: Config, s: State, steps: seq<Step>, t: State)
    requires Runs(c, s, steps, t) && s.cancelRequested
    ensures t.cancelRequested
    decreases |steps|
  {
    if steps != [] {
      RequestIsKept(c, Apply(c, s, steps[0]), steps[1..], t);
    }
  }

  // What the sweep does with an overdue run: after a request to cancel, however long ago, it ends the run as
  // cancelled and does not resume it; otherwise it resumes it with an approving job, or ends it as failed.
  lemma SweepObeysRequest(c: Config, s: State, a: nat, steps: seq<Step>, t: State)
    requires Enabled(c, s, AskCancel(a)) && Runs(c, s, [AskCancel(a)] + steps, t) && Overdue(c, t)
    ensures !Enabled(c, t, SweepResume) && Enabled(c, t, SweepGiveUp)
    ensures Apply(c, t, SweepGiveUp) == t.(status := Cancelled)
  {
    assert ([AskCancel(a)] + steps)[1..] == steps;
    RequestIsKept(c, Apply(c, s, AskCancel(a)), steps, t);
  }

  lemma SweepWithoutRequest(c: Config, s: State, w: nat)
    requires Quick(c) && CanReach(c, s) && Overdue(c, s) && !s.cancelRequested
    ensures Runs(c, s, [SweepResume, Start(w)],
                 s.(status := Resuming, resumedAt := s.now, workers := map[w := s.now + c.work], passed := s.passed + {s.pause}))
    ensures Enabled(c, s, SweepGiveUp) && Apply(c, s, SweepGiveUp) == s.(status := Failed)
  {
    var run :| Reachable(c, s, run);
    InvAlways(c, s, run);
    OverdueIsAbandoned(c, s);
    SweptAndStarted(c, s, w);
  }

  lemma SweptAndStarted(c: Config, s: State, w: nat)
    requires Overdue(c, s) && !s.cancelRequested && s.queue == [] && s.workers == map[]
    ensures Runs(c, s, [SweepResume, Start(w)],
                 s.(status := Resuming, resumedAt := s.now, workers := map[w := s.now + c.work], passed := s.passed + {s.pause}))
  {
    var queued := Apply(c, s, SweepResume);
    assert queued.queue == [Job(true, s.now + c.work)];
    var t := Apply(c, queued, Start(w));
    RunsOne(c, queued, Start(w), [], t);
    RunsOne(c, s, SweepResume, [Start(w)], t);
  }

  // A job for a run that has ended in the meantime is dropped.
  lemma JobOfEndedRunIsDropped(c: Config, s: State, w: nat)
    requires Enabled(c, s, Start(w)) && Terminal(s.status)
    ensures Apply(c, s, Start(w)) == s.(queue := s.queue[1..])
  {
  }
}
