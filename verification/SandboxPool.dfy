/** The warm container pool: acquire, release, warm-up and discards, interleaved at their await points. */
module SandboxPool {
  import opened Helpers

  // Where a container came off the idle queue: on the fast path, under the grow lock, or after a wait.
  datatype Place = Fast | Locked | Waited

  // A coroutine at an await point.
  datatype Task =
    | WantsLock                                // acquire: waiting for the grow lock
    | Validating(c: nat, at: Place)            // acquire: is the container alive?
    | Discarding(c: nat, at: Place)            // acquire: destroying a dead one
    | Growing                                  // acquire: creating a container under the lock
    | WaitingIdle                              // acquire: waiting for a release
    | Holding(c: nat)                          // the caller has the container
    | Resetting(c: nat)                        // release: wiping the workspace
    | Destroying(c: nat)                       // release: the wipe failed
    | WantsWarmup                              // warmup: waiting for the grow lock
    | Warming(createdNow: nat)                 // warmup: creating a container under the lock

  datatype Config = Config(minSize: nat, maxSize: nat)

  // `lock` is the owner of the grow lock; `nextId` is the id of the next container ever created.
  datatype State = State(idle: seq<nat>, created: int, inUse: set<nat>, lock: Option<nat>, tasks: map<nat, Task>, nextId: nat)

  datatype Step =
    | StartAcquire(t: nat) | StartWarmup(t: nat) | StartRelease(t: nat)
    | TakeLock(t: nat) | TakeLockToWarm(t: nat)
    | Alive(t: nat) | Dead(t: nat) | Discarded(t: nat)
    | Created(t: nat) | CreateFails(t: nat)
    | GetIdle(t: nat) | TimesOut(t: nat)
    | ResetWorks(t: nat) | ResetFails(t: nat) | Destroyed(t: nat)

  predicate Enabled(c: Config, s: State, step: Step) {
    match step
    case StartAcquire(t) => t !in s.tasks
    case StartWarmup(t) => t !in s.tasks
    case StartRelease(t) => t in s.tasks && s.tasks[t].Holding?
    case TakeLock(t) => t in s.tasks && s.tasks[t].WantsLock? && s.lock == None
    case TakeLockToWarm(t) => t in s.tasks && s.tasks[t].WantsWarmup? && s.lock == None
    case Alive(t) => t in s.tasks && s.tasks[t].Validating?
    case Dead(t) => t in s.tasks && s.tasks[t].Validating?
    case Discarded(t) => t in s.tasks && s.tasks[t].Discarding?
    case Created(t) => t in s.tasks && (s.tasks[t].Growing? || s.tasks[t].Warming?)
    case CreateFails(t) => t in s.tasks && (s.tasks[t].Growing? || s.tasks[t].Warming?)
    case GetIdle(t) => t in s.tasks && s.tasks[t].WaitingIdle? && s.idle != []
    case TimesOut(t) => t in s.tasks && s.tasks[t].WaitingIdle?
    case ResetWorks(t) => t in s.tasks && s.tasks[t].Resetting?
    case ResetFails(t) => t in s.tasks && s.tasks[t].Resetting?
    case Destroyed(t) => t in s.tasks && s.tasks[t].Destroying?
  }

  // One turn of the loop that takes idle containers without waiting, and what follows when there are none.
  function TakeOrGoOn(c: Config, s: State, t: nat, at: Place): State {
    if at == Waited then s.(tasks := s.tasks[t := WaitingIdle])
    else if s.idle != [] then s.(idle := s.idle[1..], tasks := s.tasks[t := Validating(s.idle[0], at)])
    else if at == Fast then s.(tasks := s.tasks[t := WantsLock])
    else if s.created < c.maxSize then s.(tasks := s.tasks[t := Growing])
    else s.(lock := None, tasks := s.tasks[t := WaitingIdle])
  }

  // One turn of the warm-up loop, under the lock.
  function WarmOrStop(c: Config, s: State, t: nat, createdNow: nat): State {
    if |s.idle| + createdNow < c.minSize && s.created < c.maxSize then s.(tasks := s.tasks[t := Warming(createdNow)])
    else s.(lock := None, tasks := s.tasks - {t})
  }

  function Unlocked(s: State, at: Place): Option<nat> {
    if at == Locked then None else s.lock
  }

  function Apply(c: Config, s: State, step: Step): State
    requires Enabled(c, s, step)
  {
    match step
    case StartAcquire(t) => TakeOrGoOn(c, s, t, Fast)
    case StartWarmup(t) => s.(tasks := s.tasks[t := WantsWarmup])
    case StartRelease(t) => s.(inUse := s.inUse - {s.tasks[t].c}, tasks := s.tasks[t := Resetting(s.tasks[t].c)])
    case TakeLock(t) => TakeOrGoOn(c, s.(lock := Some(t)), t, Locked)
    case TakeLockToWarm(t) => WarmOrStop(c, s.(lock := Some(t)), t, 0)
    case Alive(t) =>
      s.(inUse := s.inUse + {s.tasks[t].c}, lock := Unlocked(s, s.tasks[t].at), tasks := s.tasks[t := Holding(s.tasks[t].c)])
    case Dead(t) => s.(tasks := s.tasks[t := Discarding(s.tasks[t].c, s.tasks[t].at)])
    case Discarded(t) =>
      var s' := s.(inUse := s.inUse - {s.tasks[t].c}, created := Max(0, s.created - 1), tasks := s.tasks - {t});
      TakeOrGoOn(c, s', t, s.tasks[t].at)
    case Created(t) =>
      if s.tasks[t].Growing? then
        s.(created := s.created + 1, inUse := s.inUse + {s.nextId}, lock := None,
           tasks := s.tasks[t := Holding(s.nextId)], nextId := s.nextId + 1)
      else
        var s' := s.(created := s.created + 1, idle := s.idle + [s.nextId], nextId := s.nextId + 1);
        WarmOrStop(c, s', t, s.tasks[t].createdNow + 1)
    case CreateFails(t) =>
      if s.tasks[t].Growing? then s.(lock := None, tasks := s.tasks[t := WaitingIdle])
      else s.(lock := None, tasks := s.tasks - {t})
    case GetIdle(t) => s.(idle := s.idle[1..], tasks := s.tasks[t := Validating(s.idle[0], Waited)])
    case TimesOut(t) => s.(tasks := s.tasks - {t})
    case ResetWorks(t) => s.(idle := s.idle + [s.tasks[t].c], tasks := s.tasks - {t})
    case ResetFails(t) => s.(tasks := s.tasks[t := Destroying(s.tasks[t].c)])
    // The replacement warm-up runs as a task of its own.
    case Destroyed(t) => s.(created := Max(0, s.created - 1), tasks := s.tasks[t := WantsWarmup])
  }

  /* ----- Conservation ----- */

  predicate Has(task: Task) {
    task.Validating? || task.Discarding? || task.Holding? || task.Resetting? || task.Destroying?
  }

  function Carriers(s: State): set<nat> {
    set t | t in s.tasks && Has(s.tasks[t])
  }

  predicate NeedsLock(task: Task) {
    task.Growing? || task.Warming? || ((task.Validating? || task.Discarding?) && task.at == Locked)
  }

  predicate Creating(task: Task) {
    task.Growing? || task.Warming?
  }

  // Nobody shares a container: not two tasks, not a task and the queue.
  ghost predicate Unshared(s: State) {
    (forall i, j :: 0 <= i < j < |s.idle| ==> s.idle[i] != s.idle[j]) &&
    (forall c :: c in s.idle ==> c < s.nextId) &&
    (forall t :: t in s.tasks && Has(s.tasks[t]) ==> s.tasks[t].c !in s.idle && s.tasks[t].c < s.nextId) &&
    (forall t, u :: t in s.tasks && u in s.tasks && t != u && Has(s.tasks[t]) && Has(s.tasks[u]) ==> s.tasks[t].c != s.tasks[u].c)
  }

  // The grow lock belongs to the one task that is in its section.
  ghost predicate LockHeld(s: State) {
    (forall t :: t in s.tasks && NeedsLock(s.tasks[t]) ==> s.lock == Some(t)) &&
    (s.lock.Some? ==> s.lock.value in s.tasks && NeedsLock(s.tasks[s.lock.value]))
  }

  function Held(s: State): set<nat> {
    set t | t in s.tasks && s.tasks[t].Holding? :: s.tasks[t].c
  }

  ghost predicate InUseExact(s: State) {
    s.inUse == Held(s)
  }

  predicate Underway(s: State) {
    s.lock.Some? && s.lock.value in s.tasks && Creating(s.tasks[s.lock.value])
  }

  // created counts the idle containers and those that a task has; one under way still fits.
  ghost predicate Counted(c: Config, s: State) {
    s.created == |s.idle| + |Carriers(s)| && s.created + (if Underway(s) then 1 else 0) <= c.maxSize
  }

  ghost predicate Inv(c: Config, s: State) {
    Unshared(s) && LockHeld(s) && InUseExact(s) && Counted(c, s)
  }

  // A step leaves every task but its own as it is.
  ghost predicate OnlyTask(s: State, s': State, t: nat) {
    forall u :: u != t ==> (u in s.tasks <==> u in s'.tasks) && (u in s.tasks ==> s.tasks[u] == s'.tasks[u])
  }

  lemma OnlyTheActorMoves(c: Config, s: State, step: Step)
    requires Enabled(c, s, step)
    ensures OnlyTask(s, Apply(c, s, step), step.t)
  {
  }

  function Carried(s: State, t: nat): nat {
    if t in s.tasks && Has(s.tasks[t]) then 1 else 0
  }

  lemma SizeChange(a: set<nat>, b: set<nat>, t: nat)
    requires a - {t} == b - {t}
    ensures |b| - (if t in b then 1 else 0) == |a| - (if t in a then 1 else 0)
  {
    var others := a - {t};
    assert a == if t in a then others + {t} else others;
    assert b == if t in b then others + {t} else others;
  }

  lemma CarriersChange(s: State, s': State, t: nat)
    requires OnlyTask(s, s', t)
    ensures |Carriers(s')| - Carried(s', t) == |Carriers(s)| - Carried(s, t)
  {
    assert forall u :: u in Carriers(s') - {t} <==> u in Carriers(s) - {t};
    SizeChange(Carriers(s), Carriers(s'), t);
  }

  // The lock as everyone but t sees it.
  ghost predicate LockElsewhere(s: State, t: nat) {
    (forall u :: u in s.tasks && u != t && NeedsLock(s.tasks[u]) ==> s.lock == Some(u)) &&
    (s.lock.Some? && s.lock.value != t ==> s.lock.value in s.tasks && NeedsLock(s.tasks[s.lock.value]))
  }

  lemma LockHeldFrom(s: State, t: nat)
    requires LockElsewhere(s, t)
    requires s.lock == Some(t) <==> t in s.tasks && NeedsLock(s.tasks[t])
    ensures LockHeld(s)
  {
  }

  lemma LockHeldStep(c: Config, s: State, step: Step)
    requires LockHeld(s) && Enabled(c, s, step)
    ensures LockHeld(Apply(c, s, step))
  {
    var s' := Apply(c, s, step);
    OnlyTheActorMoves(c, s, step);
    assert LockElsewhere(s', step.t);
    LockHeldFrom(s', step.t);
  }

  function HeldBy(s: State, t: nat): set<nat> {
    if t in s.tasks && s.tasks[t].Holding? then {s.tasks[t].c} else {}
  }

  function CarriedBy(s: State, t: nat): set<nat> {
    if t in s.tasks && Has(s.tasks[t]) then {s.tasks[t].c} else {}
  }

  lemma HeldChange(s: State, s': State, t: nat)
    requires Unshared(s) && OnlyTask(s, s', t)
    ensures Held(s') == Held(s) - CarriedBy(s, t) + HeldBy(s', t)
  {
    forall c | c in Held(s) - CarriedBy(s, t) + HeldBy(s', t) ensures c in Held(s') {
      if c in HeldBy(s', t) {
        assert s'.tasks[t].c == c;
      } else {
        var u :| u in s.tasks && s.tasks[u].Holding? && s.tasks[u].c == c;
        assert u != t && s'.tasks[u].c == c;
      }
    }
  }

  lemma InUseStep(c: Config, s: State, step: Step)
    requires Unshared(s) && InUseExact(s) && Enabled(c, s, step)
    ensures InUseExact(Apply(c, s, step))
  {
    OnlyTheActorMoves(c, s, step);
    HeldChange(s, Apply(c, s, step), step.t);
    HeldChange(s, s, step.t);
  }

  // The idle queue gives up its head, or gets one container at its tail.
  lemma QueueKeepsDistinct(q: seq<nat>, x: nat)
    requires forall i, j :: 0 <= i < j < |q| ==> q[i] != q[j]
    ensures q != [] ==> q[0] in q && q[0] !in q[1..] && forall c :: c in q[1..] ==> c in q
    ensures forall c :: c in q + [x] <==> c in q || c == x
    ensures x !in q ==> forall i, j :: 0 <= i < j < |q| + 1 ==> (q + [x])[i] != (q + [x])[j]
  {
  }

  // What a step may do with a container: drop it, dequeue it, queue it, create it for the caller or for the queue.
  ghost predicate Moves(s: State, s': State, t: nat) {
    var (had, has) := (CarriedBy(s, t), CarriedBy(s', t));
    if s'.nextId == s.nextId then
      || (s'.idle == s.idle && has <= had)
      || (s.idle != [] && s'.idle == s.idle[1..] && has == {s.idle[0]})
      || (has == {} && exists c :: had == {c} && s'.idle == s.idle + [c])
    else
      && s'.nextId == s.nextId + 1
      && ((s'.idle == s.idle && has == {s.nextId}) || (s'.idle == s.idle + [s.nextId] && has == {}))
  }

  lemma StepMoves(c: Config, s: State, step: Step)
    requires Enabled(c, s, step)
    ensures Moves(s, Apply(c, s, step), step.t)
  {
    if step.ResetWorks? {
      assert CarriedBy(s, step.t) == {s.tasks[step.t].c};
    }
  }

  lemma UnsharedFrom(s: State, s': State, t: nat)
    requires Unshared(s) && OnlyTask(s, s', t) && Moves(s, s', t)
    ensures Unshared(s')
  {
    QueueKeepsDistinct(s.idle, s.nextId);
    forall c | CarriedBy(s, t) == {c}
      ensures c in CarriedBy(s, t) && c !in s.idle
    {
      QueueKeepsDistinct(s.idle, c);
    }
    assert forall u :: u in s'.tasks && Has(s'.tasks[u]) ==> s'.tasks[u].c in CarriedBy(s', u);
  }

  lemma UnsharedStep(c: Config, s: State, step: Step)
    requires Unshared(s) && Enabled(c, s, step)
    ensures Unshared(Apply(c, s, step))
  {
    OnlyTheActorMoves(c, s, step);
    StepMoves(c, s, step);
    UnsharedFrom(s, Apply(c, s, step), step.t);
  }

  lemma CountedStep(c: Config, s: State, step: Step)
    requires LockHeld(s) && Counted(c, s) && Enabled(c, s, step)
    ensures Counted(c, Apply(c, s, step))
  {
    OnlyTheActorMoves(c, s, step);
    CarriersChange(s, Apply(c, s, step), step.t);
  }

  const INITIAL := State([], 0, {}, None, map[], 0)

  ghost predicate CanReach(c: Config, s: State) {
    exists run :: Leads(c, run, s)
  }

  // A run, latest step first, from the empty pool.
  ghost predicate Leads(c: Config, run: seq<Step>, s: State)
    decreases |run|
  {
    if run == [] then s == INITIAL
    else exists before :: Leads(c, run[1..], before) && Enabled(c, before, run[0]) && s == Apply(c, before, run[0])
  }

  lemma {:induction false} InvAlong(c: Config, run: seq<Step>, s: State)
    requires Leads(c, run, s)
    ensures Inv(c, s)
    decreases |run|
  {
    if run != [] {
      var before :| Leads(c, run[1..], before) && Enabled(c, before, run[0]) && s == Apply(c, before, run[0]);
      InvAlong(c, run[1..], before);
      UnsharedStep(c, before, run[0]);
      LockHeldStep(c, before, run[0]);
      InUseStep(c, before, run[0]);
      CountedStep(c, before, run[0]);
    }
  }

  lemma InvAlways(c: Config, s: State)
    requires CanReach(c, s)
    ensures Inv(c, s)
  {
    var run :| Leads(c, run, s);
    InvAlong(c, run, s);
  }

  function InHands(s: State, ts: set<nat>): set<nat> {
    set t | t in ts && t in s.tasks && Has(s.tasks[t]) :: s.tasks[t].c
  }

  // The containers of the pool: queued, or in the hands of a task.
  function Owned(s: State): set<nat> {
    Elements(s.idle) + InHands(s, Carriers(s))
  }

  lemma {:induction false} CarriedSize(s: State, ts: set<nat>)
    requires Unshared(s) && forall t :: t in ts ==> t in s.tasks && Has(s.tasks[t])
    ensures |InHands(s, ts)| == |ts|
  {
    if t :| t in ts {
      CarriedSize(s, ts - {t});
      assert InHands(s, ts) == InHands(s, ts - {t}) + {s.tasks[t].c};
    }
  }

  // The counter is the number of containers there are, and never more than the pool may have.
  lemma CreatedCountsContainers(c: Config, s: State)
    requires CanReach(c, s)
    ensures s.created == |Owned(s)| <= c.maxSize
  {
    InvAlways(c, s);
    DistinctSize(s.idle);
    CarriedSize(s, Carriers(s));
    assert Elements(s.idle) !! InHands(s, Carriers(s));
  }

  // A container about to be written off was counted, so the decrement is never clamped.
  lemma ClampsNeverFire(c: Config, s: State, t: nat)
    requires CanReach(c, s) && t in s.tasks && (s.tasks[t].Discarding? || s.tasks[t].Destroying?)
    ensures Max(0, s.created - 1) == s.created - 1
  {
    InvAlways(c, s);
    assert t in Carriers(s);
  }

  // No two callers hold one container, and none is handed out while it is queued, wiped or written off.
  lemma HeldByOne(c: Config, s: State, t: nat, u: nat)
    requires CanReach(c, s) && t in s.tasks && u in s.tasks && s.tasks[t].Holding? && Has(s.tasks[u])
    ensures s.tasks[t].c == s.tasks[u].c ==> t == u
    ensures s.tasks[t].c !in s.idle && s.tasks[t].c in s.inUse
  {
    InvAlways(c, s);
    assert s.tasks[t].c in Held(s);
  }

  /* ----- The reaper ----- */

  // A warm container as the daemon lists it.
  datatype Listed = Listed(id: nat, owner: string, running: bool)

  // Not known to the pool, and either this worker's own or no longer running.
  predicate Orphan(known: set<nat>, worker: string, l: Listed) {
    l.id !in known && (l.owner == worker || !l.running)
  }

  function Orphans(known: set<nat>, worker: string, listing: seq<Listed>): set<nat> {
    set l | l in listing && Orphan(known, worker, l) :: l.id
  }

  method ReapOrphans(known: set<nat>, worker: string, listing: seq<Listed>) returns (destroyed: seq<nat>)
    ensures forall id :: id in destroyed <==> id in Orphans(known, worker, listing)
    ensures forall id :: id in destroyed <==>
              id !in known && exists l :: l in listing && l.id == id && (l.owner == worker || !l.running)
    ensures |destroyed| <= |listing|
  {
    destroyed := [];
    for i := 0 to |listing|
      invariant forall id :: id in destroyed <==> id in Orphans(known, worker, listing[..i])
      invariant |destroyed| <= i
    {
      var l := listing[i];
      assert forall x :: x in listing[..i + 1] <==> x in listing[..i] || x == l;
      if l.id in known {
        continue;
      }
      if l.owner == worker {
        destroyed := destroyed + [l.id];
      } else if !l.running {
        destroyed := destroyed + [l.id];
      }
    }
    assert listing[..|listing|] == listing;
  }

  // What the periodic reaper knows: the containers in use and those in the queue.
  function Known(s: State): set<nat> {
    s.inUse + Elements(s.idle)
  }

  // The daemon lists every container of the pool, under the pool's own name.
  ghost predicate ListsPool(s: State, worker: string, listing: seq<Listed>) {
    forall id :: id in Owned(s) ==> exists l :: l in listing && l.id == id && l.owner == worker
  }

  predicate NoneInTransit(s: State) {
    forall t :: t in s.tasks && Has(s.tasks[t]) ==> s.tasks[t].Holding?
  }

  // A container running under a sibling's name is left alone, and so is every container in the snapshot.
  lemma SiblingsAndSnapshotAreSafe(s: State, worker: string, listing: seq<Listed>, id: nat)
    requires id in Known(s) || forall l :: l in listing && l.id == id ==> l.owner != worker && l.running
    ensures id !in Orphans(Known(s), worker, listing)
  {
  }

  // Another worker's container is reaped exactly if it has stopped and is not in the snapshot.
  lemma SiblingIsReapedIff(known: set<nat>, worker: string, listing: seq<Listed>, l: Listed)
    requires l in listing && l.owner != worker && forall k :: k in listing && k.id == l.id ==> k == l
    ensures l.id in Orphans(known, worker, listing) <==> l.id !in known && !l.running
  {
    if l.id !in known && !l.running {
      assert Orphan(known, worker, l);
    }
  }

  // The reaper spares the whole pool exactly if the pool at the listing had all its containers in the snapshot.
  lemma ReaperSparesSnapshotIff(s: State, later: State, worker: string, listing: seq<Listed>)
    requires ListsPool(later, worker, listing)
    ensures Owned(later) !! Orphans(Known(s), worker, listing) <==> Owned(later) <= Known(s)
  {
    if id :| id in Owned(later) && id !in Known(s) {
      var l :| l in listing && l.id == id && l.owner == worker;
      assert id in Orphans(Known(s), worker, listing);
    }
  }

  // Taken at one moment: exactly if no container is being checked, written off or wiped just then.
  lemma ReaperSparesPoolIff(c: Config, s: State, worker: string, listing: seq<Listed>)
    requires CanReach(c, s) && ListsPool(s, worker, listing)
    ensures Owned(s) !! Orphans(Known(s), worker, listing) <==> NoneInTransit(s)
  {
    InvAlways(c, s);
    ReaperSparesSnapshotIff(s, s, worker, listing);
    if t :| t in s.tasks && Has(s.tasks[t]) && !s.tasks[t].Holding? {
      assert s.tasks[t].c in InHands(s, Carriers(s));
    }
  }

  lemma Do(c: Config, s: State, step: Step) returns (t: State)
    requires CanReach(c, s) && Enabled(c, s, step)
    ensures t == Apply(c, s, step) && CanReach(c, t)
  {
    t := Apply(c, s, step);
    var run :| Leads(c, run, s);
    assert ([step] + run)[1..] == run;
    assert Leads(c, [step] + run, t);
  }

  // Between snapshot and listing a caller is given a new container, and the reaper destroys it under them.
  lemma NewContainerIsReaped(c: Config, worker: string) returns (s: State, later: State, listing: seq<Listed>)
    requires c.maxSize > 0
    ensures CanReach(c, s) && NoneInTransit(s) && CanReach(c, later) && ListsPool(later, worker, listing)
    ensures exists t :: t in later.tasks && later.tasks[t].Holding? && later.tasks[t].c in Orphans(Known(s), worker, listing)
  {
    assert Leads(c, [], INITIAL);
    s := Do(c, INITIAL, StartAcquire(0));
    s := Do(c, s, TakeLock(0));
    later := Do(c, s, Created(0));
    listing := [Listed(0, worker, true)];
    assert later.tasks[0] == Holding(0);
    assert listing[0] in listing;
  }

  /* ----- What acquire, release and warm-up achieve ----- */

  // These steps, one after the other, lead from s to t.
  ghost predicate Goes(c: Config, s: State, steps: seq<Step>, t: State)
    decreases |steps|
  {
    if steps == [] then t == s
    else Enabled(c, s, steps[0]) && Goes(c, Apply(c, s, steps[0]), steps[1..], t)
  }

  lemma GoOn(c: Config, s: State, step: Step, steps: seq<Step>, t: State)
    requires Enabled(c, s, step) && Goes(c, Apply(c, s, step), steps, t)
    ensures Goes(c, s, [step] + steps, t)
  {
    assert ([step] + steps)[1..] == steps;
  }

  // A caller gets the container that has been idle longest.
  lemma AcquireTakesIdle(c: Config, s: State, t: nat)
    requires t !in s.tasks && s.idle != []
    ensures Goes(c, s, [StartAcquire(t)] + [Alive(t)],
                 s.(idle := s.idle[1..], inUse := s.inUse + {s.idle[0]}, tasks := s.tasks[t := Holding(s.idle[0])]))
  {
    var checking := Apply(c, s, StartAcquire(t));
    var held := Apply(c, checking, Alive(t));
    assert held.tasks == s.tasks[t := Holding(s.idle[0])];
    GoOn(c, checking, Alive(t), [], held);
    GoOn(c, s, StartAcquire(t), [Alive(t)], held);
  }

  // With none idle and room for one more, the caller gets a new one.
  lemma AcquireGrows(c: Config, s: State, t: nat)
    requires t !in s.tasks && s.idle == [] && s.lock == None && s.created < c.maxSize
    ensures Goes(c, s, [StartAcquire(t)] + ([TakeLock(t)] + [Created(t)]),
                 s.(created := s.created + 1, inUse := s.inUse + {s.nextId}, tasks := s.tasks[t := Holding(s.nextId)], nextId := s.nextId + 1))
  {
    var waiting := Apply(c, s, StartAcquire(t));
    var growing := Apply(c, waiting, TakeLock(t));
    var held := Apply(c, growing, Created(t));
    assert held.tasks == s.tasks[t := Holding(s.nextId)];
    GoOn(c, growing, Created(t), [], held);
    GoOn(c, waiting, TakeLock(t), [Created(t)], held);
    GoOn(c, s, StartAcquire(t), [TakeLock(t)] + [Created(t)], held);
  }

  // With none idle and no room, the caller waits, with the lock free for others.
  lemma AcquireWaits(c: Config, s: State, t: nat)
    requires t !in s.tasks && s.idle == [] && s.lock == None && s.created >= c.maxSize
    ensures Goes(c, s, [StartAcquire(t)] + [TakeLock(t)], s.(tasks := s.tasks[t := WaitingIdle]))
  {
    var waiting := Apply(c, s, StartAcquire(t));
    var idle := Apply(c, waiting, TakeLock(t));
    assert idle.tasks == s.tasks[t := WaitingIdle];
    GoOn(c, waiting, TakeLock(t), [], idle);
    GoOn(c, s, StartAcquire(t), [TakeLock(t)], idle);
  }

  // A container that is given back joins the end of the queue, and the first who waits for one takes the head.
  lemma ReleaseReturns(c: Config, s: State, t: nat)
    requires t in s.tasks && s.tasks[t].Holding?
    ensures Goes(c, s, [StartRelease(t)] + [ResetWorks(t)],
                 s.(idle := s.idle + [s.tasks[t].c], inUse := s.inUse - {s.tasks[t].c}, tasks := s.tasks - {t}))
  {
    var wiping := Apply(c, s, StartRelease(t));
    var back := Apply(c, wiping, ResetWorks(t));
    assert back.tasks == s.tasks - {t};
    GoOn(c, wiping, ResetWorks(t), [], back);
    GoOn(c, s, StartRelease(t), [ResetWorks(t)], back);
  }

  lemma WaiterTakesIdle(c: Config, s: State, t: nat)
    requires t in s.tasks && s.tasks[t].WaitingIdle? && s.idle != []
    ensures Goes(c, s, [GetIdle(t)] + [Alive(t)],
                 s.(idle := s.idle[1..], inUse := s.inUse + {s.idle[0]}, tasks := s.tasks[t := Holding(s.idle[0])]))
  {
    var checking := Apply(c, s, GetIdle(t));
    var held := Apply(c, checking, Alive(t));
    assert held.tasks == s.tasks[t := Holding(s.idle[0])];
    GoOn(c, checking, Alive(t), [], held);
    GoOn(c, s, GetIdle(t), [Alive(t)], held);
  }

  // One that cannot be wiped is written off, and its task goes on to replace it.
  lemma BrokenIsWrittenOff(c: Config, s: State, t: nat)
    requires CanReach(c, s) && t in s.tasks && s.tasks[t].Holding?
    ensures Goes(c, s, [StartRelease(t)] + ([ResetFails(t)] + [Destroyed(t)]),
                 s.(created := s.created - 1, inUse := s.inUse - {s.tasks[t].c}, tasks := s.tasks[t := WantsWarmup]))
  {
    InvAlways(c, s);
    assert t in Carriers(s);
    var wiping := Apply(c, s, StartRelease(t));
    var failed := Apply(c, wiping, ResetFails(t));
    var gone := Apply(c, failed, Destroyed(t));
    assert gone.tasks == s.tasks[t := WantsWarmup];
    GoOn(c, failed, Destroyed(t), [], gone);
    GoOn(c, wiping, ResetFails(t), [Destroyed(t)], gone);
    GoOn(c, s, StartRelease(t), [ResetFails(t)] + [Destroyed(t)], gone);
  }

  // One that has died in the queue is written off, and the caller is given the next.
  lemma DeadIsPassedOver(c: Config, s: State, t: nat)
    requires CanReach(c, s) && t !in s.tasks && |s.idle| >= 2
    ensures Goes(c, s, [StartAcquire(t)] + ([Dead(t)] + [Discarded(t)]),
                 s.(idle := s.idle[2..], created := s.created - 1, tasks := s.tasks[t := Validating(s.idle[1], Fast)]))
  {
    InvAlways(c, s);
    IdleIsNotInUse(s, s.idle[0]);
    var checking := Apply(c, s, StartAcquire(t));
    DeadOneIsDropped(c, checking, t, s.idle[0]);
    var next := s.(idle := s.idle[2..], created := s.created - 1, tasks := s.tasks[t := Validating(s.idle[1], Fast)]);
    assert checking.tasks[t := Validating(s.idle[1], Fast)] == next.tasks;
    assert s.idle[1..][1..] == s.idle[2..];
    GoOn(c, s, StartAcquire(t), [Dead(t)] + [Discarded(t)], next);
  }

  lemma DeadOneIsDropped(c: Config, s: State, t: nat, id: nat)
    requires t in s.tasks && s.tasks[t] == Validating(id, Fast) && s.idle != [] && s.created >= 1 && s.inUse - {id} == s.inUse
    ensures Goes(c, s, [Dead(t)] + [Discarded(t)],
                 s.(idle := s.idle[1..], created := s.created - 1, tasks := s.tasks[t := Validating(s.idle[0], Fast)]))
  {
    var dead := Apply(c, s, Dead(t));
    var next := Apply(c, dead, Discarded(t));
    assert next.tasks == s.tasks[t := Validating(s.idle[0], Fast)];
    GoOn(c, dead, Discarded(t), [], next);
    GoOn(c, s, Dead(t), [Discarded(t)], next);
  }

  // A creation that fails releases the lock: an acquire goes on to wait, a warm-up ends.
  lemma FailureReleasesLock(c: Config, s: State, t: nat)
    requires Enabled(c, s, CreateFails(t))
    ensures var u := Apply(c, s, CreateFails(t));
            u.lock == None && u.created == s.created && u.idle == s.idle && u.inUse == s.inUse &&
            (s.tasks[t].Growing? ==> u.tasks == s.tasks[t := WaitingIdle]) && (s.tasks[t].Warming? ==> u.tasks == s.tasks - {t})
  {
  }

  // A wait that runs out of time ends the request and nothing else.
  lemma TimeoutLeavesPool(c: Config, s: State, t: nat)
    requires Enabled(c, s, TimesOut(t))
    ensures Apply(c, s, TimesOut(t)) == s.(tasks := s.tasks - {t})
  {
  }

  // With the dead one written off the request goes on where it was: with the next idle one if there is any and it
  // has not waited yet; else it asks for the lock, creates under the lock, or waits without it.
  lemma AfterDiscard(c: Config, s: State, t: nat)
    requires CanReach(c, s) && t in s.tasks && s.tasks[t].Discarding?
    ensures var u := Apply(c, s, Discarded(t));
            var at := s.tasks[t].at;
            u.created == s.created - 1 && t in u.tasks &&
            (at == Waited ==> u.tasks[t] == WaitingIdle && u.idle == s.idle) &&
            (at != Waited && s.idle != [] ==> u.tasks[t] == Validating(s.idle[0], at) && u.idle == s.idle[1..] && u.lock == s.lock) &&
            (at == Fast && s.idle == [] ==> u.tasks[t] == WantsLock) &&
            (at == Locked && s.idle == [] ==> u.tasks[t] == Growing && u.lock == Some(t))
  {
    InvAlways(c, s);
    assert t in Carriers(s);
  }

  lemma IdleIsNotInUse(s: State, id: nat)
    requires Unshared(s) && InUseExact(s) && id in s.idle
    ensures s.inUse - {id} == s.inUse
  {
    assert id !in Held(s);
  }

  /* ----- How far a warm-up gets ----- */

  // The containers still to be created by a warm-up that counts `seen` and finds `created`.
  function ToCreate(c: Config, seen: nat, created: int): nat
    decreases c.minSize + 2 - seen
  {
    if seen < c.minSize && created < c.maxSize then 1 + ToCreate(c, seen + 2, created + 1) else 0
  }

  // It counts each new one twice, so it makes half of what is missing, rounded up, while there is room.
  lemma {:induction false} ToCreateIs(c: Config, seen: nat, created: int)
    ensures ToCreate(c, seen, created) == Max(0, Min((c.minSize - seen + 1) / 2, c.maxSize - created))
    decreases c.minSize + 2 - seen
  {
    if seen < c.minSize && created < c.maxSize {
      ToCreateIs(c, seen + 2, created + 1);
    }
  }

  // Warmed by k: all as before but for k new containers at the end of the queue.
  ghost predicate Warmed(s: State, u: State, t: nat, k: nat) {
    u.lock == None && t !in u.tasks && u.tasks == s.tasks - {t} && u.inUse == s.inUse &&
    u.created == s.created + k && |u.idle| == |s.idle| + k && u.idle[..|s.idle|] == s.idle && u.nextId == s.nextId + k
  }

  function Creations(t: nat, k: nat): (steps: seq<Step>)
    ensures |steps| == k && forall i :: 0 <= i < k ==> steps[i] == Created(t)
  {
    seq(k, _ => Created(t))
  }

  lemma {:induction false} WarmLoop(c: Config, s: State, t: nat, createdNow: nat) returns (u: State)
    requires t in s.tasks
    ensures var k := ToCreate(c, |s.idle| + createdNow, s.created);
            Goes(c, WarmOrStop(c, s, t, createdNow), Creations(t, k), u) && Warmed(s, u, t, k)
    decreases ToCreate(c, |s.idle| + createdNow, s.created)
  {
    var k := ToCreate(c, |s.idle| + createdNow, s.created);
    if k == 0 {
      u := WarmOrStop(c, s, t, createdNow);
    } else {
      var one := WarmOne(c, s, t, createdNow);
      u := WarmLoop(c, one, t, createdNow + 1);
      assert Creations(t, k) == [Created(t)] + Creations(t, k - 1);
      GoOn(c, WarmOrStop(c, s, t, createdNow), Created(t), Creations(t, k - 1), u);
      WarmedByOneMore(s, one, u, t, k - 1);
    }
  }

  // One turn of the loop; `one` is the pool with which it decides on the next.
  lemma WarmOne(c: Config, s: State, t: nat, createdNow: nat) returns (one: State)
    requires t in s.tasks && |s.idle| + createdNow < c.minSize && s.created < c.maxSize
    ensures var next := WarmOrStop(c, s, t, createdNow);
            Enabled(c, next, Created(t)) && Apply(c, next, Created(t)) == WarmOrStop(c, one, t, createdNow + 1)
    ensures t in one.tasks && one.tasks - {t} == s.tasks - {t} && one.inUse == s.inUse
    ensures one.created == s.created + 1 && one.idle == s.idle + [s.nextId] && one.nextId == s.nextId + 1
  {
    var next := WarmOrStop(c, s, t, createdNow);
    one := next.(created := s.created + 1, idle := s.idle + [s.nextId], nextId := s.nextId + 1);
  }

  lemma WarmedByOneMore(s: State, one: State, u: State, t: nat, k: nat)
    requires one.tasks - {t} == s.tasks - {t} && one.inUse == s.inUse && Warmed(one, u, t, k)
    requires one.created == s.created + 1 && one.idle == s.idle + [s.nextId] && one.nextId == s.nextId + 1
    ensures Warmed(s, u, t, k + 1)
  {
    assert u.idle[..|s.idle|] == u.idle[..|one.idle|][..|s.idle|] == s.idle;
  }

  // A warm-up that nobody interrupts brings the pool to its minimum exactly if at most one container was
  // missing, and there was room for it.
  lemma WarmupReachesMinimumIff(c: Config, s: State, t: nat) returns (u: State)
    requires t in s.tasks && s.tasks[t].WantsWarmup? && s.lock == None
    ensures var k := Max(0, Min((c.minSize - |s.idle| + 1) / 2, c.maxSize - s.created));
            Goes(c, s, [TakeLockToWarm(t)] + Creations(t, k), u) && Warmed(s, u, t, k)
    ensures |u.idle| >= c.minSize <==> c.minSize - |s.idle| <= 0 || (c.minSize - |s.idle| == 1 && s.created < c.maxSize)
  {
    var locked := s.(lock := Some(t));
    u := WarmLoop(c, locked, t, 0);
    ToCreateIs(c, |s.idle|, s.created);
    GoOn(c, s, TakeLockToWarm(t), Creations(t, ToCreate(c, |s.idle|, s.created)), u);
  }
}
