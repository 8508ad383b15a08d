/** Leader election over one expiring lease: who may believe to be the leader, and when two instances do. */
module LeaderLease {

  // `ttl` is the lease time.  A leader renews or steps down within `renewWithin` of its last action.
  // `slack` is what the environment guarantees about the re-entry path: an instance that finds its own
  // id in the store does so with more than `slack` left of the lease.  The code guarantees nothing: 0.
  datatype Config = Config(ttl: nat, renewWithin: nat, slack: nat)

  datatype Lease = Free | Held(owner: nat, expiry: nat)

  // `leaders` maps every instance that believes it leads to the time by which it acts again.
  datatype State = State(now: nat, lease: Lease, leaders: map<nat, nat>)

  datatype Step =
    | Acquire(i: nat)    // SET NX succeeds
    | Reenter(i: nat)    // SET NX fails, and the key holds our own id; the lease is not extended
    | Renew(i: nat)      // heartbeat: compare-and-expire, step down when the key is not ours
    | StepDown(i: nat)   // heartbeat error, or a crash; the key stays in the store
    | Tick               // a second passes; a leader that has to act first acts first

  const INIT := State(0, Free, map[])

  predicate Alive(s: State) {
    s.lease.Held? && s.now < s.lease.expiry
  }

  predicate Enabled(c: Config, s: State, step: Step) {
    match step
    case Acquire(i) => i !in s.leaders && !Alive(s)
    case Reenter(i) => i !in s.leaders && Alive(s) && s.lease.owner == i && s.lease.expiry - s.now > c.slack
    case Renew(i) => i in s.leaders
    case StepDown(i) => i in s.leaders
    case Tick => forall i :: i in s.leaders ==> s.now < s.leaders[i]
  }

  function Apply(c: Config, s: State, step: Step): State
    requires Enabled(c, s, step)
  {
    match step
    case Acquire(i) => State(s.now, Held(i, s.now + c.ttl), s.leaders[i := s.now + c.renewWithin])
    case Reenter(i) => s.(leaders := s.leaders[i := s.now + c.renewWithin])
    case Renew(i) =>
      if Alive(s) && s.lease.owner == i then
        State(s.now, Held(i, s.now + c.ttl), s.leaders[i := s.now + c.renewWithin])
      else s.(leaders := s.leaders - {i})
    case StepDown(i) => s.(leaders := s.leaders - {i})
    case Tick => s.(now := s.now + 1)
  }

  ghost predicate Reachable(c: Config, s: State, steps: seq<Step>)
    decreases |steps|
  {
    if steps == [] then s == INIT
    else
      var last := |steps| - 1;
      exists before :: Reachable(c, before, steps[..last]) && Enabled(c, before, steps[last]) &&
                       s == Apply(c, before, steps[last])
  }

  ghost predicate AtMostOneLeader(s: State) {
    forall i, j :: i in s.leaders && j in s.leaders ==> i == j
  }

  // Over every run, whatever the instances and their order.
  ghost predicate Exclusive(c: Config) {
    forall s, steps :: Reachable(c, s, steps) ==> AtMostOneLeader(s)
  }

  // Every leader owns a lease that outlives the time by which it acts.
  ghost predicate LeadersCovered(s: State) {
    forall i :: i in s.leaders ==> s.lease.Held? && s.lease.owner == i && s.now <= s.leaders[i] < s.lease.expiry
  }

  lemma {:induction false} CoveredAlways(c: Config, s: State, steps: seq<Step>)
    requires c.renewWithin < c.ttl && c.renewWithin <= c.slack
    requires Reachable(c, s, steps)
    ensures LeadersCovered(s)
    decreases |steps|
  {
    if steps != [] {
      var last := |steps| - 1;
      var before :| Reachable(c, before, steps[..last]) && Enabled(c, before, steps[last]) && s == Apply(c, before, steps[last]);
      CoveredAlways(c, before, steps[..last]);
    }
  }

  lemma Extend(c: Config, s: State, steps: seq<Step>, step: Step)
    requires Reachable(c, s, steps) && Enabled(c, s, step)
    ensures Reachable(c, Apply(c, s, step), steps + [step])
  {
    assert (steps + [step])[..|steps|] == steps;
  }

  lemma {:induction false} Wait(c: Config, s: State, steps: seq<Step>, k: nat) returns (steps': seq<Step>)
    requires Reachable(c, s, steps)
    requires forall i :: i in s.leaders ==> s.now + k <= s.leaders[i]
    ensures Reachable(c, s.(now := s.now + k), steps')
  {
    if k == 0 {
      steps' := steps;
      assert s.(now := s.now) == s;
    } else {
      steps' := Wait(c, s, steps, k - 1);
      Extend(c, s.(now := s.now + (k - 1)), steps', Tick);
      steps' := steps' + [Tick];
    }
  }

  // A leader whose lease ends no later than it acts again can be joined by a second one.
  lemma SecondLeader(c: Config, s: State, steps: seq<Step>)
    requires Reachable(c, s, steps) && s.leaders.Keys == {0} && Alive(s)
    requires s.lease.expiry <= s.leaders[0]
    ensures !Exclusive(c)
  {
    var k := s.lease.expiry - s.now;
    var steps1 := Wait(c, s, steps, k);
    var s1 := s.(now := s.now + k);
    Extend(c, s1, steps1, Acquire(1));
    var s2 := Apply(c, s1, Acquire(1));
    assert 0 in s2.leaders && 1 in s2.leaders;
    assert !AtMostOneLeader(s2);
  }

  lemma SlowRenewal(c: Config)
    requires c.ttl <= c.renewWithin
    ensures !Exclusive(c)
  {
    assert Reachable(c, INIT, []);
    Extend(c, INIT, [], Acquire(0));
    var s := Apply(c, INIT, Acquire(0));
    if c.ttl == 0 {
      Extend(c, s, [] + [Acquire(0)], Acquire(1));
      var s2 := Apply(c, s, Acquire(1));
      assert 0 in s2.leaders && 1 in s2.leaders;
    } else {
      SecondLeader(c, s, [] + [Acquire(0)]);
    }
  }

  // Step down at once, come back late: the key is still ours, but not for long enough.
  lemma LateReentry(c: Config)
    requires c.slack < c.renewWithin < c.ttl
    ensures !Exclusive(c)
  {
    assert Reachable(c, INIT, []);
    Extend(c, INIT, [], Acquire(0));
    var s := Apply(c, INIT, Acquire(0));
    Extend(c, s, [] + [Acquire(0)], StepDown(0));
    var s1 := Apply(c, s, StepDown(0));
    assert s1.leaders == map[];
    var steps := Wait(c, s1, [] + [Acquire(0)] + [StepDown(0)], c.ttl - c.renewWithin);
    var s2 := s1.(now := c.ttl - c.renewWithin);
    Extend(c, s2, steps, Reenter(0));
    SecondLeader(c, Apply(c, s2, Reenter(0)), steps + [Reenter(0)]);
  }

  // Leadership is exclusive over all runs exactly if leaders renew before the lease ends and a re-entry
  // finds enough of the lease left.
  lemma ExclusiveIff(c: Config)
    ensures Exclusive(c) <==> c.renewWithin < c.ttl && c.renewWithin <= c.slack
  {
    if c.renewWithin < c.ttl && c.renewWithin <= c.slack {
      forall s, steps | Reachable(c, s, steps)
        ensures AtMostOneLeader(s)
      {
        CoveredAlways(c, s, steps);
      }
    } else if c.ttl <= c.renewWithin {
      SlowRenewal(c);
    } else {
      LateReentry(c);
    }
  }

  // Whatever the timing, nobody but the owner moves a live lease.
  lemma LiveLeaseIsTheOwners(c: Config, s: State, step: Step)
    requires Enabled(c, s, step) && Alive(s)
    ensures Apply(c, s, step).lease == s.lease ||
            (step == Renew(s.lease.owner) && Apply(c, s, step).lease == Held(s.lease.owner, s.now + c.ttl))
  {
  }

  // With the shipped code, which checks nothing on re-entry, no renewal interval is short enough.
  lemma CodeIsNotExclusive(ttl: nat, renewWithin: nat)
    requires renewWithin >= 1
    ensures !Exclusive(Config(ttl, renewWithin, 0))
  {
    ExclusiveIff(Config(ttl, renewWithin, 0));
  }

  // A step changes nobody's belief but the actor's own, and the passing of time changes none.
  lemma OnlyTheActorMoves(c: Config, s: State, step: Step, j: nat)
    requires Enabled(c, s, step) && (step.Tick? || step.i != j)
    ensures var t := Apply(c, s, step); (j in t.leaders <==> j in s.leaders) && (j in s.leaders ==> t.leaders[j] == s.leaders[j])
    ensures step.StepDown? || step.Reenter? || step.Tick? ==> Apply(c, s, step).lease == s.lease
    ensures step.StepDown? ==> step.i !in Apply(c, s, step).leaders
  {
  }

  /* ----- A leader without the lease does not last ----- */

  predicate Leads(s: State, i: nat) {
    i in s.leaders
  }

  predicate OwnsLease(s: State, i: nat) {
    Alive(s) && s.lease.owner == i
  }

  // At its next action a leader either still has the lease, and has it for a whole lease time again, or it is
  // no longer a leader; nobody else's belief and nobody else's lease changes.
  lemma RenewalDecides(c: Config, s: State, i: nat)
    requires Leads(s, i)
    ensures Enabled(c, s, Renew(i))
    ensures var t := Apply(c, s, Renew(i));
            (Leads(t, i) <==> OwnsLease(s, i)) && (forall j :: j != i ==> (Leads(t, j) <==> Leads(s, j))) &&
            t.lease == (if OwnsLease(s, i) then Held(i, s.now + c.ttl) else s.lease) &&
            (Leads(t, i) ==> t.leaders[i] == s.now + c.renewWithin)
  {
  }

  // These steps, one after the other, lead from s to t.
  ghost predicate Runs(c: Config, s: State, steps: seq<Step>, t: State)
    decreases |steps|
  {
    if steps == [] then t == s
    else Enabled(c, s, steps[0]) && Runs(c, Apply(c, s, steps[0]), steps[1..], t)
  }

  // A leader has to act within `renewWithin`, and no lease outlasts the lease time.
  lemma {:induction false} DeadlinesAreShort(c: Config, s: State, steps: seq<Step>)
    requires Reachable(c, s, steps)
    ensures forall i :: i in s.leaders ==> s.now <= s.leaders[i] <= s.now + c.renewWithin
    ensures s.lease.Held? ==> s.lease.expiry <= s.now + c.ttl
    decreases |steps|
  {
    if steps != [] {
      var last := |steps| - 1;
      var before :| Reachable(c, before, steps[..last]) && Enabled(c, before, steps[last]) && s == Apply(c, before, steps[last]);
      DeadlinesAreShort(c, before, steps[..last]);
    }
  }

  // Either it has stepped down, or it still has to act, by the time it had to from the start.
  predicate OnItsWayOut(s: State, i: nat, due: nat) {
    !OwnsLease(s, i) && (Leads(s, i) ==> s.leaders[i] == due && s.now <= due)
  }

  lemma OutStep(c: Config, s: State, step: Step, i: nat, due: nat)
    requires OnItsWayOut(s, i, due) && Enabled(c, s, step) && step != Acquire(i) && step != Reenter(i)
    ensures OnItsWayOut(Apply(c, s, step), i, due)
  {
  }

  // Two leaders do not last: whoever has lost the lease has stepped down when `renewWithin` has passed, over any
  // run in which it does not come in again.
  lemma StaleLeaderIsGone(c: Config, s: State, past: seq<Step>, i: nat, steps: seq<Step>, t: State)
    requires Reachable(c, s, past) && !OwnsLease(s, i)
    requires Runs(c, s, steps, t) && Acquire(i) !in steps && Reenter(i) !in steps
    ensures Leads(t, i) ==> Leads(s, i) && t.now <= s.now + c.renewWithin
  {
    DeadlinesAreShort(c, s, past);
    if Leads(s, i) {
      OutAlong(c, s, i, s.leaders[i], steps, t);
    } else {
      StaysOut(c, s, i, steps, t);
    }
  }

  lemma {:induction false} OutAlong(c: Config, s: State, i: nat, due: nat, steps: seq<Step>, t: State)
    requires OnItsWayOut(s, i, due) && Runs(c, s, steps, t) && Acquire(i) !in steps && Reenter(i) !in steps
    ensures OnItsWayOut(t, i, due)
    decreases |steps|
  {
    if steps != [] {
      OutStep(c, s, steps[0], i, due);
      OutAlong(c, Apply(c, s, steps[0]), i, due, steps[1..], t);
    }
  }

  lemma {:induction false} StaysOut(c: Config, s: State, i: nat, steps: seq<Step>, t: State)
    requires !Leads(s, i) && Runs(c, s, steps, t) && Acquire(i) !in steps && Reenter(i) !in steps
    ensures !Leads(t, i)
    decreases |steps|
  {
    if steps != [] {
      StaysOut(c, Apply(c, s, steps[0]), i, steps[1..], t);
    }
  }

  // Leadership is never lost for good: when all leaders are gone, any instance leads after at most a lease time.
  lemma LeaderlessIsTaken(c: Config, s: State, past: seq<Step>, i: nat) returns (steps: seq<Step>, t: State)
    requires Reachable(c, s, past) && s.leaders == map[]
    ensures Reachable(c, t, steps) && t.leaders.Keys == {i}
    ensures s.now <= t.now <= s.now + c.ttl && t.lease == Held(i, t.now + c.ttl)
  {
    DeadlinesAreShort(c, s, past);
    var k := if Alive(s) then s.lease.expiry - s.now else 0;
    steps := Wait(c, s, past, k);
    var free := s.(now := s.now + k);
    Extend(c, free, steps, Acquire(i));
    steps := steps + [Acquire(i)];
    t := Apply(c, free, Acquire(i));
  }
}
