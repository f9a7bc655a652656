/** How often, and how soon, the managed Runtime is restarted on its own. */
module RestartBudget {
  import opened Wrappers

  // Milliseconds on a clock that never goes back.
  type Instant = int

  const WINDOW: int := 300_000
  const DELAYS: seq<int> := [1_000, 2_000, 4_000]

  // ---- The budget, told from all grants so far ----

  /** How many of the grants lie in the window that ends at `now`. */
  function Recent(grants: seq<Instant>, now: Instant): nat {
    if grants == [] then 0
    else Recent(grants[..|grants| - 1], now) + if now - grants[|grants| - 1] < WINDOW then 1 else 0
  }

  function Decision(grants: seq<Instant>, now: Instant): Option<int> {
    if Recent(grants, now) < |DELAYS| then Some(DELAYS[Recent(grants, now)]) else None
  }

  function GrantsNext(grants: seq<Instant>, now: Instant): seq<Instant> {
    if Decision(grants, now).Some? then grants + [now] else grants
  }

  /** All grants after calls at these times. */
  function Grants(calls: seq<Instant>): seq<Instant> {
    if calls == [] then [] else GrantsNext(Grants(calls[..|calls| - 1]), calls[|calls| - 1])
  }

  predicate NonDecreasing(times: seq<Instant>) {
    forall i, j | 0 <= i < j < |times| :: times[i] <= times[j]
  }

  predicate UpTo(times: seq<Instant>, last: Instant) {
    forall i | 0 <= i < |times| :: times[i] <= last
  }

  // ---- The window bound ----

  /** How many grants lie in [start, start + WINDOW). */
  function InWindow(grants: seq<Instant>, start: Instant): nat {
    if grants == [] then 0
    else InWindow(grants[..|grants| - 1], start)
         + if start <= grants[|grants| - 1] < start + WINDOW then 1 else 0
  }

  lemma {:induction false} GrantsOrdered(calls: seq<Instant>)
    requires NonDecreasing(calls)
    ensures NonDecreasing(Grants(calls))
    ensures calls != [] ==> UpTo(Grants(calls), calls[|calls| - 1])
    ensures calls == [] ==> Grants(calls) == []
  {
    if calls != [] {
      var front := calls[..|calls| - 1];
      GrantsOrdered(front);
      var now := calls[|calls| - 1];
      assert front == [] || front[|front| - 1] <= now;
      assert UpTo(Grants(front), now);
    }
  }

  /** Grants in a window that reaches to the newest one are recent for it. */
  lemma {:induction false} WindowIsRecent(grants: seq<Instant>, start: Instant, now: Instant)
    requires now < start + WINDOW && UpTo(grants, now)
    ensures InWindow(grants, start) <= Recent(grants, now)
  {
    if grants != [] { WindowIsRecent(grants[..|grants| - 1], start, now); }
  }

  /** Any half-open window of five minutes holds at most three grants. */
  lemma {:induction false} AtMostThreePerWindow(calls: seq<Instant>, start: Instant)
    requires NonDecreasing(calls)
    ensures InWindow(Grants(calls), start) <= |DELAYS|
  {
    if calls != [] {
      var front, now := calls[..|calls| - 1], calls[|calls| - 1];
      AtMostThreePerWindow(front, start);
      GrantsOrdered(calls);
      GrantsOrdered(front);
      var grants := Grants(front);
      if Decision(grants, now).Some? {
        assert (grants + [now])[..|grants|] == grants;
        assert front == [] || front[|front| - 1] <= now;
        assert UpTo(grants, now);
        if start <= now < start + WINDOW { WindowIsRecent(grants, start, now); }
      }
    }
  }

  lemma {:induction false} RecentIsWindow(grants: seq<Instant>, now: Instant)
    requires UpTo(grants, now)
    ensures Recent(grants, now) == InWindow(grants, now - WINDOW + 1)
  {
    if grants != [] { RecentIsWindow(grants[..|grants| - 1], now); }
  }

  /** A call is refused exactly when three grants lie in the five minutes before it; there are never more. */
  lemma RefusedAtThree(calls: seq<Instant>, now: Instant)
    requires NonDecreasing(calls + [now])
    ensures Recent(Grants(calls), now) <= 3
    ensures Decision(Grants(calls), now).None? <==> Recent(Grants(calls), now) == 3
  {
    assert (calls + [now])[..|calls|] == calls;
    assert forall i | 0 <= i < |calls| :: calls[i] == (calls + [now])[i];
    assert NonDecreasing(calls);
    GrantsOrdered(calls);
    assert calls != [] ==> (calls + [now])[|calls| - 1] <= (calls + [now])[|calls|];
    RecentIsWindow(Grants(calls), now);
    AtMostThreePerWindow(calls, now - WINDOW + 1);
  }

  // ---- The budget in minutes and seconds ----

  /** How many of the times lie in the five minutes up to `now`. */
  ghost function WithinFiveMinutes(times: seq<Instant>, now: Instant): nat {
    |Newer(times, now)|
  }

  ghost function Newer(times: seq<Instant>, now: Instant): set<int> {
    set i | 0 <= i < |times| && now - times[i] < 300_000
  }

  lemma {:induction false} RecentIsWithin(grants: seq<Instant>, now: Instant)
    ensures Recent(grants, now) == WithinFiveMinutes(grants, now)
  {
    if grants == [] {
      assert Newer(grants, now) == {};
    } else {
      var n := |grants| - 1;
      RecentIsWithin(grants[..n], now);
      assert Newer(grants, now) == Newer(grants[..n], now) + if now - grants[n] < 300_000 then {n} else {};
    }
  }

  /** The first restart in five minutes is delayed by one second, the second by two, the third by four, and there is no
      fourth. Exactly the granted ones count. */
  lemma DelaysInOrder(grants: seq<Instant>, now: Instant)
    ensures var k := WithinFiveMinutes(grants, now);
            Decision(grants, now) ==
              if k == 0 then Some(1_000) else if k == 1 then Some(2_000) else if k == 2 then Some(4_000) else None
    ensures GrantsNext(grants, now) == if WithinFiveMinutes(grants, now) < 3 then grants + [now] else grants
  {
    RecentIsWithin(grants, now);
  }

  ghost function FromStart(times: seq<Instant>, start: Instant): set<int> {
    set i | 0 <= i < |times| && start <= times[i] < start + 300_000
  }

  lemma {:induction false} InWindowIs(grants: seq<Instant>, start: Instant)
    ensures InWindow(grants, start) == |FromStart(grants, start)|
  {
    if grants == [] {
      assert FromStart(grants, start) == {};
    } else {
      var n := |grants| - 1;
      InWindowIs(grants[..n], start);
      assert FromStart(grants, start) ==
             FromStart(grants[..n], start) + if start <= grants[n] < start + 300_000 then {n} else {};
    }
  }

  /** No five minutes see more than three restarts, whenever they begin. */
  lemma ThreeInFiveMinutes(calls: seq<Instant>, start: Instant)
    requires NonDecreasing(calls)
    ensures |set i | 0 <= i < |Grants(calls)| && start <= Grants(calls)[i] < start + 300_000| <= 3
  {
    AtMostThreePerWindow(calls, start);
    InWindowIs(Grants(calls), start);
    assert FromStart(Grants(calls), start) ==
           set i | 0 <= i < |Grants(calls)| && start <= Grants(calls)[i] < start + 300_000;
  }

  // ---- The deque ----

  /** The deque holds the grants that were recent at the last call: nothing dropped can become recent again. */
  ghost predicate Remembers(attempts: seq<Instant>, grants: seq<Instant>, last: Instant) {
    && |attempts| <= |grants| && attempts == grants[|grants| - |attempts|..]
    && NonDecreasing(grants)
    && UpTo(grants, last)
    && (forall i | 0 <= i < |grants| - |attempts| :: last - grants[i] >= WINDOW)
  }

  lemma {:induction false} RecentCount(grants: seq<Instant>, now: Instant, old_: nat)
    requires old_ <= |grants|
    requires forall i | 0 <= i < old_ :: now - grants[i] >= WINDOW
    requires forall i | old_ <= i < |grants| :: now - grants[i] < WINDOW
    ensures Recent(grants, now) == |grants| - old_
  {
    if grants != [] {
      var front := grants[..|grants| - 1];
      RecentCount(front, now, if old_ == |grants| then old_ - 1 else old_);
    }
  }

  lemma RemembersLater(attempts: seq<Instant>, grants: seq<Instant>, last: Instant, now: Instant)
    requires Remembers(attempts, grants, last) && last <= now
    ensures Remembers(attempts, grants, now)
  {
  }

  lemma DropOne(attempts: seq<Instant>, grants: seq<Instant>, now: Instant)
    requires Remembers(attempts, grants, now) && attempts != [] && now - attempts[0] >= WINDOW
    ensures Remembers(attempts[1..], grants, now)
  {
    assert attempts[0] == grants[|grants| - |attempts|];
  }

  lemma RestAreRecent(attempts: seq<Instant>, grants: seq<Instant>, now: Instant)
    requires Remembers(attempts, grants, now) && (attempts != [] ==> now - attempts[0] < WINDOW)
    ensures Recent(grants, now) == |attempts|
  {
    hide Recent;
    assert attempts != [] ==> attempts[0] == grants[|grants| - |attempts|];
    RecentCount(grants, now, |grants| - |attempts|);
  }

  lemma RememberNow(attempts: seq<Instant>, grants: seq<Instant>, now: Instant)
    requires Remembers(attempts, grants, now)
    ensures Remembers(attempts + [now], grants + [now], now)
  {
  }

  class RestartBudget {
    var attempts: seq<Instant>
    ghost var grants: seq<Instant>
    ghost var last: Instant

    ghost predicate Valid()
      reads this
    {
      Remembers(attempts, grants, last)
    }

    constructor (start: Instant)
      ensures Valid() && grants == [] && last == start
    {
      attempts, grants, last := [], [], start;
    }

    /** A call is refused exactly when three grants lie in the preceding window; otherwise the delay is the one for
        the number of grants there. */
    method Plan(now: Instant) returns (delay: Option<int>)
      requires Valid() && last <= now
      modifies this
      ensures Valid() && last == now
      ensures delay == Decision(old(grants), now) && grants == GrantsNext(old(grants), now)
      ensures var k := WithinFiveMinutes(old(grants), now);
              delay == if k == 0 then Some(1_000) else if k == 1 then Some(2_000) else if k == 2 then Some(4_000)
                       else None
    {
      hide Remembers, Recent, WithinFiveMinutes;
      DelaysInOrder(grants, now);
      RemembersLater(attempts, grants, last, now);
      last := now;
      while attempts != [] && now - attempts[0] >= WINDOW
        invariant Valid() && grants == old(grants) && last == now
        decreases |attempts|
      {
        DropOne(attempts, grants, now);
        attempts := attempts[1..];
      }
      RestAreRecent(attempts, grants, now);
      if |attempts| >= |DELAYS| { return None; }
      delay := Some(DELAYS[|attempts|]);
      RememberNow(attempts, grants, now);
      attempts := attempts + [now];
      grants := grants + [now];
    }
  }

  // ---- Scheduling ----

  datatype AutoRestartPlan = Retry(delay: int) | Exhausted | Cancelled

  datatype Event = Planned(plan: AutoRestartPlan) | Finished | Stopping(on: bool)

  predicate IsRetry(e: Event) {
    e.Planned? && e.plan.Retry?
  }

  /** After the last retry in the log, has it finished? */
  function Pending(log: seq<Event>): bool {
    if log == [] then false
    else
      var e := log[|log| - 1];
      if IsRetry(e) then true else if e.Finished? then false else Pending(log[..|log| - 1])
  }

  /** No retry is planned while another one is pending. */
  ghost predicate OneAtATime(log: seq<Event>) {
    forall p | 0 <= p < |log| && IsRetry(log[p]) :: !Pending(log[..p])
  }

  lemma LogMore(log: seq<Event>, e: Event)
    requires OneAtATime(log) && (IsRetry(e) ==> !Pending(log))
    ensures OneAtATime(log + [e])
    ensures Pending(log + [e]) == if IsRetry(e) then true else if e.Finished? then false else Pending(log)
  {
    hide Pending;
    var more := log + [e];
    assert more[..|log|] == log;
    forall p | 0 <= p < |more| && IsRetry(more[p]) ensures !Pending(more[..p]) {
      if p < |log| { assert more[..p] == log[..p]; }
    }
    PendingNext(log, e);
  }

  lemma PendingNext(log: seq<Event>, e: Event)
    ensures Pending(log + [e]) == if IsRetry(e) then true else if e.Finished? then false else Pending(log)
  {
    assert (log + [e])[..|log|] == log;
  }

  class ManagedRuntimeState {
    const budget: RestartBudget
    var stopping: bool
    var restartScheduled: bool
    ghost var log: seq<Event>

    ghost predicate Valid()
      reads this, budget
    {
      budget.Valid() && OneAtATime(log) && (restartScheduled <==> Pending(log))
    }

    constructor (start: Instant)
      ensures Valid() && fresh(budget) && !stopping && !restartScheduled && budget.grants == []
              && budget.last == start && log == []
    {
      budget := new RestartBudget(start);
      stopping, restartScheduled, log := false, false, [];
    }

    /** A planned restart goes ahead only while it is pending and nothing is stopping. */
    predicate AutoRestartIsAllowed()
      reads this
    {
      restartScheduled && !stopping
    }

    /** `plan_auto_restart`: nothing is planned, and no grant used up, while stopping or while a restart is pending. */
    method PlanAutoRestart(now: Instant) returns (plan: AutoRestartPlan)
      requires Valid() && budget.last <= now
      modifies this, budget
      ensures Valid() && stopping == old(stopping) && log == old(log) + [Planned(plan)]
      ensures plan.Cancelled? <==> old(stopping || restartScheduled)
      ensures plan.Cancelled? ==> restartScheduled == old(restartScheduled) && budget.grants == old(budget.grants)
      ensures !plan.Cancelled? ==>
                && budget.last == now && budget.grants == GrantsNext(old(budget.grants), now)
                && plan == (match Decision(old(budget.grants),
                                           now) case Some(delay) => Retry(delay) case None => Exhausted)
                && restartScheduled == plan.Retry?
      ensures plan.Retry? ==> AutoRestartIsAllowed()
    {
      hide Decision, GrantsNext, Remembers;
      if stopping || restartScheduled {
        plan := Cancelled;
      } else {
        restartScheduled := true;
        var delay := budget.Plan(now);
        if delay.Some? {
          plan := Retry(delay.value);
        } else {
          restartScheduled := false;
          plan := Exhausted;
        }
      }
      LogMore(log, Planned(plan));
      log := log + [Planned(plan)];
    }

    method FinishAutoRestart()
      requires Valid()
      modifies this
      ensures Valid() && stopping == old(stopping) && !restartScheduled && log == old(log) + [Finished]
      ensures !AutoRestartIsAllowed()
    {
      LogMore(log, Finished);
      restartScheduled := false;
      log := log + [Finished];
    }

    method SetStopping(on: bool)
      requires Valid()
      modifies this
      ensures Valid() && stopping == on && restartScheduled == old(restartScheduled) && log == old(log) + [Stopping(on)]
      ensures AutoRestartIsAllowed() <==> !on && Pending(old(log))
    {
      LogMore(log, Stopping(on));
      stopping := on;
      log := log + [Stopping(on)];
    }
  }
}
