/** The promise-chain lock under every journal call. Each call of `run` waits for the promise left by the call before
    it and releases its own when its operation settles; the event loop decides which ready continuation goes next. */
module Mutex {
  datatype Stage = Waiting | Running | Settled

  /** One call of `run`: the promise it awaits, the promise it leaves, and how far it is. */
  datatype Entrant = Entrant(previous: nat, own: nat, stage: Stage)

  datatype Event = Started(call: nat) | Ended(call: nat, threw: bool)

  /** `made` counts the promises created so far, `resolved` holds the resolved ones, `log` is what happened. */
  datatype State = State(tail: nat, made: nat, resolved: set<nat>, calls: seq<Entrant>, log: seq<Event>)

  const INITIAL := State(0, 1, {0}, [], [])

  function Enter(s: State): State {
    s.(tail := s.made, made := s.made + 1, calls := s.calls + [Entrant(s.tail, s.made, Waiting)])
  }

  predicate CanBegin(s: State, k: nat) {
    k < |s.calls| && s.calls[k].stage.Waiting? && s.calls[k].previous in s.resolved
  }

  function Begin(s: State, k: nat): State
    requires CanBegin(s, k)
  {
    s.(calls := s.calls[k := s.calls[k].(stage := Running)], log := s.log + [Started(k)])
  }

  predicate CanSettle(s: State, k: nat) {
    k < |s.calls| && s.calls[k].stage.Running?
  }

  function Settle(s: State, k: nat, threw: bool): State
    requires CanSettle(s, k)
  {
    s.(calls := s.calls[k := s.calls[k].(stage := Settled)], resolved := s.resolved + {s.calls[k].own},
       log := s.log + [Ended(k, threw)])
  }

  ghost predicate Step(s: State, t: State) {
    || t == Enter(s)
    || (exists k :: CanBegin(s, k) && t == Begin(s, k))
    || (exists k, threw :: CanSettle(s, k) && t == Settle(s, k, threw))
  }

  ghost predicate Run(t: seq<State>) {
    |t| > 0 && t[0] == INITIAL && forall i | 0 <= i < |t| - 1 :: Step(t[i], t[i + 1])
  }

  // ---- What every step keeps ----

  /** The promises form one chain in call order. */
  ghost predicate Chained(s: State) {
    && s.tail == |s.calls| && s.made == |s.calls| + 1
    && (forall k | 0 <= k < |s.calls| :: s.calls[k].previous == k && s.calls[k].own == k + 1)
    && (forall p :: p in s.resolved <==> p == 0 || (1 <= p <= |s.calls| && s.calls[p - 1].stage.Settled?))
  }

  /** Calls settle in order and at most the first unsettled one runs. */
  ghost predicate Serial(s: State) {
    forall i, j | 0 <= i < j < |s.calls| && !s.calls[j].stage.Waiting? :: s.calls[i].stage.Settled?
  }

  predicate HasEnded(log: seq<Event>, k: nat) {
    exists p | 0 <= p < |log| :: log[p].Ended? && log[p].call == k
  }

  /** The log tells the stages. */
  ghost predicate Logged(s: State) {
    && (forall p | 0 <= p < |s.log| :: s.log[p].call < |s.calls|)
    && (forall k | 0 <= k < |s.calls| :: Started(k) in s.log <==> !s.calls[k].stage.Waiting?)
    && (forall k | 0 <= k < |s.calls| :: HasEnded(s.log, k) <==> s.calls[k].stage.Settled?)
  }

  /** Nothing starts before everything in front of it has ended, or twice. */
  ghost predicate InTurn(log: seq<Event>) {
    forall p | 0 <= p < |log| && log[p].Started? ::
      && Started(log[p].call) !in log[..p]
      && forall i | 0 <= i < log[p].call :: HasEnded(log[..p], i)
  }

  /** Nothing ends that has not started. */
  ghost predicate EndsAfterStart(log: seq<Event>) {
    forall p | 0 <= p < |log| && log[p].Ended? :: Started(log[p].call) in log[..p]
  }

  ghost predicate Kept(s: State) {
    Chained(s) && Serial(s) && Logged(s) && InTurn(s.log) && EndsAfterStart(s.log)
  }

  lemma MoreEnded(log: seq<Event>, e: Event)
    ensures forall k :: HasEnded(log + [e], k) <==> HasEnded(log, k) || (e.Ended? && e.call == k)
  {
    forall k: nat ensures HasEnded(log + [e], k) <==> HasEnded(log, k) || (e.Ended? && e.call == k) {
      if HasEnded(log, k) {
        var p :| 0 <= p < |log| && log[p].Ended? && log[p].call == k;
        assert (log + [e])[p] == log[p];
      }
      if e.Ended? && e.call == k { assert (log + [e])[|log|] == e; }
    }
  }

  lemma MoreInTurn(log: seq<Event>, e: Event)
    requires InTurn(log) && EndsAfterStart(log)
    requires e.Started? ==> e !in log && forall i | 0 <= i < e.call :: HasEnded(log, i)
    requires e.Ended? ==> Started(e.call) in log
    ensures InTurn(log + [e]) && EndsAfterStart(log + [e])
  {
    var after := log + [e];
    assert after[..|log|] == log;
    forall p | 0 <= p < |log| ensures after[..p] == log[..p] {}
  }

  lemma BeginKeeps(s: State, k: nat)
    requires Kept(s) && CanBegin(s, k)
    ensures Kept(Begin(s, k))
  {
    assert k > 0 ==> s.calls[k - 1].stage.Settled?;
    assert Chained(Begin(s, k)) && Serial(Begin(s, k)) by { hide Logged, InTurn, EndsAfterStart; }
    assert !s.calls[k].stage.Running? && forall i | 0 <= i < k :: s.calls[i].stage.Settled?;
    hide Chained, Serial;
    MoreInTurn(s.log, Started(k));
    LoggedMore(s, Begin(s, k), k, Started(k));
  }

  lemma SettleKeeps(s: State, k: nat, threw: bool)
    requires Kept(s) && CanSettle(s, k)
    ensures Kept(Settle(s, k, threw))
  {
    SettleChained(s, k, threw);
    assert Serial(Settle(s, k, threw)) by { hide Logged, InTurn, EndsAfterStart; }
    hide Chained, Serial;
    MoreInTurn(s.log, Ended(k, threw));
    LoggedMore(s, Settle(s, k, threw), k, Ended(k, threw));
  }

  lemma LoggedMore(s: State, t: State, k: nat, e: Event)
    requires Logged(s) && k < |s.calls| && e.call == k && t.log == s.log + [e]
    requires if e.Started? then s.calls[k].stage.Waiting? else s.calls[k].stage.Running?
    requires t.calls == s.calls[k := s.calls[k].(stage := if e.Started? then Running else Settled)]
    ensures Logged(t)
  {
    MoreEnded(s.log, e);
    hide HasEnded;
    forall j | 0 <= j < |t.calls| ensures Started(j) in t.log <==> !t.calls[j].stage.Waiting? {
      assert Started(j) in t.log <==> Started(j) in s.log || Started(j) == e;
    }
  }

  lemma SettleChained(s: State, k: nat, threw: bool)
    requires Chained(s) && CanSettle(s, k)
    ensures Chained(Settle(s, k, threw))
  {
    var t := Settle(s, k, threw);
    forall p ensures p in t.resolved <==> p == 0 || (1 <= p <= |t.calls| && t.calls[p - 1].stage.Settled?) {
      assert p in t.resolved <==> p in s.resolved || p == k + 1;
    }
  }

  lemma EnterKeeps(s: State)
    requires Kept(s)
    ensures Kept(Enter(s))
  {
    hide InTurn, EndsAfterStart;
    assert Started(|s.calls|) !in s.log;
    assert !HasEnded(s.log, |s.calls|);
  }

  lemma {:induction false} RunKeeps(t: seq<State>, i: nat)
    requires Run(t) && i < |t|
    ensures Kept(t[i])
  {
    hide Kept, Enter, Begin, Settle, CanBegin, CanSettle;
    if i == 0 {
      InitialKept();
    } else {
      RunKeeps(t, i - 1);
      StepKeeps(t[i - 1], t[i]);
    }
  }

  lemma InitialKept()
    ensures Kept(INITIAL)
  {
  }

  lemma StepKeeps(s: State, t: State)
    requires Kept(s) && Step(s, t)
    ensures Kept(t)
  {
    hide Kept, Enter, Begin, Settle;
    if k :| CanBegin(s, k) && t == Begin(s, k) {
      BeginKeeps(s, k);
    } else if k, threw :| CanSettle(s, k) && t == Settle(s, k, threw) {
      SettleKeeps(s, k, threw);
    } else {
      EnterKeeps(s);
    }
  }

  // ---- What the lock promises ----

  /** At every moment at most one operation is in progress. */
  lemma AtMostOneRuns(t: seq<State>, n: nat, i: nat, j: nat)
    requires Run(t) && n < |t| && i < |t[n].calls| && j < |t[n].calls|
    requires t[n].calls[i].stage.Running? && t[n].calls[j].stage.Running?
    ensures i == j
  {
    RunKeeps(t, n);
  }

  /** Operations start in call order, each once and only after every earlier one has ended, whether it threw or not. */
  lemma StartsInTurn(t: seq<State>, n: nat, p: nat, i: nat)
    requires Run(t) && n < |t| && p < |t[n].log| && t[n].log[p].Started? && i < t[n].log[p].call
    ensures exists a, b | 0 <= a < b < p ::
              t[n].log[a] == Started(i) && t[n].log[b].Ended? && t[n].log[b].call == i
    ensures forall q | p < q < |t[n].log| && t[n].log[q].Started? :: t[n].log[p].call < t[n].log[q].call
  {
    RunKeeps(t, n);
    var log := t[n].log;
    hide Chained, Serial, Logged;
    assert HasEnded(log[..p], i);
    var b :| 0 <= b < p && log[..p][b].Ended? && log[..p][b].call == i;
    assert Started(i) in log[..b];
    var a :| 0 <= a < b && log[..b][a] == Started(i);
    assert log[a] == Started(i) && log[b].Ended? && log[b].call == i;
    forall q | p < q < |log| && log[q].Started? ensures log[p].call < log[q].call {
      OrderedStarts(log, p, q);
    }
  }

  lemma OrderedStarts(log: seq<Event>, p: nat, q: nat)
    requires InTurn(log) && EndsAfterStart(log) && p < q < |log| && log[p].Started? && log[q].Started?
    ensures log[p].call < log[q].call
  {
    assert log[..q][p] == log[p];
    assert log[..p] == log[..q][..p];
    EndedWereStarted(log, p);
  }

  lemma EndedWereStarted(log: seq<Event>, p: nat)
    requires EndsAfterStart(log) && p <= |log|
    ensures forall i: nat | HasEnded(log[..p], i) :: Started(i) in log[..p]
  {
    forall i: nat | HasEnded(log[..p], i) ensures Started(i) in log[..p] {
      var b :| 0 <= b < p && log[..p][b].Ended? && log[..p][b].call == i;
      assert Started(i) in log[..b];
      assert log[..b] == log[..p][..b];
    }
  }

  /** The lock is never lost: while calls wait and none runs, exactly the first waiting one can begin. */
  lemma NeverStuck(t: seq<State>, n: nat, k: nat)
    requires Run(t) && n < |t| && k < |t[n].calls| && t[n].calls[k].stage.Waiting?
    requires forall i | 0 <= i < k :: !t[n].calls[i].stage.Waiting?
    requires forall i | 0 <= i < |t[n].calls| :: !t[n].calls[i].stage.Running?
    ensures forall j | 0 <= j :: CanBegin(t[n], j) <==> j == k
  {
    RunKeeps(t, n);
  }

  /** The lock itself: `run` up to its first await, the continuation that begins the operation, and its end. */
  class AsyncMutex {
    var tail: nat
    var made: nat
    var resolved: set<nat>
    var calls: seq<Entrant>
    ghost var log: seq<Event>

    ghost function Now(): State
      reads this
    {
      State(tail, made, resolved, calls, log)
    }

    constructor ()
      ensures Now() == INITIAL && Kept(Now())
    {
      tail, made, resolved, calls, log := 0, 1, {0}, [], [];
    }

    method Call() returns (k: nat)
      requires Kept(Now())
      modifies this
      ensures Now() == Enter(old(Now())) && Kept(Now())
      ensures k == |old(calls)| && calls[k].previous == old(tail)
    {
      EnterKeeps(Now());
      k := |calls|;
      var previous := tail;
      tail := made;
      made := made + 1;
      calls := calls + [Entrant(previous, tail, Waiting)];
    }

    method Continue(k: nat)
      requires Kept(Now()) && CanBegin(Now(), k)
      modifies this
      ensures Now() == Begin(old(Now()), k) && Kept(Now())
    {
      BeginKeeps(Now(), k);
      calls := calls[k := calls[k].(stage := Running)];
      log := log + [Started(k)];
    }

    /** The operation returned or threw; `finally` releases either way. */
    method Release(k: nat, threw: bool)
      requires Kept(Now()) && CanSettle(Now(), k)
      modifies this
      ensures Now() == Settle(old(Now()), k, threw) && Kept(Now())
    {
      SettleKeeps(Now(), k, threw);
      resolved := resolved + {calls[k].own};
      calls := calls[k := calls[k].(stage := Settled)];
      log := log + [Ended(k, threw)];
    }
  }
}
