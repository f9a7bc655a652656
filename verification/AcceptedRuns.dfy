/** From its delivery, a command can always be accepted, under whatever message id its send returns. */
module AcceptedRuns {
  import opened Wrappers
  import opened Protocol
  import opened Records
  import opened JournalStore
  import opened JournalCalls
  import opened Connector
  import opened ConnectorBase
  import opened SendBound
  import opened SendContinuations
  import opened Executions
  import Bindings
  import CallMeanings
  import FlushProgress
  import SendOutlook

  predicate AcceptedUnder(site: Site, s: System, id: string, m: string) {
    IsIn(site, s, id, StateAccepted) && RecordOf(site, s, id).messageId == Some(m)
  }

  /** Some run that goes on from `t` accepts the command under `m`. */
  ghost predicate CanAccept(site: Site, t: seq<System>, id: string, m: string) {
    exists r :: AcceptedLater(site, t, r, id, m)
  }

  ghost predicate AcceptedLater(site: Site, t: seq<System>, r: seq<System>, id: string, m: string) {
    |t| > 0 && Run(site, r) && t <= r && AcceptedUnder(site, Last(r), id, m)
  }

  lemma AcceptFirst(site: Site, t: seq<System>, u: System, id: string, m: string)
    requires |t| > 0 && CanAccept(site, t + [u], id, m)
    ensures CanAccept(site, t, id, m)
  {
    hide Run, AcceptedUnder;
    var r :| AcceptedLater(site, t + [u], r, id, m);
    assert t <= r by { assert r[..|t|] == (t + [u])[..|t|]; }
    assert AcceptedLater(site, t, r, id, m);
  }

  /** A running execution of a command whose record is in this state. */
  ghost predicate Under(site: Site, s: System, id: string, stage: Stage, state: State) {
    && s.up && IsIn(site, s, id, state) && InStage(s, id, stage) && s.active[id].command == site.catalog(id)
  }

  // ---- The steps of the execution ----

  lemma FreeStep(site: Site, t: seq<System>, id: string, action: Action, stage: Stage, next: Stage, state: State)
    returns (u: System)
    requires |t| > 0 && Run(site, t) && Under(site, Last(t), id, stage, state)
    requires Executes(action) && action.id == id && Enabled(site, Last(t), action)
    requires CallOf(site, Last(t), action).None? && StageNext(Last(t), action, false) == Some(next)
    ensures Run(site, t + [u]) && Under(site, u, id, next, state) && u.clock == Last(t).clock
  {
    u := Next(site, Last(t), action, Last(t).node, false);
    ExecuteStep(site, Last(t), action, id, next);
    hide Run, Step, Next, Enabled, StageNext, CallOf, Executes, IsStored;
    Prolong(site, t, u);
  }

  /** The step of a journal call that does not throw. */
  lemma CallStep(site: Site, t: seq<System>, id: string, action: Action, stage: Stage, next: Stage, state: State,
                 node: Node, error: Option<Error>) returns (u: System)
    requires |t| > 0 && Run(site, t) && ValidSite(site) && Under(site, Last(t), id, stage, state)
    requires Executes(action) && action.id == id && Enabled(site, Last(t), action) && !action.Crash?
    requires CallOf(site, Last(t), action).Some? && OnOne(CallOf(site, Last(t), action).value)
             && CallOf(site, Last(t), action).value.id == id
    requires Returns(site.cfg, Last(t).node, CallOf(site, Last(t), action).value, node, error)
    requires StageNext(Last(t), action, error.Some?) == Some(next)
    ensures Run(site, t + [u]) && u.up && u.clock == Last(t).clock && IsStored(site, u.node.disk, id)
    ensures InStage(u, id, next) && u.active[id].command == site.catalog(id)
    ensures Target(RecordOf(site, Last(t), id), RecordOf(site, u, id), CallOf(site, Last(t), action).value, error)
  {
    var s := Last(t);
    u := Next(site, s, action, node, error.Some?);
    ActiveAfter(site, s, action, node, error.Some?, id);
    CommandStays(site, s, action, node, error.Some?, id);
    RunBase(site, t, |t| - 1);
    assert Completes(site, s, action, error, u) by {
      hide *;
      FlushProgress.NextCompletes(site, s, action, node, error);
    }
    hide Run, Next, Enabled, StageNext, CallOf, Executes, IsStored, Base, ValidSite, OnOne, Returns, Target;
    StepTarget(site, s, action, error, u, id);
    CompletesIsStep(site, s, action, error, u);
    hide Completes, Step;
    Prolong(site, t, u);
  }

  lemma CompletesIsStep(site: Site, s: System, action: Action, error: Option<Error>, t: System)
    requires Completes(site, s, action, error, t)
    ensures Step(site, s, t)
  {
    hide Completes;
  }

  lemma CommandStays(site: Site, s: System, action: Action, node: Node, threw: bool, id: string)
    requires Executes(action) && action.id == id && id in s.active
    ensures var u := Next(site, s, action, node, threw);
            u.clock == s.clock && (s.up ==> u.up) && (id in u.active ==> u.active[id].command == s.active[id].command)
  {
    hide StageNext, FlushesNext, ResumableNext, AnswersNext, InboxNext, StaleResume, RemovedBetween;
  }

  lemma FromAccepting(site: Site, t: seq<System>, id: string, m: string)
    requires |t| > 0 && Run(site, t) && ValidSite(site) && m != ""
             && Under(site, Last(t), id, Accepting(m), StateStarted)
    ensures CanAccept(site, t, id, m)
  {
    var s := Last(t);
    var o := AcceptOutcome(s.node, id, m, s.clock);
    var error := ErrorOf(o.reply);
    AcceptAt(site, s, id, m, error.Some?);
    AcceptReturned(site, s, id, m);
    hide Run, ValidSite, AcceptOutcome, IsStored, Enabled, StageNext, CallOf, Returns, Target;
    var u := CallStep(site, t, id, Accept(id), Accepting(m), if error.Some? then Undecided(AMBIGUOUS) else Finishing,
                      StateStarted, o.node, error);
    TargetIsState(RecordOf(site, s, id), RecordOf(site, u, id), Call.MarkAccepted(id, m, s.clock), error);
    assert AcceptedLater(site, t, t + [u], id, m);
  }

  lemma AcceptAt(site: Site, s: System, id: string, m: string, threw: bool)
    requires s.up && InStage(s, id, Accepting(m))
    ensures Enabled(site, s, Accept(id)) && CallOf(site, s, Accept(id)) == Some(Call.MarkAccepted(id, m, s.clock))
    ensures StageNext(s, Accept(id), threw) == Some(if threw then Undecided(AMBIGUOUS) else Finishing)
    ensures OnOne(Call.MarkAccepted(id, m, s.clock))
  {
  }

  lemma AcceptReturned(site: Site, s: System, id: string, m: string)
    ensures var o := AcceptOutcome(s.node, id, m, s.clock);
            Returns(site.cfg, s.node, Call.MarkAccepted(id, m, s.clock), o.node, ErrorOf(o.reply))
  {
    hide AcceptOutcome;
  }

  lemma FromSend(site: Site, t: seq<System>, id: string, m: string)
    requires |t| > 0 && Run(site, t) && ValidSite(site) && m != ""
             && Under(site, Last(t), id, Sending, StateStarted)
    ensures CanAccept(site, t, id, m)
  {
    hide Run, ValidSite, CanAccept, IsStored;
    var u := FreeStep(site, t, id, Send(id), Sending, Waiting, StateStarted);
    var v := FreeStep(site, t + [u], id, Result(id, Some(m), false), Waiting, Accepting(m), StateStarted);
    FromAccepting(site, t + [u] + [v], id, m);
    AcceptFirst(site, t + [u], v, id, m);
    AcceptFirst(site, t, u, id, m);
  }

  lemma StartsUnder(site: Site, t: seq<System>, id: string) returns (u: System)
    requires |t| > 0 && Run(site, t) && ValidSite(site) && Under(site, Last(t), id, Starting, StateReceived)
    ensures Run(site, t + [u]) && Under(site, u, id, Sending, StateStarted)
  {
    var s := Last(t);
    assert Base(site, s) by { hide *; RunBase(site, t, |t| - 1); }
    hide Run, ValidSite, Base;
    var node := StartReturned(site, s, id);
    StartAt(site, s, id);
    hide IsStored, Returns, Target, Enabled, StageNext, CallOf;
    u := CallStep(site, t, id, Action.Start(id), Starting, Sending, StateReceived, node, None);
    TargetIsState(RecordOf(site, s, id), RecordOf(site, u, id), Call.MarkStarted(id, s.clock), None);
  }

  lemma StartAt(site: Site, s: System, id: string)
    requires s.up && InStage(s, id, Starting)
    ensures Enabled(site, s, Action.Start(id)) && StageNext(s, Action.Start(id), false) == Some(Sending)
    ensures CallOf(site, s, Action.Start(id)) == Some(Call.MarkStarted(id, s.clock))
    ensures OnOne(Call.MarkStarted(id, s.clock))
  {
  }

  lemma StartReturned(site: Site, s: System, id: string) returns (node: Node)
    requires ValidSite(site) && Base(site, s) && s.up && IsIn(site, s, id, StateReceived)
    ensures Returns(site.cfg, s.node, Call.MarkStarted(id, s.clock), node, None)
  {
    HomeStored(site, s, id);
    hide ValidSite, Base, TransitionOutcome, CallMeanings.Stored, CallMeanings.Adds, Returns;
    CallMeanings.StartMeans(site.cfg, s.node, Home(site, id), s.clock);
    StartReturnsIs(site.cfg, s.node, id, s.clock);
    node := TransitionOutcome(site.cfg, s.node, id, StartTransition(s.clock)).node;
  }

  lemma FromStart(site: Site, t: seq<System>, id: string, m: string)
    requires |t| > 0 && Run(site, t) && ValidSite(site) && m != ""
             && Under(site, Last(t), id, Starting, StateReceived)
    ensures CanAccept(site, t, id, m)
  {
    hide Run, ValidSite, CanAccept, Under;
    var u := StartsUnder(site, t, id);
    FromSend(site, t + [u], id, m);
    AcceptFirst(site, t, u, id, m);
  }

  /** From the schedule on: the checks pass when the command has not expired and its binding is current, whether it
      sends a text or an image. */
  lemma FromSchedule(site: Site, t: seq<System>, id: string, m: string)
    requires |t| > 0 && Run(site, t) && ValidSite(site) && m != ""
             && Under(site, Last(t), id, Stage.Scheduled, StateReceived)
    requires Last(t).clock < site.catalog(id).expiresAt && IsCurrent(Last(t), site.catalog(id).bindingGeneration)
    ensures CanAccept(site, t, id, m)
  {
    hide Run, ValidSite, CanAccept, IsStored;
    if site.catalog(id).operation.SendImage? {
      var u := FreeStep(site, t, id, Check(id), Stage.Scheduled, Verifying, StateReceived);
      var v := FreeStep(site, t + [u], id, Verify(id, MediaOk), Verifying, Checked, StateReceived);
      FromLastCheck(site, t + [u] + [v], id, m);
      AcceptFirst(site, t + [u], v, id, m);
      AcceptFirst(site, t, u, id, m);
    } else {
      var u := FreeStep(site, t, id, Check(id), Stage.Scheduled, Checked, StateReceived);
      FromLastCheck(site, t + [u], id, m);
      AcceptFirst(site, t, u, id, m);
    }
  }

  lemma FromLastCheck(site: Site, t: seq<System>, id: string, m: string)
    requires |t| > 0 && Run(site, t) && ValidSite(site) && m != ""
             && Under(site, Last(t), id, Checked, StateReceived)
    requires Last(t).clock < site.catalog(id).expiresAt
    ensures CanAccept(site, t, id, m)
  {
    hide Run, ValidSite, CanAccept, IsStored;
    var u := FreeStep(site, t, id, Recheck(id), Checked, Starting, StateReceived);
    FromStart(site, t + [u], id, m);
    AcceptFirst(site, t, u, id, m);
  }

  // ---- From the delivery ----

  /** A connector that can take in a command which it does not know yet. */
  ghost predicate AwaitsDelivery(site: Site, s: System, id: string) {
    && s.up && id !in s.active
    && (forall slot | slot in s.node.disk.records :: slot.id != id)
    && site.catalog(id).sessionId == site.sessionId && site.catalog(id).createdAt <= s.clock
    && IsCurrent(s, site.catalog(id).bindingGeneration)
  }

  /** The call by which the journal takes the command in. */
  function Receipt(site: Site, s: System, id: string): Call
    requires BindingFor(s.bindings, site.catalog(id).bindingGeneration).Some?
  {
    Call.Receive(site.catalog(id), "digest",
                 BindingFor(s.bindings, site.catalog(id).bindingGeneration).value.webhookId, 0.0, 1.0, s.clock)
  }

  lemma TakenIn(site: Site, s: System, id: string) returns (node: Node)
    requires ValidSite(site) && Base(site, s) && AwaitsDelivery(site, s, id)
    requires BindingFor(s.bindings, site.catalog(id).bindingGeneration).Some?
    ensures Returns(site.cfg, s.node, Receipt(site, s, id), node, None)
    ensures Home(site, id) in node.disk.records && node.disk.records[Home(site, id)].state.StateReceived?
    ensures ReceivedState(site, s, Ingress(id, "digest", 0.0, 1.0)) == Some(StateReceived)
  {
    var webhookId := BindingFor(s.bindings, site.catalog(id).bindingGeneration).value.webhookId;
    BaseConsistent(site, s);
    CallMeanings.ReceiveMeans(site.cfg, s.node, site.catalog(id), "digest", webhookId, s.clock, 0.0, 1.0);
    hide Base, ReceiveOutcome, Consistent, IsCurrent, BindingFor;
    node := ReceiveOutcome(site.cfg, s.node, site.catalog(id), "digest", webhookId, s.clock, 0.0, 1.0).node;
  }

  lemma DeliveryEnabled(site: Site, s: System, id: string)
    requires AwaitsDelivery(site, s, id) && BindingFor(s.bindings, site.catalog(id).bindingGeneration).Some?
    ensures Enabled(site, s, Ingress(id, "digest", 0.0, 1.0))
    ensures CallOf(site, s, Ingress(id, "digest", 0.0, 1.0)) == Some(Receipt(site, s, id))
  {
    hide BindingFor, IsCurrent;
  }

  lemma DeliveryNext(site: Site, s: System, id: string, node: Node)
    requires ValidSite(site) && AwaitsDelivery(site, s, id)
    requires CallOf(site, s, Ingress(id, "digest", 0.0, 1.0)).Some?
    requires ReceivedState(site, s, Ingress(id, "digest", 0.0, 1.0)) == Some(StateReceived)
    ensures var u := Next(site, s, Ingress(id, "digest", 0.0, 1.0), node, false);
            && u.up && u.node == node && u.clock == s.clock && u.bindings == s.bindings
            && InStage(u, id, Stage.Scheduled) && u.active[id].command == site.catalog(id)
  {
    hide CallOf, ReceivedState, IsCurrent, FlushesNext, ResumableNext, AnswersNext, InboxNext, StaleResume,
         RemovedBetween;
  }

  /** A delivery of the command is taken in and schedules it. */
  lemma DeliveryStep(site: Site, s: System, id: string) returns (u: System)
    requires ValidSite(site) && Base(site, s) && AwaitsDelivery(site, s, id)
    ensures Step(site, s, u) && Under(site, u, id, Stage.Scheduled, StateReceived)
    ensures u.clock == s.clock && u.bindings == s.bindings
  {
    SendOutlook.CurrentFound(s.bindings, site.catalog(id).bindingGeneration) by { hide Base, ValidSite; }
    var action := Ingress(id, "digest", 0.0, 1.0);
    var node := TakenIn(site, s, id);
    DeliveryEnabled(site, s, id);
    DeliveryNext(site, s, id, node);
    u := Next(site, s, action, node, false);
    assert Step(site, s, u) by {
      hide *;
      FlushProgress.NextCompletes(site, s, action, node, None);
      CompletesIsStep(site, s, action, None, u);
    }
    hide Step, Next, CallOf, Enabled, Returns, Base, ValidSite, AwaitsDelivery, ReceivedState;
  }

  /** From every reachable state in which the connector waits for a command of the current binding that has not expired,
      some run takes it in, sends it and accepts it under whatever message id. */
  lemma DeliveredIsAccepted(site: Site, t: seq<System>, id: string, m: string)
    requires |t| > 0 && ValidSite(site) && Run(site, t) && AwaitsDelivery(site, Last(t), id) && m != ""
    requires Last(t).clock < site.catalog(id).expiresAt
    ensures CanAccept(site, t, id, m)
  {
    RunBase(site, t, |t| - 1);
    assert IsCurrent(Last(t), site.catalog(id).bindingGeneration) by { hide Run, ValidSite, Base, IsCurrent; }
    hide Run, ValidSite, Base, AwaitsDelivery, CanAccept, Step, Under;
    var u := DeliveryStep(site, Last(t), id);
    Prolong(site, t, u);
    SameCurrent(Last(t), u, site.catalog(id).bindingGeneration);
    hide IsCurrent;
    FromSchedule(site, t + [u], id, m);
    AcceptFirst(site, t, u, id, m);
  }

  // ---- From the beginning ----

  function BlankNode(): Node {
    Node(Disk(map[], map[], map[], map[]), map[], 0)
  }

  function Idle(clock: Time, up: bool, bindings: seq<Bindings.Binding>): System {
    System(BlankNode(), clock, up, map[], map[], {}, {}, bindings, [], multiset{}, multiset{}, [], {})
  }

  lemma NothingToRecover(cfg: Config, now: Time)
    ensures Returns(cfg, BlankNode(), Call.Recover(now), BlankNode(), None)
    ensures RecordsAt(BlankNode().disk, JournalStore.InState(BlankNode().disk, StateReceived)) == {}
  {
    var n := BlankNode();
    assert JournalStore.InState(n.disk, StateReceived) == {} && JournalStore.InState(n.disk, StateStarted) == {};
    assert RecoverReturns(n, now, n, Done(Recovery({}, 0)));
  }

  lemma ComesUp(site: Site, clock: Time)
    ensures Step(site, Idle(clock, false, []), Idle(clock, true, []))
  {
    NothingToRecover(site.cfg, clock);
    var s := Idle(clock, false, []);
    NothingRemoved(s.node.disk, s.node.disk);
    hide Returns, JournalStore.InState, RecordsAt, RemovedBetween;
    FlushProgress.NextCompletes(site, s, Restart, s.node, None);
    assert Next(site, s, Restart, s.node, false) == Idle(clock, true, []);
    hide Next, Completes;
    CompletesIsStep(site, s, Restart, None, Idle(clock, true, []));
  }

  lemma BindsOne(b: Bindings.Binding)
    ensures Bindings.Ascending([]) && Bindings.Applies([], [b], [b])
  {
    var m := map[b.generation := b];
    assert Bindings.ByGeneration([]) == map[];
    assert Bindings.Absorb(m, []) == Some(m);
    assert Bindings.Absorb(map[], [b]) == Some(m) by { assert [b][1..] == []; assert map[][b.generation := b] == m; }
    assert Bindings.Mentions([b], b.generation) by { assert [b][0].generation == b.generation; }
    assert |m| == 1;
  }

  lemma BindsCurrent(site: Site, clock: Time, b: Bindings.Binding)
    ensures Step(site, Idle(clock, true, []), Idle(clock, true, [b]))
    ensures IsCurrent(Idle(clock, true, [b]), b.generation)
  {
    var s, action := Idle(clock, true, []), Rebind([b], [b]);
    BindsOne(b);
    NothingRemoved(s.node.disk, s.node.disk);
    hide Bindings.Applies, Bindings.Ascending, RemovedBetween;
    FlushProgress.NextCompletes(site, s, action, s.node, None);
    assert Next(site, s, action, s.node, false) == Idle(clock, true, [b]);
    hide Next, Completes;
    CompletesIsStep(site, s, action, None, Idle(clock, true, [b]));
  }

  /** For every site, every command of its session and every message id there is a run, from an empty store, that ends
      with the command accepted under that message id. */
  lemma EveryMessageIdIsAccepted(site: Site, id: string, m: string)
    requires ValidSite(site) && site.catalog(id).sessionId == site.sessionId && m != ""
    ensures exists r :: Run(site, r) && AcceptedUnder(site, Last(r), id, m)
  {
    var command := site.catalog(id);
    var b := Bindings.Binding(site.sessionId, "connector", "hook", command.bindingGeneration, Some(0));
    var clock := command.createdAt;
    var first, second, third := Idle(clock, false, []), Idle(clock, true, []), Idle(clock, true, [b]);
    assert Run(site, [first]);
    ComesUp(site, clock);
    BindsCurrent(site, clock, b);
    Awaits(site, clock, b, id);
    assert command.createdAt < command.expiresAt;
    hide Run, Step, ValidSite, Idle, AcceptedUnder, AwaitsDelivery, IsCurrent;
    Prolong(site, [first], second);
    Prolong(site, [first] + [second], third);
    var t := [first] + [second] + [third];
    assert Last(t) == third && third.clock == clock by { IdleClock(clock, b); }
    DeliveredIsAccepted(site, t, id, m);
    var r :| AcceptedLater(site, t, r, id, m);
  }

  lemma IdleClock(clock: Time, b: Bindings.Binding)
    ensures Idle(clock, true, [b]).clock == clock
  {
  }

  lemma Awaits(site: Site, clock: Time, b: Bindings.Binding, id: string)
    requires site.catalog(id).sessionId == site.sessionId && site.catalog(id).createdAt <= clock
    requires b.generation == site.catalog(id).bindingGeneration
    ensures AwaitsDelivery(site, Idle(clock, true, [b]), id)
  {
  }
}
