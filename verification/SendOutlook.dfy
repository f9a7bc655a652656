/** Exactly when a command whose record has left RECEIVED can still be sent at all. */
module SendOutlook {
  import opened Wrappers
  import opened Records
  import opened JournalStore
  import opened JournalCalls
  import opened Connector
  import opened ConnectorBase
  import opened SendBound
  import opened SendContinuations
  import Bindings

  /** Some run that goes on from `t` sends the command once more. */
  ghost predicate CanStillBeSent(site: Site, t: seq<System>, id: string) {
    exists r :: SentMore(site, t, id, r)
  }

  ghost predicate SentMore(site: Site, t: seq<System>, id: string, r: seq<System>) {
    |t| > 0 && Run(site, r) && t <= r && Last(r).sends[id] > Last(t).sends[id]
  }

  /** Recovery left a snapshot that was not restarted yet, of an unexpired command of the current binding. */
  ghost predicate WaitsToResume(site: Site, s: System, id: string) {
    HasSnapshot(s, id) && MayStart(site, s, id)
  }

  // ---- A pending snapshot of a command that left RECEIVED has no binding to wait for ----

  predicate Reached(site: Site, s: System, id: string) {
    NotAfterCurrent(s.bindings, site.catalog(id).bindingGeneration)
  }

  /** The binding of whatever is being answered has arrived, and so has that of every snapshot whose record has left
      RECEIVED since recovery. */
  ghost predicate BindingsReached(site: Site, s: System) {
    && (forall answer | answer in s.answers :: Reached(site, s, answer.id))
    && (forall id | HasLeft(site, s.node.disk, id) && HasSnapshot(s, id) :: Reached(site, s, id))
    && (!s.up ==> s.resumable == {} && s.answers == {})
  }

  lemma ReachedNext(site: Site, s: System, action: Action, error: Option<Error>, t: System, id: string)
    requires BindingsAhead(s) && Completes(site, s, action, error, t) && Reached(site, s, id)
    ensures Reached(site, t, id) && (IsCurrent(t, site.catalog(id).bindingGeneration) ==>
                                       IsCurrent(s, site.catalog(id).bindingGeneration))
  {
    hide BindingsAhead, Completes, NotAfterCurrent, IsCurrent;
    BindingsNext(site, s, action, error, t);
  }

  lemma AnswersReached(site: Site, s: System, action: Action, answer: Answer)
    requires BindingsAhead(s) && Enabled(site, s, action) && answer in AnswersNext(site, s, action)
    ensures answer in s.answers || Reached(site, s, answer.id)
  {
    hide ReceivedState, CallOf, NotAfterCurrent, BindingFor, IsCurrent, BindingsAhead;
    if action.Ingress? { FoundAhead(s, site.catalog(action.id).bindingGeneration); }
  }

  /** A record leaves RECEIVED by a call for its command. */
  lemma LeftByTransition(site: Site, s: System, call: Call, x: Disk, next: nat, id: string)
    requires ValidSite(site) && Base(site, s) && Kept(site.cfg, s.node, call, x, next)
    requires HasLeft(site, x, id) && !HasLeft(site, s.node.disk, id)
    ensures (call.MarkStarted? || call.MarkRejected? || call.MarkIndeterminate?) && call.id == id
    ensures IsReceived(site, s.node.disk, id)
  {
    var d, slot := s.node.disk, HomeOf(site.cfg, site.catalog(id));
    hide ValidRecord, HasMessage, DrawnBefore, Timely, Expired, OwnCommands, Consistent, Extends;
    if slot in d.records {
      assert Evolves(d.records[slot], x.records[slot], call);
      assert d.records[slot].command == site.catalog(id);
    }
  }

  /** The calls that end RECEIVED are made for answers and for running executions. */
  lemma TransitionsReached(site: Site, s: System, action: Action, call: Call)
    requires Base(site, s) && BindingsAhead(s) && BindingsReached(site, s)
    requires Enabled(site, s, action) && CallOf(site, s, action) == Some(call)
    requires call.MarkStarted? || call.MarkRejected? || call.MarkIndeterminate?
    ensures Reached(site, s, call.id)
  {
    hide Sound, Indexed, Catalogued, NotAfterCurrent, BindingFor, Retainable, HasLeft, HasSnapshot;
    if action.Respond? {
      assert action.answer.id == call.id;
    } else {
      assert call.id in s.active && s.active[call.id].command == site.catalog(call.id);
    }
  }

  lemma LeftReached(site: Site, s: System, id: string)
    requires BindingsReached(site, s) && HasLeft(site, s.node.disk, id) && HasSnapshot(s, id)
    ensures Reached(site, s, id)
  {
    hide HasLeft, HasSnapshot, Reached;
  }

  /** Recovery takes no snapshot of a record that has left RECEIVED. */
  lemma SnapshotStays(site: Site, s: System, action: Action, error: Option<Error>, t: System, id: string)
    requires ValidSite(site) && Base(site, s) && Completes(site, s, action, error, t)
    requires HasLeft(site, s.node.disk, id) && HasSnapshot(t, id)
    ensures HasSnapshot(s, id)
  {
    RecoveredSnapshots(site, s, id);
    hide Base, Enabled, CallOf, Returns, ActiveNext, FlushesNext, AnswersNext, InboxNext, StaleResume, RemovedBetween,
         InState, RecordsAt, IsReceived, IsStored, ValidSite;
  }

  lemma NewlyLeft(site: Site, s: System, action: Action, error: Option<Error>, t: System, id: string)
    returns (call: Call)
    requires ValidSite(site) && Base(site, s) && Completes(site, s, action, error, t)
    requires HasLeft(site, t.node.disk, id) && !HasLeft(site, s.node.disk, id)
    ensures Enabled(site, s, action) && CallOf(site, s, action) == Some(call)
    ensures (call.MarkStarted? || call.MarkRejected? || call.MarkIndeterminate?) && call.id == id
  {
    hide *;
    ClockMoves(site, s, action, error, t);
    CompletesCall(site, s, action, error, t);
    call := CallOf(site, s, action).value;
    CallReady(site, s, action, call);
    ReturnKeeps(site.cfg, s.node, call, t.node, error, s.clock);
    LeftByTransition(site, s, call, t.node.disk, t.node.next, id);
  }

  lemma SnapshotReached(site: Site, s: System, action: Action, error: Option<Error>, t: System, id: string)
    requires ValidSite(site) && Base(site, s) && BindingsAhead(s) && BindingsReached(site, s)
    requires Completes(site, s, action, error, t) && HasLeft(site, t.node.disk, id) && HasSnapshot(t, id)
    ensures Reached(site, s, id)
  {
    hide *;
    if HasLeft(site, s.node.disk, id) {
      SnapshotStays(site, s, action, error, t, id);
      LeftReached(site, s, id);
    } else {
      var call := NewlyLeft(site, s, action, error, t, id);
      TransitionsReached(site, s, action, call);
    }
  }

  lemma DownNext(site: Site, s: System, action: Action, error: Option<Error>, t: System)
    requires BindingsReached(site, s) && Completes(site, s, action, error, t) && !t.up
    ensures t.resumable == {} && t.answers == {}
  {
    hide HasLeft, HasSnapshot, Reached, Returns, ActiveNext, FlushesNext, InboxNext, StaleResume, RemovedBetween,
         InState, RecordsAt;
  }

  lemma CompletesReached(site: Site, s: System, action: Action, error: Option<Error>, t: System)
    requires ValidSite(site) && Base(site, s) && BindingsAhead(s) && BindingsReached(site, s)
    requires Completes(site, s, action, error, t)
    ensures BindingsReached(site, t)
  {
    hide HasLeft, HasSnapshot, Reached, Completes, Base, BindingsAhead, ValidSite, Next, Enabled, AnswersNext;
    ClockMoves(site, s, action, error, t);
    AnswersAre(site, s, action, t.node, error.Some?);
    forall answer | answer in t.answers ensures Reached(site, t, answer.id) {
      AnswersReached(site, s, action, answer);
      ReachedNext(site, s, action, error, t, answer.id);
    }
    forall id | HasLeft(site, t.node.disk, id) && HasSnapshot(t, id) ensures Reached(site, t, id) {
      SnapshotReached(site, s, action, error, t, id);
      ReachedNext(site, s, action, error, t, id);
    }
    if !t.up { DownNext(site, s, action, error, t); }
  }

  lemma AnswersAre(site: Site, s: System, action: Action, node: Node, threw: bool)
    ensures Next(site, s, action, node, threw).answers == AnswersNext(site, s, action)
  {
    hide ActiveNext, FlushesNext, ResumableNext, AnswersNext, InboxNext, StaleResume, RemovedBetween;
  }

  lemma StepReached(site: Site, s: System, t: System)
    requires ValidSite(site) && Base(site, s) && BindingsAhead(s) && BindingsReached(site, s) && Step(site, s, t)
    ensures BindingsReached(site, t)
  {
    hide Completes, Base, ValidSite, BindingsAhead, BindingsReached;
    if action, error :| Completes(site, s, action, error, t) {
      CompletesReached(site, s, action, error, t);
    } else {
      var action :| Dies(site, s, action, t);
      hide Enabled, Interrupted, CallOf, RemovedBetween;
      NothingReached(site, t);
    }
  }

  lemma NothingReached(site: Site, s: System)
    requires s.resumable == {} && s.answers == {}
    ensures BindingsReached(site, s)
  {
    hide HasLeft, Reached;
  }

  lemma {:induction false} RunReached(site: Site, t: seq<System>, i: nat)
    requires ValidSite(site) && Run(site, t) && i < |t|
    ensures BindingsReached(site, t[i])
  {
    hide Base, Step, ValidSite, BindingsAhead, BindingsReached;
    if i > 0 {
      RunReached(site, t, i - 1);
      RunBase(site, t, i - 1);
      RunAhead(site, t, i - 1);
      StepReached(site, t[i - 1], t[i]);
    } else {
      NothingReached(site, t[0]);
    }
  }

  // ---- Nothing sends any more ----

  /** The record has left RECEIVED, or the command has expired, and neither an execution nor a snapshot may send it. */
  ghost predicate Settled(site: Site, s: System, id: string) {
    && (HasLeft(site, s.node.disk, id) || IsExpired(site, s, id))
    && !MaySend(site, s, id) && !WaitsToResume(site, s, id)
  }

  lemma SettledMoves(site: Site, s: System, t: System, id: string)
    requires HomeMove(site, s.node.disk, t.node.disk, id, s.clock) && Settled(site, s, id)
    requires t == s.(node := t.node, clock := t.clock) && s.clock <= t.clock
    ensures Settled(site, t, id)
  {
    MoveKeepsFacts(site, s, t, id);
    hide HasLeft, MaySend, SendingLeft;
  }

  /** What a step adds to the snapshots of a settled command: nothing of the current binding. */
  lemma SnapshotSettled(site: Site, s: System, action: Action, error: Option<Error>, t: System, id: string)
    requires ValidSite(site) && Base(site, s) && BindingsAhead(s) && BindingsReached(site, s) && Settled(site, s, id)
    requires Completes(site, s, action, error, t)
    ensures !WaitsToResume(site, t, id)
    ensures action.Resume? && action.record.command.commandId == id ==> !MayStart(site, t, id)
  {
    hide Base, BindingsAhead, BindingsReached, Completes, HasLeft, MaySend, ValidSite, HasSnapshot, IsCurrent;
    ClockMoves(site, s, action, error, t);
    ResumesSnapshot(site, s, action, error, t);
    if !IsExpired(site, t, id) {
      if HasSnapshot(t, id) { SnapshotStays(site, s, action, error, t, id); }
      if HasSnapshot(s, id) {
        LeftReached(site, s, id);
        ReachedNext(site, s, action, error, t, id);
      }
    }
  }

  lemma ResumesSnapshot(site: Site, s: System, action: Action, error: Option<Error>, t: System)
    requires Completes(site, s, action, error, t)
    ensures action.Resume? ==> HasSnapshot(s, action.record.command.commandId)
  {
    hide Next, Returns, CallOf;
  }

  lemma EffectSettled(site: Site, s: System, action: Action, m: System, t: System, id: string, effect: Effect)
    requires Has(site, s, action, m, t, id, effect) && Settled(site, m, id) && !WaitsToResume(site, t, id)
    requires effect.FromResume? ==> !MayStart(site, t, id)
    ensures Settled(site, t, id) && t.sends[id] == m.sends[id]
  {
    hide MaySend, SendingLeft, IsStored, Touches, WaitsToResume, IsCurrent;
  }

  lemma CompletesSettled(site: Site, s: System, action: Action, error: Option<Error>, t: System, id: string)
    requires ValidSite(site) && Base(site, s) && BindingsAhead(s) && BindingsReached(site, s) && Settled(site, s, id)
    requires Completes(site, s, action, error, t)
    ensures Settled(site, t, id) && t.sends[id] == s.sends[id]
  {
    hide *;
    var m := s.(node := t.node, clock := t.clock);
    CompletesBase(site, s, action, error, t);
    var effect := CompletesHas(site, s, action, error, m, t, id);
    SettledMoves(site, s, m, id);
    SnapshotSettled(site, s, action, error, t, id);
    ResumeEffect(site, s, action, m, t, id, effect);
    EffectSettled(site, s, action, m, t, id, effect);
  }

  lemma DiesSettled(site: Site, s: System, action: Action, t: System, id: string)
    requires ValidSite(site) && Base(site, s) && Settled(site, s, id) && Dies(site, s, action, t)
    ensures Settled(site, t, id) && t.sends[id] == s.sends[id]
  {
    hide Base, IsStored, IsReceived, ValidSite, HomeMove, CallOf, Enabled, Interrupted, RemovedBetween, MayStart,
         Settled;
    DiesBase(site, s, action, t);
    SettledMoves(site, s, s.(node := t.node), id);
    DownSettled(site, s.(node := t.node), t, id);
  }

  lemma DownSettled(site: Site, s: System, t: System, id: string)
    requires Settled(site, s, id) && t.node.disk == s.node.disk && t.clock == s.clock
    requires t.active == map[] && t.resumable == {}
    ensures Settled(site, t, id)
  {
    hide IsStored, IsReceived, IsCurrent;
  }

  lemma StepSettled(site: Site, s: System, t: System, id: string)
    requires ValidSite(site) && Base(site, s) && BindingsAhead(s) && BindingsReached(site, s) && Settled(site, s, id)
    requires Step(site, s, t)
    ensures Settled(site, t, id) && t.sends[id] == s.sends[id]
  {
    hide Completes, Dies, Base, ValidSite, BindingsAhead, BindingsReached, Settled;
    if action, error :| Completes(site, s, action, error, t) {
      CompletesSettled(site, s, action, error, t, id);
    } else {
      var action :| Dies(site, s, action, t);
      DiesSettled(site, s, action, t, id);
    }
  }

  /** Once a command is settled, no run sends it again. */
  lemma {:induction false} SettledForGood(site: Site, t: seq<System>, i: nat, j: nat, id: string)
    requires ValidSite(site) && Run(site, t) && i <= j < |t| && Settled(site, t[i], id)
    ensures Settled(site, t[j], id) && t[j].sends[id] == t[i].sends[id]
    decreases j - i
  {
    hide Base, Step, ValidSite, Settled, BindingsAhead, BindingsReached, Initial;
    if i < j {
      SettledForGood(site, t, i, j - 1, id);
      RunBase(site, t, j - 1);
      RunAhead(site, t, j - 1);
      RunReached(site, t, j - 1);
      StepSettled(site, t[j - 1], t[j], id);
    }
  }

  // ---- Whoever may send can ----

  /** The stages behind the send and behind a refusal. */
  predicate Ending(stage: Stage) {
    stage.Waiting? || stage.Accepting? || stage.Undecided? || stage.Refusing? || stage.Finishing?
  }

  /** How many steps an ending execution has left at most. */
  function Remaining(stage: Stage): nat {
    match stage
    case Waiting => 4
    case Accepting(_) => 3
    case Undecided(code) => if code == AMBIGUOUS then 1 else 2
    case Refusing(_, _) => 1
    case _ => 0
  }

  function EndingAction(id: string, stage: Stage): Action
    requires Ending(stage)
  {
    match stage
    case Waiting => Result(id, None, true)
    case Accepting(_) => Accept(id)
    case Undecided(_) => GiveUp(id)
    case Refusing(_, _) => Refuse(id)
    case Finishing => Finish(id)
  }

  lemma EndingStage(site: Site, s: System, id: string, threw: bool)
    requires s.up && id in s.active && Ending(s.active[id].stage)
    ensures var action := EndingAction(id, s.active[id].stage);
            && Enabled(site, s, action) && Executes(action) && action.id == id && !action.Send?
            && var stage := StageNext(s, action, threw);
               stage.Some? ==> Ending(stage.value) && Remaining(stage.value) < Remaining(s.active[id].stage)
  {
  }

  /** Its journal call, if it makes one, returns or throws. */
  lemma EndingCall(site: Site, s: System, id: string) returns (node: Node, error: Option<Error>)
    requires s.up && id in s.active && Ending(s.active[id].stage)
    ensures var action := EndingAction(id, s.active[id].stage);
            match CallOf(site, s, action)
            case None => node == s.node && error.None?
            case Some(call) => Returns(site.cfg, s.node, call, node, error)
  {
    hide TransitionOutcome, AcceptOutcome;
    match s.active[id].stage
    case Accepting(m) =>
      var o := AcceptOutcome(s.node, id, m, s.clock);
      node, error := o.node, ErrorOf(o.reply);
    case Undecided(code) =>
      var o := TransitionOutcome(site.cfg, s.node, id, IndeterminateTransition(code, s.clock));
      node, error := o.node, ErrorOf(o.reply);
    case Refusing(errorClass, errorCode) =>
      var o := TransitionOutcome(site.cfg, s.node, id, RejectTransition(errorClass, errorCode, s.clock));
      node, error := o.node, ErrorOf(o.reply);
    case _ => node, error := s.node, None;
  }

  ghost predicate Pending(site: Site, s: System, id: string) {
    && s.up && HasLeft(site, s.node.disk, id) && WaitsToResume(site, s, id)
    && (id in s.active ==> Ending(s.active[id].stage))
  }

  lemma EndingCompletes(site: Site, s: System, id: string) returns (node: Node, error: Option<Error>)
    requires s.up && id in s.active && Ending(s.active[id].stage)
    ensures var action := EndingAction(id, s.active[id].stage);
            Completes(site, s, action, error, Next(site, s, action, node, error.Some?))
  {
    var action := EndingAction(id, s.active[id].stage);
    node, error := EndingCall(site, s, id);
    EndingStage(site, s, id, error.Some?);
    hide Enabled, CallOf, Returns, Next, EndingAction, Ending, StageNext, Remaining;
    NodeIs(site, s, action, node, error.Some?);
  }

  lemma EndingStep(site: Site, s: System, id: string) returns (u: System)
    requires ValidSite(site) && Base(site, s) && Pending(site, s, id) && id in s.active
    ensures Step(site, s, u) && Pending(site, u, id) && u.sends[id] == s.sends[id]
    ensures id in u.active ==> Remaining(u.active[id].stage) < Remaining(s.active[id].stage)
  {
    hide ValidSite, Base, HasLeft, WaitsToResume, Completes, Next, StageNext, EndingAction, Ending, Remaining, HomeMove,
         StaleResume;
    var action := EndingAction(id, s.active[id].stage);
    var node, error := EndingCompletes(site, s, id);
    u := Next(site, s, action, node, error.Some?);
    NodeIs(site, s, action, node, error.Some?);
    EndingStage(site, s, id, error.Some?);
    CompletesBase(site, s, action, error, u);
    CountsNext(site, s, action, node, error.Some?, id);
    StaysPending(site, s, action, node, error.Some?, id);
  }

  lemma StaysPending(site: Site, s: System, action: Action, node: Node, threw: bool, id: string)
    requires Pending(site, s, id) && id in s.active && Executes(action) && action.id == id
    requires HomeMove(site, s.node.disk, node.disk, id, s.clock)
    requires StageNext(s, action, threw).Some? ==> Ending(StageNext(s, action, threw).value)
    ensures var u, stage := Next(site, s, action, node, threw), StageNext(s, action, threw);
            && Pending(site, u, id)
            && (id in u.active ==> stage.Some? && u.active[id].stage == stage.value)
  {
    hide StageNext, Ending, FlushesNext, AnswersNext, InboxNext, StaleResume, RemovedBetween, IsStored, IsReceived;
    ReceivedStored(site, node.disk, id);
    ReceivedStored(site, s.node.disk, id);
    SameCurrent(s, Next(site, s, action, node, threw), site.catalog(id).bindingGeneration);
  }

  /** A send that can still come after a step can still come before it. */
  lemma MoreFirst(site: Site, t: seq<System>, u: System, id: string)
    requires |t| > 0 && CanStillBeSent(site, t + [u], id) && u.sends[id] == Last(t).sends[id]
    ensures CanStillBeSent(site, t, id)
  {
    hide Run;
    var r :| SentMore(site, t + [u], id, r);
    assert t <= r by { assert r[..|t|] == (t + [u])[..|t|]; }
    assert SentMore(site, t, id, r);
  }

  lemma SendsMore(site: Site, t: seq<System>, id: string)
    requires CanSend(site, t, id)
    ensures CanStillBeSent(site, t, id)
  {
    hide Run;
    var r :| SendsOn(site, t, id, r);
    assert SentMore(site, t, id, r);
  }

  lemma {:induction false} CurrentFound(list: seq<Bindings.Binding>, generation: int)
    requires Bindings.CurrentOf(list).Some? && Bindings.CurrentOf(list).value.generation == generation
    ensures BindingFor(list, generation).Some?
  {
    if |list| > 1 { CurrentFound(list[1..], generation); }
  }

  lemma SnapshotOf(site: Site, s: System, id: string) returns (record: Record)
    requires OwnCommands(site, s) && HasSnapshot(s, id)
    ensures record in s.resumable && record.command == site.catalog(id) && record.command.commandId == id
  {
    record :| record in s.resumable && record.command.commandId == id;
  }

  lemma ResumeNext(site: Site, s: System, record: Record, id: string)
    requires record in s.resumable && record.command == site.catalog(id) && record.command.commandId == id
    requires s.up && id !in s.active && MayStart(site, s, id)
    ensures var u := Next(site, s, Resume(record), s.node, false);
            u.up && u.node == s.node && u.sends[id] == s.sends[id] && MaySend(site, u, id)
  {
    CountsNext(site, s, Resume(record), s.node, false, id);
    SameCurrent(s, Next(site, s, Resume(record), s.node, false), site.catalog(id).bindingGeneration);
    hide IsCurrent, FlushesNext, AnswersNext, InboxNext, StaleResume, RemovedBetween;
  }

  lemma ResumeStep(site: Site, s: System, id: string) returns (u: System)
    requires OwnCommands(site, s) && Pending(site, s, id) && id !in s.active
    ensures Step(site, s, u) && u.up && u.sends[id] == s.sends[id]
    ensures HasLeft(site, u.node.disk, id) && MaySend(site, u, id)
  {
    var record := SnapshotOf(site, s, id);
    var action := Resume(record);
    ResumeNext(site, s, record, id);
    hide HasLeft, BindingFor, MaySend, OwnCommands, Next;
    CurrentFound(s.bindings, site.catalog(id).bindingGeneration);
    u := Next(site, s, action, s.node, false);
    assert Completes(site, s, action, None, u);
  }

  lemma {:induction false} FromPending(site: Site, t: seq<System>, id: string)
    requires |t| > 0 && ValidSite(site) && Run(site, t) && Pending(site, Last(t), id)
    ensures CanStillBeSent(site, t, id)
    decreases if id in Last(t).active then 1 + Remaining(Last(t).active[id].stage) else 0
  {
    hide Run, Step, ValidSite, Base, HasLeft, CanStillBeSent, CanSend, MaySend, Pending, Remaining, OwnCommands;
    RunBase(site, t, |t| - 1);
    if id in Last(t).active {
      var u := EndingStep(site, Last(t), id);
      Prolong(site, t, u);
      FromPending(site, t + [u], id);
      MoreFirst(site, t, u, id);
    } else {
      OwnFrom(site, Last(t));
      var u := ResumeStep(site, Last(t), id);
      Prolong(site, t, u);
      SendsAfterLeavingIff(site, t + [u], id);
      SendsMore(site, t + [u], id);
      MoreFirst(site, t, u, id);
    }
  }

  lemma UpFor(site: Site, s: System, id: string)
    requires Base(site, s) && BindingsReached(site, s) && (MaySend(site, s, id) || WaitsToResume(site, s, id))
    ensures s.up
  {
    hide Sound, Indexed, Catalogued, OwnCommands, Reached, HasLeft;
  }

  lemma PendingFrom(site: Site, s: System, id: string)
    requires s.up && HasLeft(site, s.node.disk, id) && WaitsToResume(site, s, id) && !MaySend(site, s, id)
    ensures Pending(site, s, id)
  {
    hide HasLeft, HasSnapshot, IsCurrent;
  }

  /** After the record of a command has left RECEIVED, by a rejection for example, the command can still be sent, by
      this process or a later one, exactly when an execution of it is past its last check, or it has not expired, its
      binding is current or checked already, and an execution before its last check or a snapshot that waits to be
      restarted is left. */
  lemma StillSentIff(site: Site, t: seq<System>, id: string)
    requires |t| > 0 && ValidSite(site) && Run(site, t) && HasLeft(site, Last(t).node.disk, id)
    ensures CanStillBeSent(site, t, id) <==> MaySend(site, Last(t), id) || WaitsToResume(site, Last(t), id)
  {
    hide Run, ValidSite, Base, BindingsReached, HasLeft, MaySend, WaitsToResume, CanStillBeSent, CanSend;
    RunBase(site, t, |t| - 1);
    RunReached(site, t, |t| - 1);
    if MaySend(site, Last(t), id) || WaitsToResume(site, Last(t), id) {
      UpFor(site, Last(t), id);
      if MaySend(site, Last(t), id) {
        SendsAfterLeavingIff(site, t, id);
        SendsMore(site, t, id);
      } else {
        PendingFrom(site, Last(t), id);
        FromPending(site, t, id);
      }
    } else {
      NothingMore(site, t, id);
    }
  }

  lemma NothingMore(site: Site, t: seq<System>, id: string)
    requires |t| > 0 && ValidSite(site) && Settled(site, Last(t), id)
    ensures !CanStillBeSent(site, t, id)
  {
    hide Run, ValidSite, Settled;
    forall r ensures !SentMore(site, t, id, r) {
      if Run(site, r) && t <= r {
        assert r[|t| - 1] == Last(t);
        SettledForGood(site, r, |t| - 1, |r| - 1, id);
      }
    }
  }
}
