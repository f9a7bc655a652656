/** How often a command can be sent, over every run of the connector. */
module SendBound {
  import opened Wrappers
  import opened Protocol
  import opened Records
  import opened JournalStore
  import opened JournalCalls
  import opened Connector
  import opened ConnectorBase

  predicate BeforeCheck(stage: Stage) {
    stage.Scheduled? || stage.Verifying? || stage.Checked?
  }

  predicate AboutToSend(stage: Stage) {
    stage.Starting? || stage.Sending?
  }

  predicate IsExpired(site: Site, s: System, id: string) {
    site.catalog(id).expiresAt <= s.clock
  }

  /** The record of the command has left RECEIVED and is still there. */
  predicate HasLeft(site: Site, d: Disk, id: string) {
    IsStored(site, d, id) && !IsReceived(site, d, id)
  }

  /** An execution of the command is under way that no check will stop any more, unless the check fails: it is past its
      last check, or it has not expired and, before the first check, its binding is current. */
  predicate MaySend(site: Site, s: System, id: string) {
    id in s.active && MaySendIn(site, s, id, s.active[id].stage)
  }

  predicate MaySendIn(site: Site, s: System, id: string, stage: Stage) {
    || AboutToSend(stage)
    || (!IsExpired(site, s, id) && BeforeCheck(stage)
        && (stage.Scheduled? ==> IsCurrent(s, site.catalog(id).bindingGeneration)))
  }

  /** An execution that is scheduled now would pass its checks. */
  predicate MayStart(site: Site, s: System, id: string) {
    !IsExpired(site, s, id) && IsCurrent(s, site.catalog(id).bindingGeneration)
  }

  /** A send follows a start that returned. */
  predicate SendingLeft(site: Site, s: System, id: string) {
    InStage(s, id, Sending) ==> HasLeft(site, s.node.disk, id) || IsExpired(site, s, id)
  }

  /** For one command: the sends so far, and the one that a missing or RECEIVED record or a running execution may still
      add, stay within `c` plus the stale restarts. */
  ghost predicate Bounded(site: Site, s: System, id: string, c: int) {
    var room := s.sends[id] < c + s.stale[id];
    && s.sends[id] <= c + s.stale[id]
    && (HasLeft(site, s.node.disk, id) || IsExpired(site, s, id) || room)
    && (MaySend(site, s, id) ==> room)
    && SendingLeft(site, s, id)
  }

  /** The disk and the clock move under an unchanged process. */
  lemma MoveKeepsFacts(site: Site, s: System, t: System, id: string)
    requires HomeMove(site, s.node.disk, t.node.disk, id, s.clock)
    requires t == s.(node := t.node, clock := t.clock) && s.clock <= t.clock
    ensures IsExpired(site, s, id) ==> IsExpired(site, t, id)
    ensures HasLeft(site, s.node.disk, id) ==> HasLeft(site, t.node.disk, id) || IsExpired(site, t, id)
    ensures MaySend(site, t, id) ==> MaySend(site, s, id)
    ensures SendingLeft(site, s, id) ==> SendingLeft(site, t, id)
  {
    hide IsStored, IsReceived, IsCurrent;
    ReceivedStored(site, t.node.disk, id);
    ReceivedStored(site, s.node.disk, id);
    SameCurrent(s, t, site.catalog(id).bindingGeneration);
  }

  lemma SameCurrent(s: System, t: System, generation: int)
    requires s.bindings == t.bindings
    ensures IsCurrent(s, generation) == IsCurrent(t, generation)
  {
  }

  lemma MoveKeepsBound(site: Site, s: System, t: System, id: string, c: int)
    requires Bounded(site, s, id, c) && HomeMove(site, s.node.disk, t.node.disk, id, s.clock)
    requires t == s.(node := t.node, clock := t.clock) && s.clock <= t.clock
    ensures Bounded(site, t, id, c)
  {
    MoveKeepsFacts(site, s, t, id);
    hide HasLeft, MaySend, SendingLeft, IsExpired;
  }

  lemma ReceivedStored(site: Site, d: Disk, id: string)
    ensures IsReceived(site, d, id) ==> IsStored(site, d, id)
  {
  }

  /** After a start that did not throw, the record has left RECEIVED. */
  lemma StartLeavesReceived(site: Site, s: System, id: string, now: Time)
    requires ValidSite(site) && Sound(site.cfg, s.node.disk, s.node.next, s.clock) && Catalogued(site, s.node.disk)
    requires TransitionOutcome(site.cfg, s.node, id, StartTransition(now)).reply.Done?
    ensures var d := TransitionOutcome(site.cfg, s.node, id, StartTransition(now)).node.disk;
            IsStored(site, d, id) && !IsReceived(site, d, id)
  {
    FoundAtHome(site, s, id);
    hide Sound, Catalogued, ValidSite, Locate, ValidRecord, TransitionOutcome, DrawnBefore, HomeOf;
    var slot := HomeOf(site.cfg, site.catalog(id));
    FoundOrNot(site.cfg, s.node, id, now);
    StartedAt(site.cfg, s.node, id, slot, now);
  }

  lemma FoundOrNot(cfg: Config, n: Node, id: string, now: Time)
    ensures Locate(n.disk, id).Failed? ==> TransitionOutcome(cfg, n, id, StartTransition(now)).reply.Failed?
  {
    hide Locate;
  }

  lemma StartedAt(cfg: Config, n: Node, id: string, slot: Slot, now: Time)
    requires Locate(n.disk, id) == Done(slot) && slot in n.disk.records
    requires ValidRecord(n.disk.records[slot]) && DrawnBefore(n.disk.records[slot], n.next)
    requires TransitionOutcome(cfg, n, id, StartTransition(now)).reply.Done?
    ensures var x := TransitionOutcome(cfg, n, id, StartTransition(now)).node.disk;
            slot in x.records && !x.records[slot].state.StateReceived?
  {
    if n.disk.records[slot].state.StateReceived? { StartsRecord(n.disk.records[slot], now, n.next); }
    hide Locate, AppendEvidence, RaceFor, ValidRecord, DrawnBefore;
  }

  lemma FoundAtHome(site: Site, s: System, id: string)
    requires ValidSite(site) && Sound(site.cfg, s.node.disk, s.node.next, s.clock) && Catalogued(site, s.node.disk)
    ensures Locate(s.node.disk, id).Done? ==>
              && Locate(s.node.disk, id).value == HomeOf(site.cfg, site.catalog(id))
              && Locate(s.node.disk, id).value in s.node.disk.records
              && ValidRecord(s.node.disk.records[Locate(s.node.disk, id).value])
              && DrawnBefore(s.node.disk.records[Locate(s.node.disk, id).value], s.node.next)
  {
    hide ValidRecord, Timely, DrawnBefore, HasMessage, Locate;
    StoredFacts(site.cfg, s.node.disk, id, s.node.next, s.clock);
  }

  lemma StartsRecord(r: Record, now: Time, eventId: nat)
    requires ValidRecord(r) && DrawnBefore(r, eventId) && r.state.StateReceived?
    ensures AppendEvidence(r, StartTransition(now), eventId).state.StateStarted?
  {
    TransitionGrows(r, StartTransition(now), eventId);
    hide ValidRecord, AppendEvidence, DrawnBefore, Grown, Extends;
  }

  /** An ingress that schedules has found the record in RECEIVED. */
  lemma IngressFindsReceived(site: Site, s: System, action: Action, node: Node, error: Option<Error>)
    requires ValidSite(site) && Base(site, s) && Enabled(site, s, action) && action.Ingress?
             && CallOf(site, s, action).Some?
    requires Returns(site.cfg, s.node, CallOf(site, s, action).value, node, error)
    requires ReceivedState(site, s, action) == Some(StateReceived)
    ensures IsReceived(site, node.disk, action.id)
  {
    hide ValidRecord, Timely, DrawnBefore, HasMessage, OwnCommands;
  }

  lemma StartReturns(site: Site, s: System, action: Action, error: Option<Error>, t: System)
    requires ValidSite(site) && Base(site, s) && Completes(site, s, action, error, t) && action.Start? && error.None?
    ensures HasLeft(site, t.node.disk, action.id)
  {
    hide Sound, Catalogued, Indexed, OwnCommands, ValidSite, Next, TransitionOutcome, IsStored, IsReceived;
    StartLeavesReceived(site, s, action.id, s.clock);
  }

  /** The command whose execution or restart count a step touches. */
  predicate Touches(site: Site, s: System, action: Action, id: string) {
    || (Executes(action) && action.id == id)
    || (Scheduling(site, s, action).Some? && Scheduling(site, s, action).value.commandId == id)
  }

  lemma CountsNext(site: Site, s: System, action: Action, node: Node, threw: bool, id: string)
    ensures var t := Next(site, s, action, node, threw);
            && t.sends[id] == s.sends[id] + (if action == Send(id) then 1 else 0)
            && t.stale[id] == s.stale[id] + (if StaleResume(site, s, action)
                                             && action.record.command.commandId == id then 1 else 0)
  {
    hide RemovedBetween, FlushesNext, AnswersNext, ResumableNext, InboxNext, ActiveNext, StaleResume;
  }

  lemma UntouchedNext(site: Site, s: System, action: Action, threw: bool, id: string)
    requires !Touches(site, s, action, id)
    ensures id in ActiveNext(site, s, action, threw) <==> id in s.active
    ensures id in s.active ==> ActiveNext(site, s, action, threw)[id] == s.active[id]
    ensures action != Send(id) && !(StaleResume(site, s, action) && action.record.command.commandId == id)
  {
    hide StageNext, ReceivedState, CallOf, IsCurrent, IsReceived;
  }

  lemma ScheduleNext(site: Site, s: System, action: Action, threw: bool, id: string)
    requires !Executes(action) && Touches(site, s, action, id)
    ensures id in s.active ==> ActiveNext(site, s, action, threw) == s.active && !StaleResume(site, s, action)
    ensures id !in s.active ==>
              ActiveNext(site, s, action, threw) ==
                  s.active[id := Execution(Scheduling(site, s, action).value, Scheduled)]
    ensures id !in s.active && action.Resume? && !IsReceived(site, s.node.disk, id) ==> StaleResume(site, s, action)
    ensures action != Send(id)
    ensures action.Ingress? || (action.Resume? && action.record.command.commandId == id)
  {
    hide StageNext, ReceivedState, CallOf, IsCurrent, IsReceived;
  }

  lemma ExecutionsAreNotResumes(site: Site, s: System, action: Action)
    requires Executes(action)
    ensures !StaleResume(site, s, action)
  {
  }

  /** What a step makes of the facts behind the bound, once the disk and the clock of `s` have moved on to those of
      `m`: the record, the pending send and the counts. */
  ghost predicate Goes(site: Site, m: System, t: System, id: string, sent: nat, restarted: nat) {
    && t.node == m.node && t.clock == m.clock
    && t.sends[id] == m.sends[id] + sent && t.stale[id] == m.stale[id] + restarted
    && (SendingLeft(site, m, id) ==> SendingLeft(site, t, id))
  }

  /** A step that leaves the command's execution and counts alone. */
  lemma UntouchedGoes(site: Site, s: System, m: System, action: Action, threw: bool, t: System, id: string)
    requires t == Next(site, s, action, m.node, threw) && m == s.(node := m.node, clock := t.clock)
    requires !Touches(site, s, action, id) && StaysBehind(site, s, t, id)
    ensures Goes(site, m, t, id, 0, 0) && (MaySend(site, t, id) ==> MaySend(site, m, id))
  {
    hide IsStored, IsReceived, RemovedBetween, FlushesNext, AnswersNext, ResumableNext, InboxNext, ActiveNext,
         StaleResume, Touches,
         IsCurrent;
    CountsNext(site, s, action, m.node, threw, id);
    UntouchedNext(site, s, action, threw, id);
    SameCurrent(s, m, site.catalog(id).bindingGeneration);
  }

  /** A rotated binding does not become current again under a running execution. */
  predicate StaysBehind(site: Site, s: System, t: System, id: string) {
    id in s.active && IsCurrent(t, site.catalog(id).bindingGeneration) ==>
        IsCurrent(s, site.catalog(id).bindingGeneration)
  }

  /** A command is scheduled: fresh from an ingress that found it in RECEIVED, or by a restart. */
  lemma ScheduleGoes(site: Site, s: System, m: System, action: Action, threw: bool, t: System, id: string)
    requires t == Next(site, s, action, m.node, threw) && m == s.(node := m.node, clock := t.clock)
    requires !Executes(action) && Touches(site, s, action, id) && StaysBehind(site, s, t, id)
    requires action.Resume? ==> m.node == s.node
    ensures Goes(site, m, t, id, 0, if StaleResume(site, s, action) then 1 else 0)
    ensures MaySend(site, t, id) ==> MaySend(site, m, id) || MayStart(site, t, id)
    ensures id in s.active ==> !StaleResume(site, s, action) && (MaySend(site, t, id) ==> MaySend(site, m, id))
    ensures action.Resume? && id !in s.active && HasLeft(site, m.node.disk, id) ==> StaleResume(site, s, action)
    ensures action.Ingress? || action.Resume?
  {
    hide IsStored, RemovedBetween, FlushesNext, AnswersNext, ResumableNext, InboxNext, ActiveNext, StaleResume,
         Touches, IsCurrent,
         IsReceived;
    CountsNext(site, s, action, m.node, threw, id);
    ScheduleNext(site, s, action, threw, id);
    SameCurrent(s, m, site.catalog(id).bindingGeneration);
    IngressIsNoResume(site, s, action);
  }

  lemma IngressIsNoResume(site: Site, s: System, action: Action)
    ensures !action.Resume? ==> !StaleResume(site, s, action)
  {
  }

  /** An execution of the command goes on or ends. */
  lemma ExecuteGoes(site: Site, s: System, m: System, action: Action, threw: bool, t: System, id: string)
    requires t == Next(site, s, action, m.node, threw) && m == s.(node := m.node, clock := t.clock)
             && t.clock == s.clock
    requires Executes(action) && action.id == id && Enabled(site, s, action) && s.active[id].command == site.catalog(id)
    requires action.Start? && !threw ==> HasLeft(site, m.node.disk, id)
    ensures Goes(site, m, t, id, if action.Send? then 1 else 0, 0)
    ensures MaySend(site, t, id) ==> MaySend(site, m, id)
    ensures action.Send? ==> MaySend(site, m, id) && !MaySend(site, t, id) && InStage(m, id, Sending)
  {
    hide IsStored, IsReceived, RemovedBetween, FlushesNext, AnswersNext, ResumableNext, InboxNext, IsCurrent,
         ReceivedState, CallOf, StaleResume, HasLeft, MaySend;
    CountsNext(site, s, action, m.node, threw, id);
    ExecutionsAreNotResumes(site, s, action);
    SameCurrent(s, m, site.catalog(id).bindingGeneration);
    ExecuteMaySend(site, s, m, action, threw, t, id);
  }

  lemma ExecuteMaySend(site: Site, s: System, m: System, action: Action, threw: bool, t: System, id: string)
    requires t == Next(site, s, action, m.node, threw) && m == s.(node := m.node, clock := t.clock)
             && t.clock == s.clock
    requires Executes(action) && action.id == id && Enabled(site, s, action) && s.active[id].command == site.catalog(id)
    ensures MaySend(site, t, id) ==> MaySend(site, m, id)
    ensures action.Send? ==> MaySend(site, m, id) && !MaySend(site, t, id)
  {
    StageMaySend(site, s, action, threw, id);
    hide RemovedBetween, FlushesNext, AnswersNext, ResumableNext, InboxNext, IsCurrent, ReceivedState, CallOf,
         StaleResume, Scheduling, StageNext, Enabled, AboutToSend, BeforeCheck;
    SameCurrent(s, m, site.catalog(id).bindingGeneration);
    SameCurrent(s, t, site.catalog(id).bindingGeneration);
  }

  /** A stage that may send is only reached from one that may. */
  lemma StageMaySend(site: Site, s: System, action: Action, threw: bool, id: string)
    requires Executes(action) && action.id == id && Enabled(site, s, action) && s.active[id].command == site.catalog(id)
    ensures id in s.active
    ensures var stage := StageNext(s, action, threw);
            stage.Some? && MaySendIn(site, s, id, stage.value) ==>
              MaySendIn(site, s, id, s.active[id].stage) && !action.Send?
    ensures action.Send? ==> MaySendIn(site, s, id, s.active[id].stage)
  {
    hide IsCurrent;
  }

  lemma OwnAt(site: Site, s: System, id: string)
    requires OwnCommands(site, s) && id in s.active
    ensures s.active[id].command == site.catalog(id)
  {
  }

  // ---- Steps and runs ----

  lemma ScheduledBound(site: Site, s: System, action: Action, error: Option<Error>, t: System, id: string)
    requires ValidSite(site) && Base(site, s) && Completes(site, s, action, error, t)
    requires !Executes(action) && Touches(site, s, action, id)
    ensures action.Ingress? ==> IsReceived(site, t.node.disk, id)
    ensures action.Resume? ==> t.node == s.node
  {
    hide Returns, ReceivedState, IsReceived, IsCurrent, Base, ValidSite, Next;
    CatalogOf(site, action);
    if action.Ingress? { IngressFindsReceived(site, s, action, t.node, error); }
  }

  lemma StaysBehindNext(site: Site, s: System, action: Action, error: Option<Error>, t: System, id: string)
    requires Base(site, s) && BindingsAhead(s) && Completes(site, s, action, error, t)
    ensures StaysBehind(site, s, t, id)
  {
    hide Completes, NotAfterCurrent, Retainable, IsCurrent, Sound, Indexed, Catalogued, OwnCommands;
    BindingsNext(site, s, action, error, t);
    if id in s.active { OwnAt(site, s, id); }
  }

  lemma ExecutingOwn(site: Site, s: System, action: Action, id: string)
    requires Base(site, s) && Enabled(site, s, action) && Executes(action) && Touches(site, s, action, id)
    ensures action.id == id && id in s.active && s.active[id].command == site.catalog(id) && !action.Tick?
  {
    hide Sound, Indexed, Catalogued, OwnCommands;
    OwnAt(site, s, action.id);
  }

  /** Everything a completed step can do to the sends of one command. */
  datatype Effect = Untouched | Executed(sent: bool) | FromIngress | FromResume(stale: bool)

  ghost predicate Has(site: Site, s: System, action: Action, m: System, t: System, id: string, effect: Effect) {
    && Goes(site, m, t, id, if effect == Executed(true) then 1 else 0, if effect == FromResume(true) then 1 else 0)
    && match effect
       case Untouched => !Touches(site, s, action, id) && (MaySend(site, t, id) ==> MaySend(site, m, id))
       case Executed(sent) =>
         && Executes(action) && (MaySend(site, t, id) ==> MaySend(site, m, id))
         && (sent ==> MaySend(site, m, id) && !MaySend(site, t, id) && InStage(m, id, Sending))
       case FromIngress =>
         && action.Ingress? && IsReceived(site, m.node.disk, id)
         && (MaySend(site, t, id) ==> MaySend(site, m, id) || MayStart(site, t, id))
       case FromResume(stale) =>
         && action.Resume? && action.record.command.commandId == id
         && (MaySend(site, t, id) ==> MaySend(site, m, id) || MayStart(site, t, id))
         && (!stale && HasLeft(site, m.node.disk, id) ==> (MaySend(site, t, id) ==> MaySend(site, m, id)))
  }

  lemma CompletesHas(site: Site, s: System, action: Action, error: Option<Error>, m: System, t: System, id: string)
    returns (effect: Effect)
    requires ValidSite(site) && Base(site, s) && BindingsAhead(s) && Completes(site, s, action, error, t)
    requires m == s.(node := t.node, clock := t.clock)
    ensures Has(site, s, action, m, t, id, effect) && s.clock <= t.clock
  {
    hide Completes, Base, IsStored, IsReceived, ValidSite, HomeMove, Next, Enabled, Touches, BindingsAhead,
         StaysBehind, Goes, MaySend,
         HasLeft, StaleResume, IsExpired;
    var threw := error.Some?;
    ClockMoves(site, s, action, error, t);
    StaysBehindNext(site, s, action, error, t, id);
    if !Touches(site, s, action, id) {
      UntouchedGoes(site, s, m, action, threw, t, id);
      effect := Untouched;
    } else if Executes(action) {
      ExecutingOwn(site, s, action, id);
      if action.Start? && !threw { StartReturns(site, s, action, error, t); }
      ExecuteGoes(site, s, m, action, threw, t, id);
      effect := Executed(action.Send?);
    } else {
      ScheduledBound(site, s, action, error, t, id);
      ScheduleGoes(site, s, m, action, threw, t, id);
      ScheduledOwn(site, s, action, id);
      effect := if action.Ingress? then FromIngress else FromResume(StaleResume(site, s, action));
      if action.Ingress? { IngressIsNoResume(site, s, action); }
    }
  }

  lemma ScheduledOwn(site: Site, s: System, action: Action, id: string)
    requires !Executes(action) && Touches(site, s, action, id)
    ensures action.Resume? ==> action.record.command.commandId == id
  {
    hide ReceivedState, CallOf, IsCurrent;
  }

  lemma EffectKeepsBound(site: Site, s: System, action: Action, m: System, t: System, id: string, effect: Effect,
                         c: int)
    requires Has(site, s, action, m, t, id, effect) && Bounded(site, m, id, c)
    ensures Bounded(site, t, id, c)
  {
    hide MaySend, SendingLeft, IsStored, IsReceived, Touches;
    if effect == Executed(true) { SendingAt(site, m, id); }
    ReceivedStored(site, m.node.disk, id);
  }

  lemma SendingAt(site: Site, s: System, id: string)
    requires SendingLeft(site, s, id) && InStage(s, id, Sending)
    ensures HasLeft(site, s.node.disk, id) || IsExpired(site, s, id)
  {
  }

  lemma CompletesBound(site: Site, s: System, action: Action, error: Option<Error>, t: System, id: string, c: int)
    requires ValidSite(site) && Base(site, s) && BindingsAhead(s) && Completes(site, s, action, error, t)
             && Bounded(site, s, id, c)
    ensures Bounded(site, t, id, c)
  {
    hide *;
    var m := s.(node := t.node, clock := t.clock);
    CompletesBase(site, s, action, error, t);
    var effect := CompletesHas(site, s, action, error, m, t, id);
    MoveKeepsBound(site, s, m, id, c);
    EffectKeepsBound(site, s, action, m, t, id, effect, c);
  }

  lemma DiesBound(site: Site, s: System, action: Action, t: System, id: string, c: int)
    requires ValidSite(site) && Base(site, s) && Dies(site, s, action, t) && Bounded(site, s, id, c)
    ensures Bounded(site, t, id, c)
  {
    hide Base, IsStored, IsReceived, ValidSite, HomeMove, CallOf, Enabled, Interrupted, RemovedBetween;
    DiesBase(site, s, action, t);
    var m := s.(node := t.node);
    MoveKeepsBound(site, s, m, id, c);
  }

  lemma StepBound(site: Site, s: System, t: System, id: string, c: int)
    requires ValidSite(site) && Base(site, s) && BindingsAhead(s) && Step(site, s, t) && Bounded(site, s, id, c)
    ensures Bounded(site, t, id, c)
  {
    hide Completes, Dies, Base, Bounded, ValidSite, BindingsAhead;
    if action, error :| Completes(site, s, action, error, t) {
      CompletesBound(site, s, action, error, t, id, c);
    } else {
      var action :| Dies(site, s, action, t);
      DiesBound(site, s, action, t, id, c);
    }
  }

  lemma {:induction false} RunBound(site: Site, t: seq<System>, i: nat, j: nat, id: string, c: int)
    requires ValidSite(site) && Run(site, t) && i <= j < |t| && Bounded(site, t[i], id, c)
    ensures Bounded(site, t[j], id, c)
    decreases j - i
  {
    hide Base, Step, ValidSite, Bounded, BindingsAhead, Initial;
    if i < j {
      RunBound(site, t, i, j - 1, id, c);
      RunBase(site, t, j - 1);
      RunAhead(site, t, j - 1);
      StepBound(site, t[j - 1], t[j], id, c);
    }
  }

  /** Over every run a command is sent at most once, plus once for every time it was restarted from a snapshot whose
      record had already left RECEIVED. */
  lemma AtMostOncePlusStaleRestarts(site: Site, t: seq<System>, i: nat, id: string)
    requires ValidSite(site) && Run(site, t) && i < |t|
    ensures t[i].sends[id] <= 1 + t[i].stale[id]
  {
    hide Base, Step, ValidSite, IsStored, IsReceived;
    RunBound(site, t, 0, i, id, 1);
  }

  /** Once the record of a command has left RECEIVED, by a rejection for example, and no execution of it can still pass
      its checks, every further send takes a stale restart. */
  lemma SettledStaysUnsent(site: Site, t: seq<System>, i: nat, j: nat, id: string)
    requires ValidSite(site) && Run(site, t) && i <= j < |t|
    requires HasLeft(site, t[i].node.disk, id) && !MaySend(site, t[i], id)
    ensures t[j].sends[id] + t[i].stale[id] <= t[i].sends[id] + t[j].stale[id]
  {
    hide Base, Step, ValidSite, Run, IsStored, IsReceived, HasLeft;
    NotSending(site, t[i], id);
    RunBound(site, t, i, j, id, (t[i].sends[id] as int) - (t[i].stale[id] as int));
  }

  lemma NotSending(site: Site, s: System, id: string)
    requires !MaySend(site, s, id)
    ensures SendingLeft(site, s, id)
  {
  }

  // ---- Never more than twice ----

  /** Recovery left a snapshot of the command that was not restarted yet. */
  ghost predicate HasSnapshot(s: System, id: string) {
    exists r | r in s.resumable :: r.command.commandId == id
  }

  ghost predicate MayResume(site: Site, s: System, id: string) {
    !IsExpired(site, s, id) && HasSnapshot(s, id)
  }

  ghost predicate OneSnapshot(s: System) {
    forall q, r | q in s.resumable && r in s.resumable && q.command.commandId == r.command.commandId :: q == r
  }

  function Count(b: bool): nat {
    if b then 1 else 0
  }

  /** The sends so far, the one a running execution may add and the one a snapshot may add make at most two, and there
      was none while the record is missing or in RECEIVED and the command has not expired. */
  ghost predicate AtMostTwo(site: Site, s: System, id: string) {
    && s.sends[id] + Count(MaySend(site, s, id)) + Count(MayResume(site, s, id)) <= 2
    && (HasLeft(site, s.node.disk, id) || IsExpired(site, s, id) || s.sends[id] == 0)
    && SendingLeft(site, s, id)
    && OneSnapshot(s)
  }

  lemma MoveKeepsTwo(site: Site, s: System, t: System, id: string)
    requires AtMostTwo(site, s, id) && HomeMove(site, s.node.disk, t.node.disk, id, s.clock)
    requires t == s.(node := t.node, clock := t.clock) && s.clock <= t.clock
    ensures AtMostTwo(site, t, id)
  {
    MoveKeepsFacts(site, s, t, id);
    hide HasLeft, MaySend, SendingLeft, OneSnapshot;
    assert MayResume(site, t, id) ==> MayResume(site, s, id);
    assert OneSnapshot(t) by { SameSnapshots(s, t); }
  }

  lemma SameSnapshots(s: System, t: System)
    requires OneSnapshot(s) && t.resumable <= s.resumable
    ensures OneSnapshot(t)
  {
  }

  lemma RecoveredSnapshots(site: Site, s: System, id: string)
    requires ValidSite(site) && Base(site, s)
    ensures var snapshots := RecordsAt(s.node.disk, InState(s.node.disk, StateReceived));
            && (forall q, r | q in snapshots && r in snapshots && q.command.commandId == r.command.commandId :: q == r)
            && ((exists r | r in snapshots :: r.command.commandId == id) ==> IsReceived(site, s.node.disk, id))
  {
    hide ValidRecord, DrawnBefore, Timely, HasMessage, OwnCommands;
  }

  /** The snapshots after a step. */
  lemma SnapshotsNext(site: Site, s: System, action: Action, error: Option<Error>, m: System, t: System, id: string)
    requires ValidSite(site) && Base(site, s) && Completes(site, s, action, error, t) && OneSnapshot(s)
    requires m == s.(node := t.node, clock := t.clock)
    ensures OneSnapshot(t)
    ensures !action.Restart? ==> (MayResume(site, t, id) ==> MayResume(site, m, id))
    ensures action.Resume? && action.record.command.commandId == id ==>
              !MayResume(site, t, id) && (MayResume(site, m, id) || IsExpired(site, m, id))
    ensures action.Restart? && MayResume(site, t, id) ==>
              !IsExpired(site, s, id) && (IsReceived(site, s.node.disk, id) || MayResume(site, s, id))
                  && !MaySend(site, t, id)
  {
    hide Base, Sound, Indexed, Catalogued, OwnCommands, CallOf, Returns, ActiveNext, FlushesNext, AnswersNext,
         InboxNext, StaleResume,
         RemovedBetween, InState, RecordsAt, IsReceived, ValidSite;
    RecoveredSnapshots(site, s, id);
    assert action.Resume? ==> action.record in s.resumable;
    if action.Restart? { RestartIdle(site, s, t, error); }
  }

  lemma RestartIdle(site: Site, s: System, t: System, error: Option<Error>)
    requires Base(site, s) && Completes(site, s, Restart, error, t)
    ensures t.active == map[] && t.clock == s.clock
  {
    hide Sound, Indexed, Catalogued, OwnCommands, Returns, FlushesNext, AnswersNext, InboxNext, RemovedBetween;
  }

  lemma EffectKeepsTwo(site: Site, s: System, action: Action, m: System, t: System, id: string, effect: Effect)
    requires Has(site, s, action, m, t, id, effect) && AtMostTwo(site, m, id) && OneSnapshot(t) && !action.Restart?
    requires MayResume(site, t, id) ==> MayResume(site, m, id)
    requires effect.FromResume? ==> !MayResume(site, t, id) && (MayResume(site, m, id) || IsExpired(site, m, id))
    ensures AtMostTwo(site, t, id)
  {
    hide MaySend, SendingLeft, IsStored, IsReceived, Touches, OneSnapshot, MayResume;
    if effect == Executed(true) { SendingAt(site, m, id); }
    ReceivedStored(site, m.node.disk, id);
  }

  lemma CompletesTwo(site: Site, s: System, action: Action, error: Option<Error>, t: System, id: string)
    requires ValidSite(site) && Base(site, s) && BindingsAhead(s) && Completes(site, s, action, error, t)
             && AtMostTwo(site, s, id)
    ensures AtMostTwo(site, t, id)
  {
    hide *;
    var m := s.(node := t.node, clock := t.clock);
    CompletesBase(site, s, action, error, t);
    var effect := CompletesHas(site, s, action, error, m, t, id);
    MoveKeepsTwo(site, s, m, id);
    TwoParts(site, s, id);
    SnapshotsNext(site, s, action, error, m, t, id);
    if action.Restart? {
      RestartKeepsTwo(site, s, action, m, t, id, effect);
    } else {
      ResumeEffect(site, s, action, m, t, id, effect);
      EffectKeepsTwo(site, s, action, m, t, id, effect);
    }
  }

  lemma TwoParts(site: Site, s: System, id: string)
    requires AtMostTwo(site, s, id)
    ensures OneSnapshot(s)
  {
  }

  lemma ResumeEffect(site: Site, s: System, action: Action, m: System, t: System, id: string, effect: Effect)
    requires Has(site, s, action, m, t, id, effect)
    ensures effect.FromResume? ==> action.Resume? && action.record.command.commandId == id
  {
    hide Goes, Touches, MaySend, IsReceived;
  }

  /** A restart finds no execution, and a snapshot only of a record that is still in RECEIVED. */
  lemma RestartKeepsTwo(site: Site, s: System, action: Action, m: System, t: System, id: string, effect: Effect)
    requires Has(site, s, action, m, t, id, effect) && action.Restart? && AtMostTwo(site, s, id)
             && AtMostTwo(site, m, id)
    requires OneSnapshot(t) && m == s.(node := t.node, clock := t.clock)
    requires MayResume(site, t, id) ==>
               !IsExpired(site, s, id) && (IsReceived(site, s.node.disk, id) || MayResume(site, s, id))
                   && !MaySend(site, t, id)
    ensures AtMostTwo(site, t, id)
  {
    hide MaySend, SendingLeft, IsStored, IsReceived, OneSnapshot, MayResume;
    assert effect == Untouched || (effect.Executed? && Executes(action)) by { hide Touches, Goes; }
    ReceivedStored(site, s.node.disk, id);
  }

  lemma DiesTwo(site: Site, s: System, action: Action, t: System, id: string)
    requires ValidSite(site) && Base(site, s) && Dies(site, s, action, t) && AtMostTwo(site, s, id)
    ensures AtMostTwo(site, t, id)
  {
    hide Base, IsStored, IsReceived, ValidSite, HomeMove, CallOf, Enabled, Interrupted, RemovedBetween;
    DiesBase(site, s, action, t);
    MoveKeepsTwo(site, s, s.(node := t.node), id);
    hide AtMostTwo;
    DownKeepsTwo(site, s.(node := t.node), t, id);
  }

  lemma DownKeepsTwo(site: Site, s: System, t: System, id: string)
    requires AtMostTwo(site, s, id) && t.node == s.node && t.clock == s.clock && t.sends == s.sends
    requires t.active == map[] && t.resumable == {}
    ensures AtMostTwo(site, t, id)
  {
    hide IsStored, IsReceived, IsCurrent;
  }

  lemma {:induction false} RunTwo(site: Site, t: seq<System>, i: nat, id: string)
    requires ValidSite(site) && Run(site, t) && i < |t|
    ensures AtMostTwo(site, t[i], id)
  {
    hide Base, Step, ValidSite, AtMostTwo, BindingsAhead, Initial;
    if i > 0 {
      RunTwo(site, t, i - 1, id);
      RunBase(site, t, i - 1);
      RunAhead(site, t, i - 1);
      StepTwo(site, t[i - 1], t[i], id);
    } else {
      InitialTwo(site, t[0], id);
    }
  }

  lemma InitialTwo(site: Site, s: System, id: string)
    requires Initial(s)
    ensures AtMostTwo(site, s, id)
  {
    hide IsStored, IsReceived;
  }

  lemma StepTwo(site: Site, s: System, t: System, id: string)
    requires ValidSite(site) && Base(site, s) && BindingsAhead(s) && Step(site, s, t) && AtMostTwo(site, s, id)
    ensures AtMostTwo(site, t, id)
  {
    hide Completes, Dies, Base, AtMostTwo, ValidSite, BindingsAhead;
    if action, error :| Completes(site, s, action, error, t) {
      CompletesTwo(site, s, action, error, t, id);
    } else {
      var action :| Dies(site, s, action, t);
      DiesTwo(site, s, action, t, id);
    }
  }

  /** Over every run a command is sent at most once, and at most twice when it was restarted from a snapshot whose
      record had already left RECEIVED, however often that happened. */
  lemma AtMostTwice(site: Site, t: seq<System>, i: nat, id: string)
    requires ValidSite(site) && Run(site, t) && i < |t|
    ensures t[i].sends[id] <= if t[i].stale[id] == 0 then 1 else 2
  {
    RunTwo(site, t, i, id);
    AtMostOncePlusStaleRestarts(site, t, i, id);
    hide Run, ValidSite, MaySend, MayResume, OneSnapshot, SendingLeft, HasLeft;
  }
}
