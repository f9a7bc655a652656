/** The connector as a step system over the journal: ingress, executions, flushes, hooks, compaction, binding
    rotations, crashes and restarts. The steps interleave more freely than the code: its checks between two awaits are
    separate steps, and calls waiting for the journal's lock may go in any order. */
module Connector {
  import opened Wrappers
  import opened Protocol
  import opened Records
  import opened JournalStore
  import opened JournalCalls
  import Bindings

  /** What does not change during a run: the journal's limits, the bound session and, for each command id, the one
      command that is ever delivered under it. */
  datatype Site = Site(cfg: Config, sessionId: string, catalog: string -> Command)

  /** Where an execution of a command waits. */
  datatype Stage =
    | Scheduled | Verifying | Checked | Starting | Sending | Waiting
    | Accepting(messageId: string) | Undecided(code: string) | Refusing(errorClass: ErrorClass,
        errorCode: string) | Finishing

  datatype Execution = Execution(command: Command, stage: Stage)

  datatype Phase = Posting | Marking | Failing

  /** A running flush walks the evidence of the snapshot it read. */
  datatype Flush = Flush(snapshot: Record, index: nat, phase: Phase)

  /** What `handleIngress` still has to record after a replay. */
  datatype Answer = Replayed(id: string) | Rotated(id: string)

  datatype Verdict = MediaOk | MediaMismatch | MediaUnavailable

  /** `sends`, `stale`, `inbox` and `removed` record what happened: send calls, stale restarts, posts the inbox
      accepted, and compacted records. */
  datatype System = System(
    node: Node, clock: Time, up: bool,
    active: map<string, Execution>, flushes: map<string, Flush>, resumable: set<Record>, answers: set<Answer>,
    bindings: seq<Bindings.Binding>, stored: seq<Bindings.Binding>,
    sends: multiset<string>, stale: multiset<string>, inbox: seq<Evidence>, removed: set<Record>)

  datatype Action =
    | Ingress(id: string, digest: string, utilization: real, maximum: real)
    | Respond(answer: Answer)
    | Check(id: string) | Verify(id: string, verdict: Verdict) | Recheck(id: string)
    | Refuse(id: string) | Start(id: string) | Send(id: string) | Result(id: string, messageId: Option<string>,
        threw: bool)
    | Accept(id: string) | GiveUp(id: string) | Finish(id: string)
    | Resume(record: Record)
    | FlushRead(id: string) | FlushSkip(id: string) | FlushPost(id: string, reached: bool, answered: bool)
    | FlushMark(id: string) | FlushFail(id: string) | FlushEnd(id: string)
    | Hook(message: string, status: AckStatus, occurredAt: Time)
    | CompactNow | Rebind(incoming: seq<Bindings.Binding>, next: seq<Bindings.Binding>) | Persist
    | Tick(now: Time) | Crash | Restart

  const AMBIGUOUS := "OPENWA_SEND_RESULT_AMBIGUOUS"

  function BindingFor(list: seq<Bindings.Binding>, generation: int): Option<Bindings.Binding> {
    if list == [] then None
    else if list[0].generation == generation then Some(list[0])
    else BindingFor(list[1..], generation)
  }

  predicate IsCurrent(s: System, generation: int) {
    var current := Bindings.CurrentOf(s.bindings);
    current.Some? && current.value.generation == generation
  }

  predicate InStage(s: System, id: string, stage: Stage) {
    id in s.active && s.active[id].stage == stage
  }

  predicate FlushIn(s: System, id: string, phase: Phase) {
    id in s.flushes && s.flushes[id].phase == phase && s.flushes[id].index < |s.flushes[id].snapshot.evidence|
  }

  function FlushEntry(s: System, id: string): Entry
    requires id in s.flushes && s.flushes[id].index < |s.flushes[id].snapshot.evidence|
  {
    s.flushes[id].snapshot.evidence[s.flushes[id].index]
  }

  /** When a step can happen. Ingress is taken to arrive after the command was created. */
  ghost predicate Enabled(site: Site, s: System, action: Action) {
    if action.Restart? then !s.up
    else if action.Tick? then s.clock <= action.now
    else s.up && match action
      case Ingress(id, _, _, _) =>
        var command := site.catalog(id);
        && command.createdAt <= s.clock && command.sessionId == site.sessionId
        && BindingFor(s.bindings, command.bindingGeneration).Some?
      case Respond(answer) => answer in s.answers
      case Check(id) => InStage(s, id, Scheduled)
      case Verify(id, _) => InStage(s, id, Verifying)
      case Recheck(id) => InStage(s, id, Checked)
      case Refuse(id) => id in s.active && s.active[id].stage.Refusing?
      case Start(id) => InStage(s, id, Starting)
      case Send(id) => InStage(s, id, Sending)
      case Result(id, messageId, _) => InStage(s, id, Waiting) && messageId != Some("")
      case Accept(id) => id in s.active && s.active[id].stage.Accepting?
      case GiveUp(id) => id in s.active && s.active[id].stage.Undecided?
      case Finish(id) => InStage(s, id, Finishing)
      case Resume(record) =>
        record in s.resumable && BindingFor(s.bindings, record.command.bindingGeneration).Some?
      case FlushRead(id) => id !in s.flushes && Locate(s.node.disk, id).Done?
      case FlushSkip(id) => FlushIn(s, id, Posting) && FlushEntry(s, id).deliveredAt.Some?
      case FlushPost(id, _, _) => FlushIn(s, id, Posting) && FlushEntry(s, id).deliveredAt.None?
      case FlushMark(id) => FlushIn(s, id, Marking)
      case FlushFail(id) => FlushIn(s, id, Failing)
      case FlushEnd(id) => id in s.flushes && s.flushes[id].index == |s.flushes[id].snapshot.evidence|
      case Rebind(incoming, next) => Bindings.Ascending(s.bindings) && Bindings.Applies(s.bindings, incoming, next)
      case _ => true
  }

  /** The journal call a step makes. */
  function CallOf(site: Site, s: System, action: Action): Option<Call> {
    var now := s.clock;
    match action
    case Ingress(id, digest, utilization, maximum) =>
      var binding := BindingFor(s.bindings, site.catalog(id).bindingGeneration);
      if binding.None? then None
      else Some(Call.Receive(site.catalog(id), digest, binding.value.webhookId, utilization, maximum, now))
    case Respond(Replayed(id)) => Some(Call.MarkIndeterminate(id, "INGRESS_REPLAY_AFTER_SEND_STARTED", now))
    case Respond(Rotated(id)) => Some(Call.MarkRejected(id, BindingMismatch, "BINDING_ROTATED", now))
    case Refuse(id) =>
      if id in s.active && s.active[id].stage.Refusing?
      then Some(Call.MarkRejected(id, s.active[id].stage.errorClass, s.active[id].stage.errorCode, now)) else None
    case Start(id) => Some(Call.MarkStarted(id, now))
    case Accept(id) =>
      if id in s.active && s.active[id].stage.Accepting?
      then Some(Call.MarkAccepted(id, s.active[id].stage.messageId, now)) else None
    case GiveUp(id) =>
      if id in s.active && s.active[id].stage.Undecided?
      then Some(Call.MarkIndeterminate(id, s.active[id].stage.code, now)) else None
    case FlushMark(id) => if FlushIn(s, id, Marking)
        then Some(Call.Delivered(id, FlushEntry(s, id).evidence.eventId, now)) else None
    case FlushFail(id) =>
      if FlushIn(s, id, Failing) then Some(Call.Failure(id, FlushEntry(s, id).evidence.eventId, "evidence", now))
          else None
    case Hook(message, status, occurredAt) => Some(Call.Acknowledge(site.sessionId, message, status, occurredAt, now))
    case CompactNow => Some(Call.Compact(now))
    case Restart => Some(Call.Recover(now))
    case _ => None
  }

  predicate IsStored(site: Site, d: Disk, id: string) {
    HomeOf(site.cfg, site.catalog(id)) in d.records
  }

  predicate IsReceived(site: Site, d: Disk, id: string) {
    IsStored(site, d, id) && d.records[HomeOf(site.cfg, site.catalog(id))].state.StateReceived?
  }

  // ---- Executions ----

  /** The steps of `execute`. */
  predicate Executes(action: Action) {
    action.Check? || action.Verify? || action.Recheck? || action.Refuse? || action.Start? || action.Send?
        || action.Result?
    || action.Accept? || action.GiveUp? || action.Finish?
  }

  /** Where an execution waits next, if it has not ended. */
  function StageNext(s: System, action: Action, threw: bool): Option<Stage>
    requires Executes(action) && action.id in s.active
  {
    var command, stage := s.active[action.id].command, s.active[action.id].stage;
    match action
    case Check(_) =>
      if s.clock >= command.expiresAt then Some(Refusing(ExpiredCommand, "COMMAND_EXPIRED"))
      else if !IsCurrent(s, command.bindingGeneration) then Some(Refusing(BindingMismatch, "BINDING_ROTATED"))
      else Some(if command.operation.SendImage? then Verifying else Checked)
    case Verify(_, MediaOk) => Some(Checked)
    case Verify(_, MediaMismatch) => Some(Refusing(InvalidCommand, "MEDIA_PREFLIGHT_REJECTED"))
    case Verify(_, MediaUnavailable) => Some(Refusing(TransientFailure, "MEDIA_PREFLIGHT_UNAVAILABLE"))
    case Recheck(_) =>
      if s.clock >= command.expiresAt then Some(Refusing(ExpiredCommand, "COMMAND_EXPIRED")) else Some(Starting)
    case Refuse(_) => if threw then None else Some(Finishing)
    case Start(_) => if threw then None else Some(Sending)
    case Send(_) => Some(Waiting)
    case Result(_, messageId, failed) =>
      if failed then Some(Undecided(AMBIGUOUS))
      else if messageId.None? then Some(Undecided("OPENWA_RESPONSE_MISSING_MESSAGE_ID"))
      else Some(Accepting(messageId.value))
    case Accept(_) => Some(if threw then Undecided(AMBIGUOUS) else Finishing)
    case GiveUp(_) =>
      if !threw then Some(Finishing) else if stage == Undecided(AMBIGUOUS) then None else Some(Undecided(AMBIGUOUS))
    case _ => None
  }

  /** The state in which `handleIngress` finds the record, when receiving it did not throw. */
  function ReceivedState(site: Site, s: System, action: Action): Option<State>
    requires action.Ingress? && CallOf(site, s, action).Some?
  {
    var call := CallOf(site, s, action).value;
    var reply := ReceiveOutcome(site.cfg, s.node, call.command, call.digest, call.webhookId, call.now,
                                call.utilization, call.maximum).reply;
    if reply.Failed? then None else Some(reply.value.0.state)
  }

  /** The command that a step schedules; scheduling an active command does nothing. */
  function Scheduling(site: Site, s: System, action: Action): Option<Command> {
    match action
    case Ingress(id, _, _, _) =>
      if CallOf(site, s, action).Some? && ReceivedState(site, s, action) == Some(StateReceived)
         && IsCurrent(s, site.catalog(id).bindingGeneration)
      then Some(site.catalog(id)) else None
    case Resume(record) => Some(record.command)
    case _ => None
  }

  function ActiveNext(site: Site, s: System, action: Action, threw: bool): map<string, Execution> {
    if Executes(action) && action.id in s.active then
      var stage := StageNext(s, action, threw);
      if stage.None? then s.active - {action.id} else s.active[action.id := s.active[action.id].(stage := stage.value)]
    else
      var command := Scheduling(site, s, action);
      if command.None? || command.value.commandId in s.active then s.active
      else s.active[command.value.commandId := Execution(command.value, Scheduled)]
  }

  /** A restarted command whose record has already left RECEIVED, or is gone. */
  predicate StaleResume(site: Site, s: System, action: Action) {
    action.Resume? && action.record.command.commandId !in s.active
    && !IsReceived(site, s.node.disk, action.record.command.commandId)
  }

  function AnswersNext(site: Site, s: System, action: Action): set<Answer> {
    match action
    case Respond(answer) => s.answers - {answer}
    case Ingress(id, _, _, _) =>
      if CallOf(site, s, action).None? then s.answers
      else if ReceivedState(site, s, action) == Some(StateStarted) && id !in s.active then s.answers + {Replayed(id)}
      else if ReceivedState(site, s, action) == Some(StateReceived) && !IsCurrent(s, site.catalog(id).bindingGeneration)
      then s.answers + {Rotated(id)}
      else s.answers
    case _ => s.answers
  }

  // ---- Flushes ----

  predicate Flushes(action: Action) {
    action.FlushSkip? || action.FlushPost? || action.FlushMark? || action.FlushFail? || action.FlushEnd?
  }

  /** Where a flush goes on; it ends at the end of the evidence and at the first failure. */
  function FlushNext(f: Flush, action: Action, threw: bool): Option<Flush>
    requires Flushes(action)
  {
    match action
    case FlushSkip(_) => Some(f.(index := f.index + 1))
    case FlushPost(_, reached, answered) => Some(f.(phase := if reached && answered then Marking else Failing))
    case FlushMark(_) => Some(if threw then f.(phase := Failing) else f.(phase := Posting, index := f.index + 1))
    case _ => None
  }

  function FlushesNext(s: System, action: Action, threw: bool): map<string, Flush> {
    if action.FlushRead? && Locate(s.node.disk, action.id).Done?
        && Locate(s.node.disk, action.id).value in s.node.disk.records then
      s.flushes[action.id := Flush(s.node.disk.records[Locate(s.node.disk, action.id).value], 0, Posting)]
    else if Flushes(action) && action.id in s.flushes then
      var f := FlushNext(s.flushes[action.id], action, threw);
      if f.None? then s.flushes - {action.id} else s.flushes[action.id := f.value]
    else s.flushes
  }

  function InboxNext(s: System, action: Action): seq<Evidence> {
    if action.FlushPost? && action.reached && FlushIn(s, action.id, Posting)
    then s.inbox + [FlushEntry(s, action.id).evidence] else s.inbox
  }

  // ---- Steps ----

  function RemovedBetween(d: Disk, x: Disk): set<Record> {
    set slot | slot in d.records && slot !in x.records :: d.records[slot]
  }

  lemma NothingRemoved(d: Disk, x: Disk)
    requires d.records.Keys <= x.records.Keys
    ensures RemovedBetween(d, x) == {}
  {
  }

  function ResumableNext(s: System, action: Action, threw: bool): set<Record> {
    if action.Resume? then s.resumable - {action.record}
    else if action.Restart? && !threw then RecordsAt(s.node.disk, InState(s.node.disk, StateReceived))
    else s.resumable
  }

  /** The state after a step whose journal call, if any, returned or threw in `node`. */
  function Next(site: Site, s: System, action: Action, node: Node, threw: bool): System {
    System(
      node, if action.Tick? then action.now else s.clock, s.up || (action.Restart? && !threw),
      ActiveNext(site, s, action, threw), FlushesNext(s, action, threw), ResumableNext(s, action, threw),
      AnswersNext(site, s, action),
      if action.Rebind? then action.next else s.bindings, if action.Persist? then s.bindings else s.stored,
      if action.Send? then s.sends + multiset{action.id} else s.sends,
      if StaleResume(site, s, action) then s.stale + multiset{action.record.command.commandId} else s.stale,
      InboxNext(s, action), s.removed + RemovedBetween(s.node.disk, node.disk))
  }

  /** What the process knew is gone. */
  function Down(s: System, node: Node): System {
    s.(node := node.(races := map[]), up := false, active := map[], flushes := map[], resumable := {}, answers := {},
       bindings := s.stored, removed := s.removed + RemovedBetween(s.node.disk, node.disk))
  }

  /** A step runs to its end. */
  ghost predicate Completes(site: Site, s: System, action: Action, error: Option<Error>, t: System) {
    && Enabled(site, s, action) && !action.Crash?
    && (match CallOf(site, s, action)
        case None => t.node == s.node && error.None?
        case Some(call) => Returns(site.cfg, s.node, call, t.node, error))
    && t == Next(site, s, action, t.node, error.Some?)
  }

  /** The process dies, between steps or between two storage writes of a step's journal call. */
  ghost predicate Dies(site: Site, s: System, action: Action, t: System) {
    && Enabled(site, s, action)
    && t == Down(s, Node(t.node.disk, map[], t.node.next))
    && (match CallOf(site, s, action)
        case None => action.Crash? && t.node.disk == s.node.disk && t.node.next == s.node.next
        case Some(call) => Interrupted(site.cfg, s.node, call, t.node.disk, t.node.next))
  }

  ghost predicate Step(site: Site, s: System, t: System) {
    || (exists action, error :: Completes(site, s, action, error, t))
    || (exists action :: Dies(site, s, action, t))
  }

  ghost predicate Initial(s: System) {
    && s.node.disk == Disk(map[], map[], map[], map[]) && s.node.races == map[] && !s.up
    && s.active == map[] && s.flushes == map[] && s.resumable == {} && s.answers == {} && s.bindings == []
        && s.stored == []
    && s.sends == multiset{} && s.stale == multiset{} && s.inbox == [] && s.removed == {}
  }

  ghost predicate Run(site: Site, t: seq<System>) {
    && |t| > 0 && Initial(t[0])
    && forall i | 0 <= i < |t| - 1 :: Step(site, t[i], t[i + 1])
  }

  /** One command per id, with a valid expiry window, and records retained for at least an hour. */
  ghost predicate ValidSite(site: Site) {
    && site.cfg.terminalRetention >= MAX_EXPIRY_WINDOW
    && (forall id :: site.catalog(id).commandId == id)
    && (forall id :: ValidWindow(site.catalog(id)))
  }
}
