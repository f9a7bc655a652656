/** How executions end: what a send returned, or why a check failed, is what the journal records. */
module Executions {
  import opened Wrappers
  import opened Protocol
  import opened Records
  import opened JournalStore
  import opened JournalCalls
  import opened Connector
  import opened ConnectorBase
  import CallMeanings

  // ---- Runs with the steps that were taken ----

  datatype Event = Ran(action: Action, error: Option<Error>) | Died

  ghost predicate Happens(site: Site, s: System, e: Event, t: System) {
    match e
    case Ran(action, error) => Completes(site, s, action, error, t)
    case Died => exists action :: Dies(site, s, action, t)
  }

  ghost predicate History(site: Site, t: seq<System>, h: seq<Event>) {
    && |t| == |h| + 1 && Initial(t[0])
    && forall i | 0 <= i < |h| :: Happens(site, t[i], h[i], t[i + 1])
  }

  lemma HappensIsStep(site: Site, s: System, e: Event, t: System)
    requires Happens(site, s, e, t)
    ensures Step(site, s, t)
  {
    hide Completes, Dies;
  }

  lemma HistoryIsRun(site: Site, t: seq<System>, h: seq<Event>)
    requires History(site, t, h)
    ensures Run(site, t)
  {
    hide Happens, Step, Initial;
    forall i | 0 <= i < |t| - 1 ensures Step(site, t[i], t[i + 1]) {
      assert Happens(site, t[i], h[i], t[i + 1]);
      HappensIsStep(site, t[i], h[i], t[i + 1]);
    }
  }

  // ---- How one record moves in a step ----

  function Home(site: Site, id: string): Slot {
    HomeOf(site.cfg, site.catalog(id))
  }

  function RecordOf(site: Site, s: System, id: string): Record
    requires IsStored(site, s.node.disk, id)
  {
    s.node.disk.records[Home(site, id)]
  }

  predicate IsIn(site: Site, s: System, id: string, state: State) {
    IsStored(site, s.node.disk, id) && RecordOf(site, s, id).state == state
  }

  /** How the record of a command may go from `s` to `t` in a step that runs to its end. */
  ghost predicate HomeMoves(site: Site, s: System, action: Action, t: System, id: string) {
    if IsStored(site, s.node.disk, id) && IsStored(site, t.node.disk, id) then
      var r, q := RecordOf(site, s, id), RecordOf(site, t, id);
      && (IsTerminal(r.state) ==> q.state == r.state && q.messageId == r.messageId)
      && match CallOf(site, s, action)
         case None => q == r
         case Some(call) => Permitted(r, q, call) && r.command.commandId == id
    else if IsStored(site, t.node.disk, id) then
      action.Ingress? && RecordOf(site, t, id).state.StateReceived?
    else IsStored(site, s.node.disk, id) ==> IsTerminal(RecordOf(site, s, id).state)
  }

  lemma CallHomeMoves(site: Site, s: System, call: Call, x: Disk, next: nat, id: string)
    requires ValidSite(site) && Base(site, s) && Kept(site.cfg, s.node, call, x, next)
    ensures var home, d := Home(site, id), s.node.disk;
            && (home in d.records && home in x.records ==>
                  && Permitted(d.records[home], x.records[home], call) && d.records[home].command.commandId == id
                  && (IsTerminal(d.records[home].state) ==>
                        x.records[home].state == d.records[home].state
                        && x.records[home].messageId == d.records[home].messageId))
            && (home !in d.records && home in x.records ==> call.Receive? && x.records[home].state.StateReceived?)
            && (home in d.records && home !in x.records ==> IsTerminal(d.records[home].state))
  {
    hide ValidRecord, HasMessage, DrawnBefore, Timely, OwnCommands, Consistent, Permitted;
    var home, d := Home(site, id), s.node.disk;
    if home in d.records && home in x.records {
      assert Evolves(d.records[home], x.records[home], call);
      assert d.records[home].command == site.catalog(id);
    }
    if home in d.records && home !in x.records { assert ExpiredSlot(site.cfg, d, home, call.now); }
  }

  lemma CompletesHomeMoves(site: Site, s: System, action: Action, error: Option<Error>, t: System, id: string)
    requires ValidSite(site) && Base(site, s) && Completes(site, s, action, error, t)
    ensures HomeMoves(site, s, action, t, id)
  {
    hide *;
    ClockMoves(site, s, action, error, t);
    CompletesCall(site, s, action, error, t);
    if CallOf(site, s, action).Some? {
      var call := CallOf(site, s, action).value;
      CallReady(site, s, action, call);
      ReturnKeeps(site.cfg, s.node, call, t.node, error, s.clock);
      CallHomeMoves(site, s, call, t.node.disk, t.node.next, id);
      MovesByCall(site, s, action, t, id);
    } else {
      MovesWithout(site, s, action, t, id);
    }
  }

  lemma MovesByCall(site: Site, s: System, action: Action, t: System, id: string)
    requires CallOf(site, s, action).Some?
    requires var home, d, x, call := Home(site, id), s.node.disk, t.node.disk, CallOf(site, s, action).value;
             && (home in d.records && home in x.records ==>
                   && Permitted(d.records[home], x.records[home], call) && d.records[home].command.commandId == id
                   && (IsTerminal(d.records[home].state) ==>
                         x.records[home].state == d.records[home].state
                         && x.records[home].messageId == d.records[home].messageId))
             && (home !in d.records && home in x.records ==> call.Receive? && x.records[home].state.StateReceived?)
             && (home in d.records && home !in x.records ==> IsTerminal(d.records[home].state))
    requires CallOf(site, s, action).value.Receive? ==> action.Ingress?
    ensures HomeMoves(site, s, action, t, id)
  {
    hide Permitted, CallOf;
  }

  lemma MovesWithout(site: Site, s: System, action: Action, t: System, id: string)
    requires CallOf(site, s, action).None? && t.node == s.node
    ensures HomeMoves(site, s, action, t, id)
  {
    hide CallOf;
  }

  /** A step by which the record of the command changes state is a step of its execution, an answer to its ingress, or a
      restart. */
  lemma StateChanges(site: Site, s: System, action: Action, t: System, id: string)
    requires HomeMoves(site, s, action, t, id) && Enabled(site, s, action)
    requires IsStored(site, s.node.disk, id) && IsStored(site, t.node.disk, id)
    requires RecordOf(site, t, id).state != RecordOf(site, s, id).state
    ensures action.Restart? || (action.Respond? && action.answer.id == id) || (Executes(action) && action.id == id)
  {
    hide IsStored, BindingFor;
  }

  lemma MessageChanges(site: Site, s: System, action: Action, t: System, id: string)
    requires HomeMoves(site, s, action, t, id)
    requires IsStored(site, s.node.disk, id) && IsStored(site, t.node.disk, id)
    requires RecordOf(site, t, id).messageId != RecordOf(site, s, id).messageId
    ensures action == Accept(id)
  {
    hide IsStored, BindingFor;
  }

  // ---- What the calls for one command do to its record ----

  lemma HomeStored(site: Site, s: System, id: string)
    requires ValidSite(site) && Base(site, s) && s.up && IsStored(site, s.node.disk, id)
    ensures CallMeanings.Stored(site.cfg, s.node.disk, Home(site, id)) && Home(site, id).id == id
  {
    hide ValidRecord, HasMessage, DrawnBefore, Timely, OwnCommands;
  }

  /** The record after a call for its command. */
  ghost predicate Target(r: Record, q: Record, call: Call, error: Option<Error>) {
    match call
    case MarkStarted(_, now) =>
      error.None? && if r.state.StateReceived? then
        CallMeanings.Adds(r, q, StateStarted, SendStarted, Pending, None, None, now) else q == r
    case MarkRejected(_, errorClass, errorCode, now) =>
      if r.state.StateReceived? then
        error.None? && CallMeanings.Adds(r, q, StateRejected, SendRejected, DeliveryStatus.Failure, Some(errorClass),
                                         Some(errorCode), now)
      else q == r && (error.Some? <==> r.state.StateStarted?)
    case MarkIndeterminate(_, errorCode, now) =>
      error.None? && if r.state.StateReceived? || r.state.StateStarted? then
        CallMeanings.Adds(r, q, StateIndeterminate, SendIndeterminate, Indeterminate, Some(Ambiguous), Some(errorCode),
                          now)
      else q == r
    case MarkAccepted(_, m, now) =>
      if r.state.StateStarted? then CallMeanings.AcceptedAs(r, q, m, now)
      else q == r && (error.Some? <==> r.state.StateReceived?)
    case _ => true
  }

  predicate OnOne(call: Call) {
    Transitions(call) || call.MarkAccepted?
  }

  lemma CallTarget(cfg: Config, n: Node, slot: Slot, call: Call, after: Node, error: Option<Error>)
    requires CallMeanings.Stored(cfg, n.disk, slot) && slot in n.disk.records
    requires OnOne(call) && call.id == slot.id && WellFormed(call) && Returns(cfg, n, call, after, error)
    ensures slot in after.disk.records && Target(n.disk.records[slot], after.disk.records[slot], call, error)
  {
    hide CallMeanings.Stored, TransitionOutcome, AcceptOutcome, CallMeanings.Adds, CallMeanings.AcceptedAs,
         CallMeanings.AcknowledgedLast;
    match call
    case MarkStarted(_, now) => CallMeanings.StartMeans(cfg, n, slot, now);
    case MarkRejected(_, errorClass, errorCode, now) =>
      CallMeanings.RejectMeans(cfg, n, slot, errorClass, errorCode, now);
    case MarkIndeterminate(_, errorCode, now) => CallMeanings.IndeterminateMeans(cfg, n, slot, errorCode, now);
    case MarkAccepted(_, m, now) => CallMeanings.AcceptMeans(cfg, n, slot, m, now);
  }

  lemma StepTarget(site: Site, s: System, action: Action, error: Option<Error>, t: System, id: string)
    requires ValidSite(site) && Base(site, s) && s.up && IsStored(site, s.node.disk, id)
    requires Completes(site, s, action, error, t)
    requires CallOf(site, s, action).Some? && OnOne(CallOf(site, s, action).value)
             && CallOf(site, s, action).value.id == id
    ensures IsStored(site, t.node.disk, id)
    ensures Target(RecordOf(site, s, id), RecordOf(site, t, id), CallOf(site, s, action).value, error)
  {
    var call := CallOf(site, s, action).value;
    HomeStored(site, s, id);
    ClockMoves(site, s, action, error, t);
    CompletesCall(site, s, action, error, t);
    CallReady(site, s, action, call);
    ReadyFormed(site.cfg, s.node, call, s.clock);
    hide ValidSite, Base, Completes, Enabled, CallOf, Returns, Next, Target, CallMeanings.Stored, Ready, WellFormed,
         OnOne;
    CallTarget(site.cfg, s.node, Home(site, id), call, t.node, error);
  }

  lemma ReadyFormed(cfg: Config, n: Node, call: Call, clock: Time)
    requires Ready(cfg, n, call, clock)
    ensures WellFormed(call)
  {
    hide Sound, Indexed;
  }

  // ---- What the executions do next ----

  lemma ActiveAfter(site: Site, s: System, action: Action, node: Node, threw: bool, id: string)
    ensures var u := Next(site, s, action, node, threw);
            if Executes(action) && action.id == id && id in s.active then
              var stage := StageNext(s, action, threw);
              (id in u.active <==> stage.Some?) && (id in u.active ==> u.active[id].stage == stage.value)
            else
              && (id in s.active ==> id in u.active && u.active[id] == s.active[id])
              && (id !in s.active && id in u.active ==> u.active[id].stage.Scheduled?)
  {
    hide StageNext, Scheduling, FlushesNext, ResumableNext, AnswersNext, InboxNext, StaleResume, RemovedBetween;
  }

  // ---- The fate of a send ----

  /** Whether this process has started the command, and what its send returned: a message id, or none when it threw or
      named no message. */
  datatype Fate = Unknown | Running | Answered(messageId: Option<string>)

  /** A crash forgets the fate, and so does the end of the record. */
  function FateNext(site: Site, s: System, e: Event, t: System, id: string, fate: Fate): Fate {
    if e.Died? || !IsStored(site, t.node.disk, id) then Unknown
    else match e.action
      case Start(x) => if x == id && IsReceived(site, s.node.disk, id) then Running else fate
      case Result(x, messageId, threw) =>
        if x == id && fate.Running? then Answered(if threw then None else messageId) else fate
      case _ => fate
  }

  ghost function FateOf(site: Site, t: seq<System>, h: seq<Event>, k: nat, id: string): Fate
    requires |t| == |h| + 1 && k <= |h|
  {
    if k == 0 then Unknown else FateNext(site, t[k - 1], h[k - 1], t[k], id, FateOf(site, t, h, k - 1, id))
  }

  predicate InUndecided(s: System, id: string) {
    id in s.active && s.active[id].stage.Undecided?
  }

  /** A record is started only while the send of this process is out or its result is being recorded. */
  ghost predicate Fits(site: Site, s: System, id: string, fate: Fate) {
    match fate
    case Unknown => s.up ==> !IsIn(site, s, id, StateStarted)
    case Running => s.up && IsIn(site, s, id, StateStarted) && (InStage(s, id, Sending) || InStage(s, id, Waiting))
    case Answered(Some(m)) =>
      s.up && ((IsIn(site, s, id, StateStarted) && InStage(s, id, Accepting(m)))
               || (IsIn(site, s, id, StateAccepted) && RecordOf(site, s, id).messageId == Some(m)))
    case Answered(None) =>
      s.up && ((IsIn(site, s, id, StateStarted) && InUndecided(s, id)) || IsIn(site, s, id, StateIndeterminate))
  }

  predicate NoReplay(s: System) {
    forall answer | answer in s.answers :: !answer.Replayed?
  }

  /** The states after a call for a command, by the state before. */
  predicate TargetState(r: Record, q: Record, call: Call, threw: bool) {
    match call
    case MarkStarted(_, _) => if r.state.StateReceived? then q.state.StateStarted? && !threw else q == r
    case MarkRejected(_, _, _, _) => if r.state.StateReceived? then q.state.StateRejected? else q == r
    case MarkIndeterminate(_, _, _) =>
      if r.state.StateReceived? || r.state.StateStarted? then q.state.StateIndeterminate? else q == r
    case MarkAccepted(_, m, _) =>
      if r.state.StateStarted? then q.state.StateAccepted? && q.messageId == Some(m) else q == r
    case _ => true
  }

  lemma TargetIsState(r: Record, q: Record, call: Call, error: Option<Error>)
    requires Target(r, q, call, error)
    ensures TargetState(r, q, call, error.Some?)
  {
  }

  lemma OwnRuns(site: Site, s: System, action: Action)
    requires Enabled(site, s, action) && Executes(action)
    ensures s.up && action.id in s.active
    ensures match CallOf(site, s, action)
            case None => true
            case Some(call) => OnOne(call) && call.id == action.id
  {
    hide BindingFor;
  }

  lemma StaysUp(site: Site, s: System, action: Action, node: Node, threw: bool)
    ensures s.up ==> Next(site, s, action, node, threw).up
  {
    hide ActiveNext, FlushesNext, ResumableNext, AnswersNext, InboxNext, StaleResume, RemovedBetween;
  }

  /** What is known after a step of the command's own execution. */
  ghost predicate OwnStep(site: Site, s: System, action: Action, threw: bool, t: System, id: string) {
    && Executes(action) && action.id == id && Enabled(site, s, action)
    && s.up && t.up && id in s.active
    && (var stage := StageNext(s, action, threw);
        (id in t.active <==> stage.Some?) && (id in t.active ==> t.active[id].stage == stage.value))
    && IsStored(site, s.node.disk, id) && IsStored(site, t.node.disk, id)
    && match CallOf(site, s, action)
       case None => RecordOf(site, t, id) == RecordOf(site, s, id)
       case Some(call) => TargetState(RecordOf(site, s, id), RecordOf(site, t, id), call, threw)
  }

  lemma OwnIsStep(site: Site, s: System, action: Action, error: Option<Error>, t: System, id: string)
    requires ValidSite(site) && Base(site, s) && Completes(site, s, action, error, t)
    requires Executes(action) && action.id == id && IsStored(site, t.node.disk, id)
    ensures OwnStep(site, s, action, error.Some?, t, id)
  {
    hide *;
    ClockMoves(site, s, action, error, t);
    OwnRuns(site, s, action);
    ActiveAfter(site, s, action, t.node, error.Some?, id);
    StaysUp(site, s, action, t.node, error.Some?);
    CompletesHomeMoves(site, s, action, error, t, id);
    WasStored(site, s, action, t, id);
    if CallOf(site, s, action).Some? {
      StepTarget(site, s, action, error, t, id);
      TargetIsState(RecordOf(site, s, id), RecordOf(site, t, id), CallOf(site, s, action).value, error);
    }
    OwnTogether(site, s, action, error.Some?, t, id);
  }

  lemma WasStored(site: Site, s: System, action: Action, t: System, id: string)
    requires HomeMoves(site, s, action, t, id) && Executes(action) && IsStored(site, t.node.disk, id)
    ensures IsStored(site, s.node.disk, id)
    ensures CallOf(site, s, action).None? ==> RecordOf(site, t, id) == RecordOf(site, s, id)
  {
    hide CallOf, IsStored, Permitted;
  }

  lemma OwnTogether(site: Site, s: System, action: Action, threw: bool, t: System, id: string)
    requires Executes(action) && action.id == id && Enabled(site, s, action)
    requires s.up && t.up && id in s.active
    requires var stage := StageNext(s, action, threw);
             (id in t.active <==> stage.Some?) && (id in t.active ==> t.active[id].stage == stage.value)
    requires IsStored(site, s.node.disk, id) && IsStored(site, t.node.disk, id)
    requires match CallOf(site, s, action)
             case None => RecordOf(site, t, id) == RecordOf(site, s, id)
             case Some(call) => TargetState(RecordOf(site, s, id), RecordOf(site, t, id), call, threw)
    ensures OwnStep(site, s, action, threw, t, id)
  {
    hide Executes, Enabled, StageNext, IsStored, CallOf, TargetState;
  }

  /** The steps of the command's own execution. */
  lemma OwnFits(site: Site, s: System, action: Action, error: Option<Error>, t: System, id: string, fate: Fate)
    requires OwnStep(site, s, action, error.Some?, t, id) && Fits(site, s, id, fate)
    ensures Fits(site, t, id, FateNext(site, s, Ran(action, error), t, id, fate))
  {
    hide OwnStep, Fits, FateNext;
    match fate
    case Unknown => UnknownGoesOn(site, s, action, error, t, id);
    case Running => RunningGoesOn(site, s, action, error, t, id);
    case Answered(m) => AnsweredGoesOn(site, s, action, error, t, id, m);
  }

  lemma UnknownGoesOn(site: Site, s: System, action: Action, error: Option<Error>, t: System, id: string)
    requires OwnStep(site, s, action, error.Some?, t, id) && Fits(site, s, id, Unknown)
    ensures Fits(site, t, id, FateNext(site, s, Ran(action, error), t, id, Unknown))
  {
    hide IsStored, IsCurrent;
  }

  lemma RunningGoesOn(site: Site, s: System, action: Action, error: Option<Error>, t: System, id: string)
    requires OwnStep(site, s, action, error.Some?, t, id) && Fits(site, s, id, Running)
    ensures Fits(site, t, id, FateNext(site, s, Ran(action, error), t, id, Running))
  {
    hide IsStored, IsCurrent;
  }

  lemma AnsweredGoesOn(site: Site, s: System, action: Action, error: Option<Error>, t: System, id: string,
                       m: Option<string>)
    requires OwnStep(site, s, action, error.Some?, t, id) && Fits(site, s, id, Answered(m))
    ensures Fits(site, t, id, FateNext(site, s, Ran(action, error), t, id, Answered(m)))
  {
    hide OwnStep, Fits, FateNext;
    match m
    case Some(x) => AcceptanceGoesOn(site, s, action, error, t, id, x);
    case None => DoubtGoesOn(site, s, action, error, t, id);
  }

  lemma AcceptanceGoesOn(site: Site, s: System, action: Action, error: Option<Error>, t: System, id: string, m: string)
    requires OwnStep(site, s, action, error.Some?, t, id) && Fits(site, s, id, Answered(Some(m)))
    ensures Fits(site, t, id, FateNext(site, s, Ran(action, error), t, id, Answered(Some(m))))
  {
    hide IsStored, IsCurrent;
  }

  lemma DoubtGoesOn(site: Site, s: System, action: Action, error: Option<Error>, t: System, id: string)
    requires OwnStep(site, s, action, error.Some?, t, id) && Fits(site, s, id, Answered(None))
    ensures Fits(site, t, id, FateNext(site, s, Ran(action, error), t, id, Answered(None)))
  {
    hide IsStored, IsCurrent;
  }

  // -- the steps of others

  lemma OthersStage(site: Site, s: System, action: Action, error: Option<Error>, t: System, id: string)
    requires Completes(site, s, action, error, t) && !(Executes(action) && action.id == id)
    ensures id in s.active ==> id in t.active && t.active[id] == s.active[id]
    ensures s.up ==> t.up
    ensures t.up && !s.up ==> action.Restart? && error.None?
  {
    ClockMoves(site, s, action, error, t);
    ActiveAfter(site, s, action, t.node, error.Some?, id);
    hide Completes, ActiveNext, FlushesNext, ResumableNext, AnswersNext, InboxNext, StaleResume, RemovedBetween,
         StageNext;
  }

  /** What others may make of a record: reject it out of RECEIVED, remove it once it is closed, or receive it anew. */
  ghost predicate OthersStep(site: Site, s: System, t: System, id: string) {
    && s.up && t.up
    && (id in s.active ==> id in t.active && t.active[id] == s.active[id])
    && (IsStored(site, s.node.disk, id) && IsStored(site, t.node.disk, id) ==>
          var r, q := RecordOf(site, s, id), RecordOf(site, t, id);
          q.messageId == r.messageId && (q.state == r.state || (r.state.StateReceived? && q.state.StateRejected?)))
    && (!IsStored(site, s.node.disk, id) && IsStored(site, t.node.disk, id) ==>
          RecordOf(site, t, id).state.StateReceived?)
  }

  lemma OthersIsStep(site: Site, s: System, action: Action, error: Option<Error>, t: System, id: string)
    requires ValidSite(site) && Base(site, s) && Completes(site, s, action, error, t) && s.up && NoReplay(s)
    requires !(Executes(action) && action.id == id)
    ensures OthersStep(site, s, t, id)
  {
    hide *;
    ClockMoves(site, s, action, error, t);
    OthersStage(site, s, action, error, t, id);
    CompletesHomeMoves(site, s, action, error, t, id);
    if IsStored(site, s.node.disk, id) && IsStored(site, t.node.disk, id) && action == Respond(Rotated(id)) {
      RespondCall(site, s, id);
      StepTarget(site, s, action, error, t, id);
      TargetIsState(RecordOf(site, s, id), RecordOf(site, t, id), CallOf(site, s, action).value, error);
    }
    OthersTogether(site, s, action, error.Some?, t, id);
  }

  lemma RespondCall(site: Site, s: System, id: string)
    ensures CallOf(site, s, Respond(Rotated(id))) ==
              Some(Call.MarkRejected(id, BindingMismatch, "BINDING_ROTATED", s.clock))
    ensures OnOne(CallOf(site, s, Respond(Rotated(id))).value)
  {
  }

  lemma OthersTogether(site: Site, s: System, action: Action, threw: bool, t: System, id: string)
    requires s.up && t.up && NoReplay(s) && Enabled(site, s, action) && !(Executes(action) && action.id == id)
    requires id in s.active ==> id in t.active && t.active[id] == s.active[id]
    requires HomeMoves(site, s, action, t, id)
    requires IsStored(site, s.node.disk, id) && IsStored(site, t.node.disk, id) && action == Respond(Rotated(id)) ==>
               TargetState(RecordOf(site, s, id), RecordOf(site, t, id), CallOf(site, s, action).value, threw)
               && CallOf(site, s, action) ==
                    Some(Call.MarkRejected(id, BindingMismatch, "BINDING_ROTATED", s.clock))
    ensures OthersStep(site, s, t, id)
  {
    if IsStored(site, s.node.disk, id) && IsStored(site, t.node.disk, id) {
      if RecordOf(site, t, id).state != RecordOf(site, s, id).state { StateChanges(site, s, action, t, id); }
      if RecordOf(site, t, id).messageId != RecordOf(site, s, id).messageId { MessageChanges(site, s, action, t, id); }
      hide HomeMoves, IsStored, CallOf, BindingFor;
      if action.Respond? { assert !action.answer.Replayed?; }
    } else {
      hide IsStored, CallOf, Permitted, Enabled;
    }
  }

  lemma OthersFits(site: Site, s: System, t: System, id: string, fate: Fate)
    requires OthersStep(site, s, t, id) && Fits(site, s, id, fate)
    ensures IsStored(site, t.node.disk, id) ==> Fits(site, t, id, fate)
    ensures !IsStored(site, t.node.disk, id) ==> Fits(site, t, id, Unknown)
  {
    hide IsStored;
  }

  lemma OthersFate(site: Site, s: System, action: Action, error: Option<Error>, t: System, id: string, fate: Fate)
    requires !(Executes(action) && action.id == id)
    ensures FateNext(site, s, Ran(action, error), t, id, fate) ==
              if IsStored(site, t.node.disk, id) then fate else Unknown
  {
    hide IsStored, IsReceived;
  }

  lemma RestartFits(site: Site, s: System, action: Action, error: Option<Error>, t: System, id: string)
    requires ValidSite(site) && Base(site, s) && Completes(site, s, action, error, t) && !s.up
    ensures Fits(site, t, id, Unknown)
  {
    if t.up {
      RestartCloses(site, s, action, error, t);
      hide Completes, Base, ValidSite;
    }
  }

  lemma RestartCloses(site: Site, s: System, action: Action, error: Option<Error>, t: System)
    requires Base(site, s) && Completes(site, s, action, error, t) && !s.up && t.up
    ensures NothingStarted(t.node.disk)
  {
    RestartReturns(site, s, action, error, t);
    hide Completes, RecoverReturns, NothingStarted;
    BaseConsistent(site, s);
    hide Base, Consistent;
    var reply :| RecoverReturns(s.node, s.clock, t.node, reply) && reply.Done?;
    RecoveryCloses(site.cfg, s.node, s.clock, t.node, reply);
  }

  lemma RecoveryCloses(cfg: Config, n: Node, now: Time, after: Node, reply: Reply<Recovery, Error>)
    requires Consistent(cfg, n.disk) && RecoverReturns(n, now, after, reply) && reply.Done?
    ensures NothingStarted(after.disk)
  {
    hide Consistent, RecoverReturns;
    CallMeanings.RecoverMeans(cfg, n, now, after, reply);
    forall slot | slot in after.disk.records ensures !after.disk.records[slot].state.StateStarted? {
      assert slot in after.disk.records.Keys;
    }
  }

  ghost predicate NothingStarted(d: Disk) {
    forall slot | slot in d.records :: !d.records[slot].state.StateStarted?
  }

  lemma BaseConsistent(site: Site, s: System)
    requires Base(site, s)
    ensures Consistent(site.cfg, s.node.disk)
  {
    hide Consistent, Indexed, OwnCommands, Catalogued;
  }

  lemma RestartReturns(site: Site, s: System, action: Action, error: Option<Error>, t: System)
    requires Completes(site, s, action, error, t) && !s.up && t.up
    ensures exists reply :: RecoverReturns(s.node, s.clock, t.node, reply) && reply.Done?
  {
    hide RecoverReturns, ActiveNext, FlushesNext, ResumableNext, AnswersNext, InboxNext, StaleResume, RemovedBetween;
  }

  lemma DownFate(site: Site, s: System, id: string, fate: Fate)
    requires Fits(site, s, id, fate) && !s.up
    ensures fate == Unknown
  {
  }

  lemma RestartFate(site: Site, s: System, action: Action, error: Option<Error>, t: System, id: string)
    requires Enabled(site, s, action) && !s.up
    ensures FateNext(site, s, Ran(action, error), t, id, Unknown) == Unknown
  {
    hide IsStored, IsReceived;
  }

  // -- no replay finds a started record without its execution

  lemma IngressFindsState(site: Site, s: System, action: Action, state: State)
    requires ValidSite(site) && Base(site, s) && Enabled(site, s, action) && action.Ingress?
    requires CallOf(site, s, action).Some? && ReceivedState(site, s, action) == Some(state) && !state.StateReceived?
    ensures IsIn(site, s, action.id, state)
  {
    hide ValidRecord, Timely, DrawnBefore, HasMessage, OwnCommands;
  }

  lemma AnswersStay(site: Site, s: System, action: Action, threw: bool)
    requires ValidSite(site) && Base(site, s) && Enabled(site, s, action) && NoReplay(s)
    requires forall id | IsIn(site, s, id, StateStarted) :: id in s.active
    ensures forall answer | answer in AnswersNext(site, s, action) :: !answer.Replayed?
  {
    hide ValidSite, Base, Enabled, CallOf, ReceivedState, IsCurrent, IsIn;
    if action.Ingress? && CallOf(site, s, action).Some? && ReceivedState(site, s, action) == Some(StateStarted) {
      IngressFindsState(site, s, action, StateStarted);
    }
  }

  lemma FitsActive(site: Site, s: System, id: string, fate: Fate)
    requires Fits(site, s, id, fate) && s.up && IsIn(site, s, id, StateStarted)
    ensures id in s.active && fate != Unknown
  {
    hide IsStored;
  }

  // -- over histories

  ghost predicate FitsAt(site: Site, t: seq<System>, h: seq<Event>, k: nat, id: string)
    requires |t| == |h| + 1 && k <= |h|
  {
    Fits(site, t[k], id, FateOf(site, t, h, k, id))
  }

  ghost predicate AllFit(site: Site, t: seq<System>, h: seq<Event>, k: nat)
    requires |t| == |h| + 1 && k <= |h|
  {
    && NoReplay(t[k])
    && forall id :: FitsAt(site, t, h, k, id)
  }

  lemma CompletesFits(site: Site, s: System, action: Action, error: Option<Error>, t: System, id: string, fate: Fate)
    requires ValidSite(site) && Base(site, s) && Completes(site, s, action, error, t) && NoReplay(s)
    requires Fits(site, s, id, fate)
    ensures Fits(site, t, id, FateNext(site, s, Ran(action, error), t, id, fate))
  {
    hide Completes, Base, ValidSite, Fits, FateNext, OwnStep, OthersStep, IsStored, Enabled, Next, CallOf, NoReplay;
    ClockMoves(site, s, action, error, t);
    if !s.up {
      DownFate(site, s, id, fate);
      RestartFate(site, s, action, error, t, id);
      RestartFits(site, s, action, error, t, id);
    } else if Executes(action) && action.id == id {
      if IsStored(site, t.node.disk, id) {
        OwnIsStep(site, s, action, error, t, id);
        OwnFits(site, s, action, error, t, id, fate);
      } else {
        GoneFits(site, s, action, error, t, id, fate);
      }
    } else {
      OthersIsStep(site, s, action, error, t, id);
      OthersFits(site, s, t, id, fate);
      OthersFate(site, s, action, error, t, id, fate);
    }
  }

  lemma GoneFits(site: Site, s: System, action: Action, error: Option<Error>, t: System, id: string, fate: Fate)
    requires !IsStored(site, t.node.disk, id)
    ensures Fits(site, t, id, FateNext(site, s, Ran(action, error), t, id, fate))
  {
    hide IsStored;
  }

  lemma CompletesNoReplay(site: Site, s: System, action: Action, error: Option<Error>, t: System)
    requires ValidSite(site) && Base(site, s) && Completes(site, s, action, error, t) && NoReplay(s)
    requires forall id | IsIn(site, s, id, StateStarted) && s.up :: id in s.active
    ensures NoReplay(t)
  {
    ClockMoves(site, s, action, error, t);
    if s.up { AnswersStay(site, s, action, error.Some?); } else { AnswersDown(site, s, action); }
    NextAnswers(site, s, action, t.node, error.Some?);
    hide ValidSite, Base, Completes, Next, AnswersNext, IsIn;
  }

  lemma AnswersDown(site: Site, s: System, action: Action)
    requires Enabled(site, s, action) && !s.up
    ensures AnswersNext(site, s, action) == s.answers
  {
  }

  lemma NextAnswers(site: Site, s: System, action: Action, node: Node, threw: bool)
    ensures Next(site, s, action, node, threw).answers == AnswersNext(site, s, action)
  {
    hide ActiveNext, FlushesNext, ResumableNext, AnswersNext, InboxNext, StaleResume, RemovedBetween;
  }

  lemma DiesFits(site: Site, s: System, action: Action, t: System, id: string)
    requires Dies(site, s, action, t)
    ensures Fits(site, t, id, Unknown) && NoReplay(t)
  {
    hide Enabled, CallOf, Interrupted, RemovedBetween;
  }

  lemma StepFits(site: Site, t: seq<System>, h: seq<Event>, k: nat)
    requires |t| == |h| + 1 && k < |h| && Happens(site, t[k], h[k], t[k + 1])
    requires ValidSite(site) && Base(site, t[k]) && AllFit(site, t, h, k)
    ensures AllFit(site, t, h, k + 1)
  {
    hide ValidSite, Base, Fits, Completes, Dies, FateNext, NoReplay, IsIn;
    var next := k + 1;
    match h[k]
    case Ran(action, error) =>
      forall id ensures FitsAt(site, t, h, next, id) {
        assert FitsAt(site, t, h, k, id);
        CompletesFits(site, t[k], action, error, t[k + 1], id, FateOf(site, t, h, k, id));
      }
      forall id | IsIn(site, t[k], id, StateStarted) && t[k].up ensures id in t[k].active {
        assert FitsAt(site, t, h, k, id);
        FitsActive(site, t[k], id, FateOf(site, t, h, k, id));
      }
      CompletesNoReplay(site, t[k], action, error, t[k + 1]);
    case Died =>
      var action :| Dies(site, t[k], action, t[k + 1]);
      forall id ensures FitsAt(site, t, h, next, id) {
        DiesFits(site, t[k], action, t[k + 1], id);
        DiedFate(site, t[k], t[k + 1], id, FateOf(site, t, h, k, id));
      }
      DiesFits(site, t[k], action, t[k + 1], "");
  }

  lemma DiedFate(site: Site, s: System, t: System, id: string, fate: Fate)
    ensures FateNext(site, s, Died, t, id, fate) == Unknown
  {
  }

  lemma {:induction false} HistoryFits(site: Site, t: seq<System>, h: seq<Event>, k: nat)
    requires ValidSite(site) && History(site, t, h) && k <= |h|
    ensures AllFit(site, t, h, k)
  {
    hide ValidSite, Base, Happens, AllFit;
    if k > 0 {
      HistoryFits(site, t, h, k - 1);
      HistoryIsRun(site, t, h);
      RunBase(site, t, k - 1);
      assert Happens(site, t[k - 1], h[k - 1], t[k - 1 + 1]);
      StepFits(site, t, h, k - 1);
    } else {
      NothingFits(site, t, h);
    }
  }

  lemma NothingFits(site: Site, t: seq<System>, h: seq<Event>)
    requires |t| == |h| + 1 && Initial(t[0])
    ensures AllFit(site, t, h, 0)
  {
  }

  /** For every execution that has ended, in every history: if its process started the command, the record is ACCEPTED
      under `m` exactly when the send returned `m`, and INDETERMINATE exactly when the send threw or named no message;
      nothing else can be. While the send is out or its result is being recorded the record is STARTED. */
  lemma SendResultIsRecorded(site: Site, t: seq<System>, h: seq<Event>, k: nat, id: string)
    requires ValidSite(site) && History(site, t, h) && k <= |h| && id !in t[k].active
    requires FateOf(site, t, h, k, id) != Unknown
    ensures FateOf(site, t, h, k, id).Answered? && IsStored(site, t[k].node.disk, id)
    ensures var r := RecordOf(site, t[k], id);
            && (forall m :: r.state.StateAccepted? && r.messageId == Some(m) <==>
                              FateOf(site, t, h, k, id) == Answered(Some(m)))
            && (r.state.StateIndeterminate? <==> FateOf(site, t, h, k, id) == Answered(None))
  {
    hide Happens, Initial, ValidSite, FateOf;
    HistoryFits(site, t, h, k);
    assert FitsAt(site, t, h, k, id);
    hide AllFit, IsStored;
  }

  /** A record is never STARTED in a running connector without its execution, so no replay closes one: whatever is
      waiting to be answered is a rotated command. */
  lemma StartedIsExecuted(site: Site, t: seq<System>, h: seq<Event>, k: nat, id: string)
    requires ValidSite(site) && History(site, t, h) && k <= |h| && t[k].up
    ensures IsIn(site, t[k], id, StateStarted) ==> id in t[k].active && FateOf(site, t, h, k, id) != Unknown
    ensures forall answer | answer in t[k].answers :: answer.Rotated?
  {
    hide Happens, Initial, ValidSite, FateOf;
    HistoryFits(site, t, h, k);
    assert FitsAt(site, t, h, k, id);
    if IsIn(site, t[k], id, StateStarted) { FitsActive(site, t[k], id, FateOf(site, t, h, k, id)); }
    hide Fits, IsIn;
  }

  // ---- Closed is closed ----

  /** The record of the command is closed here and under the same message id there. */
  ghost predicate SameClosed(site: Site, s: System, t: System, id: string) {
    && IsStored(site, s.node.disk, id) && IsStored(site, t.node.disk, id)
    && IsTerminal(RecordOf(site, s, id).state)
    && RecordOf(site, t, id).state == RecordOf(site, s, id).state
    && RecordOf(site, t, id).messageId == RecordOf(site, s, id).messageId
  }

  lemma DiesClosed(site: Site, s: System, action: Action, t: System, id: string)
    requires ValidSite(site) && Base(site, s) && Dies(site, s, action, t)
    requires IsStored(site, s.node.disk, id) && IsStored(site, t.node.disk, id)
    requires IsTerminal(RecordOf(site, s, id).state)
    ensures SameClosed(site, s, t, id)
  {
    DiesCuts(site, s, action, t);
    hide *;
    if CallOf(site, s, action).Some? {
      var call := CallOf(site, s, action).value;
      CallReady(site, s, action, call);
      InterruptKeeps(site.cfg, s.node, call, t.node.disk, t.node.next, s.clock);
      CallHomeMoves(site, s, call, t.node.disk, t.node.next, id);
    }
    ClosedTogether(site, s, t, id);
  }

  lemma DiesCuts(site: Site, s: System, action: Action, t: System)
    requires Dies(site, s, action, t)
    ensures Enabled(site, s, action)
    ensures match CallOf(site, s, action)
            case None => t.node.disk == s.node.disk
            case Some(call) => Interrupted(site.cfg, s.node, call, t.node.disk, t.node.next)
  {
    hide Enabled, CallOf, Interrupted, RemovedBetween;
  }

  lemma ClosedTogether(site: Site, s: System, t: System, id: string)
    requires IsStored(site, s.node.disk, id) && IsStored(site, t.node.disk, id)
    requires IsTerminal(RecordOf(site, s, id).state)
    requires t.node.disk == s.node.disk
             || (t.node.disk.records[Home(site, id)].state == s.node.disk.records[Home(site, id)].state
                 && t.node.disk.records[Home(site, id)].messageId == s.node.disk.records[Home(site, id)].messageId)
    ensures SameClosed(site, s, t, id)
  {
  }

  lemma StepClosed(site: Site, s: System, t: System, id: string)
    requires ValidSite(site) && Base(site, s) && Step(site, s, t)
    requires IsStored(site, s.node.disk, id) && IsStored(site, t.node.disk, id)
    requires IsTerminal(RecordOf(site, s, id).state)
    ensures SameClosed(site, s, t, id)
  {
    hide ValidSite, Base, Completes, Dies, CallOf;
    if action, error :| Completes(site, s, action, error, t) {
      CompletesHomeMoves(site, s, action, error, t, id);
    } else {
      var action :| Dies(site, s, action, t);
      DiesClosed(site, s, action, t, id);
    }
  }

  /** A record that is closed, by whomever, keeps its state and its message id for as long as it is stored, over every
      run. */
  lemma {:induction false} ClosedStays(site: Site, t: seq<System>, i: nat, j: nat, id: string)
    requires ValidSite(site) && Run(site, t) && i <= j < |t|
    requires forall k | i <= k <= j :: IsStored(site, t[k].node.disk, id)
    requires IsTerminal(RecordOf(site, t[i], id).state)
    ensures SameClosed(site, t[i], t[j], id)
    decreases j - i
  {
    hide ValidSite, Base, Step, Initial, IsStored;
    if i < j {
      ClosedStays(site, t, i, j - 1, id);
      RunBase(site, t, j - 1);
      assert Step(site, t[j - 1], t[j - 1 + 1]);
      StepClosed(site, t[j - 1], t[j], id);
    }
  }
}
