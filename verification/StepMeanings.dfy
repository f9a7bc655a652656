/** What the steps of the connector lead to: deliveries and answers to them, refusals, hooks, compaction, crashes and
    restarts. */
module StepMeanings {
  import opened Wrappers
  import opened Protocol
  import opened Records
  import opened JournalStore
  import opened JournalCalls
  import opened Connector
  import opened ConnectorBase
  import opened Executions
  import CallMeanings
  import JournalRuns
  import FlushProgress
  import SendContinuations
  import Bindings

  // ---- Why an execution refuses ----

  /** Why the running execution of a command must not send it: what its last check found. */
  function ReasonNext(site: Site, s: System, e: Event, t: System, id: string,
                      reason: Option<(ErrorClass, string)>): Option<(ErrorClass, string)> {
    if e.Died? || id !in t.active then None
    else match e.action
      case Check(x) =>
        if x != id then reason
        else if s.clock >= site.catalog(id).expiresAt then Some((ExpiredCommand, "COMMAND_EXPIRED"))
        else if !IsCurrent(s, site.catalog(id).bindingGeneration) then Some((BindingMismatch, "BINDING_ROTATED"))
        else None
      case Verify(x, verdict) =>
        if x != id then reason
        else (match verdict
              case MediaOk => None
              case MediaMismatch => Some((InvalidCommand, "MEDIA_PREFLIGHT_REJECTED"))
              case MediaUnavailable => Some((TransientFailure, "MEDIA_PREFLIGHT_UNAVAILABLE")))
      case Recheck(x) =>
        if x != id then reason
        else if s.clock >= site.catalog(id).expiresAt then Some((ExpiredCommand, "COMMAND_EXPIRED")) else None
      case _ => reason
  }

  ghost function ReasonOf(site: Site, t: seq<System>, h: seq<Event>, k: nat, id: string): Option<(ErrorClass, string)>
    requires |t| == |h| + 1 && k <= |h|
  {
    if k == 0 then None else ReasonNext(site, t[k - 1], h[k - 1], t[k], id, ReasonOf(site, t, h, k - 1, id))
  }

  /** An execution with a reason refuses or has refused, and only such a one does. */
  predicate Reasoned(s: System, id: string, reason: Option<(ErrorClass, string)>) {
    && (id in s.active && s.active[id].stage.Refusing? ==>
          reason == Some((s.active[id].stage.errorClass, s.active[id].stage.errorCode)))
    && (reason.Some? ==>
          id in s.active
          && (s.active[id].stage == Refusing(reason.value.0, reason.value.1) || s.active[id].stage.Finishing?))
  }

  lemma OwnReason(site: Site, s: System, action: Action, error: Option<Error>, t: System, id: string,
                  reason: Option<(ErrorClass, string)>)
    requires Enabled(site, s, action) && Executes(action) && action.id == id && id in s.active
    requires s.active[id].command == site.catalog(id) && Reasoned(s, id, reason)
    requires var stage := StageNext(s, action, error.Some?);
             (id in t.active <==> stage.Some?) && (id in t.active ==> t.active[id].stage == stage.value)
    ensures Reasoned(t, id, ReasonNext(site, s, Ran(action, error), t, id, reason))
  {
    hide IsCurrent;
  }

  lemma OthersReason(site: Site, s: System, action: Action, error: Option<Error>, t: System, id: string,
                     reason: Option<(ErrorClass, string)>)
    requires !(Executes(action) && action.id == id) && Reasoned(s, id, reason)
    requires id in s.active ==> id in t.active && t.active[id] == s.active[id]
    requires id !in s.active && id in t.active ==> t.active[id].stage.Scheduled?
    ensures Reasoned(t, id, ReasonNext(site, s, Ran(action, error), t, id, reason))
  {
    hide IsCurrent;
  }

  lemma HappensReason(site: Site, s: System, e: Event, t: System, id: string, reason: Option<(ErrorClass, string)>)
    requires ValidSite(site) && Base(site, s) && Happens(site, s, e, t) && Reasoned(s, id, reason)
    ensures Reasoned(t, id, ReasonNext(site, s, e, t, id, reason))
  {
    match e
    case Ran(action, error) =>
      CompletesReason(site, s, action, error, t, id, reason);
    case Died =>
      hide Enabled, CallOf, Interrupted, RemovedBetween, Base, ValidSite;
  }

  lemma CompletesReason(site: Site, s: System, action: Action, error: Option<Error>, t: System, id: string,
                        reason: Option<(ErrorClass, string)>)
    requires ValidSite(site) && Base(site, s) && Completes(site, s, action, error, t) && Reasoned(s, id, reason)
    ensures Reasoned(t, id, ReasonNext(site, s, Ran(action, error), t, id, reason))
  {
    ClockMoves(site, s, action, error, t);
    ActiveAfter(site, s, action, t.node, error.Some?, id);
    hide Completes, ValidSite, Next, StageNext, ReasonNext, Reasoned, CallOf, Base;
    if Executes(action) && action.id == id {
      OwnRuns(site, s, action);
      OwnCommand(site, s, id);
      hide Enabled;
      OwnReason(site, s, action, error, t, id, reason);
    } else {
      hide Enabled;
      OthersReason(site, s, action, error, t, id, reason);
    }
  }

  lemma OwnCommand(site: Site, s: System, id: string)
    requires Base(site, s) && id in s.active
    ensures s.active[id].command == site.catalog(id)
  {
    hide Sound, Indexed, Catalogued;
  }

  lemma {:induction false} HistoryReasons(site: Site, t: seq<System>, h: seq<Event>, k: nat, id: string)
    requires ValidSite(site) && History(site, t, h) && k <= |h|
    ensures Reasoned(t[k], id, ReasonOf(site, t, h, k, id))
  {
    hide ValidSite, Base, Happens, Reasoned, ReasonNext;
    if k > 0 {
      HistoryReasons(site, t, h, k - 1, id);
      HistoryIsRun(site, t, h);
      RunBase(site, t, k - 1);
      assert Happens(site, t[k - 1], h[k - 1], t[k - 1 + 1]);
      HappensReason(site, t[k - 1], h[k - 1], t[k], id, ReasonOf(site, t, h, k - 1, id));
    } else {
      NoReason(t[0], id);
    }
  }

  lemma NoReason(s: System, id: string)
    requires s.active == map[]
    ensures Reasoned(s, id, None)
  {
  }

  /** In every history, an execution starts and sends its command only when none of its checks found a reason not to. A
      refusal has one, and when the record is still RECEIVED it becomes REJECTED under the class and the code of that
      reason: expired, a rotated binding, or media that do not match or cannot be verified. */
  lemma RefusalIsReasoned(site: Site, t: seq<System>, h: seq<Event>, k: nat, id: string)
    requires ValidSite(site) && History(site, t, h) && k < |h| && h[k].Ran?
    ensures h[k].action == Start(id) || h[k].action == Send(id) ==> ReasonOf(site, t, h, k, id).None?
    ensures h[k].action == Refuse(id) ==> ReasonOf(site, t, h, k, id).Some?
    ensures h[k].action == Refuse(id) && IsIn(site, t[k], id, StateReceived) ==>
              && IsStored(site, t[k + 1].node.disk, id) && h[k].error.None?
              && CallMeanings.Adds(RecordOf(site, t[k], id), RecordOf(site, t[k + 1], id), StateRejected, SendRejected,
                                   DeliveryStatus.Failure, Some(ReasonOf(site, t, h, k, id).value.0),
                                   Some(ReasonOf(site, t, h, k, id).value.1), t[k].clock)
  {
    HistoryReasons(site, t, h, k, id);
    HistoryIsRun(site, t, h);
    RunBase(site, t, k);
    assert Happens(site, t[k], h[k], t[k + 1]);
    var action, error := h[k].action, h[k].error;
    assert Completes(site, t[k], action, error, t[k + 1]);
    var reason := ReasonOf(site, t, h, k, id);
    hide *;
    if action == Start(id) || action == Send(id) { SendsUnreasoned(site, t[k], action, error, t[k + 1], id, reason); }
    if action == Refuse(id) { RefusesReasoned(site, t[k], error, t[k + 1], id, reason); }
  }

  lemma SendsUnreasoned(site: Site, s: System, action: Action, error: Option<Error>, t: System, id: string,
                        reason: Option<(ErrorClass, string)>)
    requires Completes(site, s, action, error, t) && Reasoned(s, id, reason)
    requires action == Start(id) || action == Send(id)
    ensures reason.None?
  {
    hide CallOf, Next, Returns;
  }

  lemma RefusesReasoned(site: Site, s: System, error: Option<Error>, t: System, id: string,
                        reason: Option<(ErrorClass, string)>)
    requires ValidSite(site) && Base(site, s) && Completes(site, s, Refuse(id), error, t) && Reasoned(s, id, reason)
    ensures reason.Some?
    ensures IsIn(site, s, id, StateReceived) ==>
              && IsStored(site, t.node.disk, id) && error.None?
              && CallMeanings.Adds(RecordOf(site, s, id), RecordOf(site, t, id), StateRejected, SendRejected,
                                   DeliveryStatus.Failure, Some(reason.value.0), Some(reason.value.1), s.clock)
  {
    hide Completes, Base, ValidSite, Next, Reasoned, CallOf, Enabled, IsStored, CallMeanings.Adds;
    ClockMoves(site, s, Refuse(id), error, t);
    RefuseReason(site, s, id, reason);
    if IsIn(site, s, id, StateReceived) {
      StepTarget(site, s, Refuse(id), error, t, id);
      RejectTarget(RecordOf(site, s, id), RecordOf(site, t, id), reason.value.0, reason.value.1, error, s.clock, id);
    }
  }

  lemma RejectTarget(r: Record, q: Record, errorClass: ErrorClass, errorCode: string, error: Option<Error>, now: Time,
                     id: string)
    requires r.state.StateReceived? && Target(r, q, Call.MarkRejected(id, errorClass, errorCode, now), error)
    ensures error.None?
    ensures CallMeanings.Adds(r, q, StateRejected, SendRejected, DeliveryStatus.Failure, Some(errorClass),
                              Some(errorCode), now)
  {
    hide CallMeanings.Adds;
  }

  lemma RefuseReason(site: Site, s: System, id: string, reason: Option<(ErrorClass, string)>)
    requires Enabled(site, s, Refuse(id)) && Reasoned(s, id, reason)
    ensures s.up && reason.Some?
    ensures CallOf(site, s, Refuse(id)) == Some(Call.MarkRejected(id, reason.value.0, reason.value.1, s.clock))
    ensures OnOne(CallOf(site, s, Refuse(id)).value)
  {
  }

  // ---- Under which code a send is given up ----

  /** The code under which the running execution gives its send up: the send threw, its answer named no message, or what
      it returned could not be recorded. */
  function CodeNext(s: System, e: Event, t: System, id: string, code: Option<string>): Option<string> {
    if e.Died? || id !in t.active then None
    else match e.action
      case Result(x, messageId, threw) =>
        if x != id then code
        else if threw then Some("OPENWA_SEND_RESULT_AMBIGUOUS")
        else if messageId.None? then Some("OPENWA_RESPONSE_MISSING_MESSAGE_ID") else None
      case Accept(x) => if x != id then code else if e.error.Some? then Some("OPENWA_SEND_RESULT_AMBIGUOUS") else None
      case GiveUp(x) => if x != id then code else if e.error.Some? then Some("OPENWA_SEND_RESULT_AMBIGUOUS") else None
      case _ => code
  }

  ghost function CodeOf(t: seq<System>, h: seq<Event>, k: nat, id: string): Option<string>
    requires |t| == |h| + 1 && k <= |h|
  {
    if k == 0 then None else CodeNext(t[k - 1], h[k - 1], t[k], id, CodeOf(t, h, k - 1, id))
  }

  predicate Coded(s: System, id: string, code: Option<string>) {
    if id in s.active && s.active[id].stage.Undecided? then code == Some(s.active[id].stage.code) else code.None?
  }

  lemma OwnCode(site: Site, s: System, action: Action, error: Option<Error>, t: System, id: string,
                code: Option<string>)
    requires Enabled(site, s, action) && Executes(action) && action.id == id && id in s.active && Coded(s, id, code)
    requires var stage := StageNext(s, action, error.Some?);
             (id in t.active <==> stage.Some?) && (id in t.active ==> t.active[id].stage == stage.value)
    ensures Coded(t, id, CodeNext(s, Ran(action, error), t, id, code))
  {
    hide IsCurrent;
  }

  lemma OthersCode(s: System, action: Action, error: Option<Error>, t: System, id: string, code: Option<string>)
    requires !(Executes(action) && action.id == id) && Coded(s, id, code)
    requires id in s.active ==> id in t.active && t.active[id] == s.active[id]
    requires id !in s.active && id in t.active ==> t.active[id].stage.Scheduled?
    ensures Coded(t, id, CodeNext(s, Ran(action, error), t, id, code))
  {
  }

  lemma HappensCode(site: Site, s: System, e: Event, t: System, id: string, code: Option<string>)
    requires Happens(site, s, e, t) && Coded(s, id, code)
    ensures Coded(t, id, CodeNext(s, e, t, id, code))
  {
    match e
    case Ran(action, error) =>
      ClockMoves(site, s, action, error, t);
      ActiveAfter(site, s, action, t.node, error.Some?, id);
      hide Completes, Next, StageNext, CodeNext, Coded, CallOf;
      if Executes(action) && action.id == id {
        OwnRuns(site, s, action);
        hide Enabled;
        OwnCode(site, s, action, error, t, id, code);
      } else {
        hide Enabled;
        OthersCode(s, action, error, t, id, code);
      }
    case Died => hide Enabled, CallOf, Interrupted, RemovedBetween;
  }

  lemma {:induction false} HistoryCodes(site: Site, t: seq<System>, h: seq<Event>, k: nat, id: string)
    requires History(site, t, h) && k <= |h|
    ensures Coded(t[k], id, CodeOf(t, h, k, id))
  {
    hide Happens, Coded, CodeNext;
    if k > 0 {
      HistoryCodes(site, t, h, k - 1, id);
      assert Happens(site, t[k - 1], h[k - 1], t[k - 1 + 1]);
      HappensCode(site, t[k - 1], h[k - 1], t[k], id, CodeOf(t, h, k - 1, id));
    } else {
      NoCode(t[0], id);
    }
  }

  lemma NoCode(s: System, id: string)
    requires s.active == map[]
    ensures Coded(s, id, None)
  {
  }

  /** In every history, whoever gives a send up closes its record, while that is open, as ambiguous under the code of
      what happened to the send. */
  lemma GiveUpIsCoded(site: Site, t: seq<System>, h: seq<Event>, k: nat, id: string)
    requires ValidSite(site) && History(site, t, h) && k < |h| && h[k].Ran? && h[k].action == GiveUp(id)
    ensures CodeOf(t, h, k, id).Some?
    ensures IsIn(site, t[k], id, StateStarted) ==>
              && IsStored(site, t[k + 1].node.disk, id)
              && CallMeanings.Adds(RecordOf(site, t[k], id), RecordOf(site, t[k + 1], id), StateIndeterminate,
                                   SendIndeterminate, Indeterminate, Some(Ambiguous), CodeOf(t, h, k, id), t[k].clock)
  {
    HistoryCodes(site, t, h, k, id);
    HistoryIsRun(site, t, h);
    RunBase(site, t, k);
    assert Happens(site, t[k], h[k], t[k + 1]);
    var code, error := CodeOf(t, h, k, id), h[k].error;
    assert Completes(site, t[k], GiveUp(id), error, t[k + 1]);
    hide *;
    GivesUpCoded(site, t[k], error, t[k + 1], id, code);
  }

  lemma GivesUpCoded(site: Site, s: System, error: Option<Error>, t: System, id: string, code: Option<string>)
    requires ValidSite(site) && Base(site, s) && Completes(site, s, GiveUp(id), error, t) && Coded(s, id, code)
    ensures code.Some?
    ensures IsIn(site, s, id, StateStarted) ==>
              && IsStored(site, t.node.disk, id)
              && CallMeanings.Adds(RecordOf(site, s, id), RecordOf(site, t, id), StateIndeterminate, SendIndeterminate,
                                   Indeterminate, Some(Ambiguous), code, s.clock)
  {
    hide Completes, Base, ValidSite, Next, Coded, CallOf, Enabled, IsStored, CallMeanings.Adds;
    ClockMoves(site, s, GiveUp(id), error, t);
    GiveUpCode(site, s, id, code);
    if IsIn(site, s, id, StateStarted) {
      StepTarget(site, s, GiveUp(id), error, t, id);
      CloseTarget(RecordOf(site, s, id), RecordOf(site, t, id), code.value, error, s.clock, id);
    }
  }

  lemma GiveUpCode(site: Site, s: System, id: string, code: Option<string>)
    requires Enabled(site, s, GiveUp(id)) && Coded(s, id, code)
    ensures s.up && code.Some?
    ensures CallOf(site, s, GiveUp(id)) == Some(Call.MarkIndeterminate(id, code.value, s.clock))
    ensures OnOne(CallOf(site, s, GiveUp(id)).value)
  {
  }

  lemma CloseTarget(r: Record, q: Record, code: string, error: Option<Error>, now: Time, id: string)
    requires r.state.StateStarted? && Target(r, q, Call.MarkIndeterminate(id, code, now), error)
    ensures CallMeanings.Adds(r, q, StateIndeterminate, SendIndeterminate, Indeterminate, Some(Ambiguous), Some(code),
                              now)
  {
    hide CallMeanings.Adds;
  }

  // ---- An execution can always go on ----

  function OwnNext(s: System, id: string): Action
    requires id in s.active
  {
    match s.active[id].stage
    case Scheduled => Check(id)
    case Verifying => Verify(id, MediaOk)
    case Checked => Recheck(id)
    case Starting => Start(id)
    case Sending => Send(id)
    case Waiting => Result(id, None, true)
    case Accepting(_) => Accept(id)
    case Undecided(_) => GiveUp(id)
    case Refusing(_, _) => Refuse(id)
    case Finishing => Finish(id)
  }

  /** From every running state each execution has a next step. */
  lemma ExecutionNeverStuck(site: Site, s: System, id: string)
    requires s.up && id in s.active
    ensures exists action, error, u :: Executes(action) && action.id == id && Completes(site, s, action, error, u)
  {
    var action := OwnNext(s, id);
    OwnEnabled(site, s, id);
    var node, error := OwnCallReturns(site, s, id);
    hide Enabled, CallOf, Returns, OwnNext, Executes;
    FlushProgress.NextCompletes(site, s, action, node, error);
    hide Completes;
    assert Completes(site, s, action, error, Next(site, s, action, node, error.Some?));
  }

  lemma OwnEnabled(site: Site, s: System, id: string)
    requires s.up && id in s.active
    ensures var action := OwnNext(s, id);
            Enabled(site, s, action) && Executes(action) && action.id == id && !action.Crash?
  {
  }

  lemma OwnCallReturns(site: Site, s: System, id: string) returns (node: Node, error: Option<Error>)
    requires s.up && id in s.active
    ensures match CallOf(site, s, OwnNext(s, id))
            case None => node == s.node && error.None?
            case Some(call) => Returns(site.cfg, s.node, call, node, error)
  {
    hide TransitionOutcome, AcceptOutcome;
    var now := s.clock;
    match s.active[id].stage
    case Starting =>
      var o := TransitionOutcome(site.cfg, s.node, id, StartTransition(now));
      node, error := o.node, ErrorOf(o.reply);
    case Accepting(m) =>
      var o := AcceptOutcome(s.node, id, m, now);
      node, error := o.node, ErrorOf(o.reply);
    case Undecided(code) =>
      var o := TransitionOutcome(site.cfg, s.node, id, IndeterminateTransition(code, now));
      node, error := o.node, ErrorOf(o.reply);
    case Refusing(errorClass, errorCode) =>
      var o := TransitionOutcome(site.cfg, s.node, id, RejectTransition(errorClass, errorCode, now));
      node, error := o.node, ErrorOf(o.reply);
    case _ => node, error := s.node, None;
  }

  // ---- Whatever the world answers ----

  ghost predicate CanRun(site: Site, s: System, action: Action) {
    exists error, t :: Completes(site, s, action, error, t)
  }

  /** A step without a journal call is possible whenever it is enabled. */
  lemma FreeRuns(site: Site, s: System, action: Action)
    requires Enabled(site, s, action) && !action.Crash? && CallOf(site, s, action).None?
    ensures CanRun(site, s, action)
  {
    hide Enabled, CallOf, Completes;
    FlushProgress.NextCompletes(site, s, action, s.node, None);
  }

  /** A media check may find anything, a send may return any message id, none, or throw, a post may or may not reach the
      inbox and be answered, and time may pass at any moment. */
  lemma AnythingIsAnswered(site: Site, s: System, id: string)
    requires s.up
    ensures InStage(s, id, Verifying) ==> forall verdict :: CanRun(site, s, Verify(id, verdict))
    ensures InStage(s, id, Waiting) ==>
              forall messageId, threw | messageId != Some("") :: CanRun(site, s, Result(id, messageId, threw))
    ensures FlushIn(s, id, Posting) && FlushEntry(s, id).deliveredAt.None? ==>
              forall reached, answered :: CanRun(site, s, FlushPost(id, reached, answered))
    ensures forall now | s.clock <= now :: CanRun(site, s, Tick(now))
    ensures CanRun(site, s, Persist)
  {
    hide CanRun;
    if InStage(s, id, Verifying) {
      forall verdict ensures CanRun(site, s, Verify(id, verdict)) { FreeRuns(site, s, Verify(id, verdict)); }
    }
    if InStage(s, id, Waiting) {
      forall messageId, threw | messageId != Some("") ensures CanRun(site, s, Result(id, messageId, threw)) {
        FreeRuns(site, s, Result(id, messageId, threw));
      }
    }
    if FlushIn(s, id, Posting) && FlushEntry(s, id).deliveredAt.None? {
      forall reached, answered ensures CanRun(site, s, FlushPost(id, reached, answered)) {
        FreeRuns(site, s, FlushPost(id, reached, answered));
      }
    }
    forall now | s.clock <= now ensures CanRun(site, s, Tick(now)) { FreeRuns(site, s, Tick(now)); }
    FreeRuns(site, s, Persist);
  }

  /** A delivery may be repeated at any moment and with any digest, and a snapshot is restarted as soon as its binding
      is known. */
  lemma AnythingIsDelivered(site: Site, s: System, id: string, digest: string, utilization: real, maximum: real)
    requires s.up
    ensures site.catalog(id).createdAt <= s.clock && site.catalog(id).sessionId == site.sessionId
            && BindingFor(s.bindings, site.catalog(id).bindingGeneration).Some? ==>
              CanRun(site, s, Ingress(id, digest, utilization, maximum))
    ensures forall record | record in s.resumable && BindingFor(s.bindings, record.command.bindingGeneration).Some? ::
              CanRun(site, s, Resume(record))
  {
    var command := site.catalog(id);
    hide BindingFor, CanRun;
    if command.createdAt <= s.clock && command.sessionId == site.sessionId
       && BindingFor(s.bindings, command.bindingGeneration).Some? {
      ReceiptRuns(site, s, id, digest, utilization, maximum);
    }
    forall record | record in s.resumable && BindingFor(s.bindings, record.command.bindingGeneration).Some?
      ensures CanRun(site, s, Resume(record))
    {
      FreeRuns(site, s, Resume(record));
    }
  }

  lemma ReceiptRuns(site: Site, s: System, id: string, digest: string, utilization: real, maximum: real)
    requires s.up && site.catalog(id).createdAt <= s.clock && site.catalog(id).sessionId == site.sessionId
    requires BindingFor(s.bindings, site.catalog(id).bindingGeneration).Some?
    ensures CanRun(site, s, Ingress(id, digest, utilization, maximum))
  {
    hide BindingFor, ReceiveOutcome;
    var webhookId := BindingFor(s.bindings, site.catalog(id).bindingGeneration).value.webhookId;
    var o := ReceiveOutcome(site.cfg, s.node, site.catalog(id), digest, webhookId, s.clock, utilization, maximum);
    FlushProgress.NextCompletes(site, s, Ingress(id, digest, utilization, maximum), o.node, ErrorOf(o.reply));
    hide Completes, Enabled, CallOf, Returns, Next;
  }

  /** Whatever way the journal call returns, the step is made and leaves the connector over that journal. */
  ghost predicate MadeBy(site: Site, s: System, action: Action, call: Call) {
    forall node, error | Returns(site.cfg, s.node, call, node, error) ::
      exists t :: Completes(site, s, action, error, t) && t.node == node
  }

  lemma CallMakes(site: Site, s: System, action: Action, call: Call)
    requires Enabled(site, s, action) && !action.Crash? && CallOf(site, s, action) == Some(call)
    ensures MadeBy(site, s, action, call)
  {
    hide Enabled, CallOf, Returns, Completes, Next;
    forall node, error | Returns(site.cfg, s.node, call, node, error)
      ensures exists t :: Completes(site, s, action, error, t) && t.node == node
    {
      FlushProgress.NextCompletes(site, s, action, node, error);
      SendContinuations.NodeIs(site, s, action, node, error.Some?);
    }
  }

  /** While the connector is up it takes in every hook, answers what is to be answered, compacts at any moment and
      applies every heartbeat whose bindings do not conflict; while it is down it can be restarted. */
  lemma AnythingHappens(site: Site, s: System, m: string, status: AckStatus, occurredAt: Time)
    ensures s.up ==> MadeBy(site, s, Hook(m, status, occurredAt),
                            Call.Acknowledge(site.sessionId, m, status, occurredAt, s.clock))
    ensures s.up ==> MadeBy(site, s, CompactNow, Call.Compact(s.clock))
    ensures s.up ==> forall id | Rotated(id) in s.answers ::
                       MadeBy(site, s, Respond(Rotated(id)),
                              Call.MarkRejected(id, BindingMismatch, "BINDING_ROTATED", s.clock))
    ensures s.up && Bindings.Ascending(s.bindings) ==>
              forall incoming, next | Bindings.Applies(s.bindings, incoming, next) ::
                CanRun(site, s, Rebind(incoming, next))
    ensures !s.up ==> MadeBy(site, s, Restart, Call.Recover(s.clock))
  {
    hide MadeBy, CanRun, Bindings.Applies, Bindings.Ascending;
    if s.up {
      CallMakes(site, s, Hook(m, status, occurredAt),
                Call.Acknowledge(site.sessionId, m, status, occurredAt, s.clock));
      CallMakes(site, s, CompactNow, Call.Compact(s.clock));
      forall id | Rotated(id) in s.answers
        ensures MadeBy(site, s, Respond(Rotated(id)),
                       Call.MarkRejected(id, BindingMismatch, "BINDING_ROTATED", s.clock))
      {
        CallMakes(site, s, Respond(Rotated(id)), Call.MarkRejected(id, BindingMismatch, "BINDING_ROTATED", s.clock));
      }
      if Bindings.Ascending(s.bindings) {
        forall incoming, next | Bindings.Applies(s.bindings, incoming, next)
          ensures CanRun(site, s, Rebind(incoming, next))
        {
          FreeRuns(site, s, Rebind(incoming, next));
        }
      }
    } else {
      CallMakes(site, s, Restart, Call.Recover(s.clock));
    }
  }

  // ---- A crash may come after every write ----

  /** The stores after each write of a journal call for one command. */
  function WritesOf(cfg: Config, n: Node, call: Call): seq<Disk> {
    match call
    case Receive(command, digest, webhookId, utilization, maximum, now) =>
      ReceiveOutcome(cfg, n, command, digest, webhookId, now, utilization, maximum).points
    case MarkStarted(id, now) => TransitionOutcome(cfg, n, id, StartTransition(now)).points
    case MarkRejected(id, errorClass, errorCode, now) =>
      TransitionOutcome(cfg, n, id, RejectTransition(errorClass, errorCode, now)).points
    case MarkIndeterminate(id, errorCode, now) =>
      TransitionOutcome(cfg, n, id, IndeterminateTransition(errorCode, now)).points
    case MarkAccepted(id, m, now) => AcceptOutcome(n, id, m, now).points
    case Delivered(id, eventId, now) => DeliveredOutcome(n, id, eventId, now).points
    case Failure(id, eventId, error, now) => FailureOutcome(n, id, eventId, error, now).points
    case _ => []
  }

  lemma CutAfterWrite(cfg: Config, n: Node, call: Call, x: Disk)
    requires x in WritesOf(cfg, n, call)
    ensures exists next :: Interrupted(cfg, n, call, x, next)
  {
    hide ReceiveOutcome, TransitionOutcome, AcceptOutcome, DeliveredOutcome, FailureOutcome;
    var next := match call
      case Receive(command, digest, webhookId, utilization, maximum, now) =>
        ReceiveOutcome(cfg, n, command, digest, webhookId, now, utilization, maximum).node.next
      case MarkStarted(id, now) => TransitionOutcome(cfg, n, id, StartTransition(now)).node.next
      case MarkRejected(id, errorClass, errorCode, now) =>
        TransitionOutcome(cfg, n, id, RejectTransition(errorClass, errorCode, now)).node.next
      case MarkIndeterminate(id, errorCode, now) =>
        TransitionOutcome(cfg, n, id, IndeterminateTransition(errorCode, now)).node.next
      case MarkAccepted(id, m, now) => AcceptOutcome(n, id, m, now).node.next
      case Delivered(id, eventId, now) => DeliveredOutcome(n, id, eventId, now).node.next
      case Failure(id, eventId, error, now) => FailureOutcome(n, id, eventId, error, now).node.next
      case _ => 0;
    assert Interrupted(cfg, n, call, x, next);
  }

  /** The process may die at any moment, and after every single write of a call it makes. */
  lemma CrashesAnywhere(site: Site, s: System, action: Action, x: Disk)
    requires s.up && Enabled(site, s, action)
    ensures exists t :: Dies(site, s, Crash, t) && t.node.disk == s.node.disk
    ensures CallOf(site, s, action).Some? && x in WritesOf(site.cfg, s.node, CallOf(site, s, action).value) ==>
              exists t :: Dies(site, s, action, t) && t.node.disk == x
  {
    NodeDown(s, s.node);
    assert Dies(site, s, Crash, Down(s, Node(s.node.disk, map[], s.node.next)));
    if CallOf(site, s, action).Some? && x in WritesOf(site.cfg, s.node, CallOf(site, s, action).value) {
      CutAfterWrite(site.cfg, s.node, CallOf(site, s, action).value, x);
      hide Enabled, CallOf, Interrupted, WritesOf;
      var next :| Interrupted(site.cfg, s.node, CallOf(site, s, action).value, x, next);
      var t := Down(s, Node(x, map[], next));
      assert Dies(site, s, action, t);
    }
  }

  lemma NodeDown(s: System, node: Node)
    ensures Down(s, Node(node.disk, map[], node.next)).node == Node(node.disk, map[], node.next)
  {
  }

  // ---- Deliveries ----

  predicate Current(site: Site, s: System, id: string) {
    var current := Bindings.CurrentOf(s.bindings);
    current.Some? && current.value.generation == site.catalog(id).bindingGeneration
  }

  /** What a delivery of a command leads to, by the state in which its record is then. */
  ghost predicate DeliveryLeads(site: Site, s: System, id: string, t: System) {
    && IsStored(site, t.node.disk, id)
    && match RecordOf(site, t, id).state
       case StateReceived =>
         if Current(site, s, id) then id in t.active && t.answers == s.answers
         else t.active == s.active && t.answers == s.answers + {Rotated(id)}
       case StateStarted =>
         t.active == s.active
         && t.answers == if id in s.active then s.answers else s.answers + {Replayed(id)}
       case _ => t.active == s.active && t.answers == s.answers
  }

  /** A delivery that the journal takes in schedules a RECEIVED command of the current binding, asks for the rejection
      of one whose binding has rotated and for the closing of a STARTED one that nothing executes, and does nothing
      else. */
  lemma IngressMeans(site: Site, s: System, action: Action, error: Option<Error>, t: System)
    requires ValidSite(site) && Base(site, s) && Completes(site, s, action, error, t) && action.Ingress?
    ensures error.None? ==> DeliveryLeads(site, s, action.id, t)
    ensures error.Some? ==> t.active == s.active && t.answers == s.answers
    ensures t.bindings == s.bindings && t.flushes == s.flushes && t.resumable == s.resumable
  {
    ClockMoves(site, s, action, error, t);
    CompletesCall(site, s, action, error, t);
    CatalogOf(site, action);
    IngressCall(site, s, action);
    IngressNext(site, s, action, t.node, error.Some?);
    hide Completes, Next, CallOf, Enabled, ValidSite, DeliveryLeads;
    IngressFinds(site, s, action, t.node, error);
    hide Base, ReceivedState, Returns;
    IngressTogether(site, s, action, error, t);
  }

  lemma IngressCall(site: Site, s: System, action: Action)
    requires Enabled(site, s, action) && action.Ingress?
    ensures s.up && CallOf(site, s, action).Some? && CallOf(site, s, action).value.Receive?
  {
  }

  lemma IngressNext(site: Site, s: System, action: Action, node: Node, threw: bool)
    requires action.Ingress? && CallOf(site, s, action).Some? && site.catalog(action.id).commandId == action.id
    ensures var t, state, id := Next(site, s, action, node, threw), ReceivedState(site, s, action), action.id;
            && t.bindings == s.bindings && t.flushes == s.flushes && t.resumable == s.resumable && t.node == node
            && (state == Some(StateReceived) && Current(site, s, id) ==> id in t.active && t.answers == s.answers)
            && (state == Some(StateReceived) && !Current(site, s, id) ==>
                  t.active == s.active && t.answers == s.answers + {Rotated(id)})
            && (state == Some(StateStarted) ==>
                  t.active == s.active && t.answers == if id in s.active then s.answers else s.answers + {Replayed(id)})
            && (state != Some(StateReceived) && state != Some(StateStarted) ==>
                  t.active == s.active && t.answers == s.answers)
  {
    hide ReceivedState, CallOf, InboxNext, RemovedBetween;
  }

  lemma IngressFinds(site: Site, s: System, action: Action, node: Node, error: Option<Error>)
    requires ValidSite(site) && Base(site, s) && action.Ingress? && CallOf(site, s, action).Some?
    requires CallOf(site, s, action).value.Receive? && s.up
    requires Returns(site.cfg, s.node, CallOf(site, s, action).value, node, error)
    ensures ReceivedState(site, s, action).Some? <==> error.None?
    ensures error.None? ==> IsStored(site, node.disk, action.id)
                            && node.disk.records[Home(site, action.id)].state == ReceivedState(site, s, action).value
  {
    hide ValidRecord, Timely, DrawnBefore, HasMessage, OwnCommands;
  }

  lemma IngressTogether(site: Site, s: System, action: Action, error: Option<Error>, t: System)
    requires action.Ingress? && CallOf(site, s, action).Some?
    requires ReceivedState(site, s, action).Some? <==> error.None?
    requires error.None? ==> IsStored(site, t.node.disk, action.id)
                             && RecordOf(site, t, action.id).state == ReceivedState(site, s, action).value
    requires var state, id := ReceivedState(site, s, action), action.id;
             && (state == Some(StateReceived) && Current(site, s, id) ==> id in t.active && t.answers == s.answers)
             && (state == Some(StateReceived) && !Current(site, s, id) ==>
                   t.active == s.active && t.answers == s.answers + {Rotated(id)})
             && (state == Some(StateStarted) ==>
                   && t.active == s.active
                   && t.answers == if id in s.active then s.answers else s.answers + {Replayed(id)})
             && (state != Some(StateReceived) && state != Some(StateStarted) ==>
                   t.active == s.active && t.answers == s.answers)
    ensures error.None? ==> DeliveryLeads(site, s, action.id, t)
    ensures error.Some? ==> t.active == s.active && t.answers == s.answers
  {
    hide ReceivedState, CallOf, IsStored, Current;
  }

  /** The answer to a rotated command rejects it as BINDING_ROTATED while it is RECEIVED; the answer to a replayed one
      closes it as ambiguous while it is open. Either is given once. */
  lemma RespondMeans(site: Site, s: System, answer: Answer, error: Option<Error>, t: System)
    requires ValidSite(site) && Base(site, s) && Completes(site, s, Respond(answer), error, t)
    requires IsStored(site, s.node.disk, answer.id)
    ensures t.answers == s.answers - {answer} && IsStored(site, t.node.disk, answer.id)
    ensures var r, q := RecordOf(site, s, answer.id), RecordOf(site, t, answer.id);
            match answer
            case Rotated(_) =>
              if r.state.StateReceived? then
                CallMeanings.Adds(r, q, StateRejected, SendRejected, DeliveryStatus.Failure, Some(BindingMismatch),
                                  Some("BINDING_ROTATED"), s.clock)
              else q == r
            case Replayed(_) =>
              if r.state.StateReceived? || r.state.StateStarted? then
                CallMeanings.Adds(r, q, StateIndeterminate, SendIndeterminate, Indeterminate, Some(Ambiguous),
                                  Some("INGRESS_REPLAY_AFTER_SEND_STARTED"), s.clock)
              else q == r
  {
    ClockMoves(site, s, Respond(answer), error, t);
    AnswerCall(site, s, answer);
    RespondAnswers(site, s, answer, t.node, error.Some?);
    hide *;
    StepTarget(site, s, Respond(answer), error, t, answer.id);
    AnswerTarget(RecordOf(site, s, answer.id), RecordOf(site, t, answer.id), CallOf(site, s, Respond(answer)).value,
                 error, answer, s.clock);
  }

  lemma RespondAnswers(site: Site, s: System, answer: Answer, node: Node, threw: bool)
    ensures Next(site, s, Respond(answer), node, threw).answers == s.answers - {answer}
  {
    hide ActiveNext, FlushesNext, ResumableNext, InboxNext, StaleResume, RemovedBetween;
  }

  lemma AnswerTarget(r: Record, q: Record, call: Call, error: Option<Error>, answer: Answer, now: Time)
    requires Target(r, q, call, error)
    requires match answer
             case Rotated(id) => call == Call.MarkRejected(id, BindingMismatch, "BINDING_ROTATED", now)
             case Replayed(id) => call == Call.MarkIndeterminate(id, "INGRESS_REPLAY_AFTER_SEND_STARTED", now)
    ensures match answer
            case Rotated(_) =>
              if r.state.StateReceived? then
                CallMeanings.Adds(r, q, StateRejected, SendRejected, DeliveryStatus.Failure, Some(BindingMismatch),
                                  Some("BINDING_ROTATED"), now)
              else q == r
            case Replayed(_) =>
              if r.state.StateReceived? || r.state.StateStarted? then
                CallMeanings.Adds(r, q, StateIndeterminate, SendIndeterminate, Indeterminate, Some(Ambiguous),
                                  Some("INGRESS_REPLAY_AFTER_SEND_STARTED"), now)
              else q == r
  {
    hide CallMeanings.Adds;
  }

  lemma AnswerCall(site: Site, s: System, answer: Answer)
    requires Enabled(site, s, Respond(answer))
    ensures s.up
    ensures CallOf(site, s, Respond(answer)) ==
            match answer
            case Rotated(id) => Some(Call.MarkRejected(id, BindingMismatch, "BINDING_ROTATED", s.clock))
            case Replayed(id) => Some(Call.MarkIndeterminate(id, "INGRESS_REPLAY_AFTER_SEND_STARTED", s.clock))
    ensures OnOne(CallOf(site, s, Respond(answer)).value) && CallOf(site, s, Respond(answer)).value.id == answer.id
  {
  }

  // ---- Hooks ----

  /** A hook for an accepted message of the bound session records its status with the time it occurred at, unless the
      record knows it or something stronger already. */
  lemma HookMeans(site: Site, s: System, m: string, status: AckStatus, occurredAt: Time, error: Option<Error>,
                  t: System, id: string)
    requires ValidSite(site) && Base(site, s) && Completes(site, s, Hook(m, status, occurredAt), error, t)
    requires IsStored(site, s.node.disk, id) && RecordOf(site, s, id).messageId == Some(m)
    requires m in s.node.disk.messages && s.node.disk.messages[m].commandId == id
    ensures IsStored(site, t.node.disk, id)
    ensures var r, q := RecordOf(site, s, id), RecordOf(site, t, id);
            if site.sessionId != r.command.sessionId || CallMeanings.AlreadyKnown(r, status) then q == r
            else CallMeanings.Acknowledged(r, q, Orphan(site.sessionId, status, occurredAt))
  {
    ClockMoves(site, s, Hook(m, status, occurredAt), error, t);
    CompletesCall(site, s, Hook(m, status, occurredAt), error, t);
    HookCall(site, s, m, status, occurredAt);
    hide Completes, Next, CallOf, Enabled;
    HookReturns(site, s, m, status, occurredAt, error, t.node);
    HomeStored(site, s, id);
    hide *;
    var reply :| AcknowledgeReturns(site.cfg, s.node, site.sessionId, m, status, occurredAt, s.clock, t.node, reply);
    AcknowledgeHome(site, s, m, status, occurredAt, t, id, reply);
  }

  lemma HookReturns(site: Site, s: System, m: string, status: AckStatus, occurredAt: Time, error: Option<Error>,
                    node: Node)
    requires Returns(site.cfg, s.node, Call.Acknowledge(site.sessionId, m, status, occurredAt, s.clock), node, error)
    ensures exists reply ::
              AcknowledgeReturns(site.cfg, s.node, site.sessionId, m, status, occurredAt, s.clock, node, reply)
  {
    hide AcknowledgeReturns;
  }

  lemma AcknowledgeHome(site: Site, s: System, m: string, status: AckStatus, occurredAt: Time, t: System, id: string,
                        reply: Reply<bool, Error>)
    requires CallMeanings.Stored(site.cfg, s.node.disk, Home(site, id)) && Home(site, id).id == id
    requires IsStored(site, s.node.disk, id) && RecordOf(site, s, id).messageId == Some(m)
    requires m in s.node.disk.messages && s.node.disk.messages[m].commandId == id
    requires AcknowledgeReturns(site.cfg, s.node, site.sessionId, m, status, occurredAt, s.clock, t.node, reply)
    ensures IsStored(site, t.node.disk, id)
    ensures var r, q := RecordOf(site, s, id), RecordOf(site, t, id);
            if site.sessionId != r.command.sessionId || CallMeanings.AlreadyKnown(r, status) then q == r
            else CallMeanings.Acknowledged(r, q, Orphan(site.sessionId, status, occurredAt))
  {
    CallMeanings.AcknowledgeMeans(site.cfg, s.node, Home(site, id), site.sessionId, m, status, occurredAt, s.clock,
                                  t.node, reply);
    hide CallMeanings.Stored, AcknowledgeReturns, CallMeanings.AlreadyKnown, CallMeanings.Acknowledged;
  }

  lemma HookCall(site: Site, s: System, m: string, status: AckStatus, occurredAt: Time)
    requires Enabled(site, s, Hook(m, status, occurredAt))
    ensures s.up
    ensures CallOf(site, s, Hook(m, status, occurredAt)) ==
              Some(Call.Acknowledge(site.sessionId, m, status, occurredAt, s.clock))
  {
  }

  // ---- Compaction ----

  /** Compaction removes the record of a command exactly when it is closed, its evidence is delivered, and it was not
      updated during the retention period. */
  lemma CompactMeans(site: Site, s: System, error: Option<Error>, t: System, id: string)
    requires Completes(site, s, CompactNow, error, t) && IsStored(site, s.node.disk, id)
    ensures var r := RecordOf(site, s, id);
            !IsStored(site, t.node.disk, id) <==>
              && !r.state.StateReceived? && !r.state.StateStarted?
              && (forall k | 0 <= k < |r.evidence| :: r.evidence[k].deliveredAt.Some?)
              && s.clock - r.updatedAt >= site.cfg.terminalRetention
  {
    CompletesCall(site, s, CompactNow, error, t);
    hide Completes, CompactReturns;
    JournalRuns.RemovedIffExpired(site.cfg, s.node, s.clock, t.node, Home(site, id));
  }

  // ---- Crashes and restarts ----

  /** A crash leaves what is stored and forgets the rest: no execution, flush, snapshot, answer or send race is left,
      and the bindings are the last persisted ones. */
  lemma CrashMeans(site: Site, s: System, action: Action, t: System)
    requires Dies(site, s, action, t)
    ensures !t.up && t.active == map[] && t.flushes == map[] && t.resumable == {} && t.answers == {}
    ensures t.node.races == map[] && t.bindings == t.stored == s.stored
    ensures t.inbox == s.inbox && t.sends == s.sends && t.clock == s.clock
  {
    hide Enabled, CallOf, Interrupted, RemovedBetween;
  }

  lemma PersistMeans(site: Site, s: System, error: Option<Error>, t: System)
    requires Completes(site, s, Persist, error, t)
    ensures t.stored == t.bindings == s.bindings
  {
    hide ActiveNext, FlushesNext, ResumableNext, AnswersNext, InboxNext, StaleResume, RemovedBetween;
  }

  /** A restart that does not throw brings the connector up with nothing under execution, every interrupted send closed
      as ambiguous, and snapshots of exactly the RECEIVED commands. */
  lemma RestartMeans(site: Site, s: System, error: Option<Error>, t: System)
    requires Base(site, s) && Completes(site, s, Restart, error, t) && error.None?
    ensures t.up && t.active == map[] && t.flushes == map[] && t.bindings == s.bindings
    ensures t.resumable == set slot | slot in s.node.disk.records && s.node.disk.records[slot].state.StateReceived? ::
                             s.node.disk.records[slot]
    ensures t.node.disk.records.Keys == s.node.disk.records.Keys
    ensures forall slot | slot in s.node.disk.records ::
              var r, q := s.node.disk.records[slot], t.node.disk.records[slot];
              if r.state.StateStarted? then
                CallMeanings.Adds(r, q, StateIndeterminate, SendIndeterminate, Indeterminate, Some(Ambiguous),
                                  Some("PLUGIN_RESTART_AFTER_SEND_STARTED"), s.clock)
              else q == r
  {
    RestartNext(site, s, error, t);
    BaseConsistent(site, s);
    CallMeanings.SetsAgree(s.node.disk);
    hide Completes, Base, Consistent, RecoverReturns, CallMeanings.Adds, JournalStore.InState, RecordsAt;
    var reply :| RecoverReturns(s.node, s.clock, t.node, reply) && reply.Done?;
    CallMeanings.RecoverMeans(site.cfg, s.node, s.clock, t.node, reply);
  }

  lemma RestartNext(site: Site, s: System, error: Option<Error>, t: System)
    requires Base(site, s) && Completes(site, s, Restart, error, t) && error.None?
    ensures exists reply :: RecoverReturns(s.node, s.clock, t.node, reply) && reply.Done?
    ensures t.up && t.active == map[] && t.flushes == map[] && t.bindings == s.bindings
    ensures t.resumable == RecordsAt(s.node.disk, JournalStore.InState(s.node.disk, StateReceived))
  {
    hide RecoverReturns, AnswersNext, InboxNext, StaleResume, RemovedBetween, RecordsAt, JournalStore.InState, Sound,
         Indexed, Catalogued, OwnCommands;
  }
}
