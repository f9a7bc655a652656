/** Exactly when a command whose record has left RECEIVED can still be sent without a stale restart. */
module SendContinuations {
  import opened Wrappers
  import opened Protocol
  import opened Records
  import opened JournalStore
  import opened JournalCalls
  import opened Connector
  import opened ConnectorBase
  import opened SendBound

  function Last(t: seq<System>): System
    requires |t| > 0
  {
    t[|t| - 1]
  }

  /** A run that goes on from `t` to another send of the command, without a stale restart of it. */
  ghost predicate SendsOn(site: Site, t: seq<System>, id: string, r: seq<System>) {
    && |t| > 0 && Run(site, r) && t <= r
    && Last(r).sends[id] > Last(t).sends[id] && Last(r).stale[id] == Last(t).stale[id]
  }

  ghost predicate CanSend(site: Site, t: seq<System>, id: string) {
    exists r :: SendsOn(site, t, id, r)
  }

  lemma Prolong(site: Site, t: seq<System>, u: System)
    requires |t| > 0 && Run(site, t) && Step(site, Last(t), u)
    ensures Run(site, t + [u]) && t <= t + [u]
  {
    hide Step, Initial;
    var r := t + [u];
    forall i | 0 <= i < |r| - 1 ensures Step(site, r[i], r[i + 1]) {
      if i < |t| - 1 { assert Step(site, t[i], t[i + 1]); }
    }
  }

  /** A step that neither sends nor restarts can be put in front. */
  lemma StepFirst(site: Site, t: seq<System>, u: System, id: string)
    requires |t| > 0 && CanSend(site, t + [u], id)
    requires u.sends[id] == Last(t).sends[id] && u.stale[id] == Last(t).stale[id]
    ensures CanSend(site, t, id)
  {
    hide Run;
    var r :| SendsOn(site, t + [u], id, r);
    assert t <= r by { assert r[..|t|] == (t + [u])[..|t|]; }
    assert SendsOn(site, t, id, r);
  }

  /** An execution goes on without a journal call. */
  lemma ExecuteStep(site: Site, s: System, action: Action, id: string, stage: Stage)
    requires Enabled(site, s, action) && Executes(action) && action.id == id && id in s.active
    requires CallOf(site, s, action).None? && StageNext(s, action, false) == Some(stage)
    ensures var u := Next(site, s, action, s.node, false);
            && Step(site, s, u) && ExecutedTo(s, u, id, stage) && u.node == s.node
            && u.sends[id] == s.sends[id] + Count(action.Send?)
  {
    CountsNext(site, s, action, s.node, false, id);
    ExecutionsAreNotResumes(site, s, action);
    hide StageNext, CallOf, FlushesNext, AnswersNext, ResumableNext, InboxNext, RemovedBetween, StaleResume, Enabled;
    assert Completes(site, s, action, None, Next(site, s, action, s.node, false));
  }

  predicate ExecutedTo(s: System, u: System, id: string, stage: Stage) {
    && u.up == s.up && u.clock == s.clock && id in s.active && id in u.active
    && u.active[id] == s.active[id].(stage := stage) && u.stale[id] == s.stale[id]
  }

  /** A record that has left RECEIVED lets a start return without an error. */
  lemma StartStep(site: Site, s: System, id: string)
    requires ValidSite(site) && Base(site, s) && s.up && InStage(s, id, Starting) && HasLeft(site, s.node.disk, id)
    ensures exists u :: Step(site, s, u) && ExecutedTo(s, u, id, Sending) && u.sends[id] == s.sends[id]
  {
    var o := TransitionOutcome(site.cfg, s.node, id, StartTransition(s.clock));
    LeftStarts(site, s, id);
    StartNext(site, s, id, o.node);
    StartReturnsIs(site.cfg, s.node, id, s.clock);
    hide *;
    StartCompletes(site, s, id, o.node);
  }

  lemma StartCompletes(site: Site, s: System, id: string, node: Node)
    requires s.up && InStage(s, id, Starting)
    requires Returns(site.cfg, s.node, Call.MarkStarted(id, s.clock), node, None)
    ensures Step(site, s, Next(site, s, Action.Start(id), node, false))
  {
    NodeIs(site, s, Action.Start(id), node, false);
    hide Returns, Next;
    assert Completes(site, s, Action.Start(id), None, Next(site, s, Action.Start(id), node, false));
  }

  lemma StartReturnsIs(cfg: Config, n: Node, id: string, now: Time)
    requires TransitionOutcome(cfg, n, id, StartTransition(now)).reply.Done?
    ensures Returns(cfg, n, Call.MarkStarted(id, now), TransitionOutcome(cfg, n, id, StartTransition(now)).node, None)
  {
    hide TransitionOutcome;
  }

  lemma NodeIs(site: Site, s: System, action: Action, node: Node, threw: bool)
    ensures Next(site, s, action, node, threw).node == node
  {
    hide ActiveNext, FlushesNext, AnswersNext, ResumableNext, InboxNext, RemovedBetween, StaleResume;
  }

  lemma StartNext(site: Site, s: System, id: string, node: Node)
    requires InStage(s, id, Starting)
    ensures var u := Next(site, s, Action.Start(id), node, false);
            ExecutedTo(s, u, id, Sending) && u.sends[id] == s.sends[id]
  {
    CountsNext(site, s, Action.Start(id), node, false, id);
    ExecutionsAreNotResumes(site, s, Action.Start(id));
    hide FlushesNext, AnswersNext, ResumableNext, InboxNext, RemovedBetween, StaleResume;
  }

  lemma LeftStarts(site: Site, s: System, id: string)
    requires ValidSite(site) && Base(site, s) && s.up && HasLeft(site, s.node.disk, id)
    ensures TransitionOutcome(site.cfg, s.node, id, StartTransition(s.clock)).reply.Done?
  {
    var home := HomeOf(site.cfg, site.catalog(id));
    assert Locate(s.node.disk, id) == Done(home) by {
      hide ValidRecord, DrawnBefore, Timely, HasMessage, OwnCommands, Locate;
      LocateFinds(site.cfg, s.node.disk, id) by { hide ValidRecord, HasMessage; }
      assert home in s.node.disk.records && home.id == id;
    }
    hide Base, Locate, AppendEvidence;
  }

  lemma FromSending(site: Site, t: seq<System>, id: string)
    requires |t| > 0 && Run(site, t) && Last(t).up && InStage(Last(t), id, Sending)
    ensures CanSend(site, t, id)
  {
    ExecuteStep(site, Last(t), Send(id), id, Waiting);
    var u := Next(site, Last(t), Send(id), Last(t).node, false);
    hide Run, Step, Next;
    Prolong(site, t, u);
    assert SendsOn(site, t, id, t + [u]);
  }

  lemma FromStarting(site: Site, t: seq<System>, id: string)
    requires |t| > 0 && ValidSite(site) && Run(site, t) && Last(t).up && InStage(Last(t), id, Starting)
             && HasLeft(site, Last(t).node.disk, id)
    ensures CanSend(site, t, id)
  {
    hide Run, Step, ValidSite, Base, HasLeft, CanSend;
    RunBase(site, t, |t| - 1);
    StartStep(site, Last(t), id);
    var u :| Step(site, Last(t), u) && ExecutedTo(Last(t), u, id, Sending) && u.sends[id] == Last(t).sends[id];
    Prolong(site, t, u);
    FromSending(site, t + [u], id);
    StepFirst(site, t, u, id);
  }

  lemma FromChecked(site: Site, t: seq<System>, id: string)
    requires |t| > 0 && ValidSite(site) && Run(site, t) && Last(t).up && InStage(Last(t), id, Checked)
             && HasLeft(site, Last(t).node.disk, id)
    requires Last(t).active[id].command == site.catalog(id) && !IsExpired(site, Last(t), id)
    ensures CanSend(site, t, id)
  {
    ExecuteStep(site, Last(t), Recheck(id), id, Starting);
    var u := Next(site, Last(t), Recheck(id), Last(t).node, false);
    hide Run, Step, ValidSite, HasLeft, CanSend, Next;
    Prolong(site, t, u);
    FromStarting(site, t + [u], id);
    StepFirst(site, t, u, id);
  }

  lemma FromVerifying(site: Site, t: seq<System>, id: string)
    requires |t| > 0 && ValidSite(site) && Run(site, t) && Last(t).up && InStage(Last(t), id, Verifying)
             && HasLeft(site, Last(t).node.disk, id)
    requires Last(t).active[id].command == site.catalog(id) && !IsExpired(site, Last(t), id)
    ensures CanSend(site, t, id)
  {
    ExecuteStep(site, Last(t), Verify(id, MediaOk), id, Checked);
    var u := Next(site, Last(t), Verify(id, MediaOk), Last(t).node, false);
    hide Run, Step, ValidSite, HasLeft, CanSend, Next;
    Prolong(site, t, u);
    FromChecked(site, t + [u], id);
    StepFirst(site, t, u, id);
  }

  lemma FromScheduled(site: Site, t: seq<System>, id: string)
    requires |t| > 0 && ValidSite(site) && Run(site, t) && Last(t).up && InStage(Last(t), id, Scheduled)
             && HasLeft(site, Last(t).node.disk, id)
    requires Last(t).active[id].command == site.catalog(id) && !IsExpired(site, Last(t), id)
    requires IsCurrent(Last(t), site.catalog(id).bindingGeneration)
    ensures CanSend(site, t, id)
  {
    var stage := if site.catalog(id).operation.SendImage? then Verifying else Checked;
    ExecuteStep(site, Last(t), Check(id), id, stage);
    var u := Next(site, Last(t), Check(id), Last(t).node, false);
    hide Run, Step, ValidSite, HasLeft, CanSend, Next;
    Prolong(site, t, u);
    if stage.Verifying? { FromVerifying(site, t + [u], id); } else { FromChecked(site, t + [u], id); }
    StepFirst(site, t, u, id);
  }

  /** After the record of a command has left RECEIVED, by a rejection for example, a running connector can go on to send
      the command without a stale restart exactly when an execution of it is past its last check, or has not expired
      and,
      before its first check, belongs to the current binding. */
  lemma SendsAfterLeavingIff(site: Site, t: seq<System>, id: string)
    requires |t| > 0 && ValidSite(site) && Run(site, t) && Last(t).up && HasLeft(site, Last(t).node.disk, id)
    ensures CanSend(site, t, id) <==> MaySend(site, Last(t), id)
  {
    hide Run, ValidSite, HasLeft, CanSend, IsCurrent;
    if MaySend(site, Last(t), id) {
      RunOwn(site, t, id);
      match Last(t).active[id].stage
      case Scheduled => FromScheduled(site, t, id);
      case Verifying => FromVerifying(site, t, id);
      case Checked => FromChecked(site, t, id);
      case Starting => FromStarting(site, t, id);
      case _ => FromSending(site, t, id);
    } else {
      NoneFollows(site, t, id);
    }
  }

  lemma RunOwn(site: Site, t: seq<System>, id: string)
    requires |t| > 0 && ValidSite(site) && Run(site, t) && id in Last(t).active
    ensures Last(t).active[id].command == site.catalog(id)
  {
    hide Run, ValidSite, Sound, Indexed, Catalogued;
    RunBase(site, t, |t| - 1);
  }

  lemma NoneFollows(site: Site, t: seq<System>, id: string)
    requires ValidSite(site) && |t| > 0 && HasLeft(site, Last(t).node.disk, id) && !MaySend(site, Last(t), id)
    ensures !CanSend(site, t, id)
  {
    hide Run, ValidSite, HasLeft, MaySend;
    forall r ensures !SendsOn(site, t, id, r) {
      if Run(site, r) && t <= r {
        assert r[|t| - 1] == Last(t);
        SettledStaysUnsent(site, r, |t| - 1, |r| - 1, id);
      }
    }
  }
}
