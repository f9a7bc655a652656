/** What the evidence says, over every run of the connector: each kind its own status and error, on disk, in compacted
    records and in every post the inbox accepted. */
module EvidenceContent {
  import opened Wrappers
  import opened Records
  import opened JournalStore
  import opened JournalCalls
  import opened Connector
  import opened ConnectorBase

  /** The compacted records, the snapshots of running flushes and the accepted posts tell the truth. */
  ghost predicate Told(s: System) {
    && (forall r | r in s.removed :: AllTruthful(r))
    && (forall id | id in s.flushes :: AllTruthful(s.flushes[id].snapshot))
    && (forall e | e in s.inbox :: Truthful(e))
  }

  lemma StoredTold(site: Site, s: System)
    requires Base(site, s)
    ensures forall slot | slot in s.node.disk.records :: AllTruthful(s.node.disk.records[slot])
  {
    hide Lifecycle, Numbered, AllTruthful, DrawnBefore, Timely, HasMessage, OwnCommands, Catalogued;
    forall slot | slot in s.node.disk.records ensures AllTruthful(s.node.disk.records[slot]) {
      assert ValidRecord(s.node.disk.records[slot]);
    }
  }

  lemma RemovedTold(site: Site, s: System, x: Disk)
    requires Base(site, s) && Told(s)
    ensures forall r | r in s.removed + RemovedBetween(s.node.disk, x) :: AllTruthful(r)
  {
    StoredTold(site, s);
    hide Base, AllTruthful, Truthful;
  }

  lemma PostTold(s: System, action: Action)
    requires Told(s)
    ensures forall e | e in InboxNext(s, action) :: Truthful(e)
  {
    hide Truthful;
    if action.FlushPost? && action.reached && FlushIn(s, action.id, Posting) {
      var f := s.flushes[action.id];
      assert Truthful(f.snapshot.evidence[f.index].evidence);
    }
  }

  lemma FlushTold(site: Site, s: System, action: Action, threw: bool)
    requires Base(site, s) && Told(s)
    ensures forall id | id in FlushesNext(s, action, threw) :: AllTruthful(FlushesNext(s, action, threw)[id].snapshot)
  {
    StoredTold(site, s);
    hide Base, AllTruthful, Truthful, Locate;
  }

  lemma CompletesTold(site: Site, s: System, action: Action, error: Option<Error>, t: System)
    requires Base(site, s) && Told(s) && Completes(site, s, action, error, t)
    ensures Told(t)
  {
    ClockMoves(site, s, action, error, t);
    RemovedTold(site, s, t.node.disk);
    PostTold(s, action);
    FlushTold(site, s, action, error.Some?);
    hide Base, Completes, InboxNext, FlushesNext, ActiveNext, AnswersNext, ResumableNext, StaleResume, AllTruthful,
         Truthful, RemovedBetween;
  }

  lemma DiesTold(site: Site, s: System, action: Action, t: System)
    requires Base(site, s) && Told(s) && Dies(site, s, action, t)
    ensures Told(t)
  {
    RemovedTold(site, s, t.node.disk);
    hide Base, AllTruthful, Truthful, RemovedBetween, Interrupted, CallOf, Enabled;
  }

  lemma StepTold(site: Site, s: System, t: System)
    requires Base(site, s) && Told(s) && Step(site, s, t)
    ensures Told(t)
  {
    hide Base, Told, Completes, Dies;
    if action, error :| Completes(site, s, action, error, t) {
      CompletesTold(site, s, action, error, t);
    } else {
      var action :| Dies(site, s, action, t);
      DiesTold(site, s, action, t);
    }
  }

  lemma {:induction false} RunTold(site: Site, t: seq<System>, i: nat)
    requires ValidSite(site) && Run(site, t) && i < |t|
    ensures Told(t[i])
  {
    hide Base, ValidSite, Told, Step;
    if i > 0 {
      RunTold(site, t, i - 1);
      RunBase(site, t, i - 1);
      StepTold(site, t[i - 1], t[i]);
    } else {
      NothingTold(t[0]);
    }
  }

  lemma NothingTold(s: System)
    requires s.removed == {} && s.flushes == map[] && s.inbox == []
    ensures Told(s)
  {
  }

  /** At every moment of every run, every entry of every stored or compacted record and every accepted post carries the
      delivery status and the error of its kind: nothing but a rejection is reported as FAILED before a send, an
      interrupted or unanswered send is AMBIGUOUS, and only a failed acknowledgement is a TRANSIENT_FAILURE of an
      accepted message. */
  lemma EvidenceIsTruthful(site: Site, t: seq<System>, i: nat)
    requires ValidSite(site) && Run(site, t) && i < |t|
    ensures forall slot, k | slot in t[i].node.disk.records && 0 <= k < |t[i].node.disk.records[slot].evidence| ::
              Truthful(t[i].node.disk.records[slot].evidence[k].evidence)
    ensures forall r, k | r in t[i].removed && 0 <= k < |r.evidence| :: Truthful(r.evidence[k].evidence)
    ensures forall e | e in t[i].inbox :: Truthful(e)
  {
    RunTold(site, t, i);
    RunBase(site, t, i);
    StoredTold(site, t[i]);
    hide Truthful, Run, Base, ValidSite;
  }
}
