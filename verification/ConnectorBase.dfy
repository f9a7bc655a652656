/** What every step of the connector keeps about the journal under it. */
module ConnectorBase {
  import opened Wrappers
  import opened Protocol
  import opened Records
  import opened JournalStore
  import opened JournalCalls
  import opened Connector
  import Bindings

  /** Every stored record belongs to the one command of its id, which was created no later than it was received. */
  ghost predicate Catalogued(site: Site, d: Disk) {
    forall slot | slot in d.records ::
      && d.records[slot].command == site.catalog(slot.id)
      && d.records[slot].command.createdAt <= d.records[slot].createdAt
  }

  ghost predicate OwnCommands(site: Site, s: System) {
    && (forall id | id in s.active ::
          s.active[id].command == site.catalog(id) && s.active[id].stage != Accepting(""))
    && (forall r | r in s.resumable :: r.command == site.catalog(r.command.commandId))
  }

  ghost predicate Base(site: Site, s: System) {
    && Sound(site.cfg, s.node.disk, s.node.next, s.clock)
    && (s.up ==> Indexed(s.node.disk))
    && Catalogued(site, s.node.disk)
    && OwnCommands(site, s)
    && (!s.up ==> s.active == map[] && s.flushes == map[] && s.node.races == map[])
  }

  /** How the record of one command may move during a journal call: it never goes back to RECEIVED, and it goes away
      only when the command has expired. */
  ghost predicate HomeMove(site: Site, d: Disk, x: Disk, id: string, clock: Time) {
    && (IsReceived(site, x, id) ==> IsReceived(site, d, id) || !IsStored(site, d, id))
    && (IsStored(site, d, id) && !IsStored(site, x, id) ==> site.catalog(id).expiresAt <= clock)
  }

  lemma SoundLater(cfg: Config, d: Disk, next: nat, clock: Time, now: Time)
    requires Sound(cfg, d, next, clock) && clock <= now
    ensures Sound(cfg, d, next, now)
  {
    hide ValidRecord, DrawnBefore, HasMessage;
  }

  /** A record past its retention belongs to an expired command. */
  lemma ExpiredCommandToo(cfg: Config, r: Record, clock: Time)
    requires cfg.terminalRetention >= MAX_EXPIRY_WINDOW && ValidWindow(r.command)
    requires Timely(r, clock) && Expired(cfg, r, clock) && r.command.createdAt <= r.createdAt
    ensures r.command.expiresAt <= clock
  {
  }

  lemma CallReady(site: Site, s: System, action: Action, call: Call)
    requires Base(site, s) && Enabled(site, s, action) && CallOf(site, s, action) == Some(call)
    ensures Ready(site.cfg, s.node, call, s.clock) && call.now == s.clock
    ensures call.Receive? ==>
          action.Ingress? && call.command == site.catalog(action.id) && call.command.createdAt <= s.clock
  {
    hide Sound, Indexed, Catalogued;
  }

  lemma CallMovesHome(site: Site, s: System, call: Call, x: Disk, next: nat)
    requires ValidSite(site) && Base(site, s) && call.now == s.clock
    requires Kept(site.cfg, s.node, call, x, next)
    requires call.Receive? ==> call.command == site.catalog(call.command.commandId) && call.command.createdAt <= s.clock
    ensures Catalogued(site, x)
    ensures forall id :: HomeMove(site, s.node.disk, x, id, s.clock)
  {
    CallCatalogues(site, s, call, x, next);
    forall id ensures HomeMove(site, s.node.disk, x, id, s.clock) { CallMovesOne(site, s, call, x, next, id); }
  }

  lemma CallCatalogues(site: Site, s: System, call: Call, x: Disk, next: nat)
    requires Base(site, s) && Kept(site.cfg, s.node, call, x, next)
    requires call.Receive? ==>
          call.command == site.catalog(call.command.commandId) && call.command.createdAt <= s.clock == call.now
    ensures Catalogued(site, x)
  {
    hide ValidRecord, HasMessage, DrawnBefore, Timely, Expired, OwnCommands, Consistent;
    var d := s.node.disk;
    forall slot | slot in x.records
      ensures x.records[slot].command == site.catalog(slot.id)
              && x.records[slot].command.createdAt <= x.records[slot].createdAt
    {
      if slot in d.records { assert Evolves(d.records[slot], x.records[slot], call); }
    }
  }

  lemma CallMovesOne(site: Site, s: System, call: Call, x: Disk, next: nat, id: string)
    requires ValidSite(site) && Base(site, s) && call.now == s.clock && Kept(site.cfg, s.node, call, x, next)
    ensures HomeMove(site, s.node.disk, x, id, s.clock)
  {
    var d, slot := s.node.disk, HomeOf(site.cfg, site.catalog(id));
    hide ValidRecord, HasMessage, DrawnBefore, OwnCommands, Consistent;
    if slot in d.records && slot !in x.records {
      assert ExpiredSlot(site.cfg, d, slot, call.now);
      ExpiredCommandToo(site.cfg, d.records[slot], s.clock);
    } else if slot in d.records {
      assert Evolves(d.records[slot], x.records[slot], call);
    }
    hide Timely, Expired, Kept, Base;
  }

  lemma StepBase(site: Site, s: System, t: System)
    requires ValidSite(site) && Base(site, s) && Step(site, s, t)
    ensures Base(site, t)
  {
    hide Completes, Dies, Base;
    if action, error :| Completes(site, s, action, error, t) {
      CompletesBase(site, s, action, error, t);
    } else {
      var action :| Dies(site, s, action, t);
      DiesBase(site, s, action, t);
    }
  }

  lemma CatalogOf(site: Site, action: Action)
    requires ValidSite(site)
    ensures action.Ingress? ==> site.catalog(action.id).commandId == action.id
  {
  }

  lemma DiesBase(site: Site, s: System, action: Action, t: System)
    requires ValidSite(site) && Base(site, s) && Dies(site, s, action, t)
    ensures Base(site, t)
    ensures forall id :: HomeMove(site, s.node.disk, t.node.disk, id, s.clock)
  {
    hide Sound, Indexed, Catalogued, Interrupted, ValidSite, RemovedBetween;
    if CallOf(site, s, action).Some? {
      var call := CallOf(site, s, action).value;
      CallReady(site, s, action, call);
      InterruptKeeps(site.cfg, s.node, call, t.node.disk, t.node.next, s.clock);
      CatalogOf(site, action);
      CallMovesHome(site, s, call, t.node.disk, t.node.next);
    }
  }

  lemma CompletesBase(site: Site, s: System, action: Action, error: Option<Error>, t: System)
    requires ValidSite(site) && Base(site, s) && Completes(site, s, action, error, t)
    ensures Base(site, t)
    ensures forall id :: HomeMove(site, s.node.disk, t.node.disk, id, s.clock)
  {
    hide Sound, Indexed, Catalogued, Returns, ValidSite, ActiveNext, FlushesNext, ResumableNext, AnswersNext, InboxNext,
         StaleResume, RemovedBetween;
    if CallOf(site, s, action).Some? {
      var call := CallOf(site, s, action).value;
      CallReady(site, s, action, call);
      ReturnKeeps(site.cfg, s.node, call, t.node, error, s.clock);
      CatalogOf(site, action);
      CallMovesHome(site, s, call, t.node.disk, t.node.next);
    }
    SoundLater(site.cfg, t.node.disk, t.node.next, s.clock, t.clock);
    OwnNext(site, s, action, t.node, error.Some?);
    StaysDown(site, s, action, error, t);
  }

  lemma StaysDown(site: Site, s: System, action: Action, error: Option<Error>, t: System)
    requires Base(site, s) && Completes(site, s, action, error, t)
    ensures !t.up ==> t.active == map[] && t.flushes == map[] && t.node.races == map[]
  {
    hide Sound, Indexed, Catalogued, OwnCommands, Returns, ResumableNext, AnswersNext, InboxNext, StaleResume,
         RemovedBetween;
    if action.Restart? { RecoveryForgets(site.cfg, s.node, s.clock, t.node, error); }
  }

  /** Recovery remembers no send race that was not known before. */
  lemma RecoveryForgets(cfg: Config, n: Node, now: Time, after: Node, error: Option<Error>)
    requires Returns(cfg, n, Call.Recover(now), after, error) && n.races == map[]
    ensures after.races == map[]
  {
    hide Recovering, ExactIndexes, NoSharedMessage;
  }

  /** Executions and resumable records keep to the catalogue. */
  lemma OwnNext(site: Site, s: System, action: Action, node: Node, threw: bool)
    requires ValidSite(site) && Base(site, s) && Enabled(site, s, action)
    ensures OwnCommands(site, Next(site, s, action, node, threw))
  {
    hide Sound, Indexed, Catalogued, Base, FlushesNext, InboxNext, AnswersNext, StaleResume, RemovedBetween, CallOf,
         ValidSite,
         ActiveNext;
    ResumableCatalogued(site, s);
    OwnFrom(site, s);
    forall id | id in ActiveNext(site, s, action, threw)
      ensures var e := ActiveNext(site, s, action, threw)[id]; e.command == site.catalog(id) && e.stage != Accepting("")
    {
      OwnActive(site, s, action, threw, id);
    }
  }

  lemma OwnActive(site: Site, s: System, action: Action, threw: bool, id: string)
    requires ValidSite(site) && OwnCommands(site, s) && Enabled(site, s, action)
             && id in ActiveNext(site, s, action, threw)
    ensures var e := ActiveNext(site, s, action, threw)[id]; e.command == site.catalog(id) && e.stage != Accepting("")
  {
    hide ReceivedState, CallOf, StageNext, IsCurrent;
    if Executes(action) && action.id in s.active { StageProper(site, s, action, threw); }
  }

  lemma OwnFrom(site: Site, s: System)
    requires Base(site, s)
    ensures OwnCommands(site, s)
  {
  }

  lemma StageProper(site: Site, s: System, action: Action, threw: bool)
    requires Enabled(site, s, action) && Executes(action) && action.id in s.active
    ensures StageNext(s, action, threw) != Some(Accepting(""))
  {
  }

  lemma ResumableCatalogued(site: Site, s: System)
    requires Base(site, s)
    ensures forall r | r in RecordsAt(s.node.disk, InState(s.node.disk, StateReceived)) ::
              r.command == site.catalog(r.command.commandId)
  {
    hide ValidRecord, DrawnBefore, Timely, HasMessage, OwnCommands;
  }

  lemma ClockMoves(site: Site, s: System, action: Action, error: Option<Error>, t: System)
    requires Completes(site, s, action, error, t)
    ensures s.clock <= t.clock && (!action.Tick? ==> t.clock == s.clock)
    ensures t == Next(site, s, action, t.node, error.Some?)
    ensures CallOf(site, s, action).None? ==> t.node == s.node
    ensures Enabled(site, s, action)
  {
    hide Returns, ActiveNext, FlushesNext, AnswersNext, ResumableNext, InboxNext, StaleResume, RemovedBetween;
  }

  lemma CompletesCall(site: Site, s: System, action: Action, error: Option<Error>, t: System)
    requires Completes(site, s, action, error, t)
    ensures CallOf(site, s, action).Some? ==> Returns(site.cfg, s.node, CallOf(site, s, action).value, t.node, error)
  {
    hide Returns, Next, Enabled, CallOf;
  }

  lemma InitialBase(site: Site, s: System)
    requires Initial(s)
    ensures Base(site, s)
  {
  }

  lemma {:induction false} RunBase(site: Site, t: seq<System>, i: nat)
    requires ValidSite(site) && Run(site, t) && i < |t|
    ensures Base(site, t[i])
  {
    hide Base, Step, ValidSite, Initial;
    if i == 0 {
      InitialBase(site, t[0]);
    } else {
      RunBase(site, t, i - 1);
      StepBase(site, t[i - 1], t[i]);
    }
  }

  // ---- Bindings only move on ----

  ghost predicate Retainable(list: seq<Bindings.Binding>) {
    Bindings.Ascending(list) && |list| <= Bindings.MAXIMUM_RETAINED
  }

  /** A command under execution belongs to the current binding or to an older one. */
  ghost predicate BindingsAhead(s: System) {
    && Retainable(s.bindings) && Retainable(s.stored)
    && forall id | id in s.active :: NotAfterCurrent(s.bindings, s.active[id].command.bindingGeneration)
  }

  predicate NotAfterCurrent(list: seq<Bindings.Binding>, generation: int) {
    var current := Bindings.CurrentOf(list);
    current.Some? && generation <= current.value.generation
  }

  lemma {:induction false} FoundNotAfterCurrent(list: seq<Bindings.Binding>, generation: int)
    requires Bindings.Ascending(list) && BindingFor(list, generation).Some?
    ensures NotAfterCurrent(list, generation)
  {
    if list[0].generation != generation {
      FoundNotAfterCurrent(list[1..], generation);
    } else {
      assert list[0].generation <= list[|list| - 1].generation;
    }
  }

  /** Applying bindings keeps older generations behind, and one that is not current never becomes current again. */
  lemma RebindMovesOn(list: seq<Bindings.Binding>, incoming: seq<Bindings.Binding>, next: seq<Bindings.Binding>,
                      generation: int)
    requires Retainable(list) && Bindings.Applies(list, incoming, next) && NotAfterCurrent(list, generation)
    ensures NotAfterCurrent(next, generation)
    ensures Bindings.CurrentOf(next).value.generation == generation ==>
            Bindings.CurrentOf(list).value.generation == generation
  {
    Bindings.AppliesLater(list, incoming, next);
  }

  lemma RebindRetainable(list: seq<Bindings.Binding>, incoming: seq<Bindings.Binding>, next: seq<Bindings.Binding>)
    requires Retainable(list) && Bindings.Applies(list, incoming, next)
    ensures Retainable(next)
  {
    Bindings.AppliesLater(list, incoming, next);
  }

  /** What a step does to the bindings: nothing, or it applies some. */
  lemma BindingsNext(site: Site, s: System, action: Action, error: Option<Error>, t: System)
    requires BindingsAhead(s) && Completes(site, s, action, error, t)
    ensures Retainable(t.bindings) && Retainable(t.stored)
    ensures forall g | NotAfterCurrent(s.bindings, g) ::
          NotAfterCurrent(t.bindings, g) && (IsCurrent(t, g) ==> IsCurrent(s, g))
  {
    hide Bindings.Applies, Bindings.CurrentOf, Bindings.Ascending, CallOf, ActiveNext, FlushesNext, ResumableNext,
         AnswersNext,
         InboxNext, StaleResume, Returns, RemovedBetween;
    if action.Rebind? {
      RebindRetainable(s.bindings, action.incoming, action.next);
      forall g | NotAfterCurrent(s.bindings, g)
        ensures NotAfterCurrent(t.bindings, g) && (IsCurrent(t, g) ==> IsCurrent(s, g))
      {
        RebindMovesOn(s.bindings, action.incoming, action.next, g);
      }
    }
  }

  lemma AheadActive(site: Site, s: System, action: Action, threw: bool, id: string)
    requires BindingsAhead(s) && Enabled(site, s, action) && id in ActiveNext(site, s, action, threw)
    ensures NotAfterCurrent(s.bindings, ActiveNext(site, s, action, threw)[id].command.bindingGeneration)
  {
    ResumeFound(site, s, action);
    hide StageNext, ReceivedState, CallOf, Retainable, IsCurrent, NotAfterCurrent, BindingFor, Enabled;
    if action.Resume? { FoundAhead(s, action.record.command.bindingGeneration); }
    if action.Ingress? { CurrentIsNotAfter(s, site.catalog(action.id).bindingGeneration); }
  }

  lemma ResumeFound(site: Site, s: System, action: Action)
    requires Enabled(site, s, action)
    ensures action.Resume? ==> BindingFor(s.bindings, action.record.command.bindingGeneration).Some?
  {
    hide BindingFor;
  }

  lemma CurrentIsNotAfter(s: System, generation: int)
    ensures IsCurrent(s, generation) ==> NotAfterCurrent(s.bindings, generation)
  {
  }

  lemma FoundAhead(s: System, generation: int)
    requires BindingsAhead(s)
    ensures BindingFor(s.bindings, generation).Some? ==> NotAfterCurrent(s.bindings, generation)
  {
    if BindingFor(s.bindings, generation).Some? { FoundNotAfterCurrent(s.bindings, generation); }
  }

  lemma CompletesAhead(site: Site, s: System, action: Action, error: Option<Error>, t: System)
    requires BindingsAhead(s) && Completes(site, s, action, error, t)
    ensures BindingsAhead(t)
  {
    hide Enabled, ActiveNext, Completes, Next, Retainable, NotAfterCurrent, IsCurrent;
    BindingsNext(site, s, action, error, t);
    ClockMoves(site, s, action, error, t);
    ActiveIs(site, s, action, t.node, error.Some?);
    forall id | id in t.active ensures NotAfterCurrent(t.bindings, t.active[id].command.bindingGeneration) {
      AheadActive(site, s, action, error.Some?, id);
    }
  }

  lemma ActiveIs(site: Site, s: System, action: Action, node: Node, threw: bool)
    ensures Next(site, s, action, node, threw).active == ActiveNext(site, s, action, threw)
  {
    hide ActiveNext, FlushesNext, ResumableNext, AnswersNext, InboxNext, StaleResume, RemovedBetween;
  }

  lemma StepAhead(site: Site, s: System, t: System)
    requires BindingsAhead(s) && Step(site, s, t)
    ensures BindingsAhead(t)
  {
    hide Completes, BindingsAhead;
    if action, error :| Completes(site, s, action, error, t) {
      CompletesAhead(site, s, action, error, t);
    } else {
      var action :| Dies(site, s, action, t);
      DiesAhead(site, s, action, t);
    }
  }

  lemma DiesAhead(site: Site, s: System, action: Action, t: System)
    requires BindingsAhead(s) && Dies(site, s, action, t)
    ensures BindingsAhead(t)
  {
    hide Retainable, NotAfterCurrent, Enabled, CallOf, Interrupted, RemovedBetween;
  }

  lemma {:induction false} RunAhead(site: Site, t: seq<System>, i: nat)
    requires Run(site, t) && i < |t|
    ensures BindingsAhead(t[i])
  {
    hide Step, BindingsAhead;
    if i > 0 {
      RunAhead(site, t, i - 1);
      StepAhead(site, t[i - 1], t[i]);
    } else {
      InitialAhead(t[0]);
    }
  }

  lemma InitialAhead(s: System)
    requires Initial(s)
    ensures BindingsAhead(s)
  {
  }
}
