/** Which early acknowledgements are parked: told by the started commands and the times, over every run of the journal.
    */
module SendRaces {
  import opened Wrappers
  import opened Protocol
  import opened Records
  import opened JournalStore
  import opened JournalCalls
  import opened JournalRuns
  import CallMeanings
  import AckRuns

  /** `since` remembers, for each command this process has started, when it was last started: the time of the call, or
      for a command that was started already, when its record was last updated. */
  datatype Tracked = Tracked(world: World, since: map<string, Time>)

  ghost function SinceNext(w: Tracked, call: Call, error: Option<Error>, v: World): map<string, Time> {
    if !call.MarkStarted? || error.Some? || Locate(v.node.disk, call.id).Failed? then w.since else
    var slot := Locate(v.node.disk, call.id).value;
    if slot in v.node.disk.records && v.node.disk.records[slot].state.StateStarted?
    then w.since[call.id := v.node.disk.records[slot].updatedAt] else w.since
  }

  ghost predicate Called(cfg: Config, w: Tracked, call: Call, error: Option<Error>, v: Tracked) {
    CallStep(cfg, w.world, call, error, v.world) && v.since == SinceNext(w, call, error, v.world)
  }

  ghost predicate Stopped(cfg: Config, w: Tracked, v: Tracked) {
    ((exists call :: CutStep(cfg, w.world, call, v.world)) || CrashStep(w.world, v.world)) && v.since == map[]
  }

  ghost predicate TrackStep(cfg: Config, w: Tracked, v: Tracked) {
    (exists call, error :: Called(cfg, w, call, error, v)) || Stopped(cfg, w, v)
  }

  ghost predicate TrackRun(cfg: Config, t: seq<Tracked>) {
    && |t| > 0 && Starts(t[0].world) && t[0].since == map[]
    && forall i | 0 <= i < |t| - 1 :: TrackStep(cfg, t[i], t[i + 1])
  }

  // ---- The races are those of the started commands ----

  function RaceOf(cfg: Config, r: Record, since: Time): Race {
    Race(r.command.sessionId, since,
         if since + cfg.raceWindow <= r.command.expiresAt + 30_000 then since + cfg.raceWindow
         else r.command.expiresAt + 30_000)
  }

  predicate IsStarted(d: Disk, slot: Slot) {
    slot in d.records && d.records[slot].state.StateStarted?
  }

  ghost predicate TrackedAt(cfg: Config, n: Node, since: map<string, Time>, slot: Slot)
    requires IsStarted(n.disk, slot)
  {
    && slot.id in since && slot.id in n.races
    && n.races[slot.id] == RaceOf(cfg, n.disk.records[slot], since[slot.id])
  }

  ghost predicate RacesTrack(cfg: Config, n: Node, since: map<string, Time>) {
    && (forall slot | IsStarted(n.disk, slot) :: TrackedAt(cfg, n, since, slot))
    && (forall id | id in n.races :: exists slot :: IsStarted(n.disk, slot) && slot.id == id)
  }

  ghost predicate Tracks(cfg: Config, w: Tracked) {
    if w.world.up then RacesTrack(cfg, w.world.node, w.since) else w.world.node.races == map[]
  }

  /** A call under which no command starts or stops being started. */
  lemma SameTrack(cfg: Config, n: Node, x: Node, since: map<string, Time>)
    requires RacesTrack(cfg, n, since) && x.races == n.races
    requires forall slot :: IsStarted(x.disk, slot) <==> IsStarted(n.disk, slot)
    requires forall slot | IsStarted(x.disk, slot) :: x.disk.records[slot].command == n.disk.records[slot].command
    ensures RacesTrack(cfg, x, since)
  {
    forall slot | IsStarted(x.disk, slot) ensures TrackedAt(cfg, x, since, slot) {
      assert TrackedAt(cfg, n, since, slot);
    }
    forall id | id in x.races ensures exists slot :: IsStarted(x.disk, slot) && slot.id == id {
      var slot :| IsStarted(n.disk, slot) && slot.id == id;
    }
  }

  /** A call after which one command is not started. */
  lemma ClosedTrack(cfg: Config, n: Node, x: Node, since: map<string, Time>, slot: Slot)
    requires RacesTrack(cfg, n, since) && x.races == n.races - {slot.id} && !IsStarted(x.disk, slot)
    requires forall s: Slot | s.id == slot.id && IsStarted(n.disk, s) :: s == slot
    requires forall s | s != slot :: IsStarted(x.disk, s) <==> IsStarted(n.disk, s)
    requires forall s | IsStarted(x.disk, s) :: x.disk.records[s].command == n.disk.records[s].command
    ensures RacesTrack(cfg, x, since)
  {
    forall s | IsStarted(x.disk, s) ensures TrackedAt(cfg, x, since, s) {
      assert TrackedAt(cfg, n, since, s);
    }
    forall id | id in x.races ensures exists s :: IsStarted(x.disk, s) && s.id == id {
      var s :| IsStarted(n.disk, s) && s.id == id;
      assert IsStarted(x.disk, s);
    }
  }

  /** A call after which one command is started. */
  lemma OpenTrack(cfg: Config, n: Node, x: Node, since: map<string, Time>, slot: Slot, at: Time)
    requires RacesTrack(cfg, n, since) && IsStarted(x.disk, slot)
    requires x.races == n.races[slot.id := RaceOf(cfg, x.disk.records[slot], at)]
    requires forall s: Slot | s.id == slot.id && IsStarted(x.disk, s) :: s == slot
    requires forall s | s != slot :: IsStarted(x.disk, s) <==> IsStarted(n.disk, s)
    requires forall s | s != slot && IsStarted(x.disk, s) ::
               x.disk.records[s].command == n.disk.records[s].command
    ensures RacesTrack(cfg, x, since[slot.id := at])
  {
    forall s | IsStarted(x.disk, s) ensures TrackedAt(cfg, x, since[slot.id := at], s) {
      if s != slot { assert TrackedAt(cfg, n, since, s); }
    }
    forall id | id in x.races ensures exists s :: IsStarted(x.disk, s) && s.id == id {
      if id == slot.id {
        assert IsStarted(x.disk, slot);
      } else {
        var s :| IsStarted(n.disk, s) && s.id == id;
        assert IsStarted(x.disk, s);
      }
    }
  }

  // ---- Every call ----

  lemma RaceIs(cfg: Config, r: Record)
    ensures RaceFor(cfg, r) == RaceOf(cfg, r, r.updatedAt)
  {
  }

  lemma Rewritten(cfg: Config, d: Disk, slot: Slot, s: Record)
    requires Consistent(cfg, d) && slot in d.records
    ensures forall t | t != slot :: IsStarted(SetRecord(d, slot, s), t) <==> IsStarted(d, t)
    ensures forall t | t != slot && IsStarted(d, t) :: SetRecord(d, slot, s).records[t] == d.records[t]
    ensures forall t: Slot | t.id == slot.id && (IsStarted(d, t) || IsStarted(SetRecord(d, slot, s), t)) :: t == slot
  {
    hide ValidRecord, HasMessage;
  }

  lemma UnchangedOnes(cfg: Config, d: Disk, slot: Slot)
    requires Consistent(cfg, d) && slot in d.records
    ensures forall t: Slot | t.id == slot.id && IsStarted(d, t) :: t == slot
  {
    hide ValidRecord, HasMessage;
  }

  /** After a start that returned with a started record its race is open since the record's last update; after every
      other transition nothing else is. */
  ghost predicate TracksAfter(cfg: Config, since: map<string, Time>, slot: Slot, t: Transition, x: Node, done: bool) {
    if t.state.StateStarted? && done && IsStarted(x.disk, slot)
    then RacesTrack(cfg, x, since[slot.id := x.disk.records[slot].updatedAt]) else RacesTrack(cfg, x, since)
  }

  lemma SameStateTracks(cfg: Config, n: Node, since: map<string, Time>, slot: Slot, t: Transition, x: Node)
    requires RacesTrack(cfg, n, since) && Consistent(cfg, n.disk) && slot in n.disk.records
    requires n.disk.records[slot].state == t.state
    requires var r := n.disk.records[slot];
             x == if r.state.StateStarted? then n.(races := n.races[slot.id := RaceFor(cfg, r)]) else n
    ensures TracksAfter(cfg, since, slot, t, x, true)
  {
    hide Consistent, RacesTrack, RaceFor;
    if t.state.StateStarted? { StaysStarted(cfg, n, since, slot, x); }
  }

  lemma ClosedStateTracks(cfg: Config, n: Node, since: map<string, Time>, slot: Slot, t: Transition, x: Node)
    requires RacesTrack(cfg, n, since) && Consistent(cfg, n.disk) && slot in n.disk.records
    requires IsTerminal(n.disk.records[slot].state) && x == n.(races := n.races - {slot.id})
    ensures TracksAfter(cfg, since, slot, t, x, true)
  {
    hide Consistent, RacesTrack;
    StaysClosed(cfg, n, since, slot, x);
  }

  lemma NewStateTracks(cfg: Config, n: Node, since: map<string, Time>, slot: Slot, t: Transition, s: Record, x: Node)
    requires RacesTrack(cfg, n, since) && Consistent(cfg, n.disk) && slot in n.disk.records && s.state == t.state
    requires x.disk == SetRecord(n.disk, slot, s)
    requires x.races == if s.state.StateStarted? then n.races[slot.id := RaceFor(cfg, s)] else n.races - {slot.id}
    ensures TracksAfter(cfg, since, slot, t, x, true)
  {
    hide Consistent, RacesTrack, RaceFor;
    if t.state.StateStarted? {
      Opens(cfg, n, since, slot, s, x);
    } else {
      Closes(cfg, n, since, slot, s, x);
    }
  }

  lemma RefusedTracks(cfg: Config, n: Node, since: map<string, Time>, slot: Slot, t: Transition)
    requires RacesTrack(cfg, n, since)
    ensures TracksAfter(cfg, since, slot, t, n, false)
  {
    hide RacesTrack;
  }

  lemma TransitionTracks(cfg: Config, n: Node, since: map<string, Time>, slot: Slot, t: Transition)
    requires RacesTrack(cfg, n, since) && Locate(n.disk, slot.id) == Done(slot) && slot in n.disk.records
    requires Consistent(cfg, n.disk)
    requires TransitionAllowed(n.disk.records[slot].state, t) ==> !HasKind(n.disk.records[slot], t.kind)
    requires n.disk.records[slot].state == t.state || IsTerminal(n.disk.records[slot].state)
             || Refuses(n.disk.records[slot].state, t) || TransitionAllowed(n.disk.records[slot].state, t)
    ensures var o := TransitionOutcome(cfg, n, slot.id, t);
            TracksAfter(cfg, since, slot, t, o.node, o.reply.Done?)
  {
    hide *;
    var r, o := n.disk.records[slot], TransitionOutcome(cfg, n, slot.id, t);
    TransitionShape(cfg, n, slot, t);
    if r.state == t.state {
      SameStateTracks(cfg, n, since, slot, t, o.node);
    } else if IsTerminal(r.state) {
      ClosedStateTracks(cfg, n, since, slot, t, o.node);
    } else if Refuses(r.state, t) {
      RefusedTracks(cfg, n, since, slot, t);
    } else {
      AppendedState(r, t, n.next);
      NewStateTracks(cfg, n, since, slot, t, AppendEvidence(r, t, n.next), o.node);
    }
  }

  lemma StaysStarted(cfg: Config, n: Node, since: map<string, Time>, slot: Slot, x: Node)
    requires RacesTrack(cfg, n, since) && Consistent(cfg, n.disk) && IsStarted(n.disk, slot)
    requires x == n.(races := n.races[slot.id := RaceFor(cfg, n.disk.records[slot])])
    ensures RacesTrack(cfg, x, since[slot.id := n.disk.records[slot].updatedAt])
  {
    RaceIs(cfg, n.disk.records[slot]);
    UnchangedOnes(cfg, n.disk, slot);
    hide Consistent, RacesTrack, RaceFor, RaceOf;
    OpenTrack(cfg, n, x, since, slot, n.disk.records[slot].updatedAt);
  }

  lemma StaysClosed(cfg: Config, n: Node, since: map<string, Time>, slot: Slot, x: Node)
    requires RacesTrack(cfg, n, since) && Consistent(cfg, n.disk) && slot in n.disk.records && !IsStarted(n.disk, slot)
    requires x == n.(races := n.races - {slot.id})
    ensures RacesTrack(cfg, x, since)
  {
    UnchangedOnes(cfg, n.disk, slot);
    hide Consistent, RacesTrack;
    ClosedTrack(cfg, n, x, since, slot);
  }

  lemma Opens(cfg: Config, n: Node, since: map<string, Time>, slot: Slot, s: Record, x: Node)
    requires RacesTrack(cfg, n, since) && Consistent(cfg, n.disk) && slot in n.disk.records && s.state.StateStarted?
    requires x.disk == SetRecord(n.disk, slot, s) && x.races == n.races[slot.id := RaceFor(cfg, s)]
    ensures RacesTrack(cfg, x, since[slot.id := s.updatedAt])
  {
    RaceIs(cfg, s);
    Rewritten(cfg, n.disk, slot, s);
    hide Consistent, RacesTrack, RaceFor, RaceOf;
    OpenTrack(cfg, n, x, since, slot, s.updatedAt);
  }

  lemma Closes(cfg: Config, n: Node, since: map<string, Time>, slot: Slot, s: Record, x: Node)
    requires RacesTrack(cfg, n, since) && Consistent(cfg, n.disk) && slot in n.disk.records && !s.state.StateStarted?
    requires x.disk == SetRecord(n.disk, slot, s) && x.races == n.races - {slot.id}
    ensures RacesTrack(cfg, x, since)
  {
    Rewritten(cfg, n.disk, slot, s);
    hide Consistent, RacesTrack;
    ClosedTrack(cfg, n, x, since, slot);
  }

  predicate Refuses(from: State, t: Transition) {
    (t.state.StateStarted? || t.state.StateRejected?) && !from.StateReceived?
  }

  lemma AppendedState(r: Record, t: Transition, eventId: nat)
    requires !HasKind(r, t.kind)
    ensures AppendEvidence(r, t, eventId).state == t.state && AppendEvidence(r, t, eventId).command == r.command
  {
  }

  lemma TransitionShape(cfg: Config, n: Node, slot: Slot, t: Transition)
    requires Locate(n.disk, slot.id) == Done(slot) && slot in n.disk.records
    ensures var r, o := n.disk.records[slot], TransitionOutcome(cfg, n, slot.id, t);
            var s := AppendEvidence(r, t, n.next);
            if r.state == t.state then
              && o.reply == Done(r)
              && o.node == if r.state.StateStarted? then n.(races := n.races[slot.id := RaceFor(cfg, r)]) else n
            else if IsTerminal(r.state) then o.reply == Done(r) && o.node == n.(races := n.races - {slot.id})
            else if Refuses(r.state, t) then o.reply.Failed? && o.node == n
            else
              && o.reply == Done(s) && o.node.disk == SetRecord(n.disk, slot, s)
              && o.node.races == if s.state.StateStarted? then n.races[slot.id := RaceFor(cfg, s)]
                                 else n.races - {slot.id}
  {
    hide Locate, AppendEvidence, RaceFor;
  }

  lemma AcceptTracks(cfg: Config, n: Node, since: map<string, Time>, id: string, m: string, now: Time)
    requires RacesTrack(cfg, n, since) && Consistent(cfg, n.disk) && Indexed(n.disk) && m != ""
    ensures RacesTrack(cfg, AcceptOutcome(n, id, m, now).node, since)
  {
    if Locate(n.disk, id).Done? {
      var slot := Locate(n.disk, id).value;
      LocateFinds(cfg, n.disk, id);
      AcceptRaces(n, slot, m, now);
      assert CallMeanings.Stored(cfg, n.disk, slot);
      hide RacesTrack, Consistent, Locate, AcceptOutcome, Indexed, CallMeanings.Stored;
      AcceptTracksAt(cfg, n, since, slot, m, now);
    } else {
      hide RacesTrack, Consistent, Locate, Indexed;
    }
  }

  lemma AcceptTracksAt(cfg: Config, n: Node, since: map<string, Time>, slot: Slot, m: string, now: Time)
    requires RacesTrack(cfg, n, since) && CallMeanings.Stored(cfg, n.disk, slot) && slot in n.disk.records && m != ""
    requires AcceptOutcome(n, slot.id, m, now).node.races ==
               if n.disk.records[slot].state.StateReceived? then n.races else n.races - {slot.id}
    ensures RacesTrack(cfg, AcceptOutcome(n, slot.id, m, now).node, since)
  {
    CallMeanings.AcceptMeans(cfg, n, slot, m, now);
    var o := AcceptOutcome(n, slot.id, m, now);
    assert Consistent(cfg, n.disk) by { hide Consistent; }
    hide RacesTrack, Consistent, AcceptOutcome, Indexed, CallMeanings.Stored, CallMeanings.AcceptedInto;
    match n.disk.records[slot].state
    case StateReceived => SameTrack(cfg, n, o.node, since);
    case StateStarted =>
      AcceptedCloses(n.disk, slot, m, now, o.node.disk, o.reply);
      Closes(cfg, n, since, slot, o.node.disk.records[slot], Node(SetRecord(n.disk, slot, o.node.disk.records[slot]),
                                                                  o.node.races, o.node.next));
      SameTrack(cfg, Node(SetRecord(n.disk, slot, o.node.disk.records[slot]), o.node.races, o.node.next), o.node,
                since);
    case _ => StaysClosed(cfg, n, since, slot, n.(races := n.races - {slot.id}));
      SameTrack(cfg, n.(races := n.races - {slot.id}), o.node, since);
  }

  lemma AcceptedCloses(d: Disk, slot: Slot, m: string, now: Time, x: Disk, reply: Reply<Record, Error>)
    requires slot in d.records && CallMeanings.AcceptedInto(d, slot, m, now, x, reply)
    ensures slot in x.records && !x.records[slot].state.StateStarted?
    ensures x.records == SetRecord(d, slot, x.records[slot]).records
  {
    hide CallMeanings.AcknowledgedLast;
  }

  lemma AcceptRaces(n: Node, slot: Slot, m: string, now: Time)
    requires Locate(n.disk, slot.id) == Done(slot) && slot in n.disk.records
    ensures var o := AcceptOutcome(n, slot.id, m, now);
            o.node.races == if n.disk.records[slot].state.StateReceived? then n.races else n.races - {slot.id}
  {
    hide Locate;
  }

  // ---- All together ----

  predicate NeitherStarts(call: Call) {
    call.Receive? || call.Acknowledge? || call.Delivered? || call.Failure? || call.Compact?
  }

  lemma RacesStay(cfg: Config, n: Node, call: Call, after: Node, error: Option<Error>)
    requires Returns(cfg, n, call, after, error) && NeitherStarts(call)
    ensures after.races == n.races
  {
    hide Locate, AppendEvidence, AppendAck, AckIgnored, HasEvent, MarkDelivered, NoteFailure, HomeOf, HasBucket,
         ParkedTo, InRace, Compacting, PrunedTo;
  }

  lemma StartedStay(cfg: Config, d: Disk, call: Call, x: Disk, first: nat, slot: Slot)
    requires Moves(cfg, d, call, x, first) && NeitherStarts(call)
    ensures IsStarted(x, slot) <==> IsStarted(d, slot)
    ensures IsStarted(x, slot) ==> x.records[slot].command == d.records[slot].command
  {
    hide Timely, DrawnBefore;
    if slot in d.records && slot in x.records { assert Evolves(d.records[slot], x.records[slot], call); }
    if slot in d.records && slot !in x.records { assert ExpiredSlot(cfg, d, slot, call.now); }
  }

  lemma OtherCallTracks(cfg: Config, n: Node, since: map<string, Time>, call: Call, after: Node, error: Option<Error>,
                        clock: Time)
    requires RacesTrack(cfg, n, since) && Ready(cfg, n, call, clock) && Returns(cfg, n, call, after, error)
    requires NeitherStarts(call)
    ensures RacesTrack(cfg, after, since)
  {
    hide RacesTrack, Ready, Returns, Sound, Moves;
    RacesStay(cfg, n, call, after, error);
    ReturnKeeps(cfg, n, call, after, error, clock);
    forall slot
      ensures IsStarted(after.disk, slot) <==> IsStarted(n.disk, slot)
      ensures IsStarted(after.disk, slot) ==> after.disk.records[slot].command == n.disk.records[slot].command
    {
      StartedStay(cfg, n.disk, call, after.disk, n.next, slot);
    }
    SameTrack(cfg, n, after, since);
  }

  lemma AllowedOrNot(r: Record, t: Transition, call: Call)
    requires Transitions(call) && t == TransitionOf(call)
    ensures !t.state.StateReceived? && !t.state.StateAccepted?
    ensures r.state == t.state || IsTerminal(r.state)
            || Refuses(r.state, t) || TransitionAllowed(r.state, t)
  {
  }

  lemma TransitionCallTracks(cfg: Config, w: Tracked, call: Call, error: Option<Error>, v: Tracked)
    requires Called(cfg, w, call, error, v) && w.world.up && Transitions(call)
    requires RacesTrack(cfg, w.world.node, w.since) && Consistent(cfg, w.world.node.disk) && Indexed(w.world.node.disk)
    ensures RacesTrack(cfg, v.world.node, v.since)
  {
    var n, t := w.world.node, TransitionOf(call);
    var found := Locate(n.disk, call.id);
    LocateFinds(cfg, n.disk, call.id);
    if found.Done? {
      var slot := found.value;
      AllowedOrNot(n.disk.records[slot], t, call);
      if TransitionAllowed(n.disk.records[slot].state, t) {
        assert ValidRecord(n.disk.records[slot]) by { hide ValidRecord, HasMessage, Indexed; }
        KindIsNew(n.disk.records[slot], t);
      }
      hide Consistent, Indexed, RacesTrack, TransitionAllowed, TransitionOutcome, Locate, HasKind;
      TransitionTracks(cfg, n, w.since, slot, t);
      TransitionSince(cfg, w, call, error, v, slot);
    } else {
      hide RacesTrack, Consistent, Indexed, Locate;
      NotFoundSince(cfg, w, call, error, v);
    }
  }

  lemma NotFoundSince(cfg: Config, w: Tracked, call: Call, error: Option<Error>, v: Tracked)
    requires Called(cfg, w, call, error, v) && Transitions(call) && Locate(w.world.node.disk, call.id).Failed?
    ensures v.world.node == w.world.node && v.since == w.since
  {
    hide Locate;
  }

  lemma TransitionSince(cfg: Config, w: Tracked, call: Call, error: Option<Error>, v: Tracked, slot: Slot)
    requires Called(cfg, w, call, error, v) && Transitions(call)
    requires Locate(w.world.node.disk, call.id) == Done(slot) && slot in w.world.node.disk.records && slot.id == call.id
    ensures var o := TransitionOutcome(cfg, w.world.node, call.id, TransitionOf(call));
            && v.world.node == o.node
            && v.since == if TransitionOf(call).state.StateStarted? && o.reply.Done? && IsStarted(o.node.disk, slot)
                          then w.since[slot.id := o.node.disk.records[slot].updatedAt] else w.since
  {
    StillLocated(cfg, w.world.node, slot, TransitionOf(call));
    hide Locate, AppendEvidence, RaceFor;
  }

  /** A transition moves no pointer. */
  lemma StillLocated(cfg: Config, n: Node, slot: Slot, t: Transition)
    requires Locate(n.disk, slot.id) == Done(slot) && slot in n.disk.records
    ensures Locate(TransitionOutcome(cfg, n, slot.id, t).node.disk, slot.id) == Done(slot)
  {
    hide RaceFor;
    var x := TransitionOutcome(cfg, n, slot.id, t).node.disk;
    assert x.pointers == n.disk.pointers && x.records.Keys == n.disk.records.Keys by { hide AppendEvidence; }
    assert slot in x.records && x.records[slot].digest == n.disk.records[slot].digest;
  }

  lemma CallTracks(cfg: Config, w: Tracked, call: Call, error: Option<Error>, v: Tracked)
    requires Invariant(cfg, w.world) && Tracks(cfg, w) && Called(cfg, w, call, error, v)
    ensures Tracks(cfg, v)
  {
    var n := w.world.node;
    hide RacesTrack, Returns, Sound, Indexed, SinceNext;
    assert Ready(cfg, n, call, w.world.clock) by { hide Consistent; }
    if call.Recover? {
      RecoverTracks(cfg, n, call, v.world.node, error, w.world.clock);
      assert v.since == w.since by { OtherSince(cfg, w, call, error, v); }
      if v.world.up { EmptyTrack(cfg, v.world.node, v.since); }
    } else {
      SoundIsConsistent(cfg, n.disk, n.next, w.world.clock);
      hide Consistent;
      if NeitherStarts(call) {
        OtherCallTracks(cfg, n, w.since, call, v.world.node, error, w.world.clock);
        OtherSince(cfg, w, call, error, v);
      } else if call.MarkAccepted? {
        AcceptTracks(cfg, n, w.since, call.id, call.messageId, call.now);
        OtherSince(cfg, w, call, error, v);
        AcceptNode(cfg, n, call, v.world.node, error);
      } else {
        TransitionCallTracks(cfg, w, call, error, v);
      }
    }
  }

  lemma AcceptNode(cfg: Config, n: Node, call: Call, after: Node, error: Option<Error>)
    requires call.MarkAccepted? && Returns(cfg, n, call, after, error)
    ensures after == AcceptOutcome(n, call.id, call.messageId, call.now).node
  {
    hide AcceptOutcome;
  }

  lemma OtherSince(cfg: Config, w: Tracked, call: Call, error: Option<Error>, v: Tracked)
    requires Called(cfg, w, call, error, v) && !call.MarkStarted?
    ensures v.since == w.since
  {
    hide CallStep;
  }

  /** Recovery leaves nothing started and no race. */
  lemma RecoverTracks(cfg: Config, n: Node, call: Call, after: Node, error: Option<Error>, clock: Time)
    requires Ready(cfg, n, call, clock) && call.Recover? && Returns(cfg, n, call, after, error) && n.races == map[]
    ensures after.races == map[]
    ensures error.None? ==> forall slot :: !IsStarted(after.disk, slot)
  {
    hide Ready, RecoverReturns;
    var reply :| RecoverReturns(n, call.now, after, reply) && error == ErrorOf(reply);
    hide Returns;
    NoRacesLeft(n, call.now, after, reply);
    if reply.Done? { RecoverCloses(cfg, n, call, after, reply, clock); }
  }

  lemma RecoverCloses(cfg: Config, n: Node, call: Call, after: Node, reply: Reply<Recovery, Error>, clock: Time)
    requires Ready(cfg, n, call, clock) && RecoverReturns(n, call.now, after, reply) && reply.Done?
    ensures forall slot :: !IsStarted(after.disk, slot)
  {
    assert Consistent(cfg, n.disk) by { hide Consistent; }
    hide Ready, Consistent, RecoverReturns;
    CallMeanings.RecoverMeans(cfg, n, call.now, after, reply);
    NothingStarted(n.disk, after.disk, call.now);
  }

  lemma NoRacesLeft(n: Node, now: Time, after: Node, reply: Reply<Recovery, Error>)
    requires RecoverReturns(n, now, after, reply) && n.races == map[]
    ensures after.races == map[]
  {
    hide Recovering, ExactIndexes, NoSharedMessage, RecoversTo;
  }

  lemma NothingStarted(d: Disk, x: Disk, now: Time)
    requires x.records.Keys == d.records.Keys
    requires forall slot | slot in d.records ::
               var r, s := d.records[slot], x.records[slot];
               if r.state.StateStarted? then
                 CallMeanings.Adds(r, s, StateIndeterminate, SendIndeterminate, Indeterminate, Some(Ambiguous),
                                   Some("PLUGIN_RESTART_AFTER_SEND_STARTED"), now)
               else s == r
    ensures forall slot :: !IsStarted(x, slot)
  {
    forall slot ensures !IsStarted(x, slot) {
      if slot in x.records.Keys { assert slot in d.records; }
    }
  }

  lemma EmptyTrack(cfg: Config, n: Node, since: map<string, Time>)
    requires n.races == map[] && forall slot :: !IsStarted(n.disk, slot)
    ensures RacesTrack(cfg, n, since)
  {
  }

  ghost predicate TrackInvariant(cfg: Config, w: Tracked) {
    Invariant(cfg, w.world) && Tracks(cfg, w)
  }

  lemma TrackKeeps(cfg: Config, w: Tracked, v: Tracked)
    requires TrackInvariant(cfg, w) && TrackStep(cfg, w, v)
    ensures TrackInvariant(cfg, v)
  {
    hide Invariant, Tracks, CallStep, CutStep;
    if call, error :| Called(cfg, w, call, error, v) {
      assert Step(cfg, w.world, v.world);
      StepKeeps(cfg, w.world, v.world);
      hide Called;
      CallTracks(cfg, w, call, error, v);
    } else {
      assert Step(cfg, w.world, v.world);
      StepKeeps(cfg, w.world, v.world);
      StoppedTracks(cfg, w, v);
    }
  }

  lemma StoppedTracks(cfg: Config, w: Tracked, v: Tracked)
    requires Stopped(cfg, w, v)
    ensures Tracks(cfg, v)
  {
    hide Interrupted, RacesTrack;
  }

  lemma {:induction false} TrackRunKeeps(cfg: Config, t: seq<Tracked>, i: nat)
    requires TrackRun(cfg, t) && i < |t|
    ensures TrackInvariant(cfg, t[i])
  {
    if i > 0 {
      TrackRunKeeps(cfg, t, i - 1);
      assert TrackStep(cfg, t[i - 1], t[i - 1 + 1]);
      hide TrackInvariant, TrackStep;
      TrackKeeps(cfg, t[i - 1], t[i]);
    } else {
      BlankSound(cfg, t[0].world);
      hide Invariant;
    }
  }

  // ---- What is parked ----

  /** The record was started by this process, and an acknowledgement that occurred then may belong to its send: at most
      30 seconds before the start, within the race window after it, and at most 30 seconds after its expiry. */
  predicate MayBelong(cfg: Config, r: Record, since: Time, sessionId: string, occurredAt: Time) {
    && r.state.StateStarted? && r.command.sessionId == sessionId
    && since - 30_000 <= occurredAt <= since + cfg.raceWindow
    && occurredAt <= r.command.expiresAt + 30_000
  }

  ghost predicate Candidate(cfg: Config, w: Tracked, sessionId: string, occurredAt: Time) {
    exists slot | slot in w.world.node.disk.records ::
      slot.id in w.since && MayBelong(cfg, w.world.node.disk.records[slot], w.since[slot.id], sessionId, occurredAt)
  }

  lemma CandidateIsRace(cfg: Config, w: Tracked, sessionId: string, occurredAt: Time)
    requires RacesTrack(cfg, w.world.node, w.since)
    ensures Candidate(cfg, w, sessionId, occurredAt) <==> InRace(w.world.node.races, sessionId, occurredAt)
  {
    var n := w.world.node;
    if slot :| slot in n.disk.records && slot.id in w.since
               && MayBelong(cfg, n.disk.records[slot], w.since[slot.id], sessionId, occurredAt) {
      assert TrackedAt(cfg, n, w.since, slot);
    }
    if id :| id in n.races && n.races[id].sessionId == sessionId
             && n.races[id].startedAt - 30_000 <= occurredAt <= n.races[id].deadline {
      var slot :| IsStarted(n.disk, slot) && slot.id == id;
      assert TrackedAt(cfg, n, w.since, slot);
    }
  }

  /** What parking adds: nothing weaker replaces what is parked for the message, and a new entry displaces only others.
      */
  ghost predicate ParkedNow(cfg: Config, before: map<string, Orphan>, m: string, o: Orphan,
                            after: map<string, Orphan>) {
    if m in before then
      after == if AckRuns.Rank(before[m].status) < AckRuns.Rank(o.status) then before[m := o] else before
    else
      && m in after && after[m] == o
      && forall k | k in after && k != m :: k in before && after[k] == before[k]
  }

  /** At every moment of a process, a started record was started by it. While its message id is not known, an
      acknowledgement is parked exactly when it may belong to one of the started commands of its session and was
      observed in time: at most 30 seconds before it occurred, and within the retention after. Otherwise nothing
      changes. */
  lemma EarlyAcknowledgementIsParked(cfg: Config, t: seq<Tracked>, i: nat, sessionId: string, m: string,
                                     status: AckStatus, occurredAt: Time, now: Time, after: Node,
                                     reply: Reply<bool, Error>)
    requires TrackRun(cfg, t) && i < |t| && t[i].world.up && m !in t[i].world.node.disk.messages
    requires AcknowledgeReturns(cfg, t[i].world.node, sessionId, m, status, occurredAt, now, after, reply)
    ensures forall slot | slot in t[i].world.node.disk.records
                          && t[i].world.node.disk.records[slot].state.StateStarted? :: slot.id in t[i].since
    ensures reply == Done(false)
    ensures if Candidate(cfg, t[i], sessionId, occurredAt)
               && occurredAt <= now + 30_000 && now - occurredAt <= cfg.orphanRetention
            then
              && after == t[i].world.node.(disk := t[i].world.node.disk.(orphans := after.disk.orphans))
              && ParkedNow(cfg, t[i].world.node.disk.orphans, m, Orphan(sessionId, status, occurredAt),
                           after.disk.orphans)
            else after == t[i].world.node
  {
    TrackRunKeeps(cfg, t, i);
    var n := t[i].world.node;
    StartedInSince(cfg, t[i]);
    assert RacesTrack(cfg, n, t[i].since) by { hide Invariant, RacesTrack; }
    hide TrackRun, TrackInvariant, RacesTrack;
    CandidateIsRace(cfg, t[i], sessionId, occurredAt);
    hide Candidate, InRace;
    if InWindow(cfg, Orphan(sessionId, status, occurredAt), now) && InRace(n.races, sessionId, occurredAt) {
      ParkedShown(cfg, n.disk.orphans, m, Orphan(sessionId, status, occurredAt), now, after.disk.orphans);
    }
    hide ParkedNow;
  }

  lemma StartedInSince(cfg: Config, w: Tracked)
    requires TrackInvariant(cfg, w) && w.world.up
    ensures forall slot | slot in w.world.node.disk.records && w.world.node.disk.records[slot].state.StateStarted? ::
              slot.id in w.since
  {
    hide Invariant;
    forall slot | slot in w.world.node.disk.records && w.world.node.disk.records[slot].state.StateStarted?
      ensures slot.id in w.since
    {
      assert TrackedAt(cfg, w.world.node, w.since, slot);
    }
  }

  lemma ParkedShown(cfg: Config, before: map<string, Orphan>, m: string, o: Orphan, now: Time,
                    after: map<string, Orphan>)
    requires ParkedTo(cfg, before, m, o, now, after) && InWindow(cfg, o, now)
    ensures ParkedNow(cfg, before, m, o, after)
  {
    AckRuns.ParkedElsewhere(cfg, before, m, o, now, after);
  }

  /** A start that returns opens the race at the time of the call when it is the first start of the command. */
  lemma StartOpensRace(cfg: Config, w: Tracked, call: Call, v: Tracked, slot: Slot)
    requires TrackInvariant(cfg, w) && Called(cfg, w, call, None, v) && call.MarkStarted? && slot.id == call.id
    requires slot in w.world.node.disk.records && w.world.node.disk.records[slot].state.StateReceived? && w.world.up
    ensures IsStarted(v.world.node.disk, slot) && slot.id in v.since && v.since[slot.id] == call.now
  {
    InvariantStored(cfg, w, slot);
    StartStarts(cfg, w.world.node, slot, call.now);
    hide *;
    TransitionSince(cfg, w, call, None, v, slot) by { StartIsTransition(call); }
    StartIsTransition(call);
  }

  lemma StartIsTransition(call: Call)
    requires call.MarkStarted?
    ensures Transitions(call) && TransitionOf(call) == StartTransition(call.now)
    ensures StartTransition(call.now).state.StateStarted?
  {
  }

  lemma InvariantStored(cfg: Config, w: Tracked, slot: Slot)
    requires TrackInvariant(cfg, w) && w.world.up && slot in w.world.node.disk.records
    ensures CallMeanings.Stored(cfg, w.world.node.disk, slot)
  {
    hide ValidRecord, HasMessage, DrawnBefore, Timely, Tracks;
  }

  lemma StartStarts(cfg: Config, n: Node, slot: Slot, now: Time)
    requires CallMeanings.Stored(cfg, n.disk, slot) && slot in n.disk.records
             && n.disk.records[slot].state.StateReceived?
    ensures var o := TransitionOutcome(cfg, n, slot.id, StartTransition(now));
            o.reply.Done? && IsStarted(o.node.disk, slot) && o.node.disk.records[slot].updatedAt == now
    ensures Locate(n.disk, slot.id) == Done(slot)
  {
    CallMeanings.StoredLocated(cfg, n.disk, slot);
    CallMeanings.StartMeans(cfg, n, slot, now);
    hide CallMeanings.Stored, TransitionOutcome, Locate, ValidRecord;
  }
}
