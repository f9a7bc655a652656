/** Two runs of the connector that show what its guards do not rule out: a command that is sent twice, and one that is
    sent after it was rejected. What happens beside an execution happens while it waits for its media check, and what
    happens before a resume, while the restarted process waits for its second heartbeat. */
module SendExamples {
  import opened Wrappers
  import opened Protocol
  import opened Records
  import opened JournalStore
  import opened JournalCalls
  import opened Connector
  import Bindings

  const ID := "command"

  /** Commands that send an image: their execution waits for the media check before it starts. */
  function Image(id: string): Command {
    Command(id, "session", 1, "2026-01-01", 0, 1_000, SendImage)
  }

  function ShardZero(id: string): nat {
    0
  }

  function Unordered(a: string, b: string): bool {
    false
  }

  const CFG := Config(MAX_EXPIRY_WINDOW, 1, 1, 1, ShardZero, Unordered)
  const SITE := Site(CFG, "session", Image)
  const HOME := Slot(Bucket("session", "2026-01-01", 0), ID)
  const FIRST := Bindings.Binding("session", "connector", "hook", 1, Some(0))
  const SECOND := Bindings.Binding("session", "connector", "hook-2", 2, Some(0))

  lemma SiteIsValid()
    ensures ValidSite(SITE) && HomeOf(CFG, Image(ID)) == HOME
  {
  }

  ghost predicate Reached(s: System) {
    exists t :: Run(SITE, t) && t[|t| - 1] == s
  }

  lemma Reach(s: System, t: System)
    requires Reached(s) && Step(SITE, s, t)
    ensures Reached(t)
  {
    hide Step, Initial;
    var r :| Run(SITE, r) && r[|r| - 1] == s;
    var longer := r + [t];
    forall i | 0 <= i < |longer| - 1 ensures Step(SITE, longer[i], longer[i + 1]) {
      if i < |r| - 1 { assert Step(SITE, r[i], r[i + 1]); }
    }
    assert Run(SITE, longer);
  }

  // ---- The states of the runs, all at time 0 ----

  /** A journal that holds `r` and its pointer, or nothing. */
  function Journal(r: Option<Record>, races: map<string, Race>, next: nat): Node {
    Node(Disk(if r.Some? then map[HOME := r.value] else map[],
              if r.Some? then map[ID := Pointer(HOME.bucket, "digest")] else map[], map[], map[]), races, next)
  }

  function Up(node: Node, stage: Option<Stage>, resumable: set<Record>, answers: set<Answer>,
              bindings: seq<Bindings.Binding>,
              sends: multiset<string>, stale: multiset<string>): System {
    System(node, 0, true, if stage.Some? then map[ID := Execution(Image(ID), stage.value)] else map[], map[],
           resumable, answers,
           bindings, [], sends, stale, [], {})
  }

  /** A valid record of the command. */
  ghost predicate Ours(r: Record) {
    r.command == Image(ID) && r.digest == "digest"
  }

  function Received(): Record {
    NewRecord(Image(ID), "digest", "hook", 0, 0)
  }

  function Started(): Record {
    AppendEvidence(Received(), StartTransition(0), 1)
  }

  // ---- Steps ----

  lemma Found(r: Record, races: map<string, Race>, next: nat)
    requires Ours(r)
    ensures var d := Journal(Some(r), races, next).disk;
            Locate(d, ID) == Done(HOME) && d.records[HOME] == r && HasBucket(d, HOME.bucket)
  {
    var d := Journal(Some(r), races, next).disk;
    assert HOME in d.records;
  }

  lemma Rebinds(node: Node, resumable: set<Record>, sends: multiset<string>, stale: multiset<string>,
                stage: Option<Stage>)
    ensures Step(SITE, Up(node, stage, resumable, {}, [], sends, stale),
                 Up(node, stage, resumable, {}, [FIRST], sends, stale))
  {
    var s, t := Up(node, stage, resumable, {}, [], sends, stale), Up(node, stage, resumable, {}, [FIRST], sends, stale);
    var action := Rebind([FIRST], [FIRST]);
    BindsFirst();
    NothingRemoved(node.disk, node.disk);
    assert Completes(SITE, s, action, None, t);
  }

  lemma BindsFirst()
    ensures Bindings.Ascending([]) && Bindings.Applies([], [FIRST], [FIRST])
  {
    var m := map[1 := FIRST];
    assert Bindings.ByGeneration([]) == map[];
    assert Bindings.Absorb(m, []) == Some(m);
    assert Bindings.Absorb(map[], [FIRST]) == Some(m) by { assert [FIRST][1..] == []; assert map[][1 := FIRST] == m; }
    assert Bindings.Mentions([FIRST], 1) by { assert [FIRST][0].generation == 1; }
    assert |m| == 1;
  }

  function Off(node: Node, sends: multiset<string>, stale: multiset<string>): System {
    System(node, 0, false, map[], map[], {}, {}, [], [], sends, stale, [], {})
  }

  lemma Crashes(node: Node, stage: Option<Stage>, resumable: set<Record>, answers: set<Answer>,
                bindings: seq<Bindings.Binding>,
                sends: multiset<string>, stale: multiset<string>)
    ensures Step(SITE, Up(node, stage, resumable, answers, bindings, sends, stale),
                 Off(node.(races := map[]), sends, stale))
  {
    NothingRemoved(node.disk, node.disk);
    assert Dies(SITE, Up(node, stage, resumable, answers, bindings, sends, stale), Crash,
                Off(node.(races := map[]), sends, stale));
  }

  /** A step whose journal call returns. */
  lemma Calls(s: System, t: System, action: Action, call: Call)
    requires Enabled(SITE, s, action) && !action.Crash? && CallOf(SITE, s, action) == Some(call)
    requires Returns(CFG, s.node, call, t.node, None) && t == Next(SITE, s, action, t.node, false)
    ensures Step(SITE, s, t)
  {
    hide Enabled, CallOf, Returns, Next;
    assert Completes(SITE, s, action, None, t);
  }

  lemma RecoversNothing(r: Option<Record>, next: nat)
    requires r.Some? ==> Ours(r.value) && r.value.state.StateReceived? && r.value.messageId.None?
    ensures var n := Journal(r, map[], next);
            && Returns(CFG, n, Call.Recover(0), n, None)
            && RecordsAt(n.disk, InState(n.disk, StateReceived)) == if r.Some? then {r.value} else {}
  {
    var n := Journal(r, map[], next);
    assert InState(n.disk, StateStarted) == {};
    var resumable := RecordsAt(n.disk, InState(n.disk, StateReceived));
    assert resumable == if r.Some? then {r.value} else {} by {
      if r.Some? { assert HOME in InState(n.disk, StateReceived); }
    }
    var reply := Done(Recovery(resumable, 0));
    assert RecoverReturns(n, 0, n, reply);
  }

  /** A restart over a journal without interrupted sends finds it as it is. */
  lemma Restarts(r: Option<Record>, next: nat, sends: multiset<string>, stale: multiset<string>)
    requires r.Some? ==> Ours(r.value) && r.value.state.StateReceived? && r.value.messageId.None?
    ensures Step(SITE, Off(Journal(r, map[], next), sends, stale),
                 Up(Journal(r, map[], next), None, if r.Some? then {r.value} else {}, {}, [], sends, stale))
  {
    var n := Journal(r, map[], next);
    var s, t := Off(n, sends, stale), Up(n, None, if r.Some? then {r.value} else {}, {}, [], sends, stale);
    RecoversNothing(r, next);
    NothingRemoved(n.disk, n.disk);
    hide Journal, Returns, InState, RecordsAt, RemovedBetween;
    Calls(s, t, Restart, Call.Recover(0));
  }

  lemma Receives(sends: multiset<string>, stale: multiset<string>)
    ensures Step(SITE, Up(Journal(None, map[], 0), None, {}, {}, [FIRST], sends, stale),
                 Up(Journal(Some(Received()), map[], 1), Some(Scheduled), {}, {}, [FIRST], sends, stale))
  {
    var s := Up(Journal(None, map[], 0), None, {}, {}, [FIRST], sends, stale);
    var t := Up(Journal(Some(Received()), map[], 1), Some(Scheduled), {}, {}, [FIRST], sends, stale);
    SiteIsValid();
    var action := Ingress(ID, "digest", 0.0, 1.0);
    assert ReceiveOutcome(CFG, s.node, Image(ID), "digest", "hook", 0, 0.0, 1.0).node == t.node;
    NothingRemoved(s.node.disk, t.node.disk);
    assert Completes(SITE, s, action, None, t);
  }

  lemma ReceivesAgain(races: map<string, Race>, next: nat, resumable: set<Record>, sends: multiset<string>,
                      stale: multiset<string>)
    ensures Step(SITE, Up(Journal(Some(Received()), races, next), None, resumable, {}, [FIRST], sends, stale),
                 Up(Journal(Some(Received()), races, next), Some(Scheduled), resumable, {}, [FIRST], sends, stale))
  {
    var n := Journal(Some(Received()), races, next);
    var s, t := Up(n, None, resumable, {}, [FIRST], sends, stale),
        Up(n, Some(Scheduled), resumable, {}, [FIRST], sends, stale);
    Found(Received(), races, next);
    NothingRemoved(n.disk, n.disk);
    assert Completes(SITE, s, Ingress(ID, "digest", 0.0, 1.0), None, t);
  }

  /** An execution goes on, or ends, without a journal call. */
  lemma Advances(s: System, t: System, action: Action)
    requires Enabled(SITE, s, action) && Executes(action) && action.id in s.active && CallOf(SITE, s, action).None?
    requires t == s.(active := Advanced(s.active, action.id, StageNext(s, action, false)),
                     sends := if action.Send? then s.sends + multiset{action.id} else s.sends)
    ensures Step(SITE, s, t)
  {
    hide StageNext, CallOf, Enabled, Next, Advanced;
    AdvancedNext(s, action);
    assert Completes(SITE, s, action, None, t);
  }

  lemma AdvancedNext(s: System, action: Action)
    requires Executes(action) && action.id in s.active
    ensures Next(SITE, s, action, s.node, false) ==
            s.(active := Advanced(s.active, action.id, StageNext(s, action, false)),
               sends := if action.Send? then s.sends + multiset{action.id} else s.sends)
  {
    NothingRemoved(s.node.disk, s.node.disk);
    AdvancedActive(s, action);
    AdvancedRest(s, action);
    hide ActiveNext, FlushesNext, ResumableNext, AnswersNext, InboxNext, StaleResume, RemovedBetween, Advanced,
         StageNext;
  }

  lemma AdvancedActive(s: System, action: Action)
    requires Executes(action) && action.id in s.active
    ensures ActiveNext(SITE, s, action, false) == Advanced(s.active, action.id, StageNext(s, action, false))
    ensures !action.Tick? && !action.Restart? && !action.Rebind? && !action.Persist?
  {
    hide StageNext;
  }

  lemma AdvancedRest(s: System, action: Action)
    requires Executes(action)
    ensures FlushesNext(s, action, false) == s.flushes && ResumableNext(s, action, false) == s.resumable
    ensures AnswersNext(SITE, s, action) == s.answers && InboxNext(s, action) == s.inbox
    ensures !StaleResume(SITE, s, action)
  {
    hide Locate, ReceivedState, CallOf, FlushNext, IsReceived;
  }

  function Advanced(active: map<string, Execution>, id: string, stage: Option<Stage>): map<string, Execution>
    requires id in active
  {
    if stage.None? then active - {id} else active[id := active[id].(stage := stage.value)]
  }

  /** From scheduled to the moment before the start. */
  lemma ChecksOut(node: Node, resumable: set<Record>, sends: multiset<string>, stale: multiset<string>)
    requires Reached(Up(node, Some(Scheduled), resumable, {}, [FIRST], sends, stale))
    ensures Reached(Up(node, Some(Starting), resumable, {}, [FIRST], sends, stale))
  {
    hide *;
    var b := Up(node, Some(Verifying), resumable, {}, [FIRST], sends, stale);
    Checks(node, resumable, sends, stale);
    Reach(Up(node, Some(Scheduled), resumable, {}, [FIRST], sends, stale), b);
    MediaPasses(node, resumable, [FIRST], sends, stale);
  }

  lemma Checks(node: Node, resumable: set<Record>, sends: multiset<string>, stale: multiset<string>)
    ensures Step(SITE, Up(node, Some(Scheduled), resumable, {}, [FIRST], sends, stale),
                 Up(node, Some(Verifying), resumable, {}, [FIRST], sends, stale))
  {
    Advances(Up(node, Some(Scheduled), resumable, {}, [FIRST], sends, stale),
             Up(node, Some(Verifying), resumable, {}, [FIRST], sends, stale), Check(ID));
  }

  /** The media check answers, and the command has not expired. */
  lemma MediaPasses(node: Node, resumable: set<Record>, bindings: seq<Bindings.Binding>,
                    sends: multiset<string>, stale: multiset<string>)
    requires Reached(Up(node, Some(Verifying), resumable, {}, bindings, sends, stale))
    ensures Reached(Up(node, Some(Starting), resumable, {}, bindings, sends, stale))
  {
    hide *;
    var b := Up(node, Some(Checked), resumable, {}, bindings, sends, stale);
    Verifies(node, resumable, bindings, sends, stale);
    Reach(Up(node, Some(Verifying), resumable, {}, bindings, sends, stale), b);
    Rechecks(node, resumable, bindings, sends, stale);
    Reach(b, Up(node, Some(Starting), resumable, {}, bindings, sends, stale));
  }

  lemma Verifies(node: Node, resumable: set<Record>, bindings: seq<Bindings.Binding>,
                 sends: multiset<string>, stale: multiset<string>)
    ensures Step(SITE, Up(node, Some(Verifying), resumable, {}, bindings, sends, stale),
                 Up(node, Some(Checked), resumable, {}, bindings, sends, stale))
  {
    Advances(Up(node, Some(Verifying), resumable, {}, bindings, sends, stale),
             Up(node, Some(Checked), resumable, {}, bindings, sends, stale), Verify(ID, MediaOk));
  }

  lemma Rechecks(node: Node, resumable: set<Record>, bindings: seq<Bindings.Binding>,
                 sends: multiset<string>, stale: multiset<string>)
    ensures Step(SITE, Up(node, Some(Checked), resumable, {}, bindings, sends, stale),
                 Up(node, Some(Starting), resumable, {}, bindings, sends, stale))
  {
    Advances(Up(node, Some(Checked), resumable, {}, bindings, sends, stale),
             Up(node, Some(Starting), resumable, {}, bindings, sends, stale), Recheck(ID));
  }

  lemma SendsIt(node: Node, resumable: set<Record>, bindings: seq<Bindings.Binding>, sends: multiset<string>,
                stale: multiset<string>)
    ensures Step(SITE, Up(node, Some(Sending), resumable, {}, bindings, sends, stale),
                 Up(node, Some(Waiting), resumable, {}, bindings, sends + multiset{ID}, stale))
  {
    Advances(Up(node, Some(Sending), resumable, {}, bindings, sends, stale),
             Up(node, Some(Waiting), resumable, {}, bindings, sends + multiset{ID}, stale), Send(ID));
  }

  /** A start whose record is already terminal changes nothing and goes on to the send. */
  lemma StartsTerminal(r: Record, next: nat, resumable: set<Record>, bindings: seq<Bindings.Binding>,
                       sends: multiset<string>, stale: multiset<string>)
    requires Ours(r) && IsTerminal(r.state)
    ensures Step(SITE, Up(Journal(Some(r), map[], next), Some(Starting), resumable, {}, bindings, sends, stale),
                 Up(Journal(Some(r), map[], next), Some(Sending), resumable, {}, bindings, sends, stale))
  {
    var n := Journal(Some(r), map[], next);
    var s := Up(n, Some(Starting), resumable, {}, bindings, sends, stale);
    var t := Up(n, Some(Sending), resumable, {}, bindings, sends, stale);
    Found(r, map[], next);
    NothingRemoved(n.disk, n.disk);
    assert TransitionOutcome(CFG, n, ID, StartTransition(0)).node == n;
    assert Returns(CFG, n, Call.MarkStarted(ID, 0), n, None);
    hide Journal, Returns, RemovedBetween;
    StartBetween(n, n, s, t);
  }

  /** A journal call that appends evidence to the stored record. */
  lemma Appends(r: Record, races: map<string, Race>, next: nat, t: Transition)
    requires Ours(r) && r.state != t.state && !IsTerminal(r.state)
             && (t.state.StateStarted? || t.state.StateRejected? ==> r.state.StateReceived?)
    requires !HasKind(r, t.kind)
    ensures var s := AppendEvidence(r, t, next);
            var o := TransitionOutcome(CFG, Journal(Some(r), races, next), ID, t);
            && Ours(s) && s.state == t.state && o.reply.Done? && o.node.next == next + 1
            && o.node.disk == Journal(Some(s), races, next).disk
            && (!t.state.StateStarted? ==> o.node.races == races - {ID})
            && (t.state.StateStarted? ==> o.node.races == races[ID := RaceFor(CFG, s)])
  {
    Found(r, races, next);
    var s := AppendEvidence(r, t, next);
    assert map[HOME := r][HOME := s] == map[HOME := s];
  }

  function StartedRaces(): map<string, Race> {
    map[ID := RaceFor(CFG, Started())]
  }

  lemma StartsFresh(resumable: set<Record>, sends: multiset<string>, stale: multiset<string>)
    ensures Step(SITE, Up(Journal(Some(Received()), map[], 1), Some(Starting), resumable, {}, [FIRST], sends, stale),
                 Up(Journal(Some(Started()), StartedRaces(), 2), Some(Sending), resumable, {}, [FIRST], sends, stale))
  {
    var n, x := Journal(Some(Received()), map[], 1), Journal(Some(Started()), StartedRaces(), 2);
    var s := Up(n, Some(Starting), resumable, {}, [FIRST], sends, stale);
    var t := Up(x, Some(Sending), resumable, {}, [FIRST], sends, stale);
    StartOutcome();
    NothingRemoved(n.disk, x.disk) by { hide Started, Received, StartedRaces; }
    hide Journal, Started, Received, StartedRaces, Returns, RemovedBetween;
    StartBetween(n, x, s, t);
  }

  lemma StartBetween(n: Node, x: Node, s: System, t: System)
    requires Returns(CFG, n, Call.MarkStarted(ID, 0), x, None) && RemovedBetween(n.disk, x.disk) == {}
    requires s.node == n && s.clock == 0 && s.up && s.removed == {} && InStage(s, ID, Starting)
    requires t == s.(node := x, active := s.active[ID := s.active[ID].(stage := Sending)])
    ensures Step(SITE, s, t)
  {
    hide Returns, RemovedBetween;
    Calls(s, t, Action.Start(ID), Call.MarkStarted(ID, 0));
  }

  lemma StartOutcome()
    ensures Returns(CFG, Journal(Some(Received()), map[], 1), Call.MarkStarted(ID, 0),
                    Journal(Some(Started()), StartedRaces(), 2), None)
  {
    Appends(Received(), map[], 1, StartTransition(0));
  }

  function Lost(): Record {
    AppendEvidence(Started(), IndeterminateTransition(AMBIGUOUS, 0), 2)
  }

  /** The send throws, and the record becomes indeterminate. */
  lemma FailsToAnswer(resumable: set<Record>, sends: multiset<string>, stale: multiset<string>)
    requires Reached(Up(Journal(Some(Started()), StartedRaces(), 2), Some(Waiting), resumable, {}, [FIRST], sends,
                        stale))
    ensures Reached(Up(Journal(Some(Lost()), map[], 3), None, resumable, {}, [FIRST], sends, stale))
  {
    hide *;
    var n, x := Journal(Some(Started()), StartedRaces(), 2), Journal(Some(Lost()), map[], 3);
    var a := Up(n, Some(Waiting), resumable, {}, [FIRST], sends, stale);
    var b := Up(n, Some(Undecided(AMBIGUOUS)), resumable, {}, [FIRST], sends, stale);
    var c := Up(x, Some(Finishing), resumable, {}, [FIRST], sends, stale);
    var e := Up(x, None, resumable, {}, [FIRST], sends, stale);
    Throws(n, resumable, sends, stale);
    Reach(a, b);
    GivesUp(resumable, sends, stale);
    Reach(b, c);
    Finishes(x, resumable, sends, stale);
    Reach(c, e);
  }

  lemma Throws(n: Node, resumable: set<Record>, sends: multiset<string>, stale: multiset<string>)
    ensures Step(SITE, Up(n, Some(Waiting), resumable, {}, [FIRST], sends, stale),
                 Up(n, Some(Undecided(AMBIGUOUS)), resumable, {}, [FIRST], sends, stale))
  {
    Advances(Up(n, Some(Waiting), resumable, {}, [FIRST], sends, stale),
             Up(n, Some(Undecided(AMBIGUOUS)), resumable, {}, [FIRST], sends, stale), Result(ID, None, true));
  }

  lemma Finishes(n: Node, resumable: set<Record>, sends: multiset<string>, stale: multiset<string>)
    ensures Step(SITE, Up(n, Some(Finishing), resumable, {}, [FIRST], sends, stale),
                 Up(n, None, resumable, {}, [FIRST], sends, stale))
  {
    Advances(Up(n, Some(Finishing), resumable, {}, [FIRST], sends, stale),
             Up(n, None, resumable, {}, [FIRST], sends, stale), Finish(ID));
  }

  lemma GivesUp(resumable: set<Record>, sends: multiset<string>, stale: multiset<string>)
    ensures Step(SITE, Up(Journal(Some(Started()), StartedRaces(), 2), Some(Undecided(AMBIGUOUS)), resumable, {},
                          [FIRST], sends, stale),
                 Up(Journal(Some(Lost()), map[], 3), Some(Finishing), resumable, {}, [FIRST], sends, stale))
  {
    var n, x := Journal(Some(Started()), StartedRaces(), 2), Journal(Some(Lost()), map[], 3);
    LossOutcome();
    NothingRemoved(n.disk, x.disk) by { hide Started, Lost, StartedRaces; }
    hide *;
    StageMoves(n, x, Undecided(AMBIGUOUS), Finishing, resumable, sends, stale);
    GiveUpBetween(n, x, Up(n, Some(Undecided(AMBIGUOUS)), resumable, {}, [FIRST], sends, stale),
                  Up(x, Some(Finishing), resumable, {}, [FIRST], sends, stale));
  }

  /** The execution goes on over another journal. */
  lemma StageMoves(n: Node, x: Node, from: Stage, to: Stage, resumable: set<Record>, sends: multiset<string>,
                   stale: multiset<string>)
    ensures var s := Up(n, Some(from), resumable, {}, [FIRST], sends, stale);
            && s.node == n && s.clock == 0 && s.up && s.removed == {} && InStage(s, ID, from)
            && Up(x, Some(to), resumable, {}, [FIRST], sends, stale) ==
               s.(node := x, active := s.active[ID := s.active[ID].(stage := to)])
  {
  }

  lemma GiveUpBetween(n: Node, x: Node, s: System, t: System)
    requires Returns(CFG, n, Call.MarkIndeterminate(ID, AMBIGUOUS, 0), x, None) && RemovedBetween(n.disk, x.disk) == {}
    requires s.node == n && s.clock == 0 && s.up && s.removed == {} && InStage(s, ID, Undecided(AMBIGUOUS))
    requires t == s.(node := x, active := s.active[ID := s.active[ID].(stage := Finishing)])
    ensures Step(SITE, s, t)
  {
    hide Returns, RemovedBetween;
    Calls(s, t, GiveUp(ID), Call.MarkIndeterminate(ID, AMBIGUOUS, 0));
  }

  lemma LossOutcome()
    ensures Returns(CFG, Journal(Some(Started()), StartedRaces(), 2), Call.MarkIndeterminate(ID, AMBIGUOUS, 0),
                    Journal(Some(Lost()), map[], 3), None)
  {
    StartedIsOurs();
    Appends(Started(), StartedRaces(), 2, IndeterminateTransition(AMBIGUOUS, 0));
    assert StartedRaces() - {ID} == map[];
    hide AppendEvidence, TransitionOutcome, Received, RaceFor, HasKind;
  }

  lemma StartedIsOurs()
    ensures Ours(Started()) && Started().state.StateStarted? && !HasKind(Started(), SendIndeterminate)
  {
  }

  lemma Resumes(r: Record, next: nat, sends: multiset<string>, stale: multiset<string>)
    requires Ours(r) && IsTerminal(r.state)
    ensures Step(SITE, Up(Journal(Some(r), map[], next), None, {Received()}, {}, [FIRST], sends, stale),
                 Up(Journal(Some(r), map[], next), Some(Scheduled), {}, {}, [FIRST], sends, stale + multiset{ID}))
  {
    var n := Journal(Some(r), map[], next);
    var s := Up(n, None, {Received()}, {}, [FIRST], sends, stale);
    var t := Up(n, Some(Scheduled), {}, {}, [FIRST], sends, stale + multiset{ID});
    NothingRemoved(n.disk, n.disk);
    assert Completes(SITE, s, Resume(Received()), None, t);
  }

  function Start0(): System {
    Off(Journal(None, map[], 0), multiset{}, multiset{})
  }

  lemma Begins()
    ensures Reached(Up(Journal(Some(Received()), map[], 1), Some(Scheduled), {}, {}, [FIRST], multiset{}, multiset{}))
  {
    assert Run(SITE, [Start0()]);
    assert Reached(Start0()) by { assert [Start0()][|[Start0()]| - 1] == Start0(); }
    hide *;
    var n := Journal(None, map[], 0);
    Restarts(None, 0, multiset{}, multiset{});
    Reach(Start0(), Up(n, None, {}, {}, [], multiset{}, multiset{})) by { StartIs(); }
    Rebinds(n, {}, multiset{}, multiset{}, None);
    Reach(Up(n, None, {}, {}, [], multiset{}, multiset{}), Up(n, None, {}, {}, [FIRST], multiset{}, multiset{}));
    Receives(multiset{}, multiset{});
    Reach(Up(n, None, {}, {}, [FIRST], multiset{}, multiset{}),
          Up(Journal(Some(Received()), map[], 1), Some(Scheduled), {}, {}, [FIRST], multiset{}, multiset{}));
  }

  lemma StartIs()
    ensures Start0() == Off(Journal(None, map[], 0), multiset{}, multiset{})
  {
  }

  /** Crash after the receipt, restart, replayed ingress and execution, and only then the resume of the snapshot that
      recovery took: the command is sent twice, the most there can be. */
  lemma SentTwice()
    ensures ValidSite(SITE)
    ensures exists t: seq<System> ::
              Run(SITE, t) && t[|t| - 1].sends[ID] == 2 && t[|t| - 1].stale[ID] == 1
  {
    SiteIsValid();
    var none: multiset<string>, r := multiset{}, Received();
    var n := Journal(Some(r), map[], 1);
    Begins();
    SentOnceAfterCrash();
    var lost := Journal(Some(Lost()), map[], 3);
    assert Reached(Up(lost, Some(Waiting), {}, {}, [FIRST], multiset{ID} + multiset{ID}, multiset{ID})) by {
      hide *;
      LostIsOurs();
      Resumes(Lost(), 3, multiset{ID}, none);
      Reach(Up(lost, None, {r}, {}, [FIRST], multiset{ID}, none),
            Up(lost, Some(Scheduled), {}, {}, [FIRST], multiset{ID}, none + multiset{ID}));
      assert none + multiset{ID} == multiset{ID};
      ChecksOut(lost, {}, multiset{ID}, multiset{ID});
      StartsTerminal(Lost(), 3, {}, [FIRST], multiset{ID}, multiset{ID});
      Reach(Up(lost, Some(Starting), {}, {}, [FIRST], multiset{ID}, multiset{ID}),
            Up(lost, Some(Sending), {}, {}, [FIRST], multiset{ID}, multiset{ID}));
      SendsIt(lost, {}, [FIRST], multiset{ID}, multiset{ID});
      Reach(Up(lost, Some(Sending), {}, {}, [FIRST], multiset{ID}, multiset{ID}),
            Up(lost, Some(Waiting), {}, {}, [FIRST], multiset{ID} + multiset{ID}, multiset{ID}));
    }
    ReachedRun(Up(lost, Some(Waiting), {}, {}, [FIRST], multiset{ID} + multiset{ID}, multiset{ID}));
  }

  /** The first part of the same run: one send without a stale restart, the most there can be then. */
  lemma SentOnce()
    ensures ValidSite(SITE)
    ensures exists t: seq<System> :: Run(SITE, t) && t[|t| - 1].sends[ID] == 1 && t[|t| - 1].stale[ID] == 0
  {
    SiteIsValid();
    SentOnceAfterCrash();
    hide Reached;
    ReachedRun(Up(Journal(Some(Lost()), map[], 3), None, {Received()}, {}, [FIRST], multiset{ID}, multiset{}));
  }

  lemma ReachedRun(s: System)
    requires Reached(s)
    ensures exists t: seq<System> ::
          Run(SITE, t) && t[|t| - 1].sends[ID] == s.sends[ID] && t[|t| - 1].stale[ID] == s.stale[ID]
  {
  }

  lemma LostIsOurs()
    ensures Ours(Lost()) && IsTerminal(Lost().state)
  {
    Appends(Received(), map[], 1, StartTransition(0));
    Appends(Started(), StartedRaces(), 2, IndeterminateTransition(AMBIGUOUS, 0));
  }

  lemma ReceivedIsOurs()
    ensures Ours(Received()) && Received().state.StateReceived? && Received().messageId.None?
  {
  }

  lemma SentOnceAfterCrash()
    ensures Reached(Up(Journal(Some(Lost()), map[], 3), None, {Received()}, {}, [FIRST], multiset{ID}, multiset{}))
  {
    hide *;
    var none: multiset<string>, r := multiset{}, Received();
    var n := Journal(Some(r), map[], 1);
    var started := Journal(Some(Started()), StartedRaces(), 2);
    Begins();
    Crashes(n, Some(Scheduled), {}, {}, [FIRST], none, none);
    NoRaces(r);
    Reach(Up(n, Some(Scheduled), {}, {}, [FIRST], none, none), Off(n, none, none));
    ReceivedIsOurs();
    Restarts(Some(r), 1, none, none);
    Reach(Off(n, none, none), Up(n, None, {r}, {}, [], none, none));
    Rebinds(n, {r}, none, none, None);
    Reach(Up(n, None, {r}, {}, [], none, none), Up(n, None, {r}, {}, [FIRST], none, none));
    ReceivesAgain(map[], 1, {r}, none, none);
    Reach(Up(n, None, {r}, {}, [FIRST], none, none), Up(n, Some(Scheduled), {r}, {}, [FIRST], none, none));
    ChecksOut(n, {r}, none, none);
    StartsFresh({r}, none, none);
    Reach(Up(n, Some(Starting), {r}, {}, [FIRST], none, none),
          Up(started, Some(Sending), {r}, {}, [FIRST], none, none));
    SendsIt(started, {r}, [FIRST], none, none);
    Reach(Up(started, Some(Sending), {r}, {}, [FIRST], none, none),
          Up(started, Some(Waiting), {r}, {}, [FIRST], none + multiset{ID}, none));
    assert none + multiset{ID} == multiset{ID};
    FailsToAnswer({r}, multiset{ID}, none);
  }

  lemma NoRaces(r: Record)
    ensures Journal(Some(r), map[], 1).(races := map[]) == Journal(Some(r), map[], 1)
  {
  }

  // ---- Rejected, and sent all the same ----

  function Rejected(): Record {
    AppendEvidence(Received(), RejectTransition(BindingMismatch, "BINDING_ROTATED", 0), 1)
  }

  lemma BindsSecond()
    ensures Bindings.Ascending([FIRST]) && Bindings.Applies([FIRST], [SECOND], [FIRST, SECOND])
  {
    var m := map[1 := FIRST, 2 := SECOND];
    var known := Bindings.ByGeneration([FIRST]);
    assert [FIRST][0] in [FIRST];
    assert known == map[1 := FIRST] by { assert forall g | g in known :: known[g] == FIRST; }
    assert known[2 := SECOND] == m;
    assert [SECOND][1..] == [] && Bindings.Absorb(m, []) == Some(m);
    assert Bindings.Absorb(known, [SECOND]) == Some(m);
    assert Bindings.Mentions([FIRST, SECOND], 1) by { assert [FIRST, SECOND][0].generation == 1; }
    assert Bindings.Mentions([FIRST, SECOND], 2) by { assert [FIRST, SECOND][1].generation == 2; }
    assert |m| == 2 by { assert m.Keys == {1, 2}; }
  }

  lemma RebindsSecond(n: Node)
    ensures Step(SITE, Up(n, Some(Verifying), {}, {}, [FIRST], multiset{}, multiset{}),
                 Up(n, Some(Verifying), {}, {}, [FIRST, SECOND], multiset{}, multiset{}))
  {
    BindsSecond();
    NothingRemoved(n.disk, n.disk);
    assert Completes(SITE, Up(n, Some(Verifying), {}, {}, [FIRST], multiset{}, multiset{}),
                     Rebind([SECOND], [FIRST, SECOND]), None,
                     Up(n, Some(Verifying), {}, {}, [FIRST, SECOND], multiset{}, multiset{}));
  }

  lemma Replays()
    ensures Step(SITE, Up(Journal(Some(Received()), map[], 1), Some(Verifying), {}, {}, [FIRST, SECOND], multiset{},
                          multiset{}),
                 Up(Journal(Some(Received()), map[], 1), Some(Verifying), {}, {Rotated(ID)}, [FIRST, SECOND],
                    multiset{}, multiset{}))
  {
    var n := Journal(Some(Received()), map[], 1);
    var s := Up(n, Some(Verifying), {}, {}, [FIRST, SECOND], multiset{}, multiset{});
    var t := Up(n, Some(Verifying), {}, {Rotated(ID)}, [FIRST, SECOND], multiset{}, multiset{});
    Found(Received(), map[], 1);
    NothingRemoved(n.disk, n.disk);
    assert BindingFor([FIRST, SECOND], 1) == Some(FIRST);
    assert !IsCurrent(s, 1);
    assert Completes(SITE, s, Ingress(ID, "digest", 0.0, 1.0), None, t);
  }

  lemma Rejects()
    ensures Step(SITE, Up(Journal(Some(Received()), map[], 1), Some(Verifying), {}, {Rotated(ID)}, [FIRST, SECOND],
                          multiset{}, multiset{}),
                 Up(Journal(Some(Rejected()), map[], 2), Some(Verifying), {}, {}, [FIRST, SECOND], multiset{},
                    multiset{}))
    ensures Ours(Rejected()) && Rejected().state.StateRejected?
  {
    var n, x := Journal(Some(Received()), map[], 1), Journal(Some(Rejected()), map[], 2);
    var s := Up(n, Some(Verifying), {}, {Rotated(ID)}, [FIRST, SECOND], multiset{}, multiset{});
    var t := Up(x, Some(Verifying), {}, {}, [FIRST, SECOND], multiset{}, multiset{});
    RejectOutcome();
    NothingRemoved(n.disk, x.disk);
    hide Rejected, Received, Returns, RemovedBetween;
    Calls(s, t, Respond(Rotated(ID)), Call.MarkRejected(ID, BindingMismatch, "BINDING_ROTATED", 0));
  }

  lemma RejectOutcome()
    ensures Returns(CFG, Journal(Some(Received()), map[], 1),
                    Call.MarkRejected(ID, BindingMismatch, "BINDING_ROTATED", 0),
                    Journal(Some(Rejected()), map[], 2), None)
    ensures Ours(Rejected()) && Rejected().state.StateRejected?
  {
    Appends(Received(), map[], 1, RejectTransition(BindingMismatch, "BINDING_ROTATED", 0));
    hide AppendEvidence, RaceFor, HasKind;
  }

  /** The binding rotates while an execution waits for its media check, a replayed ingress rejects the command, and
      then the check answers and the execution sends the command after all. */
  lemma SentAfterRejection()
    ensures ValidSite(SITE)
    ensures exists t: seq<System> ::
              && Run(SITE, t) && t[|t| - 1].sends[ID] == 1 && t[|t| - 1].stale[ID] == 0
              && HOME in t[|t| - 1].node.disk.records && t[|t| - 1].node.disk.records[HOME].state.StateRejected?
  {
    SiteIsValid();
    var none: multiset<string> := multiset{};
    var x := Journal(Some(Rejected()), map[], 2);
    var last := Up(x, Some(Waiting), {}, {}, [FIRST, SECOND], none + multiset{ID}, none);
    Rejects();
    assert Reached(last) by {
      hide *;
      RejectedWhileVerifying();
      MediaPasses(x, {}, [FIRST, SECOND], none, none);
      RejectedIsTerminal(Rejected());
      StartsTerminal(Rejected(), 2, {}, [FIRST, SECOND], none, none);
      Reach(Up(x, Some(Starting), {}, {}, [FIRST, SECOND], none, none),
            Up(x, Some(Sending), {}, {}, [FIRST, SECOND], none, none));
      SendsIt(x, {}, [FIRST, SECOND], none, none);
      Reach(Up(x, Some(Sending), {}, {}, [FIRST, SECOND], none, none), last);
    }
    hide Run;
    var t :| Run(SITE, t) && t[|t| - 1] == last;
  }

  lemma RejectedWhileVerifying()
    ensures Reached(Up(Journal(Some(Rejected()), map[], 2), Some(Verifying), {}, {}, [FIRST, SECOND], multiset{},
                       multiset{}))
  {
    hide *;
    var none: multiset<string> := multiset{};
    var n, x := Journal(Some(Received()), map[], 1), Journal(Some(Rejected()), map[], 2);
    var asked := Up(n, Some(Verifying), {}, {Rotated(ID)}, [FIRST, SECOND], none, none);
    Begins();
    Checks(n, {}, none, none);
    Reach(Up(n, Some(Scheduled), {}, {}, [FIRST], none, none), Up(n, Some(Verifying), {}, {}, [FIRST], none, none));
    RebindsSecond(n);
    Reach(Up(n, Some(Verifying), {}, {}, [FIRST], none, none),
          Up(n, Some(Verifying), {}, {}, [FIRST, SECOND], none, none));
    Replays();
    Reach(Up(n, Some(Verifying), {}, {}, [FIRST, SECOND], none, none), asked);
    Rejects();
    Reach(asked, Up(x, Some(Verifying), {}, {}, [FIRST, SECOND], none, none));
  }

  lemma RejectedIsTerminal(r: Record)
    requires r.state.StateRejected?
    ensures IsTerminal(r.state)
  {
  }
}
