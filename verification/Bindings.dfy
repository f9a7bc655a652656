/** The retained webhook bindings of one connector identity. */
module Bindings {
  import opened Wrappers
  import Sorting

  const MAXIMUM_RETAINED := 32
  const MAX_SAFE_INTEGER := 9007199254740991

  /** `updatedAt` is absent when its text is not a date. */
  datatype Binding = Binding(sessionId: string, connectorId: string, webhookId: string, generation: int,
                             updatedAt: Option<int>)

  predicate ValidBinding(b: Binding, sessionId: string, connectorId: string) {
    && b.sessionId == sessionId && b.connectorId == connectorId
    && 1 <= |b.webhookId| <= 512
    && 0 < b.generation <= MAX_SAFE_INTEGER
    && b.updatedAt.Some?
  }

  function Valid(bindings: seq<Binding>, sessionId: string, connectorId: string): (valid: seq<Binding>)
    ensures forall b :: b in valid <==> b in bindings && ValidBinding(b, sessionId, connectorId)
  {
    if bindings == [] then [] else
    var rest := Valid(bindings[1..], sessionId, connectorId);
    assert bindings == [bindings[0]] + bindings[1..];
    if ValidBinding(bindings[0], sessionId, connectorId) then [bindings[0]] + rest else rest
  }

  predicate Ascending(bindings: seq<Binding>) {
    forall i, j | 0 <= i < j < |bindings| :: bindings[i].generation < bindings[j].generation
  }

  predicate Mentions(bindings: seq<Binding>, generation: int) {
    exists i | 0 <= i < |bindings| :: bindings[i].generation == generation
  }

  function ByGeneration(bindings: seq<Binding>): (m: map<int, Binding>)
    requires Ascending(bindings)
    ensures forall i | 0 <= i < |bindings| :: bindings[i].generation in m && m[bindings[i].generation] == bindings[i]
    ensures forall g | g in m :: m[g] in bindings && m[g].generation == g
  {
    map b | b in bindings :: b.generation := b
  }

  /** Whether the two disagree about what a generation stands for. */
  predicate Conflicting(a: Binding, b: Binding) {
    a.connectorId != b.connectorId || a.webhookId != b.webhookId
  }

  /** Takes the incoming bindings in order, unless one conflicts with what its generation already stands for. */
  function Absorb(known: map<int, Binding>, incoming: seq<Binding>): Option<map<int, Binding>>
    decreases |incoming|
  {
    if incoming == [] then Some(known) else
    var b := incoming[0];
    if b.generation in known && Conflicting(known[b.generation], b) then None
    else Absorb(known[b.generation := b], incoming[1..])
  }

  /** `list` holds the newest of the known bindings in ascending order. */
  ghost predicate Newest(list: seq<Binding>, known: map<int, Binding>) {
    && Ascending(list)
    && |list| == Sorting.Min(|known|, MAXIMUM_RETAINED)
    && (forall b | b in list :: b.generation in known && known[b.generation] == b)
    && (forall g | g in known && !Mentions(list, g) :: list != [] && g < list[0].generation)
  }

  /** What applying a heartbeat's bindings to a retained list does; without one the call throws. */
  ghost predicate Applies(list: seq<Binding>, incoming: seq<Binding>, next: seq<Binding>)
    requires Ascending(list)
  {
    if incoming == [] then next == list else
    var known := Absorb(ByGeneration(list), incoming);
    known.Some? && Newest(next, known.value)
  }

  /** The lists retained over a run: each comes from applying some bindings to its predecessor, or, after a restart
      or a refused apply, is its predecessor. */
  ghost predicate History(t: seq<seq<Binding>>) {
    && |t| > 0 && t[0] == []
    && forall i | 0 <= i < |t| - 1 :: Follows(t[i], t[i + 1])
  }

  ghost predicate Follows(p: seq<Binding>, q: seq<Binding>) {
    p == q || (Ascending(p) && exists incoming :: Applies(p, incoming, q))
  }

  function Latest(log: seq<seq<Binding>>): seq<Binding> {
    if log == [] then [] else log[|log| - 1]
  }

  lemma HistoryGrows(t: seq<seq<Binding>>, next: seq<Binding>)
    requires History(t) && Follows(t[|t| - 1], next)
    ensures History(t + [next])
  {
    hide Follows;
    var longer := t + [next];
    forall i | 0 <= i < |longer| - 1 ensures Follows(longer[i], longer[i + 1]) {
      if i < |t| - 1 { assert Follows(t[i], t[i + 1]); }
    }
  }

  lemma AppliedFollows(list: seq<Binding>, incoming: seq<Binding>, next: seq<Binding>)
    requires Ascending(list) && Applies(list, incoming, next)
    ensures Follows(list, next)
  {
  }

  lemma LogGrows(log: seq<seq<Binding>>, next: seq<Binding>)
    requires History([[]] + log) && Follows(Latest(log), next)
    ensures History([[]] + (log + [next]))
  {
    hide History, Follows;
    var t := [[]] + log;
    assert t[|t| - 1] == Latest(log);
    HistoryGrows(t, next);
    assert t + [next] == [[]] + (log + [next]);
  }

  ghost predicate InGenerationOrder(bindings: seq<Binding>) {
    forall i, j | 0 <= i < j < |bindings| :: bindings[i].generation <= bindings[j].generation
  }

  /** `list` is what is left of the valid bindings: in order of generation, the last 32. */
  ghost predicate LastOf(list: seq<Binding>, valid: seq<Binding>) {
    exists sorted :: InGenerationOrder(sorted) && multiset(sorted) == multiset(valid)
                     && list == if |sorted| > MAXIMUM_RETAINED then sorted[|sorted| - MAXIMUM_RETAINED..] else sorted
  }

  /** The store: `bindings` in memory, `stored` what survives a restart, `log` every list ever stored. */
  class BindingStore {
    const sessionId: string
    const connectorId: string
    var bindings: seq<Binding>
    var stored: Option<(string, seq<Binding>)>
    ghost var log: seq<seq<Binding>>

    /** A new process over what earlier ones stored. */
    constructor (sessionId: string, connectorId: string, stored: Option<(string, seq<Binding>)>,
                 ghost log: seq<seq<Binding>>)
      ensures this.sessionId == sessionId && this.connectorId == connectorId
      ensures bindings == [] && this.stored == stored && this.log == log
    {
      this.sessionId, this.connectorId, this.stored, this.log := sessionId, connectorId, stored, log;
      bindings := [];
    }

    ghost predicate Good(list: seq<Binding>) {
      && Ascending(list) && |list| <= MAXIMUM_RETAINED
      && forall b | b in list :: ValidBinding(b, sessionId, connectorId)
    }

    /** What is stored is the last list logged, and the lists logged are a history from the empty one. */
    ghost predicate Recorded()
      reads this
    {
      && stored == (if log == [] then None else Some((sessionId, Latest(log))))
      && Good(Latest(log)) && History([[]] + log)
    }

    /** Reads back the stored list: its valid bindings in order, at most 32; a list this store has written as it is. */
    method Load()
      modifies this`bindings
      ensures stored.None? || stored.value.0 != sessionId ==> bindings == []
      ensures stored.Some? && stored.value.0 == sessionId ==>
              LastOf(bindings, Valid(stored.value.1, sessionId, connectorId))
      ensures stored.Some? && stored.value.0 == sessionId && Good(stored.value.1) ==> bindings == stored.value.1
      ensures Recorded() ==> bindings == Latest(log)
    {
      if stored.None? || stored.value.0 != sessionId {
        bindings := [];
        return;
      }
      var valid := Valid(stored.value.1, sessionId, connectorId);
      OrderIsTotal();
      var sorted := Sorting.Sort(valid, (a: Binding, b: Binding) => a.generation <= b.generation);
      bindings := if |sorted| > MAXIMUM_RETAINED then sorted[|sorted| - MAXIMUM_RETAINED..] else sorted;
      assert InGenerationOrder(sorted);
      if Good(stored.value.1) {
        ValidAll(stored.value.1, sessionId, connectorId);
        SortedAlready(stored.value.1, sorted);
      }
    }

    method Current() returns (current: Option<Binding>)
      ensures bindings == [] ==> current.None?
      ensures Ascending(bindings) && bindings != [] ==>
                current.Some? && current.value in bindings && forall b | b in bindings ::
                    b.generation <= current.value.generation
    {
      current := CurrentOf(bindings);
    }

    method Find(generation: int) returns (found: Option<Binding>)
      ensures found.Some? ==> found.value in bindings && found.value.generation == generation
      ensures found.None? ==> !Mentions(bindings, generation)
    {
      for i := 0 to |bindings|
        invariant forall j | 0 <= j < i :: bindings[j].generation != generation
      {
        if bindings[i].generation == generation {
          return Some(bindings[i]);
        }
      }
      return None;
    }

    /** Merges incoming bindings; a conflicting generation throws and changes nothing. */
    method Apply(offered: seq<Binding>) returns (reply: Reply<bool, ()>)
      requires Good(bindings)
      modifies this
      ensures var incoming := Valid(offered, sessionId, connectorId);
              if reply.Done? then Applies(old(bindings), incoming, bindings)
                  && reply.value == (bindings != old(bindings))
              else incoming != [] && Absorb(ByGeneration(old(bindings)), incoming).None? && bindings == old(bindings)
      ensures Good(bindings)
      ensures if bindings == old(bindings) then stored == old(stored) && log == old(log)
              else stored == Some((sessionId, bindings)) && log == old(log) + [bindings]
      ensures old(Recorded() && bindings == Latest(log)) ==> Recorded() && bindings == Latest(log)
    {
      hide History, Follows;
      var incoming := Valid(offered, sessionId, connectorId);
      if incoming == [] {
        return Done(false);
      }
      var byGeneration := ByGeneration(bindings);
      assert incoming[0..] == incoming;
      for i := 0 to |incoming|
        invariant Absorb(ByGeneration(bindings), incoming) == Absorb(byGeneration, incoming[i..])
        invariant forall g | g in byGeneration ::
              byGeneration[g].generation == g && ValidBinding(byGeneration[g], sessionId, connectorId)
        invariant bindings == old(bindings) && stored == old(stored) && log == old(log)
      {
        var binding := incoming[i];
        if binding.generation in byGeneration && Conflicting(byGeneration[binding.generation], binding) {
          return Failed(());
        }
        byGeneration := byGeneration[binding.generation := binding];
        assert incoming[i..][1..] == incoming[i + 1..];
      }
      var next := NewestOf(byGeneration);
      AppliedFollows(bindings, incoming, next);
      var changed := Keep(next);
      return Done(changed);
    }

    /** The new list replaces the old one, on disk only when they differ. */
    method Keep(next: seq<Binding>) returns (changed: bool)
      requires Follows(bindings, next) && Good(next)
      modifies this
      ensures changed == (next != old(bindings)) && bindings == next
      ensures if changed then stored == Some((sessionId, next)) && log == old(log) + [next]
              else stored == old(stored) && log == old(log)
      ensures old(Recorded() && bindings == Latest(log)) ==> Recorded() && bindings == Latest(log)
    {
      hide History, Follows, Ascending;
      changed := next != bindings;
      if changed && Recorded() && bindings == Latest(log) { LogGrows(log, next); }
      bindings := next;
      if changed {
        stored := Some((sessionId, next));
        log := log + [next];
      }
    }
  }

  function CurrentOf(bindings: seq<Binding>): Option<Binding> {
    if bindings == [] then None else Some(bindings[|bindings| - 1])
  }

  method NewestOf(known: map<int, Binding>) returns (list: seq<Binding>)
    requires forall g | g in known :: known[g].generation == g
    ensures Newest(list, known)
  {
    var values := ValuesOf(known);
    OrderIsTotal();
    var sorted := Sorting.Sort(values, (a: Binding, b: Binding) => a.generation <= b.generation);
    Sorting.SameElements(values, sorted);
    list := if |sorted| > MAXIMUM_RETAINED then sorted[|sorted| - MAXIMUM_RETAINED..] else sorted;
    SuffixIsNewest(known, sorted, |sorted| - |list|);
  }

  method ValuesOf(known: map<int, Binding>) returns (values: seq<Binding>)
    requires forall g | g in known :: known[g].generation == g
    ensures |values| == |known| && Sorting.Distinct(values)
    ensures forall b :: b in values <==> b.generation in known && known[b.generation] == b
  {
    values := [];
    var unread := known.Keys;
    while unread != {}
      invariant unread <= known.Keys && |values| == |known| - |unread|
      invariant forall b :: b in values <==>
            b.generation in known && b.generation !in unread && known[b.generation] == b
      invariant Sorting.Distinct(values)
    {
      var g := Sorting.AnyOf(unread);
      unread := unread - {g};
      values := values + [known[g]];
    }
  }

  ghost predicate Keyed(known: map<int, Binding>) {
    forall g | g in known :: known[g].generation == g
  }

  ghost predicate Lists(list: seq<Binding>, known: map<int, Binding>) {
    forall b :: b in list <==> b.generation in known && known[b.generation] == b
  }

  lemma SuffixIsNewest(known: map<int, Binding>, sorted: seq<Binding>, drop: nat)
    requires Keyed(known) && Lists(sorted, known)
    requires |sorted| == |known| && Sorting.Distinct(sorted) && InGenerationOrder(sorted)
    requires drop == if |sorted| > MAXIMUM_RETAINED then |sorted| - MAXIMUM_RETAINED else 0
    ensures Newest(sorted[drop..], known)
  {
    hide Keyed, Lists, InGenerationOrder, Sorting.Distinct, Ascending, Mentions;
    var list := sorted[drop..];
    StrictlyOrdered(known, sorted);
    SuffixAscends(sorted, drop);
    forall b | b in list ensures b.generation in known && known[b.generation] == b {
      SuffixListed(known, sorted, drop, b);
    }
    forall g | g in known && !Mentions(list, g) ensures list != [] && g < list[0].generation {
      BelowSuffix(known, sorted, drop, g);
    }
  }

  lemma StrictlyOrdered(known: map<int, Binding>, sorted: seq<Binding>)
    requires Lists(sorted, known) && Sorting.Distinct(sorted) && InGenerationOrder(sorted)
    ensures Ascending(sorted)
  {
    forall i, j | 0 <= i < j < |sorted| ensures sorted[i].generation < sorted[j].generation {
      assert sorted[i] in sorted && sorted[j] in sorted;
    }
  }

  lemma SuffixAscends(sorted: seq<Binding>, drop: nat)
    requires Ascending(sorted) && drop <= |sorted|
    ensures Ascending(sorted[drop..])
  {
  }

  lemma SuffixListed(known: map<int, Binding>, sorted: seq<Binding>, drop: nat, b: Binding)
    requires Lists(sorted, known) && drop <= |sorted| && b in sorted[drop..]
    ensures b.generation in known && known[b.generation] == b
  {
    assert b in sorted;
  }

  lemma BelowSuffix(known: map<int, Binding>, sorted: seq<Binding>, drop: nat, g: int)
    requires Keyed(known) && Lists(sorted, known) && Ascending(sorted) && drop <= |sorted|
    requires g in known && !Mentions(sorted[drop..], g) && (drop > 0 ==> drop < |sorted|)
    ensures sorted[drop..] != [] && g < sorted[drop..][0].generation
  {
    assert known[g] in sorted;
    var i :| 0 <= i < |sorted| && sorted[i] == known[g];
    hide Keyed, Lists;
    assert forall x | drop <= x < |sorted| :: sorted[x] == sorted[drop..][x - drop];
  }

  lemma OrderIsTotal()
    ensures Sorting.TotalPreorder((a: Binding, b: Binding) => a.generation <= b.generation)
  {
  }

  lemma ValidAll(bindings: seq<Binding>, sessionId: string, connectorId: string)
    requires forall b | b in bindings :: ValidBinding(b, sessionId, connectorId)
    ensures Valid(bindings, sessionId, connectorId) == bindings
  {
    if bindings != [] {
      ValidAll(bindings[1..], sessionId, connectorId);
      assert bindings == [bindings[0]] + bindings[1..];
    }
  }

  lemma {:induction false} SortedAlready(s: seq<Binding>, sorted: seq<Binding>)
    requires Ascending(s) && multiset(s) == multiset(sorted)
    requires InGenerationOrder(sorted)
    ensures sorted == s
  {
    Sorting.SameElements(s, sorted);
    if s != [] {
      assert s[0] in sorted && sorted[0] in s;
      assert sorted[0] == s[0];
      assert s == [s[0]] + s[1..] && sorted == [sorted[0]] + sorted[1..];
      TailsMatch(s, sorted);
      SortedAlready(s[1..], sorted[1..]);
    }
  }

  lemma TailsMatch(s: seq<Binding>, t: seq<Binding>)
    requires s != [] && t != [] && s[0] == t[0] && multiset(s) == multiset(t)
    ensures multiset(s[1..]) == multiset(t[1..])
  {
    assert s == [s[0]] + s[1..] && t == [t[0]] + t[1..];
    assert multiset(s[1..]) == multiset(s) - multiset{s[0]};
    assert multiset(t[1..]) == multiset(t) - multiset{t[0]};
  }

  // ---- What applying bindings means ----

  /** The two give one generation to different webhooks or connectors. */
  predicate Disagree(a: Binding, b: Binding) {
    a.generation == b.generation && (a.webhookId != b.webhookId || a.connectorId != b.connectorId)
  }

  ghost predicate AnyDisagree(known: map<int, Binding>, incoming: seq<Binding>) {
    || (exists i :: 0 <= i < |incoming| && incoming[i].generation in known
                    && Disagree(known[incoming[i].generation], incoming[i]))
    || (exists i, j :: 0 <= i < j < |incoming| && Disagree(incoming[i], incoming[j]))
  }

  lemma {:induction false} AbsorbFails(known: map<int, Binding>, incoming: seq<Binding>)
    requires Keyed(known)
    ensures Absorb(known, incoming).None? <==> AnyDisagree(known, incoming)
    decreases |incoming|
  {
    if incoming != [] {
      var b, rest := incoming[0], incoming[1..];
      var more := known[b.generation := b];
      assert forall k | 0 <= k < |rest| :: rest[k] == incoming[k + 1];
      if b.generation in known && Disagree(known[b.generation], b) {
        assert AnyDisagree(known, incoming);
      } else {
        AbsorbFails(more, rest);
        RestDisagrees(known, more, b, rest, incoming);
      }
    }
  }

  lemma RestDisagrees(known: map<int, Binding>, more: map<int, Binding>, b: Binding, rest: seq<Binding>,
                      incoming: seq<Binding>)
    requires Keyed(known) && incoming == [b] + rest && more == known[b.generation := b]
    requires !(b.generation in known && Disagree(known[b.generation], b))
    ensures AnyDisagree(more, rest) <==> AnyDisagree(known, incoming)
  {
    if AnyDisagree(more, rest) { DisagreeBefore(known, more, b, rest, incoming); }
    if AnyDisagree(known, incoming) { DisagreeAfter(known, more, b, rest, incoming); }
    hide AnyDisagree;
  }

  lemma DisagreeBefore(known: map<int, Binding>, more: map<int, Binding>, b: Binding, rest: seq<Binding>,
                       incoming: seq<Binding>)
    requires incoming == [b] + rest && more == known[b.generation := b] && AnyDisagree(more, rest)
    ensures AnyDisagree(known, incoming)
  {
    if i, j :| 0 <= i < j < |rest| && Disagree(rest[i], rest[j]) {
      assert incoming[i + 1] == rest[i] && incoming[j + 1] == rest[j];
    } else {
      var i :| 0 <= i < |rest| && rest[i].generation in more && Disagree(more[rest[i].generation], rest[i]);
      assert incoming[i + 1] == rest[i] && incoming[0] == b;
    }
  }

  lemma DisagreeAfter(known: map<int, Binding>, more: map<int, Binding>, b: Binding, rest: seq<Binding>,
                      incoming: seq<Binding>)
    requires Keyed(known) && incoming == [b] + rest && more == known[b.generation := b] && AnyDisagree(known, incoming)
    requires !(b.generation in known && Disagree(known[b.generation], b))
    ensures AnyDisagree(more, rest)
  {
    if i, j :| 0 <= i < j < |incoming| && Disagree(incoming[i], incoming[j]) {
      assert rest[j - 1] == incoming[j];
      if i > 0 { assert rest[i - 1] == incoming[i]; }
    } else {
      var i :| 0 <= i < |incoming| && incoming[i].generation in known
               && Disagree(known[incoming[i].generation], incoming[i]);
      assert i > 0 && rest[i - 1] == incoming[i];
      KnownOrNew(known, b, incoming, i);
    }
  }

  /** What disagrees with something known about the generation of `b` disagrees with `b`. */
  lemma KnownOrNew(known: map<int, Binding>, b: Binding, incoming: seq<Binding>, i: nat)
    requires 0 < i < |incoming| && incoming[i].generation in known && Keyed(known)
    requires Disagree(known[incoming[i].generation], incoming[i])
    requires !(b.generation in known && Disagree(known[b.generation], b))
    ensures incoming[i].generation == b.generation ==> Disagree(b, incoming[i])
  {
  }

  /** After absorbing them, each generation stands for the last binding that came in for it, or for what was known. */
  lemma {:induction false} AbsorbTakesLast(known: map<int, Binding>, incoming: seq<Binding>)
    requires Absorb(known, incoming).Some?
    ensures var m := Absorb(known, incoming).value;
            && (forall i | 0 <= i < |incoming| && !Mentions(incoming[i + 1..], incoming[i].generation) ::
                  incoming[i].generation in m && m[incoming[i].generation] == incoming[i])
            && (forall g | !Mentions(incoming, g) :: g in m <==> g in known)
            && (forall g | !Mentions(incoming, g) && g in known :: m[g] == known[g])
    decreases |incoming|
  {
    if incoming != [] {
      var b, rest := incoming[0], incoming[1..];
      var more := known[b.generation := b];
      AbsorbTakesLast(more, rest);
      var m := Absorb(more, rest).value;
      hide Absorb;
      forall i | 0 <= i < |incoming| && !Mentions(incoming[i + 1..], incoming[i].generation)
        ensures incoming[i].generation in m && m[incoming[i].generation] == incoming[i]
      {
        if i > 0 { assert incoming[i] == rest[i - 1] && incoming[i + 1..] == rest[i..]; }
      }
      forall g | !Mentions(incoming, g) ensures !Mentions(rest, g) && g != b.generation {
        assert incoming[0].generation == b.generation;
        assert forall k | 0 <= k < |rest| :: rest[k] == incoming[k + 1];
      }
    }
  }

  /** The list that is kept: strictly ascending, everything known up to 32 bindings, and then the newest 32. */
  lemma KeptMeans(list: seq<Binding>, incoming: seq<Binding>, next: seq<Binding>)
    requires Ascending(list) && Applies(list, incoming, next) && incoming != []
    ensures !AnyDisagree(ByGeneration(list), incoming)
    ensures forall i, j | 0 <= i < j < |next| :: next[i].generation < next[j].generation
    ensures var known := Absorb(ByGeneration(list), incoming).value;
            && |next| == (if |known| <= 32 then |known| else 32)
            && (forall b | b in next :: b.generation in known && known[b.generation] == b)
            && (forall g | g in known && !Mentions(next, g) ::
                  forall i | 0 <= i < |next| :: g < next[i].generation)
  {
    AbsorbFails(ByGeneration(list), incoming);
    hide Absorb, AnyDisagree, ByGeneration;
  }

  // ---- Over a whole run ----

  /** The generation of `b` stands for the same webhook in `q`. */
  ghost predicate Stands(q: seq<Binding>, b: Binding) {
    exists c :: c in q && c.generation == b.generation && c.webhookId == b.webhookId
  }

  predicate Evicted(q: seq<Binding>, generation: int) {
    |q| == MAXIMUM_RETAINED && generation < q[0].generation
  }

  predicate WindowMoves(p: seq<Binding>, q: seq<Binding>) {
    |p| == MAXIMUM_RETAINED ==> |q| == MAXIMUM_RETAINED && p[0].generation <= q[0].generation
  }

  predicate CurrentMoves(p: seq<Binding>, q: seq<Binding>) {
    p != [] ==> q != [] && p[|p| - 1].generation <= q[|q| - 1].generation
  }

  /** `q` may be retained some time after `p`: what `p` retained still stands for the same webhook or was evicted,
      an evicted generation stays below the window, and the newest generation never decreases. */
  ghost predicate Later(p: seq<Binding>, q: seq<Binding>) {
    && (forall b | b in p :: Stands(q, b) || Evicted(q, b.generation))
    && WindowMoves(p, q)
    && CurrentMoves(p, q)
  }

  lemma {:induction false} AbsorbKeeps(known: map<int, Binding>, incoming: seq<Binding>)
    requires Absorb(known, incoming).Some?
    requires forall g | g in known :: known[g].generation == g
    ensures var m := Absorb(known, incoming).value;
            && known.Keys <= m.Keys
            && (forall g | g in known :: m[g].webhookId == known[g].webhookId)
            && (forall g | g in m :: m[g].generation == g)
    decreases |incoming|
  {
    if incoming != [] {
      AbsorbKeeps(known[incoming[0].generation := incoming[0]], incoming[1..]);
    }
  }

  lemma AppliesLater(p: seq<Binding>, incoming: seq<Binding>, q: seq<Binding>)
    requires Ascending(p) && |p| <= MAXIMUM_RETAINED && Applies(p, incoming, q)
    ensures Ascending(q) && |q| <= MAXIMUM_RETAINED && Later(p, q)
  {
    if incoming != [] {
      var known := ByGeneration(p);
      AbsorbKeeps(known, incoming);
      var m := Absorb(known, incoming).value;
      KeysOf(p);
      Sorting.SubsetAtMost(known.Keys, m.Keys);
      assert Known(p, m);
      hide Absorb, ByGeneration;
      NewestLater(p, q, m);
    }
  }

  /** What `p` retained is known, under the same webhook. */
  ghost predicate Known(p: seq<Binding>, m: map<int, Binding>) {
    forall i | 0 <= i < |p| :: p[i].generation in m && m[p[i].generation].webhookId == p[i].webhookId
  }

  lemma NewestLater(p: seq<Binding>, q: seq<Binding>, m: map<int, Binding>)
    requires Ascending(p) && |p| <= MAXIMUM_RETAINED && |p| <= |m| && Newest(q, m) && Known(p, m) && Keyed(m)
    ensures Later(p, q)
  {
    hide Ascending, Newest, Known, Keyed, Stands, Evicted, CurrentMoves;
    forall b | b in p ensures Stands(q, b) || Evicted(q, b.generation) {
      StandsOrEvicted(p, q, m, b);
    }
    if |p| == MAXIMUM_RETAINED { FullStaysFull(p, q, m); }
    CurrentStays(p, q, m);
  }

  lemma StandsOrEvicted(p: seq<Binding>, q: seq<Binding>, m: map<int, Binding>, b: Binding)
    requires Newest(q, m) && Known(p, m) && Keyed(m) && b in p
    ensures Stands(q, b) || Evicted(q, b.generation)
  {
    var g := b.generation;
    assert g in m && m[g].webhookId == b.webhookId by { hide Newest, Keyed; }
    hide Known;
    if Mentions(q, g) {
      var i :| 0 <= i < |q| && q[i].generation == g;
      assert q[i] in q;
    } else {
      FullWhenEvicting(q, m, g);
    }
  }

  lemma CurrentStays(p: seq<Binding>, q: seq<Binding>, m: map<int, Binding>)
    requires Newest(q, m) && Known(p, m)
    ensures CurrentMoves(p, q)
  {
    if p != [] {
      var last := p[|p| - 1].generation;
      assert last in m by { hide Newest; }
      hide Known;
      assert |m| > 0;
      if Mentions(q, last) {
        var i :| 0 <= i < |q| && q[i].generation == last;
      } else {
        assert q[|q| - 1].generation >= q[0].generation;
      }
    }
  }

  lemma KeysOf(p: seq<Binding>)
    requires Ascending(p)
    ensures |ByGeneration(p)| == |p|
  {
    var g := seq(|p|, i requires 0 <= i < |p| => p[i].generation);
    Sorting.ElementsSize(g);
    forall k ensures k in ByGeneration(p).Keys <==> k in Sorting.Elements(g) {
      if k in ByGeneration(p) {
        var i :| 0 <= i < |p| && p[i] == ByGeneration(p)[k];
        assert g[i] == k;
      }
    }
    assert ByGeneration(p).Keys == Sorting.Elements(g);
  }

  /** A known generation is left out only when the list is full. */
  lemma FullWhenEvicting(q: seq<Binding>, m: map<int, Binding>, g: int)
    requires Newest(q, m) && g in m && !Mentions(q, g) && Keyed(m)
    ensures |q| == MAXIMUM_RETAINED
  {
    KeysOf(q);
    assert ByGeneration(q).Keys <= m.Keys - {g};
    Sorting.SubsetAtMost(ByGeneration(q).Keys, m.Keys - {g});
  }

  lemma FullStaysFull(p: seq<Binding>, q: seq<Binding>, m: map<int, Binding>)
    requires Ascending(p) && |p| == MAXIMUM_RETAINED && Newest(q, m) && |m| >= MAXIMUM_RETAINED && Known(p, m)
    ensures |q| == MAXIMUM_RETAINED && p[0].generation <= q[0].generation
  {
    if q[0].generation < p[0].generation {
      forall i | 0 <= i < |p| ensures Mentions(q, p[i].generation) {
        assert p[0].generation <= p[i].generation && p[i].generation in m;
      }
      hide Newest, Known, Mentions;
      TooMany(p, q);
    }
  }

  /** A longer list cannot mention fewer generations. */
  lemma TooMany(p: seq<Binding>, q: seq<Binding>)
    requires Ascending(p) && Ascending(q) && |p| == |q| > 0
    requires forall i | 0 <= i < |p| :: Mentions(q, p[i].generation)
    ensures q[0].generation >= p[0].generation
  {
    KeysOf(p);
    KeysOf(q);
    var ps, qs := ByGeneration(p).Keys, ByGeneration(q).Keys;
    forall g | g in ps ensures g in qs {
      MentionedIsKey(p, q, g);
    }
    if q[0].generation !in ps { Sorting.SubsetSize(ps, qs, q[0].generation); }
    hide Mentions, Sorting.Elements;
  }

  lemma MentionedIsKey(p: seq<Binding>, q: seq<Binding>, g: int)
    requires Ascending(p) && Ascending(q) && forall i | 0 <= i < |p| :: Mentions(q, p[i].generation)
    requires g in ByGeneration(p)
    ensures g in ByGeneration(q)
  {
    var k :| 0 <= k < |p| && p[k] == ByGeneration(p)[g];
    var i :| 0 <= i < |q| && q[i].generation == p[k].generation;
  }

  lemma LaterTransitive(p: seq<Binding>, q: seq<Binding>, r: seq<Binding>)
    requires Later(p, q) && Later(q, r)
    ensures Later(p, r)
  {
    forall b | b in p ensures Stands(r, b) || Evicted(r, b.generation) {
      if c :| c in q && c.generation == b.generation && c.webhookId == b.webhookId {
        assert Stands(r, c) || Evicted(r, c.generation);
      }
    }
  }

  lemma {:induction false} HistoryLater(t: seq<seq<Binding>>, i: nat, j: nat)
    requires History(t) && i <= j < |t|
    ensures Ascending(t[i]) && |t[i]| <= MAXIMUM_RETAINED && Ascending(t[j]) && |t[j]| <= MAXIMUM_RETAINED
            && Later(t[i], t[j])
    decreases j
  {
    if i < j {
      HistoryLater(t, i, j - 1);
      assert Follows(t[j - 1], t[j - 1 + 1]);
      if t[j - 1] != t[j] {
        var incoming :| Applies(t[j - 1], incoming, t[j]);
        AppliesLater(t[j - 1], incoming, t[j]);
        LaterTransitive(t[i], t[j - 1], t[j]);
      }
    } else if i > 0 {
      HistoryLater(t, i - 1, i - 1);
      assert Follows(t[i - 1], t[i - 1 + 1]);
      if t[i - 1] != t[i] {
        var incoming :| Applies(t[i - 1], incoming, t[i]);
        AppliesLater(t[i - 1], incoming, t[i]);
      }
      LaterItself(t[i]);
    }
  }

  lemma LaterItself(p: seq<Binding>)
    ensures Later(p, p)
  {
  }

  /** Over all persisted states of a run: the list ascends and holds at most 32 bindings, a generation always stands
      for the same webhook, one that was evicted never returns, and the current generation never decreases. */
  lemma BindingHistoryIsFunction(t: seq<seq<Binding>>, i: nat, j: nat, k: nat)
    requires History(t) && i <= j <= k < |t|
    ensures Ascending(t[i]) && |t[i]| <= MAXIMUM_RETAINED
    ensures forall a, b | a in t[i] && b in t[k] && a.generation == b.generation :: a.webhookId == b.webhookId
    ensures forall a | a in t[i] && !Mentions(t[j], a.generation) :: !Mentions(t[k], a.generation)
    ensures CurrentOf(t[i]).Some? ==>
              CurrentOf(t[k]).Some? && CurrentOf(t[i]).value.generation <= CurrentOf(t[k]).value.generation
  {
    hide History, Ascending, Later, Mentions;
    HistoryLater(t, i, k);
    HistoryLater(t, i, j);
    HistoryLater(t, j, k);
    forall a, b | a in t[i] && b in t[k] && a.generation == b.generation ensures a.webhookId == b.webhookId {
      SameWebhook(t[i], t[k], a, b);
    }
    forall a | a in t[i] && !Mentions(t[j], a.generation) ensures !Mentions(t[k], a.generation) {
      EvictedStaysOut(t[i], t[j], t[k], a);
    }
    assert CurrentMoves(t[i], t[k]) by { hide *; LaterCurrent(t[i], t[k]); }
  }

  lemma LaterCurrent(p: seq<Binding>, q: seq<Binding>)
    requires Later(p, q)
    ensures CurrentMoves(p, q)
  {
  }

  lemma SameWebhook(p: seq<Binding>, q: seq<Binding>, a: Binding, b: Binding)
    requires Later(p, q) && Ascending(q) && a in p && b in q && a.generation == b.generation
    ensures a.webhookId == b.webhookId
  {
    assert Stands(q, a) || Evicted(q, a.generation);
    hide Later;
    SameGeneration(q, b, b);
    if c :| c in q && c.generation == a.generation && c.webhookId == a.webhookId {
      SameGeneration(q, b, c);
    }
  }

  lemma EvictedStaysOut(p: seq<Binding>, q: seq<Binding>, r: seq<Binding>, a: Binding)
    requires Later(p, q) && Later(q, r) && Ascending(r) && a in p && !Mentions(q, a.generation)
    ensures !Mentions(r, a.generation)
  {
    assert Stands(q, a) || Evicted(q, a.generation);
    assert WindowMoves(q, r);
    hide Later;
    forall x | 0 <= x < |r| ensures r[0].generation <= r[x].generation {
    }
  }

  lemma SameGeneration(p: seq<Binding>, b: Binding, c: Binding)
    requires Ascending(p) && b in p && c in p
    ensures b.generation == c.generation ==> b == c
    ensures b.generation >= p[0].generation
  {
  }
}
