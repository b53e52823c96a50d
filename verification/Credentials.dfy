/** The component-owned copies of the clusters' talosconfig secrets. */
module Credentials {
  import opened Common

  datatype ClusterKey = ClusterKey(ns: string, name: string)

  function CachedName(c: ClusterKey): string {
    "talosconfig-" + c.ns + "-" + c.name
  }

  /** A cluster's own secret; every write gives it a version never used before. */
  datatype Source = Source(data: string, version: nat)

  /** A cached copy: its labels, the source version it records, the bytes, its own version. */
  datatype Copy = Copy(cluster: ClusterKey, sourceVersion: nat, data: string, version: nat)

  datatype Member = Member(cluster: ClusterKey, qualifies: bool)

  /** What the API server holds; `past` and `stored` are all sources and copies ever held. */
  datatype Secrets = Secrets(
    sources: map<ClusterKey, Source>,
    past: set<(ClusterKey, Source)>,
    copies: map<string, Copy>,
    stored: set<Copy>,
    clusters: set<ClusterKey>,
    machines: map<string, Member>,
    next: nat)

  /** A refresh writes what was `seen` of the source over what `existing` was read of the
      copy; a collection deletes a copy that was listed, by its name. */
  datatype Event =
    | WriteSource(c: ClusterKey, data: string)
    | DropSource(c: ClusterKey)
    | SetCluster(c: ClusterKey, present: bool)
    | SetMachine(name: string, machine: Option<Member>)
    | Refresh(c: ClusterKey, seen: Source, existing: Option<Copy>)
    | Collect(copy: Copy)

  /** Neither the Cluster nor a qualifying Machine of it remains. */
  predicate ClusterGone(s: Secrets, c: ClusterKey) {
    c !in s.clusters && forall m <- s.machines :: s.machines[m].cluster == c ==> !s.machines[m].qualifies
  }

  /** The copy lacks the material of the source. */
  predicate Stale(seen: Source, existing: Option<Copy>) {
    existing.Some? ==> existing.value.sourceVersion != seen.version && existing.value.data != seen.data
  }

  /** A create needs the name free, an update needs the version that was read. */
  predicate Refreshes(s: Secrets, c: ClusterKey, seen: Source, existing: Option<Copy>) {
    Stale(seen, existing) &&
    match existing
    case None => CachedName(c) !in s.copies
    case Some(copy) => CachedName(c) in s.copies && s.copies[CachedName(c)].version == copy.version
  }

  predicate Enabled(s: Secrets, e: Event) {
    match e
    case Refresh(c, seen, existing) =>
      && (c, seen) in s.past
      && (existing.Some? ==> existing.value in s.stored && CachedName(existing.value.cluster) == CachedName(c))
    case Collect(copy) => copy in s.stored && ClusterGone(s, copy.cluster)
    case _ => true
  }

  function Next(s: Secrets, e: Event): Secrets
    requires Enabled(s, e)
  {
    match e
    case WriteSource(c, data) =>
      var source := Source(data, s.next);
      s.(sources := s.sources[c := source], past := s.past + {(c, source)}, next := s.next + 1)
    case DropSource(c) => s.(sources := s.sources - {c})
    case SetCluster(c, present) => s.(clusters := if present then s.clusters + {c} else s.clusters - {c})
    case SetMachine(name, machine) =>
      s.(machines := if machine.Some? then s.machines[name := machine.value] else s.machines - {name})
    case Refresh(c, seen, existing) =>
      var copy := Copy(c, seen.version, seen.data, s.next);
      if Refreshes(s, c, seen, existing)
      then s.(copies := s.copies[CachedName(c) := copy], stored := s.stored + {copy}, next := s.next + 1)
      else s
    case Collect(copy) => s.(copies := s.copies - {CachedName(copy.cluster)})
  }

  ghost predicate IsRun(s: Secrets, events: seq<Event>)
    decreases |events|
  {
    events == [] || (Enabled(s, events[0]) && IsRun(Next(s, events[0]), events[1..]))
  }

  ghost function After(s: Secrets, events: seq<Event>): Secrets
    requires IsRun(s, events)
    decreases |events|
  {
    if events == [] then s else After(Next(s, events[0]), events[1..])
  }

  lemma {:induction false} RunAppend(s: Secrets, events: seq<Event>, e: Event)
    requires IsRun(s, events) && Enabled(After(s, events), e)
    ensures IsRun(s, events + [e]) && After(s, events + [e]) == Next(After(s, events), e)
    decreases |events|
  {
    if events == [] {
      assert (events + [e])[1..] == [];
    } else {
      RunAppend(Next(s, events[0]), events[1..], e);
      assert (events + [e])[1..] == events[1..] + [e];
    }
  }

  // --- agreement ------------------------------------------------------------

  /** A version says which cluster's source it was, and with what bytes. */
  ghost predicate SourcesAgree(s: Secrets) {
    && (forall c <- s.sources :: (c, s.sources[c]) in s.past)
    && (forall p <- s.past :: p.1.version < s.next)
    && (forall p <- s.past, q <- s.past :: p.1.version == q.1.version ==> p == q)
  }

  /** A copy's bytes are what its cluster's source held at the version it records. */
  ghost predicate CopiesAgree(s: Secrets) {
    && (forall n <- s.copies :: s.copies[n] in s.stored && CachedName(s.copies[n].cluster) == n)
    && (forall copy <- s.stored ::
          copy.version < s.next && (copy.cluster, Source(copy.data, copy.sourceVersion)) in s.past)
    && (forall a <- s.stored, b <- s.stored :: a.version == b.version ==> a == b)
  }

  ghost predicate Agrees(s: Secrets) {
    SourcesAgree(s) && CopiesAgree(s)
  }

  lemma NextSourcesAgree(s: Secrets, e: Event)
    requires SourcesAgree(s) && Enabled(s, e)
    ensures SourcesAgree(Next(s, e))
  {
  }

  lemma NextCopiesAgree(s: Secrets, e: Event)
    requires CopiesAgree(s) && Enabled(s, e)
    ensures CopiesAgree(Next(s, e))
  {
  }

  lemma NextAgrees(s: Secrets, e: Event)
    requires Agrees(s) && Enabled(s, e)
    ensures Agrees(Next(s, e))
  {
    NextSourcesAgree(s, e);
    NextCopiesAgree(s, e);
  }

  lemma {:induction false} RunAgrees(s: Secrets, events: seq<Event>)
    requires Agrees(s) && IsRun(s, events)
    ensures Agrees(After(s, events))
    decreases |events|
  {
    if events != [] {
      NextAgrees(s, events[0]);
      RunAgrees(Next(s, events[0]), events[1..]);
    }
  }

  /** So a copy that records the source's present version holds its present bytes: skipping
      the write then loses nothing. */
  lemma SameVersionSameBytes(s: Secrets, c: ClusterKey, n: string)
    requires Agrees(s) && c in s.sources && n in s.copies && s.copies[n].sourceVersion == s.sources[c].version
    ensures s.copies[n].data == s.sources[c].data && s.copies[n].cluster == c
  {
    assert (c, s.sources[c]) in s.past;
    assert (s.copies[n].cluster, Source(s.copies[n].data, s.copies[n].sourceVersion)) in s.past;
  }

  /** A copy under `c`'s name that records a version of `c`'s source is a copy of it. */
  lemma SameSource(s: Secrets, copy: Copy, c: ClusterKey, seen: Source)
    requires Agrees(s) && copy in s.copies.Values && (c, seen) in s.past && copy.sourceVersion == seen.version
    ensures copy.data == seen.data && copy.cluster == c
  {
    assert (copy.cluster, Source(copy.data, copy.sourceVersion)) in s.past;
  }

  // --- survival -------------------------------------------------------------

  predicate HasCopy(s: Secrets, c: ClusterKey) {
    CachedName(c) in s.copies && s.copies[CachedName(c)].cluster == c
  }

  /** Another cluster of the same cached name is swept, or takes the copy over. */
  predicate LosesCopy(s: Secrets, e: Event, c: ClusterKey) {
    match e
    case Refresh(other, seen, existing) =>
      other != c && CachedName(other) == CachedName(c) && Refreshes(s, other, seen, existing)
    case Collect(copy) => copy.cluster != c && CachedName(copy.cluster) == CachedName(c)
    case _ => false
  }

  /** At every moment the Cluster is there, or a qualifying Machine of it is. */
  ghost predicate AliveThroughout(s: Secrets, events: seq<Event>, c: ClusterKey)
    requires IsRun(s, events)
    decreases |events|
  {
    && (c in s.clusters || exists m <- s.machines :: s.machines[m].cluster == c && s.machines[m].qualifies)
    && (events == [] || AliveThroughout(Next(s, events[0]), events[1..], c))
  }

  ghost predicate KeptThroughout(s: Secrets, events: seq<Event>, c: ClusterKey)
    requires IsRun(s, events)
    decreases |events|
  {
    HasCopy(s, c) && (events == [] || KeptThroughout(Next(s, events[0]), events[1..], c))
  }

  ghost predicate NeverLost(s: Secrets, events: seq<Event>, c: ClusterKey)
    requires IsRun(s, events)
    decreases |events|
  {
    events == [] || (!LosesCopy(s, events[0], c) && NeverLost(Next(s, events[0]), events[1..], c))
  }

  /** A live cluster keeps its copy exactly as long as no other cluster of the same cached
      name is swept or takes it over, whatever becomes of the source. */
  lemma {:induction false} CopySurvives(s: Secrets, events: seq<Event>, c: ClusterKey)
    requires IsRun(s, events) && AliveThroughout(s, events, c) && HasCopy(s, c)
    ensures KeptThroughout(s, events, c) <==> NeverLost(s, events, c)
    ensures NeverLost(s, events, c) ==> HasCopy(After(s, events), c)
    decreases |events|
  {
    if events != [] {
      var next := Next(s, events[0]);
      assert HasCopy(next, c) <==> !LosesCopy(s, events[0], c);
      if HasCopy(next, c) {
        CopySurvives(next, events[1..], c);
      }
    }
  }

  // --- which source a copy follows ------------------------------------------

  /** The source version a cluster's copy records. */
  function Recorded(s: Secrets, c: ClusterKey): nat
    requires HasCopy(s, c)
  {
    s.copies[CachedName(c)].sourceVersion
  }

  /** The copy stays, and the version it records never goes back. */
  ghost predicate GrowsThroughout(s: Secrets, events: seq<Event>, c: ClusterKey)
    requires IsRun(s, events) && HasCopy(s, c)
    decreases |events|
  {
    events == [] ||
    var next := Next(s, events[0]);
    HasCopy(next, c) && Recorded(s, c) <= Recorded(next, c) && GrowsThroughout(next, events[1..], c)
  }

  /** A refresh of `c` that is written had read of the source no less than the copy it read
      records: two objects at hand before the write. */
  predicate ReadInOrder(s: Secrets, e: Event, c: ClusterKey) {
    e.Refresh? && e.c == c && Refreshes(s, c, e.seen, e.existing) && e.existing.Some? ==>
      e.existing.value.sourceVersion <= e.seen.version
  }

  ghost predicate InOrderThroughout(s: Secrets, events: seq<Event>, c: ClusterKey)
    requires IsRun(s, events)
    decreases |events|
  {
    events == [] || (ReadInOrder(s, events[0], c) && InOrderThroughout(Next(s, events[0]), events[1..], c))
  }

  lemma GrowsIfInOrder(s: Secrets, e: Event, c: ClusterKey)
    requires Agrees(s) && Enabled(s, e) && HasCopy(s, c) && HasCopy(Next(s, e), c)
    ensures Recorded(s, c) <= Recorded(Next(s, e), c) <==> ReadInOrder(s, e, c)
  {
    assert s.copies[CachedName(c)] in s.stored;
  }

  /** The version a copy records never goes back, at any step of a run, if and only if no
      refresh puts what it read of the source over a copy it read of a newer version. */
  lemma {:induction false} GrowsExactly(s: Secrets, events: seq<Event>, c: ClusterKey)
    requires Agrees(s) && IsRun(s, events) && KeptThroughout(s, events, c)
    ensures GrowsThroughout(s, events, c) <==> InOrderThroughout(s, events, c)
    decreases |events|
  {
    if events != [] {
      NextAgrees(s, events[0]);
      GrowsIfInOrder(s, events[0], c);
      GrowsExactly(Next(s, events[0]), events[1..], c);
    }
  }

  /** A cluster's present source is its latest. */
  ghost predicate Newest(s: Secrets) {
    forall p <- s.past :: p.0 in s.sources ==> p.1.version <= s.sources[p.0].version
  }

  lemma NextNewest(s: Secrets, e: Event)
    requires Agrees(s) && Newest(s) && Enabled(s, e)
    ensures Newest(Next(s, e))
  {
  }

  /** What a refresh of `c` writes is still the present source. */
  predicate Fresh(s: Secrets, e: Event, c: ClusterKey) {
    e.Refresh? && e.c == c && Refreshes(s, c, e.seen, e.existing) ==> Lookup(s.sources, c) == Some(e.seen)
  }

  ghost predicate FreshThroughout(s: Secrets, events: seq<Event>, c: ClusterKey)
    requires IsRun(s, events)
    decreases |events|
  {
    events == [] || (Fresh(s, events[0], c) && FreshThroughout(Next(s, events[0]), events[1..], c))
  }

  lemma FreshIsInOrder(s: Secrets, e: Event, c: ClusterKey)
    requires Agrees(s) && Newest(s) && Enabled(s, e) && Fresh(s, e, c) && HasCopy(s, c)
    ensures ReadInOrder(s, e, c)
  {
    var copy := s.copies[CachedName(c)];
    assert copy in s.stored && (copy.cluster, Source(copy.data, copy.sourceVersion)) in s.past;
  }

  /** So it never does while every refresh writes what is still the present source. */
  lemma {:induction false} RecordedVersionGrows(s: Secrets, events: seq<Event>, c: ClusterKey)
    requires Agrees(s) && Newest(s) && IsRun(s, events) && KeptThroughout(s, events, c)
    requires FreshThroughout(s, events, c)
    ensures GrowsThroughout(s, events, c)
    decreases |events|
  {
    if events != [] {
      NextAgrees(s, events[0]);
      NextNewest(s, events[0]);
      FreshIsInOrder(s, events[0], c);
      GrowsIfInOrder(s, events[0], c);
      RecordedVersionGrows(Next(s, events[0]), events[1..], c);
    }
  }

  /** Otherwise it can: the source is read before the copy, and the guard is on the copy
      alone, so a worker that was slow in between puts older bytes over newer ones. */
  lemma StaleReadGoesBack(s: Secrets, c: ClusterKey, older: Source)
    requires Agrees(s) && HasCopy(s, c) && (c, older) in s.past
    requires older.version < Recorded(s, c) && older.data != s.copies[CachedName(c)].data
    ensures var e := Refresh(c, older, Some(s.copies[CachedName(c)]));
            && Enabled(s, e) && HasCopy(Next(s, e), c) && !ReadInOrder(s, e, c)
            && Next(s, e).copies[CachedName(c)].data == older.data && Recorded(Next(s, e), c) < Recorded(s, c)
  {
    assert s.copies[CachedName(c)] in s.stored;
  }

  // --- names ----------------------------------------------------------------

  /** The one namespace extends the other by a dash and some text, which the other name
      starts with. */
  predicate Overlaps(a: ClusterKey, b: ClusterKey) {
    && |b.ns| < |a.ns| && a.ns[..|b.ns|] == b.ns && a.ns[|b.ns|] == '-'
    && b.name == a.ns[|b.ns| + 1..] + "-" + a.name
  }

  lemma CachedTail(c: ClusterKey)
    ensures CachedName(c) == "talosconfig-" + (c.ns + "-" + c.name)
    ensures CachedName(c)[|"talosconfig-"|..] == c.ns + "-" + c.name
  {
  }

  lemma OverlapCollides(a: ClusterKey, b: ClusterKey)
    requires Overlaps(a, b)
    ensures CachedName(a) == CachedName(b) && a != b
  {
    var y := a.ns[|b.ns| + 1..];
    assert a.ns == b.ns + "-" + y;
    assert a.ns + "-" + a.name == b.ns + "-" + (y + "-" + a.name);
    CachedTail(a);
    CachedTail(b);
  }

  lemma LongerOverlaps(a: ClusterKey, b: ClusterKey)
    requires CachedName(a) == CachedName(b) && |b.ns| < |a.ns|
    ensures Overlaps(a, b)
  {
    CachedTail(a);
    CachedTail(b);
    var x, n := a.ns + "-" + a.name, |b.ns|;
    assert x == b.ns + "-" + b.name;
    assert x[..n] == b.ns && x[n] == '-' && x[n + 1..] == b.name;
    assert x[..n] == a.ns[..n] && x[n] == a.ns[n];
    assert x[n + 1..] == a.ns[n + 1..] + "-" + a.name;
  }

  /** Two clusters share a cached name exactly when they overlap. */
  lemma CollidesExactly(a: ClusterKey, b: ClusterKey)
    ensures a != b && CachedName(a) == CachedName(b) <==> Overlaps(a, b) || Overlaps(b, a)
  {
    if Overlaps(a, b) { OverlapCollides(a, b); }
    if Overlaps(b, a) { OverlapCollides(b, a); }
    if CachedName(a) == CachedName(b) {
      if |b.ns| < |a.ns| { LongerOverlaps(a, b); }
      else if |a.ns| < |b.ns| { LongerOverlaps(b, a); }
      else { SameLengthSame(a, b); }
    }
  }

  lemma SameLengthSame(a: ClusterKey, b: ClusterKey)
    requires CachedName(a) == CachedName(b) && |a.ns| == |b.ns|
    ensures a == b
  {
    CachedTail(a);
    CachedTail(b);
    var x, n := a.ns + "-" + a.name, |a.ns|;
    assert x == b.ns + "-" + b.name;
    assert a.ns == x[..n] == b.ns;
    assert a.name == x[n + 1..] == b.name;
  }

  predicate DashFree(c: ClusterKey) {
    '-' !in c.ns
  }

  /** Every cluster an event speaks of has a dash-free namespace. */
  predicate SpeaksDashFree(e: Event) {
    match e
    case Refresh(c, _, _) => DashFree(c)
    case Collect(copy) => DashFree(copy.cluster)
    case _ => true
  }

  lemma DashFreeNeverLoses(s: Secrets, e: Event, c: ClusterKey)
    requires DashFree(c) && SpeaksDashFree(e)
    ensures !LosesCopy(s, e, c)
  {
    if e.Refresh? { CollidesExactly(e.c, c); }
    if e.Collect? { CollidesExactly(e.copy.cluster, c); }
  }

  /** Dash-free namespaces are enough: a live cluster's copy stays. */
  lemma {:induction false} DashFreeCopySurvives(s: Secrets, events: seq<Event>, c: ClusterKey)
    requires IsRun(s, events) && AliveThroughout(s, events, c) && HasCopy(s, c)
    requires DashFree(c) && forall e <- events :: SpeaksDashFree(e)
    ensures KeptThroughout(s, events, c) && HasCopy(After(s, events), c)
    decreases |events|
  {
    if events != [] {
      DashFreeNeverLoses(s, events[0], c);
      CopySurvives(s, [events[0]], c) by { assert IsRun(s, [events[0]]); }
      DashFreeCopySurvives(Next(s, events[0]), events[1..], c);
    }
  }

  /** With dashes they do not, and for every two clusters that overlap there is a run in
      which the live one loses its copy: the sweep lists the other's copy, the live
      cluster takes it over, the other goes away, and is swept by the name they share. */
  lemma CollidingNamesLoseCopy(s: Secrets, a: ClusterKey, b: ClusterKey)
    requires Agrees(s) && (Overlaps(a, b) || Overlaps(b, a))
    requires HasCopy(s, b) && a in s.clusters && a in s.sources && Stale(s.sources[a], Some(s.copies[CachedName(b)]))
    requires forall m <- s.machines :: s.machines[m].cluster == b ==> !s.machines[m].qualifies
    ensures var listed := s.copies[CachedName(b)];
            var takeover := [Refresh(a, s.sources[a], Some(listed))];
            var events := takeover + [SetCluster(b, false), Collect(listed)];
            && IsRun(s, takeover) && HasCopy(After(s, takeover), a)
            && IsRun(s, events) && AliveThroughout(s, events, a) && !HasCopy(After(s, events), a)
  {
    CollidesExactly(a, b);
    var listed := s.copies[CachedName(b)];
    var e0 := Refresh(a, s.sources[a], Some(listed));
    assert listed in s.stored && (a, s.sources[a]) in s.past;
    assert [e0][1..] == [];
    var s1 := Next(s, e0);
    SweptByName(s1, a, b, listed);
    var events := [e0] + [SetCluster(b, false), Collect(listed)];
    assert events[1..] == [SetCluster(b, false), Collect(listed)];
  }

  lemma SweptByName(s: Secrets, a: ClusterKey, b: ClusterKey, listed: Copy)
    requires CachedName(a) == CachedName(b) && a != b && a in s.clusters
    requires listed in s.stored && listed.cluster == b
    requires forall m <- s.machines :: s.machines[m].cluster == b ==> !s.machines[m].qualifies
    ensures var events := [SetCluster(b, false), Collect(listed)];
            IsRun(s, events) && AliveThroughout(s, events, a) && !HasCopy(After(s, events), a)
  {
    var s1 := Next(s, SetCluster(b, false));
    var s2 := Next(s1, Collect(listed));
    assert ClusterGone(s1, b) && a in s1.clusters;
    assert [SetCluster(b, false), Collect(listed)][1..] == [Collect(listed)] && [Collect(listed)][1..] == [];
    assert AliveThroughout(s2, [], a) && AliveThroughout(s1, [Collect(listed)], a);
    assert After(s1, [Collect(listed)]) == After(s2, []) == s2 && CachedName(a) !in s2.copies;
  }

  // --- the code -------------------------------------------------------------

  /** The state these events lead to. */
  ghost predicate Leads(start: Secrets, events: seq<Event>, s: Secrets) {
    IsRun(start, events) && After(start, events) == s
  }

  /** The API server for the secrets, with everyone else acting between calls. */
  class SecretServer {
    ghost const start: Secrets
    /** Whether this component's n-th call gets through; one that does not has no effect. */
    const up: nat -> bool
    var s: Secrets
    var calls: nat
    ghost var history: seq<Event>
    /** The state before each event of the history, and the present one. */
    ghost var states: seq<Secrets>
    /** The events this component sent itself. */
    ghost var sent: seq<Event>

    constructor (s: Secrets, up: nat -> bool)
      requires Agrees(s)
      ensures Valid() && this.s == s && start == s && history == [] && sent == [] && calls == 0
    {
      this.s, this.start, this.up, this.calls := s, s, up, 0;
      this.history, this.states, this.sent := [], [s], [];
    }

    ghost predicate Valid()
      reads this
    {
      && |states| == |history| + 1 && s == states[|history|]
      && forall ask {:trigger OnDemand(ask)} :: OnDemand(ask) ==>
           Agrees(start) && forall i :: 0 <= i <= |history| ==> Leads(start, history[..i], states[i])
    }

    /** Every state listed is where the history up to it leads. */
    lemma ValidMeans(i: nat)
      requires Valid() && i <= |history|
      ensures Leads(start, history[..i], states[i]) && Agrees(states[i])
    {
      assert OnDemand(0);
      RunAgrees(start, history[..i]);
    }

    method Happen(e: Event)
      requires Valid() && Enabled(s, e)
      modifies this`s, this`history, this`states
      ensures Valid() && s == Next(old(s), e) && history == old(history) + [e] && states == old(states) + [s]
    {
      ValidMeans(|history|);
      assert history[..|history|] == history;
      RunAppend(start, history, e);
      s := Next(s, e);
      history, states := history + [e], states + [s];
      forall i | 0 <= i <= |history| ensures Leads(start, history[..i], states[i]) {
        if i < |history| {
          assert OnDemand(0) && history[..i] == old(history)[..i];
        } else {
          assert history[..i] == history;
        }
      }
    }

    method Interfere()
      requires Valid()
      modifies this`s, this`history, this`states
      ensures Valid() && old(history) <= history && old(states) <= states
      ensures old(s.past) <= s.past && old(s.stored) <= s.stored
    {
      var n: int := *;
      while n > 0
        invariant Valid() && old(history) <= history && old(states) <= states
        invariant old(s.past) <= s.past && old(s.stored) <= s.stored
      {
        var e: Event := *;
        if Enabled(s, e) {
          Happen(e);
        }
        n := n - 1;
      }
    }

    /** One call: others act, then it gets through or not. */
    method Call() returns (ok: bool)
      requires Valid()
      modifies this`s, this`history, this`states, this`calls
      ensures Valid() && old(history) <= history && old(states) <= states
      ensures old(s.past) <= s.past && old(s.stored) <= s.stored
      ensures calls == old(calls) + 1 && ok == up(old(calls))
    {
      Interfere();
      ok := up(calls);
      calls := calls + 1;
    }

    /** The write itself. */
    method Send(e: Event)
      requires Valid() && Enabled(s, e)
      modifies this`s, this`history, this`states, this`sent
      ensures Valid() && s == Next(old(s), e) && history == old(history) + [e] && states == old(states) + [s]
      ensures sent == old(sent) + [e]
    {
      Happen(e);
      sent := sent + [e];
    }
  }

  datatype EnsureResult = Unavailable | NoSource | UpToDate | Created | Refreshed | Conflict

  /** What follows from the copy as compared, and from the state written to. */
  function Judgement(seen: Source, compared: Secrets, target: Secrets, c: ClusterKey): EnsureResult {
    var existing := Lookup(compared.copies, CachedName(c));
    if !Stale(seen, existing) then UpToDate
    else if !Refreshes(target, c, seen, existing) then Conflict
    else if existing.None? then Created else Refreshed
  }

  predicate Wrote(result: EnsureResult) {
    result.Created? || result.Refreshed? || result.Conflict?
  }

  /** No Cluster object, and every Machine of it, if any, does not qualify. */
  ghost predicate Abandoned(s: Secrets, c: ClusterKey) {
    !(c in s.clusters || exists m <- s.machines :: s.machines[m].cluster == c && s.machines[m].qualifies)
  }

  /** One check of the sweep: after how many events of the history, and what it saw. */
  datatype Check = Check(at: nat, moment: Secrets)

  /** The copy's cluster was checked at that moment of the history, and the next event is
      the copy's collection if there was neither the Cluster nor a qualifying Machine of it. */
  ghost predicate Checked(check: Check, copy: Copy, history: seq<Event>, states: seq<Secrets>) {
    && check.at < |states| && check.moment == states[check.at]
    && (Abandoned(check.moment, copy.cluster) ==> check.at < |history| && history[check.at] == Collect(copy))
  }

  lemma CheckedStays(check: Check, copy: Copy, history: seq<Event>, states: seq<Secrets>, history': seq<Event>, states': seq<Secrets>)
    requires Checked(check, copy, history, states) && history <= history' && states <= states'
    ensures Checked(check, copy, history', states')
  {
  }

  /** What a sweep sends for its checks: a collection for each cluster that was gone. */
  ghost function Collections(listed: seq<Copy>, checks: seq<Check>): seq<Event>
    requires |checks| <= |listed|
  {
    if checks == [] then []
    else
      var n := |checks| - 1;
      Collections(listed, checks[..n]) + if Abandoned(checks[n].moment, listed[n].cluster) then [Collect(listed[n])] else []
  }

  datatype ConfigResult = Config(config: string) | Malformed | Missing | Unreachable

  class CredentialCache {
    const server: SecretServer
    /** The talosconfig parser. */
    const parse: string -> Option<string>

    constructor (server: SecretServer, parse: string -> Option<string>)
      ensures this.server == server && this.parse == parse
    {
      this.server, this.parse := server, parse;
    }

    /** Copies the cluster's secret if there is one and the copy is missing or differs.
        `j` is when the source was read, `k` when the copy was, both during the call.
        Unless a call failed or the write was refused, the copy ends with the bytes read. */
    method Ensure(c: ClusterKey) returns (result: EnsureResult, ghost j: nat, ghost k: nat)
      requires server.Valid()
      modifies server
      ensures server.Valid() && old(server.history) <= server.history && old(server.states) <= server.states
      ensures |old(server.history)| <= j <= k <= |server.history|
      ensures result.Unavailable? <==> exists n :: old(server.calls) <= n < server.calls && !server.up(n)
      ensures result.NoSource? ==> c !in server.states[j].sources && server.sent == old(server.sent)
      ensures !result.Unavailable? && !result.NoSource? ==> c in server.states[j].sources
      ensures Wrote(result) && CachedName(c) in server.states[k].copies ==>
                && server.states[k].copies[CachedName(c)].sourceVersion != server.states[j].sources[c].version
                && server.states[k].copies[CachedName(c)].data != server.states[j].sources[c].data
      ensures c in server.states[j].sources ==> Copied(c, server.states[j].sources[c], result, k, old(server.sent))
      ensures !result.Unavailable? && !result.Conflict? && c in server.states[j].sources ==>
                CachedName(c) in server.s.copies && server.s.copies[CachedName(c)].data == server.states[j].sources[c].data
    {
      var ok := server.Call();
      j, k := |server.history|, |server.history|;
      if !ok {
        return Unavailable, j, k;
      }
      if c !in server.s.sources {
        return NoSource, j, k;
      }
      var seen := server.s.sources[c];
      server.ValidMeans(j);
      assert (c, seen) in server.s.past;
      result, k := CopyFrom(c, seen);
    }

    /** What became of bringing the copy up to the source that was read: judged by the copy
        as it was after `k` events, and written, if at all, by the last event. */
    ghost predicate Copied(c: ClusterKey, seen: Source, result: EnsureResult, k: nat, sent: seq<Event>)
      requires server.Valid() && k <= |server.history|
      reads this, server
    {
      if Wrote(result) then
        && k < |server.history|
        && var e := Refresh(c, seen, Lookup(server.states[k].copies, CachedName(c)));
           server.sent == sent + [e] && server.history[|server.history| - 1] == e
           && result == Judgement(seen, server.states[k], server.states[|server.history| - 1], c)
      else
        server.sent == sent && (result.UpToDate? ==> result == Judgement(seen, server.states[k], server.states[k], c))
    }

    method CopyFrom(c: ClusterKey, seen: Source) returns (result: EnsureResult, ghost k: nat)
      requires server.Valid() && (c, seen) in server.s.past
      modifies server
      ensures server.Valid() && old(server.history) <= server.history && old(server.states) <= server.states
      ensures |old(server.history)| <= k <= |server.history|
      ensures old(server.calls) <= server.calls
      ensures result.Unavailable? <==> exists n :: old(server.calls) <= n < server.calls && !server.up(n)
      ensures Copied(c, seen, result, k, old(server.sent)) && !result.NoSource?
      ensures !result.Unavailable? && !result.Conflict? ==>
                CachedName(c) in server.s.copies && server.s.copies[CachedName(c)].data == seen.data
    {
      var ok, existing := ReadCopy(c, seen);
      k := |server.history|;
      if !ok {
        return Unavailable, k;
      }
      if existing.Some? && (existing.value.sourceVersion == seen.version || existing.value.data == seen.data) {
        return UpToDate, k;
      }
      result := WriteCopy(c, seen, existing);
    }

    /** What is stored under the cached name. */
    method ReadCopy(c: ClusterKey, seen: Source) returns (ok: bool, existing: Option<Copy>)
      requires server.Valid() && (c, seen) in server.s.past
      modifies server
      ensures server.Valid() && old(server.history) <= server.history && old(server.states) <= server.states
      ensures server.calls == old(server.calls) + 1 && ok == server.up(old(server.calls))
      ensures server.sent == old(server.sent)
      ensures existing == Lookup(server.s.copies, CachedName(c)) && Enabled(server.s, Refresh(c, seen, existing))
      ensures existing.Some? && existing.value.sourceVersion == seen.version ==> existing.value.data == seen.data
    {
      ok := server.Call();
      server.ValidMeans(|server.history|);
      existing := Lookup(server.s.copies, CachedName(c));
      if existing.Some? {
        assert existing.value in server.s.copies.Values && existing.value in server.s.stored;
        if existing.value.sourceVersion == seen.version {
          SameSource(server.s, existing.value, c, seen);
        }
      }
    }

    /** The guarded write. */
    method WriteCopy(c: ClusterKey, seen: Source, existing: Option<Copy>) returns (result: EnsureResult)
      requires server.Valid() && Enabled(server.s, Refresh(c, seen, existing)) && Stale(seen, existing)
      modifies server
      ensures server.Valid() && old(server.history) <= server.history && old(server.states) <= server.states
      ensures server.calls == old(server.calls) + 1 && (result.Unavailable? <==> !server.up(old(server.calls)))
      ensures result.Unavailable? ==> server.sent == old(server.sent)
      ensures !result.Unavailable? ==>
                && |old(server.history)| < |server.history|
                && var e := Refresh(c, seen, existing);
                   server.sent == old(server.sent) + [e] && server.history[|server.history| - 1] == e
                   && result == if !Refreshes(server.states[|server.history| - 1], c, seen, existing) then Conflict
                                else if existing.None? then Created else Refreshed
      ensures result.Created? || result.Refreshed? ==>
                CachedName(c) in server.s.copies && server.s.copies[CachedName(c)].data == seen.data
    {
      var ok := server.Call();
      if !ok {
        return Unavailable;
      }
      var free := CachedName(c) !in server.s.copies;
      var written := if existing.None? then free
                     else !free && server.s.copies[CachedName(c)].version == existing.value.version;
      server.Send(Refresh(c, seen, existing));
      return if !written then Conflict else if existing.None? then Created else Refreshed;
    }

    /** The live secret's configuration, or the copy's where there is no live secret. */
    method Config(c: ClusterKey) returns (result: ConfigResult, ghost j: nat, ghost k: nat)
      requires server.Valid()
      modifies server
      ensures server.Valid() && old(server.history) <= server.history && server.sent == old(server.sent)
      ensures |old(server.history)| <= j <= k <= |server.history|
      ensures result.Unreachable? <==> exists n :: old(server.calls) <= n < server.calls && !server.up(n)
      ensures !result.Unreachable? ==>
                var live, copy := Lookup(server.states[j].sources, c), Lookup(server.states[k].copies, CachedName(c));
                result == if live.Some? then Parsed(live.value.data) else if copy.Some? then Parsed(copy.value.data) else Missing
    {
      var ok := server.Call();
      j, k := |server.history|, |server.history|;
      if !ok {
        return Unreachable, j, k;
      }
      if c in server.s.sources {
        return Parsed(server.s.sources[c].data), j, k;
      }
      ok := server.Call();
      k := |server.history|;
      if !ok {
        return Unreachable, j, k;
      }
      if CachedName(c) !in server.s.copies {
        return Missing, j, k;
      }
      return Parsed(server.s.copies[CachedName(c)].data), j, k;
    }

    function Parsed(bytes: string): ConfigResult {
      if parse(bytes).Some? then ConfigResult.Config(parse(bytes).value) else Malformed
    }

    /** Sweeps the copies listed at moment `from`, up to the first call that fails.  Each is
        checked at some moment of the call, and collected then exactly if its cluster is
        gone; nothing else is sent. */
    method GC() returns (complete: bool, listed: seq<Copy>, ghost from: nat, ghost checks: seq<Check>)
      requires server.Valid()
      modifies server
      ensures server.Valid() && old(server.history) <= server.history && old(server.states) <= server.states
      ensures complete <==> forall n :: old(server.calls) <= n < server.calls ==> server.up(n)
      ensures |old(server.history)| <= from <= |server.history|
      ensures complete ==> (set copy <- listed) == server.states[from].copies.Values
      ensures |checks| <= |listed| && (complete ==> |checks| == |listed|)
      ensures forall i :: 0 <= i < |checks| ==>
                from <= checks[i].at && Checked(checks[i], listed[i], server.history, server.states)
      ensures server.sent == old(server.sent) + Collections(listed, checks)
    {
      var ok := server.Call();
      complete, listed, from, checks := false, [], |server.history|, [];
      if !ok {
        return;
      }
      listed := ListCopies();
      server.ValidMeans(from);
      forall copy <- listed ensures copy in server.s.stored {
        assert copy in server.s.copies.Values;
      }
      complete, checks := SweepListed(listed);
    }

    /** The loop over the listed copies. */
    method SweepListed(listed: seq<Copy>) returns (complete: bool, ghost checks: seq<Check>)
      requires server.Valid() && forall copy <- listed :: copy in server.s.stored
      modifies server
      ensures server.Valid() && old(server.history) <= server.history && old(server.states) <= server.states
      ensures old(server.calls) <= server.calls
      ensures complete <==> forall n :: old(server.calls) <= n < server.calls ==> server.up(n)
      ensures |checks| <= |listed| && (complete ==> |checks| == |listed|)
      ensures forall i :: 0 <= i < |checks| ==>
                |old(server.history)| <= checks[i].at && Checked(checks[i], listed[i], server.history, server.states)
      ensures server.sent == old(server.sent) + Collections(listed, checks)
    {
      complete, checks := false, [];
      for i := 0 to |listed|
        invariant server.Valid() && old(server.history) <= server.history && old(server.states) <= server.states
        invariant forall copy <- listed :: copy in server.s.stored
        invariant old(server.calls) <= server.calls && forall n :: old(server.calls) <= n < server.calls ==> server.up(n)
        invariant |checks| == i
        invariant forall j :: 0 <= j < i ==>
                    |old(server.history)| <= checks[j].at && Checked(checks[j], listed[j], server.history, server.states)
        invariant server.sent == old(server.sent) + Collections(listed, checks)
      {
        ghost var history, states := server.history, server.states;
        var ok;
        ghost var check;
        ok, check := SweepOne(listed[i]);
        forall j | 0 <= j < i ensures Checked(checks[j], listed[j], server.history, server.states) {
          CheckedStays(checks[j], listed[j], history, states, server.history, server.states);
        }
        if !ok {
          return;
        }
        assert (checks + [check])[..i] == checks;
        checks := checks + [check];
      }
      complete := true;
    }

    /** All copies, in some order. */
    method ListCopies() returns (listed: seq<Copy>)
      ensures (set copy <- listed) == server.s.copies.Values
    {
      listed := [];
      var rest := server.s.copies.Keys;
      while rest != {}
        invariant rest <= server.s.copies.Keys
        invariant forall copy <- listed :: copy in server.s.copies.Values
        invariant forall n <- server.s.copies :: n in rest || server.s.copies[n] in listed
        decreases |rest|
      {
        var n :| n in rest;
        rest := rest - {n};
        listed := listed + [server.s.copies[n]];
      }
    }

    /** Checks one copy's cluster and collects the copy if it is gone, at one moment. */
    method SweepOne(copy: Copy) returns (ok: bool, ghost check: Check)
      requires server.Valid() && copy in server.s.stored
      modifies server
      ensures server.Valid() && old(server.history) <= server.history && old(server.states) <= server.states
      ensures old(server.s.stored) <= server.s.stored
      ensures server.calls == old(server.calls) + 1 && ok == server.up(old(server.calls))
      ensures ok ==> |old(server.history)| <= check.at && Checked(check, copy, server.history, server.states)
      ensures server.sent == old(server.sent)
                             + if ok && Abandoned(check.moment, copy.cluster) then [Collect(copy)] else []
    {
      ok := server.Call();
      check := Check(|server.history|, server.s);
      if ok && ClusterGone(server.s, copy.cluster) {
        server.Send(Collect(copy));
      }
    }
  }
}
