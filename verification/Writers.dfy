/** The code of the two Hardware writers, against an API server behind which everyone
    else keeps writing. */
module Writers {
  import opened Common
  import opened HardwareModel
  import opened DiscoveryMapping
  import opened HardwareStore

  /** An object as a read returned it, or none, or no answer. */
  datatype ReadResult = Unreachable | Absent | Found(seen: Versioned)

  datatype WriteResult = NotReached | Written | Conflict | AlreadyExists

  /** The state these events lead to. */
  ghost predicate Leads(start: Store, events: seq<Event>, s: Store) {
    IsRun(start, events) && After(start, events) == s
  }

  /** The API server for Hardware.  Reads may be arbitrarily old. */
  class Server {
    ghost const start: Store
    /** Whether this component's n-th call gets through; one that does not has no effect. */
    const up: nat -> bool
    var s: Store
    var calls: nat
    /** The state before each event of the history, and the present one. */
    var states: seq<Store>
    ghost var history: seq<Event>
    /** The events this component sent itself. */
    ghost var sent: seq<Event>

    constructor (s: Store, up: nat -> bool)
      requires Versions(s)
      ensures Valid() && this.s == s && start == s && history == [] && sent == [] && calls == 0
    {
      this.s, this.start, this.up, this.calls := s, s, up, 0;
      this.history, this.states, this.sent := [], [s], [];
    }

    ghost predicate Valid()
      reads this
    {
      && |states| == |history| + 1 && s == states[|history|]
      && forall ask {:trigger OnDemand(ask)} :: OnDemand(ask) ==>
           Versions(start) && forall i :: 0 <= i <= |history| ==> Leads(start, history[..i], states[i])
    }

    /** Every state listed is where the history up to it leads. */
    lemma ValidMeans(i: nat)
      requires Valid() && i <= |history|
      ensures Leads(start, history[..i], states[i]) && Versions(states[i])
    {
      assert OnDemand(0);
      RunKeepsVersions(start, history[..i]);
    }

    method Happen(e: Event)
      requires Valid() && Enabled(s, e)
      modifies this`s, this`history, this`states
      ensures Valid() && s == Next(old(s), e) && history == old(history) + [e] && states == old(states) + [s]
    {
      ValidMeans(|history|);
      assert history[..|history|] == history;
      RunAppend(start, history, e);
      s := Next(s, e);
      history, states := history + [e], states + [s];
      forall i | 0 <= i <= |history| ensures Leads(start, history[..i], states[i]) {
        if i < |history| {
          assert OnDemand(0) && history[..i] == old(history)[..i];
        } else {
          assert history[..i] == history;
        }
      }
    }

    /** Anyone writes anything, any number of times. */
    method Interfere()
      requires Valid()
      modifies this`s, this`history, this`states
      ensures Valid() && old(history) <= history && old(states) <= states && old(s.past) <= s.past
    {
      var n: int := *;
      while n > 0
        invariant Valid() && old(history) <= history && old(states) <= states && old(s.past) <= s.past
      {
        var e: Event := *;
        if Enabled(s, e) {
          Happen(e);
        }
        n := n - 1;
      }
    }

    /** One call: others act, then it gets through or not. */
    method Call() returns (ok: bool)
      requires Valid()
      modifies this`s, this`history, this`states, this`calls
      ensures Valid() && old(history) <= history && old(states) <= states && old(s.past) <= s.past
      ensures calls == old(calls) + 1 && ok == up(old(calls))
    {
      Interfere();
      ok := up(calls);
      calls := calls + 1;
    }

    /** What a read may answer: any version the object ever had, or none if there was a
        moment without it. */
    ghost predicate MayAnswer(name: string, read: ReadResult, at: nat)
      reads this
    {
      match read
      case Unreachable => true
      case Absent => at < |states| && name !in states[at].objects
      case Found(seen) => (name, seen) in s.past
    }

    method Get(name: string) returns (read: ReadResult, ghost at: nat)
      requires Valid()
      modifies this`s, this`history, this`states, this`calls
      ensures Valid() && old(history) <= history && old(states) <= states && old(s.past) <= s.past
      ensures calls == old(calls) + 1 && (read.Unreachable? <==> !up(old(calls)))
      ensures MayAnswer(name, read, at)
    {
      var ok := Call();
      at := |history|;
      if !ok {
        return Unreachable, at;
      }
      ValidMeans(|history|);
      var older: Versioned := *;
      var moment: int := *;
      if (name, older) in s.past {
        return Found(older), at;
      }
      if 0 <= moment < |states| && name !in states[moment].objects {
        return Absent, moment;
      }
      return if name in s.objects then Found(s.objects[name]) else Absent, at;
    }

    /** Carries out a write, if the call gets through; `s` is then the state it was
        carried out on. */
    method Send(e: Event) returns (ok: bool)
      requires Valid() && Enabled(s, e)
      modifies this`s, this`history, this`states, this`calls, this`sent
      ensures Valid() && old(history) <= history && old(states) <= states && old(s.past) <= s.past
      ensures calls == old(calls) + 1 && ok == up(old(calls))
      ensures if ok then WasSent(e, old(sent), |old(history)|) else sent == old(sent)
    {
      ok := Call();
      if ok {
        Happen(e);
        sent := sent + [e];
      }
    }

    /** The guarded update of a scrub: written exactly if the version is still live. */
    method Update(name: string, seen: Versioned, hw: Hardware, opts: Options, stamp: string) returns (result: WriteResult)
      requires Valid() && (name, seen) in s.past
      requires Classify(seen.hw) == Released && Changes(seen.hw, opts) != [] && hw == Scrubbed(seen.hw, opts, stamp)
      modifies this`s, this`history, this`states, this`calls, this`sent
      ensures Valid() && old(history) <= history && old(states) <= states && old(s.past) <= s.past
      ensures calls == old(calls) + 1 && (result == NotReached <==> !up(old(calls)))
      ensures result == NotReached ==> sent == old(sent)
      ensures result != NotReached ==>
                && WasSent(Scrub(name, seen, opts, stamp), old(sent), |old(history)|)
                && result == (if Current(Target(), name, seen) then Written else Conflict)
                && (result == Written ==> Target().objects[name] == seen)
    {
      var ok := Send(Scrub(name, seen, opts, stamp));
      if !ok {
        return NotReached;
      }
      ValidMeans(|history| - 1);
      var before := states[|states| - 2];
      result := if Current(before, name, seen) then Written else Conflict;
      if result == Written { CurrentIsLive(before, name, seen); }
    }

    /** A create, which fails if the name is taken. */
    method Create(desired: Desired, sighting: Sighting, stamp: string) returns (result: WriteResult)
      requires Valid() && desired == Wanted(sighting, stamp, None)
      modifies this`s, this`history, this`states, this`calls, this`sent
      ensures Valid() && old(history) <= history && old(states) <= states && old(s.past) <= s.past
      ensures calls == old(calls) + 1 && (result == NotReached <==> !up(old(calls)))
      ensures result == NotReached ==> sent == old(sent)
      ensures result != NotReached ==>
                && WasSent(Event.Create(sighting, stamp), old(sent), |old(history)|)
                && result == (if desired.name in Target().objects then AlreadyExists else Written)
    {
      var ok := Send(Event.Create(sighting, stamp));
      if !ok {
        return NotReached;
      }
      var before := states[|states| - 2];
      result := if desired.name in before.objects then AlreadyExists else Written;
    }

    /** A conditional apply.  Which of the fields left out are pruned is the server's to know. */
    method Apply(desired: Desired, seen: Versioned, sighting: Sighting, stamp: string) returns (result: WriteResult, ghost pruned: set<Field>)
      requires Valid() && (desired.name, seen) in s.past && Managed(seen.hw)
      requires desired == Wanted(sighting, stamp, Some(seen.hw))
      modifies this`s, this`history, this`states, this`calls, this`sent
      ensures Valid() && old(history) <= history && old(states) <= states && old(s.past) <= s.past
      ensures calls == old(calls) + 1 && (result == NotReached <==> !up(old(calls)))
      ensures result == NotReached ==> sent == old(sent)
      ensures result != NotReached ==>
                && WasSent(Event.Apply(sighting, seen, stamp, pruned), old(sent), |old(history)|)
                && result == (if Current(Target(), desired.name, seen) then Written else Conflict)
    {
      var fields: set<Field> := *;
      pruned := fields;
      var ok := Send(Event.Apply(sighting, seen, stamp, fields));
      if !ok {
        return NotReached, pruned;
      }
      var before := states[|states| - 2];
      result := if Current(before, desired.name, seen) then Written else Conflict;
    }

    /** The last event is this one, the only one sent since, and carried out on the state
        before the last. */
    ghost predicate WasSent(e: Event, sent: seq<Event>, since: nat)
      requires Valid()
      reads this
    {
      && this.sent == sent + [e] && since < |history| && history[|history| - 1] == e
      && Enabled(Target(), e) && s == Next(Target(), e)
    }

    /** The state before the last event. */
    ghost function Target(): Store
      requires Valid()
      reads this
    {
      if |history| > 0 then states[|history| - 1] else s
    }
  }

  // --- the janitor ----------------------------------------------------------

  datatype Verdict = Failed | Gone | LeftAsIs(kind: Class) | Done(changes: seq<Change>) | Conflicted

  class Janitor {
    const server: Server
    const opts: Options
    /** The gauge: Hardware last seen half-released. */
    var halfReleased: set<string>

    constructor (server: Server, opts: Options)
      ensures this.server == server && this.opts == opts && halfReleased == {}
    {
      this.server, this.opts, this.halfReleased := server, opts, {};
    }

    /** Released, with something to scrub. */
    predicate Due(seen: Versioned) {
      Classify(seen.hw) == Released && Changes(seen.hw, opts) != []
    }

    /** What a scrub that was sent has done. */
    ghost predicate Effect(name: string, seen: Versioned, stamp: string, verdict: Verdict)
      requires server.Valid()
      reads this, server
    {
      var before := server.Target();
      if Current(before, name, seen) then
        && name in before.objects && Classify(before.objects[name].hw) == Released
        && verdict == Done(Changes(before.objects[name].hw, opts))
        && server.s == Put(before, name, Scrubbed(before.objects[name].hw, opts, stamp))
        && Classify(server.s.objects[name].hw) == NeverClaimed
      else
        verdict.Conflicted? && server.s == before
    }

    /** Classify what was read, and scrub it if it was released.  The gauge follows the
        class read.  A scrub is sent only for an object read as released, and writes only
        if that version is still live: then it replaces an object released at that very
        moment, of which exactly the reported fields change, by a never-claimed one. */
    method Reconcile(name: string, stamp: string) returns (verdict: Verdict, ghost read: ReadResult, ghost at: nat)
      requires server.Valid()
      modifies this, server
      ensures server.Valid() && old(server.history) <= server.history && old(server.states) <= server.states
      ensures server.MayAnswer(name, read, at)
      ensures verdict.Failed? <==> exists n :: old(server.calls) <= n < server.calls && !server.up(n)
      ensures halfReleased == if read.Unreachable? then old(halfReleased)
                              else if read.Found? && Classify(read.seen.hw) == HalfReleased then old(halfReleased) + {name}
                              else old(halfReleased) - {name}
      ensures match read
              case Unreachable => verdict.Failed?
              case Absent => verdict.Gone?
              case Found(seen) => !Due(seen) ==> verdict == LeftAsIs(Classify(seen.hw))
      ensures !verdict.Done? && !verdict.Conflicted? ==> server.sent == old(server.sent)
      ensures read.Found? && Due(read.seen) && !verdict.Failed? ==>
                && server.WasSent(Scrub(name, read.seen, opts, stamp), old(server.sent), |old(server.history)|)
                && Effect(name, read.seen, stamp, verdict)
    {
      var got;
      got, at := server.Get(name);
      read := got;
      if got.Unreachable? {
        return Failed, read, at;
      }
      if got.Absent? {
        halfReleased := halfReleased - {name};
        return Gone, read, at;
      }
      var seen := got.seen;
      var kind := Classify(seen.hw);
      if kind != HalfReleased {
        halfReleased := halfReleased - {name};
      }
      if kind == HalfReleased {
        halfReleased := halfReleased + {name};
        return LeftAsIs(kind), read, at;
      }
      if kind != Released {
        return LeftAsIs(kind), read, at;
      }
      verdict := ScrubReleased(name, seen, stamp);
    }

    /** Scrubs a copy of what was read as released, and sends it. */
    method ScrubReleased(name: string, seen: Versioned, stamp: string) returns (verdict: Verdict)
      requires server.Valid() && (name, seen) in server.s.past && Classify(seen.hw) == Released
      modifies server
      ensures server.Valid() && old(server.history) <= server.history && old(server.states) <= server.states
      ensures old(server.s.past) <= server.s.past
      ensures old(server.calls) <= server.calls
      ensures verdict.Failed? <==> exists n :: old(server.calls) <= n < server.calls && !server.up(n)
      ensures !Due(seen) ==> verdict == LeftAsIs(Released)
      ensures !verdict.Done? && !verdict.Conflicted? ==> server.sent == old(server.sent)
      ensures Due(seen) && !verdict.Failed? ==>
                && server.WasSent(Scrub(name, seen, opts, stamp), old(server.sent), |old(server.history)|)
                && Effect(name, seen, stamp, verdict)
    {
      var scrubbed := new HardwareObject(seen.hw);
      var cleared := scrubbed.Scrub(opts, stamp);
      if |cleared| == 0 {
        return LeftAsIs(Released);
      }
      var result := server.Update(name, seen, scrubbed.Value(), opts, stamp);
      if result == NotReached {
        return Failed;
      }
      if result == Conflict {
        return Conflicted;
      }
      ScrubExtinguishes(seen.hw, opts, stamp, stamp);
      return Done(cleared);
    }
  }

  // --- discovery ------------------------------------------------------------

  datatype SyncResult = Unsynced | Skipped | Wrote(result: WriteResult)

  class Syncer {
    const server: Server

    constructor (server: Server)
      ensures this.server == server
    {
      this.server := server;
    }

    /** Get, guard, create or conditional apply, for one sighted Hardware.  An object read
        without the label is skipped; otherwise one write is sent, which at that moment
        finds the name absent, or finds the very version read, and leaves the rest alone. */
    method ApplyManaged(sighting: Sighting, stamp: string)
      returns (result: SyncResult, ghost read: ReadResult, ghost at: nat, ghost pruned: set<Field>)
      requires server.Valid()
      modifies server
      ensures server.Valid() && old(server.history) <= server.history && old(server.states) <= server.states
      ensures server.MayAnswer(sighting.opts.name, read, at)
      ensures result.Unsynced? <==> exists n :: old(server.calls) <= n < server.calls && !server.up(n)
      ensures read.Unreachable? ==> result.Unsynced?
      ensures !result.Unsynced? ==> (result.Skipped? <==> read.Found? && !Managed(read.seen.hw))
      ensures !result.Wrote? ==> server.sent == old(server.sent)
      ensures result.Wrote? ==>
                && server.WasSent(Sending(sighting, stamp, read, pruned), old(server.sent), |old(server.history)|)
                && Effect(sighting, stamp, read, result.result)
    {
      var desired := BuildHardware(sighting.dev, sighting.opts, sighting.ep, stamp, None);
      var got;
      got, at := server.Get(sighting.opts.name);
      read, pruned := got, {};
      if got.Unreachable? {
        return Unsynced, read, at, pruned;
      }
      result, pruned := WriteOver(sighting, stamp, desired, got);
    }

    /** What a write of the sighting sends over what was read. */
    function Sending(sighting: Sighting, stamp: string, read: ReadResult, pruned: set<Field>): Event {
      if read.Found? then Event.Apply(sighting, read.seen, stamp, pruned) else Event.Create(sighting, stamp)
    }

    /** Guard, create or conditional apply. */
    method WriteOver(sighting: Sighting, stamp: string, desired: Desired, read: ReadResult)
      returns (result: SyncResult, ghost pruned: set<Field>)
      requires server.Valid() && desired == Wanted(sighting, stamp, None) && !read.Unreachable?
      requires read.Found? ==> (sighting.opts.name, read.seen) in server.s.past
      modifies server
      ensures server.Valid() && old(server.history) <= server.history && old(server.states) <= server.states
      ensures old(server.s.past) <= server.s.past
      ensures if read.Found? && !Managed(read.seen.hw) then
                result.Skipped? && server.calls == old(server.calls) && server.sent == old(server.sent)
              else
                && server.calls == old(server.calls) + 1
                && if server.up(old(server.calls)) then
                     && result.Wrote? && Effect(sighting, stamp, read, result.result)
                     && server.WasSent(Sending(sighting, stamp, read, pruned), old(server.sent), |old(server.history)|)
                   else result.Unsynced? && server.sent == old(server.sent)
    {
      pruned := {};
      if read.Absent? {
        result := CreateAbsent(sighting, stamp, desired, read);
        return result, pruned;
      }
      var live := read.seen;
      if Lookup(live.hw.labels, ManagedBy) != Some(MANAGED_BY) {
        return Skipped, pruned;
      }
      var carried := Carry(desired, live.hw);
      CarryIsBuild(sighting.dev, sighting.opts, sighting.ep, stamp, live.hw);
      result, pruned := UpdateManaged(sighting, stamp, carried, live);
    }

    method CreateAbsent(sighting: Sighting, stamp: string, desired: Desired, ghost read: ReadResult) returns (result: SyncResult)
      requires server.Valid() && desired == Wanted(sighting, stamp, None) && read.Absent?
      modifies server
      ensures server.Valid() && old(server.history) <= server.history && old(server.states) <= server.states
      ensures old(server.s.past) <= server.s.past && server.calls == old(server.calls) + 1
      ensures if server.up(old(server.calls)) then
                && result.Wrote? && Effect(sighting, stamp, read, result.result)
                && server.WasSent(Event.Create(sighting, stamp), old(server.sent), |old(server.history)|)
              else result.Unsynced? && server.sent == old(server.sent)
    {
      var created := server.Create(desired, sighting, stamp);
      if created == NotReached {
        return Unsynced;
      }
      WriteEffect(sighting, stamp, read, created, {});
      return Wrote(created);
    }

    method UpdateManaged(sighting: Sighting, stamp: string, desired: Desired, live: Versioned)
      returns (result: SyncResult, ghost pruned: set<Field>)
      requires server.Valid() && desired == Wanted(sighting, stamp, Some(live.hw))
      requires (sighting.opts.name, live) in server.s.past && Managed(live.hw)
      modifies server
      ensures server.Valid() && old(server.history) <= server.history && old(server.states) <= server.states
      ensures old(server.s.past) <= server.s.past && server.calls == old(server.calls) + 1
      ensures if server.up(old(server.calls)) then
                && result.Wrote? && Effect(sighting, stamp, Found(live), result.result)
                && server.WasSent(Event.Apply(sighting, live, stamp, pruned), old(server.sent), |old(server.history)|)
              else result.Unsynced? && server.sent == old(server.sent)
    {
      var applied;
      applied, pruned := server.Apply(desired, live, sighting, stamp);
      if applied == NotReached {
        return Unsynced, pruned;
      }
      WriteEffect(sighting, stamp, Found(live), applied, pruned);
      return Wrote(applied), pruned;
    }

    /** What a write that was sent has done: all it may, or nothing. */
    ghost predicate Effect(sighting: Sighting, stamp: string, read: ReadResult, result: WriteResult)
      requires server.Valid()
      reads this, server
    {
      var name, before := sighting.opts.name, server.Target();
      && result == (if read.Found? then (if Current(before, name, read.seen) then Written else Conflict)
                    else if name in before.objects then AlreadyExists else Written)
      && DiscoveryStep(before, server.s, sighting)
      && if result == Written then Stamped(server.s, name, stamp) else server.s == before
    }

    lemma WriteEffect(sighting: Sighting, stamp: string, read: ReadResult, result: WriteResult, pruned: set<Field>)
      requires server.Valid() && |server.history| > 0
      requires var e := Sending(sighting, stamp, read, pruned);
               Enabled(server.Target(), e) && server.s == Next(server.Target(), e)
      requires read.Found? ==> Managed(read.seen.hw)
      requires var name, before := sighting.opts.name, server.Target();
               result == if read.Found? then (if Current(before, name, read.seen) then Written else Conflict)
                         else if name in before.objects then AlreadyExists else Written
      ensures Effect(sighting, stamp, read, result)
    {
      var e := Sending(sighting, stamp, read, pruned);
      server.ValidMeans(|server.history| - 1);
      DiscoveryEvent(server.Target(), e);
      DiscoveryStamps(server.Target(), e);
    }

    /** Puts the live netboot block into the object about to be applied. */
    method Carry(desired: Desired, live: Hardware) returns (carried: Desired)
      ensures carried == Carried(desired, live)
    {
      carried := desired;
      if |desired.interfaces| > 0 {
        var primary := desired.interfaces[0].(netboot := Some(NetbootFor(Some(live))));
        carried := desired.(interfaces := desired.interfaces[0 := primary]);
      }
    }
  }
}
