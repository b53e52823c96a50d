/** Hardware objects with many writers: CAPT and workflows write what they like, the
    janitor scrubs, discovery creates and applies.  Readers may see any past version;
    only the version guard on a write ties it to the present. */
module HardwareStore {
  import opened Common
  import opened HardwareModel
  import opened DiscoveryMapping

  datatype Versioned = Versioned(hw: Hardware, version: nat)

  /** The live objects, every version ever stored, and the next version: one counter
      for all objects, never reused. */
  datatype Store = Store(objects: map<string, Versioned>, past: set<(string, Versioned)>, next: nat)

  /** What discovery knows when it syncs one endpoint. */
  datatype Sighting = Sighting(dev: Device, opts: HardwareOptions, ep: Endpoint)

  datatype Event =
    | Foreign(name: string, hw: Hardware)
    | Delete(name: string)
    | Scrub(name: string, seen: Versioned, opts: Options, stamp: string)
    | Create(sighting: Sighting, stamp: string)
    | Apply(sighting: Sighting, seen: Versioned, stamp: string, pruned: set<Field>)

  function Put(s: Store, name: string, hw: Hardware): Store {
    var v := Versioned(hw, s.next);
    Store(s.objects[name := v], s.past + {(name, v)}, s.next + 1)
  }

  /** The optimistic-concurrency guard: the object still has the version that was read. */
  predicate Current(s: Store, name: string, seen: Versioned) {
    name in s.objects && s.objects[name].version == seen.version
  }

  /** The janitor writes: what it read was released, something changed, the guard held. */
  predicate ScrubWrites(s: Store, name: string, seen: Versioned, opts: Options) {
    Classify(seen.hw) == Released && Changes(seen.hw, opts) != [] && Current(s, name, seen)
  }

  /** Discovery updates: what it read was its own, the guard held. */
  predicate ApplyWrites(s: Store, sighting: Sighting, seen: Versioned) {
    Managed(seen.hw) && Current(s, sighting.opts.name, seen)
  }

  function Wanted(sighting: Sighting, stamp: string, live: Option<Hardware>): Desired {
    DesiredHardware(sighting.dev, sighting.opts, sighting.ep, stamp, live)
  }

  /** Reads return some version this object once had. */
  predicate Enabled(s: Store, e: Event) {
    match e
    case Scrub(name, seen, _, _) => (name, seen) in s.past
    case Apply(sighting, seen, _, _) => (sighting.opts.name, seen) in s.past
    case _ => true
  }

  function Next(s: Store, e: Event): Store
    requires Enabled(s, e)
  {
    match e
    case Foreign(name, hw) => Put(s, name, hw)
    case Delete(name) => s.(objects := s.objects - {name})
    case Scrub(name, seen, opts, stamp) =>
      if ScrubWrites(s, name, seen, opts) then Put(s, name, Scrubbed(seen.hw, opts, stamp)) else s
    case Create(sighting, stamp) =>
      if sighting.opts.name in s.objects then s
      else Put(s, sighting.opts.name, Created(Wanted(sighting, stamp, None)))
    case Apply(sighting, seen, stamp, pruned) =>
      if ApplyWrites(s, sighting, seen)
      then Put(s, sighting.opts.name,
               Applied(s.objects[sighting.opts.name].hw, Wanted(sighting, stamp, Some(seen.hw)), pruned))
      else s
  }

  ghost predicate IsRun(s: Store, events: seq<Event>)
    decreases |events|
  {
    events == [] || (Enabled(s, events[0]) && IsRun(Next(s, events[0]), events[1..]))
  }

  ghost function After(s: Store, events: seq<Event>): Store
    requires IsRun(s, events)
    decreases |events|
  {
    if events == [] then s else After(Next(s, events[0]), events[1..])
  }

  // --- versions -------------------------------------------------------------

  /** A version says which object it was, and with what content. */
  ghost predicate Versions(s: Store) {
    && (forall name <- s.objects :: (name, s.objects[name]) in s.past)
    && (forall p <- s.past :: p.1.version < s.next)
    && (forall p <- s.past, q <- s.past :: p.1.version == q.1.version ==> p == q)
  }

  lemma NextKeepsVersions(s: Store, e: Event)
    requires Versions(s) && Enabled(s, e)
    ensures Versions(Next(s, e))
  {
  }

  lemma {:induction false} RunKeepsVersions(s: Store, events: seq<Event>)
    requires Versions(s) && IsRun(s, events)
    ensures Versions(After(s, events))
    decreases |events|
  {
    if events != [] {
      NextKeepsVersions(s, events[0]);
      RunKeepsVersions(Next(s, events[0]), events[1..]);
    }
  }

  /** A version that is still current is the live object, however long ago it was read. */
  lemma CurrentIsLive(s: Store, name: string, seen: Versioned)
    requires Versions(s) && (name, seen) in s.past && Current(s, name, seen)
    ensures s.objects[name] == seen
  {
    assert (name, s.objects[name]) in s.past;
  }

  /** A guarded write goes through exactly if what was read is the live object, and of the
      kind the writer is for. */
  lemma WritesExactly(s: Store, e: Event)
    requires Versions(s) && Enabled(s, e)
    ensures e.Scrub? ==>
              (ScrubWrites(s, e.name, e.seen, e.opts) <==>
                 Lookup(s.objects, e.name) == Some(e.seen) && Classify(e.seen.hw) == Released)
    ensures e.Apply? ==>
              (ApplyWrites(s, e.sighting, e.seen) <==>
                 Lookup(s.objects, e.sighting.opts.name) == Some(e.seen)
                 && Lookup(e.seen.hw.labels, ManagedBy) == Some("tinkerbell-bmc-discovery-controller"))
  {
    if e.Scrub? {
      if Current(s, e.name, e.seen) { CurrentIsLive(s, e.name, e.seen); }
      if Classify(e.seen.hw) == Released { ScrubExtinguishes(e.seen.hw, e.opts, e.stamp, e.stamp); }
    } else if e.Apply? {
      if Current(s, e.sighting.opts.name, e.seen) { CurrentIsLive(s, e.sighting.opts.name, e.seen); }
    }
  }

  // --- the janitor ----------------------------------------------------------

  /** Over every run and every stale read: a scrub that is written hits an object that
      is released at that very moment, and clears exactly that object. */
  lemma JanitorHitsOnlyReleased(s: Store, events: seq<Event>, e: Event)
    requires Versions(s) && IsRun(s, events) && e.Scrub? && Enabled(After(s, events), e)
    ensures var before := After(s, events);
            if ScrubWrites(before, e.name, e.seen, e.opts)
            then
              && e.name in before.objects && Classify(before.objects[e.name].hw) == Released
              && Next(before, e).objects[e.name].hw == Scrubbed(before.objects[e.name].hw, e.opts, e.stamp)
              && Classify(Next(before, e).objects[e.name].hw) == NeverClaimed
            else Next(before, e) == before
  {
    RunKeepsVersions(s, events);
    var before := After(s, events);
    if ScrubWrites(before, e.name, e.seen, e.opts) {
      CurrentIsLive(before, e.name, e.seen);
      ScrubExtinguishes(e.seen.hw, e.opts, e.stamp, e.stamp);
    }
  }

  /** The same write without the guard. */
  function BlindScrub(s: Store, name: string, seen: Versioned, opts: Options, stamp: string): Store {
    if Classify(seen.hw) == Released && Changes(seen.hw, opts) != []
    then Put(s, name, Scrubbed(seen.hw, opts, stamp)) else s
  }

  /** Why the guard is there.  A released object is read, then claimed with new user
      data: the guarded scrub does nothing, an unguarded one undoes the whole claim. */
  lemma GuardIsNeeded(s: Store, name: string, claim: Hardware, opts: Options, stamp: string)
    requires Versions(s) && name in s.objects && Classify(s.objects[name].hw) == Released
    requires Classify(claim) == Claimed && HasUserData(claim)
    ensures var seen := s.objects[name];
            var claimed := Next(s, Foreign(name, claim));
            var guarded, blind := Scrub(name, seen, opts, stamp), BlindScrub(claimed, name, seen, opts, stamp);
            && Enabled(claimed, guarded) && Next(claimed, guarded) == claimed
            && claimed.objects[name].hw == claim
            && blind.objects[name].hw.userData.None? && Classify(blind.objects[name].hw) == NeverClaimed
  {
    var seen := s.objects[name];
    assert (name, seen) in s.past;
    ScrubExtinguishes(seen.hw, opts, stamp, stamp);
  }

  // --- conservation ---------------------------------------------------------

  predicate Filled(s: Store, name: string) {
    name in s.objects && s.objects[name].hw.userData.Some?
  }

  function One(b: bool): nat {
    if b then 1 else 0
  }

  /** Scrubs of `name` that were written. */
  ghost function Scrubs(s: Store, events: seq<Event>, name: string): nat
    requires IsRun(s, events)
    decreases |events|
  {
    if events == [] then 0
    else
      One(events[0].Scrub? && events[0].name == name && ScrubWrites(s, name, events[0].seen, events[0].opts))
      + Scrubs(Next(s, events[0]), events[1..], name)
  }

  /** Times another actor put user data where there was none. */
  ghost function Fills(s: Store, events: seq<Event>, name: string): nat
    requires IsRun(s, events)
    decreases |events|
  {
    if events == [] then 0
    else
      One(events[0].Foreign? && events[0].name == name && events[0].hw.userData.Some? && !Filled(s, name))
      + Fills(Next(s, events[0]), events[1..], name)
  }

  lemma NextConserves(s: Store, e: Event, name: string)
    requires Versions(s) && Enabled(s, e)
    ensures One(e.Scrub? && e.name == name && ScrubWrites(s, name, e.seen, e.opts)) + One(Filled(Next(s, e), name))
            <= One(e.Foreign? && e.name == name && e.hw.userData.Some? && !Filled(s, name)) + One(Filled(s, name))
  {
    match e
    case Scrub(other, seen, opts, stamp) =>
      if ScrubWrites(s, other, seen, opts) { CurrentIsLive(s, other, seen); }
    case _ =>
  }

  /** Every scrub consumes user data that someone else put there: discovery and the
      janitor itself never supply any. */
  lemma {:induction false} ScrubsConserved(s: Store, events: seq<Event>, name: string)
    requires Versions(s) && IsRun(s, events)
    ensures Scrubs(s, events, name) + One(Filled(After(s, events), name)) <= Fills(s, events, name) + One(Filled(s, name))
    decreases |events|
  {
    if events != [] {
      NextConserves(s, events[0], name);
      NextKeepsVersions(s, events[0]);
      ScrubsConserved(Next(s, events[0]), events[1..], name);
    }
  }

  // --- discovery ------------------------------------------------------------

  /** One discovery event, from the state before it to the state after it: nothing, the
      creation of an absent name, or an update of an object managed at that very moment
      that leaves the other writers' fields and the class alone, and, if a MAC is known,
      any netboot block.  Without one the interfaces can go, but are not replaced. */
  ghost predicate DiscoveryStep(before: Store, after: Store, sighting: Sighting) {
    var name := sighting.opts.name;
    && (forall other :: other != name ==> Lookup(after.objects, other) == Lookup(before.objects, other))
    && (after == before ||
        (name !in before.objects && name in after.objects && Managed(after.objects[name].hw)
         && Classify(after.objects[name].hw) == NeverClaimed) ||
        (name in before.objects && name in after.objects && Managed(before.objects[name].hw)
         && var was, now := before.objects[name].hw, after.objects[name].hw;
            LeftAlone(was, now)
            && if PrimaryMAC(sighting.dev) == "" then now.interfaces == was.interfaces || now.interfaces == []
               else PrimaryNetboot(was).Some? ==> PrimaryNetboot(now) == PrimaryNetboot(was)))
  }

  lemma DiscoveryEvent(s: Store, e: Event)
    requires Versions(s) && Enabled(s, e) && (e.Create? || e.Apply?)
    ensures DiscoveryStep(s, Next(s, e), e.sighting)
  {
    var Sighting(dev, opts, ep) := e.sighting;
    if e.Apply? && ApplyWrites(s, e.sighting, e.seen) {
      CurrentIsLive(s, e.sighting.opts.name, e.seen);
      UpdateKeepsForeignFields(dev, opts, ep, e.stamp, e.seen.hw, e.pruned);
    } else if e.Create? {
      DesiredSays(dev, opts, ep, e.stamp, None);
    }
  }

  /** The object carries this last-seen time. */
  predicate Stamped(s: Store, name: string, stamp: string) {
    name in s.objects && Lookup(s.objects[name].hw.annotations, LastSeen) == Some(stamp)
  }

  lemma DiscoveryStamps(s: Store, e: Event)
    requires Enabled(s, e) && (e.Create? || e.Apply?)
    ensures Next(s, e) == s || Stamped(Next(s, e), e.sighting.opts.name, e.stamp)
  {
  }

  /** Over every run and every stale read, discovery touches only its own objects. */
  lemma DiscoveryTouchesOnlyItsOwn(s: Store, events: seq<Event>, e: Event)
    requires Versions(s) && IsRun(s, events) && Enabled(After(s, events), e)
    requires e.Create? || e.Apply?
    ensures DiscoveryStep(After(s, events), Next(After(s, events), e), e.sighting)
  {
    RunKeepsVersions(s, events);
    DiscoveryEvent(After(s, events), e);
  }

  /** The fields that belong to CAPT, the OS-metadata writer and the janitor. */
  predicate LeftAlone(before: Hardware, after: Hardware) {
    && after.userData == before.userData
    && OperatingSystemOf(after) == OperatingSystemOf(before) && StateOf(after) == StateOf(before)
    && Lookup(after.annotations, ScrubbedAt) == Lookup(before.annotations, ScrubbedAt)
    && Classify(after) == Classify(before)
  }

  /** PXE is switched off on the primary interface. */
  predicate Disarmed(s: Store, name: string) {
    && name in s.objects && PrimaryNetboot(s.objects[name].hw).Some?
    && PrimaryNetboot(s.objects[name].hw).value.allowPXE == Some(false)
  }

  /** Nobody but discovery could arm it: other writers keep it off, the object is not
      deleted, and the janitor's baseline is off. */
  predicate KeepsOff(e: Event, name: string) {
    match e
    case Foreign(other, hw) =>
      other == name ==> PrimaryNetboot(hw).Some? && PrimaryNetboot(hw).value.allowPXE == Some(false)
    case Delete(other) => other != name
    case Scrub(other, _, opts, _) => other == name ==> !opts.baselineAllowPXE
    case _ => true
  }

  /** A sync without a MAC leaves the interfaces out, and the apply prunes them. */
  predicate DropsInterfaces(s: Store, e: Event, name: string) {
    && e.Apply? && e.sighting.opts.name == name && ApplyWrites(s, e.sighting, e.seen)
    && PrimaryMAC(e.sighting.dev) == "" && Interfaces in e.pruned
  }

  lemma NextStaysDisarmed(s: Store, e: Event, name: string)
    requires Versions(s) && Enabled(s, e) && KeepsOff(e, name) && Disarmed(s, name)
    ensures Disarmed(Next(s, e), name) <==> !DropsInterfaces(s, e, name)
  {
    if e.Scrub? {
      ScrubStaysDisarmed(s, e, name);
    } else if e.Apply? {
      ApplyStaysDisarmed(s, e, name);
    }
  }

  lemma ScrubStaysDisarmed(s: Store, e: Event, name: string)
    requires Versions(s) && Enabled(s, e) && KeepsOff(e, name) && Disarmed(s, name) && e.Scrub?
    ensures Disarmed(Next(s, e), name)
  {
    if ScrubWrites(s, e.name, e.seen, e.opts) { CurrentIsLive(s, e.name, e.seen); }
  }

  lemma ApplyStaysDisarmed(s: Store, e: Event, name: string)
    requires Versions(s) && Enabled(s, e) && Disarmed(s, name) && e.Apply?
    ensures Disarmed(Next(s, e), name) <==> !DropsInterfaces(s, e, name)
  {
    if ApplyWrites(s, e.sighting, e.seen) {
      CurrentIsLive(s, e.sighting.opts.name, e.seen);
      UpdateKeepsForeignFields(e.sighting.dev, e.sighting.opts, e.sighting.ep, e.stamp, e.seen.hw, e.pruned);
    }
  }

  ghost predicate DisarmedThroughout(s: Store, events: seq<Event>, name: string)
    requires IsRun(s, events)
    decreases |events|
  {
    Disarmed(s, name) && (events == [] || DisarmedThroughout(Next(s, events[0]), events[1..], name))
  }

  ghost predicate NeverDropped(s: Store, events: seq<Event>, name: string)
    requires IsRun(s, events)
    decreases |events|
  {
    events == [] || (!DropsInterfaces(s, events[0], name) && NeverDropped(Next(s, events[0]), events[1..], name))
  }

  /** Once off, PXE stays off through an interleaving in which no one else switches it on
      exactly if no sync without a MAC drops the interfaces. */
  lemma {:induction false} StaysDisarmedExactly(s: Store, events: seq<Event>, name: string)
    requires Versions(s) && IsRun(s, events) && Disarmed(s, name)
    requires forall i :: 0 <= i < |events| ==> KeepsOff(events[i], name)
    ensures DisarmedThroughout(s, events, name) <==> NeverDropped(s, events, name)
    ensures NeverDropped(s, events, name) ==> Disarmed(After(s, events), name)
    decreases |events|
  {
    if events != [] {
      NextStaysDisarmed(s, events[0], name);
      NextKeepsVersions(s, events[0]);
      if !DropsInterfaces(s, events[0], name) {
        StaysDisarmedExactly(Next(s, events[0]), events[1..], name);
      }
    }
  }

  /** This sync of `name` knows a MAC. */
  predicate KnowsMAC(e: Event, name: string) {
    e.Apply? && e.sighting.opts.name == name ==> PrimaryMAC(e.sighting.dev) != ""
  }

  /** So discovery never re-arms PXE as long as its inventories report a MAC. */
  lemma {:induction false} DiscoveryNeverRearms(s: Store, events: seq<Event>, name: string)
    requires Versions(s) && IsRun(s, events) && Disarmed(s, name)
    requires forall i :: 0 <= i < |events| ==> KeepsOff(events[i], name) && KnowsMAC(events[i], name)
    ensures DisarmedThroughout(s, events, name) && Disarmed(After(s, events), name)
    decreases |events|
  {
    if events != [] {
      NextStaysDisarmed(s, events[0], name);
      NextKeepsVersions(s, events[0]);
      DiscoveryNeverRearms(Next(s, events[0]), events[1..], name);
    }
  }

  /** Otherwise it can.  Where discovery is the interfaces' only owner, a sync without a MAC
      takes them off the object, and the next one with a MAC arms a machine that was off. */
  lemma RearmsAfterDrop(s: Store, without: Sighting, known: Sighting, stamp: string)
    requires Versions(s) && Disarmed(s, without.opts.name) && Managed(s.objects[without.opts.name].hw)
    requires known.opts == without.opts && PrimaryMAC(without.dev) == "" && PrimaryMAC(known.dev) != ""
    ensures var name := without.opts.name;
            var drop := Apply(without, s.objects[name], stamp, {Interfaces});
            && Enabled(s, drop) && name in Next(s, drop).objects
            && var arm := Apply(known, Next(s, drop).objects[name], stamp, {});
               && Enabled(Next(s, drop), arm) && KeepsOff(drop, name) && KeepsOff(arm, name)
               && var after := Next(Next(s, drop), arm);
                  name in after.objects && PrimaryNetboot(after.objects[name].hw) == Some(ARMED)
  {
    var name := without.opts.name;
    assert (name, s.objects[name]) in s.past;
    var drop := Apply(without, s.objects[name], stamp, {Interfaces});
    var t := Next(s, drop);
    assert t.objects[name].hw.interfaces == [] && (name, t.objects[name]) in t.past;
  }

  lemma {:induction false} RunAppend(s: Store, events: seq<Event>, e: Event)
    requires IsRun(s, events) && Enabled(After(s, events), e)
    ensures IsRun(s, events + [e]) && After(s, events + [e]) == Next(After(s, events), e)
    decreases |events|
  {
    if events == [] {
      assert (events + [e])[1..] == [];
    } else {
      RunAppend(Next(s, events[0]), events[1..], e);
      assert (events + [e])[1..] == events[1..] + [e];
    }
  }
}
