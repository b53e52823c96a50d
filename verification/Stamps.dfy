/** Theorems about the annotations over whole runs: which are written, in which
    order, how often, and which are left alone. */
module Stamps {
  import opened Common
  import opened Machines
  import opened Protocol
  import opened System
  import opened PhaseOrder

  // --- who writes what ------------------------------------------------------

  /** This event is a patch of `name`'s reconcile landing in the store. */
  predicate PatchLands(s: State, e: Event, name: string) {
    && e.Step? && e.name == name && e.applied
    && name in s.nodes && s.nodes[name].proc.Running? && Patching(s.nodes[name].proc.stage)
  }

  /** The stored Machine changes only by a Put or by its own reconcile's patch. */
  lemma MachineAfterEvent(cfg: Config, s: State, e: Event, name: string)
    requires Enabled(cfg, s, e) && name in s.nodes && e != Drop(name)
    ensures name in Apply(cfg, s, e).nodes
    ensures Apply(cfg, s, e).nodes[name].machine ==
            if PatchLands(s, e, name) then Served(s.nodes[name].machine, PendingOf(cfg, s.nodes[name].proc))
            else if e.Put? && e.name == name then e.machine
            else s.nodes[name].machine
  {
  }

  lemma OwnKeysAfterEvent(cfg: Config, s: State, e: Event, name: string)
    requires Inv(cfg, s) && Enabled(cfg, s, e) && name in s.nodes && e != Drop(name)
    ensures name in Apply(cfg, s, e).nodes
    ensures SameOwnKeys(Apply(cfg, s, e).nodes[name].machine.annotations,
                        if PatchLands(s, e, name)
                        then Target(cfg, s.nodes[name].proc.stage, s.nodes[name].proc.snap.annotations)
                        else s.nodes[name].machine.annotations)
  {
    MachineAfterEvent(cfg, s, e, name);
    if PatchLands(s, e, name) {
      OwnKeysAfterPatch(cfg, name, s.nodes[name]);
    }
  }

  /** Deleting, reset concluded, hook gone: this controller is finished with the Machine. */
  predicate Released(m: Machine) {
    m.deletion.Some? && ResetKey in m.annotations && !HasHook(m)
  }

  /** What is never undone between two moments of a Machine's life. */
  predicate Later(cfg: Config, m: Machine, l: Machine) {
    && (EtcdKey in m.annotations ==> Lookup(l.annotations, EtcdKey) == Lookup(m.annotations, EtcdKey))
    && (ResetKey in m.annotations ==> Lookup(l.annotations, ResetKey) == Lookup(m.annotations, ResetKey))
    && (ObservedAt(cfg, m.annotations).Some? ==>
          Lookup(l.annotations, ObservedAtKey) == Lookup(m.annotations, ObservedAtKey))
    && (HasHook(m) && !HasHook(l) ==> Released(l))
    && (Released(m) ==> Released(l))
    && (m.deletion.Some? ==> l.deletion == m.deletion)
    && l.controlPlane == m.controlPlane
  }

  lemma EventIsLater(cfg: Config, s: State, e: Event, name: string)
    requires Inv(cfg, s) && Enabled(cfg, s, e) && name in s.nodes && e != Drop(name)
    ensures name in Apply(cfg, s, e).nodes
    ensures Later(cfg, s.nodes[name].machine, Apply(cfg, s, e).nodes[name].machine)
  {
    MachineAfterEvent(cfg, s, e, name);
    OwnKeysAfterEvent(cfg, s, e, name);
    if PatchLands(s, e, name) {
      TargetOwnKeys(cfg, s.nodes[name].proc.stage, s.nodes[name].proc.snap.annotations);
    }
  }

  /** Stamps are write-once, a deletion is final, and the hook goes away only behind a
      reset stamp and never comes back: over every run, with crashes anywhere. */
  lemma {:induction false} RunIsLater(cfg: Config, s: State, events: seq<Event>, name: string)
    requires WholeSecondCodec(cfg)
    requires Inv(cfg, s) && IsRun(cfg, s, events) && name in s.nodes && Drop(name) !in events
    ensures name in After(cfg, s, events).nodes
    ensures Later(cfg, s.nodes[name].machine, After(cfg, s, events).nodes[name].machine)
    decreases |events|
  {
    if events != [] {
      assert events[0] in events;
      var next := Apply(cfg, s, events[0]);
      EventIsLater(cfg, s, events[0], name);
      EventKeepsInv(cfg, s, events[0]);
      RunIsLater(cfg, next, events[1..], name);
    }
  }

  /** The calls that read or change etcd membership. */
  predicate MembershipCall(r: Request) {
    r.ServiceInfo? || r.MemberList? || r.ForfeitLeadership? || r.LeaveCluster? || r.RemoveMember?
  }

  /** At every moment of every run: no membership call is made behind a durable etcd
      stamp, no reset behind a durable reset stamp, and a control-plane Machine has its
      etcd stamp before its reset stamp. */
  lemma CrashSafePhaseOrder(cfg: Config, s: State, events: seq<Event>, name: string)
    requires WholeSecondCodec(cfg)
    requires Start(s) && IsRun(cfg, s, events) && name in After(cfg, s, events).nodes
    ensures var node := After(cfg, s, events).nodes[name];
            && (node.machine.controlPlane && ResetKey in node.machine.annotations ==> EtcdKey in node.machine.annotations)
            && (!node.proc.Idle? ==>
                  && (MembershipCall(PendingOf(cfg, node.proc)) ==> EtcdKey !in node.machine.annotations)
                  && (PendingOf(cfg, node.proc).ResetGeneric? ==>
                        && ResetKey !in node.machine.annotations
                        && (node.machine.controlPlane ==> EtcdKey in node.machine.annotations)))
  {
    StartInv(cfg, s);
    RunKeepsInv(cfg, s, events);
    var node := After(cfg, s, events).nodes[name];
    assert NodeInv(cfg, name, node);
  }

  // --- how often ------------------------------------------------------------

  function One(b: bool): nat {
    if b then 1 else 0
  }

  /** The writes still to come: hook, observed-at, etcd, reset, release. */
  function Rank(cfg: Config, m: Machine): nat {
    if ResetKey in m.annotations && !HasHook(m) then 0
    else
      1 + One(!HasHook(m)) + One(ObservedAt(cfg, m.annotations).None?)
      + One(EtcdKey !in m.annotations) + One(ResetKey !in m.annotations)
  }

  /** The controller's own events that changed the stored Machine. */
  ghost function Writes(cfg: Config, s: State, events: seq<Event>, name: string): nat
    requires IsRun(cfg, s, events)
    decreases |events|
  {
    if events == [] then 0
    else
      var next := Apply(cfg, s, events[0]);
      One(events[0].Step? && events[0].name == name && name in s.nodes && name in next.nodes
          && next.nodes[name].machine != s.nodes[name].machine)
      + Writes(cfg, next, events[1..], name)
  }

  /** A patch that lands lowers the rank. */
  lemma PatchLowersRank(cfg: Config, name: string, node: Node)
    requires WholeSecondCodec(cfg)
    requires NodeInv(cfg, name, node) && node.proc.Running? && Patching(node.proc.stage)
    ensures Rank(cfg, Served(node.machine, PendingOf(cfg, node.proc))) < Rank(cfg, node.machine)
  {
    OwnKeysAfterPatch(cfg, name, node);
    TargetOwnKeys(cfg, node.proc.stage, node.proc.snap.annotations);
  }

  lemma EventLowersRank(cfg: Config, s: State, e: Event, name: string)
    requires WholeSecondCodec(cfg)
    requires Inv(cfg, s) && Enabled(cfg, s, e) && name in s.nodes && e != Drop(name)
    ensures name in Apply(cfg, s, e).nodes
    ensures var m, m' := s.nodes[name].machine, Apply(cfg, s, e).nodes[name].machine;
            Rank(cfg, m') + One(e.Step? && e.name == name && m' != m) <= Rank(cfg, m)
  {
    MachineAfterEvent(cfg, s, e, name);
    if PatchLands(s, e, name) {
      assert NodeInv(cfg, name, s.nodes[name]);
      PatchLowersRank(cfg, name, s.nodes[name]);
    }
  }

  /** However often it crashes or fails, the controller changes a Machine at most
      five times: the writes made and the writes left never exceed the writes due. */
  lemma {:induction false} BoundedWrites(cfg: Config, s: State, events: seq<Event>, name: string)
    requires WholeSecondCodec(cfg)
    requires Inv(cfg, s) && IsRun(cfg, s, events) && name in s.nodes && Drop(name) !in events
    ensures name in After(cfg, s, events).nodes
    ensures Writes(cfg, s, events, name) + Rank(cfg, After(cfg, s, events).nodes[name].machine)
            <= Rank(cfg, s.nodes[name].machine) <= 5
    decreases |events|
  {
    if events != [] {
      assert events[0] in events;
      EventLowersRank(cfg, s, events[0], name);
      EventKeepsInv(cfg, s, events[0]);
      BoundedWrites(cfg, Apply(cfg, s, events[0]), events[1..], name);
    }
  }

  /** Once released, reconciles of the Machine do nothing at all, to it or to etcd,
      although its condition may still show the pre-terminate wait. */
  lemma ReleasedIsFinal(cfg: Config, s: State, events: seq<Event>, e: Event, name: string)
    requires WholeSecondCodec(cfg)
    requires Inv(cfg, s) && IsRun(cfg, s, events) && name in s.nodes && Drop(name) !in events
    requires Released(s.nodes[name].machine)
    requires e.Step? && e.name == name && Enabled(cfg, After(cfg, s, events), e)
    ensures var before := After(cfg, s, events);
            && name in before.nodes
            && var after := Apply(cfg, before, e);
               name in after.nodes && after.etcd == before.etcd
               && after.nodes[name].machine == before.nodes[name].machine && after.nodes[name].proc.Idle?
  {
    RunIsLater(cfg, s, events, name);
    RunKeepsInv(cfg, s, events);
    var before := After(cfg, s, events);
    assert NodeInv(cfg, name, before.nodes[name]);
    assert before.nodes[name].proc.Reading?;
  }

  // --- deadlines ------------------------------------------------------------

  /** The reconcile measures its deadlines from `stage.obs`. */
  predicate UsesDeadline(stage: Stage) {
    !stage.StampHook? && !stage.Credentials? && !stage.StampObserved? && !stage.Release?
  }

  /** Every reconcile of a Machine measures from the same moment, however many restarts
      lie between: the one that stamped it and all later ones. */
  lemma DeadlineStable(cfg: Config, s: State, events: seq<Event>, name: string)
    requires WholeSecondCodec(cfg)
    requires Inv(cfg, s) && IsRun(cfg, s, events) && name in s.nodes && Drop(name) !in events
    requires s.nodes[name].proc.Running? && UsesDeadline(s.nodes[name].proc.stage)
    ensures name in After(cfg, s, events).nodes
    ensures var proc := After(cfg, s, events).nodes[name].proc;
            proc.Running? && UsesDeadline(proc.stage) ==> proc.stage.obs == s.nodes[name].proc.stage.obs
  {
    RunIsLater(cfg, s, events, name);
    RunKeepsInv(cfg, s, events);
    assert NodeInv(cfg, name, s.nodes[name]);
    var node := After(cfg, s, events).nodes[name];
    assert NodeInv(cfg, name, node);
  }

  /** Why the stamp is truncated first: a codec that writes no fraction gives back
      exactly the times that have none. */
  lemma OnlyWholeSecondsSurvive(cfg: Config, t: int)
    requires WholeSecondCodec(cfg)
    requires cfg.format(t) == cfg.format(Truncate(t))
    ensures cfg.parse(cfg.format(t)) == Some(t) <==> t == Truncate(t)
  {
    assert Truncate(t) % SECOND == 0;
  }

  // --- other writers' annotations -------------------------------------------

  /** A key's value if only everyone else's writes happened. */
  function OthersLeave(events: seq<Event>, name: string, k: Key, value: Option<string>): Option<string>
    decreases |events|
  {
    if events == [] then value
    else
      OthersLeave(events[1..], name, k,
                  if events[0].Put? && events[0].name == name then Lookup(events[0].machine.annotations, k) else value)
  }

  /** What a patch means for a key that is not the controller's own. */
  lemma TargetElsewhere(cfg: Config, stage: Stage, ann: Annotations, k: Key)
    requires !OwnKey(k)
    ensures Lookup(Target(cfg, stage, ann), k) ==
            if (stage.StampHook? || stage.Release?) && LegacyHook(ann, k) then None else Lookup(ann, k)
  {
  }

  lemma ServedElsewhere(cfg: Config, stage: Stage, snap: Machine, stored: Machine, k: Key)
    requires Patching(stage) && !OwnKey(k)
    ensures Lookup(Served(stored, Pending(cfg, stage, snap)).annotations, k) ==
            if (stage.StampHook? || stage.Release?) && LegacyHook(snap.annotations, k) then None
            else Lookup(stored.annotations, k)
  {
    TargetElsewhere(cfg, stage, snap.annotations, k);
    MergeDiffAt(stored.annotations, snap.annotations, Target(cfg, stage, snap.annotations), k);
  }

  /** A landed patch touches another pre-terminate key only by deleting it, and exactly
      when the reconcile's own copy saw this controller's value there and the patch
      stamps or releases the hook. */
  lemma PreTerminateKeyAfterPatch(cfg: Config, s: State, e: Event, name: string, k: Key)
    requires Enabled(cfg, s, e) && PatchLands(s, e, name)
    requires k.PreTerminate? && k != HOOK
    ensures var proc, stored := s.nodes[name].proc, s.nodes[name].machine.annotations;
            Lookup(Apply(cfg, s, e).nodes[name].machine.annotations, k) ==
            if (proc.stage.StampHook? || proc.stage.Release?) && LegacyHook(proc.snap.annotations, k) then None
            else Lookup(stored, k)
  {
    MachineAfterEvent(cfg, s, e, name);
    ServedElsewhere(cfg, s.nodes[name].proc.stage, s.nodes[name].proc.snap, s.nodes[name].machine, k);
  }

  /** Neither the store nor a running copy holds this controller's value under `k`. */
  predicate NoLeftover(s: State, name: string, k: Key)
    requires name in s.nodes
  {
    && Lookup(s.nodes[name].machine.annotations, k) != Some(HOOK_VALUE)
    && (s.nodes[name].proc.Running? ==> Lookup(s.nodes[name].proc.snap.annotations, k) != Some(HOOK_VALUE))
  }

  /** A write of this Machine that puts no leftover under `k`. */
  predicate WritesNoLeftover(e: Event, name: string, k: Key) {
    e.Put? && e.name == name ==> Lookup(e.machine.annotations, k) != Some(HOOK_VALUE)
  }

  /** A patch sweeps `k` away, on the word of the reconcile's copy. */
  predicate Sweeps(s: State, e: Event, name: string, k: Key) {
    && PatchLands(s, e, name)
    && (s.nodes[name].proc.stage.StampHook? || s.nodes[name].proc.stage.Release?)
    && LegacyHook(s.nodes[name].proc.snap.annotations, k) && k in s.nodes[name].machine.annotations
  }

  lemma KeyAfterEvent(cfg: Config, s: State, e: Event, name: string, k: Key)
    requires Enabled(cfg, s, e) && name in s.nodes && e != Drop(name) && !OwnKey(k)
    ensures name in Apply(cfg, s, e).nodes
    ensures Lookup(Apply(cfg, s, e).nodes[name].machine.annotations, k) ==
            if e.Put? && e.name == name then Lookup(e.machine.annotations, k)
            else if Sweeps(s, e, name, k) then None
            else Lookup(s.nodes[name].machine.annotations, k)
  {
    MachineAfterEvent(cfg, s, e, name);
    if PatchLands(s, e, name) {
      ServedElsewhere(cfg, s.nodes[name].proc.stage, s.nodes[name].proc.snap, s.nodes[name].machine, k);
    }
  }

  /** At every moment of the run, the key holds what the others alone would have left. */
  ghost predicate PreservedThroughout(cfg: Config, s: State, events: seq<Event>, name: string, k: Key, value: Option<string>)
    requires IsRun(cfg, s, events)
    decreases |events|
  {
    && name in s.nodes && Lookup(s.nodes[name].machine.annotations, k) == value
    && (events == [] ||
        PreservedThroughout(cfg, Apply(cfg, s, events[0]), events[1..], name, k,
                            if events[0].Put? && events[0].name == name then Lookup(events[0].machine.annotations, k) else value))
  }

  ghost predicate NeverSwept(cfg: Config, s: State, events: seq<Event>, name: string, k: Key)
    requires IsRun(cfg, s, events)
    decreases |events|
  {
    events == [] || (!Sweeps(s, events[0], name, k) && NeverSwept(cfg, Apply(cfg, s, events[0]), events[1..], name, k))
  }

  /** Over every run, an annotation other than the controller's four keys is preserved
      exactly if no patch of the hook sweeps it as a leftover that its copy saw. */
  lemma {:induction false} PreservedExactly(cfg: Config, s: State, events: seq<Event>, name: string, k: Key)
    requires IsRun(cfg, s, events) && name in s.nodes && Drop(name) !in events && k !in {HOOK, ObservedAtKey, EtcdKey, ResetKey}
    ensures PreservedThroughout(cfg, s, events, name, k, Lookup(s.nodes[name].machine.annotations, k))
            <==> NeverSwept(cfg, s, events, name, k)
    decreases |events|
  {
    if events != [] {
      assert events[0] in events;
      KeyAfterEvent(cfg, s, events[0], name, k);
      if !Sweeps(s, events[0], name, k) {
        PreservedExactly(cfg, Apply(cfg, s, events[0]), events[1..], name, k);
      }
    }
  }

  lemma CopyAfterReply(cfg: Config, stage: Stage, snap: Machine, reply: Reply, now: int, k: Key)
    requires WholeSecondCodec(cfg) && StageInv(cfg, stage, snap) && Durable(snap)
    requires !OwnKey(k) && Lookup(snap.annotations, k) != Some(HOOK_VALUE)
    ensures var next := Advance(cfg, stage, snap, reply, now);
            next.Proceed? ==> Lookup(next.snap.annotations, k) != Some(HOOK_VALUE)
  {
    AdvanceKeeps(cfg, stage, snap, reply, now);
    TargetElsewhere(cfg, stage, snap.annotations, k);
  }

  /** A step adds no value to a copy's pre-terminate keys other than the hook. */
  lemma CopyAfterStep(cfg: Config, s: State, e: Event, name: string, k: Key)
    requires WholeSecondCodec(cfg) && Inv(cfg, s) && e.Step? && e.name == name && Enabled(cfg, s, e)
    requires k.PreTerminate? && k != HOOK && NoLeftover(s, name, k)
    ensures var proc := Stepped(cfg, s, name, e.reply, e.applied).proc;
            proc.Running? ==> Lookup(proc.snap.annotations, k) != Some(HOOK_VALUE)
  {
    var node := s.nodes[name];
    assert NodeInv(cfg, name, node);
    if node.proc.Running? {
      CopyAfterReply(cfg, node.proc.stage, node.proc.snap, e.reply, s.now, k);
    } else if e.reply.TheMachine? {
      EnterMachineKeeps(cfg, e.reply.machine, s.now);
    }
  }

  lemma StillNoLeftover(cfg: Config, s: State, e: Event, name: string, k: Key)
    requires WholeSecondCodec(cfg) && Inv(cfg, s) && Enabled(cfg, s, e) && name in s.nodes && e != Drop(name)
    requires k.PreTerminate? && k != HOOK && NoLeftover(s, name, k) && WritesNoLeftover(e, name, k)
    ensures name in Apply(cfg, s, e).nodes && NoLeftover(Apply(cfg, s, e), name, k)
  {
    KeyAfterEvent(cfg, s, e, name, k);
    if e.Step? && e.name == name { CopyAfterStep(cfg, s, e, name, k); }
  }

  /** Over every run, each annotation other than the controller's four keys ends as the
      other writers alone would have left it, other controllers' hooks included; under the
      pre-terminate prefix as long as nobody leaves this controller's own value there. */
  lemma {:induction false} ForeignAnnotationsPreserved(cfg: Config, s: State, events: seq<Event>, name: string, k: Key)
    requires WholeSecondCodec(cfg) && Inv(cfg, s)
    requires IsRun(cfg, s, events) && name in s.nodes && Drop(name) !in events && k !in {HOOK, ObservedAtKey, EtcdKey, ResetKey}
    requires k.PreTerminate? ==> NoLeftover(s, name, k) && forall e <- events :: WritesNoLeftover(e, name, k)
    ensures name in After(cfg, s, events).nodes
    ensures Lookup(After(cfg, s, events).nodes[name].machine.annotations, k)
            == OthersLeave(events, name, k, Lookup(s.nodes[name].machine.annotations, k))
    decreases |events|
  {
    if events != [] {
      assert events[0] in events;
      KeyAfterEvent(cfg, s, events[0], name, k);
      EventKeepsInv(cfg, s, events[0]);
      if k.PreTerminate? { StillNoLeftover(cfg, s, events[0], name, k); }
      ForeignAnnotationsPreserved(cfg, Apply(cfg, s, events[0]), events[1..], name, k);
    }
  }

  /** The keys under the pre-terminate prefix: each of them parks the deletion. */
  function GateKeys(ann: Annotations): set<Key> {
    set k <- ann.Keys | k.PreTerminate?
  }

  /** The release patch opens the gate exactly when every hook stored at that moment
      is the controller's own or was a leftover in the reconcile's copy. */
  lemma ReleaseOpensGate(cfg: Config, s: State, e: Event, name: string)
    requires Inv(cfg, s) && Enabled(cfg, s, e) && PatchLands(s, e, name) && s.nodes[name].proc.stage.Release?
    ensures var snap, stored := s.nodes[name].proc.snap.annotations, s.nodes[name].machine.annotations;
            var after := Apply(cfg, s, e).nodes[name].machine.annotations;
            && (GateKeys(after) == {} <==> forall k <- GateKeys(stored) :: k == HOOK || LegacyHook(snap, k))
            && (GateKeys(stored) == GateKeys(snap) ==> GateKeys(after) == {})
  {
    var snap, stored := s.nodes[name].proc.snap.annotations, s.nodes[name].machine.annotations;
    var after := Apply(cfg, s, e).nodes[name].machine.annotations;
    forall k: Key | k.PreTerminate?
      ensures k in after <==> k in stored && k != HOOK && !LegacyHook(snap, k)
    {
      if k == HOOK {
        OwnKeysAfterEvent(cfg, s, e, name);
      } else {
        PreTerminateKeyAfterPatch(cfg, s, e, name, k);
        assert Lookup(after, k).Some? <==> k in after;
      }
    }
    assert NodeInv(cfg, name, s.nodes[name]);
    assert forall k <- GateKeys(snap) :: k != HOOK && !LegacyHook(snap, k) ==> ForeignHook(snap, k);
    if GateKeys(after) == {} {
      forall k <- GateKeys(stored) ensures k == HOOK || LegacyHook(snap, k) {
        assert k !in GateKeys(after);
      }
    }
  }

  /** The copy's say is final: a hook whose leftover value another controller replaced
      after the copy was read is deleted all the same.  So "only keys with this
      controller's value are removed" holds of the copy, not of the store. */
  lemma ReplacedLeftoverIsDeleted(cfg: Config, s: State, name: string, k: Key, value: string)
    requires Inv(cfg, s) && name in s.nodes && s.nodes[name].proc.Running? && s.nodes[name].proc.stage.Release?
    requires LegacyHook(s.nodes[name].proc.snap.annotations, k) && value != HOOK_VALUE
    ensures var stored := s.nodes[name].machine;
            var claim := Put(name, stored.(annotations := stored.annotations[k := value]));
            var release := Step(name, Ok, true);
            && Enabled(cfg, s, claim)
            && var claimed := Apply(cfg, s, claim);
               && ForeignHook(claimed.nodes[name].machine.annotations, k)
               && Enabled(cfg, claimed, release)
               && k !in Apply(cfg, claimed, release).nodes[name].machine.annotations
  {
    var stored := s.nodes[name].machine;
    var claim := Put(name, stored.(annotations := stored.annotations[k := value]));
    assert NodeInv(cfg, name, s.nodes[name]);
    var claimed := Apply(cfg, s, claim);
    PreTerminateKeyAfterPatch(cfg, claimed, Step(name, Ok, true), name, k);
  }
}
