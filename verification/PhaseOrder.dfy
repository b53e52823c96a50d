/** What every event keeps, for one Machine and its reconcile, and what follows for
    whole runs: phases in order across crashes, write-once stamps, a bounded number
    of writes, other writers' annotations untouched. */
module PhaseOrder {
  import opened Common
  import opened Machines
  import opened Protocol
  import opened System

  // --- the invariant --------------------------------------------------------

  predicate SameOwnKeys(a: Annotations, b: Annotations) {
    && Lookup(a, HOOK) == Lookup(b, HOOK)
    && Lookup(a, ObservedAtKey) == Lookup(b, ObservedAtKey)
    && Lookup(a, EtcdKey) == Lookup(b, EtcdKey)
    && Lookup(a, ResetKey) == Lookup(b, ResetKey)
  }

  /** What a stored Machine's stamps say about each other. */
  predicate Durable(m: Machine) {
    && (EtcdKey in m.annotations || ResetKey in m.annotations ==> m.deletion.Some?)
    && (m.controlPlane && ResetKey in m.annotations ==> EtcdKey in m.annotations)
  }

  /** The copy passed every gate: deleting, hooked, at the wait, alone. */
  predicate AtGate(m: Machine) {
    m.deletion.Some? && HasHook(m) && AtPreTerminate(m) && !HasOtherPreTerminateHooks(m)
  }

  predicate EtcdPhase(stage: Stage) {
    stage.HoldCheck? || stage.EtcdConfig? || stage.PeerList? || Probing(stage) || Acting(stage)
  }

  predicate StageInv(cfg: Config, stage: Stage, snap: Machine) {
    && WellIndexed(stage)
    && match stage
       case StampHook => !HasHook(snap) && ResetKey !in snap.annotations
       case Credentials => HasHook(snap)
       case StampObserved(obs) =>
         AtGate(snap) && obs % SECOND == 0 && ObservedAt(cfg, snap.annotations).None?
       case Release =>
         AtGate(snap) && ResetKey in snap.annotations
       case _ =>
         && AtGate(snap)
         && ObservedAt(cfg, snap.annotations) == Some(stage.obs)
         && (EtcdPhase(stage) ==> snap.controlPlane && EtcdKey !in snap.annotations)
         && (stage.StampEtcd? ==> EtcdKey !in snap.annotations && (snap.controlPlane || stage.etcd.SkippedClusterDelete?))
         && (Resetting(stage) || stage.StampReset? ==>
               ResetKey !in snap.annotations && (snap.controlPlane ==> EtcdKey in snap.annotations))
  }

  predicate NodeInv(cfg: Config, name: string, node: Node) {
    && node.machine.name == name
    && Durable(node.machine)
    && match node.proc
       case Idle => true
       case Reading => true
       case Running(stage, snap, _) =>
         && snap.name == name
         && Durable(snap)
         && SameOwnKeys(snap.annotations, node.machine.annotations)
         && snap.controlPlane == node.machine.controlPlane
         && (snap.deletion.Some? ==> node.machine.deletion == snap.deletion)
         && StageInv(cfg, stage, snap)
  }

  ghost predicate Inv(cfg: Config, s: State) {
    forall name <- s.nodes :: NodeInv(cfg, name, s.nodes[name])
  }

  /** Where a run may start: nothing in flight. */
  ghost predicate Start(s: State) {
    forall name <- s.nodes :: s.nodes[name].machine.name == name && s.nodes[name].proc.Idle? && Durable(s.nodes[name].machine)
  }

  lemma StartInv(cfg: Config, s: State)
    requires Start(s)
    ensures Inv(cfg, s)
  {
  }

  // --- one reply ------------------------------------------------------------

  /** Editing keys outside the pre-terminate prefix adds no foreign hook. */
  lemma SameForeignHooks(m: Machine, ann: Annotations)
    requires forall k: Key :: k.PreTerminate? ==> Lookup(ann, k) == Lookup(m.annotations, k)
    ensures HasOtherPreTerminateHooks(m.(annotations := ann)) == HasOtherPreTerminateHooks(m)
  {
    forall k ensures ForeignHook(ann, k) == ForeignHook(m.annotations, k) {
      if k.PreTerminate? {
        assert Lookup(ann, k) == Lookup(m.annotations, k);
      }
    }
    assert forall k :: ForeignHook(ann, k) ==> k in ann;
    assert forall k :: ForeignHook(m.annotations, k) ==> k in m.annotations;
  }

  lemma EnterMachineKeeps(cfg: Config, m: Machine, now: int)
    requires Durable(m)
    ensures var next := EnterMachine(cfg, m, now);
            next.Proceed? ==> next.snap == m && StageInv(cfg, next.stage, m)
  {
  }

  lemma EnterResetKeeps(cfg: Config, m: Machine, obs: int)
    requires AtGate(m) && ObservedAt(cfg, m.annotations) == Some(obs)
    requires m.controlPlane ==> EtcdKey in m.annotations
    ensures var next := EnterReset(m, obs);
            next.Proceed? ==> next.snap == m && StageInv(cfg, next.stage, m)
  {
  }

  lemma PatchKeeps(cfg: Config, stage: Stage, snap: Machine)
    requires WholeSecondCodec(cfg)
    requires Patching(stage) && StageInv(cfg, stage, snap)
    ensures var after := snap.(annotations := Target(cfg, stage, snap.annotations));
            var next := AfterPatch(cfg, stage, after);
            next.Proceed? ==> next.snap == after && StageInv(cfg, next.stage, after)
  {
    if stage.StampHook? || stage.Release? {
      assert HasHook(snap.(annotations := WithHook(snap.annotations)));
    } else {
      StampKeeps(cfg, stage, snap);
    }
  }

  /** A stamp keeps the copy at its gate. */
  lemma StampKeepsGate(cfg: Config, stage: Stage, snap: Machine)
    requires WholeSecondCodec(cfg)
    requires stage.StampObserved? || stage.StampEtcd? || stage.StampReset?
    requires StageInv(cfg, stage, snap)
    ensures var after := snap.(annotations := Target(cfg, stage, snap.annotations));
            AtGate(after) && ObservedAt(cfg, after.annotations) == Some(stage.obs)
  {
    SameForeignHooks(snap, Target(cfg, stage, snap.annotations));
  }

  lemma StampKeeps(cfg: Config, stage: Stage, snap: Machine)
    requires WholeSecondCodec(cfg)
    requires stage.StampObserved? || stage.StampEtcd? || stage.StampReset?
    requires StageInv(cfg, stage, snap)
    ensures var after := snap.(annotations := Target(cfg, stage, snap.annotations));
            var next := AfterPatch(cfg, stage, after);
            next.Proceed? ==> next.snap == after && StageInv(cfg, next.stage, after)
  {
    StampKeepsGate(cfg, stage, snap);
    if stage.StampEtcd? {
      EnterResetKeeps(cfg, snap.(annotations := Target(cfg, stage, snap.annotations)), stage.obs);
    }
  }

  lemma ProbeKeeps(cfg: Config, stage: Stage, snap: Machine, reply: Reply, now: int)
    requires StageInv(cfg, stage, snap) && Probing(stage)
    ensures var next := AfterProbe(cfg, stage, snap, reply, now);
            next.Proceed? ==> StageInv(cfg, next.stage, next.snap) && next.snap == snap
  {
  }

  lemma ActKeeps(cfg: Config, stage: Stage, snap: Machine, reply: Reply, now: int)
    requires StageInv(cfg, stage, snap) && Acting(stage)
    ensures var next := AfterAct(cfg, stage, snap, reply, now);
            next.Proceed? ==> StageInv(cfg, next.stage, next.snap) && next.snap == snap
  {
    ActGoesOn(cfg, stage, snap, reply, now);
  }

  /** An action leads to another one, or to the etcd stamp, measured from the same moment. */
  lemma ActGoesOn(cfg: Config, stage: Stage, snap: Machine, reply: Reply, now: int)
    requires WellIndexed(stage) && Acting(stage)
    ensures var next := AfterAct(cfg, stage, snap, reply, now);
            next.Proceed? ==>
              && next.snap == snap && WellIndexed(next.stage)
              && (Acting(next.stage) || (next.stage.StampEtcd? && !next.stage.etcd.SkippedClusterDelete?))
              && next.stage.obs == stage.obs
  {
  }

  lemma ResettingKeeps(cfg: Config, stage: Stage, snap: Machine, reply: Reply, now: int)
    requires StageInv(cfg, stage, snap) && Resetting(stage)
    ensures var next := AfterReset(cfg, stage, snap, reply, now);
            next.Proceed? ==> StageInv(cfg, next.stage, next.snap) && next.snap == snap
  {
  }

  lemma LeadingKeeps(cfg: Config, stage: Stage, snap: Machine, reply: Reply, now: int)
    requires StageInv(cfg, stage, snap) && Durable(snap)
    requires !Patching(stage) && !Probing(stage) && !Acting(stage) && !Resetting(stage)
    ensures var next := AfterLead(cfg, stage, snap, reply, now);
            next.Proceed? ==> StageInv(cfg, next.stage, next.snap) && next.snap == snap
  {
    if stage.Credentials? {
      if reply.Ok? && snap.deletion.Some? { EnterGateKeeps(cfg, snap, now); }
    } else if stage.ReadCluster? {
      EnterEtcdKeeps(cfg, snap, stage.obs, reply.NotFound? || (reply.TheCluster? && reply.deleting));
    } else {
      RemovalStartKeeps(cfg, stage, snap, reply, now);
    }
  }

  lemma EnterGateKeeps(cfg: Config, m: Machine, now: int)
    requires HasHook(m) && m.deletion.Some?
    ensures var next := EnterGate(cfg, m, now);
            next.Proceed? ==> next.snap == m && StageInv(cfg, next.stage, m)
  {
  }

  lemma EnterEtcdKeeps(cfg: Config, m: Machine, obs: int, clusterDeleting: bool)
    requires AtGate(m) && ObservedAt(cfg, m.annotations) == Some(obs) && Durable(m)
    ensures var next := EnterEtcd(m, obs, clusterDeleting);
            next.Proceed? ==> next.snap == m && StageInv(cfg, next.stage, m)
  {
    if EtcdKey in m.annotations || !m.controlPlane { EnterResetKeeps(cfg, m, obs); }
  }

  lemma RemovalStartKeeps(cfg: Config, stage: Stage, snap: Machine, reply: Reply, now: int)
    requires StageInv(cfg, stage, snap) && (stage.HoldCheck? || stage.EtcdConfig? || stage.PeerList?)
    ensures var next := AfterLead(cfg, stage, snap, reply, now);
            next.Proceed? ==> StageInv(cfg, next.stage, next.snap) && next.snap == snap
  {
  }

  lemma AdvanceKeeps(cfg: Config, stage: Stage, snap: Machine, reply: Reply, now: int)
    requires WholeSecondCodec(cfg)
    requires StageInv(cfg, stage, snap) && Durable(snap)
    ensures var next := Advance(cfg, stage, snap, reply, now);
            next.Proceed? ==>
              && StageInv(cfg, next.stage, next.snap)
              && next.snap == if Patching(stage) then snap.(annotations := Target(cfg, stage, snap.annotations)) else snap
  {
    if Patching(stage) {
      PatchKeeps(cfg, stage, snap);
    } else if Probing(stage) {
      ProbeKeeps(cfg, stage, snap, reply, now);
    } else if Acting(stage) {
      ActKeeps(cfg, stage, snap, reply, now);
    } else if Resetting(stage) {
      ResettingKeeps(cfg, stage, snap, reply, now);
    } else {
      LeadingKeeps(cfg, stage, snap, reply, now);
    }
  }

  // --- one event ------------------------------------------------------------

  /** What an own key holds after a patching request has landed. */
  lemma OwnKeyAfterPatch(cfg: Config, name: string, node: Node, k: Key)
    requires NodeInv(cfg, name, node)
    requires node.proc.Running? && Patching(node.proc.stage) && OwnKey(k)
    ensures Lookup(Served(node.machine, PendingOf(cfg, node.proc)).annotations, k) ==
            Lookup(Target(cfg, node.proc.stage, node.proc.snap.annotations), k)
  {
    var snap := node.proc.snap;
    MergeDiffAt(node.machine.annotations, snap.annotations, Target(cfg, node.proc.stage, snap.annotations), k);
  }

  lemma OwnKeysAfterPatch(cfg: Config, name: string, node: Node)
    requires NodeInv(cfg, name, node)
    requires node.proc.Running? && Patching(node.proc.stage)
    ensures SameOwnKeys(Served(node.machine, PendingOf(cfg, node.proc)).annotations,
                        Target(cfg, node.proc.stage, node.proc.snap.annotations))
  {
    OwnKeyAfterPatch(cfg, name, node, HOOK);
    OwnKeyAfterPatch(cfg, name, node, ObservedAtKey);
    OwnKeyAfterPatch(cfg, name, node, EtcdKey);
    OwnKeyAfterPatch(cfg, name, node, ResetKey);
  }

  /** The four keys under each stage's target. */
  lemma TargetOwnKeys(cfg: Config, stage: Stage, ann: Annotations)
    ensures var t := Target(cfg, stage, ann);
            && Lookup(t, HOOK) == (if stage.StampHook? then Some(HOOK_VALUE) else if stage.Release? then None else Lookup(ann, HOOK))
            && Lookup(t, ObservedAtKey) == (if stage.StampObserved? then Some(cfg.format(stage.obs)) else Lookup(ann, ObservedAtKey))
            && Lookup(t, EtcdKey) == (if stage.StampEtcd? then Some(EtcdText(stage.etcd)) else Lookup(ann, EtcdKey))
            && Lookup(t, ResetKey) == (if stage.StampReset? then Some(ResetText(stage.reset)) else Lookup(ann, ResetKey))
  {
  }

  lemma ReadKeepsNode(cfg: Config, s: State, name: string, reply: Reply, applied: bool)
    requires Enabled(cfg, s, Step(name, reply, applied)) && s.nodes[name].proc.Reading?
    requires NodeInv(cfg, name, s.nodes[name])
    ensures NodeInv(cfg, name, Stepped(cfg, s, name, reply, applied))
  {
    if reply.TheMachine? { EnterMachineKeeps(cfg, reply.machine, s.now); }
  }

  /** A patch that landed leaves the store durable, and agreeing with the copy's target. */
  lemma PatchKeepsDurable(cfg: Config, name: string, node: Node)
    requires NodeInv(cfg, name, node) && node.proc.Running? && Patching(node.proc.stage)
    ensures var ann := Target(cfg, node.proc.stage, node.proc.snap.annotations);
            && Durable(Served(node.machine, PendingOf(cfg, node.proc)))
            && Durable(node.proc.snap.(annotations := ann))
  {
    TargetOwnKeys(cfg, node.proc.stage, node.proc.snap.annotations);
    OwnKeysAfterPatch(cfg, name, node);
  }

  /** The stored Machine after the server carried out the pending call, or did not. */
  function StoredAfter(cfg: Config, node: Node, applied: bool): Machine
    requires !node.proc.Idle?
  {
    if applied then Served(node.machine, PendingOf(cfg, node.proc)) else node.machine
  }

  lemma StoredStays(cfg: Config, name: string, node: Node, applied: bool)
    requires NodeInv(cfg, name, node) && node.proc.Running?
    ensures var m := StoredAfter(cfg, node, applied);
            && m.name == name && Durable(m) && m == node.machine.(annotations := m.annotations)
            && (!Patching(node.proc.stage) ==> m == node.machine)
            && (Patching(node.proc.stage) && applied ==>
                  SameOwnKeys(m.annotations, Target(cfg, node.proc.stage, node.proc.snap.annotations)))
  {
    if Patching(node.proc.stage) {
      PatchKeepsDurable(cfg, name, node);
      OwnKeysAfterPatch(cfg, name, node);
    }
  }

  /** The copy after the reply agrees with the store after the call. */
  lemma CopyStays(cfg: Config, name: string, node: Node, reply: Reply, applied: bool, now: int)
    requires WholeSecondCodec(cfg) && NodeInv(cfg, name, node) && node.proc.Running?
    requires Patching(node.proc.stage) && reply.Ok? ==> applied
    ensures var next := Advance(cfg, node.proc.stage, node.proc.snap, reply, now);
            next.Proceed? ==>
              && next.snap == node.proc.snap.(annotations := next.snap.annotations)
              && StageInv(cfg, next.stage, next.snap) && Durable(next.snap)
              && SameOwnKeys(next.snap.annotations, StoredAfter(cfg, node, applied).annotations)
  {
    AdvanceKeeps(cfg, node.proc.stage, node.proc.snap, reply, now);
    StoredStays(cfg, name, node, applied);
    if Patching(node.proc.stage) { PatchKeepsDurable(cfg, name, node); }
  }

  lemma StepKeepsNode(cfg: Config, s: State, name: string, reply: Reply, applied: bool)
    requires WholeSecondCodec(cfg)
    requires Enabled(cfg, s, Step(name, reply, applied))
    requires NodeInv(cfg, name, s.nodes[name])
    ensures NodeInv(cfg, name, Stepped(cfg, s, name, reply, applied))
  {
    var node := s.nodes[name];
    if node.proc.Reading? {
      ReadKeepsNode(cfg, s, name, reply, applied);
    } else {
      StoredStays(cfg, name, node, applied);
      CopyStays(cfg, name, node, reply, applied, s.now);
      SettledNode(cfg, name, node.(machine := StoredAfter(cfg, node, applied)), reply, s.now);
    }
  }

  lemma SettledNode(cfg: Config, name: string, node: Node, reply: Reply, now: int)
    requires node.proc.Running? && node.machine.name == name && Durable(node.machine)
    requires var next := Advance(cfg, node.proc.stage, node.proc.snap, reply, now);
             next.Proceed? ==>
               && next.snap.name == name && Durable(next.snap) && StageInv(cfg, next.stage, next.snap)
               && SameOwnKeys(next.snap.annotations, node.machine.annotations)
               && next.snap.controlPlane == node.machine.controlPlane
               && (next.snap.deletion.Some? ==> node.machine.deletion == next.snap.deletion)
    ensures NodeInv(cfg, name, Settle(cfg, node, reply, now))
  {
  }

  lemma EventKeepsInv(cfg: Config, s: State, e: Event)
    requires WholeSecondCodec(cfg)
    requires Inv(cfg, s) && Enabled(cfg, s, e)
    ensures Inv(cfg, Apply(cfg, s, e))
  {
    if e.Step? { StepKeepsNode(cfg, s, e.name, e.reply, e.applied); }
  }

  lemma {:induction false} RunKeepsInv(cfg: Config, s: State, events: seq<Event>)
    requires WholeSecondCodec(cfg)
    requires Inv(cfg, s) && IsRun(cfg, s, events)
    ensures Inv(cfg, After(cfg, s, events))
    decreases |events|
  {
    if events != [] {
      EventKeepsInv(cfg, s, events[0]);
      RunKeepsInv(cfg, Apply(cfg, s, events[0]), events[1..]);
    }
  }

  /** The controller may crash after any event of any run, that is, between any two calls
      of any reconcile.  What a new start then finds is a state where runs may start, with
      the very same Machines stored, the same Cluster, and the same etcd members. */
  lemma CrashRestarts(cfg: Config, s: State, events: seq<Event>, n: nat)
    requires WholeSecondCodec(cfg)
    requires Inv(cfg, s) && IsRun(cfg, s, events) && n <= |events|
    ensures IsRun(cfg, s, events[..n]) && IsRun(cfg, s, events[..n] + [Crash])
    ensures var before, after := After(cfg, s, events[..n]), After(cfg, s, events[..n] + [Crash]);
            && Start(after) && after.cluster == before.cluster && after.etcd == before.etcd
            && after.nodes.Keys == before.nodes.Keys
            && forall name <- before.nodes :: after.nodes[name].machine == before.nodes[name].machine
  {
    RunPrefix(cfg, s, events, n);
    RunKeepsInv(cfg, s, events[..n]);
    RunAppend(cfg, s, events[..n], Crash);
    var before := After(cfg, s, events[..n]);
    forall name <- before.nodes ensures Durable(before.nodes[name].machine) && before.nodes[name].machine.name == name {
      assert NodeInv(cfg, name, before.nodes[name]);
    }
  }
}
