/** When the controller acts at all, said of a Machine's fields: whose Machines it touches,
    when it stamps its hook, and that it waits for its turn behind the drain and behind
    other controllers' hooks. */
module Gates {
  import opened Common
  import opened Machines
  import opened Protocol
  import opened System
  import opened PhaseOrder

  // --- a Machine's fields ---------------------------------------------------

  /** The first true Deleting condition is the `i`-th. */
  predicate FirstDeleting(conditions: seq<Condition>, i: int) {
    && 0 <= i < |conditions| && conditions[i].isDeleting && conditions[i].isTrue
    && forall j :: 0 <= j < i ==> !(conditions[j].isDeleting && conditions[j].isTrue)
  }

  /** The machine controller waits for pre-terminate hooks. */
  ghost predicate Parked(m: Machine) {
    exists i :: FirstDeleting(m.conditions, i) && m.conditions[i].reason == WaitingForPreTerminateHook
  }

  /** The machine controller is past that wait: its reason is none of the five up to it. */
  ghost predicate PastTheWait(m: Machine) {
    exists i :: FirstDeleting(m.conditions, i)
                && m.conditions[i].reason !in {DeletingStarted, WaitingForPreDrainHook, DrainingNode, WaitingForVolumeDetach,
                                               WaitingForPreTerminateHook, LaterReason("")}
  }

  /** Talos bootstrap on Tinkerbell infrastructure. */
  predicate Mine(m: Machine) {
    && m.bootstrap.kind == "TalosConfig" && m.bootstrap.apiGroup == "bootstrap.cluster.x-k8s.io"
    && m.infrastructure.kind == "TinkerbellMachine" && m.infrastructure.apiGroup == "infrastructure.cluster.x-k8s.io"
  }

  predicate Hooked(m: Machine) {
    PreTerminate("/talos-teardown") in m.annotations
  }

  /** Another controller holds a pre-terminate hook. */
  ghost predicate HookedByOthers(m: Machine) {
    exists suffix: string ::
      suffix != "/talos-teardown" && PreTerminate(suffix) in m.annotations
      && m.annotations[PreTerminate(suffix)] != "talos-machine-teardown"
  }

  lemma {:induction false} DeletingReasonExact(conditions: seq<Condition>)
    ensures forall i :: FirstDeleting(conditions, i) ==> DeletingReason(conditions) == Some(conditions[i].reason)
    ensures DeletingReason(conditions).Some? ==> exists i :: FirstDeleting(conditions, i)
    decreases |conditions|
  {
    if conditions != [] {
      if conditions[0].isDeleting && conditions[0].isTrue {
        assert FirstDeleting(conditions, 0);
      } else {
        DeletingReasonExact(conditions[1..]);
        assert forall i :: FirstDeleting(conditions, i) ==> FirstDeleting(conditions[1..], i - 1);
        if i :| FirstDeleting(conditions[1..], i) {
          assert FirstDeleting(conditions, i + 1);
        }
      }
    }
  }

  /** The code's gates are these. */
  lemma GatesMean(m: Machine)
    ensures AtPreTerminate(m) <==> Parked(m)
    ensures StampAllowed(m) <==> m.deletion.None? || !PastTheWait(m)
    ensures HasOtherPreTerminateHooks(m) <==> HookedByOthers(m)
    ensures Qualifies(m) <==> Mine(m)
    ensures HasHook(m) <==> Hooked(m)
  {
    DeletingReasonExact(m.conditions);
    if k :| k in m.annotations && ForeignHook(m.annotations, k) {
      assert k == PreTerminate(k.suffix);
    }
    if suffix: string :| suffix != "/talos-teardown" && PreTerminate(suffix) in m.annotations
                         && m.annotations[PreTerminate(suffix)] != "talos-machine-teardown" {
      assert ForeignHook(m.annotations, PreTerminate(suffix));
    }
  }

  // --- what a read leads to -------------------------------------------------

  /** The reconcile goes on with this request, on an unchanged copy. */
  predicate Asks(cfg: Config, next: Progress, m: Machine, request: Request) {
    next.Proceed? && next.snap == m && Pending(cfg, next.stage, m) == request
  }

  /** The patch that sets a key, or none if the key has that value. */
  function Setting(ann: Annotations, k: Key, value: string): Request {
    PatchAnnotations(if Lookup(ann, k) == Some(value) then map[] else map[k := Some(value)])
  }

  lemma SettingIsDiff(ann: Annotations, k: Key, value: string)
    ensures PatchAnnotations(Diff(ann, ann[k := value])) == Setting(ann, k, value)
  {
  }

  /** The edits set the hook and delete its leftovers. */
  ghost predicate SetsHook(ann: Annotations, edits: Edits) {
    && HOOK in edits && edits[HOOK] == Some("talos-machine-teardown")
    && forall k: Key :: k != HOOK ==>
         (k in edits <==> k.PreTerminate? && Lookup(ann, k) == Some("talos-machine-teardown"))
         && (k in edits ==> edits[k] == None)
  }

  ghost predicate StampsHook(cfg: Config, next: Progress, m: Machine) {
    && next.Proceed? && next.snap == m && Pending(cfg, next.stage, m).PatchAnnotations?
    && SetsHook(m.annotations, Pending(cfg, next.stage, m).edits)
  }

  lemma HookPatch(cfg: Config, m: Machine)
    requires HOOK !in m.annotations
    ensures StampsHook(cfg, Proceed(StampHook, m), m)
  {
    var edits := Diff(m.annotations, WithHook(m.annotations));
    forall k: Key | k != HOOK
      ensures k in edits <==> k.PreTerminate? && Lookup(m.annotations, k) == Some("talos-machine-teardown")
      ensures k in edits ==> edits[k] == None
    {
    }
  }

  /** Behind the hook: nothing before the wait, a later look behind others' hooks, and then
      the Cluster, once the time of entry is stamped to the second. */
  ghost predicate Turn(cfg: Config, next: Progress, m: Machine, now: int) {
    if !Parked(m) then next == Stop(Done)
    else if HookedByOthers(m) then next == Stop(Requeue)
    else if ObservedAtKey in m.annotations && cfg.parse(m.annotations[ObservedAtKey]).Some? then Asks(cfg, next, m, GetCluster)
    else exists t :: 0 <= now - t < SECOND && t % SECOND == 0 && Asks(cfg, next, m, Setting(m.annotations, ObservedAtKey, cfg.format(t)))
  }

  lemma TruncateExact(t: int)
    ensures 0 <= t - Truncate(t) < SECOND && Truncate(t) % SECOND == 0
  {
  }

  lemma EnterGateIsTurn(cfg: Config, m: Machine, now: int)
    ensures Turn(cfg, EnterGate(cfg, m, now), m, now)
  {
    GatesMean(m);
    TruncateExact(now);
    SettingIsDiff(m.annotations, ObservedAtKey, cfg.format(Truncate(now)));
  }

  /** What becomes of a Machine that was read, by its fields alone. */
  lemma ReadLeadsTo(cfg: Config, m: Machine, now: int)
    ensures AfterRead(cfg, NotFound, now) == Stop(Done) && AfterRead(cfg, Failed, now) == Stop(Error)
    ensures var next := AfterRead(cfg, TheMachine(m), now);
            if !Hooked(m) && !Mine(m) then next == Stop(Done)
            else if m.deletion.None? then
              if Hooked(m) then Asks(cfg, next, m, EnsureCredentials) else StampsHook(cfg, next, m)
            else if Hooked(m) then Turn(cfg, next, m, now)
            else if ResetKey in m.annotations || PastTheWait(m) then next == Stop(Done)
            else StampsHook(cfg, next, m)
  {
    GatesMean(m);
    if Hooked(m) { EnterGateIsTurn(cfg, m, now); } else { HookPatch(cfg, m); }
  }

  /** With the credentials refreshed, a live Machine is done, and a deleting one that got
      its hook late takes its turn like any other. */
  lemma CredentialsLeadTo(cfg: Config, snap: Machine, now: int)
    ensures var next := Advance(cfg, Credentials, snap, Ok, now);
            if snap.deletion.None? then next == Stop(Done) else Turn(cfg, next, snap, now)
  {
    EnterGateIsTurn(cfg, snap, now);
  }

  /** What the Cluster's answer leads to.  Missing or being deleted: the etcd phase is
      skipped at once, for control plane and workers alike.  Else workers go on to the
      reset, and control-plane Machines to the hold. */
  lemma ClusterLeadsTo(cfg: Config, obs: int, snap: Machine, reply: Reply, now: int)
    requires reply.NotFound? || reply.TheCluster?
    ensures var next := Advance(cfg, ReadCluster(obs), snap, reply, now);
            if EtcdKey !in snap.annotations && reply != TheCluster(false) then
              Asks(cfg, next, snap, PatchAnnotations(map[EtcdKey := Some("skipped-cluster-delete")]))
            else if EtcdKey !in snap.annotations && snap.controlPlane then Asks(cfg, next, snap, ListControlPlane)
            else if ResetKey !in snap.annotations then Asks(cfg, next, snap, ResolveAddress(snap.name))
            else if !Hooked(snap) then next == Stop(Done)
            else next.Proceed? && ReleasesHook(cfg, next, snap)
  {
    ClusterAnswered(cfg, obs, snap, reply, now);
    EtcdPhaseLeadsTo(cfg, obs, snap, reply != TheCluster(false));
  }

  lemma ClusterAnswered(cfg: Config, obs: int, snap: Machine, reply: Reply, now: int)
    requires reply.NotFound? || reply.TheCluster?
    ensures Advance(cfg, ReadCluster(obs), snap, reply, now) == EnterEtcd(snap, obs, reply != TheCluster(false))
  {
  }

  lemma EtcdPhaseLeadsTo(cfg: Config, obs: int, snap: Machine, going: bool)
    ensures var next := EnterEtcd(snap, obs, going);
            if EtcdKey !in snap.annotations && going then
              Asks(cfg, next, snap, PatchAnnotations(map[EtcdKey := Some("skipped-cluster-delete")]))
            else if EtcdKey !in snap.annotations && snap.controlPlane then Asks(cfg, next, snap, ListControlPlane)
            else if ResetKey !in snap.annotations then Asks(cfg, next, snap, ResolveAddress(snap.name))
            else if !Hooked(snap) then next == Stop(Done)
            else next.Proceed? && ReleasesHook(cfg, next, snap)
  {
    if EtcdKey !in snap.annotations && going {
      SkipPatch(cfg, obs, snap);
    } else if Hooked(snap) {
      ReleasePatch(cfg, snap);
    }
  }

  lemma SkipPatch(cfg: Config, obs: int, snap: Machine)
    requires EtcdKey !in snap.annotations
    ensures Asks(cfg, Proceed(StampEtcd(obs, SkippedClusterDelete), snap), snap,
                 PatchAnnotations(map[EtcdKey := Some("skipped-cluster-delete")]))
  {
    SettingIsDiff(snap.annotations, EtcdKey, "skipped-cluster-delete");
  }

  /** The edits delete the hook and its leftovers, and nothing else. */
  ghost predicate ReleasesHook(cfg: Config, next: Progress, m: Machine) {
    && next.Proceed? && next.snap == m && Pending(cfg, next.stage, m).PatchAnnotations?
    && var edits := Pending(cfg, next.stage, m).edits;
       forall k: Key ::
         (k in edits <==> k in m.annotations && (k == HOOK || (k.PreTerminate? && m.annotations[k] == "talos-machine-teardown")))
         && (k in edits ==> edits[k] == None)
  }

  lemma ReleasePatch(cfg: Config, m: Machine)
    ensures ReleasesHook(cfg, Proceed(Release, m), m)
  {
    var edits := Diff(m.annotations, WithoutHook(m.annotations));
    forall k: Key
      ensures k in edits <==> k in m.annotations && (k == HOOK || (k.PreTerminate? && m.annotations[k] == "talos-machine-teardown"))
      ensures k in edits ==> edits[k] == None
    {
    }
  }

  /** What each stamp of a conclusion leads to, once it has landed. */
  lemma StampLeadsTo(cfg: Config, stage: Stage, snap: Machine, now: int)
    requires stage.StampObserved? || stage.StampEtcd? || stage.StampReset? || stage.Release?
    requires Hooked(snap)
    ensures var next := Advance(cfg, stage, snap, Ok, now);
            var after := snap.(annotations := Target(cfg, stage, snap.annotations));
            match stage
            case StampObserved(_) => Asks(cfg, next, after, GetCluster)
            case StampEtcd(_, _) =>
              if ResetKey !in snap.annotations then Asks(cfg, next, after, ResolveAddress(snap.name))
              else ReleasesHook(cfg, next, after)
            case StampReset(_, _) => ReleasesHook(cfg, next, after)
            case Release => next == Stop(Done)
  {
    if !stage.Release? { ReleasePatch(cfg, snap.(annotations := Target(cfg, stage, snap.annotations))); }
  }

  // --- over every run -------------------------------------------------------

  /** The hook is on its way to a Machine that is the controller's and not past the wait. */
  ghost predicate StampInv(s: State) {
    forall name <- s.nodes :: StampsRightly(s.nodes[name].proc)
  }

  ghost predicate StampsRightly(proc: Proc) {
    proc.Running? && proc.stage.StampHook? ==>
      Mine(proc.snap) && (proc.snap.deletion.None? || !PastTheWait(proc.snap))
  }

  /** The hook is stamped first or not at all. */
  lemma NoLaterStamp(cfg: Config, stage: Stage, snap: Machine, reply: Reply, now: int)
    ensures var next := Advance(cfg, stage, snap, reply, now);
            next.Proceed? ==> !next.stage.StampHook?
  {
    if Probing(stage) {
      NoStampOnProbe(cfg, stage, snap, reply, now);
    }
  }

  lemma NoStampOnProbe(cfg: Config, stage: Stage, snap: Machine, reply: Reply, now: int)
    requires Probing(stage)
    ensures var next := AfterProbe(cfg, stage, snap, reply, now);
            next.Proceed? ==> !next.stage.StampHook?
  {
  }

  lemma ReadStampsRightly(cfg: Config, node: Node, reply: Reply, now: int)
    requires !node.proc.Idle?
    ensures StampsRightly(Settle(cfg, node, reply, now).proc)
  {
    if node.proc.Running? {
      NoLaterStamp(cfg, node.proc.stage, node.proc.snap, reply, now);
    } else if reply.TheMachine? {
      GatesMean(reply.machine);
    }
  }

  lemma EventKeepsStampInv(cfg: Config, s: State, e: Event)
    requires StampInv(s) && Enabled(cfg, s, e)
    ensures StampInv(Apply(cfg, s, e))
  {
    if e.Step? {
      var node := s.nodes[e.name];
      ReadStampsRightly(cfg, if e.applied then node.(machine := Served(node.machine, PendingOf(cfg, node.proc))) else node, e.reply, s.now);
    }
  }

  lemma {:induction false} RunKeepsStampInv(cfg: Config, s: State, events: seq<Event>)
    requires StampInv(s) && IsRun(cfg, s, events)
    ensures StampInv(After(cfg, s, events))
    decreases |events|
  {
    if events != [] {
      EventKeepsStampInv(cfg, s, events[0]);
      RunKeepsStampInv(cfg, Apply(cfg, s, events[0]), events[1..]);
    }
  }

  /** Never early, never for others.  Over every run: the hook is stamped on the
      controller's own Machines alone, not behind the wait and not again behind a reset; and
      any request but this one and the refresh of credentials is made for a deleting, hooked
      Machine whose deletion is parked at the wait with no other controller's hook left. */
  lemma ActsOnlyInTurn(cfg: Config, s: State, events: seq<Event>, name: string)
    requires WholeSecondCodec(cfg)
    requires Start(s) && IsRun(cfg, s, events) && name in After(cfg, s, events).nodes
    requires After(cfg, s, events).nodes[name].proc.Running?
    ensures var snap := After(cfg, s, events).nodes[name].proc.snap;
            var request := PendingOf(cfg, After(cfg, s, events).nodes[name].proc);
            if request.PatchAnnotations? && SetsHook(snap.annotations, request.edits) then
              Mine(snap) && !Hooked(snap) && ResetKey !in snap.annotations && (snap.deletion.None? || !PastTheWait(snap))
            else if request.EnsureCredentials? then Hooked(snap)
            else snap.deletion.Some? && Hooked(snap) && Parked(snap) && !HookedByOthers(snap)
  {
    StartInv(cfg, s);
    RunKeepsInv(cfg, s, events);
    RunKeepsStampInv(cfg, s, events);
    var node := After(cfg, s, events).nodes[name];
    assert NodeInv(cfg, name, node);
    StageActsInTurn(cfg, node.proc.stage, node.proc.snap);
  }

  lemma StageActsInTurn(cfg: Config, stage: Stage, snap: Machine)
    requires StageInv(cfg, stage, snap) && StampsRightly(Running(stage, snap, []))
    ensures var request := Pending(cfg, stage, snap);
            if request.PatchAnnotations? && SetsHook(snap.annotations, request.edits) then
              Mine(snap) && !Hooked(snap) && ResetKey !in snap.annotations && (snap.deletion.None? || !PastTheWait(snap))
            else if request.EnsureCredentials? then Hooked(snap)
            else snap.deletion.Some? && Hooked(snap) && Parked(snap) && !HookedByOthers(snap)
  {
    GatesMean(snap);
    if stage.StampHook? {
      HookPatch(cfg, snap);
    } else if Patching(stage) {
      TargetOwnKeys(cfg, stage, snap.annotations);
    }
  }
}
