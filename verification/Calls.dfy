/** What stands behind every call: for each request a reconcile may have pending, the answers
    it follows on; and for each way a reconcile ends, the answer that ended it. */
module Calls {
  import opened Common
  import opened Machines
  import opened PeerOrder
  import opened Protocol
  import opened System
  import opened PhaseOrder
  import opened Stamps
  import opened Gates

  // --- answers --------------------------------------------------------------

  /** The node has an address. */
  predicate Resolved(x: Exchange, node: string) {
    x.request == ResolveAddress(node) && x.reply.AddressIs? && x.reply.address != ""
  }

  predicate Dialled(x: Exchange, node: string) {
    x.request == Dial(node) && x.reply.Ok?
  }

  /** Some etcd service runs and is healthy. */
  predicate RunsHealthy(reply: Reply) {
    reply.Services? && exists i :: 0 <= i < |reply.services| && reply.services[i].info.Some?
                                   && reply.services[i].info.value.state == "Running" && reply.services[i].info.value.healthy
  }

  /** Some etcd service has not finished. */
  predicate StillThere(reply: Reply) {
    reply.Services? && exists i :: 0 <= i < |reply.services| && reply.services[i].info.Some?
                                   && reply.services[i].info.value.state != "Finished"
  }

  predicate Landed(x: Exchange) {
    x.request.PatchAnnotations? && x.reply.Ok?
  }

  /** `a` was deleted before `b`, or in the same second under a smaller name. */
  predicate Ahead(a: Machine, b: Machine) {
    && a.name != b.name && Hooked(a) && a.deletion.Some? && b.deletion.Some?
    && (a.deletion.value < b.deletion.value || (a.deletion.value == b.deletion.value && StringLess(a.name, b.name)))
  }

  ghost predicate NobodyAhead(m: Machine, machines: seq<Machine>) {
    forall i :: 0 <= i < |machines| ==> !Ahead(machines[i], m)
  }

  /** The victim cannot leave by itself: no address, no connection, no answer, its etcd
      finished already, or the leave not acknowledged. */
  predicate VictimFails(x: Exchange, victim: string) {
    || (x.request == ResolveAddress(victim) && !Resolved(x, victim))
    || (x.request == Dial(victim) && !x.reply.Ok?)
    || (x.request == ServiceInfo(victim) && !StillThere(x.reply))
    || (x.request == LeaveCluster(victim) && !x.reply.Ok?)
  }

  ghost predicate ReadLive(log: seq<Exchange>) {
    exists q :: 0 <= q < |log| && log[q].request.GetCluster? && log[q].reply == TheCluster(false)
  }

  lemma HealthMeans(services: seq<Service>)
    ensures EtcdHealthy(services) <==> RunsHealthy(Services(services))
    ensures EtcdNotFinished(services) <==> StillThere(Services(services))
  {
  }

  lemma HeldMeans(m: Machine, machines: seq<Machine>)
    ensures Held(m, machines) <==> !NobodyAhead(m, machines)
  {
    forall i | 0 <= i < |machines| ensures Holds(machines[i], m) <==> Ahead(machines[i], m) {
      GatesMean(machines[i]);
    }
  }

  // --- behind each stage ----------------------------------------------------

  function Last(log: seq<Exchange>, n: nat): Exchange
    requires n < |log|
  {
    log[|log| - 1 - n]
  }

  ghost predicate StageGrounds(stage: Stage, snap: Machine, log: seq<Exchange>) {
    log != [] &&
    var x := Last(log, 0);
    match stage
    case Credentials => x.request.GetMachine? || Landed(x)
    case ReadCluster(_) => x.request.GetMachine? || Landed(x) || (x.request.EnsureCredentials? && x.reply.Ok?)
    case HoldCheck(_) => x.request.GetCluster? && x.reply == TheCluster(false)
    case EtcdConfig(_) => x.request.ListControlPlane? && x.reply.ControlPlane? && NobodyAhead(snap, x.reply.machines)
    case PeerList(_) => x.request.LoadConfig? && x.reply.Ok?
    case PeerDial(_, peers, i) => Resolved(x, PeerName(peers, i))
    case PeerHealth(_, peers, i) => Dialled(x, PeerName(peers, i))
    case PeerMembers(_, peers, i) => x.request == ServiceInfo(PeerName(peers, i)) && RunsHealthy(x.reply)
    case VictimDial(_, _, _, _) => Resolved(x, snap.name)
    case VictimHealth(_, _, _, _) => Dialled(x, snap.name)
    case Forfeit(_, _, _, _) =>
      x.request == ServiceInfo(snap.name) && StillThere(x.reply) && EtcdLeavingKey !in snap.annotations
    case Leave(_, _, _, _) =>
      if EtcdLeavingKey in snap.annotations then x.request == ServiceInfo(snap.name) && StillThere(x.reply)
      else
        x.request == ForfeitLeadership(snap.name)
        && |log| > 1 && Last(log, 1).request == ServiceInfo(snap.name) && StillThere(Last(log, 1).reply)
    case Remove(_, _, _, _) => VictimFails(x, snap.name)
    case ResetConfig(_) => Resolved(x, snap.name)
    case ResetDial(_) => x.request.LoadConfig? && x.reply.Ok? && |log| > 1 && Resolved(Last(log, 1), snap.name)
    case ResetCall(_) =>
      Dialled(x, snap.name) && |log| > 2 && Last(log, 1).request.LoadConfig? && Last(log, 1).reply.Ok?
      && Resolved(Last(log, 2), snap.name)
    case _ => true
  }

  /** No etcd phase, and no conclusion of one but the skip, in a cluster that is going. */
  ghost predicate LiveOnly(stage: Stage, log: seq<Exchange>) {
    EtcdPhase(stage) || (stage.StampEtcd? && !stage.etcd.SkippedClusterDelete?) ==> ReadLive(log)
  }

  lemma ReadLiveGrows(log: seq<Exchange>, x: Exchange)
    requires ReadLive(log)
    ensures ReadLive(log + [x])
  {
    var q :| 0 <= q < |log| && log[q].request.GetCluster? && log[q].reply == TheCluster(false);
    assert (log + [x])[q] == log[q];
  }

  /** The etcd phase is entered from a Cluster that is there, and from nowhere else. */
  lemma EntersLive(cfg: Config, stage: Stage, snap: Machine, log: seq<Exchange>, reply: Reply, now: int)
    requires LiveOnly(stage, log)
    ensures var next := Advance(cfg, stage, snap, reply, now);
            next.Proceed? ==> LiveOnly(next.stage, log + [Exchange(Pending(cfg, stage, snap), reply, now)])
  {
    var x := Exchange(Pending(cfg, stage, snap), reply, now);
    if EtcdPhase(stage) {
      ReadLiveGrows(log, x);
    } else {
      StartsLive(cfg, stage, snap, reply, now);
      assert (log + [x])[|log|] == x;
    }
  }

  lemma StartsLive(cfg: Config, stage: Stage, snap: Machine, reply: Reply, now: int)
    requires !EtcdPhase(stage)
    ensures var next := Advance(cfg, stage, snap, reply, now);
            next.Proceed? && (EtcdPhase(next.stage) || (next.stage.StampEtcd? && !next.stage.etcd.SkippedClusterDelete?)) ==>
              stage.ReadCluster? && reply == TheCluster(false)
  {
  }

  // --- one reply ------------------------------------------------------------

  lemma Grown(log: seq<Exchange>, x: Exchange)
    ensures Last(log + [x], 0) == x
    ensures forall n: nat :: n < |log| ==> Last(log + [x], n + 1) == Last(log, n)
  {
  }

  lemma LeadGrounds(cfg: Config, stage: Stage, snap: Machine, log: seq<Exchange>, reply: Reply, now: int)
    requires !Patching(stage) && !Probing(stage) && !Acting(stage) && !Resetting(stage)
    ensures var next := AfterLead(cfg, stage, snap, reply, now);
            next.Proceed? ==> StageGrounds(next.stage, next.snap, log + [Exchange(Pending(cfg, stage, snap), reply, now)])
  {
    Grown(log, Exchange(Pending(cfg, stage, snap), reply, now));
    if stage.HoldCheck? && reply.ControlPlane? { HeldMeans(snap, reply.machines); }
  }

  lemma PatchGrounds(cfg: Config, stage: Stage, snap: Machine, log: seq<Exchange>, reply: Reply, now: int)
    requires Patching(stage)
    ensures var next := AfterStamp(cfg, stage, snap, reply);
            next.Proceed? ==> StageGrounds(next.stage, next.snap, log + [Exchange(Pending(cfg, stage, snap), reply, now)])
  {
    Grown(log, Exchange(Pending(cfg, stage, snap), reply, now));
  }

  lemma ProbeGrounds(cfg: Config, stage: Stage, snap: Machine, log: seq<Exchange>, reply: Reply, now: int)
    requires Probing(stage)
    ensures var next := AfterProbe(cfg, stage, snap, reply, now);
            next.Proceed? ==> StageGrounds(next.stage, next.snap, log + [Exchange(Pending(cfg, stage, snap), reply, now)])
  {
    Grown(log, Exchange(Pending(cfg, stage, snap), reply, now));
    if reply.Services? { HealthMeans(reply.services); }
  }

  lemma ActGrounds(cfg: Config, stage: Stage, snap: Machine, log: seq<Exchange>, reply: Reply, now: int)
    requires Acting(stage) && StageGrounds(stage, snap, log)
    ensures var next := AfterAct(cfg, stage, snap, reply, now);
            next.Proceed? ==> StageGrounds(next.stage, next.snap, log + [Exchange(Pending(cfg, stage, snap), reply, now)])
  {
    Grown(log, Exchange(Pending(cfg, stage, snap), reply, now));
    if reply.Services? { HealthMeans(reply.services); }
  }

  lemma ResetGrounds(cfg: Config, stage: Stage, snap: Machine, log: seq<Exchange>, reply: Reply, now: int)
    requires Resetting(stage) && StageGrounds(stage, snap, log)
    ensures var next := AfterReset(cfg, stage, snap, reply, now);
            next.Proceed? ==> StageGrounds(next.stage, next.snap, log + [Exchange(Pending(cfg, stage, snap), reply, now)])
  {
    Grown(log, Exchange(Pending(cfg, stage, snap), reply, now));
  }

  lemma AdvanceGrounds(cfg: Config, stage: Stage, snap: Machine, log: seq<Exchange>, reply: Reply, now: int)
    requires StageGrounds(stage, snap, log)
    ensures var next := Advance(cfg, stage, snap, reply, now);
            next.Proceed? ==> StageGrounds(next.stage, next.snap, log + [Exchange(Pending(cfg, stage, snap), reply, now)])
  {
    if Patching(stage) {
      PatchGrounds(cfg, stage, snap, log, reply, now);
    } else if Probing(stage) {
      ProbeGrounds(cfg, stage, snap, log, reply, now);
    } else if Acting(stage) {
      ActGrounds(cfg, stage, snap, log, reply, now);
    } else if Resetting(stage) {
      ResetGrounds(cfg, stage, snap, log, reply, now);
    } else {
      LeadGrounds(cfg, stage, snap, log, reply, now);
    }
  }

  // --- over every run -------------------------------------------------------

  ghost predicate ProcGrounds(proc: Proc) {
    proc.Running? ==> StageGrounds(proc.stage, proc.snap, proc.log) && LiveOnly(proc.stage, proc.log)
  }

  ghost predicate GroundsInv(s: State) {
    forall name <- s.nodes :: ProcGrounds(s.nodes[name].proc)
  }

  lemma SettleGrounds(cfg: Config, node: Node, reply: Reply, now: int)
    requires !node.proc.Idle? && ProcGrounds(node.proc)
    ensures ProcGrounds(Settle(cfg, node, reply, now).proc)
  {
    if node.proc.Running? {
      AdvanceGrounds(cfg, node.proc.stage, node.proc.snap, node.proc.log, reply, now);
      EntersLive(cfg, node.proc.stage, node.proc.snap, node.proc.log, reply, now);
    } else if reply.TheMachine? {
      ReadGrounds(cfg, reply.machine, now);
    }
  }

  lemma ReadGrounds(cfg: Config, m: Machine, now: int)
    ensures var next := EnterMachine(cfg, m, now);
            next.Proceed? ==>
              && StageGrounds(next.stage, next.snap, [] + [Exchange(GetMachine, TheMachine(m), now)])
              && LiveOnly(next.stage, [] + [Exchange(GetMachine, TheMachine(m), now)])
  {
  }

  lemma EventKeepsGrounds(cfg: Config, s: State, e: Event)
    requires GroundsInv(s) && Enabled(cfg, s, e)
    ensures GroundsInv(Apply(cfg, s, e))
  {
    if e.Step? {
      var node := s.nodes[e.name];
      SettleGrounds(cfg, if e.applied then node.(machine := Served(node.machine, PendingOf(cfg, node.proc))) else node, e.reply, s.now);
    }
  }

  lemma {:induction false} RunKeepsGrounds(cfg: Config, s: State, events: seq<Event>)
    requires GroundsInv(s) && IsRun(cfg, s, events)
    ensures GroundsInv(After(cfg, s, events))
    decreases |events|
  {
    if events != [] {
      EventKeepsGrounds(cfg, s, events[0]);
      RunKeepsGrounds(cfg, Apply(cfg, s, events[0]), events[1..]);
    }
  }

  // --- theorems -------------------------------------------------------------

  /** What the answers before a request were, read from the back of the log. */
  ghost predicate Grounds(request: Request, snap: Machine, log: seq<Exchange>) {
    log != [] &&
    var x := Last(log, 0);
    match request
    case EnsureCredentials => x.request.GetMachine? || Landed(x)
    case GetCluster => x.request.GetMachine? || Landed(x) || (x.request.EnsureCredentials? && x.reply.Ok?)
    case ListControlPlane => (x.request.GetCluster? && x.reply == TheCluster(false)) || (x.request.LoadConfig? && x.reply.Ok?)
    case LoadConfig =>
      (x.request.ListControlPlane? && x.reply.ControlPlane? && NobodyAhead(snap, x.reply.machines)) || Resolved(x, snap.name)
    case Dial(node) =>
      Resolved(x, node) || (node == snap.name && x.request.LoadConfig? && x.reply.Ok? && |log| > 1 && Resolved(Last(log, 1), node))
    case ServiceInfo(node) => Dialled(x, node)
    case MemberList(node) => x.request == ServiceInfo(node) && RunsHealthy(x.reply)
    case ForfeitLeadership(node) =>
      node == snap.name && x.request == ServiceInfo(node) && StillThere(x.reply) && EtcdLeavingKey !in snap.annotations
    case LeaveCluster(node) =>
      && node == snap.name
      && if EtcdLeavingKey in snap.annotations then x.request == ServiceInfo(node) && StillThere(x.reply)
         else
           x.request == ForfeitLeadership(node)
           && |log| > 1 && Last(log, 1).request == ServiceInfo(node) && StillThere(Last(log, 1).reply)
    case RemoveMember(_, _) => VictimFails(x, snap.name)
    case ResetGeneric(node) =>
      && node == snap.name && Dialled(x, node)
      && |log| > 2 && Last(log, 1).request.LoadConfig? && Last(log, 1).reply.Ok? && Resolved(Last(log, 2), node)
    case _ => true
  }

  /** This request needs a Cluster that is there: a listing, a membership call, or the stamp
      of an etcd conclusion other than the skip. */
  predicate NeedsLive(request: Request) {
    || request.ListControlPlane? || MembershipCall(request)
    || (request.PatchAnnotations? && EtcdKey in request.edits && request.edits[EtcdKey] != Some("skipped-cluster-delete"))
  }

  /** Every call has its grounds: over every run, whatever request a reconcile has pending
      follows on the answers it needs, and none that needs a live Cluster is made unless
      the Cluster was read as there and not being deleted, in that same reconcile. */
  lemma EveryCallHasGrounds(cfg: Config, s: State, events: seq<Event>, name: string)
    requires WholeSecondCodec(cfg)
    requires Start(s) && IsRun(cfg, s, events) && name in After(cfg, s, events).nodes
    requires After(cfg, s, events).nodes[name].proc.Running?
    ensures var proc := After(cfg, s, events).nodes[name].proc;
            var request := PendingOf(cfg, proc);
            && Grounds(request, proc.snap, proc.log)
            && (NeedsLive(request) ==> ReadLive(proc.log))
            && (MembershipCall(request) ==> proc.snap.controlPlane && EtcdKey !in proc.snap.annotations)
  {
    StartInv(cfg, s);
    RunKeepsInv(cfg, s, events);
    RunKeepsGrounds(cfg, s, events);
    var node := After(cfg, s, events).nodes[name];
    assert NodeInv(cfg, name, node);
    RequestGrounds(cfg, node.proc.stage, node.proc.snap, node.proc.log);
  }

  lemma RequestGrounds(cfg: Config, stage: Stage, snap: Machine, log: seq<Exchange>)
    requires StageInv(cfg, stage, snap) && StageGrounds(stage, snap, log) && LiveOnly(stage, log)
    ensures var request := Pending(cfg, stage, snap);
            && Grounds(request, snap, log)
            && (NeedsLive(request) ==> ReadLive(log))
            && (MembershipCall(request) ==> snap.controlPlane && EtcdKey !in snap.annotations)
  {
    if Patching(stage) { TargetOwnKeys(cfg, stage, snap.annotations); }
  }

  /** No answer to go on with. */
  ghost predicate Unusable(x: Exchange, snap: Machine) {
    match x.request
    case PatchAnnotations(_) => !x.reply.Ok?
    case EnsureCredentials => !x.reply.Ok?
    case GetCluster => !x.reply.NotFound? && !x.reply.TheCluster?
    case ListControlPlane => !x.reply.ControlPlane? || forall m <- x.reply.machines :: !Candidate(m, snap)
    case LoadConfig => !x.reply.Ok?
    case ResolveAddress(node) => !Resolved(x, node)
    case Dial(_) => !x.reply.Ok?
    case ServiceInfo(_) => !RunsHealthy(x.reply)
    case MemberList(_) => !x.reply.MembersAre?
    case RemoveMember(_, _) => !x.reply.Ok?
    case ResetGeneric(_) => !x.reply.Ok?
    case _ => false
  }

  /** A listed peer worth probing. */
  predicate Candidate(m: Machine, victim: Machine) {
    m.name != victim.name && m.deletion.None? && EtcdLeavingKey !in m.annotations
  }

  /** The deadline of the phase the copy is in has not passed. */
  predicate InTime(cfg: Config, snap: Machine, now: int) {
    && ObservedAtKey in snap.annotations && cfg.parse(snap.annotations[ObservedAtKey]).Some?
    && now <= cfg.parse(snap.annotations[ObservedAtKey]).value
              + if snap.controlPlane && EtcdKey !in snap.annotations then cfg.etcdTimeout else cfg.resetTimeout
  }

  /** The answer that ended a reconcile in this way. */
  ghost predicate Ends(cfg: Config, x: Exchange, snap: Machine, outcome: Outcome) {
    match outcome
    case Done =>
      || (x.request.EnsureCredentials? && x.reply.Ok? && (snap.deletion.None? || !Parked(snap)))
      || (Landed(x) && HOOK in x.request.edits && x.request.edits[HOOK] == None)
    case Requeue =>
      || (x.request.EnsureCredentials? && x.reply.Ok? && HookedByOthers(snap))
      || (x.request.ListControlPlane? && x.reply.ControlPlane? && !NobodyAhead(snap, x.reply.machines))
    case Error =>
      && Unusable(x, snap)
      && (x.request.PatchAnnotations? || x.request.EnsureCredentials? || x.request.GetCluster?
          || (x.request.ListControlPlane? && !x.reply.ControlPlane?) || InTime(cfg, snap, x.at))
  }

  /** A reconcile ends only for a reason: with nothing more to do, behind others, or, before
      the deadline of its phase, for want of an answer it could use. */
  lemma EndsForAReason(cfg: Config, s: State, events: seq<Event>, name: string, reply: Reply, applied: bool)
    requires WholeSecondCodec(cfg)
    requires Start(s) && IsRun(cfg, s, events) && name in After(cfg, s, events).nodes
    requires After(cfg, s, events).nodes[name].proc.Running?
    requires Enabled(cfg, After(cfg, s, events), Step(name, reply, applied))
    ensures var s' := After(cfg, s, events);
            var Running(stage, snap, _) := s'.nodes[name].proc;
            var next := Advance(cfg, stage, snap, reply, s'.now);
            next.Stop? ==> Ends(cfg, Exchange(Pending(cfg, stage, snap), reply, s'.now), snap, next.outcome)
  {
    StartInv(cfg, s);
    RunKeepsInv(cfg, s, events);
    var s' := After(cfg, s, events);
    assert NodeInv(cfg, name, s'.nodes[name]);
    AdvanceEnds(cfg, s'.nodes[name].proc.stage, s'.nodes[name].proc.snap, reply, s'.now);
  }

  lemma AdvanceEnds(cfg: Config, stage: Stage, snap: Machine, reply: Reply, now: int)
    requires StageInv(cfg, stage, snap)
    ensures var next := Advance(cfg, stage, snap, reply, now);
            next.Stop? ==> Ends(cfg, Exchange(Pending(cfg, stage, snap), reply, now), snap, next.outcome)
  {
    if Patching(stage) {
      PatchEnds(cfg, stage, snap, reply, now);
    } else if Probing(stage) {
      ProbeEnds(cfg, stage, snap, reply, now);
    } else if Acting(stage) {
      ActEnds(cfg, stage, snap, reply, now);
    } else if Resetting(stage) {
      ResetEnds(cfg, stage, snap, reply, now);
    } else {
      LeadEnds(cfg, stage, snap, reply, now);
    }
  }

  lemma PatchEnds(cfg: Config, stage: Stage, snap: Machine, reply: Reply, now: int)
    requires StageInv(cfg, stage, snap) && Patching(stage)
    ensures var next := AfterStamp(cfg, stage, snap, reply);
            next.Stop? ==> Ends(cfg, Exchange(Pending(cfg, stage, snap), reply, now), snap, next.outcome)
  {
    TargetOwnKeys(cfg, stage, snap.annotations);
  }

  lemma ProbeEnds(cfg: Config, stage: Stage, snap: Machine, reply: Reply, now: int)
    requires StageInv(cfg, stage, snap) && Probing(stage)
    ensures var next := AfterProbe(cfg, stage, snap, reply, now);
            next.Stop? ==> Ends(cfg, Exchange(Pending(cfg, stage, snap), reply, now), snap, next.outcome)
  {
    if reply.Services? { HealthMeans(reply.services); }
  }

  lemma ActEnds(cfg: Config, stage: Stage, snap: Machine, reply: Reply, now: int)
    requires StageInv(cfg, stage, snap) && Acting(stage)
    ensures var next := AfterAct(cfg, stage, snap, reply, now);
            next.Stop? ==> Ends(cfg, Exchange(Pending(cfg, stage, snap), reply, now), snap, next.outcome)
  {
  }

  lemma ResetEnds(cfg: Config, stage: Stage, snap: Machine, reply: Reply, now: int)
    requires StageInv(cfg, stage, snap) && Resetting(stage)
    ensures var next := AfterReset(cfg, stage, snap, reply, now);
            next.Stop? ==> Ends(cfg, Exchange(Pending(cfg, stage, snap), reply, now), snap, next.outcome)
  {
  }

  lemma LeadEnds(cfg: Config, stage: Stage, snap: Machine, reply: Reply, now: int)
    requires StageInv(cfg, stage, snap) && !Patching(stage) && !Probing(stage) && !Acting(stage) && !Resetting(stage)
    ensures var next := AfterLead(cfg, stage, snap, reply, now);
            next.Stop? ==> Ends(cfg, Exchange(Pending(cfg, stage, snap), reply, now), snap, next.outcome)
  {
    GatesMean(snap);
    if stage.HoldCheck? && reply.ControlPlane? { HeldMeans(snap, reply.machines); }
    if stage.PeerList? && reply.ControlPlane? {
      OrderPeersOrders(reply.machines, snap);
      assert forall m <- reply.machines :: Candidate(m, snap) ==> m in OrderPeers(reply.machines, snap);
    }
  }
}
