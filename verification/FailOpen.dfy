/** The real-time bound: whatever Talos does, a parked deletion is released in time.
    Calls take at most their timeout, everything else is instantaneous, queue items
    are picked up when due, and the API server works. */
module FailOpen {
  import opened Common
  import opened Machines
  import opened PeerOrder
  import opened Protocol
  import opened System
  import opened PhaseOrder
  import opened Stamps
  import opened Serialization

  /** The Machines under watch, the place of each in the control-plane order, how many
      peers there are to probe, and the latest of all their phase deadlines. */
  datatype Watch = Watch(names: set<string>, rank: map<string, nat>, peers: nat, latest: int)

  ghost predicate Settings(cfg: Config, w: Watch) {
    && WholeSecondCodec(cfg) && cfg.etcdCallTimeout >= 0 && cfg.resetCallTimeout >= 0
    && w.names == w.rank.Keys
  }

  // --- the bound ------------------------------------------------------------

  /** Two calls for each of `n` peers. */
  function Probes(cfg: Config, n: nat): int {
    if n == 0 then 0 else 2 * cfg.etcdCallTimeout + Probes(cfg, n - 1)
  }

  /** The longest attempt: all probes, four more etcd calls, the reset. */
  function AttemptTime(cfg: Config, peers: nat): int {
    Probes(cfg, peers) + 4 * cfg.etcdCallTimeout + cfg.resetCallTimeout
  }

  /** The latest start of the attempt that cannot fail any more, by rank. */
  function LastStart(cfg: Config, w: Watch, rank: nat): int {
    if rank == 0 then w.latest + 30 * SECOND
    else LastStart(cfg, w, rank - 1) + AttemptTime(cfg, w.peers) + HOOK_WAIT
  }

  function Bound(cfg: Config, w: Watch, rank: nat): int {
    LastStart(cfg, w, rank) + AttemptTime(cfg, w.peers)
  }

  lemma {:induction false} ProbesMonotone(cfg: Config, m: nat, n: nat)
    requires m <= n && cfg.etcdCallTimeout >= 0
    ensures 0 <= Probes(cfg, m) <= Probes(cfg, n)
    decreases n
  {
    if m < n { ProbesMonotone(cfg, m, n - 1); }
    else if 0 < n { ProbesMonotone(cfg, m - 1, n - 1); }
  }

  lemma {:induction false} ProbesClosed(cfg: Config, n: nat)
    ensures Probes(cfg, n) == 2 * n * cfg.etcdCallTimeout
  {
    if n > 0 {
      ProbesClosed(cfg, n - 1);
      assert 2 * n * cfg.etcdCallTimeout == 2 * (n - 1) * cfg.etcdCallTimeout + 2 * cfg.etcdCallTimeout;
    }
  }

  lemma {:induction false} BoundMonotone(cfg: Config, w: Watch, i: nat, j: nat)
    requires Settings(cfg, w) && i <= j
    ensures AttemptTime(cfg, w.peers) >= 0
    ensures w.latest + 30 * SECOND <= LastStart(cfg, w, i) <= LastStart(cfg, w, j)
    ensures i < j ==> Bound(cfg, w, i) + HOOK_WAIT <= LastStart(cfg, w, j)
    decreases j
  {
    ProbesMonotone(cfg, 0, w.peers);
    if i < j { BoundMonotone(cfg, w, i, j - 1); }
    else if 0 < j { BoundMonotone(cfg, w, i - 1, j - 1); }
  }

  /** The bound written out. */
  lemma {:induction false} BoundClosed(cfg: Config, w: Watch, rank: nat)
    ensures var attempt := (2 * w.peers + 4) * cfg.etcdCallTimeout + cfg.resetCallTimeout;
            Bound(cfg, w, rank) == w.latest + 30 * SECOND + attempt + rank * (15 * SECOND + attempt)
  {
    var attempt := (2 * w.peers + 4) * cfg.etcdCallTimeout + cfg.resetCallTimeout;
    ProbesClosed(cfg, w.peers);
    assert (2 * w.peers + 4) * cfg.etcdCallTimeout == 2 * w.peers * cfg.etcdCallTimeout + 4 * cfg.etcdCallTimeout;
    if rank > 0 {
      BoundClosed(cfg, w, rank - 1);
      assert rank * (15 * SECOND + attempt) == (rank - 1) * (15 * SECOND + attempt) + (15 * SECOND + attempt);
    }
  }

  /** How long a call may take, and when an item comes back: what the clock is told. */
  lemma ClockIsTold(cfg: Config, node: Node, reply: Reply, now: int)
    requires !node.proc.Idle?
    ensures var node' := Settle(cfg, node, reply, now);
            match Resume(cfg, node.proc, reply, now)
            case Proceed(stage, snap) =>
              var request := Pending(cfg, stage, snap);
              node'.due == Some(now + if MembershipCall(request) then cfg.etcdCallTimeout
                                      else if request.ResetGeneric? then cfg.resetCallTimeout else 0)
            case Stop(Done) => node'.due == None && node'.failures == 0
            case Stop(Requeue) => node'.due == Some(now + 15 * SECOND) && node'.failures == 0
            case Stop(Error) => node'.due == Some(now + Backoff(node.failures)) && node'.failures == node.failures + 1
  {
  }

  // --- what may happen ------------------------------------------------------

  /** A call the API server answers; it is taken to work. */
  predicate ApiCall(stage: Stage) {
    Patching(stage) || stage.ReadCluster? || stage.HoldCheck?
  }

  predicate ApiWorks(proc: Proc, reply: Reply) {
    (proc.Reading? || (proc.Running? && ApiCall(proc.stage))) ==> !reply.Failed?
  }

  /** Non-deleting control-plane Machines: the peers there are to probe. */
  function Candidates(s: State): set<string> {
    set name <- s.nodes.Keys | s.nodes[name].machine.controlPlane && s.nodes[name].machine.deletion.None?
  }

  /** Time passes only as far as every watched Machine's next event allows; nobody
      disturbs the watched Machines, and no other contender appears.  Talos is free. */
  predicate Timely(cfg: Config, w: Watch, s: State, e: Event)
    requires Enabled(cfg, s, e)
  {
    && Contenders(Apply(cfg, s, e)) <= w.names
    && |Candidates(Apply(cfg, s, e))| <= w.peers
    && match e
       case Tick(duration) =>
         forall name <- w.names :: name in s.nodes && HasHook(s.nodes[name].machine) && s.nodes[name].due.Some? ==>
                                     s.now + duration <= s.nodes[name].due.value
       case Crash => false
       case Drop(name) => name !in w.names
       case Put(name, machine) => name in w.names && HasHook(machine) ==> AtGate(machine)
       case Step(name, reply, _) => name in w.names ==> ApiWorks(s.nodes[name].proc, reply)
       case _ => true
  }

  ghost predicate TimelyRun(cfg: Config, w: Watch, s: State, events: seq<Event>)
    decreases |events|
  {
    events == [] ||
    (Enabled(cfg, s, events[0]) && Timely(cfg, w, s, events[0])
     && TimelyRun(cfg, w, Apply(cfg, s, events[0]), events[1..]))
  }

  lemma {:induction false} TimelyRunIsRun(cfg: Config, w: Watch, s: State, events: seq<Event>)
    requires TimelyRun(cfg, w, s, events)
    ensures IsRun(cfg, s, events)
    decreases |events|
  {
    if events != [] { TimelyRunIsRun(cfg, w, Apply(cfg, s, events[0]), events[1..]); }
  }

  /** A listing holds each candidate once. */
  lemma PeersBounded(s: State, machines: seq<Machine>, victim: Machine)
    requires IsListing(s, machines)
    ensures |OrderPeers(machines, victim)| <= |Candidates(s)|
  {
    var peers := OrderPeers(machines, victim);
    OrderPeersOrders(machines, victim);
    assert forall i :: 0 <= i < |peers| ==> peers[i] in peers && peers[i].name in Candidates(s);
    forall i, j | 0 <= i < j < |peers| ensures peers[i].name != peers[j].name {
      assert Precedes(peers[i], peers[j]);
      PrecedesIrreflexive(peers[i]);
      assert peers[i] in machines && peers[j] in machines;
    }
    DistinctNamesFit(peers, Candidates(s));
  }

  lemma {:induction false} DistinctNamesFit(peers: seq<Machine>, names: set<string>)
    requires forall i :: 0 <= i < |peers| ==> peers[i].name in names
    requires DistinctNames(peers)
    ensures |peers| <= |names|
  {
    if peers != [] {
      DistinctNamesFit(peers[1..], names - {peers[0].name});
    }
  }

  // --- the invariant --------------------------------------------------------

  /** What is left of an attempt after the pending call. */
  function Rest(cfg: Config, w: Watch, stage: Stage): int {
    var e, r := cfg.etcdCallTimeout, cfg.resetCallTimeout;
    match stage
    case PeerAddress(_, peers, i) => Probes(cfg, Remaining(peers, i)) + 4 * e + r
    case PeerDial(_, peers, i) => Probes(cfg, Remaining(peers, i)) + 4 * e + r
    case PeerHealth(_, peers, i) => e + Probes(cfg, Remaining(peers, i + 1)) + 4 * e + r
    case PeerMembers(_, peers, i) => Probes(cfg, Remaining(peers, i + 1)) + 4 * e + r
    case VictimAddress(_, _, _, _) => 4 * e + r
    case VictimDial(_, _, _, _) => 4 * e + r
    case VictimHealth(_, _, _, _) => 3 * e + r
    case Forfeit(_, _, _, _) => 2 * e + r
    case Leave(_, _, _, _) => e + r
    case Remove(_, _, _, _) => r
    case StampEtcd(_, _) => r
    case ResetAddress(_) => r
    case ResetConfig(_) => r
    case ResetDial(_) => r
    case ResetCall(_) => 0
    case StampReset(_, _) => 0
    case Release => 0
    case _ => AttemptTime(cfg, w.peers)
  }

  function Remaining(peers: seq<Machine>, i: nat): nat {
    if i <= |peers| then |peers| - i else 0
  }

  predicate DeadlineKnown(cfg: Config, w: Watch, m: Machine, due: int) {
    match ObservedAt(cfg, m.annotations)
    case Some(obs) => obs + cfg.etcdTimeout <= w.latest && obs + cfg.resetTimeout <= w.latest
    case None => due + cfg.etcdTimeout <= w.latest && due + cfg.resetTimeout <= w.latest
  }

  /** A watched Machine still hooked is at the gate, and its next event is not too late. */
  predicate OnTime(cfg: Config, w: Watch, name: string, node: Node, now: int)
    requires name in w.rank
  {
    HasHook(node.machine) ==>
      && AtGate(node.machine) && node.due.Some? && now <= node.due.value
      && DeadlineKnown(cfg, w, node.machine, node.due.value)
      && match node.proc
         case Idle => node.due.value <= LastStart(cfg, w, w.rank[name])
         case Reading => node.due.value + AttemptTime(cfg, w.peers) <= Bound(cfg, w, w.rank[name])
         case Running(stage, snap, _) =>
           && AtGate(snap) && !stage.StampHook? && !stage.Credentials?
           && (stage.StampObserved? ==> stage.obs <= node.due.value)
           && node.due.value + Rest(cfg, w, stage) <= Bound(cfg, w, w.rank[name])
  }

  predicate Watched(cfg: Config, w: Watch, name: string, node: Node, now: int)
    requires name in w.rank
  {
    && node.machine.deletion.Some? && OnTime(cfg, w, name, node, now)
    && (HasHook(node.machine) || Released(node.machine))
  }

  /** The ranks respect the order of the hold. */
  predicate Ranked(w: Watch, s: State)
    requires w.names == w.rank.Keys
  {
    forall a <- w.names, b <- w.names ::
      (a in s.nodes && b in s.nodes && s.nodes[a].machine.controlPlane && s.nodes[b].machine.controlPlane
       && Before(s.nodes[a].machine, s.nodes[b].machine)) ==> w.rank[a] < w.rank[b]
  }

  ghost predicate TimedInv(cfg: Config, w: Watch, s: State)
    requires w.names == w.rank.Keys
  {
    && Contenders(s) <= w.names && |Candidates(s)| <= w.peers && Ranked(w, s)
    && forall name <- w.names :: name in s.nodes && Watched(cfg, w, name, s.nodes[name], s.now)
  }

  // --- one reply ------------------------------------------------------------

  /** The next call fits into what was left, and a failure leads back to the queue only
      before the deadline. */
  predicate Fits(cfg: Config, w: Watch, next: Progress, rest: int, now: int) {
    match next
    case Proceed(stage, _) =>
      && WellIndexed(stage) && !stage.StampHook? && !stage.Credentials? && !stage.StampObserved?
      && 0 <= Budget(cfg, Pending(cfg, stage, next.snap)) && 0 <= Rest(cfg, w, stage)
      && Budget(cfg, Pending(cfg, stage, next.snap)) + Rest(cfg, w, stage) <= rest
    case Stop(outcome) => outcome == Error && now <= w.latest
  }

  lemma EnterProbeFits(cfg: Config, w: Watch, snap: Machine, obs: int, peers: seq<Machine>, i: nat, rest: int, now: int)
    requires Settings(cfg, w) && obs + cfg.etcdTimeout <= w.latest && i <= |peers|
    requires Probes(cfg, |peers| - i) + 4 * cfg.etcdCallTimeout + cfg.resetCallTimeout <= rest
    ensures Fits(cfg, w, EnterProbe(cfg, snap, obs, peers, i, now), rest, now)
  {
    ProbesMonotone(cfg, 0, |peers| - i);
  }

  lemma ProbeFits(cfg: Config, w: Watch, stage: Stage, snap: Machine, reply: Reply, now: int)
    requires Settings(cfg, w) && WellIndexed(stage) && Probing(stage)
    requires stage.obs + cfg.etcdTimeout <= w.latest
    ensures Fits(cfg, w, AfterProbe(cfg, stage, snap, reply, now), Rest(cfg, w, stage), now)
  {
    var n := |stage.peers| - stage.i;
    ProbesMonotone(cfg, 0, n - 1);
    if !Answered(stage, reply) {
      EnterProbeFits(cfg, w, snap, stage.obs, stage.peers, stage.i + 1, Rest(cfg, w, stage), now);
    }
  }

  lemma ActFits(cfg: Config, w: Watch, stage: Stage, snap: Machine, reply: Reply, now: int)
    requires Settings(cfg, w) && WellIndexed(stage) && Acting(stage)
    requires stage.obs + cfg.etcdTimeout <= w.latest
    ensures Fits(cfg, w, AfterAct(cfg, stage, snap, reply, now), Rest(cfg, w, stage), now)
  {
  }

  lemma ResetFits(cfg: Config, w: Watch, stage: Stage, snap: Machine, reply: Reply, now: int)
    requires Settings(cfg, w) && Resetting(stage)
    requires stage.obs + cfg.resetTimeout <= w.latest
    ensures Fits(cfg, w, AfterReset(cfg, stage, snap, reply, now), Rest(cfg, w, stage), now)
  {
  }

  lemma PatchFits(cfg: Config, w: Watch, stage: Stage, snap: Machine, now: int)
    requires Settings(cfg, w) && Patching(stage) && !stage.StampHook? && !stage.Release? && HasHook(snap)
    ensures var after := snap.(annotations := Target(cfg, stage, snap.annotations));
            Fits(cfg, w, AfterPatch(cfg, stage, after), Rest(cfg, w, stage), now)
  {
    BoundMonotone(cfg, w, 0, 0);
  }

  lemma LeadFits(cfg: Config, w: Watch, s: State, stage: Stage, snap: Machine, reply: Reply, now: int)
    requires Settings(cfg, w) && HasHook(snap)
    requires stage.ReadCluster? || stage.HoldCheck? || stage.EtcdConfig? || stage.PeerList?
    requires stage.obs + cfg.etcdTimeout <= w.latest
    requires stage.ReadCluster? ==> reply.TheCluster? || reply.NotFound?
    requires stage.HoldCheck? ==> reply.ControlPlane? && !Held(snap, reply.machines)
    requires stage.PeerList? && reply.ControlPlane? ==> |OrderPeers(reply.machines, snap)| <= w.peers
    ensures Fits(cfg, w, AfterLead(cfg, stage, snap, reply, now), Rest(cfg, w, stage), now)
  {
    BoundMonotone(cfg, w, 0, 0);
    ProbesMonotone(cfg, 0, w.peers);
    if stage.PeerList? && reply.ControlPlane? {
      var peers := OrderPeers(reply.machines, snap);
      ProbesMonotone(cfg, |peers|, w.peers);
      EnterProbeFits(cfg, w, snap, stage.obs, peers, 0, Rest(cfg, w, stage), now);
    }
  }

  // --- one event ------------------------------------------------------------

  /** A hooked watched Machine that holds another is due before the other may start. */
  lemma HolderIsEarlier(cfg: Config, w: Watch, s: State, machines: seq<Machine>, name: string)
    requires Settings(cfg, w) && TimedInv(cfg, w, s) && Inv(cfg, s)
    requires name in w.names && s.nodes[name].machine.controlPlane
    requires s.nodes[name].proc.Running? && s.nodes[name].proc.snap.deletion.Some?
    requires IsListing(s, machines) && Held(s.nodes[name].proc.snap, machines)
    ensures s.now + HOOK_WAIT <= LastStart(cfg, w, w.rank[name])
  {
    assert NodeInv(cfg, name, s.nodes[name]);
    var snap := s.nodes[name].proc.snap;
    var i :| 0 <= i < |machines| && Holds(machines[i], snap);
    var peer := machines[i].name;
    assert NodeInv(cfg, peer, s.nodes[peer]) && peer in Contenders(s);
    assert Watched(cfg, w, peer, s.nodes[peer], s.now);
    assert Before(s.nodes[peer].machine, s.nodes[name].machine);
    BoundMonotone(cfg, w, w.rank[peer], w.rank[name]);
    ProbesMonotone(cfg, 0, w.peers);
    if s.nodes[peer].proc.Running? { RestNonNegative(cfg, w, s.nodes[peer].proc.stage); }
  }

  lemma RestNonNegative(cfg: Config, w: Watch, stage: Stage)
    requires Settings(cfg, w)
    ensures 0 <= Rest(cfg, w, stage)
  {
    ProbesMonotone(cfg, 0, w.peers);
    if Probing(stage) {
      ProbesMonotone(cfg, 0, Remaining(stage.peers, stage.i));
      ProbesMonotone(cfg, 0, Remaining(stage.peers, stage.i + 1));
    }
  }

  /** Where a hooked, watched reconcile stands when it is not about to patch. */
  lemma StageOnTime(cfg: Config, w: Watch, name: string, node: Node, now: int)
    requires NodeInv(cfg, name, node) && name in w.rank && Watched(cfg, w, name, node, now)
    requires HasHook(node.machine) && node.proc.Running?
    ensures var Running(stage, snap, _) := node.proc;
            && HasHook(snap) && WellIndexed(stage) && !stage.StampHook? && !stage.Credentials?
            && (!Patching(stage) ==> stage.obs + cfg.etcdTimeout <= w.latest && stage.obs + cfg.resetTimeout <= w.latest)
  {
    var Running(stage, snap, _) := node.proc;
    if !Patching(stage) {
      assert ObservedAt(cfg, snap.annotations) == Some(stage.obs);
      assert ObservedAt(cfg, node.machine.annotations) == Some(stage.obs);
    }
  }

  /** A reply to an etcd or reset call. */
  lemma TalosFits(cfg: Config, w: Watch, stage: Stage, snap: Machine, reply: Reply, now: int)
    requires Settings(cfg, w) && WellIndexed(stage) && (Probing(stage) || Acting(stage) || Resetting(stage))
    requires stage.obs + cfg.etcdTimeout <= w.latest && stage.obs + cfg.resetTimeout <= w.latest
    ensures Fits(cfg, w, Advance(cfg, stage, snap, reply, now), Rest(cfg, w, stage), now)
  {
    if Probing(stage) {
      ProbeFits(cfg, w, stage, snap, reply, now);
    } else if Acting(stage) {
      ActFits(cfg, w, stage, snap, reply, now);
    } else {
      ResetFits(cfg, w, stage, snap, reply, now);
    }
  }

  /** The pending call of a running, hooked, watched reconcile is answered. */
  lemma ReplyFits(cfg: Config, w: Watch, s: State, name: string, reply: Reply, applied: bool)
    requires Settings(cfg, w) && Inv(cfg, s) && TimedInv(cfg, w, s)
    requires name in w.names && HasHook(s.nodes[name].machine) && s.nodes[name].proc.Running?
    requires Enabled(cfg, s, Step(name, reply, applied)) && ApiWorks(s.nodes[name].proc, reply)
    ensures var Running(stage, snap, _) := s.nodes[name].proc;
            var next := Advance(cfg, stage, snap, reply, s.now);
            if stage.Release? then next == Stop(Done)
            else if stage.HoldCheck? && reply.ControlPlane? && Held(snap, reply.machines) then next == Stop(Requeue)
            else Fits(cfg, w, next, Rest(cfg, w, stage), s.now)
  {
    var node := s.nodes[name];
    assert NodeInv(cfg, name, node) && Watched(cfg, w, name, node, s.now);
    StageOnTime(cfg, w, name, node, s.now);
    var Running(stage, snap, _) := node.proc;
    if Patching(stage) {
      if !stage.Release? { PatchFits(cfg, w, stage, snap, s.now); }
    } else if Probing(stage) || Acting(stage) || Resetting(stage) {
      TalosFits(cfg, w, stage, snap, reply, s.now);
    } else {
      LeadReplyFits(cfg, w, s, stage, snap, reply);
    }
  }

  lemma AdvanceLead(cfg: Config, stage: Stage, snap: Machine, reply: Reply, now: int)
    requires stage.ReadCluster? || stage.HoldCheck? || stage.EtcdConfig? || stage.PeerList?
    ensures Advance(cfg, stage, snap, reply, now) == AfterLead(cfg, stage, snap, reply, now)
  {
  }

  /** A reply to one of the calls before the first peer is probed. */
  lemma LeadReplyFits(cfg: Config, w: Watch, s: State, stage: Stage, snap: Machine, reply: Reply)
    requires Settings(cfg, w) && HasHook(snap) && |Candidates(s)| <= w.peers
    requires stage.ReadCluster? || stage.HoldCheck? || stage.EtcdConfig? || stage.PeerList?
    requires stage.obs + cfg.etcdTimeout <= w.latest
    requires stage.ReadCluster? ==> reply.TheCluster? || reply.NotFound?
    requires stage.HoldCheck? ==> reply.ControlPlane?
    requires stage.PeerList? && reply.ControlPlane? ==> IsListing(s, reply.machines)
    ensures var next := Advance(cfg, stage, snap, reply, s.now);
            if stage.HoldCheck? && reply.ControlPlane? && Held(snap, reply.machines) then next == Stop(Requeue)
            else Fits(cfg, w, next, Rest(cfg, w, stage), s.now)
  {
    AdvanceLead(cfg, stage, snap, reply, s.now);
    if !(stage.HoldCheck? && Held(snap, reply.machines)) {
      if stage.PeerList? && reply.ControlPlane? { PeersBounded(s, reply.machines, snap); }
      LeadFits(cfg, w, s, stage, snap, reply, s.now);
    }
  }

  /** A patch before the release leaves the stored Machine at its gate. */
  lemma PatchedAtGate(cfg: Config, name: string, node: Node)
    requires NodeInv(cfg, name, node) && AtGate(node.machine)
    requires node.proc.Running? && Patching(node.proc.stage) && !node.proc.stage.StampHook? && !node.proc.stage.Release?
    ensures AtGate(Served(node.machine, PendingOf(cfg, node.proc)))
  {
    var Running(stage, snap, _) := node.proc;
    var m := Served(node.machine, PendingOf(cfg, node.proc));
    OwnKeyAfterPatch(cfg, name, node, HOOK);
    TargetOwnKeys(cfg, stage, snap.annotations);
    forall k: Key | k.PreTerminate? ensures Lookup(m.annotations, k) == Lookup(node.machine.annotations, k) {
      MergeDiffAt(node.machine.annotations, snap.annotations, Target(cfg, stage, snap.annotations), k);
    }
    SameForeignHooks(node.machine, m.annotations);
  }

  lemma PatchedDeadline(cfg: Config, w: Watch, name: string, node: Node, now: int)
    requires Settings(cfg, w) && NodeInv(cfg, name, node) && name in w.rank && OnTime(cfg, w, name, node, now)
    requires node.proc.Running? && HasHook(node.machine)
    requires !node.proc.stage.StampHook? && !node.proc.stage.Release?
    ensures var m := if Patching(node.proc.stage) then Served(node.machine, PendingOf(cfg, node.proc)) else node.machine;
            match ObservedAt(cfg, m.annotations)
            case Some(obs) => obs + cfg.etcdTimeout <= w.latest && obs + cfg.resetTimeout <= w.latest
            case None => false
  {
    var Running(stage, snap, _) := node.proc;
    assert ObservedAt(cfg, node.machine.annotations) == ObservedAt(cfg, snap.annotations);
    if Patching(stage) {
      OwnKeyAfterPatch(cfg, name, node, ObservedAtKey);
      TargetOwnKeys(cfg, stage, snap.annotations);
      if stage.StampObserved? { assert cfg.parse(cfg.format(stage.obs)) == Some(stage.obs); }
    }
  }

  /** The stored Machine after the step is released, or still at the gate with a known deadline. */
  lemma StepMachineOnTime(cfg: Config, w: Watch, name: string, node: Node, now: int)
    requires Settings(cfg, w) && NodeInv(cfg, name, node) && name in w.rank && OnTime(cfg, w, name, node, now)
    requires HasHook(node.machine) && node.proc.Running?
    ensures var m := if Patching(node.proc.stage) then Served(node.machine, PendingOf(cfg, node.proc)) else node.machine;
            if node.proc.stage.Release? then !HasHook(m)
            else
              && AtGate(m)
              && match ObservedAt(cfg, m.annotations)
                 case Some(obs) => obs + cfg.etcdTimeout <= w.latest && obs + cfg.resetTimeout <= w.latest
                 case None => false
  {
    var stage := node.proc.stage;
    if stage.Release? {
      OwnKeyAfterPatch(cfg, name, node, HOOK);
      TargetOwnKeys(cfg, stage, node.proc.snap.annotations);
    } else {
      PatchedDeadline(cfg, w, name, node, now);
      if Patching(stage) { PatchedAtGate(cfg, name, node); }
    }
  }

  lemma ErrorDelay(cfg: Config, w: Watch, rank: nat, failures: nat, now: int)
    requires Settings(cfg, w) && now <= w.latest
    ensures now <= now + Backoff(failures) <= LastStart(cfg, w, rank)
  {
    BackoffRange(failures);
    BoundMonotone(cfg, w, 0, rank);
  }

  lemma RunningStepOnTime(cfg: Config, w: Watch, s: State, name: string, reply: Reply, applied: bool)
    requires Settings(cfg, w) && Inv(cfg, s) && TimedInv(cfg, w, s)
    requires name in w.names && HasHook(s.nodes[name].machine) && s.nodes[name].proc.Running?
    requires Enabled(cfg, s, Step(name, reply, applied)) && ApiWorks(s.nodes[name].proc, reply)
    ensures OnTime(cfg, w, name, Stepped(cfg, s, name, reply, applied), s.now)
  {
    var node := s.nodes[name];
    var Running(stage, snap, _) := node.proc;
    assert NodeInv(cfg, name, node) && Watched(cfg, w, name, node, s.now);
    ReplyFits(cfg, w, s, name, reply, applied);
    StepMachineOnTime(cfg, w, name, node, s.now);
    AdvanceKeeps(cfg, stage, snap, reply, s.now);
    if stage.HoldCheck? && reply.ControlPlane? && Held(snap, reply.machines) {
      HolderIsEarlier(cfg, w, s, reply.machines, name);
    }
    ErrorIfFits(cfg, w, w.rank[name], node, Advance(cfg, stage, snap, reply, s.now), Rest(cfg, w, stage), s.now);
    SettledOnTime(cfg, w, name, if applied then node.(machine := Served(node.machine, PendingOf(cfg, node.proc))) else node,
                  reply, s.now);
  }

  /** What a reply has to leave behind for the reconcile to stay on time. */
  lemma SettledOnTime(cfg: Config, w: Watch, name: string, node: Node, reply: Reply, now: int)
    requires Settings(cfg, w) && name in w.rank && node.proc.Running?
    requires HasHook(node.machine) ==>
               && AtGate(node.machine)
               && match ObservedAt(cfg, node.machine.annotations)
                  case Some(obs) => obs + cfg.etcdTimeout <= w.latest && obs + cfg.resetTimeout <= w.latest
                  case None => false
    requires now + Rest(cfg, w, node.proc.stage) <= Bound(cfg, w, w.rank[name])
    requires var next := Advance(cfg, node.proc.stage, node.proc.snap, reply, now);
             match next
             case Proceed(stage, snap) => Fits(cfg, w, next, Rest(cfg, w, node.proc.stage), now) && AtGate(snap)
             case Stop(Done) => !HasHook(node.machine)
             case Stop(Requeue) => now + HOOK_WAIT <= LastStart(cfg, w, w.rank[name])
             case Stop(Error) => now <= now + Backoff(node.failures) <= LastStart(cfg, w, w.rank[name])
    ensures OnTime(cfg, w, name, Settle(cfg, node, reply, now), now)
  {
  }

  lemma ErrorIfFits(cfg: Config, w: Watch, rank: nat, node: Node, next: Progress, rest: int, now: int)
    requires Settings(cfg, w)
    ensures next.Stop? && Fits(cfg, w, next, rest, now) ==> now <= now + Backoff(node.failures) <= LastStart(cfg, w, rank)
  {
    if next.Stop? && Fits(cfg, w, next, rest, now) { ErrorDelay(cfg, w, rank, node.failures, now); }
  }

  lemma ReadOnTime(cfg: Config, w: Watch, s: State, name: string, reply: Reply, applied: bool)
    requires Settings(cfg, w) && Inv(cfg, s) && TimedInv(cfg, w, s)
    requires name in w.names && HasHook(s.nodes[name].machine) && s.nodes[name].proc.Reading?
    requires Enabled(cfg, s, Step(name, reply, applied)) && ApiWorks(s.nodes[name].proc, reply)
    ensures OnTime(cfg, w, name, Stepped(cfg, s, name, reply, applied), s.now)
  {
    assert Watched(cfg, w, name, s.nodes[name], s.now);
    assert Truncate(s.now) <= s.now;
    ProbesMonotone(cfg, 0, w.peers);
  }

  /** Others' events, and a pick-up, do not make a watched Machine late. */
  lemma OthersKeepWatched(cfg: Config, w: Watch, s: State, e: Event, name: string)
    requires Settings(cfg, w) && Inv(cfg, s) && TimedInv(cfg, w, s)
    requires Enabled(cfg, s, e) && Timely(cfg, w, s, e) && name in w.names && HasHook(s.nodes[name].machine)
    requires !(e.Step? && e.name == name)
    ensures var after := Apply(cfg, s, e);
            name in after.nodes && Watched(cfg, w, name, after.nodes[name], after.now)
  {
    assert NodeInv(cfg, name, s.nodes[name]) && Watched(cfg, w, name, s.nodes[name], s.now);
    BoundMonotone(cfg, w, 0, w.rank[name]);
  }

  lemma EventKeepsWatched(cfg: Config, w: Watch, s: State, e: Event, name: string)
    requires Settings(cfg, w) && Inv(cfg, s) && TimedInv(cfg, w, s)
    requires Enabled(cfg, s, e) && Timely(cfg, w, s, e) && name in w.names
    ensures var after := Apply(cfg, s, e);
            name in after.nodes && Watched(cfg, w, name, after.nodes[name], after.now)
  {
    assert NodeInv(cfg, name, s.nodes[name]) && Watched(cfg, w, name, s.nodes[name], s.now);
    EventIsLater(cfg, s, e, name);
    if HasHook(s.nodes[name].machine) {
      if !(e.Step? && e.name == name) {
        OthersKeepWatched(cfg, w, s, e, name);
      } else if s.nodes[name].proc.Running? {
        RunningStepOnTime(cfg, w, s, name, e.reply, e.applied);
      } else {
        ReadOnTime(cfg, w, s, name, e.reply, e.applied);
      }
    }
  }

  /** Nothing in the hold's order changes about a watched Machine. */
  lemma PlaceKept(cfg: Config, w: Watch, s: State, e: Event, name: string)
    requires Settings(cfg, w) && Inv(cfg, s) && TimedInv(cfg, w, s)
    requires Enabled(cfg, s, e) && Timely(cfg, w, s, e) && name in w.names
    ensures name in s.nodes && name in Apply(cfg, s, e).nodes
    ensures var m, m' := s.nodes[name].machine, Apply(cfg, s, e).nodes[name].machine;
            m'.deletion == m.deletion && m'.controlPlane == m.controlPlane && m'.name == m.name
  {
    assert Watched(cfg, w, name, s.nodes[name], s.now) && NodeInv(cfg, name, s.nodes[name]);
    MachineAfterEvent(cfg, s, e, name);
  }

  lemma RankedKept(cfg: Config, w: Watch, s: State, e: Event)
    requires Settings(cfg, w) && Inv(cfg, s) && TimedInv(cfg, w, s)
    requires Enabled(cfg, s, e) && Timely(cfg, w, s, e)
    ensures Ranked(w, Apply(cfg, s, e))
  {
    var after := Apply(cfg, s, e);
    forall a <- w.names, b <- w.names | a in after.nodes && b in after.nodes
      && after.nodes[a].machine.controlPlane && after.nodes[b].machine.controlPlane
      && Before(after.nodes[a].machine, after.nodes[b].machine)
      ensures w.rank[a] < w.rank[b]
    {
      PlaceKept(cfg, w, s, e, a);
      PlaceKept(cfg, w, s, e, b);
      assert Before(s.nodes[a].machine, s.nodes[b].machine);
    }
  }

  lemma {:induction false} RunKeepsTimedInv(cfg: Config, w: Watch, s: State, events: seq<Event>)
    requires Settings(cfg, w) && Inv(cfg, s) && TimedInv(cfg, w, s) && TimelyRun(cfg, w, s, events)
    ensures IsRun(cfg, s, events)
    ensures Inv(cfg, After(cfg, s, events)) && TimedInv(cfg, w, After(cfg, s, events))
    decreases |events|
  {
    if events != [] {
      var next := Apply(cfg, s, events[0]);
      EventKeepsInv(cfg, s, events[0]);
      RankedKept(cfg, w, s, events[0]);
      forall name <- w.names ensures name in next.nodes && Watched(cfg, w, name, next.nodes[name], next.now) {
        EventKeepsWatched(cfg, w, s, events[0], name);
      }
      RunKeepsTimedInv(cfg, w, next, events[1..]);
    }
  }

  // --- theorems -------------------------------------------------------------

  /** Where the clock starts: every watched Machine queued at its gate within 30s of the
      latest deadline, whether its phase entry is stamped yet or not; all contenders
      watched and ranked. */
  ghost predicate AtTheGate(cfg: Config, w: Watch, s: State)
    requires w.names == w.rank.Keys
  {
    && Inv(cfg, s) && Contenders(s) <= w.names && |Candidates(s)| <= w.peers && Ranked(w, s)
    && forall name <- w.names ::
         && name in s.nodes && AtGate(s.nodes[name].machine)
         && s.nodes[name].proc.Idle? && s.nodes[name].due.Some?
         && s.now <= s.nodes[name].due.value <= w.latest + 30 * SECOND
         && DeadlineKnown(cfg, w, s.nodes[name].machine, s.nodes[name].due.value)
  }

  /** Fail open: once the clock has passed the bound of its rank, a watched Machine is
      released, with its reset concluded, whatever Talos answered.  Rank 0 (a worker, or
      the first control-plane Machine) waits one attempt past deadline and backoff; each
      further rank adds the 15s hold and one more attempt. */
  lemma ReleasedInTime(cfg: Config, w: Watch, s: State, events: seq<Event>, name: string)
    requires Settings(cfg, w) && AtTheGate(cfg, w, s) && TimelyRun(cfg, w, s, events) && name in w.names
    ensures IsRun(cfg, s, events)
    ensures var s' := After(cfg, s, events);
            var attempt := (2 * w.peers + 4) * cfg.etcdCallTimeout + cfg.resetCallTimeout;
            && name in s'.nodes
            && (s'.now > w.latest + 30 * SECOND + attempt + w.rank[name] * (15 * SECOND + attempt) ==>
                  ResetKey in s'.nodes[name].machine.annotations
                  && PreTerminate("/talos-teardown") !in s'.nodes[name].machine.annotations)
  {
    forall other <- w.names ensures other in s.nodes && Watched(cfg, w, other, s.nodes[other], s.now) {
      BoundMonotone(cfg, w, 0, w.rank[other]);
    }
    RunKeepsTimedInv(cfg, w, s, events);
    var s' := After(cfg, s, events);
    var node := s'.nodes[name];
    assert Watched(cfg, w, name, node, s'.now);
    BoundClosed(cfg, w, w.rank[name]);
    ProbesMonotone(cfg, 0, w.peers);
    if node.proc.Running? { RestNonNegative(cfg, w, node.proc.stage); }
  }

  // --- time is never blocked by the assumptions -----------------------------

  /** The API server answers, every other call fails. */
  predicate Plain(proc: Proc, reply: Reply) {
    match proc
    case Idle => false
    case Reading => reply.TheMachine?
    case Running(stage, _, _) =>
      if Patching(stage) then reply.Ok?
      else if stage.ReadCluster? then reply.TheCluster? || reply.NotFound?
      else if stage.HoldCheck? then reply.ControlPlane?
      else reply.Failed?
  }

  /** A truthful answer to the pending call. */
  lemma SomeReply(cfg: Config, s: State, name: string) returns (e: Event)
    requires Inv(cfg, s) && name in s.nodes && !s.nodes[name].proc.Idle?
    ensures e.Step? && e.name == name && Enabled(cfg, s, e) && Plain(s.nodes[name].proc, e.reply)
  {
    var node := s.nodes[name];
    assert NodeInv(cfg, name, node);
    forall other <- s.nodes ensures s.nodes[other].machine.name == other {
      assert NodeInv(cfg, other, s.nodes[other]);
    }
    if node.proc.Reading? {
      e := Step(name, TheMachine(node.machine), false);
    } else if Patching(node.proc.stage) {
      e := Step(name, Ok, true);
    } else if node.proc.stage.ReadCluster? {
      e := Step(name, if s.cluster.Gone? then NotFound else TheCluster(s.cluster.Deleting?), false);
    } else if node.proc.stage.HoldCheck? {
      var machines := ListingExists(s);
      e := Step(name, ControlPlane(machines), false);
    } else {
      e := Step(name, Failed, false);
    }
  }

  lemma OwnEventFrame(cfg: Config, s: State, e: Event, name: string)
    requires Enabled(cfg, s, e) && (e == Begin(name) || (e.Step? && e.name == name))
    ensures var after := Apply(cfg, s, e);
            after.nodes.Keys == s.nodes.Keys && forall other <- s.nodes :: other != name ==> after.nodes[other] == s.nodes[other]
  {
  }

  lemma OwnEventCounts(cfg: Config, s: State, e: Event, name: string)
    requires Inv(cfg, s) && Enabled(cfg, s, e) && (e == Begin(name) || (e.Step? && e.name == name))
    requires s.nodes[name].machine.deletion.Some?
    ensures Contenders(Apply(cfg, s, e)) <= Contenders(s) + {name}
    ensures Candidates(Apply(cfg, s, e)) == Candidates(s)
  {
    OwnEventFrame(cfg, s, e, name);
    DeletionKept(cfg, s, e, name);
    SameCounts(s, Apply(cfg, s, e), name);
  }

  /** All but one deleting Machine as before. */
  lemma SameCounts(s: State, t: State, name: string)
    requires t.nodes.Keys == s.nodes.Keys && forall other <- s.nodes :: other != name ==> t.nodes[other] == s.nodes[other]
    requires name in s.nodes && s.nodes[name].machine.deletion.Some? && t.nodes[name].machine.deletion.Some?
    ensures Contenders(t) <= Contenders(s) + {name} && Candidates(t) == Candidates(s)
  {
  }

  /** The bound holds whatever Talos does: of a watched Machine's calls, those that do not go
      to the API server may be answered by anything. */
  lemma TalosIsFree(cfg: Config, w: Watch, s: State, name: string, reply: Reply, applied: bool)
    requires Settings(cfg, w) && Inv(cfg, s) && TimedInv(cfg, w, s)
    requires name in w.names && HasHook(s.nodes[name].machine) && s.nodes[name].proc.Running?
    requires var request := PendingOf(cfg, s.nodes[name].proc);
             !request.PatchAnnotations? && !request.GetCluster? && !request.ListControlPlane?
    ensures Enabled(cfg, s, Step(name, reply, applied)) && Timely(cfg, w, s, Step(name, reply, applied))
  {
    assert NodeInv(cfg, name, s.nodes[name]) && Watched(cfg, w, name, s.nodes[name], s.now);
    EnvironmentIsFree(cfg, s, name, reply, applied, Live, 0);
    NotTheApi(cfg, s.nodes[name].proc, reply);
    OwnEventCounts(cfg, s, Step(name, reply, applied), name);
  }

  lemma NotTheApi(cfg: Config, proc: Proc, reply: Reply)
    requires proc.Running?
    requires var request := PendingOf(cfg, proc);
             !request.PatchAnnotations? && !request.GetCluster? && !request.ListControlPlane?
    ensures ApiWorks(proc, reply)
  {
  }

  /** A hooked watched Machine can always be picked up, or its pending call answered. */
  lemma OwnEvent(cfg: Config, w: Watch, s: State, name: string) returns (e: Event)
    requires Settings(cfg, w) && Inv(cfg, s) && TimedInv(cfg, w, s)
    requires name in w.names && HasHook(s.nodes[name].machine)
    ensures Enabled(cfg, s, e) && Timely(cfg, w, s, e)
    ensures if s.nodes[name].proc.Idle? then e == Begin(name)
            else e.Step? && e.name == name && Plain(s.nodes[name].proc, e.reply)
  {
    assert NodeInv(cfg, name, s.nodes[name]) && Watched(cfg, w, name, s.nodes[name], s.now);
    if s.nodes[name].proc.Idle? {
      e := Begin(name);
    } else {
      e := SomeReply(cfg, s, name);
    }
    OwnEventCounts(cfg, s, e, name);
  }

  /** The watched Machines whose next event is due now: time may not pass before it. */
  function Blocking(w: Watch, s: State): set<string> {
    set name <- w.names | name in s.nodes && Blocks(s.nodes[name], s.now)
  }

  predicate Blocks(node: Node, now: int) {
    HasHook(node.machine) && node.due.Some? && node.due.value <= now
  }

  /** How many plain answers it takes at most until a reconcile waits for time to pass. */
  function StepsLeft(proc: Proc): nat {
    match proc
    case Idle => 12
    case Reading => 11
    case Running(stage, _, _) => StageSteps(stage)
  }

  function StageSteps(stage: Stage): nat {
    match stage
    case StampObserved(_) => 10
    case ReadCluster(_) => 9
    case HoldCheck(_) => 8
    case EtcdConfig(_) => 7
    case PeerList(_) => 7
    case Forfeit(_, _, _, _) => 7
    case Leave(_, _, _, _) => 6
    case Remove(_, _, _, _) => 5
    case StampEtcd(_, _) => 4
    case StampReset(_, _) => 2
    case Release => 1
    case _ => if Probing(stage) then 7 + Remaining(stage.peers, stage.i) else if Acting(stage) then 6 else 3
  }

  /** A plain answer leads on to a stage with fewer steps left, or ends the reconcile. */
  lemma PlainAnswer(cfg: Config, stage: Stage, snap: Machine, reply: Reply, now: int)
    requires WellIndexed(stage) && !stage.StampHook? && !stage.Credentials?
    requires Plain(Running(stage, snap, []), reply)
    ensures var next := Advance(cfg, stage, snap, reply, now);
            next.Proceed? ==> StageSteps(next.stage) < StageSteps(stage)
  {
    if Acting(stage) {
      PlainAct(cfg, stage, snap, reply, now);
    }
  }

  lemma PlainAct(cfg: Config, stage: Stage, snap: Machine, reply: Reply, now: int)
    requires WellIndexed(stage) && Acting(stage) && reply.Failed?
    ensures var next := AfterAct(cfg, stage, snap, reply, now);
            next.Proceed? ==> StageSteps(next.stage) < StageSteps(stage)
  {
  }

  lemma OwnEventUnblocks(cfg: Config, w: Watch, s: State, e: Event, name: string)
    requires Settings(cfg, w) && Inv(cfg, s) && TimedInv(cfg, w, s) && name in w.names && HasHook(s.nodes[name].machine)
    requires Enabled(cfg, s, e)
    requires if s.nodes[name].proc.Idle? then e == Begin(name)
             else e.Step? && e.name == name && Plain(s.nodes[name].proc, e.reply)
    ensures var node' := Apply(cfg, s, e).nodes[name];
            Blocks(node', s.now) ==> StepsLeft(node'.proc) < StepsLeft(s.nodes[name].proc)
  {
    var node := s.nodes[name];
    assert NodeInv(cfg, name, node) && Watched(cfg, w, name, node, s.now);
    if !node.proc.Idle? {
      var served := if e.applied then node.(machine := Served(node.machine, PendingOf(cfg, node.proc))) else node;
      if node.proc.Running? {
        StageOnTime(cfg, w, name, node, s.now);
        SettleUnblocks(cfg, served, e.reply, s.now);
      } else {
        ReadUnblocks(cfg, served, e.reply, s.now);
      }
    }
  }

  lemma SettleUnblocks(cfg: Config, node: Node, reply: Reply, now: int)
    requires node.proc.Running? && WellIndexed(node.proc.stage) && !node.proc.stage.StampHook? && !node.proc.stage.Credentials?
    requires Plain(node.proc, reply)
    ensures var node' := Settle(cfg, node, reply, now);
            Blocks(node', now) ==> StepsLeft(node'.proc) < StepsLeft(node.proc)
  {
    PlainAnswer(cfg, node.proc.stage, node.proc.snap, reply, now);
    BackoffRange(node.failures);
  }

  lemma ReadUnblocks(cfg: Config, node: Node, reply: Reply, now: int)
    requires node.proc.Reading? && reply.TheMachine? && AtGate(reply.machine)
    ensures var node' := Settle(cfg, node, reply, now);
            Blocks(node', now) ==> StepsLeft(node'.proc) < StepsLeft(node.proc)
  {
  }

  lemma {:induction false} TimelyAppend(cfg: Config, w: Watch, s: State, events: seq<Event>, more: seq<Event>)
    requires TimelyRun(cfg, w, s, events) && IsRun(cfg, s, events) && TimelyRun(cfg, w, After(cfg, s, events), more)
    requires IsRun(cfg, After(cfg, s, events), more)
    ensures TimelyRun(cfg, w, s, events + more) && IsRun(cfg, s, events + more)
    ensures After(cfg, s, events + more) == After(cfg, After(cfg, s, events), more)
    decreases |events|
  {
    if events == [] {
      assert events + more == more;
    } else {
      assert (events + more)[1..] == events[1..] + more;
      TimelyAppend(cfg, w, Apply(cfg, s, events[0]), events[1..], more);
    }
  }

  lemma TimelyStep(cfg: Config, w: Watch, s: State, e: Event)
    requires Settings(cfg, w) && Inv(cfg, s) && TimedInv(cfg, w, s) && Enabled(cfg, s, e) && Timely(cfg, w, s, e)
    ensures TimelyRun(cfg, w, s, [e]) && IsRun(cfg, s, [e]) && After(cfg, s, [e]) == Apply(cfg, s, e)
    ensures Inv(cfg, Apply(cfg, s, e)) && TimedInv(cfg, w, Apply(cfg, s, e))
  {
    assert [e][1..] == [];
    assert TimelyRun(cfg, w, Apply(cfg, s, e), []);
    RunKeepsTimedInv(cfg, w, s, [e]);
    assert After(cfg, s, [e]) == After(cfg, Apply(cfg, s, e), []);
  }

  /** A blocking Machine's own event makes no other one block. */
  lemma NoNewBlock(cfg: Config, w: Watch, s: State, e: Event, name: string)
    requires Enabled(cfg, s, e) && (e == Begin(name) || (e.Step? && e.name == name)) && name in Blocking(w, s)
    ensures Apply(cfg, s, e).now == s.now && Blocking(w, Apply(cfg, s, e)) <= Blocking(w, s)
  {
    OwnEventFrame(cfg, s, e, name);
  }

  /** One Machine's events, until it does not block the clock any more. */
  lemma {:induction false} Unblock(cfg: Config, w: Watch, s: State, name: string) returns (events: seq<Event>)
    requires Settings(cfg, w) && Inv(cfg, s) && TimedInv(cfg, w, s) && name in Blocking(w, s)
    ensures TimelyRun(cfg, w, s, events) && IsRun(cfg, s, events)
    ensures After(cfg, s, events).now == s.now && Blocking(w, After(cfg, s, events)) <= Blocking(w, s) - {name}
    decreases StepsLeft(s.nodes[name].proc)
  {
    var e := OwnEvent(cfg, w, s, name);
    var t := Apply(cfg, s, e);
    TimelyStep(cfg, w, s, e);
    NoNewBlock(cfg, w, s, e, name);
    OwnEventUnblocks(cfg, w, s, e, name);
    events := [e];
    if name in Blocking(w, t) {
      var rest := Unblock(cfg, w, t, name);
      TimelyAppend(cfg, w, s, [e], rest);
      events := [e] + rest;
    }
  }

  /** The assumptions of the bound never stop the clock for good: from every state they
      allow, finitely many events they allow, taking no time, lead to one where time may
      pass. */
  lemma {:induction false} ClockMoves(cfg: Config, w: Watch, s: State) returns (events: seq<Event>)
    requires Settings(cfg, w) && Inv(cfg, s) && TimedInv(cfg, w, s)
    ensures TimelyRun(cfg, w, s, events) && IsRun(cfg, s, events) && After(cfg, s, events).now == s.now
    ensures Timely(cfg, w, After(cfg, s, events), Tick(1))
    decreases |Blocking(w, s)|
  {
    if Blocking(w, s) == {} {
      events := [];
      MayTick(cfg, w, s);
    } else {
      var name :| name in Blocking(w, s);
      var first := Unblock(cfg, w, s, name);
      RunKeepsTimedInv(cfg, w, s, first);
      var t := After(cfg, s, first);
      SmallerSet(Blocking(w, t), Blocking(w, s), name);
      var rest := ClockMoves(cfg, w, t);
      TimelyAppend(cfg, w, s, first, rest);
      events := first + rest;
    }
  }

  lemma SmallerSet(a: set<string>, b: set<string>, x: string)
    requires a <= b - {x} && x in b
    ensures |a| < |b|
  {
    assert b == (b - {x}) + {x};
    SubsetSize(a, b - {x});
  }

  lemma {:induction false} SubsetSize(a: set<string>, b: set<string>)
    requires a <= b
    ensures |a| <= |b|
  {
    if a != {} {
      var x :| x in a;
      SubsetSize(a - {x}, b - {x});
    }
  }

  lemma MayTick(cfg: Config, w: Watch, s: State)
    requires Settings(cfg, w) && TimedInv(cfg, w, s) && Blocking(w, s) == {}
    ensures Timely(cfg, w, s, Tick(1))
  {
    forall name <- w.names | HasHook(s.nodes[name].machine) && s.nodes[name].due.Some?
      ensures s.now + 1 <= s.nodes[name].due.value
    {
      assert name !in Blocking(w, s);
    }
  }
}
