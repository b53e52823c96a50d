/** What a reconcile has already exchanged when it makes a call: membership is verified
    before it is changed, and giving up is never recorded without a failure. */
module Attempt {
  import opened Common
  import opened Machines
  import opened PeerOrder
  import opened Protocol
  import opened System
  import opened PhaseOrder
  import Calls

  // --- evidence in a log ----------------------------------------------------

  /** The node reported a running, healthy etcd. */
  predicate HealthyAnswer(x: Exchange, node: string) {
    x.request == ServiceInfo(node) && Calls.RunsHealthy(x.reply)
  }

  /** The node listed the members, and `found` is the victim's id among them, if any. */
  predicate ListAnswer(x: Exchange, node: string, victim: Machine, found: Option<nat>) {
    && x.request == MemberList(node) && x.reply.MembersAre?
    && match FindMember(x.reply.response, HostnameCandidates(victim))
       case None => found.None?
       case Some(member) => found == Some(member.id)
  }

  /** A healthy answer and, later, a member list, both from the same node. */
  ghost predicate VerifiedBy(log: seq<Exchange>, node: string, victim: Machine, found: Option<nat>) {
    exists h, l :: 0 <= h < l < |log| && HealthyAnswer(log[h], node) && ListAnswer(log[l], node, victim, found)
  }

  /** The same, shown to the proofs that ask. */
  ghost predicate Verified(log: seq<Exchange>, node: string, victim: Machine, found: Option<nat>) {
    forall ask {:trigger OnDemand(ask)} :: OnDemand(ask) ==> VerifiedBy(log, node, victim, found)
  }

  lemma VerifiedMeans(log: seq<Exchange>, node: string, victim: Machine, found: Option<nat>)
    ensures Verified(log, node, victim, found) <==> VerifiedBy(log, node, victim, found)
  {
    assert OnDemand(0);
  }

  ghost predicate Healthy(log: seq<Exchange>, node: string) {
    exists h :: 0 <= h < |log| && HealthyAnswer(log[h], node)
  }

  /** One of the four steps of probing `node` went wrong. */
  predicate FailsProbe(x: Exchange, node: string) {
    || (x.request == ResolveAddress(node) && !(x.reply.AddressIs? && x.reply.address != ""))
    || (x.request == Dial(node) && !x.reply.Ok?)
    || (x.request == ServiceInfo(node) && !Calls.RunsHealthy(x.reply))
    || (x.request == MemberList(node) && !x.reply.MembersAre?)
  }

  ghost predicate ProbeFailed(log: seq<Exchange>, node: string) {
    exists p :: 0 <= p < |log| && FailsProbe(log[p], node)
  }

  /** The candidates come, in order, from a listing made in this reconcile. */
  predicate ListingAnswer(x: Exchange, victim: Machine, peers: seq<Machine>) {
    x.request.ListControlPlane? && x.reply.ControlPlane? && OrderPeers(x.reply.machines, victim) == peers
  }

  ghost predicate ListedPeers(log: seq<Exchange>, victim: Machine, peers: seq<Machine>) {
    exists q :: 0 <= q < |log| && ListingAnswer(log[q], victim, peers)
  }

  ghost predicate AllFailed(log: seq<Exchange>, peers: seq<Machine>, n: nat)
    requires n <= |peers|
  {
    forall j :: 0 <= j < n ==> ProbeFailed(log, peers[j].name)
  }

  ghost predicate Acknowledged(log: seq<Exchange>, request: Request) {
    exists a :: 0 <= a < |log| && log[a].request == request && log[a].reply.Ok?
  }

  /** The removal attempt failed: no credentials, no list, the removal itself refused, or
      every listed candidate tried in vain. */
  ghost predicate RemovalFailed(log: seq<Exchange>, victim: Machine) {
    && log != []
    && var x := log[|log| - 1];
       || (x.request.LoadConfig? && !x.reply.Ok?)
       || (x.request.ListControlPlane? && !x.reply.ControlPlane?)
       || (x.request.RemoveMember? && !x.reply.Ok?)
       || exists peers :: ListedPeers(log, victim, peers) && AllFailed(log, peers, |peers|)
  }

  /** The reset attempt failed with this exchange. */
  predicate FailsReset(x: Exchange, victim: Machine) {
    || (x.request == ResolveAddress(victim.name) && !x.reply.AddressIs?)
    || (x.request.LoadConfig? && !x.reply.Ok?)
    || (x.request == Dial(victim.name) && !x.reply.Ok?)
    || (x.request == ResetGeneric(victim.name) && !x.reply.Ok?)
  }

  // --- the invariant --------------------------------------------------------

  /** The Cluster was read as missing or being deleted. */
  predicate SaysClusterGoes(x: Exchange) {
    x.request.GetCluster? && (x.reply.NotFound? || x.reply == TheCluster(true))
  }

  /** What stands behind an etcd conclusion about to be stamped. */
  ghost predicate EtcdEvidence(cfg: Config, obs: int, etcd: EtcdOutcome, snap: Machine, log: seq<Exchange>) {
    match etcd
    case NotMember => exists node :: Verified(log, node, snap, None)
    case Left => Acknowledged(log, LeaveCluster(snap.name))
    case Removed => exists node, id :: Acknowledged(log, RemoveMember(node, id))
    case Orphaned => RemovalFailed(log, snap) && log[|log| - 1].at > obs + cfg.etcdTimeout
    case SkippedClusterDelete => log != [] && SaysClusterGoes(log[|log| - 1])
  }

  /** What stands behind a reset conclusion about to be stamped. */
  ghost predicate ResetEvidence(cfg: Config, obs: int, reset: ResetOutcome, snap: Machine, log: seq<Exchange>) {
    match reset
    case ResetDone => Acknowledged(log, ResetGeneric(snap.name))
    case SkippedTimeout => log != [] && FailsReset(log[|log| - 1], snap) && log[|log| - 1].at > obs + cfg.resetTimeout
    case SkippedNoAddress => log != [] && log[|log| - 1].request == ResolveAddress(snap.name) && log[|log| - 1].reply == AddressIs("")
  }

  /** Candidates `0..i` were tried, and failed. */
  ghost predicate TriedBefore(log: seq<Exchange>, snap: Machine, peers: seq<Machine>, i: nat) {
    i <= |peers| && ListedPeers(log, snap, peers) && AllFailed(log, peers, i)
  }

  ghost predicate LogInv(cfg: Config, stage: Stage, snap: Machine, log: seq<Exchange>) {
    && WellIndexed(stage)
    && (Probing(stage) || Acting(stage) ==> TriedBefore(log, snap, stage.peers, stage.i))
    && (stage.PeerMembers? ==> Healthy(log, PeerName(stage.peers, stage.i)))
    && (Acting(stage) ==> Verified(log, PeerName(stage.peers, stage.i), snap, Some(stage.id)))
    && (stage.StampEtcd? ==> EtcdEvidence(cfg, stage.obs, stage.etcd, snap, log))
    && (stage.StampReset? ==> ResetEvidence(cfg, stage.obs, stage.reset, snap, log))
  }

  ghost predicate Evidence(cfg: Config, s: State) {
    forall name <- s.nodes ::
      var proc := s.nodes[name].proc;
      proc.Running? ==> LogInv(cfg, proc.stage, proc.snap, proc.log)
  }

  /** Evidence is not lost when the log grows. */
  lemma TriedBeforeGrows(log: seq<Exchange>, x: Exchange, snap: Machine, peers: seq<Machine>, i: nat)
    requires TriedBefore(log, snap, peers, i)
    ensures TriedBefore(log + [x], snap, peers, i)
  {
    var grown := log + [x];
    forall j | 0 <= j < i ensures ProbeFailed(grown, peers[j].name) {
      assert ProbeFailed(log, peers[j].name);
      var p :| 0 <= p < |log| && FailsProbe(log[p], peers[j].name);
      assert grown[p] == log[p];
    }
    var q :| 0 <= q < |log| && ListingAnswer(log[q], snap, peers);
    assert grown[q] == log[q];
  }

  lemma VerifiedGrows(log: seq<Exchange>, x: Exchange, node: string, victim: Machine, found: Option<nat>)
    requires Verified(log, node, victim, found)
    ensures Verified(log + [x], node, victim, found)
  {
    VerifiedMeans(log, node, victim, found);
    var h, l :| 0 <= h < l < |log| && HealthyAnswer(log[h], node) && ListAnswer(log[l], node, victim, found);
    assert (log + [x])[h] == log[h] && (log + [x])[l] == log[l];
    VerifiedMeans(log + [x], node, victim, found);
  }

  lemma ListAfterHealth(log: seq<Exchange>, x: Exchange, node: string, victim: Machine, found: Option<nat>)
    requires Healthy(log, node) && ListAnswer(x, node, victim, found)
    ensures Verified(log + [x], node, victim, found)
  {
    var h :| 0 <= h < |log| && HealthyAnswer(log[h], node);
    assert (log + [x])[h] == log[h] && (log + [x])[|log|] == x;
    VerifiedMeans(log + [x], node, victim, found);
  }

  lemma NextCandidate(log: seq<Exchange>, x: Exchange, snap: Machine, peers: seq<Machine>, i: nat)
    requires i < |peers| && TriedBefore(log, snap, peers, i) && FailsProbe(x, peers[i].name)
    ensures TriedBefore(log + [x], snap, peers, i + 1)
  {
    TriedBeforeGrows(log, x, snap, peers, i);
    assert (log + [x])[|log|] == x;
    assert ProbeFailed(log + [x], peers[i].name);
  }

  /** Giving up after this failure. */
  lemma OrphanedLogs(cfg: Config, snap: Machine, obs: int, log: seq<Exchange>, x: Exchange)
    requires RemovalFailed(log + [x], snap)
    ensures var next := EtcdFailed(cfg, snap, obs, x.at);
            next.Proceed? ==> LogInv(cfg, next.stage, next.snap, log + [x])
  {
    assert (log + [x])[|log|] == x;
  }

  lemma FailedProbeLogs(cfg: Config, stage: Stage, snap: Machine, log: seq<Exchange>, reply: Reply, now: int)
    requires Probing(stage) && LogInv(cfg, stage, snap, log) && !Answered(stage, reply)
    ensures var next := EnterProbe(cfg, snap, stage.obs, stage.peers, stage.i + 1, now);
            next.Proceed? ==>
              LogInv(cfg, next.stage, next.snap, log + [Exchange(Pending(cfg, stage, snap), reply, now)])
  {
    var x := Exchange(Pending(cfg, stage, snap), reply, now);
    ProbeFails(cfg, stage, snap, reply, now);
    NextCandidate(log, x, snap, stage.peers, stage.i);
    if stage.i + 1 == |stage.peers| { AllTriedLogs(cfg, snap, stage.obs, stage.peers, log, x); }
  }

  /** The last candidate failed, too. */
  lemma AllTriedLogs(cfg: Config, snap: Machine, obs: int, peers: seq<Machine>, log: seq<Exchange>, x: Exchange)
    requires TriedBefore(log + [x], snap, peers, |peers|)
    ensures var next := EtcdFailed(cfg, snap, obs, x.at);
            next.Proceed? ==> LogInv(cfg, next.stage, next.snap, log + [x])
  {
    assert ListedPeers(log + [x], snap, peers) && AllFailed(log + [x], peers, |peers|);
    OrphanedLogs(cfg, snap, obs, log, x);
  }

  lemma ProbeFails(cfg: Config, stage: Stage, snap: Machine, reply: Reply, now: int)
    requires Probing(stage) && WellIndexed(stage) && !Answered(stage, reply)
    ensures var x := Exchange(Pending(cfg, stage, snap), reply, now);
            stage.i < |stage.peers| && FailsProbe(x, stage.peers[stage.i].name)
  {
    if reply.Services? { Calls.HealthMeans(reply.services); }
  }

  /** A healthy answer, on the way to the member list. */
  lemma HealthLogs(cfg: Config, stage: Stage, snap: Machine, log: seq<Exchange>, reply: Reply, now: int)
    requires stage.PeerHealth? && LogInv(cfg, stage, snap, log) && Answered(stage, reply)
    ensures LogInv(cfg, PeerMembers(stage.obs, stage.peers, stage.i), snap, log + [Exchange(Pending(cfg, stage, snap), reply, now)])
  {
    var x := Exchange(Pending(cfg, stage, snap), reply, now);
    TriedBeforeGrows(log, x, snap, stage.peers, stage.i);
    Calls.HealthMeans(reply.services);
    assert (log + [x])[|log|] == x && HealthyAnswer(x, PeerName(stage.peers, stage.i));
  }

  /** A member list, on the way to an action or to the conclusion that there is no member. */
  lemma MembersLogs(cfg: Config, stage: Stage, snap: Machine, log: seq<Exchange>, reply: Reply, now: int)
    requires stage.PeerMembers? && LogInv(cfg, stage, snap, log) && Answered(stage, reply)
    ensures var next := AfterProbe(cfg, stage, snap, reply, now);
            next.Proceed? ==>
              LogInv(cfg, next.stage, next.snap, log + [Exchange(Pending(cfg, stage, snap), reply, now)])
  {
    var x := Exchange(Pending(cfg, stage, snap), reply, now);
    TriedBeforeGrows(log, x, snap, stage.peers, stage.i);
    ListAfterHealth(log, x, PeerName(stage.peers, stage.i), snap,
                    match FindMember(reply.response, HostnameCandidates(snap))
                    case None => None
                    case Some(member) => Some(member.id));
  }

  lemma ProbeLogs(cfg: Config, stage: Stage, snap: Machine, log: seq<Exchange>, reply: Reply, now: int)
    requires Probing(stage) && LogInv(cfg, stage, snap, log)
    ensures var next := AfterProbe(cfg, stage, snap, reply, now);
            next.Proceed? ==>
              LogInv(cfg, next.stage, next.snap, log + [Exchange(Pending(cfg, stage, snap), reply, now)])
  {
    if !Answered(stage, reply) {
      FailedProbeLogs(cfg, stage, snap, log, reply, now);
    } else if stage.PeerHealth? {
      HealthLogs(cfg, stage, snap, log, reply, now);
    } else if stage.PeerMembers? {
      MembersLogs(cfg, stage, snap, log, reply, now);
    } else {
      TriedBeforeGrows(log, Exchange(Pending(cfg, stage, snap), reply, now), snap, stage.peers, stage.i);
    }
  }

  lemma RemoveLogs(cfg: Config, stage: Stage, snap: Machine, log: seq<Exchange>, reply: Reply, now: int)
    requires stage.Remove?
    ensures var next := AfterAct(cfg, stage, snap, reply, now);
            next.Proceed? ==>
              next.stage.StampEtcd?
              && LogInv(cfg, next.stage, next.snap, log + [Exchange(Pending(cfg, stage, snap), reply, now)])
  {
    var x := Exchange(Pending(cfg, stage, snap), reply, now);
    assert (log + [x])[|log|] == x;
    if reply.Ok? {
      assert Acknowledged(log + [x], RemoveMember(PeerName(stage.peers, stage.i), stage.id));
    } else {
      assert RemovalFailed(log + [x], snap);
    }
  }

  lemma SameTarget(cfg: Config, stage: Stage, snap: Machine, reply: Reply, now: int)
    requires Acting(stage)
    ensures var next := AfterAct(cfg, stage, snap, reply, now);
            next.Proceed? && Acting(next.stage) ==>
              next.snap == snap && next.stage.peers == stage.peers && next.stage.i == stage.i && next.stage.id == stage.id
  {
  }

  lemma ActingGrows(cfg: Config, stage: Stage, next: Stage, snap: Machine, log: seq<Exchange>, x: Exchange)
    requires Acting(stage) && LogInv(cfg, stage, snap, log)
    requires Acting(next) && next.peers == stage.peers && next.i == stage.i && next.id == stage.id
    ensures LogInv(cfg, next, snap, log + [x])
  {
    TriedBeforeGrows(log, x, snap, stage.peers, stage.i);
    VerifiedGrows(log, x, PeerName(stage.peers, stage.i), snap, Some(stage.id));
  }

  lemma ApproachLogs(cfg: Config, stage: Stage, snap: Machine, log: seq<Exchange>, reply: Reply, now: int)
    requires Acting(stage) && LogInv(cfg, stage, snap, log)
    ensures var next := AfterAct(cfg, stage, snap, reply, now);
            next.Proceed? && Acting(next.stage)
            ==> LogInv(cfg, next.stage, next.snap, log + [Exchange(Pending(cfg, stage, snap), reply, now)])
  {
    SameTarget(cfg, stage, snap, reply, now);
    var next := AfterAct(cfg, stage, snap, reply, now);
    if next.Proceed? && Acting(next.stage) {
      ActingGrows(cfg, stage, next.stage, snap, log, Exchange(Pending(cfg, stage, snap), reply, now));
    }
  }

  lemma LeaveLogs(cfg: Config, stage: Stage, snap: Machine, log: seq<Exchange>, reply: Reply, now: int)
    requires Acting(stage) && !stage.Remove?
    ensures var next := AfterAct(cfg, stage, snap, reply, now);
            next.Proceed? && !Acting(next.stage)
            ==> LogInv(cfg, next.stage, next.snap, log + [Exchange(Pending(cfg, stage, snap), reply, now)])
  {
    assert (log + [Exchange(Pending(cfg, stage, snap), reply, now)])[|log|].reply == reply;
  }

  lemma ActLogs(cfg: Config, stage: Stage, snap: Machine, log: seq<Exchange>, reply: Reply, now: int)
    requires Acting(stage) && LogInv(cfg, stage, snap, log)
    ensures var next := AfterAct(cfg, stage, snap, reply, now);
            next.Proceed? ==> LogInv(cfg, next.stage, next.snap, log + [Exchange(Pending(cfg, stage, snap), reply, now)])
  {
    if stage.Remove? {
      RemoveLogs(cfg, stage, snap, log, reply, now);
    } else {
      ApproachLogs(cfg, stage, snap, log, reply, now);
      LeaveLogs(cfg, stage, snap, log, reply, now);
    }
  }

  /** The listing: candidates to probe, or a failure. */
  lemma PeerListLogs(cfg: Config, stage: Stage, snap: Machine, log: seq<Exchange>, reply: Reply, now: int)
    requires stage.PeerList?
    ensures var next := AfterLead(cfg, stage, snap, reply, now);
            next.Proceed? ==>
              LogInv(cfg, next.stage, next.snap, log + [Exchange(Pending(cfg, stage, snap), reply, now)])
  {
    var x := Exchange(Pending(cfg, stage, snap), reply, now);
    assert (log + [x])[|log|] == x;
    if reply.ControlPlane? {
      assert ListingAnswer(x, snap, OrderPeers(reply.machines, snap));
      assert ListedPeers(log + [x], snap, OrderPeers(reply.machines, snap));
    }
    if !reply.ControlPlane? || OrderPeers(reply.machines, snap) == [] {
      OrphanedLogs(cfg, snap, stage.obs, log, x);
    }
  }

  lemma LeadLogs(cfg: Config, stage: Stage, snap: Machine, log: seq<Exchange>, reply: Reply, now: int)
    requires !Patching(stage) && !Probing(stage) && !Acting(stage) && !Resetting(stage)
    ensures var next := AfterLead(cfg, stage, snap, reply, now);
            next.Proceed? ==>
              LogInv(cfg, next.stage, next.snap, log + [Exchange(Pending(cfg, stage, snap), reply, now)])
  {
    if stage.PeerList? {
      PeerListLogs(cfg, stage, snap, log, reply, now);
    } else if stage.EtcdConfig? && !reply.Ok? {
      OrphanedLogs(cfg, snap, stage.obs, log, Exchange(Pending(cfg, stage, snap), reply, now));
    }
  }

  lemma ResetLogs(cfg: Config, stage: Stage, snap: Machine, log: seq<Exchange>, reply: Reply, now: int)
    requires Resetting(stage)
    ensures var next := AfterReset(cfg, stage, snap, reply, now);
            next.Proceed? ==>
              LogInv(cfg, next.stage, next.snap, log + [Exchange(Pending(cfg, stage, snap), reply, now)])
  {
    var x := Exchange(Pending(cfg, stage, snap), reply, now);
    assert (log + [x])[|log|] == x;
  }

  lemma StampLogs(cfg: Config, stage: Stage, snap: Machine, log: seq<Exchange>, reply: Reply)
    requires Patching(stage)
    ensures var next := AfterStamp(cfg, stage, snap, reply);
            next.Proceed? ==> LogInv(cfg, next.stage, next.snap, log)
  {
  }

  lemma AdvanceLogs(cfg: Config, stage: Stage, snap: Machine, log: seq<Exchange>, reply: Reply, now: int)
    requires LogInv(cfg, stage, snap, log)
    ensures var next := Advance(cfg, stage, snap, reply, now);
            next.Proceed? ==>
              LogInv(cfg, next.stage, next.snap, log + [Exchange(Pending(cfg, stage, snap), reply, now)])
  {
    if Probing(stage) {
      ProbeLogs(cfg, stage, snap, log, reply, now);
    } else if Acting(stage) {
      ActLogs(cfg, stage, snap, log, reply, now);
    } else if Resetting(stage) {
      ResetLogs(cfg, stage, snap, log, reply, now);
    } else if Patching(stage) {
      StampLogs(cfg, stage, snap, log + [Exchange(Pending(cfg, stage, snap), reply, now)], reply);
    } else {
      LeadLogs(cfg, stage, snap, log, reply, now);
    }
  }

  lemma StepKeepsEvidence(cfg: Config, node: Node, reply: Reply, now: int)
    requires node.proc.Running? && LogInv(cfg, node.proc.stage, node.proc.snap, node.proc.log)
    ensures var proc := Settle(cfg, node, reply, now).proc;
            proc.Running? ==> LogInv(cfg, proc.stage, proc.snap, proc.log)
  {
    AdvanceLogs(cfg, node.proc.stage, node.proc.snap, node.proc.log, reply, now);
  }

  /** The first stage after reading stands on nothing. */
  lemma ReadKeepsEvidence(cfg: Config, m: Machine, now: int, log: seq<Exchange>)
    ensures var next := EnterMachine(cfg, m, now);
            next.Proceed? ==> LogInv(cfg, next.stage, next.snap, log)
  {
  }

  /** The reconcile that gets a reply. */
  lemma OwnEvidence(cfg: Config, s: State, name: string, reply: Reply, applied: bool)
    requires Evidence(cfg, s) && Enabled(cfg, s, Step(name, reply, applied))
    ensures var proc := Stepped(cfg, s, name, reply, applied).proc;
            proc.Running? ==> LogInv(cfg, proc.stage, proc.snap, proc.log)
  {
    var node := s.nodes[name];
    if node.proc.Running? {
      StepKeepsEvidence(cfg, if applied then node.(machine := Served(node.machine, PendingOf(cfg, node.proc))) else node, reply, s.now);
    } else {
      ReadEvidence(cfg, if applied then node.(machine := Served(node.machine, GetMachine)) else node, reply, s.now);
    }
  }

  lemma ReadEvidence(cfg: Config, node: Node, reply: Reply, now: int)
    requires node.proc.Reading?
    ensures var proc := Settle(cfg, node, reply, now).proc;
            proc.Running? ==> LogInv(cfg, proc.stage, proc.snap, proc.log)
  {
    if reply.TheMachine? { ReadKeepsEvidence(cfg, reply.machine, now, [] + [Exchange(GetMachine, reply, now)]); }
  }

  /** No other event gets a reconcile anywhere. */
  lemma OthersStay(cfg: Config, s: State, e: Event, name: string)
    requires Enabled(cfg, s, e) && name in Apply(cfg, s, e).nodes && !(e.Step? && e.name == name)
    ensures var proc := Apply(cfg, s, e).nodes[name].proc;
            proc.Running? ==> name in s.nodes && proc == s.nodes[name].proc
  {
  }

  lemma EventKeepsEvidence(cfg: Config, s: State, e: Event)
    requires Evidence(cfg, s) && Enabled(cfg, s, e)
    ensures Evidence(cfg, Apply(cfg, s, e))
  {
    var after := Apply(cfg, s, e);
    forall name <- after.nodes
      ensures var proc := after.nodes[name].proc;
              proc.Running? ==> LogInv(cfg, proc.stage, proc.snap, proc.log)
    {
      if e.Step? && e.name == name {
        OwnEvidence(cfg, s, name, e.reply, e.applied);
      } else {
        OthersStay(cfg, s, e, name);
      }
    }
  }

  lemma {:induction false} RunKeepsEvidence(cfg: Config, s: State, events: seq<Event>)
    requires Evidence(cfg, s) && IsRun(cfg, s, events)
    ensures Evidence(cfg, After(cfg, s, events))
    decreases |events|
  {
    if events != [] {
      EventKeepsEvidence(cfg, s, events[0]);
      RunKeepsEvidence(cfg, Apply(cfg, s, events[0]), events[1..]);
    }
  }

  // --- theorems -------------------------------------------------------------

  ghost predicate NothingRunning(s: State) {
    forall name <- s.nodes :: !s.nodes[name].proc.Running?
  }

  /** Verify, then act.  Whenever a leave or a removal is about to be sent, this very
      reconcile has a member list from a healthy peer, with the id it acts on; the peer
      was listed, is not the victim, not deleting, not leaving; the candidates are the
      listing in its order, and every one ranked before this peer failed its probe. */
  lemma VerifyThenAct(cfg: Config, s: State, events: seq<Event>, name: string)
    requires NothingRunning(s) && IsRun(cfg, s, events) && name in After(cfg, s, events).nodes
    requires var proc := After(cfg, s, events).nodes[name].proc;
             proc.Running? && (proc.stage.Leave? || proc.stage.Remove?)
    ensures var Running(stage, snap, log) := After(cfg, s, events).nodes[name].proc;
            && stage.i < |stage.peers|
            && var peer := stage.peers[stage.i];
               && (stage.Remove? ==> Pending(cfg, stage, snap) == RemoveMember(peer.name, stage.id))
               && VerifiedBy(log, peer.name, snap, Some(stage.id))
               && peer.name != snap.name && peer.deletion.None? && EtcdLeavingKey !in peer.annotations && WasListed(log, peer)
               && ListedPeers(log, snap, stage.peers) && AllFailed(log, stage.peers, stage.i)
  {
    RunKeepsEvidence(cfg, s, events);
    var proc := After(cfg, s, events).nodes[name].proc;
    ActingStandsOn(cfg, proc.stage, proc.snap, proc.log);
    ActionStandsOn(cfg, proc.stage, proc.snap, proc.log);
  }

  lemma ActingStandsOn(cfg: Config, stage: Stage, snap: Machine, log: seq<Exchange>)
    requires LogInv(cfg, stage, snap, log) && Acting(stage)
    ensures WellIndexed(stage) && stage.i < |stage.peers| && PeerName(stage.peers, stage.i) == stage.peers[stage.i].name
    ensures TriedBefore(log, snap, stage.peers, stage.i)
    ensures Verified(log, PeerName(stage.peers, stage.i), snap, Some(stage.id))
  {
  }

  lemma ActionStandsOn(cfg: Config, stage: Stage, snap: Machine, log: seq<Exchange>)
    requires stage.Leave? || stage.Remove?
    requires stage.i < |stage.peers| && PeerName(stage.peers, stage.i) == stage.peers[stage.i].name
    requires TriedBefore(log, snap, stage.peers, stage.i)
    requires Verified(log, PeerName(stage.peers, stage.i), snap, Some(stage.id))
    ensures var peer := stage.peers[stage.i];
            && (stage.Remove? ==> Pending(cfg, stage, snap) == RemoveMember(peer.name, stage.id))
            && VerifiedBy(log, peer.name, snap, Some(stage.id))
            && Eligible(peer, snap) && WasListed(log, peer)
            && ListedPeers(log, snap, stage.peers) && AllFailed(log, stage.peers, stage.i)
  {
    ListedPeersAreEligible(log, snap, stage.peers, stage.i);
    VerifiedMeans(log, PeerName(stage.peers, stage.i), snap, Some(stage.id));
  }

  ghost predicate WasListed(log: seq<Exchange>, peer: Machine) {
    exists q :: 0 <= q < |log| && log[q].reply.ControlPlane? && peer in log[q].reply.machines
  }

  lemma ListedPeersAreEligible(log: seq<Exchange>, victim: Machine, peers: seq<Machine>, i: nat)
    requires ListedPeers(log, victim, peers) && i < |peers|
    ensures Eligible(peers[i], victim) && WasListed(log, peers[i])
  {
    var q :| 0 <= q < |log| && ListingAnswer(log[q], victim, peers);
    OrderPeersOrders(log[q].reply.machines, victim);
    assert peers[i] in OrderPeers(log[q].reply.machines, victim);
  }

  /** Giving up is recorded only behind a failure of this same reconcile, past the
      phase's deadline; a skip only behind a Cluster read as going or gone; success only behind an acknowledgement or a verified absence. */
  lemma StampsHaveEvidence(cfg: Config, s: State, events: seq<Event>, name: string)
    requires NothingRunning(s) && IsRun(cfg, s, events) && name in After(cfg, s, events).nodes
    ensures var proc := After(cfg, s, events).nodes[name].proc;
            && (proc.Running? && proc.stage.StampEtcd? ==>
                  EtcdEvidence(cfg, proc.stage.obs, proc.stage.etcd, proc.snap, proc.log))
            && (proc.Running? && proc.stage.StampReset? ==>
                  ResetEvidence(cfg, proc.stage.obs, proc.stage.reset, proc.snap, proc.log))
  {
    RunKeepsEvidence(cfg, s, events);
  }

  /** And that is what the stamps say.  Over every run, a patch that sets the etcd or the
      reset annotation sets it to a text with the evidence for that text behind it, measured
      from the time of entry its own copy carries. */
  lemma StampedTextsHaveEvidence(cfg: Config, s: State, events: seq<Event>, name: string)
    requires WholeSecondCodec(cfg)
    requires Start(s) && IsRun(cfg, s, events) && name in After(cfg, s, events).nodes
    requires After(cfg, s, events).nodes[name].proc.Running?
    requires PendingOf(cfg, After(cfg, s, events).nodes[name].proc).PatchAnnotations?
    ensures var Running(stage, snap, log) := After(cfg, s, events).nodes[name].proc;
            var edits := Pending(cfg, stage, snap).edits;
            && (EtcdKey in edits ==> exists obs :: ObservedAt(cfg, snap.annotations) == Some(obs) && EtcdTextBacked(cfg, obs, edits[EtcdKey], snap, log))
            && (ResetKey in edits ==> exists obs :: ObservedAt(cfg, snap.annotations) == Some(obs) && ResetTextBacked(cfg, obs, edits[ResetKey], snap, log))
  {
    StartInv(cfg, s);
    RunKeepsInv(cfg, s, events);
    RunKeepsEvidence(cfg, s, events);
    var node := After(cfg, s, events).nodes[name];
    assert NodeInv(cfg, name, node);
    TextsBacked(cfg, node.proc.stage, node.proc.snap, node.proc.log);
  }

  ghost predicate EtcdTextBacked(cfg: Config, obs: int, text: Option<string>, snap: Machine, log: seq<Exchange>) {
    || (text == Some("not-member") && exists node :: Verified(log, node, snap, None))
    || (text == Some("left") && Acknowledged(log, LeaveCluster(snap.name)))
    || (text == Some("removed") && exists node, id :: Acknowledged(log, RemoveMember(node, id)))
    || (text == Some("orphaned") && RemovalFailed(log, snap) && log[|log| - 1].at > obs + cfg.etcdTimeout)
    || (text == Some("skipped-cluster-delete") && log != [] && SaysClusterGoes(log[|log| - 1]))
  }

  ghost predicate ResetTextBacked(cfg: Config, obs: int, text: Option<string>, snap: Machine, log: seq<Exchange>) {
    || (text == Some("done") && Acknowledged(log, ResetGeneric(snap.name)))
    || (text == Some("skipped-timeout") && log != [] && FailsReset(log[|log| - 1], snap) && log[|log| - 1].at > obs + cfg.resetTimeout)
    || (text == Some("skipped-no-address") && log != []
        && log[|log| - 1].request == ResolveAddress(snap.name) && log[|log| - 1].reply == AddressIs(""))
  }

  lemma TextsBacked(cfg: Config, stage: Stage, snap: Machine, log: seq<Exchange>)
    requires StageInv(cfg, stage, snap) && LogInv(cfg, stage, snap, log) && Patching(stage)
    ensures var edits := Pending(cfg, stage, snap).edits;
            && (EtcdKey in edits ==> exists obs :: ObservedAt(cfg, snap.annotations) == Some(obs) && EtcdTextBacked(cfg, obs, edits[EtcdKey], snap, log))
            && (ResetKey in edits ==> exists obs :: ObservedAt(cfg, snap.annotations) == Some(obs) && ResetTextBacked(cfg, obs, edits[ResetKey], snap, log))
  {
    var edits := Pending(cfg, stage, snap).edits;
    TargetOwnKeys(cfg, stage, snap.annotations);
    if EtcdKey in edits {
      assert edits[EtcdKey] == Some(EtcdText(stage.etcd)) && EtcdTextBacked(cfg, stage.obs, edits[EtcdKey], snap, log);
    }
    if ResetKey in edits {
      assert edits[ResetKey] == Some(ResetText(stage.reset)) && ResetTextBacked(cfg, stage.obs, edits[ResetKey], snap, log);
    }
  }
}
