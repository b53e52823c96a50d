/** etcd membership over whole runs: a control-plane node is not wiped while its
    member is still in the cluster, and nobody else's member is ever removed. */
module Membership {
  import opened Common
  import opened Machines
  import opened Hosts
  import opened Protocol
  import opened System
  import opened PhaseOrder

  // --- what is assumed of Talos and of names --------------------------------

  /** Host names are unique: of all members, those whose host name is one of a Machine's
      names, up to domains and case, are exactly its own. */
  ghost predicate WellMatched(cfg: Config, m: Machine) {
    forall id {:trigger cfg.hostname(id)} ::
      HostOf(m, cfg.hostname(id)) <==> cfg.owner(id) == m.name
  }

  ghost predicate FaithfulList(cfg: Config, etcd: set<nat>, response: MemberResponse) {
    && response.Some?
    && (forall i, j :: 0 <= i < |response.value| && 0 <= j < |response.value[i]| ==>
          response.value[i][j].id in etcd && response.value[i][j].hostname == cfg.hostname(response.value[i][j].id))
    && (forall id <- etcd :: exists i, j :: 0 <= i < |response.value| && 0 <= j < |response.value[i]| && response.value[i][j].id == id)
  }

  /** Talos tells the truth: a member list is the current one, and an acknowledged
      leave or removal took effect (an unacknowledged one may have, too).  A node
      joins at most once at a time and not while its Machine is being deleted. */
  ghost predicate Faithful(cfg: Config, s: State, e: Event)
    requires Enabled(cfg, s, e)
  {
    match e
    case Put(_, machine) => machine.controlPlane ==> WellMatched(cfg, machine)
    case Join(id) =>
      && !(cfg.owner(id) in s.nodes && s.nodes[cfg.owner(id)].machine.deletion.Some?)
      && (forall other <- s.etcd :: cfg.owner(other) != cfg.owner(id))
    case Step(name, reply, applied) =>
      (match PendingOf(cfg, s.nodes[name].proc)
       case MemberList(_) => reply.MembersAre? ==> FaithfulList(cfg, s.etcd, reply.response)
       case LeaveCluster(_) => reply.Ok? ==> applied
       case RemoveMember(_, _) => reply.Ok? ==> applied
       case _ => true)
    case _ => true
  }

  ghost predicate FaithfulRun(cfg: Config, s: State, events: seq<Event>)
    decreases |events|
  {
    events == [] ||
    (Enabled(cfg, s, events[0]) && Faithful(cfg, s, events[0])
     && FaithfulRun(cfg, Apply(cfg, s, events[0]), events[1..]))
  }

  lemma {:induction false} FaithfulRunIsRun(cfg: Config, s: State, events: seq<Event>)
    requires FaithfulRun(cfg, s, events)
    ensures IsRun(cfg, s, events)
    decreases |events|
  {
    if events != [] { FaithfulRunIsRun(cfg, Apply(cfg, s, events[0]), events[1..]); }
  }

  // --- the invariant --------------------------------------------------------

  ghost predicate NoMember(cfg: Config, etcd: set<nat>, name: string) {
    forall id <- etcd :: cfg.owner(id) != name
  }

  /** `id` belongs to `name` and no other member does. */
  ghost predicate OnlyMember(cfg: Config, etcd: set<nat>, name: string, id: nat) {
    cfg.owner(id) == name && forall other <- etcd :: cfg.owner(other) == name ==> other == id
  }

  /** These conclusions say that the member is gone. */
  predicate SaysGone(o: EtcdOutcome) {
    o.NotMember? || o.Left? || o.Removed?
  }

  ghost predicate StampedAs(m: Machine, o: EtcdOutcome) {
    Lookup(m.annotations, EtcdKey) == Some(EtcdText(o))
  }

  ghost predicate MachineMembership(cfg: Config, etcd: set<nat>, m: Machine) {
    && (m.controlPlane ==> WellMatched(cfg, m))
    && (EtcdKey in m.annotations ==> exists o :: StampedAs(m, o))
    && (forall o :: StampedAs(m, o) && SaysGone(o) ==> NoMember(cfg, etcd, m.name))
  }

  ghost predicate StageMembership(cfg: Config, etcd: set<nat>, stage: Stage, snap: Machine) {
    && (snap.controlPlane ==> WellMatched(cfg, snap))
    && (Acting(stage) ==> OnlyMember(cfg, etcd, snap.name, stage.id))
    && (stage.StampEtcd? && SaysGone(stage.etcd) ==> NoMember(cfg, etcd, snap.name))
  }

  ghost predicate NodeMembership(cfg: Config, etcd: set<nat>, node: Node) {
    && MachineMembership(cfg, etcd, node.machine)
    && (node.proc.Running? ==> StageMembership(cfg, etcd, node.proc.stage, node.proc.snap))
  }

  ghost predicate OneEach(cfg: Config, etcd: set<nat>) {
    forall a <- etcd, b <- etcd :: cfg.owner(a) == cfg.owner(b) ==> a == b
  }

  ghost predicate MembershipInv(cfg: Config, s: State) {
    && OneEach(cfg, s.etcd)
    && forall name <- s.nodes :: NodeMembership(cfg, s.etcd, s.nodes[name])
  }

  // --- one reply ------------------------------------------------------------

  lemma SameCandidates(m: Machine, ann: Annotations)
    ensures HostnameCandidates(m.(annotations := ann)) == HostnameCandidates(m)
  {
  }

  lemma WellMatchedKeeps(cfg: Config, m: Machine, ann: Annotations)
    requires WellMatched(cfg, m)
    ensures WellMatched(cfg, m.(annotations := ann))
  {
    forall id ensures HostOf(m.(annotations := ann), cfg.hostname(id)) <==> HostOf(m, cfg.hostname(id)) {
      SameCandidates(m, ann);
      MatchesExactly(m, cfg.hostname(id));
      MatchesExactly(m.(annotations := ann), cfg.hostname(id));
    }
  }

  lemma ListedMember(cfg: Config, etcd: set<nat>, snap: Machine, response: MemberResponse)
    requires FaithfulList(cfg, etcd, response) && WellMatched(cfg, snap)
    ensures match FindMember(response, HostnameCandidates(snap))
            case None => NoMember(cfg, etcd, snap.name)
            case Some(member) => member.id in etcd && cfg.owner(member.id) == snap.name
  {
    FindMemberExact(snap, response.value);
    if FindMember(response, HostnameCandidates(snap)).None? {
      forall id <- etcd ensures cfg.owner(id) != snap.name {
        var i, j :| 0 <= i < |response.value| && 0 <= j < |response.value[i]| && response.value[i][j].id == id;
        assert !HostOf(snap, cfg.hostname(id));
      }
    }
  }

  /** A leave or removal that took effect leaves the victim without a member. */
  lemma ActEffect(cfg: Config, etcd: set<nat>, snap: Machine, stage: Stage)
    requires stage.Leave? || stage.Remove?
    requires WellIndexed(stage) && OnlyMember(cfg, etcd, snap.name, stage.id)
    ensures NoMember(cfg, EtcdAfter(cfg, etcd, snap.name, Pending(cfg, stage, snap)), snap.name)
  {
  }

  /** A reconcile takes away no member but its own Machine's. */
  lemma ActFrame(cfg: Config, etcd: set<nat>, snap: Machine, stage: Stage)
    requires WellIndexed(stage)
    requires Acting(stage) ==> cfg.owner(stage.id) == snap.name
    ensures var after := EtcdAfter(cfg, etcd, snap.name, Pending(cfg, stage, snap));
            after <= etcd && forall id <- etcd :: cfg.owner(id) != snap.name ==> id in after
  {
  }

  lemma ProbeMembership(cfg: Config, etcd: set<nat>, stage: Stage, snap: Machine, reply: Reply, now: int)
    requires StageInv(cfg, stage, snap) && Probing(stage) && StageMembership(cfg, etcd, stage, snap) && OneEach(cfg, etcd)
    requires stage.PeerMembers? && reply.MembersAre? ==> FaithfulList(cfg, etcd, reply.response)
    ensures var next := AfterProbe(cfg, stage, snap, reply, now);
            next.Proceed? ==> StageMembership(cfg, etcd, next.stage, next.snap)
  {
    if stage.PeerMembers? && reply.MembersAre? {
      ListedMember(cfg, etcd, snap, reply.response);
    }
  }

  lemma ActMembership(cfg: Config, etcd: set<nat>, etcd': set<nat>, stage: Stage, snap: Machine, reply: Reply, now: int)
    requires StageInv(cfg, stage, snap) && Acting(stage) && StageMembership(cfg, etcd, stage, snap)
    requires etcd' == etcd || etcd' == EtcdAfter(cfg, etcd, snap.name, Pending(cfg, stage, snap))
    requires (stage.Leave? || stage.Remove?) && reply.Ok? ==>
               etcd' == EtcdAfter(cfg, etcd, snap.name, Pending(cfg, stage, snap))
    ensures var next := AfterAct(cfg, stage, snap, reply, now);
            next.Proceed? ==> StageMembership(cfg, etcd', next.stage, next.snap)
  {
    ActFrame(cfg, etcd, snap, stage);
    if stage.Leave? || stage.Remove? {
      ActEffect(cfg, etcd, snap, stage);
    }
  }

  lemma StampMembership(cfg: Config, etcd: set<nat>, stage: Stage, snap: Machine, reply: Reply)
    requires StageInv(cfg, stage, snap) && Patching(stage) && StageMembership(cfg, etcd, stage, snap)
    ensures var next := AfterStamp(cfg, stage, snap, reply);
            next.Proceed? ==> StageMembership(cfg, etcd, next.stage, next.snap)
  {
    if snap.controlPlane {
      WellMatchedKeeps(cfg, snap, Target(cfg, stage, snap.annotations));
    }
  }

  lemma LeadMembership(cfg: Config, etcd: set<nat>, stage: Stage, snap: Machine, reply: Reply, now: int)
    requires !Patching(stage) && !Probing(stage) && !Acting(stage) && !Resetting(stage)
    requires StageMembership(cfg, etcd, stage, snap)
    ensures var next := AfterLead(cfg, stage, snap, reply, now);
            next.Proceed? ==> StageMembership(cfg, etcd, next.stage, next.snap)
  {
    LeadConcludesNothing(cfg, stage, snap, reply, now);
  }

  /** Before the first peer is probed nothing is said of the member. */
  lemma LeadConcludesNothing(cfg: Config, stage: Stage, snap: Machine, reply: Reply, now: int)
    requires !Patching(stage) && !Probing(stage) && !Acting(stage) && !Resetting(stage)
    ensures var next := AfterLead(cfg, stage, snap, reply, now);
            next.Proceed? ==>
              next.snap == snap && !Acting(next.stage) && (next.stage.StampEtcd? ==> !SaysGone(next.stage.etcd))
  {
  }

  lemma ResetMembership(cfg: Config, etcd: set<nat>, stage: Stage, snap: Machine, reply: Reply, now: int)
    requires StageInv(cfg, stage, snap) && Resetting(stage) && StageMembership(cfg, etcd, stage, snap)
    ensures var next := AfterReset(cfg, stage, snap, reply, now);
            next.Proceed? ==> StageMembership(cfg, etcd, next.stage, next.snap)
  {
  }

  /** A landed etcd stamp says what the reconcile had concluded. */
  lemma PatchMembership(cfg: Config, etcd: set<nat>, name: string, node: Node)
    requires NodeInv(cfg, name, node) && NodeMembership(cfg, etcd, node)
    requires node.proc.Running? && Patching(node.proc.stage)
    ensures MachineMembership(cfg, etcd, Served(node.machine, PendingOf(cfg, node.proc)))
  {
    var stage, snap := node.proc.stage, node.proc.snap;
    var after := Served(node.machine, PendingOf(cfg, node.proc));
    if node.machine.controlPlane { WellMatchedKeeps(cfg, node.machine, after.annotations); }
    OwnKeyAfterPatch(cfg, name, node, EtcdKey);
    TargetOwnKeys(cfg, stage, snap.annotations);
    if stage.StampEtcd? {
      assert StampedAs(after, stage.etcd);
      forall o | StampedAs(after, o) && SaysGone(o) ensures NoMember(cfg, etcd, name) {
        EtcdTextInjective(o, stage.etcd);
      }
    } else {
      assert forall o :: StampedAs(after, o) <==> StampedAs(node.machine, o);
    }
  }

  lemma FewerMembers(cfg: Config, etcd: set<nat>, etcd': set<nat>, node: Node)
    requires NodeMembership(cfg, etcd, node) && etcd' <= etcd
    ensures NodeMembership(cfg, etcd', node)
  {
  }

  /** Only a leave or a removal changes the members. */
  lemma OtherCallsFrame(cfg: Config, etcd: set<nat>, stage: Stage, snap: Machine)
    requires !Acting(stage)
    ensures EtcdAfter(cfg, etcd, snap.name, Pending(cfg, stage, snap)) == etcd
  {
  }

  lemma ReplyMembership(cfg: Config, etcd: set<nat>, etcd': set<nat>, stage: Stage, snap: Machine, reply: Reply, now: int)
    requires StageInv(cfg, stage, snap) && StageMembership(cfg, etcd, stage, snap) && OneEach(cfg, etcd)
    requires stage.PeerMembers? && reply.MembersAre? ==> FaithfulList(cfg, etcd, reply.response)
    requires etcd' == etcd || etcd' == EtcdAfter(cfg, etcd, snap.name, Pending(cfg, stage, snap))
    requires (stage.Leave? || stage.Remove?) && reply.Ok? ==>
               etcd' == EtcdAfter(cfg, etcd, snap.name, Pending(cfg, stage, snap))
    ensures var next := Advance(cfg, stage, snap, reply, now);
            next.Proceed? ==> StageMembership(cfg, etcd', next.stage, next.snap)
  {
    if Acting(stage) {
      ActMembership(cfg, etcd, etcd', stage, snap, reply, now);
    } else {
      OtherCallsFrame(cfg, etcd, stage, snap);
      QuietMembership(cfg, etcd, stage, snap, reply, now);
    }
  }

  /** A reply to a call that changes no member. */
  lemma QuietMembership(cfg: Config, etcd: set<nat>, stage: Stage, snap: Machine, reply: Reply, now: int)
    requires StageInv(cfg, stage, snap) && StageMembership(cfg, etcd, stage, snap) && OneEach(cfg, etcd) && !Acting(stage)
    requires stage.PeerMembers? && reply.MembersAre? ==> FaithfulList(cfg, etcd, reply.response)
    ensures var next := Advance(cfg, stage, snap, reply, now);
            next.Proceed? ==> StageMembership(cfg, etcd, next.stage, next.snap)
  {
    if Probing(stage) {
      ProbeMembership(cfg, etcd, stage, snap, reply, now);
    } else if Patching(stage) {
      StampMembership(cfg, etcd, stage, snap, reply);
    } else if Resetting(stage) {
      ResetMembership(cfg, etcd, stage, snap, reply, now);
    } else {
      LeadMembership(cfg, etcd, stage, snap, reply, now);
    }
  }

  /** What the next stage says about the members left after the reply. */
  lemma NextMembership(cfg: Config, s: State, name: string, reply: Reply, applied: bool)
    requires Inv(cfg, s) && MembershipInv(cfg, s)
    requires Enabled(cfg, s, Step(name, reply, applied)) && Faithful(cfg, s, Step(name, reply, applied))
    requires s.nodes[name].proc.Running?
    ensures var next := Resume(cfg, s.nodes[name].proc, reply, s.now);
            next.Proceed? ==>
              StageMembership(cfg, Apply(cfg, s, Step(name, reply, applied)).etcd, next.stage, next.snap)
  {
    var node := s.nodes[name];
    assert NodeInv(cfg, name, node) && NodeMembership(cfg, s.etcd, node);
    ReplyMembership(cfg, s.etcd, Apply(cfg, s, Step(name, reply, applied)).etcd, node.proc.stage, node.proc.snap, reply, s.now);
  }

  lemma StepMembers(cfg: Config, s: State, name: string, reply: Reply, applied: bool)
    requires Inv(cfg, s) && MembershipInv(cfg, s) && Enabled(cfg, s, Step(name, reply, applied))
    ensures var after := Apply(cfg, s, Step(name, reply, applied));
            && after.etcd <= s.etcd
            && forall id <- s.etcd :: cfg.owner(id) != name ==> id in after.etcd
  {
    var node := s.nodes[name];
    assert NodeInv(cfg, name, node) && NodeMembership(cfg, s.etcd, node);
    if node.proc.Running? { ActFrame(cfg, s.etcd, node.proc.snap, node.proc.stage); }
  }

  lemma MachineKeeps(cfg: Config, etcd: set<nat>, etcd': set<nat>, name: string, node: Node, applied: bool)
    requires NodeInv(cfg, name, node) && NodeMembership(cfg, etcd, node) && etcd' <= etcd && !node.proc.Idle?
    ensures MachineMembership(cfg, etcd', if applied then Served(node.machine, PendingOf(cfg, node.proc)) else node.machine)
  {
    FewerMembers(cfg, etcd, etcd', node);
    if node.proc.Running? && Patching(node.proc.stage) { PatchMembership(cfg, etcd', name, node); }
  }

  lemma ReadMembership(cfg: Config, etcd: set<nat>, m: Machine, now: int)
    requires MachineMembership(cfg, etcd, m)
    ensures var next := EnterMachine(cfg, m, now);
            next.Proceed? ==> StageMembership(cfg, etcd, next.stage, next.snap)
  {
  }

  lemma SettledMembership(cfg: Config, etcd: set<nat>, node: Node, reply: Reply, now: int)
    requires !node.proc.Idle? && MachineMembership(cfg, etcd, node.machine)
    requires var next := Resume(cfg, node.proc, reply, now);
             next.Proceed? ==> StageMembership(cfg, etcd, next.stage, next.snap)
    ensures NodeMembership(cfg, etcd, Settle(cfg, node, reply, now))
  {
  }

  lemma StepMembership(cfg: Config, s: State, name: string, reply: Reply, applied: bool)
    requires Inv(cfg, s) && MembershipInv(cfg, s)
    requires Enabled(cfg, s, Step(name, reply, applied)) && Faithful(cfg, s, Step(name, reply, applied))
    ensures var after := Apply(cfg, s, Step(name, reply, applied));
            NodeMembership(cfg, after.etcd, after.nodes[name])
  {
    var node := s.nodes[name];
    var etcd := Apply(cfg, s, Step(name, reply, applied)).etcd;
    assert NodeInv(cfg, name, node) && NodeMembership(cfg, s.etcd, node);
    StepMembers(cfg, s, name, reply, applied);
    MachineKeeps(cfg, s.etcd, etcd, name, node, applied);
    if node.proc.Running? {
      NextMembership(cfg, s, name, reply, applied);
    } else if reply.TheMachine? {
      ReadMembership(cfg, s.etcd, reply.machine, s.now);
    }
    SettledMembership(cfg, etcd, if applied then node.(machine := Served(node.machine, PendingOf(cfg, node.proc))) else node,
                      reply, s.now);
  }

  // --- one event ------------------------------------------------------------

  lemma EventKeepsMembership(cfg: Config, s: State, e: Event)
    requires WholeSecondCodec(cfg)
    requires Inv(cfg, s) && MembershipInv(cfg, s)
    requires Enabled(cfg, s, e) && Faithful(cfg, s, e)
    ensures MembershipInv(cfg, Apply(cfg, s, e))
  {
    var after := Apply(cfg, s, e);
    if e.Step? {
      StepMembers(cfg, s, e.name, e.reply, e.applied);
    }
    forall name <- after.nodes ensures NodeMembership(cfg, after.etcd, after.nodes[name]) {
      OthersMembership(cfg, s, e, name);
    }
  }

  /** Whatever a node's stamps and stages say about its member stays true while
      others act. */
  lemma OthersMembership(cfg: Config, s: State, e: Event, name: string)
    requires WholeSecondCodec(cfg)
    requires Inv(cfg, s) && MembershipInv(cfg, s)
    requires Enabled(cfg, s, e) && Faithful(cfg, s, e) && name in Apply(cfg, s, e).nodes
    ensures NodeMembership(cfg, Apply(cfg, s, e).etcd, Apply(cfg, s, e).nodes[name])
  {
    var after := Apply(cfg, s, e);
    if e.Step? && e.name == name {
      StepMembership(cfg, s, e.name, e.reply, e.applied);
    } else if e.Step? {
      StepMembers(cfg, s, e.name, e.reply, e.applied);
      FewerMembers(cfg, s.etcd, after.etcd, s.nodes[name]);
    } else if name in s.nodes {
      assert NodeInv(cfg, name, s.nodes[name]);
      assert NodeMembership(cfg, s.etcd, s.nodes[name]);
      if e.Put? && e.name == name {
        assert forall o :: StampedAs(e.machine, o) <==> StampedAs(s.nodes[name].machine, o);
      }
    }
  }

  lemma {:induction false} RunKeepsMembership(cfg: Config, s: State, events: seq<Event>)
    requires WholeSecondCodec(cfg)
    requires Inv(cfg, s) && MembershipInv(cfg, s) && FaithfulRun(cfg, s, events)
    ensures IsRun(cfg, s, events)
    ensures Inv(cfg, After(cfg, s, events)) && MembershipInv(cfg, After(cfg, s, events))
    decreases |events|
  {
    FaithfulRunIsRun(cfg, s, events);
    if events != [] {
      EventKeepsInv(cfg, s, events[0]);
      EventKeepsMembership(cfg, s, events[0]);
      RunKeepsMembership(cfg, Apply(cfg, s, events[0]), events[1..]);
    }
  }

  // --- theorems -------------------------------------------------------------

  /** Where a faithful run may start: nothing in flight, no etcd phase concluded yet,
      unique host names, one member per node. */
  ghost predicate CleanStart(cfg: Config, s: State) {
    && Start(s) && OneEach(cfg, s.etcd)
    && forall name <- s.nodes ::
         EtcdKey !in s.nodes[name].machine.annotations && (s.nodes[name].machine.controlPlane ==> WellMatched(cfg, s.nodes[name].machine))
  }

  /** Whenever a control-plane node is about to be wiped, its etcd stamp is durable, and
      unless the stamp is `orphaned` or `skipped-cluster-delete` its member is gone. */
  lemma NoWipeWhileMember(cfg: Config, s: State, events: seq<Event>, name: string)
    requires WholeSecondCodec(cfg)
    requires CleanStart(cfg, s) && FaithfulRun(cfg, s, events)
    ensures IsRun(cfg, s, events)
    ensures name in After(cfg, s, events).nodes ==>
              var s' := After(cfg, s, events);
              var node := s'.nodes[name];
              !node.proc.Idle? && PendingOf(cfg, node.proc).ResetGeneric? && node.machine.controlPlane ==>
                EtcdKey in node.machine.annotations
                && (node.machine.annotations[EtcdKey] in {"orphaned", "skipped-cluster-delete"} || NoMember(cfg, s'.etcd, name))
  {
    StartInv(cfg, s);
    RunKeepsMembership(cfg, s, events);
    var s' := After(cfg, s, events);
    if name in s'.nodes {
      var node := s'.nodes[name];
      assert NodeInv(cfg, name, node) && NodeMembership(cfg, s'.etcd, node);
      if !node.proc.Idle? && PendingOf(cfg, node.proc).ResetGeneric? && node.machine.controlPlane {
        assert node.proc.stage.ResetCall?;
        var o :| StampedAs(node.machine, o);
      }
    }
  }

  /** A Machine's reconcile never costs another node its membership. */
  lemma OnlyOwnMemberRemoved(cfg: Config, s: State, events: seq<Event>, name: string, reply: Reply, applied: bool, id: nat)
    requires WholeSecondCodec(cfg)
    requires CleanStart(cfg, s) && FaithfulRun(cfg, s, events)
    ensures IsRun(cfg, s, events)
    ensures var s' := After(cfg, s, events);
            var e := Step(name, reply, applied);
            Enabled(cfg, s', e) && Faithful(cfg, s', e) && id in s'.etcd && cfg.owner(id) != name ==>
              id in Apply(cfg, s', e).etcd
  {
    StartInv(cfg, s);
    RunKeepsMembership(cfg, s, events);
    var s' := After(cfg, s, events);
    var e := Step(name, reply, applied);
    if Enabled(cfg, s', e) && Faithful(cfg, s', e) {
      StepMembers(cfg, s', name, reply, applied);
    }
  }
}
