/** One etcd removal at a time: the control-plane hold, on one snapshot and over whole
    runs, and the two interleavings that get past it. */
module Serialization {
  import opened Common
  import opened Machines
  import opened PeerOrder
  import opened Protocol
  import opened System
  import opened PhaseOrder
  import opened Stamps

  // --- the order ------------------------------------------------------------

  lemma BeforeTransitive(a: Machine, b: Machine, c: Machine)
    requires Before(a, b) && Before(b, c)
    ensures Before(a, c)
  {
    if StringLess(a.name, b.name) && StringLess(b.name, c.name) { StringLessTransitive(a.name, b.name, c.name); }
  }

  lemma BeforeAsymmetric(a: Machine, b: Machine)
    ensures !(Before(a, b) && Before(b, a))
  {
    if Before(a, b) && Before(b, a) {
      BeforeTransitive(a, b, a);
      StringLessIrreflexive(a.name);
    }
  }

  lemma BeforeTotal(a: Machine, b: Machine)
    requires a.deletion.Some? && b.deletion.Some? && a.name != b.name
    ensures Before(a, b) || Before(b, a)
  {
    StringLessTotal(a.name, b.name);
  }

  /** A deleting, hooked control-plane Machine: it takes part in the hold. */
  predicate Contends(m: Machine) {
    m.controlPlane && m.deletion.Some? && HasHook(m)
  }

  function Contenders(s: State): set<string> {
    set name <- s.nodes.Keys | Contends(s.nodes[name].machine)
  }

  // --- one snapshot ---------------------------------------------------------

  ghost predicate Named(s: State) {
    forall name <- s.nodes :: s.nodes[name].machine.name == name
  }

  lemma {:induction false} LeastExists(s: State, names: set<string>) returns (least: string)
    requires Named(s) && names != {} && names <= Contenders(s)
    ensures least in names
    ensures forall other <- names :: other != least ==> Before(s.nodes[least].machine, s.nodes[other].machine)
    decreases |names|
  {
    var some :| some in names;
    if names == {some} {
      least := some;
    } else {
      var rest := LeastExists(s, names - {some});
      BeforeTotal(s.nodes[some].machine, s.nodes[rest].machine);
      if Before(s.nodes[some].machine, s.nodes[rest].machine) {
        least := some;
        forall other | other in names && other != some ensures Before(s.nodes[some].machine, s.nodes[other].machine) {
          if other != rest { BeforeTransitive(s.nodes[some].machine, s.nodes[rest].machine, s.nodes[other].machine); }
        }
      } else {
        least := rest;
      }
    }
  }

  /** It takes part in the hold: said of the fields. */
  predicate IsContender(s: State, name: string) {
    && name in s.nodes && s.nodes[name].machine.controlPlane && s.nodes[name].machine.deletion.Some?
    && PreTerminate("/talos-teardown") in s.nodes[name].machine.annotations
  }

  /** On one listing, exactly one of the deleting, hooked control-plane Machines passes the
      hold: the one deleted first, and among those of the same second the least name. */
  lemma ExactlyOnePasses(s: State, machines: seq<Machine>)
    requires Named(s) && IsListing(s, machines) && Contenders(s) != {}
    ensures exists least :: IsContender(s, least)
              && (forall other <- s.nodes :: IsContender(s, other) && other != least ==>
                    var d, d' := s.nodes[least].machine.deletion.value, s.nodes[other].machine.deletion.value;
                    d < d' || (d == d' && StringLess(least, other)))
              && (forall name <- s.nodes :: IsContender(s, name) ==> (Held(s.nodes[name].machine, machines) <==> name != least))
  {
    var least := LeastExists(s, Contenders(s));
    assert forall name <- s.nodes :: IsContender(s, name) <==> name in Contenders(s);
    forall name <- Contenders(s) ensures Held(s.nodes[name].machine, machines) <==> name != least {
      if name != least {
        var i :| 0 <= i < |machines| && machines[i] == s.nodes[least].machine;
        assert Holds(machines[i], s.nodes[name].machine);
      } else {
        forall i | 0 <= i < |machines| ensures !Holds(machines[i], s.nodes[least].machine) {
          if Holds(machines[i], s.nodes[least].machine) {
            assert machines[i].name in Contenders(s);
            BeforeAsymmetric(machines[i], s.nodes[least].machine);
          }
        }
      }
    }
  }

  // --- whole runs -----------------------------------------------------------

  /** Past the hold with the etcd phase not yet concluded. */
  predicate PastHold(stage: Stage) {
    || stage.EtcdConfig? || stage.PeerList? || Probing(stage) || Acting(stage)
    || (stage.StampEtcd? && !stage.etcd.SkippedClusterDelete?)
  }

  predicate IsPastHold(s: State, name: string) {
    name in s.nodes && s.nodes[name].proc.Running? && PastHold(s.nodes[name].proc.stage)
  }

  /** Whoever starts contending sorts after whoever is past the hold. */
  predicate Orderly(cfg: Config, s: State, e: Event)
    requires Enabled(cfg, s, e)
  {
    var after := Apply(cfg, s, e);
    forall name <- Contenders(after) :: name !in Contenders(s) ==>
      forall other <- s.nodes :: IsPastHold(s, other) ==> Before(s.nodes[other].machine, after.nodes[name].machine)
  }

  ghost predicate OrderlyRun(cfg: Config, s: State, events: seq<Event>)
    decreases |events|
  {
    events == [] ||
    (Enabled(cfg, s, events[0]) && Orderly(cfg, s, events[0])
     && OrderlyRun(cfg, Apply(cfg, s, events[0]), events[1..]))
  }

  ghost predicate Unheld(s: State, name: string)
    requires name in s.nodes
  {
    forall other <- s.nodes :: s.nodes[other].machine.controlPlane ==> !Holds(s.nodes[other].machine, s.nodes[name].machine)
  }

  ghost predicate HoldInv(s: State) {
    forall name <- s.nodes :: IsPastHold(s, name) ==> Unheld(s, name)
  }

  lemma PastHoldContends(cfg: Config, s: State, name: string)
    requires Inv(cfg, s) && IsPastHold(s, name)
    ensures name in Contenders(s)
    ensures s.nodes[name].machine.deletion == s.nodes[name].proc.snap.deletion
  {
    assert NodeInv(cfg, name, s.nodes[name]);
    var snap := s.nodes[name].proc.snap;
    assert Lookup(snap.annotations, HOOK) == Lookup(s.nodes[name].machine.annotations, HOOK);
  }

  /** Only the hold check itself lets a reconcile past the hold. */
  lemma StagePastHold(cfg: Config, stage: Stage, snap: Machine, reply: Reply, now: int)
    requires WellIndexed(stage) && !PastHold(stage)
    ensures var next := Advance(cfg, stage, snap, reply, now);
            next.Proceed? && PastHold(next.stage) ==>
              stage.HoldCheck? && reply.ControlPlane? && !Held(snap, reply.machines)
  {
    if Patching(stage) {
      assert !PastHold(StampReset(0, SkippedTimeout));
    }
  }

  lemma EnteringPastHold(cfg: Config, s: State, e: Event, name: string)
    requires Inv(cfg, s) && Enabled(cfg, s, e)
    requires IsPastHold(Apply(cfg, s, e), name) && !IsPastHold(s, name)
    ensures e.Step? && e.name == name && s.nodes[name].proc.Running? && s.nodes[name].proc.stage.HoldCheck?
    ensures e.reply.ControlPlane? && !Held(s.nodes[name].proc.snap, e.reply.machines)
  {
    if e.Step? && e.name == name {
      StepPastHold(cfg, s.nodes[name].(machine := Apply(cfg, s, e).nodes[name].machine), e.reply, s.now);
    }
  }

  lemma StepPastHold(cfg: Config, node: Node, reply: Reply, now: int)
    requires !node.proc.Idle? && (node.proc.Running? ==> WellIndexed(node.proc.stage) && !PastHold(node.proc.stage))
    ensures var proc := Settle(cfg, node, reply, now).proc;
            proc.Running? && PastHold(proc.stage) ==>
              && node.proc.Running? && node.proc.stage.HoldCheck?
              && reply.ControlPlane? && !Held(node.proc.snap, reply.machines)
  {
    if node.proc.Running? {
      StagePastHold(cfg, node.proc.stage, node.proc.snap, reply, now);
    } else if reply.TheMachine? {
      ReadIsNotPast(cfg, reply.machine, now);
    }
  }

  lemma ReadIsNotPast(cfg: Config, m: Machine, now: int)
    ensures var next := EnterMachine(cfg, m, now);
            next.Proceed? ==> !PastHold(next.stage)
  {
  }

  lemma ListedUnheld(s: State, machines: seq<Machine>, snap: Machine, name: string)
    requires name in s.nodes && IsListing(s, machines) && !Held(snap, machines)
    requires snap.name == s.nodes[name].machine.name && snap.deletion == s.nodes[name].machine.deletion
    ensures Unheld(s, name)
  {
    forall other <- s.nodes | s.nodes[other].machine.controlPlane
      ensures !Holds(s.nodes[other].machine, s.nodes[name].machine)
    {
      var i :| 0 <= i < |machines| && machines[i] == s.nodes[other].machine;
      assert !Holds(machines[i], snap);
    }
  }

  /** A Machine that stays in the store keeps its deletion time. */
  lemma DeletionKept(cfg: Config, s: State, e: Event, name: string)
    requires Enabled(cfg, s, e) && name in s.nodes && name in Apply(cfg, s, e).nodes
    requires s.nodes[name].machine.deletion.Some?
    ensures Apply(cfg, s, e).nodes[name].machine.deletion == s.nodes[name].machine.deletion
  {
  }

  /** While others act, nobody comes to hold a Machine that is past the hold. */
  lemma UnheldKept(cfg: Config, s: State, e: Event, name: string)
    requires Inv(cfg, s) && Enabled(cfg, s, e) && Orderly(cfg, s, e) && Inv(cfg, Apply(cfg, s, e))
    requires name in s.nodes && name in Apply(cfg, s, e).nodes && IsPastHold(s, name) && Unheld(s, name)
    ensures Unheld(Apply(cfg, s, e), name)
  {
    var after := Apply(cfg, s, e);
    PastHoldContends(cfg, s, name);
    DeletionKept(cfg, s, e, name);
    assert NodeInv(cfg, name, s.nodes[name]) && NodeInv(cfg, name, after.nodes[name]);
    forall other <- after.nodes | after.nodes[other].machine.controlPlane
      ensures !Holds(after.nodes[other].machine, after.nodes[name].machine)
    {
      assert NodeInv(cfg, other, after.nodes[other]);
      if Holds(after.nodes[other].machine, after.nodes[name].machine) {
        assert other in Contenders(after);
        if other in Contenders(s) {
          assert NodeInv(cfg, other, s.nodes[other]);
          DeletionKept(cfg, s, e, other);
          assert Holds(s.nodes[other].machine, s.nodes[name].machine);
        } else {
          BeforeAsymmetric(s.nodes[name].machine, after.nodes[other].machine);
          assert Before(after.nodes[other].machine, s.nodes[name].machine);
        }
      }
    }
  }

  /** The hold check itself changes no Machine. */
  lemma CheckChangesNothing(cfg: Config, s: State, e: Event)
    requires Enabled(cfg, s, e) && e.Step? && s.nodes[e.name].proc.Running? && s.nodes[e.name].proc.stage.HoldCheck?
    ensures var after := Apply(cfg, s, e);
            after.nodes.Keys == s.nodes.Keys && forall name <- s.nodes :: after.nodes[name].machine == s.nodes[name].machine
  {
  }

  lemma EventKeepsHold(cfg: Config, s: State, e: Event)
    requires WholeSecondCodec(cfg)
    requires Inv(cfg, s) && HoldInv(s) && Enabled(cfg, s, e) && Orderly(cfg, s, e)
    ensures HoldInv(Apply(cfg, s, e))
  {
    var after := Apply(cfg, s, e);
    EventKeepsInv(cfg, s, e);
    forall name <- after.nodes | IsPastHold(after, name) ensures Unheld(after, name) {
      if IsPastHold(s, name) {
        UnheldKept(cfg, s, e, name);
      } else {
        EnteringPastHold(cfg, s, e, name);
        assert NodeInv(cfg, name, s.nodes[name]);
        ListedUnheld(s, e.reply.machines, s.nodes[name].proc.snap, name);
        CheckChangesNothing(cfg, s, e);
      }
    }
  }

  /** Who starts contending is the one Machine the event is about. */
  lemma NewcomersEvent(cfg: Config, s: State, e: Event, name: string, other: string)
    requires Enabled(cfg, s, e) && name in Contenders(Apply(cfg, s, e)) && name !in Contenders(s)
    requires other != name && other in s.nodes
    ensures other in Apply(cfg, s, e).nodes && Apply(cfg, s, e).nodes[other] == s.nodes[other]
  {
  }

  lemma HoldNeedsOrder(cfg: Config, s: State, e: Event)
    requires WholeSecondCodec(cfg)
    requires Inv(cfg, s) && Enabled(cfg, s, e) && HoldInv(Apply(cfg, s, e))
    ensures Orderly(cfg, s, e)
  {
    var after := Apply(cfg, s, e);
    EventKeepsInv(cfg, s, e);
    forall name <- Contenders(after), other <- s.nodes | name !in Contenders(s) && IsPastHold(s, other)
      ensures Before(s.nodes[other].machine, after.nodes[name].machine)
    {
      PastHoldContends(cfg, s, other);
      NewcomersEvent(cfg, s, e, name, other);
      assert NodeInv(cfg, name, after.nodes[name]) && NodeInv(cfg, other, after.nodes[other]);
      assert IsPastHold(after, other) && !Holds(after.nodes[name].machine, after.nodes[other].machine);
      BeforeTotal(s.nodes[other].machine, after.nodes[name].machine);
    }
  }

  ghost predicate HoldThroughout(cfg: Config, s: State, events: seq<Event>)
    requires IsRun(cfg, s, events)
    decreases |events|
  {
    HoldInv(s) && (events == [] || HoldThroughout(cfg, Apply(cfg, s, events[0]), events[1..]))
  }

  /** The order is exact: over every run, nobody past the hold is ever held by another
      Machine if and only if all who start contending sort after those past it. */
  lemma {:induction false} OrderIsExact(cfg: Config, s: State, events: seq<Event>)
    requires WholeSecondCodec(cfg)
    requires Inv(cfg, s) && HoldInv(s) && IsRun(cfg, s, events)
    ensures HoldThroughout(cfg, s, events) <==> OrderlyRun(cfg, s, events)
    decreases |events|
  {
    if events != [] {
      var next := Apply(cfg, s, events[0]);
      EventKeepsInv(cfg, s, events[0]);
      if Orderly(cfg, s, events[0]) {
        EventKeepsHold(cfg, s, events[0]);
        OrderIsExact(cfg, next, events[1..]);
      } else if HoldInv(next) {
        HoldNeedsOrder(cfg, s, events[0]);
      }
    }
  }

  lemma {:induction false} RunKeepsHold(cfg: Config, s: State, events: seq<Event>)
    requires WholeSecondCodec(cfg)
    requires Inv(cfg, s) && HoldInv(s) && OrderlyRun(cfg, s, events)
    ensures IsRun(cfg, s, events)
    ensures Inv(cfg, After(cfg, s, events)) && HoldInv(After(cfg, s, events))
    decreases |events|
  {
    if events != [] {
      EventKeepsInv(cfg, s, events[0]);
      EventKeepsHold(cfg, s, events[0]);
      RunKeepsHold(cfg, Apply(cfg, s, events[0]), events[1..]);
    }
  }

  /** A reconcile of `name` has a call to etcd pending. */
  predicate CallsEtcd(cfg: Config, s: State, name: string) {
    name in s.nodes && !s.nodes[name].proc.Idle? && MembershipCall(PendingOf(cfg, s.nodes[name].proc))
  }

  /** Mutual exclusion: while newcomers sort after whoever is past the hold, no two Machines
      are ever past the hold with their etcd phase open, and no two have a call to etcd
      pending, whatever crashes, fails or interleaves. */
  lemma OneRemovalAtATime(cfg: Config, s: State, events: seq<Event>, a: string, b: string)
    requires WholeSecondCodec(cfg)
    requires Start(s) && OrderlyRun(cfg, s, events)
    ensures IsRun(cfg, s, events)
    ensures IsPastHold(After(cfg, s, events), a) && IsPastHold(After(cfg, s, events), b) ==> a == b
    ensures CallsEtcd(cfg, After(cfg, s, events), a) && CallsEtcd(cfg, After(cfg, s, events), b) ==> a == b
  {
    StartInv(cfg, s);
    RunKeepsHold(cfg, s, events);
    var s' := After(cfg, s, events);
    if CallsEtcd(cfg, s', a) { CallerIsPastHold(cfg, s', a); }
    if CallsEtcd(cfg, s', b) { CallerIsPastHold(cfg, s', b); }
    OnePastHold(cfg, s', a, b);
  }

  lemma CallerIsPastHold(cfg: Config, s: State, name: string)
    requires CallsEtcd(cfg, s, name)
    ensures IsPastHold(s, name)
  {
  }

  lemma OnePastHold(cfg: Config, s: State, a: string, b: string)
    requires Inv(cfg, s) && HoldInv(s)
    ensures IsPastHold(s, a) && IsPastHold(s, b) ==> a == b
  {
    if IsPastHold(s, a) && IsPastHold(s, b) && a != b {
      PastHoldContends(cfg, s, a);
      PastHoldContends(cfg, s, b);
      assert NodeInv(cfg, a, s.nodes[a]) && NodeInv(cfg, b, s.nodes[b]);
      assert !Holds(s.nodes[a].machine, s.nodes[b].machine) && !Holds(s.nodes[b].machine, s.nodes[a].machine);
      BeforeTotal(s.nodes[a].machine, s.nodes[b].machine);
    }
  }

  // --- why newcomers must sort last -----------------------------------------

  ghost predicate Reaches(cfg: Config, s: State, t: State) {
    exists events :: IsRun(cfg, s, events) && After(cfg, s, events) == t
  }

  lemma ReachSelf(cfg: Config, s: State)
    ensures Reaches(cfg, s, s)
  {
    assert IsRun(cfg, s, []) && After(cfg, s, []) == s;
  }

  lemma ReachStep(cfg: Config, s: State, t: State, e: Event)
    requires Reaches(cfg, s, t) && Enabled(cfg, t, e)
    ensures Reaches(cfg, s, Apply(cfg, t, e))
  {
    var events :| IsRun(cfg, s, events) && After(cfg, s, events) == t;
    RunAppend(cfg, s, events, e);
  }

  /** At the gate with its phase entry stamped, nothing concluded. */
  predicate Waiting(cfg: Config, m: Machine) {
    m.controlPlane && AtGate(m) && ObservedAt(cfg, m.annotations).Some? && EtcdKey !in m.annotations
  }

  /** An idle waiting Machine that no listed one holds can be taken past the hold. */
  lemma GoesPastHold(cfg: Config, s: State, t: State, name: string, machines: seq<Machine>) returns (u: State)
    requires Reaches(cfg, s, t) && name in t.nodes && t.nodes[name].proc.Idle? && t.cluster == Live
    requires Waiting(cfg, t.nodes[name].machine)
    requires IsListing(t, machines) && !Held(t.nodes[name].machine, machines)
    ensures Reaches(cfg, s, u) && IsPastHold(u, name)
    ensures u == t.(nodes := t.nodes[name := u.nodes[name]]) && u.nodes[name].machine == t.nodes[name].machine
  {
    var m := t.nodes[name].machine;
    var t1 := Apply(cfg, t, Begin(name));
    ReachStep(cfg, s, t, Begin(name));
    var t2 := Apply(cfg, t1, Step(name, TheMachine(m), false));
    ReachStep(cfg, s, t1, Step(name, TheMachine(m), false));
    u := PassesCheck(cfg, s, t, t2, name, machines);
  }

  /** From the cluster check on. */
  lemma PassesCheck(cfg: Config, s: State, t: State, t2: State, name: string, machines: seq<Machine>) returns (u: State)
    requires Reaches(cfg, s, t2) && name in t.nodes && name in t2.nodes && t.cluster == Live
    requires t2 == t.(nodes := t.nodes[name := t2.nodes[name]])
    requires t2.nodes[name].machine == t.nodes[name].machine
    requires t2.nodes[name].proc.Running? && t2.nodes[name].proc.stage.ReadCluster?
    requires var m := t2.nodes[name].proc.snap; m == t.nodes[name].machine && m.controlPlane && EtcdKey !in m.annotations
    requires IsListing(t2, machines) && !Held(t.nodes[name].machine, machines)
    ensures Reaches(cfg, s, u) && IsPastHold(u, name)
    ensures u == t.(nodes := t.nodes[name := u.nodes[name]]) && u.nodes[name].machine == t.nodes[name].machine
  {
    var t3 := Apply(cfg, t2, Step(name, TheCluster(false), false));
    ReachStep(cfg, s, t2, Step(name, TheCluster(false), false));
    assert t3 == t.(nodes := t.nodes[name := t3.nodes[name]]);
    assert IsListing(t3, machines);
    u := PassesHold(cfg, s, t, t3, name, machines);
  }

  lemma PassesHold(cfg: Config, s: State, t: State, t3: State, name: string, machines: seq<Machine>) returns (u: State)
    requires Reaches(cfg, s, t3) && name in t.nodes && name in t3.nodes
    requires t3 == t.(nodes := t.nodes[name := t3.nodes[name]])
    requires t3.nodes[name].machine == t.nodes[name].machine
    requires t3.nodes[name].proc.Running? && t3.nodes[name].proc.stage.HoldCheck?
    requires t3.nodes[name].proc.snap == t.nodes[name].machine
    requires IsListing(t3, machines) && !Held(t.nodes[name].machine, machines)
    ensures Reaches(cfg, s, u) && IsPastHold(u, name)
    ensures u == t.(nodes := t.nodes[name := u.nodes[name]]) && u.nodes[name].machine == t.nodes[name].machine
  {
    u := Apply(cfg, t3, Step(name, ControlPlane(machines), false));
    ReachStep(cfg, s, t3, Step(name, ControlPlane(machines), false));
  }

  // --- who exactly gets past ------------------------------------------------

  lemma {:induction false} SomeOrder(s: State, names: set<string>) returns (machines: seq<Machine>)
    requires Named(s) && names <= s.nodes.Keys
    ensures forall i :: 0 <= i < |machines| ==> machines[i].name in names && s.nodes[machines[i].name].machine == machines[i]
    ensures forall name <- names :: s.nodes[name].machine in machines
    ensures DistinctNames(machines)
    decreases |names|
  {
    if names == {} {
      machines := [];
    } else {
      var name :| name in names;
      var rest := SomeOrder(s, names - {name});
      machines := [s.nodes[name].machine] + rest;
    }
  }

  lemma ListingExists(s: State) returns (machines: seq<Machine>)
    requires Named(s)
    ensures IsListing(s, machines)
  {
    machines := SomeOrder(s, set name <- s.nodes.Keys | s.nodes[name].machine.controlPlane);
  }

  /** On a truthful listing the check lets a reconcile past exactly if no stored Machine
      holds its own. */
  lemma CheckPassesExactly(cfg: Config, s: State, name: string, machines: seq<Machine>, applied: bool)
    requires Inv(cfg, s) && name in s.nodes && s.nodes[name].proc.Running? && s.nodes[name].proc.stage.HoldCheck?
    requires Enabled(cfg, s, Step(name, ControlPlane(machines), applied))
    ensures IsPastHold(Apply(cfg, s, Step(name, ControlPlane(machines), applied)), name) <==> Unheld(s, name)
  {
    assert NodeInv(cfg, name, s.nodes[name]);
    HeldExactly(s, machines, s.nodes[name].proc.snap, name);
  }

  lemma HeldExactly(s: State, machines: seq<Machine>, snap: Machine, name: string)
    requires name in s.nodes && IsListing(s, machines)
    requires snap.name == s.nodes[name].machine.name && snap.deletion == s.nodes[name].machine.deletion
    ensures Held(snap, machines) <==> !Unheld(s, name)
  {
    if !Held(snap, machines) {
      ListedUnheld(s, machines, snap, name);
    } else {
      var i :| 0 <= i < |machines| && Holds(machines[i], snap);
      assert Holds(s.nodes[machines[i].name].machine, s.nodes[name].machine);
    }
  }

  /** And it gets there: in every reachable state of a live cluster, however many Machines
      there are, with `b` past the hold every idle waiting Machine that nobody holds can be
      taken past it beside `b`. */
  lemma UnheldGetsPast(cfg: Config, s: State, t: State, a: string, b: string) returns (u: State)
    requires Inv(cfg, t) && Reaches(cfg, s, t) && t.cluster == Live && a != b && IsPastHold(t, b)
    requires a in t.nodes && t.nodes[a].proc.Idle? && Waiting(cfg, t.nodes[a].machine) && Unheld(t, a)
    ensures Reaches(cfg, s, u) && IsPastHold(u, a) && IsPastHold(u, b)
  {
    forall name <- t.nodes ensures t.nodes[name].machine.name == name {
      assert NodeInv(cfg, name, t.nodes[name]);
    }
    var machines := ListingExists(t);
    HeldExactly(t, machines, t.nodes[a].machine, a);
    u := GoesPastHold(cfg, s, t, a, machines);
  }

  /** A control-plane Machine in service: hooked by this controller and nobody else, not a
      trace of a deletion. */
  predicate InService(m: Machine) {
    && m.controlPlane && m.deletion.None? && HasHook(m) && !HasOtherPreTerminateHooks(m)
    && ObservedAtKey !in m.annotations && EtcdKey !in m.annotations && ResetKey !in m.annotations
  }

  /** Someone deletes a Machine, and its deletion gets to the wait. */
  lemma Deletes(cfg: Config, s: State, t: State, a: string, m: Machine) returns (u: State)
    requires Reaches(cfg, s, t) && a in t.nodes && t.nodes[a].machine.deletion.None?
    requires m == t.nodes[a].machine.(deletion := m.deletion, conditions := m.conditions) && m.name == a
    ensures Reaches(cfg, s, u) && u == t.(nodes := t.nodes[a := t.nodes[a].(machine := m)])
  {
    u := Apply(cfg, t, Put(a, m));
    ReachStep(cfg, s, t, Put(a, m));
  }

  /** Same-second tie.  `b` is past the hold when `a`, so far in service and with a smaller
      name, is deleted within the same second: it sorts first and passes, too. */
  lemma TieGetsPast(cfg: Config, s: State, a: string, b: string, conditions: seq<Condition>) returns (u: State)
    requires WholeSecondCodec(cfg)
    requires Start(s) && s.nodes.Keys == {a, b} && s.cluster == Live && StringLess(a, b)
    requires Waiting(cfg, s.nodes[b].machine) && InService(s.nodes[a].machine)
    requires DeletingReason(conditions) == Some(WaitingForPreTerminateHook)
    ensures Reaches(cfg, s, u) && a != b && IsPastHold(u, a) && IsPastHold(u, b)
  {
    StringLessIrreflexive(a);
    var ma, mb := s.nodes[a].machine, s.nodes[b].machine;
    ReachSelf(cfg, s);
    assert !Held(mb, [ma, mb]);
    var t := GoesPastHold(cfg, s, s, b, [ma, mb]);
    var deleted := ma.(deletion := mb.deletion, conditions := conditions);
    var t1 := Deletes(cfg, s, t, a, deleted);
    u := PassesUnstamped(cfg, s, t1, a, b);
  }

  lemma PassesUnstamped(cfg: Config, s: State, t: State, a: string, b: string) returns (u: State)
    requires WholeSecondCodec(cfg)
    requires Reaches(cfg, s, t) && t.nodes.Keys == {a, b} && a != b && IsPastHold(t, b) && t.cluster == Live
    requires t.nodes[a].machine.name == a && t.nodes[b].machine.name == b
    requires t.nodes[a].machine.controlPlane && t.nodes[b].machine.controlPlane
    requires t.nodes[a].proc.Idle? && AtGate(t.nodes[a].machine) && Before(t.nodes[a].machine, t.nodes[b].machine)
    requires ObservedAtKey !in t.nodes[a].machine.annotations && EtcdKey !in t.nodes[a].machine.annotations
    ensures Reaches(cfg, s, u) && IsPastHold(u, a) && IsPastHold(u, b)
  {
    var t2 := PickedUp(cfg, s, t, a);
    var t3 := Observes(cfg, s, t2, a);
    u := PassesAhead(cfg, s, t3, a, b);
  }

  /** Whoever sorts ahead of the Machine past the hold passes beside it. */
  lemma PassesAhead(cfg: Config, s: State, t: State, a: string, b: string) returns (u: State)
    requires Reaches(cfg, s, t) && t.nodes.Keys == {a, b} && a != b && IsPastHold(t, b) && t.cluster == Live
    requires t.nodes[a].machine.name == a && t.nodes[b].machine.name == b
    requires t.nodes[a].machine.controlPlane && t.nodes[b].machine.controlPlane
    requires t.nodes[a].proc.Running? && t.nodes[a].proc.stage.ReadCluster? && t.nodes[a].proc.snap == t.nodes[a].machine
    requires EtcdKey !in t.nodes[a].machine.annotations && Before(t.nodes[a].machine, t.nodes[b].machine)
    ensures Reaches(cfg, s, u) && IsPastHold(u, a) && IsPastHold(u, b)
  {
    var ma, mb := t.nodes[a].machine, t.nodes[b].machine;
    BeforeAsymmetric(ma, mb);
    assert !Held(ma, [ma, mb]);
    u := PassesCheck(cfg, s, t, t, a, [ma, mb]);
  }

  /** A hooked Machine at the wait, not stamped yet, is picked up. */
  lemma PickedUp(cfg: Config, s: State, t: State, a: string) returns (u: State)
    requires Reaches(cfg, s, t) && a in t.nodes && t.nodes[a].proc.Idle?
    requires AtGate(t.nodes[a].machine) && ObservedAtKey !in t.nodes[a].machine.annotations
    ensures Reaches(cfg, s, u) && a in u.nodes && u == t.(nodes := t.nodes[a := u.nodes[a]])
    ensures u.nodes[a].machine == t.nodes[a].machine && u.nodes[a].proc.Running?
    ensures u.nodes[a].proc.stage == StampObserved(Truncate(t.now)) && u.nodes[a].proc.snap == t.nodes[a].machine
  {
    var t1 := Apply(cfg, t, Begin(a));
    ReachStep(cfg, s, t, Begin(a));
    u := Apply(cfg, t1, Step(a, TheMachine(t.nodes[a].machine), false));
    ReachStep(cfg, s, t1, Step(a, TheMachine(t.nodes[a].machine), false));
  }

  /** Late stamp.  `a` has been deleting for longer but carries no hook yet, so it does
      not hold `b`; its own late stamp then takes it past the hold beside `b`.  Nobody
      but the controller acts in this run. */
  lemma LateStampGetsPast(cfg: Config, s: State, a: string, b: string) returns (u: State)
    requires WholeSecondCodec(cfg)
    requires Start(s) && s.nodes.Keys == {a, b} && a != b && s.cluster == Live
    requires Waiting(cfg, s.nodes[b].machine)
    requires Bare(s.nodes[a].machine)
    requires var d, d' := s.nodes[a].machine.deletion.value, s.nodes[b].machine.deletion.value;
             d < d' || (d == d' && StringLess(a, b))
    ensures Reaches(cfg, s, u) && IsPastHold(u, a) && IsPastHold(u, b)
  {
    var ma, mb := s.nodes[a].machine, s.nodes[b].machine;
    ReachSelf(cfg, s);
    var t := GoesPastHold(cfg, s, s, b, [ma, mb]);
    var t2 := LateStamps(cfg, s, t, a);
    u := PassesAhead(cfg, s, t2, a, b);
  }

  /** A deleting Machine without a single annotation, at the wait. */
  predicate Bare(m: Machine) {
    Qualifies(m) && m.controlPlane && m.annotations == map[] && AtPreTerminate(m) && m.deletion.Some?
  }

  /** The late stamp itself, up to the refreshed credentials. */
  lemma StampsLate(cfg: Config, s: State, t: State, a: string) returns (u: State)
    requires Reaches(cfg, s, t) && a in t.nodes && t.nodes[a].proc.Idle? && Bare(t.nodes[a].machine)
    ensures Reaches(cfg, s, u) && a in u.nodes && u == t.(nodes := t.nodes[a := u.nodes[a]])
    ensures var hooked := t.nodes[a].machine.(annotations := map[HOOK := HOOK_VALUE]);
            u.nodes[a].proc.Running? && u.nodes[a].proc.stage == Credentials
            && u.nodes[a].proc.snap == hooked && u.nodes[a].machine == hooked
  {
    var ma := t.nodes[a].machine;
    var u1 := Apply(cfg, t, Begin(a));
    ReachStep(cfg, s, t, Begin(a));
    var u2 := Apply(cfg, u1, Step(a, TheMachine(ma), false));
    ReachStep(cfg, s, u1, Step(a, TheMachine(ma), false));
    assert u2.nodes[a].proc.stage == StampHook && u2.nodes[a].proc.snap == ma;
    MergeDiff(map[], WithHook(map[]));
    assert WithHook(map[]) == map[HOOK := HOOK_VALUE];
    u := Apply(cfg, u2, Step(a, Ok, true));
    ReachStep(cfg, s, u2, Step(a, Ok, true));
  }

  lemma LateStamps(cfg: Config, s: State, t: State, a: string) returns (t2: State)
    requires WholeSecondCodec(cfg)
    requires Reaches(cfg, s, t) && a in t.nodes && t.nodes[a].proc.Idle? && Bare(t.nodes[a].machine)
    ensures Reaches(cfg, s, t2) && a in t2.nodes && t2 == t.(nodes := t.nodes[a := t2.nodes[a]])
    ensures t2.nodes[a].proc.Running? && t2.nodes[a].proc.stage.ReadCluster? && t2.nodes[a].proc.snap == t2.nodes[a].machine
    ensures var ann := t2.nodes[a].machine.annotations;
            EtcdKey !in ann && t2.nodes[a].machine == t.nodes[a].machine.(annotations := ann)
  {
    var u := StampsLate(cfg, s, t, a);
    assert !HasOtherPreTerminateHooks(u.nodes[a].machine);
    var u4 := Apply(cfg, u, Step(a, Ok, false));
    ReachStep(cfg, s, u, Step(a, Ok, false));
    t2 := Observes(cfg, s, u4, a);
  }

  /** The stamp of the phase entry lands. */
  lemma Observes(cfg: Config, s: State, u: State, a: string) returns (t: State)
    requires WholeSecondCodec(cfg)
    requires Reaches(cfg, s, u) && a in u.nodes && u.nodes[a].proc.Running?
    requires u.nodes[a].proc.stage.StampObserved? && u.nodes[a].proc.snap == u.nodes[a].machine
    ensures Reaches(cfg, s, t) && a in t.nodes && t == u.(nodes := u.nodes[a := t.nodes[a]])
    ensures t.nodes[a].proc.Running? && t.nodes[a].proc.stage.ReadCluster? && t.nodes[a].proc.snap == t.nodes[a].machine
    ensures var ann := WithObserved(cfg, u.nodes[a].machine.annotations, u.nodes[a].proc.stage.obs);
            t.nodes[a].machine == u.nodes[a].machine.(annotations := ann)
  {
    var m, obs := u.nodes[a].machine, u.nodes[a].proc.stage.obs;
    MergeDiff(m.annotations, WithObserved(cfg, m.annotations, obs));
    t := Apply(cfg, u, Step(a, Ok, true));
    ReachStep(cfg, s, u, Step(a, Ok, true));
  }
}
