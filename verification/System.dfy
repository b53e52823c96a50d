/** The whole system as a transition relation: the API server's Machines, every
    in-flight reconcile, the Cluster, the etcd members and the clock.  Anyone may
    act between any two calls of a reconcile, and the controller may crash there. */
module System {
  import opened Common
  import opened Machines
  import opened PeerOrder
  import opened Protocol

  /** A Machine as stored, with the controller's volatile part: the reconcile in
      flight, when it (or the queue item) is due, and the limiter's failure count. */
  datatype Node = Node(machine: Machine, proc: Proc, due: Option<int>, failures: nat)

  datatype ClusterState = Live | Deleting | Gone

  datatype State = State(now: int, nodes: map<string, Node>, cluster: ClusterState, etcd: set<nat>)

  datatype Event =
    // the controller
    | Begin(name: string)
    | Step(name: string, reply: Reply, applied: bool)
    | Crash
    // everyone else
    | Put(name: string, machine: Machine)
    | Drop(name: string)
    | SetCluster(cluster: ClusterState)
    | Join(id: nat)
    | Depart(id: nat)
    | Tick(duration: int)

  // --- one node -------------------------------------------------------------

  function PendingOf(cfg: Config, proc: Proc): Request
    requires !proc.Idle?
  {
    match proc
    case Reading => GetMachine
    case Running(stage, snap, _) => Pending(cfg, stage, snap)
  }

  function Resume(cfg: Config, proc: Proc, reply: Reply, now: int): Progress
    requires !proc.Idle?
  {
    match proc
    case Reading => AfterRead(cfg, reply, now)
    case Running(stage, snap, _) => Advance(cfg, stage, snap, reply, now)
  }

  function LogOf(proc: Proc): seq<Exchange> {
    if proc.Running? then proc.log else []
  }

  /** The node after a reply: the next request with its time limit, or back to the
      queue with the delay the outcome asks for. */
  function Settle(cfg: Config, node: Node, reply: Reply, now: int): Node
    requires !node.proc.Idle?
  {
    match Resume(cfg, node.proc, reply, now)
    case Proceed(stage, snap) =>
      var log := LogOf(node.proc) + [Exchange(PendingOf(cfg, node.proc), reply, now)];
      node.(proc := Running(stage, snap, log), due := Some(now + Budget(cfg, Pending(cfg, stage, snap))))
    case Stop(Done) => node.(proc := Idle, due := None, failures := 0)
    case Stop(Requeue) => node.(proc := Idle, due := Some(now + HOOK_WAIT), failures := 0)
    case Stop(Error) =>
      node.(proc := Idle, due := Some(now + Backoff(node.failures)), failures := node.failures + 1)
  }

  /** The stored Machine after the server carried out a request. */
  function Served(machine: Machine, request: Request): Machine {
    match request
    case PatchAnnotations(edits) => machine.(annotations := Merge(machine.annotations, edits))
    case _ => machine
  }

  /** The members left after a Talos node carried out a request of `name`'s reconcile. */
  function EtcdAfter(cfg: Config, etcd: set<nat>, name: string, request: Request): set<nat> {
    match request
    case LeaveCluster(_) => set id <- etcd | cfg.owner(id) != name
    case RemoveMember(_, id) => etcd - {id}
    case _ => etcd
  }

  // --- who may answer what --------------------------------------------------

  predicate IsListing(s: State, machines: seq<Machine>) {
    && (forall i :: 0 <= i < |machines| ==>
          machines[i].name in s.nodes && s.nodes[machines[i].name].machine == machines[i] && machines[i].controlPlane)
    && (forall i, j :: 0 <= i < j < |machines| ==> machines[i].name != machines[j].name)
    && (forall name <- s.nodes :: s.nodes[name].machine.controlPlane ==> s.nodes[name].machine in machines)
  }

  /** The API server answers truthfully or not at all; a patch that failed may still
      have landed.  Talos may answer anything, and any call may take effect or not. */
  predicate Answers(s: State, name: string, request: Request, reply: Reply, applied: bool)
    requires name in s.nodes
  {
    match request
    case GetMachine => reply.Failed? || reply == TheMachine(s.nodes[name].machine)
    case PatchAnnotations(_) => reply.Failed? || (reply.Ok? && applied)
    case GetCluster =>
      reply.Failed? || (if s.cluster.Gone? then reply.NotFound? else reply == TheCluster(s.cluster.Deleting?))
    case ListControlPlane => reply.Failed? || (reply.ControlPlane? && IsListing(s, reply.machines))
    case _ => true
  }

  /** What everyone else may do to a Machine: anything but edit this controller's own
      keys, take back a deletion, or turn a node into or out of a control-plane node. */
  predicate MayPut(prior: Option<Node>, name: string, machine: Machine) {
    && machine.name == name
    && match prior
       case None => forall k <- machine.annotations :: !OwnKey(k)
       case Some(node) =>
         && Lookup(machine.annotations, HOOK) == Lookup(node.machine.annotations, HOOK)
         && Lookup(machine.annotations, ObservedAtKey) == Lookup(node.machine.annotations, ObservedAtKey)
         && Lookup(machine.annotations, EtcdKey) == Lookup(node.machine.annotations, EtcdKey)
         && Lookup(machine.annotations, ResetKey) == Lookup(node.machine.annotations, ResetKey)
         && (node.machine.deletion.Some? ==> machine.deletion == node.machine.deletion)
         && machine.controlPlane == node.machine.controlPlane
  }

  predicate Enabled(cfg: Config, s: State, e: Event) {
    match e
    case Begin(name) => name in s.nodes && s.nodes[name].proc.Idle?
    case Step(name, reply, applied) =>
      && name in s.nodes
      && !s.nodes[name].proc.Idle?
      && Answers(s, name, PendingOf(cfg, s.nodes[name].proc), reply, applied)
    case Crash => true
    case Put(name, machine) => MayPut(Lookup(s.nodes, name), name, machine)
    case Drop(name) => name in s.nodes && s.nodes[name].proc.Idle?
    case SetCluster(_) => true
    case Join(_) => true
    case Depart(_) => true
    case Tick(duration) => duration > 0
  }

  function Restarted(node: Node, now: int): Node {
    node.(proc := Idle, due := Some(now), failures := 0)
  }

  function Stepped(cfg: Config, s: State, name: string, reply: Reply, applied: bool): Node
    requires Enabled(cfg, s, Step(name, reply, applied))
  {
    var node := s.nodes[name];
    var request := PendingOf(cfg, node.proc);
    Settle(cfg, if applied then node.(machine := Served(node.machine, request)) else node, reply, s.now)
  }

  function Apply(cfg: Config, s: State, e: Event): State
    requires Enabled(cfg, s, e)
  {
    match e
    case Begin(name) =>
      s.(nodes := s.nodes[name := s.nodes[name].(proc := Reading, due := Some(s.now))])
    case Step(name, reply, applied) =>
      s.(nodes := s.nodes[name := Stepped(cfg, s, name, reply, applied)],
         etcd := if applied then EtcdAfter(cfg, s.etcd, name, PendingOf(cfg, s.nodes[name].proc)) else s.etcd)
    case Crash => s.(nodes := map name <- s.nodes :: Restarted(s.nodes[name], s.now))
    case Put(name, machine) =>
      s.(nodes := s.nodes[name := if name in s.nodes then s.nodes[name].(machine := machine)
                                  else Node(machine, Idle, Some(s.now), 0)])
    case Drop(name) => s.(nodes := s.nodes - {name})
    case SetCluster(cluster) => s.(cluster := cluster)
    case Join(id) => s.(etcd := s.etcd + {id})
    case Depart(id) => s.(etcd := s.etcd - {id})
    case Tick(duration) => s.(now := s.now + duration)
  }

  // --- runs -----------------------------------------------------------------

  /** Events that can happen one after the other from `s`. */
  ghost predicate IsRun(cfg: Config, s: State, events: seq<Event>)
    decreases |events|
  {
    events == [] || (Enabled(cfg, s, events[0]) && IsRun(cfg, Apply(cfg, s, events[0]), events[1..]))
  }

  ghost function After(cfg: Config, s: State, events: seq<Event>): State
    requires IsRun(cfg, s, events)
    decreases |events|
  {
    if events == [] then s else After(cfg, Apply(cfg, s, events[0]), events[1..])
  }

  lemma {:induction false} RunAppend(cfg: Config, s: State, events: seq<Event>, e: Event)
    requires IsRun(cfg, s, events)
    requires Enabled(cfg, After(cfg, s, events), e)
    ensures IsRun(cfg, s, events + [e])
    ensures After(cfg, s, events + [e]) == Apply(cfg, After(cfg, s, events), e)
    decreases |events|
  {
    if events == [] {
      assert (events + [e])[1..] == [];
    } else {
      RunAppend(cfg, Apply(cfg, s, events[0]), events[1..], e);
      assert (events + [e])[1..] == events[1..] + [e];
    }
  }

  lemma {:induction false} RunPrefix(cfg: Config, s: State, events: seq<Event>, n: nat)
    requires IsRun(cfg, s, events) && n <= |events|
    ensures IsRun(cfg, s, events[..n])
    decreases n
  {
    if n > 0 {
      assert events[..n][1..] == events[1..][..n - 1];
      RunPrefix(cfg, Apply(cfg, s, events[0]), events[1..], n - 1);
    }
  }

  /** What is left open: every call may fail, with or without having taken effect; a call
      that does not go to the API server may be answered by anything; the controller may
      crash, members join and depart, and the Cluster change at any time. */
  lemma EnvironmentIsFree(cfg: Config, s: State, name: string, reply: Reply, applied: bool, cluster: ClusterState, id: nat)
    requires name in s.nodes && !s.nodes[name].proc.Idle?
    ensures Enabled(cfg, s, Step(name, Failed, applied))
    ensures var request := PendingOf(cfg, s.nodes[name].proc);
            !request.GetMachine? && !request.PatchAnnotations? && !request.GetCluster? && !request.ListControlPlane? ==>
              Enabled(cfg, s, Step(name, reply, applied))
    ensures Enabled(cfg, s, Crash) && Enabled(cfg, s, Join(id)) && Enabled(cfg, s, Depart(id)) && Enabled(cfg, s, SetCluster(cluster))
  {
  }
}
