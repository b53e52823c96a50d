/** The teardown controller's code.  Every method states where in the protocol it is
    called and where it returns; together they show that one reconcile, with anyone
    acting between its calls, is a run of the protocol and of nothing else. */
module Teardown {
  import opened Common
  import opened Machines
  import opened PeerOrder
  import opened Protocol
  import opened System
  import opened Worlds

  /** The reconcile's own copy of the Machine, updated along with its patches. */
  class MachineObject {
    var m: Machine

    constructor (m: Machine)
      ensures this.m == m
    {
      this.m := m;
    }
  }

  /** What a phase hands back: go on, or end the reconcile. */
  datatype PhaseResult = Continue | Halt(outcome: Outcome)

  class Reconciler {
    const world: World

    constructor (world: World)
      ensures this.world == world
    {
      this.world := world;
    }

    // --- entry --------------------------------------------------------------

    /** One reconcile, from the queue and back to it: the events added are a run, ending
        with the Machine idle and due as the outcome says, and every connection opened on
        the way is closed.  Of a Machine that is gone nothing is done. */
    method Reconcile(name: string) returns (outcome: Outcome)
      requires world.Valid() && (name in world.s.nodes ==> world.s.nodes[name].proc.Idle?)
      modifies world
      ensures IsRun(world.cfg, world.start, world.history)
      ensures After(world.cfg, world.start, world.history) == world.s
      ensures world.Valid() && world.open == old(world.open)
      ensures if name in old(world.s.nodes) then
                old(world.history) + [System.Begin(name)] <= world.history && Stands(world.s, name, Stop(outcome))
              else
                world.history == old(world.history) && world.s == old(world.s) && outcome == Done
    {
      var found := world.Begin(name);
      if !found {
        world.ValidMeans();
        return Done;
      }
      outcome := ReconcileMachine(name);
      world.ValidMeans();
      world.AtMeans(name, Stop(outcome));
    }

    method ReconcileMachine(name: string) returns (outcome: Outcome)
      requires world.Valid() && name in world.s.nodes && world.s.nodes[name].proc == Reading
      modifies world`s, world`history, world`open
      ensures world.Valid() && world.At(name, Stop(outcome)) && world.open == old(world.open)
    {
      var reply := world.Call(name, GetMachine);
      if !reply.TheMachine? {
        return if reply.NotFound? then Done else Error;
      }
      var machine := new MachineObject(reply.machine);
      if !Qualifies(machine.m) && !HasHook(machine.m) {
        return Done;
      }
      if machine.m.deletion.None? {
        outcome := ReconcileNormal(name, machine);
      } else {
        outcome := ReconcileDeleting(name, machine);
      }
    }

    method ReconcileNormal(name: string, machine: MachineObject) returns (outcome: Outcome)
      requires world.Valid() && machine.m.deletion.None?
      requires world.At(name, Proceed(if HasHook(machine.m) then Credentials else StampHook, machine.m))
      modifies world`s, world`history, world`open, machine
      ensures world.Valid()
      ensures world.At(name, Stop(outcome)) && world.open == old(world.open)
    {
      var ok := EnsureHook(name, machine);
      if !ok {
        return Error;
      }
      ok := EnsureCredentials(name, machine);
      return if ok then Done else Error;
    }

    /** Refreshes the cached talosconfig. */
    method EnsureCredentials(name: string, machine: MachineObject) returns (ok: bool)
      requires world.Valid() && world.At(name, Proceed(Credentials, machine.m))
      modifies world`s, world`history
      ensures world.Valid()
      ensures world.At(name, if !ok then Stop(Error)
                             else if machine.m.deletion.None? then Stop(Done)
                             else EnterGate(world.cfg, machine.m, world.s.now))
    {
      var reply := world.Ask(name, Credentials, machine.m, Request.EnsureCredentials);
      ok := reply.Ok?;
    }

    /** Stamps the hook, and sweeps its older spellings, if that is allowed. */
    method EnsureHook(name: string, machine: MachineObject) returns (ok: bool)
      requires world.Valid()
      requires !HasHook(machine.m) && StampAllowed(machine.m) ==> world.At(name, Proceed(StampHook, machine.m))
      modifies world`s, world`history, machine
      ensures world.Valid()
      ensures old(HasHook(machine.m) || !StampAllowed(machine.m)) ==>
                ok && machine.m == old(machine.m) && world.s == old(world.s)
      ensures !old(HasHook(machine.m) || !StampAllowed(machine.m)) ==>
                && machine.m == old(machine.m).(annotations := WithHook(old(machine.m).annotations))
                && world.At(name, if ok then Proceed(Credentials, machine.m) else Stop(Error))
    {
      if HasHook(machine.m) || !StampAllowed(machine.m) {
        return true;
      }
      var ann := machine.m.annotations[HOOK := HOOK_VALUE];
      var keys := ListLegacyHookKeys(machine.m);
      ann := WithoutKeys(ann, keys);
      assert ann == WithHook(machine.m.annotations);
      ok := PatchAnnotations(name, StampHook, machine, ann);
    }

    /** Leftover keys of this controller's own hook, in some order. */
    method ListLegacyHookKeys(m: Machine) returns (keys: seq<Key>)
      ensures forall k :: k in keys <==> LegacyHook(m.annotations, k)
    {
      keys := [];
      var rest := m.annotations.Keys;
      while rest != {}
        invariant rest <= m.annotations.Keys
        invariant forall k :: k in keys <==> LegacyHook(m.annotations, k) && k !in rest
        decreases |rest|
      {
        var k :| k in rest;
        rest := rest - {k};
        if k == HOOK || m.annotations[k] != HOOK_VALUE {
          continue;
        }
        if k.PreTerminate? {
          keys := keys + [k];
        }
      }
    }

    method WithoutKeys(ann: Annotations, keys: seq<Key>) returns (left: Annotations)
      ensures left == ann - set k <- keys
    {
      left := ann;
      for i := 0 to |keys|
        invariant left == ann - set k <- keys[..i]
      {
        left := left - {keys[i]};
        assert keys[..i + 1] == keys[..i] + [keys[i]];
      }
      assert keys[..|keys|] == keys;
    }

    // --- the state machine --------------------------------------------------

    method ReconcileDeleting(name: string, machine: MachineObject) returns (outcome: Outcome)
      requires world.Valid() && machine.m.deletion.Some?
      requires world.At(name, EnterMachine(world.cfg, machine.m, world.s.now))
      requires Qualifies(machine.m) || HasHook(machine.m)
      modifies world`s, world`history, world`open, machine
      ensures world.Valid()
      ensures world.At(name, Stop(outcome)) && world.open == old(world.open)
    {
      if !HasHook(machine.m) {
        var late := StampLate(name, machine);
        if late.Halt? {
          return late.outcome;
        }
      }
      if !AtPreTerminate(machine.m) {
        return Done;
      }
      if HasOtherPreTerminateHooks(machine.m) {
        return Requeue;
      }
      outcome := RunPhases(name, machine);
    }

    /** The late stamp of a Machine that reached its deletion without the hook. */
    method StampLate(name: string, machine: MachineObject) returns (result: PhaseResult)
      requires world.Valid() && machine.m.deletion.Some? && !HasHook(machine.m) && Qualifies(machine.m)
      requires world.At(name, EnterMachine(world.cfg, machine.m, world.s.now))
      modifies world`s, world`history, machine
      ensures world.Valid()
      ensures result.Continue? ==> machine.m.deletion.Some?
      ensures world.At(name, match result
                             case Continue => EnterGate(world.cfg, machine.m, world.s.now)
                             case Halt(outcome) => Stop(outcome))
    {
      if ResetKey in machine.m.annotations {
        return Halt(Done);
      }
      if !StampAllowed(machine.m) {
        return Halt(Done);
      }
      var ok := EnsureHook(name, machine);
      if !ok {
        return Halt(Error);
      }
      ok := EnsureCredentials(name, machine);
      return if ok then Continue else Halt(Error);
    }

    /** The phases behind the gate. */
    method RunPhases(name: string, machine: MachineObject) returns (outcome: Outcome)
      requires world.Valid() && machine.m.deletion.Some? && AtPreTerminate(machine.m) && !HasOtherPreTerminateHooks(machine.m)
      requires world.At(name, EnterGate(world.cfg, machine.m, world.s.now))
      modifies world`s, world`history, world`open, machine
      ensures world.Valid()
      ensures world.At(name, Stop(outcome)) && world.open == old(world.open)
    {
      var observedAt := EnsureObservedAt(name, machine);
      if observedAt.None? {
        return Error;
      }
      var clusterDeleting := ClusterDeleting(name, machine, observedAt.value);
      if clusterDeleting.None? {
        return Error;
      }
      var phase := EtcdPhase(name, machine, observedAt.value, clusterDeleting.value);
      if phase.Halt? {
        return phase.outcome;
      }
      var ok := ResetPhase(name, machine, observedAt.value);
      if !ok {
        return Error;
      }
      ok := Release(name, machine);
      return if ok then Done else Error;
    }

    /** The phase-entry time: the stamp if it can be read, else now, stamped. */
    method EnsureObservedAt(name: string, machine: MachineObject) returns (observedAt: Option<int>)
      requires world.Valid() && AtPreTerminate(machine.m) && !HasOtherPreTerminateHooks(machine.m)
      requires world.At(name, EnterGate(world.cfg, machine.m, world.s.now))
      modifies world`s, world`history, machine
      ensures world.Valid()
      ensures world.At(name, match observedAt
                             case Some(obs) => Proceed(ReadCluster(obs), machine.m)
                             case None => Stop(Error))
      ensures machine.m.deletion == old(machine.m.deletion)
    {
      if ObservedAtKey in machine.m.annotations {
        var parsed := world.cfg.parse(machine.m.annotations[ObservedAtKey]);
        if parsed.Some? {
          return parsed;
        }
      }
      var now := Truncate(world.s.now);
      var ok := PatchAnnotations(name, StampObserved(now), machine, machine.m.annotations[ObservedAtKey := world.cfg.format(now)]);
      return if ok then Some(now) else None;
    }

    /** Whether the Cluster is being deleted or already gone; nothing if unknown. */
    method ClusterDeleting(name: string, machine: MachineObject, ghost obs: int) returns (deleting: Option<bool>)
      requires world.Valid() && world.At(name, Proceed(ReadCluster(obs), machine.m))
      modifies world`s, world`history
      ensures world.Valid()
      ensures world.At(name, match deleting
                             case Some(d) => EnterEtcd(machine.m, obs, d)
                             case None => Stop(Error))
    {
      var reply := world.Ask(name, ReadCluster(obs), machine.m, GetCluster);
      if reply.NotFound? {
        return Some(true);
      }
      if !reply.TheCluster? {
        return None;
      }
      return Some(reply.deleting);
    }

    /** Removes the hook, and its older spellings, in one patch. */
    method Release(name: string, machine: MachineObject) returns (ok: bool)
      requires world.Valid() && world.At(name, EnterRelease(machine.m))
      modifies world`s, world`history, machine
      ensures world.Valid()
      ensures world.At(name, Stop(if ok then Done else Error))
    {
      if !HasHook(machine.m) {
        return true;
      }
      var ann := machine.m.annotations - {HOOK};
      var keys := ListLegacyHookKeys(machine.m);
      ann := WithoutKeys(ann, keys);
      assert ann == WithoutHook(machine.m.annotations);
      ok := PatchAnnotations(name, Stage.Release, machine, ann);
    }

    /** Sends the difference between the copy's annotations and `after` as a merge patch. */
    method PatchAnnotations(name: string, ghost stage: Stage, machine: MachineObject, after: Annotations) returns (ok: bool)
      requires world.Valid() && world.At(name, Proceed(stage, machine.m))
      requires Patching(stage) && after == Target(world.cfg, stage, machine.m.annotations)
      modifies world`s, world`history, machine
      ensures world.Valid()
      ensures machine.m == old(machine.m).(annotations := after)
      ensures world.At(name, if ok then AfterPatch(world.cfg, stage, machine.m) else Stop(Error))
    {
      ghost var snap := machine.m;
      var edits := Diff(machine.m.annotations, after);
      machine.m := machine.m.(annotations := after);
      var reply := world.Ask(name, stage, snap, Request.PatchAnnotations(edits));
      ok := reply.Ok?;
    }

    // --- etcd phase ---------------------------------------------------------

    method EtcdPhase(name: string, machine: MachineObject, obs: int, clusterDeleting: bool) returns (result: PhaseResult)
      requires world.Valid() && machine.m.deletion.Some?
      requires world.At(name, EnterEtcd(machine.m, obs, clusterDeleting))
      modifies world`s, world`history, world`open, machine
      ensures world.Valid() && world.open == old(world.open)
      ensures world.At(name, match result
                             case Continue => EnterReset(machine.m, obs)
                             case Halt(outcome) => Stop(outcome))
    {
      if EtcdKey in machine.m.annotations {
        return Continue;
      }
      if clusterDeleting {
        var ok := StampEtcd(name, machine, obs, SkippedClusterDelete);
        return if ok then Continue else Halt(Error);
      }
      if !machine.m.controlPlane {
        return Continue;
      }
      result := SerializeControlPlane(name, machine, obs);
      if result.Halt? {
        return;
      }
      result := EnsureEtcdRemoved(name, machine, obs);
    }

    method StampEtcd(name: string, machine: MachineObject, ghost obs: int, outcome: EtcdOutcome) returns (ok: bool)
      requires world.Valid() && world.At(name, Proceed(Stage.StampEtcd(obs, outcome), machine.m))
      modifies world`s, world`history, machine
      ensures world.Valid()
      ensures world.At(name, if ok then EnterReset(machine.m, obs) else Stop(Error))
    {
      ok := PatchAnnotations(name, Stage.StampEtcd(obs, outcome), machine, WithEtcd(machine.m.annotations, outcome));
    }

    /** Holds all but the oldest-deleting hooked control-plane Machine. */
    method SerializeControlPlane(name: string, machine: MachineObject, ghost obs: int) returns (result: PhaseResult)
      requires world.Valid() && world.At(name, Proceed(HoldCheck(obs), machine.m)) && machine.m.deletion.Some?
      modifies world`s, world`history
      ensures world.Valid()
      ensures world.At(name, match result
                             case Continue => Proceed(EtcdConfig(obs), machine.m)
                             case Halt(outcome) => Stop(outcome))
    {
      var reply := world.Ask(name, HoldCheck(obs), machine.m, ListControlPlane);
      if !reply.ControlPlane? {
        return Halt(Error);
      }
      var peers := reply.machines;
      for i := 0 to |peers|
        invariant forall j :: 0 <= j < i ==> !Holds(peers[j], machine.m)
      {
        var peer := peers[i];
        if peer.name == machine.m.name || peer.deletion.None? || !HasHook(peer) {
          continue;
        }
        if peer.deletion.value < machine.m.deletion.value
           || (peer.deletion.value == machine.m.deletion.value && StringLess(peer.name, machine.m.name)) {
          assert Holds(peers[i], machine.m);
          return Halt(Requeue);
        }
      }
      return Continue;
    }

    method EnsureEtcdRemoved(name: string, machine: MachineObject, obs: int) returns (result: PhaseResult)
      requires world.Valid() && world.At(name, Proceed(EtcdConfig(obs), machine.m))
      modifies world`s, world`history, world`open, machine
      ensures world.Valid() && world.open == old(world.open)
      ensures world.At(name, match result
                             case Continue => EnterReset(machine.m, obs)
                             case Halt(outcome) => Stop(outcome))
    {
      var deadline := obs + world.cfg.etcdTimeout;
      var attempt := TryEtcdRemoval(name, machine, obs);
      var outcome: EtcdOutcome;
      if attempt.None? {
        if world.s.now > deadline {
          outcome := Orphaned;
        } else {
          return Halt(Error);
        }
      } else {
        outcome := attempt.value;
      }
      var ok := StampEtcd(name, machine, obs, outcome);
      return if ok then Continue else Halt(Error);
    }

    /** One verify-then-act attempt: its conclusion, or nothing when it failed. */
    method TryEtcdRemoval(name: string, machine: MachineObject, ghost obs: int) returns (outcome: Option<EtcdOutcome>)
      requires world.Valid() && world.At(name, Proceed(EtcdConfig(obs), machine.m))
      modifies world`s, world`history, world`open
      ensures world.Valid() && world.open == old(world.open)
      ensures world.At(name, match outcome
                             case Some(o) => Proceed(Stage.StampEtcd(obs, o), machine.m)
                             case None => EtcdFailed(world.cfg, machine.m, obs, world.s.now))
    {
      var reply := world.Ask(name, EtcdConfig(obs), machine.m, LoadConfig);
      if !reply.Ok? {
        return None;
      }
      var peerClient, response;
      ghost var peers, i;
      peerClient, response, peers, i := FindHealthyPeer(name, machine, obs);
      if peerClient == null {
        return None;
      }
      var candidates := ListHostnameCandidates(machine.m);
      var member := FindListedMember(response, candidates);
      if member.None? {
        outcome := Some(NotMember);
      } else {
        outcome := RemoveVerified(name, machine, obs, peerClient, peers, i, member.value.id);
      }
      world.Close(peerClient);
    }

    /** Removes a member known to be there: through the victim, else through the peer. */
    method RemoveVerified(name: string, machine: MachineObject, ghost obs: int, peerClient: Client,
                          ghost peers: seq<Machine>, ghost i: nat, id: nat)
      returns (outcome: Option<EtcdOutcome>)
      requires world.Valid() && world.At(name, Proceed(VictimAddress(obs, peers, i, id), machine.m))
      requires peerClient in world.open && !peerClient.closed && i < |peers| && peerClient.node == peers[i].name
      modifies world`s, world`history, world`open
      ensures world.Valid() && world.open == old(world.open)
      ensures world.At(name, match outcome
                             case Some(o) => Proceed(Stage.StampEtcd(obs, o), machine.m)
                             case None => EtcdFailed(world.cfg, machine.m, obs, world.s.now))
    {
      var left := LeaveViaVictim(name, machine, obs, peers, i, id);
      if left {
        return Some(Left);
      }
      var reply := world.Talos(name, Remove(obs, peers, i, id), machine.m, peerClient, RemoveMember(peerClient.node, id));
      return if reply.Ok? then Some(Removed) else None;
    }

    /** Where the protocol stands once peer `i` answered with a member list. */
    function AfterMembers(m: Machine, obs: int, peers: seq<Machine>, i: nat, response: MemberResponse): Progress {
      match FindMember(response, HostnameCandidates(m))
      case None => Proceed(Stage.StampEtcd(obs, NotMember), m)
      case Some(member) => Proceed(VictimAddress(obs, peers, i, member.id), m)
    }

    /** The first healthy candidate, still connected, with its member list. */
    method FindHealthyPeer(name: string, machine: MachineObject, ghost obs: int)
      returns (client: Client?, response: MemberResponse, ghost peers: seq<Machine>, ghost i: nat)
      requires world.Valid() && world.At(name, Proceed(PeerList(obs), machine.m))
      modifies world`s, world`history, world`open
      ensures world.Valid()
      ensures client == null ==>
                world.open == old(world.open) && world.At(name, EtcdFailed(world.cfg, machine.m, obs, world.s.now))
      ensures client != null ==>
                && fresh(client) && !client.closed && world.open == old(world.open) + {client}
                && i < |peers| && client.node == peers[i].name
                && world.At(name, AfterMembers(machine.m, obs, peers, i, response))
    {
      client, response, i, peers := null, None, 0, [];
      var reply := world.Ask(name, PeerList(obs), machine.m, ListControlPlane);
      if !reply.ControlPlane? {
        return;
      }
      var ordered := ListPeersInOrder(reply.machines, machine.m);
      peers := ordered;
      for j := 0 to |ordered|
        invariant world.Valid() && world.open == old(world.open)
        invariant client == null
        invariant world.At(name, EnterProbe(world.cfg, machine.m, obs, ordered, j, world.s.now))
      {
        i := j;
        client, response := ProbePeer(name, machine, obs, ordered, j);
        if client != null {
          return;
        }
      }
    }

    /** Dials one candidate and checks its etcd and its member list. */
    method ProbePeer(name: string, machine: MachineObject, ghost obs: int, peers: seq<Machine>, i: nat)
      returns (client: Client?, response: MemberResponse)
      requires world.Valid() && i < |peers| && world.At(name, Proceed(PeerAddress(obs, peers, i), machine.m))
      modifies world`s, world`history, world`open
      ensures world.Valid()
      ensures client == null ==>
                world.open == old(world.open)
                && world.At(name, EnterProbe(world.cfg, machine.m, obs, peers, i + 1, world.s.now))
      ensures client != null ==>
                && fresh(client) && !client.closed && client.node == peers[i].name
                && world.open == old(world.open) + {client}
                && world.At(name, AfterMembers(machine.m, obs, peers, i, response))
    {
      response := None;
      client := DialPeer(name, machine, obs, peers, i);
      if client == null {
        return;
      }
      var answer := CheckPeer(name, machine, obs, peers, i, client);
      if answer.None? {
        world.Close(client);
        return null, None;
      }
      return client, answer.value;
    }

    method DialPeer(name: string, machine: MachineObject, ghost obs: int, peers: seq<Machine>, i: nat) returns (client: Client?)
      requires world.Valid() && i < |peers| && world.At(name, Proceed(PeerAddress(obs, peers, i), machine.m))
      modifies world`s, world`history, world`open
      ensures world.Valid()
      ensures client == null ==>
                world.open == old(world.open)
                && world.At(name, EnterProbe(world.cfg, machine.m, obs, peers, i + 1, world.s.now))
      ensures client != null ==>
                && fresh(client) && !client.closed && client.node == peers[i].name
                && world.open == old(world.open) + {client}
                && world.At(name, Proceed(PeerHealth(obs, peers, i), machine.m))
    {
      var reply := world.Ask(name, PeerAddress(obs, peers, i), machine.m, ResolveAddress(peers[i].name));
      if !reply.AddressIs? || reply.address == "" {
        return null;
      }
      client := ConnectPeer(name, machine, obs, peers, i);
    }

    method ConnectPeer(name: string, machine: MachineObject, ghost obs: int, peers: seq<Machine>, i: nat) returns (client: Client?)
      requires world.Valid() && i < |peers| && world.At(name, Proceed(PeerDial(obs, peers, i), machine.m))
      modifies world`s, world`history, world`open
      ensures world.Valid()
      ensures client == null ==>
                world.open == old(world.open)
                && world.At(name, EnterProbe(world.cfg, machine.m, obs, peers, i + 1, world.s.now))
      ensures client != null ==>
                && fresh(client) && !client.closed && client.node == peers[i].name
                && world.open == old(world.open) + {client}
                && world.At(name, Proceed(PeerHealth(obs, peers, i), machine.m))
    {
      ghost var answer;
      client, answer := world.Connect(name, PeerDial(obs, peers, i), machine.m, peers[i].name);
    }

    /** The peer's member list, if its etcd is healthy and it answers. */
    method CheckPeer(name: string, machine: MachineObject, ghost obs: int, peers: seq<Machine>, i: nat, client: Client)
      returns (answer: Option<MemberResponse>)
      requires world.Valid() && i < |peers| && world.At(name, Proceed(PeerHealth(obs, peers, i), machine.m))
      requires client in world.open && !client.closed && client.node == peers[i].name
      modifies world`s, world`history
      ensures world.Valid()
      ensures world.At(name, match answer
                             case None => EnterProbe(world.cfg, machine.m, obs, peers, i + 1, world.s.now)
                             case Some(response) => AfterMembers(machine.m, obs, peers, i, response))
    {
      var healthy := CheckHealth(name, machine, obs, peers, i, client);
      if !healthy {
        return None;
      }
      var reply := world.Talos(name, PeerMembers(obs, peers, i), machine.m, client, MemberList(client.node));
      return if reply.MembersAre? then Some(reply.response) else None;
    }

    method CheckHealth(name: string, machine: MachineObject, ghost obs: int, peers: seq<Machine>, i: nat, client: Client)
      returns (healthy: bool)
      requires world.Valid() && i < |peers| && world.At(name, Proceed(PeerHealth(obs, peers, i), machine.m))
      requires client in world.open && !client.closed && client.node == peers[i].name
      modifies world`s, world`history
      ensures world.Valid()
      ensures world.At(name, if healthy then Proceed(PeerMembers(obs, peers, i), machine.m)
                             else EnterProbe(world.cfg, machine.m, obs, peers, i + 1, world.s.now))
    {
      var reply := world.Talos(name, PeerHealth(obs, peers, i), machine.m, client, ServiceInfo(client.node));
      return reply.Services? && EtcdHealthy(reply.services);
    }

    /** The host names the victim's member may go by. */
    method ListHostnameCandidates(m: Machine) returns (candidates: seq<string>)
      ensures candidates == HostnameCandidates(m)
    {
      var nodeName := NodeName(m.addresses, m.nodeRef);
      candidates := DropEmpty([nodeName, m.infrastructure.name, m.name]);
    }

    /** The first host name among the addresses overrides the node's. */
    method NodeName(addresses: seq<Address>, nodeRef: string) returns (nodeName: string)
      ensures nodeName == FirstHostName(addresses, nodeRef)
    {
      nodeName := nodeRef;
      for i := 0 to |addresses|
        invariant FirstHostName(addresses, nodeRef) == FirstHostName(addresses[i..], nodeRef)
      {
        if addresses[i].kind == HostName {
          return addresses[i].address;
        }
      }
    }

    method DropEmpty(names: seq<string>) returns (left: seq<string>)
      ensures left == NonEmpty(names)
    {
      left := [];
      for j := 0 to |names|
        invariant left + NonEmpty(names[j..]) == NonEmpty(names)
      {
        assert names[j..][1..] == names[j + 1..];
        if names[j] != "" {
          left := left + [names[j]];
        }
      }
    }

    /** The first listed member that one of the candidates names. */
    method FindListedMember(response: MemberResponse, candidates: seq<string>) returns (member: Option<Member>)
      ensures member == FindMember(response, candidates)
    {
      if response.None? {
        return None;
      }
      var messages := response.value;
      for i := 0 to |messages|
        invariant FirstMatch(Listed(messages), candidates) == FirstMatch(Listed(messages[i..]), candidates)
      {
        var members := messages[i];
        assert Listed(messages[i..]) == members + Listed(messages[i + 1..]);
        for j := 0 to |members|
          invariant FirstMatch(Listed(messages[i..]), candidates)
                    == FirstMatch(members[j..] + Listed(messages[i + 1..]), candidates)
        {
          assert (members[j..] + Listed(messages[i + 1..]))[1..] == members[j + 1..] + Listed(messages[i + 1..]);
          if MatchesMember(candidates, members[j].hostname) {
            return Some(members[j]);
          }
        }
        assert members[|members|..] + Listed(messages[i + 1..]) == Listed(messages[i + 1..]);
      }
      return None;
    }

    /** A graceful leave through the victim; true only when it was acknowledged. */
    method LeaveViaVictim(name: string, machine: MachineObject, ghost obs: int, ghost peers: seq<Machine>, ghost i: nat, ghost id: nat)
      returns (left: bool)
      requires world.Valid() && i < |peers| && world.At(name, Proceed(VictimAddress(obs, peers, i, id), machine.m))
      modifies world`s, world`history, world`open
      ensures world.Valid() && world.open == old(world.open)
      ensures world.At(name, if left then Proceed(Stage.StampEtcd(obs, EtcdOutcome.Left), machine.m)
                             else Proceed(Remove(obs, peers, i, id), machine.m))
    {
      var reply := world.Ask(name, VictimAddress(obs, peers, i, id), machine.m, ResolveAddress(machine.m.name));
      if !reply.AddressIs? || reply.address == "" {
        return false;
      }
      assert world.At(name, Proceed(VictimDial(obs, peers, i, id), machine.m));
      var client, _ := world.Connect(name, VictimDial(obs, peers, i, id), machine.m, machine.m.name);
      if client == null {
        return false;
      }
      left := LeaveOver(name, machine, obs, peers, i, id, client);
      world.Close(client);
    }

    method LeaveOver(name: string, machine: MachineObject, ghost obs: int, ghost peers: seq<Machine>, ghost i: nat, ghost id: nat, client: Client)
      returns (left: bool)
      requires world.Valid() && i < |peers| && world.At(name, Proceed(VictimHealth(obs, peers, i, id), machine.m))
      requires client in world.open && !client.closed && client.node == machine.m.name
      modifies world`s, world`history
      ensures world.Valid()
      ensures world.At(name, if left then Proceed(Stage.StampEtcd(obs, EtcdOutcome.Left), machine.m)
                             else Proceed(Remove(obs, peers, i, id), machine.m))
    {
      var reply := world.Talos(name, VictimHealth(obs, peers, i, id), machine.m, client, ServiceInfo(client.node));
      if !reply.Services? || !EtcdNotFinished(reply.services) {
        return false;
      }
      ForfeitFirst(name, machine, obs, peers, i, id, client);
      reply := world.Talos(name, Leave(obs, peers, i, id), machine.m, client, LeaveCluster(client.node));
      return reply.Ok?;
    }

    /** Gives up leadership, unless a leave was attempted before; a failure does not matter. */
    method ForfeitFirst(name: string, machine: MachineObject, ghost obs: int, ghost peers: seq<Machine>, ghost i: nat, ghost id: nat, client: Client)
      requires world.Valid() && i < |peers| && client in world.open && !client.closed && client.node == machine.m.name
      requires world.At(name, Proceed(if EtcdLeavingKey in machine.m.annotations then Leave(obs, peers, i, id)
                                      else Forfeit(obs, peers, i, id), machine.m))
      modifies world`s, world`history
      ensures world.Valid() && world.At(name, Proceed(Leave(obs, peers, i, id), machine.m))
    {
      if EtcdLeavingKey !in machine.m.annotations {
        var _ := world.Talos(name, Forfeit(obs, peers, i, id), machine.m, client, ForfeitLeadership(client.node));
      }
    }

    // --- reset phase --------------------------------------------------------

    method ResetPhase(name: string, machine: MachineObject, obs: int) returns (ok: bool)
      requires world.Valid() && world.At(name, EnterReset(machine.m, obs))
      modifies world`s, world`history, world`open, machine
      ensures world.Valid() && world.open == old(world.open)
      ensures world.At(name, if ok then EnterRelease(machine.m) else Stop(Error))
    {
      if ResetKey in machine.m.annotations {
        return true;
      }
      var deadline := obs + world.cfg.resetTimeout;
      var attempt := TryReset(name, machine, obs);
      var outcome: ResetOutcome;
      if attempt.None? {
        if !(world.s.now > deadline) {
          return false;
        }
        outcome := SkippedTimeout;
      } else {
        outcome := attempt.value;
      }
      ok := PatchAnnotations(name, StampReset(obs, outcome), machine, WithReset(machine.m.annotations, outcome));
    }

    /** One reset attempt: its conclusion, or nothing when it failed. */
    method TryReset(name: string, machine: MachineObject, ghost obs: int) returns (outcome: Option<ResetOutcome>)
      requires world.Valid() && world.At(name, Proceed(ResetAddress(obs), machine.m))
      modifies world`s, world`history, world`open
      ensures world.Valid() && world.open == old(world.open)
      ensures world.At(name, match outcome
                             case Some(o) => Proceed(Stage.StampReset(obs, o), machine.m)
                             case None => ResetFailed(world.cfg, machine.m, obs, world.s.now))
    {
      var reply := world.Ask(name, ResetAddress(obs), machine.m, ResolveAddress(machine.m.name));
      if !reply.AddressIs? {
        return None;
      }
      if reply.address == "" {
        return Some(SkippedNoAddress);
      }
      assert world.At(name, Proceed(ResetConfig(obs), machine.m));
      reply := world.Ask(name, ResetConfig(obs), machine.m, LoadConfig);
      if !reply.Ok? {
        return None;
      }
      outcome := ResetOver(name, machine, obs);
    }

    /** Dials the victim and resets it. */
    method ResetOver(name: string, machine: MachineObject, ghost obs: int) returns (outcome: Option<ResetOutcome>)
      requires world.Valid() && world.At(name, Proceed(Stage.ResetDial(obs), machine.m))
      modifies world`s, world`history, world`open
      ensures world.Valid() && world.open == old(world.open)
      ensures world.At(name, match outcome
                             case Some(o) => Proceed(Stage.StampReset(obs, o), machine.m)
                             case None => ResetFailed(world.cfg, machine.m, obs, world.s.now))
    {
      var client, _ := world.Connect(name, Stage.ResetDial(obs), machine.m, machine.m.name);
      if client == null {
        return None;
      }
      var reply := world.Talos(name, ResetCall(obs), machine.m, client, ResetGeneric(client.node));
      world.Close(client);
      return if reply.Ok? then Some(ResetDone) else None;
    }
  }
}
