/** One reconcile of one Machine, call by call.  The controller is a process that
    has one request pending at a time; `Advance` says what it does with the reply.
    The methods of `Teardown.Reconciler` are proved to be this process. */
module Protocol {
  import opened Common
  import opened Machines
  import opened PeerOrder

  /** Times are nanoseconds; the clock is never negative. */
  const SECOND: int := 1_000_000_000
  const HOOK_WAIT: int := 15 * SECOND

  /** The controller's settings, the timestamp codec (`time.RFC3339`), and the node
      each etcd member runs on. */
  datatype Config = Config(
    etcdTimeout: int,
    resetTimeout: int,
    etcdCallTimeout: int,
    resetCallTimeout: int,
    format: int -> string,
    parse: string -> Option<int>,
    owner: nat -> string,
    hostname: nat -> string)

  function Truncate(t: int): int {
    t - t % SECOND
  }

  /** RFC 3339 section 5.6 timestamps, written without a fraction: a whole second
      reads back as itself. */
  ghost predicate WholeSecondCodec(cfg: Config) {
    forall t :: t % SECOND == 0 ==> cfg.parse(cfg.format(t)) == Some(t)
  }

  datatype Request =
    | GetMachine
    | PatchAnnotations(edits: Edits)
    | EnsureCredentials
    | GetCluster
    | ListControlPlane
    | LoadConfig
    | ResolveAddress(node: string)
    | Dial(node: string)
    | ServiceInfo(node: string)
    | MemberList(node: string)
    | ForfeitLeadership(node: string)
    | LeaveCluster(node: string)
    | RemoveMember(node: string, id: nat)
    | ResetGeneric(node: string)

  datatype Reply =
    | Failed
    | NotFound
    | Ok
    | TheMachine(machine: Machine)
    | TheCluster(deleting: bool)
    | ControlPlane(machines: seq<Machine>)
    | AddressIs(address: string)
    | Services(services: seq<Service>)
    | MembersAre(response: MemberResponse)

  /** A request, its reply, and when the reply arrived. */
  datatype Exchange = Exchange(request: Request, reply: Reply, at: int)

  /** The request a reconcile is waiting on, with the locals it needs afterwards.
      `obs` is the phase-entry time all deadlines are measured from. */
  datatype Stage =
    | StampHook
    | Credentials
    | StampObserved(obs: int)
    | ReadCluster(obs: int)
    | HoldCheck(obs: int)
    | EtcdConfig(obs: int)
    | PeerList(obs: int)
    | PeerAddress(obs: int, peers: seq<Machine>, i: nat)
    | PeerDial(obs: int, peers: seq<Machine>, i: nat)
    | PeerHealth(obs: int, peers: seq<Machine>, i: nat)
    | PeerMembers(obs: int, peers: seq<Machine>, i: nat)
    | VictimAddress(obs: int, peers: seq<Machine>, i: nat, id: nat)
    | VictimDial(obs: int, peers: seq<Machine>, i: nat, id: nat)
    | VictimHealth(obs: int, peers: seq<Machine>, i: nat, id: nat)
    | Forfeit(obs: int, peers: seq<Machine>, i: nat, id: nat)
    | Leave(obs: int, peers: seq<Machine>, i: nat, id: nat)
    | Remove(obs: int, peers: seq<Machine>, i: nat, id: nat)
    | StampEtcd(obs: int, etcd: EtcdOutcome)
    | ResetAddress(obs: int)
    | ResetConfig(obs: int)
    | ResetDial(obs: int)
    | ResetCall(obs: int)
    | StampReset(obs: int, reset: ResetOutcome)
    | Release

  /** How a reconcile ends: nothing more to do, come back in 15s, or an error. */
  datatype Outcome = Done | Requeue | Error

  datatype Progress =
    | Proceed(stage: Stage, snap: Machine)
    | Stop(outcome: Outcome)

  /** `Reading` waits for the Machine itself; afterwards `snap` is the reconcile's own
      copy of it, and `log` what was exchanged so far in this reconcile. */
  datatype Proc =
    | Idle
    | Reading
    | Running(stage: Stage, snap: Machine, log: seq<Exchange>)

  // --- annotation edits -----------------------------------------------------

  function WithHook(ann: Annotations): Annotations {
    (ann - LegacyHookKeys(ann))[HOOK := HOOK_VALUE]
  }

  function WithoutHook(ann: Annotations): Annotations {
    ann - LegacyHookKeys(ann) - {HOOK}
  }

  function WithObserved(cfg: Config, ann: Annotations, obs: int): Annotations {
    ann[ObservedAtKey := cfg.format(obs)]
  }

  function WithEtcd(ann: Annotations, o: EtcdOutcome): Annotations {
    ann[EtcdKey := EtcdText(o)]
  }

  function WithReset(ann: Annotations, o: ResetOutcome): Annotations {
    ann[ResetKey := ResetText(o)]
  }

  /** The annotations a patching stage is about to leave behind. */
  function Target(cfg: Config, stage: Stage, ann: Annotations): Annotations {
    match stage
    case StampHook => WithHook(ann)
    case StampObserved(obs) => WithObserved(cfg, ann, obs)
    case StampEtcd(_, o) => WithEtcd(ann, o)
    case StampReset(_, o) => WithReset(ann, o)
    case Release => WithoutHook(ann)
    case _ => ann
  }

  predicate Patching(stage: Stage) {
    stage.StampHook? || stage.StampObserved? || stage.StampEtcd? || stage.StampReset? || stage.Release?
  }

  predicate Probing(stage: Stage) {
    stage.PeerAddress? || stage.PeerDial? || stage.PeerHealth? || stage.PeerMembers?
  }

  predicate Acting(stage: Stage) {
    || stage.VictimAddress? || stage.VictimDial? || stage.VictimHealth?
    || stage.Forfeit? || stage.Leave? || stage.Remove?
  }

  predicate Resetting(stage: Stage) {
    stage.ResetAddress? || stage.ResetConfig? || stage.ResetDial? || stage.ResetCall?
  }

  predicate WellIndexed(stage: Stage) {
    (Probing(stage) || Acting(stage)) ==> stage.i < |stage.peers|
  }

  /** The candidate being probed or acting; `WellIndexed` holds in every run. */
  function PeerName(peers: seq<Machine>, i: nat): string {
    if i < |peers| then peers[i].name else ""
  }

  function Pending(cfg: Config, stage: Stage, snap: Machine): Request
  {
    match stage
    case StampHook => PatchAnnotations(Diff(snap.annotations, Target(cfg, stage, snap.annotations)))
    case StampObserved(_) => PatchAnnotations(Diff(snap.annotations, Target(cfg, stage, snap.annotations)))
    case StampEtcd(_, _) => PatchAnnotations(Diff(snap.annotations, Target(cfg, stage, snap.annotations)))
    case StampReset(_, _) => PatchAnnotations(Diff(snap.annotations, Target(cfg, stage, snap.annotations)))
    case Release => PatchAnnotations(Diff(snap.annotations, Target(cfg, stage, snap.annotations)))
    case Credentials => EnsureCredentials
    case ReadCluster(_) => GetCluster
    case HoldCheck(_) => ListControlPlane
    case EtcdConfig(_) => LoadConfig
    case PeerList(_) => ListControlPlane
    case PeerAddress(_, peers, i) => ResolveAddress(PeerName(peers, i))
    case PeerDial(_, peers, i) => Dial(PeerName(peers, i))
    case PeerHealth(_, peers, i) => ServiceInfo(PeerName(peers, i))
    case PeerMembers(_, peers, i) => MemberList(PeerName(peers, i))
    case VictimAddress(_, _, _, _) => ResolveAddress(snap.name)
    case VictimDial(_, _, _, _) => Dial(snap.name)
    case VictimHealth(_, _, _, _) => ServiceInfo(snap.name)
    case Forfeit(_, _, _, _) => ForfeitLeadership(snap.name)
    case Leave(_, _, _, _) => LeaveCluster(snap.name)
    case Remove(_, peers, i, id) => RemoveMember(PeerName(peers, i), id)
    case ResetAddress(_) => ResolveAddress(snap.name)
    case ResetConfig(_) => LoadConfig
    case ResetDial(_) => Dial(snap.name)
    case ResetCall(_) => ResetGeneric(snap.name)
  }

  // --- phase entries --------------------------------------------------------

  /** The parsed phase-entry stamp; absent and unparseable read the same. */
  function ObservedAt(cfg: Config, ann: Annotations): Option<int> {
    if ObservedAtKey in ann then cfg.parse(ann[ObservedAtKey]) else None
  }

  function EnterMachine(cfg: Config, m: Machine, now: int): Progress {
    if !Qualifies(m) && !HasHook(m) then Stop(Done)
    else if m.deletion.None? then
      Proceed(if HasHook(m) then Credentials else StampHook, m)
    else if HasHook(m) then EnterGate(cfg, m, now)
    else if ResetKey in m.annotations then Stop(Done)
    else if !StampAllowed(m) then Stop(Done)
    else Proceed(StampHook, m)
  }

  function EnterGate(cfg: Config, m: Machine, now: int): Progress {
    if !AtPreTerminate(m) then Stop(Done)
    else if HasOtherPreTerminateHooks(m) then Stop(Requeue)
    else
      match ObservedAt(cfg, m.annotations)
      case Some(obs) => Proceed(ReadCluster(obs), m)
      case None => Proceed(StampObserved(Truncate(now)), m)
  }

  function EnterEtcd(m: Machine, obs: int, clusterDeleting: bool): Progress {
    if EtcdKey in m.annotations then EnterReset(m, obs)
    else if clusterDeleting then Proceed(StampEtcd(obs, SkippedClusterDelete), m)
    else if !m.controlPlane then EnterReset(m, obs)
    else Proceed(HoldCheck(obs), m)
  }

  function EnterProbe(cfg: Config, m: Machine, obs: int, peers: seq<Machine>, i: nat, now: int): Progress {
    if i < |peers| then Proceed(PeerAddress(obs, peers, i), m) else EtcdFailed(cfg, m, obs, now)
  }

  function EtcdFailed(cfg: Config, m: Machine, obs: int, now: int): Progress {
    if now > obs + cfg.etcdTimeout then Proceed(StampEtcd(obs, Orphaned), m) else Stop(Error)
  }

  function EnterReset(m: Machine, obs: int): Progress {
    if ResetKey in m.annotations then EnterRelease(m) else Proceed(ResetAddress(obs), m)
  }

  function ResetFailed(cfg: Config, m: Machine, obs: int, now: int): Progress {
    if now > obs + cfg.resetTimeout then Proceed(StampReset(obs, SkippedTimeout), m) else Stop(Error)
  }

  function EnterRelease(m: Machine): Progress {
    if HasHook(m) then Proceed(Release, m) else Stop(Done)
  }

  // --- replies --------------------------------------------------------------

  function AfterRead(cfg: Config, reply: Reply, now: int): Progress {
    match reply
    case TheMachine(m) => EnterMachine(cfg, m, now)
    case NotFound => Stop(Done)
    case _ => Stop(Error)
  }

  /** What follows a patch that landed, on the updated copy. */
  function AfterPatch(cfg: Config, stage: Stage, m: Machine): Progress
    requires Patching(stage)
  {
    match stage
    case StampHook => Proceed(Credentials, m)
    case StampObserved(obs) => Proceed(ReadCluster(obs), m)
    case StampEtcd(obs, _) => EnterReset(m, obs)
    case StampReset(_, _) => EnterRelease(m)
    case Release => Stop(Done)
  }

  function Advance(cfg: Config, stage: Stage, snap: Machine, reply: Reply, now: int): Progress
  {
    if Patching(stage) then AfterStamp(cfg, stage, snap, reply)
    else if Probing(stage) then AfterProbe(cfg, stage, snap, reply, now)
    else if Acting(stage) then AfterAct(cfg, stage, snap, reply, now)
    else if Resetting(stage) then AfterReset(cfg, stage, snap, reply, now)
    else AfterLead(cfg, stage, snap, reply, now)
  }

  function AfterStamp(cfg: Config, stage: Stage, snap: Machine, reply: Reply): Progress
    requires Patching(stage)
  {
    if reply.Ok? then AfterPatch(cfg, stage, snap.(annotations := Target(cfg, stage, snap.annotations)))
    else Stop(Error)
  }

  function AfterLead(cfg: Config, stage: Stage, snap: Machine, reply: Reply, now: int): Progress
    requires !Patching(stage) && !Probing(stage) && !Acting(stage) && !Resetting(stage)
  {
    match stage
    case Credentials =>
      if !reply.Ok? then Stop(Error)
      else if snap.deletion.None? then Stop(Done)
      else EnterGate(cfg, snap, now)
    case ReadCluster(obs) =>
      (match reply
       case TheCluster(deleting) => EnterEtcd(snap, obs, deleting)
       case NotFound => EnterEtcd(snap, obs, true)
       case _ => Stop(Error))
    case HoldCheck(obs) =>
      (match reply
       case ControlPlane(machines) =>
         if Held(snap, machines) then Stop(Requeue) else Proceed(EtcdConfig(obs), snap)
       case _ => Stop(Error))
    case EtcdConfig(obs) =>
      if reply.Ok? then Proceed(PeerList(obs), snap) else EtcdFailed(cfg, snap, obs, now)
    case PeerList(obs) =>
      (match reply
       case ControlPlane(machines) => EnterProbe(cfg, snap, obs, OrderPeers(machines, snap), 0, now)
       case _ => EtcdFailed(cfg, snap, obs, now))
  }

  function AfterReset(cfg: Config, stage: Stage, snap: Machine, reply: Reply, now: int): Progress
    requires Resetting(stage)
  {
    match stage
    case ResetAddress(obs) =>
      (match reply
       case AddressIs(address) =>
         if address == "" then Proceed(StampReset(obs, SkippedNoAddress), snap) else Proceed(ResetConfig(obs), snap)
       case _ => ResetFailed(cfg, snap, obs, now))
    case ResetConfig(obs) =>
      if reply.Ok? then Proceed(ResetDial(obs), snap) else ResetFailed(cfg, snap, obs, now)
    case ResetDial(obs) =>
      if reply.Ok? then Proceed(ResetCall(obs), snap) else ResetFailed(cfg, snap, obs, now)
    case ResetCall(obs) =>
      if reply.Ok? then Proceed(StampReset(obs, ResetDone), snap) else ResetFailed(cfg, snap, obs, now)
  }

  /** A reply that keeps the peer being probed a candidate. */
  predicate Answered(stage: Stage, reply: Reply) {
    match stage
    case PeerAddress(_, _, _) => reply.AddressIs? && reply.address != ""
    case PeerDial(_, _, _) => reply.Ok?
    case PeerHealth(_, _, _) => reply.Services? && EtcdHealthy(reply.services)
    case PeerMembers(_, _, _) => reply.MembersAre?
    case _ => false
  }

  function AfterProbe(cfg: Config, stage: Stage, snap: Machine, reply: Reply, now: int): Progress
    requires Probing(stage)
  {
    var obs, peers, i := stage.obs, stage.peers, stage.i;
    if !Answered(stage, reply) then EnterProbe(cfg, snap, obs, peers, i + 1, now)
    else match stage
      case PeerAddress(_, _, _) => Proceed(PeerDial(obs, peers, i), snap)
      case PeerDial(_, _, _) => Proceed(PeerHealth(obs, peers, i), snap)
      case PeerHealth(_, _, _) => Proceed(PeerMembers(obs, peers, i), snap)
      case PeerMembers(_, _, _) =>
        match FindMember(reply.response, HostnameCandidates(snap))
        case None => Proceed(StampEtcd(obs, NotMember), snap)
        case Some(member) => Proceed(VictimAddress(obs, peers, i, member.id), snap)
  }

  function AfterAct(cfg: Config, stage: Stage, snap: Machine, reply: Reply, now: int): Progress
    requires Acting(stage)
  {
    var obs, peers, i, id := stage.obs, stage.peers, stage.i, stage.id;
    match stage
    case VictimAddress(_, _, _, _) =>
      if reply.AddressIs? && reply.address != "" then Proceed(VictimDial(obs, peers, i, id), snap)
      else Proceed(Remove(obs, peers, i, id), snap)
    case VictimDial(_, _, _, _) =>
      if reply.Ok? then Proceed(VictimHealth(obs, peers, i, id), snap)
      else Proceed(Remove(obs, peers, i, id), snap)
    case VictimHealth(_, _, _, _) =>
      if !(reply.Services? && EtcdNotFinished(reply.services)) then Proceed(Remove(obs, peers, i, id), snap)
      else if EtcdLeavingKey in snap.annotations then Proceed(Leave(obs, peers, i, id), snap)
      else Proceed(Forfeit(obs, peers, i, id), snap)
    case Forfeit(_, _, _, _) => Proceed(Leave(obs, peers, i, id), snap)
    case Leave(_, _, _, _) =>
      if reply.Ok? then Proceed(StampEtcd(obs, Left), snap) else Proceed(Remove(obs, peers, i, id), snap)
    case Remove(_, _, _, _) =>
      if reply.Ok? then Proceed(StampEtcd(obs, Removed), snap) else EtcdFailed(cfg, snap, obs, now)
  }

  // --- timing ---------------------------------------------------------------

  /** How long a request may take: Talos calls have their own timeouts, everything
      else is taken as instantaneous. */
  function Budget(cfg: Config, request: Request): int {
    match request
    case ServiceInfo(_) => cfg.etcdCallTimeout
    case MemberList(_) => cfg.etcdCallTimeout
    case ForfeitLeadership(_) => cfg.etcdCallTimeout
    case LeaveCluster(_) => cfg.etcdCallTimeout
    case RemoveMember(_, _) => cfg.etcdCallTimeout
    case ResetGeneric(_) => cfg.resetCallTimeout
    case _ => 0
  }

  /** The rate limiter's delay after `failures` earlier failures: 5s doubling to 30s. */
  function Backoff(failures: nat): int {
    if failures == 0 then 5 * SECOND
    else if 2 * Backoff(failures - 1) < 30 * SECOND then 2 * Backoff(failures - 1)
    else 30 * SECOND
  }

  lemma {:induction false} BackoffRange(failures: nat)
    ensures 5 * SECOND <= Backoff(failures) <= 30 * SECOND
    ensures Backoff(failures) <= Backoff(failures + 1)
    ensures failures < 3 ==> Backoff(failures) == [5, 10, 20][failures] * SECOND
    ensures failures >= 3 ==> Backoff(failures) == 30 * SECOND
  {
    if failures > 0 { BackoffRange(failures - 1); }
  }
}
