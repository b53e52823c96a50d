/** CAPI Machines as the teardown controller sees them: the annotations it owns,
    the predicates that gate its state machine, and how a Machine is matched with
    an etcd member. */
module Machines {
  import opened Common

  // --- annotation keys ------------------------------------------------------

  /** Annotation keys, split the way the controller tells them apart.  A key under
      CAPI's pre-terminate prefix is `PreTerminate` of whatever follows the prefix. */
  datatype Key =
    | PreTerminate(suffix: string)
    | ObservedAtKey
    | EtcdKey
    | ResetKey
    | EtcdLeavingKey
    | OtherKey(name: string)

  type Annotations = map<Key, string>

  const HOOK: Key := PreTerminate("/talos-teardown")
  const HOOK_VALUE: string := "talos-machine-teardown"

  /** The four keys only this controller writes. */
  predicate OwnKey(k: Key) {
    k == HOOK || k == ObservedAtKey || k == EtcdKey || k == ResetKey
  }

  datatype EtcdOutcome = NotMember | Left | Removed | Orphaned | SkippedClusterDelete

  function EtcdText(o: EtcdOutcome): string {
    match o
    case NotMember => "not-member"
    case Left => "left"
    case Removed => "removed"
    case Orphaned => "orphaned"
    case SkippedClusterDelete => "skipped-cluster-delete"
  }

  datatype ResetOutcome = ResetDone | SkippedTimeout | SkippedNoAddress

  function ResetText(o: ResetOutcome): string {
    match o
    case ResetDone => "done"
    case SkippedTimeout => "skipped-timeout"
    case SkippedNoAddress => "skipped-no-address"
  }

  lemma EtcdTextInjective(a: EtcdOutcome, b: EtcdOutcome)
    requires EtcdText(a) == EtcdText(b)
    ensures a == b
  {
    assert |EtcdText(a)| == |EtcdText(b)|;
  }

  // --- Machines -------------------------------------------------------------

  datatype ObjectRef = ObjectRef(apiGroup: string, kind: string, name: string)

  datatype AddressKind = HostName | InternalIP | ExternalIP | OtherAddress
  datatype Address = Address(kind: AddressKind, address: string)

  /** Reasons of the Deleting condition, in the order CAPI goes through them. */
  datatype Reason =
    | DeletingStarted
    | WaitingForPreDrainHook
    | DrainingNode
    | WaitingForVolumeDetach
    | WaitingForPreTerminateHook
    | LaterReason(name: string)

  datatype Condition = Condition(isDeleting: bool, isTrue: bool, reason: Reason)

  datatype Machine = Machine(
    name: string,
    creation: int,
    deletion: Option<int>,
    controlPlane: bool,
    annotations: Annotations,
    bootstrap: ObjectRef,
    infrastructure: ObjectRef,
    nodeRef: string,
    addresses: seq<Address>,
    conditions: seq<Condition>)

  predicate Qualifies(m: Machine) {
    && m.bootstrap.kind == "TalosConfig"
    && m.bootstrap.apiGroup == "bootstrap.cluster.x-k8s.io"
    && m.infrastructure.kind == "TinkerbellMachine"
    && m.infrastructure.apiGroup == "infrastructure.cluster.x-k8s.io"
  }

  predicate HasHook(m: Machine) {
    HOOK in m.annotations
  }

  /** The first true Deleting condition's reason, if the machine controller set one. */
  function DeletingReason(conditions: seq<Condition>): Option<Reason> {
    if conditions == [] then None
    else if conditions[0].isDeleting && conditions[0].isTrue then Some(conditions[0].reason)
    else DeletingReason(conditions[1..])
  }

  predicate StampAllowed(m: Machine) {
    m.deletion.None? ||
    match DeletingReason(m.conditions)
    case None => true
    case Some(reason) => !reason.LaterReason? || reason.name == ""
  }

  predicate AtPreTerminate(m: Machine) {
    DeletingReason(m.conditions) == Some(WaitingForPreTerminateHook)
  }

  /** Another controller's pre-terminate hook.  A leftover of this controller's own,
      under an older suffix, does not count. */
  predicate ForeignHook(ann: Annotations, k: Key) {
    k in ann && k.PreTerminate? && k != HOOK && ann[k] != HOOK_VALUE
  }

  predicate HasOtherPreTerminateHooks(m: Machine) {
    exists k <- m.annotations :: ForeignHook(m.annotations, k)
  }

  predicate LegacyHook(ann: Annotations, k: Key) {
    k in ann && k.PreTerminate? && k != HOOK && ann[k] == HOOK_VALUE
  }

  function LegacyHookKeys(ann: Annotations): set<Key> {
    set k <- ann.Keys | LegacyHook(ann, k)
  }

  /** Oldest deletion first, then name: the order of the control-plane hold. */
  predicate Before(a: Machine, b: Machine) {
    a.deletion.Some? && b.deletion.Some? &&
    (a.deletion.value < b.deletion.value ||
     (a.deletion.value == b.deletion.value && StringLess(a.name, b.name)))
  }

  /** A listed machine that keeps `m` waiting: hooked, deleting, and earlier in the order. */
  predicate Holds(peer: Machine, m: Machine) {
    peer.name != m.name && HasHook(peer) && Before(peer, m)
  }

  predicate Held(m: Machine, peers: seq<Machine>) {
    exists i :: 0 <= i < |peers| && Holds(peers[i], m)
  }

  // --- etcd members ---------------------------------------------------------

  datatype Member = Member(id: nat, hostname: string)

  /** A response holds one list of members per answering node; the whole response may be absent. */
  type MemberResponse = Option<seq<seq<Member>>>

  function FirstHostName(addresses: seq<Address>, fallback: string): string {
    if addresses == [] then fallback
    else if addresses[0].kind == HostName then addresses[0].address
    else FirstHostName(addresses[1..], fallback)
  }

  function NonEmpty(names: seq<string>): seq<string> {
    if names == [] then []
    else (if names[0] != "" then [names[0]] else []) + NonEmpty(names[1..])
  }

  function HostnameCandidates(m: Machine): seq<string> {
    NonEmpty([FirstHostName(m.addresses, m.nodeRef), m.infrastructure.name, m.name])
  }

  /** A host name without its domain, case folded. */
  function HostKey(hostname: string): string {
    Lower(Cut(hostname, '.').before)
  }

  predicate MatchesMember(candidates: seq<string>, hostname: string) {
    exists i :: 0 <= i < |candidates| && HostKey(candidates[i]) == HostKey(hostname)
  }

  /** A member is recognised whatever the domain behind its host name and whatever the
      case it is written in. */
  lemma MatchIgnoresDomainAndCase(candidates: seq<string>, hostname: string, domain: string)
    requires '.' !in hostname
    ensures MatchesMember(candidates, hostname + "." + domain) == MatchesMember(candidates, hostname)
    ensures MatchesMember(candidates, Lower(hostname)) == MatchesMember(candidates, hostname)
  {
    assert hostname + "." + domain == hostname + ['.'] + domain;
    CutConcat(hostname, '.', domain);
    IndexOfNone(hostname, '.');
    assert '.' !in Lower(hostname);
    IndexOfNone(Lower(hostname), '.');
    assert Lower(Lower(hostname)) == Lower(hostname);
  }

  /** All listed members in response order. */
  function Listed(messages: seq<seq<Member>>): seq<Member> {
    if messages == [] then [] else messages[0] + Listed(messages[1..])
  }

  function FirstMatch(members: seq<Member>, candidates: seq<string>): Option<Member> {
    if members == [] then None
    else if MatchesMember(candidates, members[0].hostname) then Some(members[0])
    else FirstMatch(members[1..], candidates)
  }

  function FindMember(response: MemberResponse, candidates: seq<string>): Option<Member> {
    match response
    case None => None
    case Some(messages) => FirstMatch(Listed(messages), candidates)
  }

  lemma {:induction false} FirstMatchFinds(members: seq<Member>, candidates: seq<string>)
    ensures FirstMatch(members, candidates).Some? ==>
              FirstMatch(members, candidates).value in members &&
              MatchesMember(candidates, FirstMatch(members, candidates).value.hostname)
    ensures FirstMatch(members, candidates).None? <==>
              forall m :: m in members ==> !MatchesMember(candidates, m.hostname)
  {
    if members != [] { FirstMatchFinds(members[1..], candidates); }
  }

  /** A Talos service: no state when the node did not report one. */
  datatype Service = Service(info: Option<ServiceState>)
  datatype ServiceState = ServiceState(state: string, healthy: bool)

  predicate EtcdHealthy(services: seq<Service>) {
    exists i :: 0 <= i < |services| && services[i].info.Some? &&
                services[i].info.value.state == "Running" && services[i].info.value.healthy
  }

  predicate EtcdNotFinished(services: seq<Service>) {
    exists i :: 0 <= i < |services| && services[i].info.Some? &&
                services[i].info.value.state != "Finished"
  }

  // --- annotation patches ---------------------------------------------------

  /** A merge patch: the keys to set, and (as `None`) the keys to delete. */
  type Edits = map<Key, Option<string>>

  function Diff(before: Annotations, after: Annotations): Edits {
    map k <- before.Keys + after.Keys | Lookup(before, k) != Lookup(after, k) :: Lookup(after, k)
  }

  function Merge(stored: Annotations, edits: Edits): Annotations {
    map k <- stored.Keys + edits.Keys | k !in edits || edits[k].Some? ::
      if k in edits then edits[k].value else stored[k]
  }

  /** What a key holds after the patch computed from `before` to `after` lands on
      `stored`: keys the patch does not touch keep the stored value. */
  lemma MergeDiffAt(stored: Annotations, before: Annotations, after: Annotations, k: Key)
    ensures Lookup(Merge(stored, Diff(before, after)), k) ==
            if Lookup(before, k) == Lookup(after, k) then Lookup(stored, k) else Lookup(after, k)
  {
  }

  /** Landing the patch on the very map it was computed from gives the intended map. */
  lemma MergeDiff(before: Annotations, after: Annotations)
    ensures Merge(before, Diff(before, after)) == after
  {
    var merged := Merge(before, Diff(before, after));
    forall k ensures Lookup(merged, k) == Lookup(after, k) {
      MergeDiffAt(before, before, after, k);
    }
    assert merged.Keys == after.Keys by {
      forall k ensures k in merged <==> k in after {
        assert Lookup(merged, k) == Lookup(after, k);
      }
    }
    forall k | k in after ensures merged[k] == after[k] {
      assert Lookup(merged, k) == Lookup(after, k);
    }
  }
}
