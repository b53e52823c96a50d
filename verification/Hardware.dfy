/** Tinkerbell Hardware, the released-hardware truth table, and the scrub. */
module HardwareModel {
  import opened Common

  /** Label and annotation keys: the contract keys by name, all others as they are. */
  datatype MetaKey =
    | OwnerName | OwnerNamespace | Provisioned | ScrubbedAt
    | ManagedBy | LastSeen | MdnsInstance | MdnsService
    | OtherKey(name: string)

  datatype Instance = Instance(id: string, hostname: string, operatingSystem: Option<string>, state: string)
  datatype Metadata = Metadata(manufacturer: Option<string>, facility: Option<string>, instance: Option<Instance>)
  datatype Netboot = Netboot(allowPXE: Option<bool>, allowWorkflow: Option<bool>, other: string)
  datatype Dhcp = Dhcp(mac: string, hostname: string, address: string)
  datatype Interface = Interface(netboot: Option<Netboot>, dhcp: Option<Dhcp>)

  /** The inventory half of the spec: discovery's own fields. */
  datatype Inventory = Inventory(agentID: string, autoEnroll: bool, bmcRef: Option<string>, disks: seq<string>)

  datatype Hardware = Hardware(
    labels: map<MetaKey, string>,
    annotations: map<MetaKey, string>,
    userData: Option<string>,
    metadata: Option<Metadata>,
    interfaces: seq<Interface>,
    inventory: Inventory)

  // --- the truth table ------------------------------------------------------

  datatype Class = Claimed | NeverClaimed | BootstrapReserved | HalfReleased | Released

  /** What Go's `strings.TrimSpace` trims. */
  predicate IsSpace(c: char) {
    c in {'\t', '\n', '\r', ' ', '\U{0B}', '\U{0C}', '\U{85}', '\U{A0}', '\U{1680}', '\U{2028}', '\U{2029}',
          '\U{202F}', '\U{205F}', '\U{3000}'}
    || '\U{2000}' <= c <= '\U{200A}'
  }

  predicate Blank(s: string) {
    forall i :: 0 <= i < |s| ==> IsSpace(s[i])
  }

  predicate Owned(hw: Hardware) {
    OwnerName in hw.labels || OwnerNamespace in hw.labels
  }

  predicate HasUserData(hw: Hardware) {
    hw.userData.Some? && !Blank(hw.userData.value)
  }

  function Classify(hw: Hardware): Class {
    if Owned(hw) then Claimed
    else
      var provisioned := Provisioned in hw.annotations;
      if !HasUserData(hw) && !provisioned then NeverClaimed
      else if !HasUserData(hw) && provisioned then BootstrapReserved
      else if provisioned then HalfReleased
      else Released
  }

  /** White space by code point, as Unicode has it. */
  predicate White(c: char) {
    c as int in {9, 10, 11, 12, 13, 32, 0x85, 0xA0, 0x1680, 0x2028, 0x2029, 0x202F, 0x205F, 0x3000} || 0x2000 <= c as int <= 0x200A
  }

  /** There is user data with something in it. */
  predicate SaysSomething(hw: Hardware) {
    hw.userData.Some? && exists i :: 0 <= i < |hw.userData.value| && !White(hw.userData.value[i])
  }

  /** The truth table: by owner labels, user data, and the provisioned mark. */
  lemma ClassifyTable(hw: Hardware)
    ensures var owned := OwnerName in hw.labels || OwnerNamespace in hw.labels;
            var provisioned := Provisioned in hw.annotations;
            && (Classify(hw) == Claimed <==> owned)
            && (Classify(hw) == NeverClaimed <==> !owned && !SaysSomething(hw) && !provisioned)
            && (Classify(hw) == BootstrapReserved <==> !owned && !SaysSomething(hw) && provisioned)
            && (Classify(hw) == HalfReleased <==> !owned && SaysSomething(hw) && provisioned)
            && (Classify(hw) == Released <==> !owned && SaysSomething(hw) && !provisioned)
  {
    if hw.userData.Some? {
      forall i | 0 <= i < |hw.userData.value| ensures IsSpace(hw.userData.value[i]) <==> White(hw.userData.value[i]) {
        SpaceExact(hw.userData.value[i]);
      }
    }
  }

  lemma SpaceExact(c: char)
    ensures IsSpace(c) <==> White(c)
  {
  }

  function InstanceOf(hw: Hardware): Option<Instance> {
    if hw.metadata.Some? then hw.metadata.value.instance else None
  }

  function OperatingSystemOf(hw: Hardware): Option<string> {
    if InstanceOf(hw).Some? then InstanceOf(hw).value.operatingSystem else None
  }

  function StateOf(hw: Hardware): string {
    if InstanceOf(hw).Some? then InstanceOf(hw).value.state else ""
  }

  // --- the scrub ------------------------------------------------------------

  datatype Options = Options(clearOSMetadata: bool, baselineAllowPXE: bool)

  /** A field the scrub changed. */
  datatype Change = UserData | OperatingSystem | InstanceState | ParkedPXE(i: nat)

  predicate ClearsOS(hw: Hardware, opts: Options) {
    opts.clearOSMetadata && hw.metadata.Some? && hw.metadata.value.instance.Some?
  }

  predicate Unparked(iface: Interface, opts: Options) {
    iface.netboot.Some? && iface.netboot.value.allowPXE != Some(opts.baselineAllowPXE)
  }

  function Parked(iface: Interface, opts: Options): Interface {
    if iface.netboot.None? then iface
    else iface.(netboot := Some(iface.netboot.value.(allowPXE := Some(opts.baselineAllowPXE))))
  }

  function AllParked(interfaces: seq<Interface>, opts: Options): seq<Interface> {
    seq(|interfaces|, i requires 0 <= i < |interfaces| => Parked(interfaces[i], opts))
  }

  /** The interfaces still to be parked among the first `n`, in order. */
  function ParkedUpTo(interfaces: seq<Interface>, opts: Options, n: nat): seq<Change>
    requires n <= |interfaces|
  {
    if n == 0 then []
    else ParkedUpTo(interfaces, opts, n - 1) + if Unparked(interfaces[n - 1], opts) then [ParkedPXE(n - 1)] else []
  }

  function When(b: bool, change: Change): seq<Change> {
    if b then [change] else []
  }

  /** The names of the fields a scrub changes. */
  function Changes(hw: Hardware, opts: Options): seq<Change> {
    When(hw.userData.Some?, UserData)
    + When(ClearsOS(hw, opts) && hw.metadata.value.instance.value.operatingSystem.Some?, OperatingSystem)
    + When(ClearsOS(hw, opts) && hw.metadata.value.instance.value.state != "", InstanceState)
    + ParkedUpTo(hw.interfaces, opts, |hw.interfaces|)
  }

  function ClearedMetadata(hw: Hardware, opts: Options): Option<Metadata> {
    if ClearsOS(hw, opts)
    then Some(hw.metadata.value.(instance := Some(hw.metadata.value.instance.value.(operatingSystem := None, state := ""))))
    else hw.metadata
  }

  function Scrubbed(hw: Hardware, opts: Options, stamp: string): Hardware {
    hw.(userData := None,
        metadata := ClearedMetadata(hw, opts),
        interfaces := AllParked(hw.interfaces, opts),
        annotations := if Changes(hw, opts) == [] then hw.annotations else hw.annotations[ScrubbedAt := stamp])
  }

  lemma {:induction false} ParkedUpToExact(interfaces: seq<Interface>, opts: Options, n: nat)
    requires n <= |interfaces|
    ensures forall c :: c in ParkedUpTo(interfaces, opts, n) <==> c.ParkedPXE? && c.i < n && Unparked(interfaces[c.i], opts)
  {
    if n > 0 { ParkedUpToExact(interfaces, opts, n - 1); }
  }

  lemma {:induction false} NothingToPark(interfaces: seq<Interface>, opts: Options, n: nat)
    requires n <= |interfaces| && forall i :: 0 <= i < n ==> !Unparked(interfaces[i], opts)
    ensures ParkedUpTo(interfaces, opts, n) == []
  {
    if n > 0 { NothingToPark(interfaces, opts, n - 1); }
  }

  /** A field is named exactly when the scrub changed it. */
  lemma ChangesExact(hw: Hardware, opts: Options, stamp: string)
    ensures var after := Scrubbed(hw, opts, stamp);
            && (UserData in Changes(hw, opts) <==> after.userData != hw.userData)
            && (OperatingSystem in Changes(hw, opts) <==> OperatingSystemOf(after) != OperatingSystemOf(hw))
            && (InstanceState in Changes(hw, opts) <==> StateOf(after) != StateOf(hw))
            && (after.metadata != hw.metadata ==> OperatingSystem in Changes(hw, opts) || InstanceState in Changes(hw, opts))
            && (forall i :: 0 <= i < |hw.interfaces| ==>
                  (ParkedPXE(i) in Changes(hw, opts) <==> after.interfaces[i] != hw.interfaces[i]))
            && (Changes(hw, opts) == [] ==> after == hw)
  {
    ParkedUpToExact(hw.interfaces, opts, |hw.interfaces|);
    var parked := ParkedUpTo(hw.interfaces, opts, |hw.interfaces|);
    var after := Scrubbed(hw, opts, stamp);
    forall i | 0 <= i < |hw.interfaces|
      ensures ParkedPXE(i) in parked <==> after.interfaces[i] != hw.interfaces[i]
    {
      assert ParkedPXE(i) in parked <==> Unparked(hw.interfaces[i], opts);
    }
    assert forall i :: 0 <= i < |hw.interfaces| ==> (ParkedPXE(i) in Changes(hw, opts) <==> ParkedPXE(i) in parked);
    assert forall c :: c in parked ==> c.ParkedPXE?;
    if Changes(hw, opts) == [] {
      assert after.interfaces == hw.interfaces;
    }
  }

  /** The scrub extinguishes itself: a released object has something to scrub, becomes
      never-claimed, and leaves a second scrub nothing to do. */
  lemma ScrubExtinguishes(hw: Hardware, opts: Options, stamp: string, later: string)
    requires Classify(hw) == Released
    ensures Changes(hw, opts) != []
    ensures var after := Scrubbed(hw, opts, stamp);
            Classify(after) == NeverClaimed && Changes(after, opts) == [] && Scrubbed(after, opts, later) == after
  {
    var after := Scrubbed(hw, opts, stamp);
    assert UserData in Changes(hw, opts);
    NothingToPark(after.interfaces, opts, |after.interfaces|);
    ChangesExact(after, opts, later);
  }

  /** Whatever its class, a scrub clears the user data and, if asked to, the operating system
      and the state, stamps what it changed, and touches only the fields it is for: no
      netboot block appears or goes, none of its other fields change, nor does anything else. */
  lemma ScrubTouchesOnly(hw: Hardware, opts: Options, stamp: string)
    ensures var after := Scrubbed(hw, opts, stamp);
            && after.userData.None?
            && (opts.clearOSMetadata ==> OperatingSystemOf(after).None? && StateOf(after) == "")
            && (!opts.clearOSMetadata ==> after.metadata == hw.metadata)
            && (Changes(hw, opts) != [] ==> Lookup(after.annotations, ScrubbedAt) == Some(stamp))
            && (Changes(hw, opts) == [] ==> after.annotations == hw.annotations)
            && after.labels == hw.labels && after.inventory == hw.inventory
            && (forall k :: k != ScrubbedAt ==> Lookup(after.annotations, k) == Lookup(hw.annotations, k))
            && (after.metadata.Some? <==> hw.metadata.Some?)
            && (hw.metadata.Some? ==>
                  && after.metadata.value.manufacturer == hw.metadata.value.manufacturer
                  && after.metadata.value.facility == hw.metadata.value.facility
                  && (after.metadata.value.instance.Some? <==> hw.metadata.value.instance.Some?)
                  && (hw.metadata.value.instance.Some? ==>
                        && after.metadata.value.instance.value.id == hw.metadata.value.instance.value.id
                        && after.metadata.value.instance.value.hostname == hw.metadata.value.instance.value.hostname))
            && |after.interfaces| == |hw.interfaces|
            && (forall i :: 0 <= i < |hw.interfaces| ==> OnlyPXE(hw.interfaces[i], after.interfaces[i], opts))
  {
  }

  predicate OnlyPXE(before: Interface, after: Interface, opts: Options) {
    && after.dhcp == before.dhcp
    && (after.netboot.Some? <==> before.netboot.Some?)
    && (before.netboot.Some? ==>
          && after.netboot.value.allowPXE == Some(opts.baselineAllowPXE)
          && after.netboot.value.allowWorkflow == before.netboot.value.allowWorkflow
          && after.netboot.value.other == before.netboot.value.other)
  }

  // --- the code -------------------------------------------------------------

  /** A Hardware in memory, its interfaces an array the scrub writes into. */
  class HardwareObject {
    const labels: map<MetaKey, string>
    var annotations: map<MetaKey, string>
    var userData: Option<string>
    var metadata: Option<Metadata>
    const interfaces: array<Interface>
    const inventory: Inventory

    /** A deep copy. */
    constructor (hw: Hardware)
      ensures Value() == hw && fresh(interfaces)
    {
      labels, annotations, userData, metadata, inventory := hw.labels, hw.annotations, hw.userData, hw.metadata, hw.inventory;
      interfaces := new Interface[|hw.interfaces|](i requires 0 <= i < |hw.interfaces| => hw.interfaces[i]);
    }

    function Value(): Hardware
      reads this, interfaces
    {
      Hardware(labels, annotations, userData, metadata, interfaces[..], inventory)
    }

    /** Clears and parks in place; returns the names of the fields changed. */
    method Scrub(opts: Options, stamp: string) returns (changed: seq<Change>)
      modifies this, interfaces
      ensures Value() == Scrubbed(old(Value()), opts, stamp)
      ensures changed == Changes(old(Value()), opts)
    {
      ghost var was := Value();
      changed := [];
      if userData.Some? {
        userData := None;
        changed := changed + [UserData];
      }
      assert changed == When(was.userData.Some?, UserData);
      var cleared := ClearOS(opts);
      assert metadata == ClearedMetadata(was, opts);
      var parked := Park(opts);
      changed := changed + cleared + parked;
      assert changed == Changes(was, opts);
      if |changed| > 0 {
        annotations := annotations[ScrubbedAt := stamp];
      }
    }

    /** Clears the instance's operating system and state, if asked to. */
    method ClearOS(opts: Options) returns (changed: seq<Change>)
      modifies this`metadata
      ensures metadata == ClearedMetadata(old(Value()), opts)
      ensures ClearsOS(old(Value()), opts) ==>
                var was := old(metadata.value.instance.value);
                changed == When(was.operatingSystem.Some?, OperatingSystem) + When(was.state != "", InstanceState)
      ensures !ClearsOS(old(Value()), opts) ==> changed == []
    {
      changed := [];
      if opts.clearOSMetadata && metadata.Some? && metadata.value.instance.Some? {
        var instance := metadata.value.instance.value;
        if instance.operatingSystem.Some? {
          instance := instance.(operatingSystem := None);
          changed := changed + [OperatingSystem];
        }
        if instance.state != "" {
          instance := instance.(state := "");
          changed := changed + [InstanceState];
        }
        metadata := Some(metadata.value.(instance := Some(instance)));
      }
    }

    /** The loop over the interfaces. */
    method Park(opts: Options) returns (changed: seq<Change>)
      modifies interfaces
      ensures interfaces[..] == AllParked(old(interfaces[..]), opts)
      ensures changed == ParkedUpTo(old(interfaces[..]), opts, interfaces.Length)
    {
      changed := [];
      for i := 0 to interfaces.Length
        invariant forall j :: 0 <= j < i ==> interfaces[j] == Parked(old(interfaces[j]), opts)
        invariant forall j :: i <= j < interfaces.Length ==> interfaces[j] == old(interfaces[j])
        invariant changed == ParkedUpTo(old(interfaces[..]), opts, i)
      {
        if interfaces[i].netboot.None? {
          continue;
        }
        var netboot := interfaces[i].netboot.value;
        if netboot.allowPXE.None? || netboot.allowPXE.value != opts.baselineAllowPXE {
          interfaces[i] := interfaces[i].(netboot := Some(netboot.(allowPXE := Some(opts.baselineAllowPXE))));
          changed := changed + [ParkedPXE(i)];
        }
      }
    }
  }
}
