/** What discovery wants a Hardware to be, and how that is laid over the live one. */
module DiscoveryMapping {
  import opened Common
  import opened HardwareModel
  import Names

  /** Collected inventory; missing NICs, ports and drives are absent entries. */
  datatype Device = Device(
    vendor: string,
    serial: string,
    nics: seq<Option<seq<Option<string>>>>,
    drives: seq<Option<string>>)

  datatype HardwareOptions = HardwareOptions(name: string, facilityCode: string, autoEnroll: bool)

  datatype Endpoint = Endpoint(instance: string, service: string)

  /** The sparse object discovery sends: an empty string or list is left out of it. */
  datatype Desired = Desired(
    name: string,
    stamps: map<MetaKey, string>,
    agentID: string,
    autoEnroll: bool,
    bmcRef: string,
    manufacturer: string,
    instanceID: string,
    hostname: string,
    facility: string,
    interfaces: seq<Interface>,
    disks: seq<string>)

  const MANAGED_BY: string := "tinkerbell-bmc-discovery-controller"

  predicate Managed(hw: Hardware) {
    Lookup(hw.labels, ManagedBy) == Some(MANAGED_BY)
  }

  // --- MAC addresses --------------------------------------------------------

  predicate HexDigit(c: char) {
    '0' <= c <= '9' || 'a' <= c <= 'f'
  }

  /** Six lowercase hex pairs joined by colons. */
  predicate ValidMAC(mac: string) {
    |mac| == 17 && forall i :: 0 <= i < 17 ==> if i % 3 == 2 then mac[i] == ':' else HexDigit(mac[i])
  }

  /** The ports' MACs as reported, lowercased, in order. */
  function PortMACs(ports: seq<Option<string>>): seq<string> {
    if ports == [] then []
    else (if ports[0].Some? then [Lower(ports[0].value)] else []) + PortMACs(ports[1..])
  }

  function ReportedMACs(nics: seq<Option<seq<Option<string>>>>): seq<string> {
    if nics == [] then []
    else (if nics[0].Some? then PortMACs(nics[0].value) else []) + ReportedMACs(nics[1..])
  }

  /** The first valid MAC of the list, or nothing. */
  function FirstValid(macs: seq<string>): string {
    if macs == [] then "" else if ValidMAC(macs[0]) then macs[0] else FirstValid(macs[1..])
  }

  function PrimaryMAC(dev: Device): string {
    FirstValid(ReportedMACs(dev.nics))
  }

  /** One more reported MAC: kept if valid and new. */
  function KeepMAC(macs: seq<string>, mac: string): seq<string> {
    if !ValidMAC(mac) || mac in macs then macs else macs + [mac]
  }

  function KeepMACs(macs: seq<string>, reported: seq<string>): seq<string>
    decreases |reported|
  {
    if reported == [] then macs else KeepMACs(KeepMAC(macs, reported[0]), reported[1..])
  }

  lemma {:induction false} KeepMACsAppend(macs: seq<string>, a: seq<string>, b: seq<string>)
    ensures KeepMACs(macs, a + b) == KeepMACs(KeepMACs(macs, a), b)
    decreases |a|
  {
    if a == [] {
      assert a + b == b;
    } else {
      assert (a + b)[1..] == a[1..] + b;
      KeepMACsAppend(KeepMAC(macs, a[0]), a[1..], b);
    }
  }

  /** Exactly the valid reported MACs, each once, the first one first. */
  lemma {:induction false} KeepMACsExact(macs: seq<string>, reported: seq<string>)
    requires forall i, j :: 0 <= i < j < |macs| ==> macs[i] != macs[j]
    ensures var kept := KeepMACs(macs, reported);
            && macs <= kept
            && (forall i, j :: 0 <= i < j < |kept| ==> kept[i] != kept[j])
            && (forall mac :: mac in kept <==> mac in macs || (mac in reported && ValidMAC(mac)))
            && (macs == [] ==> FirstValid(reported) == if kept == [] then "" else kept[0])
    decreases |reported|
  {
    if reported != [] {
      assert reported == [reported[0]] + reported[1..];
      KeepMACsExact(KeepMAC(macs, reported[0]), reported[1..]);
    }
  }

  /** The loops over NICs and ports. */
  method InbandMACs(dev: Device) returns (macs: seq<string>)
    ensures macs == KeepMACs([], ReportedMACs(dev.nics))
    ensures forall mac :: mac in macs <==> mac in ReportedMACs(dev.nics) && ValidMAC(mac)
    ensures PrimaryMAC(dev) == if macs == [] then "" else macs[0]
  {
    macs := [];
    var seen: set<string> := {};
    for i := 0 to |dev.nics|
      invariant KeepMACs([], ReportedMACs(dev.nics)) == KeepMACs(macs, ReportedMACs(dev.nics[i..]))
      invariant seen == set mac <- macs
    {
      assert dev.nics[i..][1..] == dev.nics[i + 1..];
      if dev.nics[i].None? {
        assert ReportedMACs(dev.nics[i..]) == ReportedMACs(dev.nics[i + 1..]);
        continue;
      }
      ghost var was := macs;
      macs, seen := PortLoop(dev.nics[i].value, macs, seen);
      assert ReportedMACs(dev.nics[i..]) == PortMACs(dev.nics[i].value) + ReportedMACs(dev.nics[i + 1..]);
      KeepMACsAppend(was, PortMACs(dev.nics[i].value), ReportedMACs(dev.nics[i + 1..]));
    }
    KeepMACsExact([], ReportedMACs(dev.nics));
  }

  method PortLoop(ports: seq<Option<string>>, macs: seq<string>, seen: set<string>) returns (macs': seq<string>, seen': set<string>)
    requires seen == set mac <- macs
    ensures macs' == KeepMACs(macs, PortMACs(ports))
    ensures seen' == set mac <- macs'
  {
    macs', seen' := macs, seen;
    for i := 0 to |ports|
      invariant KeepMACs(macs, PortMACs(ports)) == KeepMACs(macs', PortMACs(ports[i..]))
      invariant seen' == set mac <- macs'
    {
      assert ports[i..][1..] == ports[i + 1..];
      if ports[i].None? {
        assert PortMACs(ports[i..]) == PortMACs(ports[i + 1..]);
        continue;
      }
      var mac := Lower(ports[i].value);
      KeepMACsAppend(macs', [mac], PortMACs(ports[i + 1..]));
      if !ValidMAC(mac) || mac in seen' {
        continue;
      }
      seen' := seen' + {mac};
      macs' := macs' + [mac];
    }
  }

  // --- the desired Hardware -------------------------------------------------

  const ARMED: Netboot := Netboot(Some(true), Some(true), "")

  function PrimaryNetboot(hw: Hardware): Option<Netboot> {
    if |hw.interfaces| > 0 then hw.interfaces[0].netboot else None
  }

  /** Defaults at creation, the live block verbatim afterwards. */
  function NetbootFor(live: Option<Hardware>): Netboot {
    if live.Some? && PrimaryNetboot(live.value).Some? then PrimaryNetboot(live.value).value else ARMED
  }

  function NamedDrives(drives: seq<Option<string>>): seq<string> {
    if drives == [] then []
    else (if drives[0].Some? && drives[0].value != "" then [drives[0].value] else []) + NamedDrives(drives[1..])
  }

  function Stamps(ep: Endpoint, now: string): map<MetaKey, string> {
    map[LastSeen := now, MdnsInstance := ep.instance, MdnsService := ep.service]
  }

  function DesiredHardware(dev: Device, opts: HardwareOptions, ep: Endpoint, now: string, live: Option<Hardware>): Desired {
    var mac := PrimaryMAC(dev);
    Desired(opts.name, Stamps(ep, now), mac, opts.autoEnroll, opts.name, Names.Sanitized(dev.vendor),
            if mac == "" then dev.serial else mac, opts.name, opts.facilityCode,
            if mac == "" then [] else [Interface(Some(NetbootFor(live)), Some(Dhcp(mac, opts.name, "")))],
            NamedDrives(dev.drives))
  }

  /** The builder's code: the primary MAC, the vendor's slug, the named drives. */
  method BuildHardware(dev: Device, opts: HardwareOptions, ep: Endpoint, now: string, live: Option<Hardware>) returns (desired: Desired)
    ensures desired == DesiredHardware(dev, opts, ep, now, live)
  {
    var mac := FindPrimaryMAC(dev);
    var slug := Names.SanitizeName(dev.vendor);
    var interfaces: seq<Interface> := [];
    if mac != "" {
      interfaces := [Interface(Some(NetbootFor(live)), Some(Dhcp(mac, opts.name, "")))];
    }
    var disks := ListDisks(dev.drives);
    desired := Desired(opts.name, Stamps(ep, now), mac, opts.autoEnroll, opts.name, slug,
                       if mac == "" then dev.serial else mac, opts.name, opts.facilityCode, interfaces, disks);
  }

  method FindPrimaryMAC(dev: Device) returns (mac: string)
    ensures mac == PrimaryMAC(dev)
  {
    var macs := InbandMACs(dev);
    mac := if |macs| > 0 then macs[0] else "";
  }

  method ListDisks(drives: seq<Option<string>>) returns (disks: seq<string>)
    ensures disks == NamedDrives(drives)
  {
    disks := [];
    for i := 0 to |drives|
      invariant NamedDrives(drives) == disks + NamedDrives(drives[i..])
    {
      assert drives[i..][1..] == drives[i + 1..];
      if drives[i].Some? && drives[i].value != "" {
        disks := disks + [drives[i].value];
      }
    }
  }

  /** The `carry` step: the live netboot block, put into the object about to be applied. */
  function Carried(desired: Desired, live: Hardware): Desired {
    if desired.interfaces == [] then desired
    else desired.(interfaces := desired.interfaces[0 := desired.interfaces[0].(netboot := Some(NetbootFor(Some(live))))])
  }

  /** Building without the live object and carrying it later is building with it. */
  lemma CarryIsBuild(dev: Device, opts: HardwareOptions, ep: Endpoint, now: string, live: Hardware)
    ensures Carried(DesiredHardware(dev, opts, ep, now, None), live) == DesiredHardware(dev, opts, ep, now, Some(live))
  {
  }

  // --- what the API server makes of it --------------------------------------

  function Said(s: string): Option<string> {
    if s == "" then None else Some(s)
  }

  function Or<T>(said: Option<T>, live: Option<T>): Option<T> {
    if said.Some? then said else live
  }

  /** A plain create. */
  function Created(d: Desired): Hardware {
    Hardware(map[ManagedBy := MANAGED_BY], d.stamps, None,
             Some(Metadata(Said(d.manufacturer), Said(d.facility), Some(Instance(d.instanceID, d.hostname, None, "")))),
             d.interfaces, Inventory(d.agentID, d.autoEnroll, Some(d.bmcRef), d.disks))
  }

  /** The fields that a sync may leave out of what it sends. */
  datatype Field = AgentID | ManufacturerSlug | InstanceID | FacilityCode | Interfaces | Disks

  /** A server-side apply: the fields that were sent replace the live ones, interfaces and
      disks as whole lists.  A field left out goes if it is `pruned`, that is, if an earlier
      apply of discovery sent it and nobody else has owned it since; all else stays. */
  function Applied(live: Hardware, d: Desired, pruned: set<Field>): Hardware {
    var metadata := if live.metadata.Some? then live.metadata.value else Metadata(None, None, None);
    var instance := if metadata.instance.Some? then metadata.instance.value else Instance("", "", None, "");
    Hardware(
      live.labels[ManagedBy := MANAGED_BY],
      live.annotations + d.stamps,
      live.userData,
      Some(Metadata(Or(Said(d.manufacturer), if ManufacturerSlug in pruned then None else metadata.manufacturer),
                    Or(Said(d.facility), if FacilityCode in pruned then None else metadata.facility),
                    Some(instance.(id := Unless(d.instanceID, InstanceID in pruned, instance.id), hostname := d.hostname)))),
      Unless(d.interfaces, Interfaces in pruned, live.interfaces),
      Inventory(Unless(d.agentID, AgentID in pruned, live.inventory.agentID), d.autoEnroll, Some(d.bmcRef),
                Unless(d.disks, Disks in pruned, live.inventory.disks)))
  }

  /** What was said, else nothing if it is pruned, else what was there. */
  function Unless<T>(said: seq<T>, pruned: bool, live: seq<T>): seq<T> {
    if said != [] then said else if pruned then [] else live
  }

  /** What the sparse object says: an interface with the first valid MAC reported, which is
      then the machine's identity, or none at all exactly when no port reports one; each
      named drive; a vendor slug that is a label.  What it creates is nobody's claim. */
  lemma DesiredSays(dev: Device, opts: HardwareOptions, ep: Endpoint, now: string, live: Option<Hardware>)
    ensures var d := DesiredHardware(dev, opts, ep, now, live);
            && (d.interfaces == [] <==> forall mac <- ReportedMACs(dev.nics) :: !ValidMAC(mac))
            && (d.interfaces == [] ==> d.agentID == "" && d.instanceID == dev.serial)
            && (d.interfaces != [] ==>
                  && |d.interfaces| == 1 && d.interfaces[0].dhcp.Some?
                  && FirstAmong(d.interfaces[0].dhcp.value.mac, ReportedMACs(dev.nics))
                  && d.agentID == d.instanceID == d.interfaces[0].dhcp.value.mac)
            && (forall disk :: disk in d.disks <==> disk != "" && Some(disk) in dev.drives)
            && (d.manufacturer != "" ==> Names.IsLabel(d.manufacturer))
            && Classify(Created(d)) == NeverClaimed && Created(d).userData.None?
            && OperatingSystemOf(Created(d)).None? && StateOf(Created(d)) == ""
  {
    FirstValidFirst(ReportedMACs(dev.nics));
    NamedDrivesExact(dev.drives);
    Names.SanitizedIsLabel(dev.vendor);
  }

  /** What the object shows after a sync, created or updated. */
  predicate Shows(hw: Hardware, dev: Device, opts: HardwareOptions, ep: Endpoint, now: string) {
    var mac := PrimaryMAC(dev);
    && Lookup(hw.labels, ManagedBy) == Some("tinkerbell-bmc-discovery-controller")
    && Lookup(hw.annotations, LastSeen) == Some(now)
    && Lookup(hw.annotations, MdnsInstance) == Some(ep.instance) && Lookup(hw.annotations, MdnsService) == Some(ep.service)
    && hw.inventory.autoEnroll == opts.autoEnroll && hw.inventory.bmcRef == Some(opts.name)
    && InstanceOf(hw).Some? && InstanceOf(hw).value.hostname == opts.name
    && (opts.facilityCode != "" ==> hw.metadata.value.facility == Some(opts.facilityCode))
    && (Names.Sanitized(dev.vendor) != "" ==> hw.metadata.value.manufacturer == Some(Names.Sanitized(dev.vendor)))
    && (mac == "" && dev.serial != "" ==> InstanceOf(hw).value.id == dev.serial)
    && (mac != "" ==>
          && hw.inventory.agentID == mac && InstanceOf(hw).value.id == mac
          && |hw.interfaces| == 1 && hw.interfaces[0].dhcp == Some(Dhcp(mac, opts.name, "")) && hw.interfaces[0].netboot.Some?)
    && (NamedDrives(dev.drives) != [] ==> hw.inventory.disks == NamedDrives(dev.drives))
  }

  /** A sync shows what was sighted, whatever was there before; a new object is armed for PXE
      and workflows exactly if it has an interface to be armed on. */
  lemma SyncShows(dev: Device, opts: HardwareOptions, ep: Endpoint, now: string, live: Hardware, pruned: set<Field>)
    ensures var created := Created(DesiredHardware(dev, opts, ep, now, None));
            && Shows(created, dev, opts, ep, now)
            && PrimaryNetboot(created) == if PrimaryMAC(dev) == "" then None else Some(Netboot(Some(true), Some(true), ""))
    ensures Shows(Applied(live, DesiredHardware(dev, opts, ep, now, Some(live)), pruned), dev, opts, ep, now)
  {
    CreateShows(dev, opts, ep, now);
    ApplyShows(dev, opts, ep, now, live, pruned);
  }

  lemma CreateShows(dev: Device, opts: HardwareOptions, ep: Endpoint, now: string)
    ensures var created := Created(DesiredHardware(dev, opts, ep, now, None));
            && Shows(created, dev, opts, ep, now)
            && PrimaryNetboot(created) == if PrimaryMAC(dev) == "" then None else Some(Netboot(Some(true), Some(true), ""))
  {
  }

  lemma ApplyShows(dev: Device, opts: HardwareOptions, ep: Endpoint, now: string, live: Hardware, pruned: set<Field>)
    ensures Shows(Applied(live, DesiredHardware(dev, opts, ep, now, Some(live)), pruned), dev, opts, ep, now)
  {
  }

  /** Two hex digits. */
  predicate HexPair(s: string) {
    |s| == 2 && IsHex(s[0]) && IsHex(s[1])
  }

  predicate IsHex(c: char) {
    48 <= c as int <= 57 || 97 <= c as int <= 102
  }

  /** `n` hex pairs joined by colons. */
  predicate HexPairs(s: string, n: nat)
    decreases n
  {
    if n == 0 then false
    else if n == 1 then HexPair(s)
    else |s| > 3 && HexPair(s[..2]) && s[2] == ':' && HexPairs(s[3..], n - 1)
  }

  /** A MAC address is valid exactly if it is six hex pairs joined by colons. */
  lemma ValidMACExact(mac: string)
    ensures ValidMAC(mac) <==> HexPairs(mac, 6)
  {
    ValidFrom(mac, 6);
    assert mac[|mac| - |mac|..] == mac;
  }

  /** The same for what is left of it, `n` pairs long. */
  lemma {:induction false} ValidFrom(s: string, n: nat)
    requires n > 0
    ensures HexPairs(s, n) <==> |s| == 3 * n - 1 && forall i :: 0 <= i < |s| ==> if i % 3 == 2 then s[i] == ':' else HexDigit(s[i])
    decreases n
  {
    assert forall i :: 0 <= i < |s| ==> (HexDigit(s[i]) <==> IsHex(s[i]));
    if n > 1 && |s| > 3 {
      ValidFrom(s[3..], n - 1);
      assert forall i :: 0 <= i < |s| - 3 ==> s[3..][i] == s[i + 3];
      assert forall i :: 3 <= i < |s| ==> s[i] == s[3..][i - 3];
      assert s[..2][0] == s[0] && s[..2][1] == s[1];
    }
  }

  /** The first of the reported MACs that is valid. */
  ghost predicate FirstAmong(mac: string, reported: seq<string>) {
    exists i :: 0 <= i < |reported| && reported[i] == mac && ValidMAC(mac) && forall j :: 0 <= j < i ==> !ValidMAC(reported[j])
  }

  lemma {:induction false} FirstValidFirst(reported: seq<string>)
    ensures FirstValid(reported) == "" <==> forall mac <- reported :: !ValidMAC(mac)
    ensures FirstValid(reported) != "" ==> FirstAmong(FirstValid(reported), reported)
  {
    if reported != [] {
      if ValidMAC(reported[0]) {
        assert reported[0] in reported;
      } else {
        FirstValidFirst(reported[1..]);
        assert forall mac :: mac in reported <==> mac == reported[0] || mac in reported[1..];
        if FirstValid(reported) != "" {
          var i :| 0 <= i < |reported[1..]| && reported[1..][i] == FirstValid(reported)
                   && forall j :: 0 <= j < i ==> !ValidMAC(reported[1..][j]);
          assert reported[i + 1] == FirstValid(reported);
          forall j | 0 <= j < i + 1 ensures !ValidMAC(reported[j]) {
            if j > 0 { assert reported[j] == reported[1..][j - 1]; }
          }
        }
      }
    }
  }

  /** This port reports this MAC address. */
  predicate PortReports(nics: seq<Option<seq<Option<string>>>>, i: int, j: int, mac: string) {
    && 0 <= i < |nics| && nics[i].Some? && 0 <= j < |nics[i].value| && nics[i].value[j].Some?
    && Lower(nics[i].value[j].value) == mac
  }

  /** And it is the first port, by NIC and then by port, to report a valid one. */
  ghost predicate FirstPort(nics: seq<Option<seq<Option<string>>>>, i: int, j: int, mac: string) {
    && PortReports(nics, i, j, mac) && ValidMAC(mac)
    && forall i', j', m :: PortReports(nics, i', j', m) && (i' < i || (i' == i && j' < j)) ==> !ValidMAC(m)
  }

  /** The primary MAC is that of the first port reporting a valid one; there is none exactly
      if no port does. */
  lemma PrimaryMACExact(dev: Device)
    ensures if PrimaryMAC(dev) == "" then forall i, j, mac :: PortReports(dev.nics, i, j, mac) ==> !ValidMAC(mac)
            else exists i, j :: FirstPort(dev.nics, i, j, PrimaryMAC(dev))
  {
    FirstOfNICs(dev.nics);
  }

  lemma {:induction false} FirstOfNICs(nics: seq<Option<seq<Option<string>>>>)
    ensures var mac := FirstValid(ReportedMACs(nics));
            if mac == "" then forall i, j, m :: PortReports(nics, i, j, m) ==> !ValidMAC(m)
            else exists i, j :: FirstPort(nics, i, j, mac)
    decreases |nics|
  {
    if nics != [] {
      var ports := if nics[0].Some? then nics[0].value else [];
      FirstValidAppend(PortMACs(ports), ReportedMACs(nics[1..]));
      FirstOfPorts(ports);
      FirstOfNICs(nics[1..]);
      if FirstValid(PortMACs(ports)) != "" {
        var j :| FirstOf(ports, j, FirstValid(PortMACs(ports)));
        assert FirstPort(nics, 0, j, FirstValid(PortMACs(ports)));
      } else if FirstValid(ReportedMACs(nics[1..])) != "" {
        var i, j :| FirstPort(nics[1..], i, j, FirstValid(ReportedMACs(nics[1..])));
        LaterPort(nics, i, j, FirstValid(ReportedMACs(nics[1..])));
      } else {
        forall i, j, m | PortReports(nics, i, j, m) ensures !ValidMAC(m) {
          if i > 0 { assert PortReports(nics[1..], i - 1, j, m); }
        }
      }
    }
  }

  lemma LaterPort(nics: seq<Option<seq<Option<string>>>>, i: int, j: int, mac: string)
    requires nics != [] && FirstPort(nics[1..], i, j, mac)
    requires forall j', m :: PortReports(nics, 0, j', m) ==> !ValidMAC(m)
    ensures FirstPort(nics, i + 1, j, mac)
  {
    forall i', j', m | PortReports(nics, i', j', m) && (i' < i + 1 || (i' == i + 1 && j' < j)) ensures !ValidMAC(m) {
      if i' > 0 { assert PortReports(nics[1..], i' - 1, j', m); }
    }
  }

  ghost predicate FirstOf(ports: seq<Option<string>>, j: int, mac: string) {
    && 0 <= j < |ports| && ports[j].Some? && Lower(ports[j].value) == mac && ValidMAC(mac)
    && forall j' :: 0 <= j' < j && ports[j'].Some? ==> !ValidMAC(Lower(ports[j'].value))
  }

  lemma {:induction false} FirstOfPorts(ports: seq<Option<string>>)
    ensures var mac := FirstValid(PortMACs(ports));
            if mac == "" then forall j :: 0 <= j < |ports| && ports[j].Some? ==> !ValidMAC(Lower(ports[j].value))
            else exists j :: FirstOf(ports, j, mac)
    decreases |ports|
  {
    if ports != [] {
      var first := if ports[0].Some? then [Lower(ports[0].value)] else [];
      FirstValidAppend(first, PortMACs(ports[1..]));
      FirstOfPorts(ports[1..]);
      assert forall j :: 1 <= j < |ports| ==> ports[j] == ports[1..][j - 1];
      if ports[0].Some? && ValidMAC(Lower(ports[0].value)) {
        assert FirstOf(ports, 0, Lower(ports[0].value));
      } else if FirstValid(PortMACs(ports[1..])) != "" {
        var j :| FirstOf(ports[1..], j, FirstValid(PortMACs(ports[1..])));
        assert FirstOf(ports, j + 1, FirstValid(PortMACs(ports[1..])));
      }
    }
  }

  lemma {:induction false} FirstValidAppend(a: seq<string>, b: seq<string>)
    ensures FirstValid(a + b) == if FirstValid(a) != "" then FirstValid(a) else FirstValid(b)
    decreases |a|
  {
    if a == [] {
      assert a + b == b;
    } else {
      assert (a + b)[1..] == a[1..] + b;
      FirstValidAppend(a[1..], b);
    }
  }

  lemma {:induction false} NamedDrivesExact(drives: seq<Option<string>>)
    ensures forall disk :: disk in NamedDrives(drives) <==> disk != "" && Some(disk) in drives
  {
    if drives != [] { NamedDrivesExact(drives[1..]); }
  }

  /** Syncing again with the same inventory changes nothing: what was created or applied is
      what would be applied next, as long as nothing more is pruned than before. */
  lemma ResyncIsStable(dev: Device, opts: HardwareOptions, ep: Endpoint, now: string, live: Hardware, pruned: set<Field>, later: set<Field>)
    ensures var created := Created(DesiredHardware(dev, opts, ep, now, None));
            Applied(created, DesiredHardware(dev, opts, ep, now, Some(created)), later) == created
    ensures var applied := Applied(live, DesiredHardware(dev, opts, ep, now, Some(live)), pruned);
            later <= pruned ==> Applied(applied, DesiredHardware(dev, opts, ep, now, Some(applied)), later) == applied
  {
    StableAfterCreate(dev, opts, ep, now, later);
    if later <= pruned { StableAfterApply(dev, opts, ep, now, live, pruned, later); }
  }

  lemma StableAfterCreate(dev: Device, opts: HardwareOptions, ep: Endpoint, now: string, later: set<Field>)
    ensures var created := Created(DesiredHardware(dev, opts, ep, now, None));
            Applied(created, DesiredHardware(dev, opts, ep, now, Some(created)), later) == created
  {
    var created := Created(DesiredHardware(dev, opts, ep, now, None));
    var again := Applied(created, DesiredHardware(dev, opts, ep, now, Some(created)), later);
    assert again.labels == created.labels && again.annotations == created.annotations;
  }

  lemma StableAfterApply(dev: Device, opts: HardwareOptions, ep: Endpoint, now: string, live: Hardware, pruned: set<Field>, later: set<Field>)
    requires later <= pruned
    ensures var applied := Applied(live, DesiredHardware(dev, opts, ep, now, Some(live)), pruned);
            Applied(applied, DesiredHardware(dev, opts, ep, now, Some(applied)), later) == applied
  {
    var d := DesiredHardware(dev, opts, ep, now, Some(live));
    var applied := Applied(live, d, pruned);
    assert applied.labels[ManagedBy := MANAGED_BY] == applied.labels;
    assert applied.annotations + d.stamps == applied.annotations;
  }

  /** An update leaves the other writers' fields alone.  Of the netboot block it keeps
      whatever is there, unless no MAC is known and the interfaces are pruned; it authors
      one only where a MAC is known and no block exists. */
  lemma UpdateKeepsForeignFields(dev: Device, opts: HardwareOptions, ep: Endpoint, now: string, live: Hardware, pruned: set<Field>)
    ensures var after := Applied(live, DesiredHardware(dev, opts, ep, now, Some(live)), pruned);
            && after.userData == live.userData
            && OperatingSystemOf(after) == OperatingSystemOf(live) && StateOf(after) == StateOf(live)
            && (Owned(after) <==> Owned(live))
            && (Provisioned in after.annotations <==> Provisioned in live.annotations)
            && Lookup(after.annotations, ScrubbedAt) == Lookup(live.annotations, ScrubbedAt)
            && Classify(after) == Classify(live)
            && (PrimaryNetboot(after) == PrimaryNetboot(live) <==>
                  if PrimaryMAC(dev) != "" then PrimaryNetboot(live).Some?
                  else PrimaryNetboot(live).None? || Interfaces !in pruned)
  {
    var after := Applied(live, DesiredHardware(dev, opts, ep, now, Some(live)), pruned);
    assert after.userData == live.userData;
    assert HasUserData(after) == HasUserData(live);
  }
}
