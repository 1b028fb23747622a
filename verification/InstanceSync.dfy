/** Merging what a source reports into the recorded properties of an instance. */
module InstanceSync {
  import opened Common

  type Uuid = nat

  datatype Disk = Disk(capacity: int, name: string, shared: bool, supported: bool, verified: bool)

  datatype Nic = Nic(uuid: Uuid, id: string, hardwareAddress: string, location: string, ipv4: string, ipv6: string)

  /** What a successful refresh of the monitoring data collects. */
  datatype Collected = Collected(health: string, status: string, collectedAt: Time,
                                 metrics: map<string, real>, sampleTimes: map<string, Time>)

  datatype Monitoring = Monitoring(source: string, resourceId: string, collected: Collected, attemptedAt: Time, error: string)

  datatype Identity = Identity(sourceSpecificId: string, location: string, name: string, description: string,
                               architecture: string, os: string, osDescription: string, osTemplate: string)

  datatype Devices = Devices(disks: seq<Disk>, backgroundImport: bool, nics: seq<Nic>, snapshots: seq<string>) {
    predicate SupportsBackgroundImport() {
      backgroundImport && forall d | d in disks :: d.supported ==> d.verified
    }
  }

  datatype Machine = Machine(cpus: int, memory: int, legacyBoot: bool, secureBoot: bool, tpm: bool, running: bool)

  /** An SDN tag set of None stands for an SDN manager that did not report. */
  datatype Properties = Properties(identity: Identity, config: map<string, string>, devices: Devices, machine: Machine,
                                   sdnTags: Option<seq<(string, string)>>, tags: seq<(string, string)>,
                                   monitoring: Option<Monitoring>)

  const DEFAULT_ARCHITECTURE := "x86_64"

  // ---- The merge -----------------------------------------------------------------------------------------

  function LastDisk(disks: seq<Disk>, name: string): Option<Disk> {
    if disks == [] then None
    else if disks[|disks| - 1].name == name then Some(disks[|disks| - 1])
    else LastDisk(disks[..|disks| - 1], name)
  }

  function LastNic(nics: seq<Nic>, id: string): Option<Nic> {
    if nics == [] then None
    else if nics[|nics| - 1].id == id then Some(nics[|nics| - 1])
    else LastNic(nics[..|nics| - 1], id)
  }

  /** A known disk keeps its verification. */
  function PreservedDisk(known: seq<Disk>, d: Disk): Disk {
    var last := LastDisk(known, d.name);
    if last.Some? then d.(verified := last.value.verified) else d
  }

  /** A known NIC keeps its identity, and its addresses if the source reports none. */
  function PreservedNic(known: seq<Nic>, n: Nic): Nic {
    var last := LastNic(known, n.id);
    if last.None? then n
    else
      n.(ipv4 := if n.ipv4 == [] then last.value.ipv4 else n.ipv4,
         ipv6 := if n.ipv6 == [] then last.value.ipv6 else n.ipv6,
         uuid := last.value.uuid)
  }

  function PreservedDisks(known: seq<Disk>, reported: seq<Disk>): (r: seq<Disk>)
    ensures |r| == |reported| && forall k | 0 <= k < |r| :: r[k] == PreservedDisk(known, reported[k])
  {
    if reported == [] then []
    else PreservedDisks(known, reported[..|reported| - 1]) + [PreservedDisk(known, reported[|reported| - 1])]
  }

  function PreservedNics(known: seq<Nic>, reported: seq<Nic>): (r: seq<Nic>)
    ensures |r| == |reported| && forall k | 0 <= k < |r| :: r[k] == PreservedNic(known, reported[k])
  {
    if reported == [] then []
    else PreservedNics(known, reported[..|reported| - 1]) + [PreservedNic(known, reported[|reported| - 1])]
  }

  function MergedDisks(known: seq<Disk>, reported: seq<Disk>, sameImport: bool): seq<Disk> {
    if known == reported || !sameImport then reported else PreservedDisks(known, reported)
  }

  function MergedNics(known: seq<Nic>, reported: seq<Nic>): seq<Nic> {
    if known == reported then reported else PreservedNics(known, reported)
  }

  /** A report older than the recorded attempt is ignored. A failed one keeps what was collected before from
      the same resource. */
  function Monitored(known: Option<Monitoring>, data: Monitoring): Monitoring {
    if known.None? || known.value.source != data.source then data
    else if known.value.attemptedAt != ZERO_TIME && data.attemptedAt < known.value.attemptedAt then known.value
    else if data.error != [] && known.value.resourceId == data.resourceId then data.(collected := known.value.collected)
    else data
  }

  /** The source's texts win, but the optional ones only if the source reports them. */
  function MergedIdentity(i: Identity, s: Identity): Identity {
    Identity(
      if i.sourceSpecificId == [] then s.sourceSpecificId else i.sourceSpecificId,
      s.location, s.name, s.description,
      if s.architecture != [] then s.architecture
      else if i.architecture != [] then i.architecture else DEFAULT_ARCHITECTURE,
      if s.os != [] then s.os else i.os,
      if s.osDescription != [] then s.osDescription else i.osDescription,
      if s.osTemplate != [] then s.osTemplate else i.osTemplate)
  }

  function MergedDevices(i: Devices, s: Devices): Devices {
    Devices(MergedDisks(i.disks, s.disks, i.backgroundImport == s.backgroundImport), s.backgroundImport,
            MergedNics(i.nics, s.nics), s.snapshots)
  }

  /** Tags that were never recorded and are reported to be none stay unrecorded. */
  function MergedSdnTags(recorded: Option<seq<(string, string)>>, reported: Option<seq<(string, string)>>): Option<seq<(string, string)>> {
    if reported.None? || (recorded.None? && reported.value == []) then recorded else reported
  }

  function MergedMonitoring(recorded: Option<Monitoring>, reported: Option<Monitoring>): Option<Monitoring> {
    if reported.None? then recorded else Some(Monitored(recorded, reported.value))
  }

  function Merged(i: Properties, s: Properties): Properties {
    Properties(
      MergedIdentity(i.identity, s.identity), i.config, MergedDevices(i.devices, s.devices), s.machine,
      MergedSdnTags(i.sdnTags, s.sdnTags), s.tags, MergedMonitoring(i.monitoring, s.monitoring))
  }

  // ---- The implementation --------------------------------------------------------------------------------

  method PreserveDisks(known: seq<Disk>, reported: seq<Disk>) returns (disks: seq<Disk>)
    ensures disks == PreservedDisks(known, reported)
  {
    var byName: map<string, Disk> := map[];
    for k := 0 to |known|
      invariant forall n :: LastDisk(known[..k], n) == if n in byName then Some(byName[n]) else None
    {
      assert known[..k + 1][..k] == known[..k];
      byName := byName[known[k].name := known[k]];
    }
    assert known[..|known|] == known;
    disks := [];
    for k := 0 to |reported|
      invariant |disks| == k && forall j | 0 <= j < k :: disks[j] == PreservedDisk(known, reported[j])
    {
      var d := reported[k];
      if d.name in byName {
        d := d.(verified := byName[d.name].verified);
      }
      disks := disks + [d];
    }
  }

  method PreserveNics(known: seq<Nic>, reported: seq<Nic>) returns (nics: seq<Nic>)
    ensures nics == PreservedNics(known, reported)
  {
    var byId: map<string, Nic> := map[];
    for k := 0 to |known|
      invariant forall n :: LastNic(known[..k], n) == if n in byId then Some(byId[n]) else None
    {
      assert known[..k + 1][..k] == known[..k];
      byId := byId[known[k].id := known[k]];
    }
    assert known[..|known|] == known;
    nics := [];
    for k := 0 to |reported|
      invariant |nics| == k && forall j | 0 <= j < k :: nics[j] == PreservedNic(known, reported[j])
    {
      var n := reported[k];
      if n.id in byId {
        var last := byId[n.id];
        if n.ipv4 == [] && last.ipv4 != [] {
          n := n.(ipv4 := last.ipv4);
        }
        if n.ipv6 == [] && last.ipv6 != [] {
          n := n.(ipv6 := last.ipv6);
        }
        n := n.(uuid := last.uuid);
      }
      nics := nics + [n];
    }
  }

  method ApplyIdentity(i: Identity, s: Identity) returns (p: Identity, updated: bool)
    ensures p == MergedIdentity(i, s)
    ensures updated <==> p != i
  {
    var sourceSpecificId, location, name, description, architecture, os, osDescription, osTemplate :=
      i.sourceSpecificId, i.location, i.name, i.description, i.architecture, i.os, i.osDescription, i.osTemplate;
    updated := false;
    if sourceSpecificId == [] && s.sourceSpecificId != [] {
      sourceSpecificId := s.sourceSpecificId;
      updated := true;
    }
    if location != s.location {
      location := s.location;
      updated := true;
    }
    if name != s.name {
      name := s.name;
      updated := true;
    }
    if description != s.description {
      description := s.description;
      updated := true;
    }
    if architecture != s.architecture && s.architecture != [] {
      architecture := s.architecture;
      updated := true;
    }
    if architecture == [] {
      architecture := DEFAULT_ARCHITECTURE;
      updated := true;
    }
    if os != s.os && s.os != [] {
      os := s.os;
      updated := true;
    }
    if osDescription != s.osDescription && s.osDescription != [] {
      osDescription := s.osDescription;
      updated := true;
    }
    if osTemplate != s.osTemplate && s.osTemplate != [] {
      osTemplate := s.osTemplate;
      updated := true;
    }
    p := Identity(sourceSpecificId, location, name, description, architecture, os, osDescription, osTemplate);
  }

  method ApplyDevices(i: Devices, s: Devices) returns (p: Devices, updated: bool)
    ensures p == MergedDevices(i, s)
    ensures updated <==> p != i
  {
    p, updated := i, false;
    if p.disks != s.disks {
      if p.backgroundImport == s.backgroundImport {
        var disks := PreserveDisks(p.disks, s.disks);
        if p.disks != disks {
          p := p.(disks := disks);
          updated := true;
        }
      } else {
        p := p.(disks := s.disks);
        updated := true;
      }
    }
    if p.backgroundImport != s.backgroundImport {
      p := p.(backgroundImport := s.backgroundImport);
      updated := true;
    }
    if p.nics != s.nics {
      var nics := PreserveNics(p.nics, s.nics);
      if p.nics != nics {
        p := p.(nics := nics);
        updated := true;
      }
    }
    if p.snapshots != s.snapshots {
      p := p.(snapshots := s.snapshots);
      updated := true;
    }
  }

  method ApplyMachine(i: Machine, s: Machine) returns (p: Machine, updated: bool)
    ensures p == s
    ensures updated <==> p != i
  {
    var cpus, memory, legacyBoot, secureBoot, tpm, running :=
      i.cpus, i.memory, i.legacyBoot, i.secureBoot, i.tpm, i.running;
    updated := false;
    if cpus != s.cpus {
      cpus := s.cpus;
      updated := true;
    }
    if memory != s.memory {
      memory := s.memory;
      updated := true;
    }
    if legacyBoot != s.legacyBoot {
      legacyBoot := s.legacyBoot;
      updated := true;
    }
    if secureBoot != s.secureBoot {
      secureBoot := s.secureBoot;
      updated := true;
    }
    if tpm != s.tpm {
      tpm := s.tpm;
      updated := true;
    }
    if running != s.running {
      running := s.running;
      updated := true;
    }
    p := Machine(cpus, memory, legacyBoot, secureBoot, tpm, running);
  }

  method ApplyTags(i: Properties, s: Properties)
    returns (sdnTags: Option<seq<(string, string)>>, tags: seq<(string, string)>, updated: bool)
    ensures sdnTags == MergedSdnTags(i.sdnTags, s.sdnTags) && tags == s.tags
    ensures updated <==> sdnTags != i.sdnTags || tags != i.tags
  {
    sdnTags, tags, updated := i.sdnTags, i.tags, false;
    if s.sdnTags.Some? && s.sdnTags.value != (if sdnTags.Some? then sdnTags.value else []) {
      sdnTags := s.sdnTags;
      updated := true;
    }
    if tags != s.tags {
      tags := s.tags;
      updated := true;
    }
  }

  class Instance {
    var properties: Properties

    constructor (properties: Properties)
      ensures this.properties == properties
    {
      this.properties := properties;
    }

    method UpdateMonitoring(report: Monitoring) returns (updated: bool)
      modifies this
      ensures properties == old(properties).(monitoring := Some(Monitored(old(properties).monitoring, report)))
      ensures updated <==> properties != old(properties)
    {
      var data, known := report, properties.monitoring;
      if known.Some? && known.value.source == data.source && known.value.attemptedAt != ZERO_TIME
         && data.attemptedAt < known.value.attemptedAt {
        return false;
      }
      if data.error != [] && known.Some? && known.value.source == data.source && known.value.resourceId == data.resourceId {
        data := data.(collected := known.value.collected);
      }
      if known == Some(data) {
        return false;
      }
      properties := properties.(monitoring := Some(data));
      return true;
    }

    /** The receiver is a copy: the caller's instance stays as it was. */
    method ApplyUpdates(s: Properties) returns (inst: Instance, updated: bool)
      ensures fresh(inst)
      ensures inst.properties == Merged(properties, s)
      ensures updated <==> inst.properties != properties
    {
      hide MergedIdentity, MergedDevices, MergedSdnTags, Monitored;
      var identity, newIdentity := ApplyIdentity(properties.identity, s.identity);
      var devices, newDevices := ApplyDevices(properties.devices, s.devices);
      var machine, newMachine := ApplyMachine(properties.machine, s.machine);
      var sdnTags, tags, newTags := ApplyTags(properties, s);
      updated := newIdentity || newDevices || newMachine || newTags;
      inst := new Instance(Properties(identity, properties.config, devices, machine, sdnTags, tags, properties.monitoring));
      if s.monitoring.Some? {
        var refreshed := inst.UpdateMonitoring(s.monitoring.value);
        updated := updated || refreshed;
      }
      assert inst.properties.monitoring == MergedMonitoring(properties.monitoring, s.monitoring);
    }
  }
  // ---- Applying a snapshot twice -------------------------------------------------------------------------

  lemma {:induction false} LastPreservedDisk(known: seq<Disk>, reported: seq<Disk>, name: string)
    ensures var last := LastDisk(reported, name);
            LastDisk(PreservedDisks(known, reported), name) == if last.None? then None else Some(PreservedDisk(known, last.value))
    ensures LastDisk(reported, name).Some? ==> LastDisk(reported, name).value.name == name
  {
    if reported != [] {
      LastPreservedDisk(known, reported[..|reported| - 1], name);
      assert PreservedDisks(known, reported)[..|reported| - 1] == PreservedDisks(known, reported[..|reported| - 1]);
    }
  }

  lemma {:induction false} LastPreservedNic(known: seq<Nic>, reported: seq<Nic>, id: string)
    ensures var last := LastNic(reported, id);
            LastNic(PreservedNics(known, reported), id) == if last.None? then None else Some(PreservedNic(known, last.value))
    ensures LastNic(reported, id).Some? ==> LastNic(reported, id).value.id == id
  {
    if reported != [] {
      LastPreservedNic(known, reported[..|reported| - 1], id);
      assert PreservedNics(known, reported)[..|reported| - 1] == PreservedNics(known, reported[..|reported| - 1]);
    }
  }

  lemma {:induction false} LastDiskAt(disks: seq<Disk>, name: string, k: nat) returns (l: nat)
    requires k < |disks| && disks[k].name == name
    ensures k <= l < |disks| && disks[l].name == name && LastDisk(disks, name) == Some(disks[l])
  {
    l := |disks| - 1;
    if disks[l].name != name {
      l := LastDiskAt(disks[..l], name, k);
    }
  }

  lemma {:induction false} LastNicAt(nics: seq<Nic>, id: string, k: nat) returns (l: nat)
    requires k < |nics| && nics[k].id == id
    ensures k <= l < |nics| && nics[l].id == id && LastNic(nics, id) == Some(nics[l])
  {
    l := |nics| - 1;
    if nics[l].id != id {
      l := LastNicAt(nics[..l], id, k);
    }
  }

  predicate OneName(disks: seq<Disk>) {
    forall k, l | 0 <= k < l < |disks| :: disks[k].name == disks[l].name
  }

  /** Disks of one name agree on their verification, or there is only one name. */
  predicate DisksStable(disks: seq<Disk>) {
    || OneName(disks)
    || (forall k | 0 <= k < |disks| :: var last := LastDisk(disks, disks[k].name);
          last.Some? ==> disks[k].verified == last.value.verified)
  }

  /** The NIC lacks an address that the last one of its network has. */
  predicate LacksAddress(nics: seq<Nic>, n: Nic) {
    var last := LastNic(nics, n.id);
    last.Some? && ((n.ipv4 == [] && last.value.ipv4 != []) || (n.ipv6 == [] && last.value.ipv6 != []))
  }

  predicate OneNetwork(nics: seq<Nic>) {
    forall k, l | 0 <= k < l < |nics| :: nics[k].id == nics[l].id
  }

  /** No NIC lacks an address, and NICs of one network agree on their identity or there is only one network. */
  predicate NicsStable(nics: seq<Nic>) {
    && (forall n | n in nics :: !LacksAddress(nics, n))
    && (|| OneNetwork(nics)
        || (forall k | 0 <= k < |nics| :: var last := LastNic(nics, nics[k].id);
              last.Some? ==> nics[k].uuid == last.value.uuid))
  }

  lemma DiskSettles(known: seq<Disk>, reported: seq<Disk>, k: nat)
    requires k < |reported|
    requires var last := LastDisk(reported, reported[k].name);
             LastDisk(known, reported[k].name).Some? || (last.Some? && reported[k].verified == last.value.verified)
    ensures var r := PreservedDisks(known, reported);
            PreservedDisk(r, reported[k]) == r[k]
  {
    hide LastDisk, PreservedDisks;
    LastPreservedDisk(known, reported, reported[k].name);
    var l := LastDiskAt(reported, reported[k].name, k);
    assert PreservedDisks(known, reported)[k] == PreservedDisk(known, reported[k]);
  }

  lemma StableDisksSettle(known: seq<Disk>, reported: seq<Disk>, same: bool)
    requires DisksStable(reported)
    ensures var r := MergedDisks(known, reported, same);
            MergedDisks(r, reported, true) == r
  {
    hide LastDisk, PreservedDisk;
    var r := MergedDisks(known, reported, same);
    if r != reported {
      assert r == PreservedDisks(known, reported);
      forall k | 0 <= k < |reported|
        ensures PreservedDisk(r, reported[k]) == r[k]
      {
        if OneName(reported) {
          KnownName(known, reported, k);
        } else {
          var l := LastDiskAt(reported, reported[k].name, k);
        }
        DiskSettles(known, reported, k);
      }
    }
  }

  lemma KnownName(known: seq<Disk>, reported: seq<Disk>, k: nat)
    requires k < |reported| && OneName(reported) && PreservedDisks(known, reported) != reported
    ensures LastDisk(known, reported[k].name).Some?
  {
  }

  lemma NicSettles(known: seq<Nic>, reported: seq<Nic>, k: nat)
    requires k < |reported| && !LacksAddress(reported, reported[k])
    requires var last := LastNic(reported, reported[k].id);
             LastNic(known, reported[k].id).Some? || (last.Some? && reported[k].uuid == last.value.uuid)
    ensures var r := PreservedNics(known, reported);
            PreservedNic(r, reported[k]) == r[k]
  {
    hide LastNic, PreservedNics;
    LastPreservedNic(known, reported, reported[k].id);
    var l := LastNicAt(reported, reported[k].id, k);
    assert PreservedNics(known, reported)[k] == PreservedNic(known, reported[k]);
  }

  lemma StableNicsSettle(known: seq<Nic>, reported: seq<Nic>)
    requires NicsStable(reported)
    ensures var r := MergedNics(known, reported);
            MergedNics(r, reported) == r
  {
    hide LacksAddress, LastNic, PreservedNic;
    var r := MergedNics(known, reported);
    if r != reported {
      assert r == PreservedNics(known, reported);
      forall k | 0 <= k < |reported|
        ensures PreservedNic(r, reported[k]) == r[k]
      {
        if OneNetwork(reported) {
          KnownNetwork(known, reported, k);
        } else {
          var l := LastNicAt(reported, reported[k].id, k);
        }
        NicSettles(known, reported, k);
      }
    }
  }

  lemma KnownNetwork(known: seq<Nic>, reported: seq<Nic>, k: nat)
    requires k < |reported| && OneNetwork(reported) && PreservedNics(known, reported) != reported
    ensures LastNic(known, reported[k].id).Some?
  {
  }

  lemma LastOfOneDisk(d: Disk, name: string)
    ensures LastDisk([d], name) == if d.name == name then Some(d) else None
  {
  }

  lemma LastOfOneNic(n: Nic, id: string)
    ensures LastNic([n], id) == if n.id == id then Some(n) else None
  {
  }

  lemma OtherName(reported: seq<Disk>, k: nat) returns (l: nat)
    requires k < |reported| && exists i, j :: 0 <= i < j < |reported| && reported[i].name != reported[j].name
    ensures l < |reported| && reported[l].name != reported[k].name
  {
    var i, j :| 0 <= i < j < |reported| && reported[i].name != reported[j].name;
    l := if reported[i].name != reported[k].name then i else j;
  }

  lemma OtherId(reported: seq<Nic>, k: nat) returns (l: nat)
    requires k < |reported| && exists i, j :: 0 <= i < j < |reported| && reported[i].id != reported[j].id
    ensures l < |reported| && reported[l].id != reported[k].id
  {
    var i, j :| 0 <= i < j < |reported| && reported[i].id != reported[j].id;
    l := if reported[i].id != reported[k].id then i else j;
  }

  /** Flip the verification of a disk of another name: the unstable disks are then taken over as they are at
      first, and set to the last one's verification the second time. */
  lemma UnstableDisksUnsettle(reported: seq<Disk>) returns (known: seq<Disk>)
    requires !DisksStable(reported)
    ensures var r := MergedDisks(known, reported, true);
            MergedDisks(r, reported, true) != r
  {
    var k :| 0 <= k < |reported| && LastDisk(reported, reported[k].name).Some?
      && reported[k].verified != LastDisk(reported, reported[k].name).value.verified;
    var last := LastDisk(reported, reported[k].name).value;
    var l := OtherName(reported, k);
    var d := reported[l].(verified := !reported[l].verified);
    known := [d];
    LastPreservedDisk(known, reported, reported[k].name);
    LastOfOneDisk(d, reported[k].name);
    LastOfOneDisk(d, reported[l].name);
    var r := PreservedDisks(known, reported);
    assert r[l] == d && r[k] == reported[k];
    assert PreservedDisk(r, reported[k]).verified == last.verified;
    hide LastDisk, PreservedDisk;
  }

  /** The same for a NIC that lacks an address of the last NIC of its network, or has another identity. */
  lemma UnstableNicsUnsettle(reported: seq<Nic>) returns (known: seq<Nic>)
    requires !NicsStable(reported)
    ensures var r := MergedNics(known, reported);
            MergedNics(r, reported) != r
  {
    if k :| 0 <= k < |reported| && LacksAddress(reported, reported[k]) {
      known := MissingAddress(reported, k);
    } else {
      var k :| 0 <= k < |reported| && LastNic(reported, reported[k].id).Some?
        && reported[k].uuid != LastNic(reported, reported[k].id).value.uuid;
      var l := OtherId(reported, k);
      known := OtherIdentity(reported, k, l);
    }
  }

  lemma MissingAddress(reported: seq<Nic>, k: nat) returns (known: seq<Nic>)
    requires k < |reported| && LacksAddress(reported, reported[k])
    ensures var r := MergedNics(known, reported);
            MergedNics(r, reported) != r
  {
    var last := LastNic(reported, reported[k].id).value;
    var n := reported[k].(uuid := reported[k].uuid + 1, ipv4 := [], ipv6 := []);
    known := [n];
    LastPreservedNic(known, reported, reported[k].id);
    LastOfOneNic(n, reported[k].id);
    var r := PreservedNics(known, reported);
    assert r[k].uuid == n.uuid && r[k].ipv4 == reported[k].ipv4 && r[k].ipv6 == reported[k].ipv6;
    var last' := LastNic(r, reported[k].id).value;
    assert last'.ipv4 == last.ipv4 && last'.ipv6 == last.ipv6;
    assert PreservedNic(r, reported[k]) != r[k];
    hide LastNic, PreservedNic;
  }

  lemma OtherIdentity(reported: seq<Nic>, k: nat, l: nat) returns (known: seq<Nic>)
    requires k < |reported| && LastNic(reported, reported[k].id).Some?
    requires reported[k].uuid != LastNic(reported, reported[k].id).value.uuid
    requires l < |reported| && reported[l].id != reported[k].id
    ensures var r := MergedNics(known, reported);
            MergedNics(r, reported) != r
  {
    var last := LastNic(reported, reported[k].id).value;
    var n := reported[l].(uuid := reported[l].uuid + 1);
    known := [n];
    LastPreservedNic(known, reported, reported[k].id);
    LastOfOneNic(n, reported[k].id);
    LastOfOneNic(n, reported[l].id);
    var r := PreservedNics(known, reported);
    assert r[l].uuid != reported[l].uuid && r[k] == reported[k];
    assert PreservedNics(r, reported)[k].uuid == last.uuid;
  }

  lemma IdentitySettles(i: Identity, s: Identity)
    ensures MergedIdentity(MergedIdentity(i, s), s) == MergedIdentity(i, s)
  {
  }

  lemma MonitoringSettles(known: Option<Monitoring>, reported: Option<Monitoring>)
    ensures MergedMonitoring(MergedMonitoring(known, reported), reported) == MergedMonitoring(known, reported)
  {
  }

  ghost predicate Idempotent(s: Properties) {
    forall i :: Merged(Merged(i, s), s) == Merged(i, s)
  }

  /** Applying a snapshot a second time changes nothing, whatever was recorded before, if and only if its
      disks and NICs are stable. */
  lemma AppliesOnce(s: Properties)
    ensures Idempotent(s) <==> DisksStable(s.devices.disks) && NicsStable(s.devices.nics)
  {
    if DisksStable(s.devices.disks) && NicsStable(s.devices.nics) {
      forall i
        ensures Merged(Merged(i, s), s) == Merged(i, s)
      {
        StableSettles(i, s);
      }
    } else {
      var known := s.devices;
      if !DisksStable(s.devices.disks) {
        var disks := UnstableDisksUnsettle(s.devices.disks);
        known := known.(disks := disks);
      } else {
        var nics := UnstableNicsUnsettle(s.devices.nics);
        known := known.(nics := nics);
      }
      var i := s.(devices := known);
      assert Merged(Merged(i, s), s).devices != Merged(i, s).devices;
    }
  }

  lemma StableSettles(i: Properties, s: Properties)
    requires DisksStable(s.devices.disks) && NicsStable(s.devices.nics)
    ensures Merged(Merged(i, s), s) == Merged(i, s)
  {
    IdentitySettles(i.identity, s.identity);
    StableDisksSettle(i.devices.disks, s.devices.disks, i.devices.backgroundImport == s.devices.backgroundImport);
    StableNicsSettle(i.devices.nics, s.devices.nics);
    MonitoringSettles(i.monitoring, s.monitoring);
  }

  /** Unique disk names and network identifiers are enough. */
  lemma UniqueIsStable(s: Devices)
    requires forall k, l | 0 <= k < l < |s.disks| :: s.disks[k].name != s.disks[l].name
    requires forall k, l | 0 <= k < l < |s.nics| :: s.nics[k].id != s.nics[l].id
    ensures DisksStable(s.disks) && NicsStable(s.nics)
  {
    forall k | 0 <= k < |s.disks|
      ensures LastDisk(s.disks, s.disks[k].name) == Some(s.disks[k])
    {
      var l := LastDiskAt(s.disks, s.disks[k].name, k);
    }
    forall k | 0 <= k < |s.nics|
      ensures LastNic(s.nics, s.nics[k].id) == Some(s.nics[k])
    {
      var l := LastNicAt(s.nics, s.nics[k].id, k);
    }
  }

  /** What was verified stays verified: if background import is supported, stays on, and the source reports
      no supported disk that was not a known supported disk, it is still supported after the merge. */
  lemma VerificationSurvives(i: Devices, s: Devices)
    requires i.SupportsBackgroundImport() && s.backgroundImport
    requires forall d | d in s.disks && d.supported ::
               LastDisk(i.disks, d.name).Some? && LastDisk(i.disks, d.name).value.supported
    ensures MergedDevices(i, s).SupportsBackgroundImport()
  {
    var disks := MergedDevices(i, s).disks;
    forall d | d in disks && d.supported
      ensures d.verified
    {
      var k :| 0 <= k < |disks| && disks[k] == d;
      if i.disks != s.disks {
        assert s.disks[k] in s.disks;
        LastIsMember(i.disks, d.name);
      }
    }
  }

  lemma {:induction false} LastIsMember(disks: seq<Disk>, name: string)
    ensures LastDisk(disks, name).Some? ==> LastDisk(disks, name).value in disks
  {
    if disks != [] && disks[|disks| - 1].name != name {
      LastIsMember(disks[..|disks| - 1], name);
    }
  }

  /** What a merge takes over from the source, field by field, and what it keeps. */
  lemma MergeMeans(i: Properties, s: Properties)
    ensures var r := Merged(i, s);
            && r.identity.location == s.identity.location && r.identity.name == s.identity.name
            && r.identity.description == s.identity.description && r.config == i.config
            && r.machine == s.machine && r.tags == s.tags && r.devices.snapshots == s.devices.snapshots
            && r.devices.backgroundImport == s.devices.backgroundImport
            && r.identity.sourceSpecificId == (if |i.identity.sourceSpecificId| > 0 then i.identity.sourceSpecificId else s.identity.sourceSpecificId)
            && r.identity.os == (if |s.identity.os| > 0 then s.identity.os else i.identity.os)
            && r.identity.osDescription == (if |s.identity.osDescription| > 0 then s.identity.osDescription else i.identity.osDescription)
            && r.identity.osTemplate == (if |s.identity.osTemplate| > 0 then s.identity.osTemplate else i.identity.osTemplate)
            && (|s.identity.architecture| > 0 ==> r.identity.architecture == s.identity.architecture)
            && (|s.identity.architecture| == 0 < |i.identity.architecture| ==> r.identity.architecture == i.identity.architecture)
            && |r.identity.architecture| > 0
            && (s.sdnTags.None? ==> r.sdnTags == i.sdnTags)
            && (s.sdnTags.Some? ==> (if r.sdnTags.Some? then r.sdnTags.value else []) == s.sdnTags.value)
            && (s.monitoring.None? ==> r.monitoring == i.monitoring)
  {
  }

  /** The reported disks, in order, are what is stored. Only their verification may differ: if background import is
      on as before, a disk that was known by its name keeps the verification of the last one known. */
  lemma MergedDisksMean(i: Devices, s: Devices, k: nat)
    requires k < |s.disks|
    ensures |MergedDevices(i, s).disks| == |s.disks|
    ensures var d, r := s.disks[k], MergedDevices(i, s).disks[k];
            && r == d.(verified := r.verified)
            && (i.backgroundImport != s.backgroundImport ==> r == d)
            && (i.disks != s.disks && i.backgroundImport == s.backgroundImport ==>
                  && ((forall l | 0 <= l < |i.disks| :: i.disks[l].name != d.name) ==> r == d)
                  && forall l | 0 <= l < |i.disks| && i.disks[l].name == d.name
                              && (forall m | l < m < |i.disks| :: i.disks[m].name != d.name) :: r.verified == i.disks[l].verified)
  {
    LastDiskIs(i.disks, s.disks[k].name);
  }

  lemma {:induction false} LastDiskIs(disks: seq<Disk>, name: string)
    ensures LastDisk(disks, name).None? <==> forall l | 0 <= l < |disks| :: disks[l].name != name
    ensures forall l | 0 <= l < |disks| && disks[l].name == name && (forall m | l < m < |disks| :: disks[m].name != name) ::
              LastDisk(disks, name) == Some(disks[l])
  {
    if disks != [] {
      LastDiskIs(disks[..|disks| - 1], name);
      assert forall l | 0 <= l < |disks| - 1 :: disks[..|disks| - 1][l] == disks[l];
    }
  }

  /** The reported NICs, in order, are what is stored. One whose network was known keeps the identity of the last one
      known, and its addresses where the source reports none. */
  lemma MergedNicsMean(i: Devices, s: Devices, k: nat)
    requires k < |s.nics|
    ensures |MergedDevices(i, s).nics| == |s.nics|
    ensures var n, r := s.nics[k], MergedDevices(i, s).nics[k];
            && r == n.(uuid := r.uuid, ipv4 := r.ipv4, ipv6 := r.ipv6)
            && (|n.ipv4| > 0 ==> r.ipv4 == n.ipv4) && (|n.ipv6| > 0 ==> r.ipv6 == n.ipv6)
            && (i.nics != s.nics ==>
                  && ((forall l | 0 <= l < |i.nics| :: i.nics[l].id != n.id) ==> r == n)
                  && forall l | 0 <= l < |i.nics| && i.nics[l].id == n.id && (forall m | l < m < |i.nics| :: i.nics[m].id != n.id) ::
                       && r.uuid == i.nics[l].uuid
                       && (|n.ipv4| == 0 ==> r.ipv4 == i.nics[l].ipv4) && (|n.ipv6| == 0 ==> r.ipv6 == i.nics[l].ipv6))
  {
    LastNicIs(i.nics, s.nics[k].id);
  }

  lemma {:induction false} LastNicIs(nics: seq<Nic>, id: string)
    ensures LastNic(nics, id).None? <==> forall l | 0 <= l < |nics| :: nics[l].id != id
    ensures forall l | 0 <= l < |nics| && nics[l].id == id && (forall m | l < m < |nics| :: nics[m].id != id) ::
              LastNic(nics, id) == Some(nics[l])
  {
    if nics != [] {
      LastNicIs(nics[..|nics| - 1], id);
      assert forall l | 0 <= l < |nics| - 1 :: nics[..|nics| - 1][l] == nics[l];
    }
  }

  /** A report of another source always replaces what is recorded. One of the same source is dropped if it is older
      than the last attempt; else it is recorded, but after a failure with the data collected before, if those are of
      the same resource. */
  lemma MonitoredMeans(known: Monitoring, data: Monitoring)
    ensures var r := Monitored(Some(known), data);
            && (known.source != data.source ==> r == data)
            && (known.source == data.source && 0 < known.attemptedAt && data.attemptedAt < known.attemptedAt ==> r == known)
            && (known.source == data.source && (known.attemptedAt == 0 || known.attemptedAt <= data.attemptedAt) ==>
                  r == Monitoring(data.source, data.resourceId,
                                  if |data.error| > 0 && known.resourceId == data.resourceId then known.collected else data.collected,
                                  data.attemptedAt, data.error))
    ensures Monitored(None, data) == data
  {
  }

  // ---- Runs of monitoring reports ------------------------------------------------------------------------

  /** What is recorded after the reports, starting from nothing. */
  function Recorded(reports: seq<Monitoring>): Option<Monitoring> {
    if reports == [] then None
    else Some(Monitored(Recorded(reports[..|reports| - 1]), reports[|reports| - 1]))
  }

  predicate OneResource(reports: seq<Monitoring>) {
    forall k, l | 0 <= k < l < |reports| :: reports[k].source == reports[l].source && reports[k].resourceId == reports[l].resourceId
  }

  /** The report is not older than one before it. */
  predicate Timely(reports: seq<Monitoring>, k: nat)
    requires k < |reports|
  {
    forall j | 0 <= j < k :: reports[j].attemptedAt <= reports[k].attemptedAt
  }

  lemma {:induction false} AttemptIsLatest(reports: seq<Monitoring>)
    requires reports != [] && OneResource(reports)
    ensures var m := Recorded(reports).value;
            && m.source == reports[0].source && m.resourceId == reports[0].resourceId
            && (exists k :: 0 <= k < |reports| && m.attemptedAt == reports[k].attemptedAt)
            && forall k | 0 <= k < |reports| :: reports[k].attemptedAt <= m.attemptedAt
  {
    var last := |reports| - 1;
    if last > 0 {
      AttemptIsLatest(reports[..last]);
      assert forall k | 0 <= k < last :: reports[..last][k] == reports[k];
    }
  }

  /** The last report is timely exactly if it is not older than the recorded attempt. */
  lemma TimelyAgainstRecorded(reports: seq<Monitoring>, last: nat)
    requires OneResource(reports) && |reports| == last + 1 && last > 0
    ensures Recorded(reports[..last]).Some?
    ensures Timely(reports, last) <==> Recorded(reports[..last]).value.attemptedAt <= reports[last].attemptedAt
  {
    hide Monitored;
    var before := reports[..last];
    assert forall j | 0 <= j < last :: before[j] == reports[j];
    AttemptIsLatest(before);
    var k :| 0 <= k < last && Recorded(before).value.attemptedAt == before[k].attemptedAt;
  }

  lemma TimelyBefore(reports: seq<Monitoring>, last: nat, k: nat)
    requires k < last < |reports|
    ensures Timely(reports[..last], k) <==> Timely(reports, k)
  {
  }

  lemma RecordedStep(reports: seq<Monitoring>, last: nat)
    requires OneResource(reports) && |reports| == last + 1 && last > 0
    ensures Recorded(reports[..last]).Some?
    ensures Recorded(reports).value.collected ==
            if Timely(reports, last) && reports[last].error == [] then reports[last].collected
            else Recorded(reports[..last]).value.collected
  {
    hide Timely;
    TimelyAgainstRecorded(reports, last);
    AttemptIsLatest(reports[..last]);
  }

  /** Over any run of reports about one resource, the recorded data are those of the last timely report that
      succeeded, or of the first report if there is none after it. */
  lemma {:induction false} FailuresKeepData(reports: seq<Monitoring>) returns (k: nat)
    requires reports != [] && OneResource(reports)
    ensures k < |reports| && Recorded(reports).value.collected == reports[k].collected
    ensures k == 0 || (Timely(reports, k) && reports[k].error == [])
    ensures forall l | k < l < |reports| && Timely(reports, l) :: reports[l].error != []
  {
    var last := |reports| - 1;
    if last == 0 {
      k := 0;
    } else {
      k := FailuresKeepData(reports[..last]);
      RecordedStep(reports, last);
      forall j | 0 <= j < last
        ensures Timely(reports[..last], j) <==> Timely(reports, j)
      {
        TimelyBefore(reports, last, j);
      }
      hide Timely, Recorded;
      assert forall j | 0 <= j < last :: reports[..last][j] == reports[j];
      if Timely(reports, last) && reports[last].error == [] {
        k := last;
      }
    }
  }
}
