/**
 * The inventory index `xenData` (newrelic_xenserver.js:89-105) as the metric engine reads it,
 * the per-record steps of `getXenHosts` that fill it (newrelic_xenserver.js:161-322), and the
 * component naming of `newrelicPost` (newrelic_xenserver.js:751-763).
 *
 * Only labels are kept from the index records, plus the host a VM is resident on: nothing
 * else in them is read by the engine.
 */
module Inventory {
  import opened Wrappers
  import opened JsStrings

  /** The text that replaces a label that cannot be resolved. */
  const Unnamed := "Unnamed"

  /** `xenData['vm'][uuid]`: the VM's label and the UUID of its host, `undefined` when its
      `resident_on` reference names no known host (a halted VM). */
  datatype VmInfo = VmInfo(nameLabel: string, residentOn: Option<string>)

  /** The parts of `xenData` that parsing and naming read. Every table is keyed by UUID,
      except `vifByVM` (VM, then device), `pifByHost` (host, then device) and `srShort`
      (the first dash-separated group of an SR UUID); the device tables hold network labels. */
  datatype Index = Index(
    host: map<string, string>,
    vm: map<string, VmInfo>,
    network: map<string, string>,
    sr: map<string, string>,
    vifByVM: map<string, map<string, string>>,
    pifByHost: map<string, map<string, string>>,
    srShort: map<string, string>)

  // ---------------------------------------------------------------------------------------
  // Label resolution (the try/catch blocks of parseXenMetrics)
  // ---------------------------------------------------------------------------------------

  /** A label as it may enter a namespace path: a missing entry becomes "Unnamed", a found
      label has its first '/' turned into '-'. */
  function Resolve(found: Option<string>): (r: string)
  {
    match found
    case Some(nameLabel) => ReplaceFirst(nameLabel, '/', '-')
    case None => Unnamed
  }

  /** `table[owner][device]`, missing when either level is absent. */
  function DeviceEntry(table: map<string, map<string, string>>, owner: string, device: string): Option<string>
  {
    if owner in table && device in table[owner] then Some(table[owner][device]) else None
  }

  /** `xenData['vifByVM'][uuid][device].label.replace("/", "-")`, or "Unnamed". */
  function VifLabel(idx: Index, vm: string, device: string): string
  {
    Resolve(DeviceEntry(idx.vifByVM, vm, device))
  }

  /** `xenData['pifByHost'][uuid][device].label.replace("/", "-")`, or "Unnamed". */
  function PifLabel(idx: Index, host: string, device: string): string
  {
    Resolve(DeviceEntry(idx.pifByHost, host, device))
  }

  /** `xenData['srShort'][short].label.replace("/", "-")`, or "Unnamed". */
  function SrLabel(idx: Index, short: string): string
  {
    Resolve(Get(idx.srShort, short))
  }

  /** A miss yields "Unnamed"; a hit yields the label with one '/' fewer when it had any,
      and the label itself when it had none. */
  lemma ResolveFallback(found: Option<string>)
    ensures found.None? ==> Resolve(found) == Unnamed
    ensures found.Some? && '/' !in found.value ==> Resolve(found) == found.value
    ensures found.Some? && '/' in found.value ==>
      Count(Resolve(found), '/') == Count(found.value, '/') - 1
  {
    if found.Some? {
      if '/' in found.value {
        ReplaceFirstCount(found.value, '/', '-');
      } else {
        ReplaceFirstAbsent(found.value, '/', '-');
      }
    }
  }

  // ---------------------------------------------------------------------------------------
  // Per-record index construction (getXenHosts)
  // ---------------------------------------------------------------------------------------

  /** The fields of a `VM.get_all_records` record that the index uses. */
  datatype VmRecord = VmRecord(uuid: string, nameLabel: string, residentOn: string,
                               isATemplate: bool, isControlDomain: bool)

  /** The entry a VM record gets in `xenData['vm']` (newrelic_xenserver.js:186-192): none
      for templates and control domains; otherwise its label and its host reference
      translated through `host_OpaqueRef` to a host UUID. */
  function VmEntry(hostRef: map<string, string>, rec: VmRecord): (r: Option<VmInfo>)
    ensures r.Some? <==> !rec.isATemplate && !rec.isControlDomain
    ensures r.Some? ==> r.value.nameLabel == rec.nameLabel
    ensures r.Some? ==> (r.value.residentOn.Some? <==> rec.residentOn in hostRef)
    ensures r.Some? && rec.residentOn in hostRef ==> r.value.residentOn == Some(hostRef[rec.residentOn])
    ensures r.Some? && r.value.residentOn.Some? ==> r.value.residentOn.value in hostRef.Values
  {
    if !rec.isATemplate && !rec.isControlDomain then
      Some(VmInfo(rec.nameLabel, Get(hostRef, rec.residentOn)))
    else None
  }

  /** `VmEntry` stored under the VM's UUID, the table otherwise unchanged. */
  function AddVm(vms: map<string, VmInfo>, hostRef: map<string, string>, rec: VmRecord): (r: map<string, VmInfo>)
    ensures VmEntry(hostRef, rec).Some? ==> rec.uuid in r && r[rec.uuid] == VmEntry(hostRef, rec).value
    ensures VmEntry(hostRef, rec).None? ==> r == vms
    ensures forall u :: u in vms && u != rec.uuid ==> u in r && r[u] == vms[u]
    ensures forall u :: u in r ==> u in vms || u == rec.uuid
  {
    match VmEntry(hostRef, rec)
    case Some(info) => vms[rec.uuid := info]
    case None => vms
  }

  /** The label of the network an interface references (newrelic_xenserver.js:226-230,
      258-262): the reference translated through `network_OpaqueRef`, an unknown reference
      looked up as the key "undefined", and "Unnamed" when no network is found. */
  function NetworkLabel(networkRef: map<string, string>, networks: map<string, string>, ref: string): (r: string)
    ensures Str(Get(networkRef, ref)) in networks ==> r == networks[Str(Get(networkRef, ref))]
    ensures Str(Get(networkRef, ref)) !in networks ==> r == Unnamed
  {
    var uuid := Str(Get(networkRef, ref));
    if uuid in networks then networks[uuid] else Unnamed
  }

  /** `table[owner][device] = label`, creating `table[owner]` only when it is new
      (newrelic_xenserver.js:237-238, 269-270). */
  function AddDevice(table: map<string, map<string, string>>, owner: string, device: string, nameLabel: string)
    : (r: map<string, map<string, string>>)
    ensures owner in r && device in r[owner] && r[owner][device] == nameLabel
    ensures forall d :: owner in table && d in table[owner] && d != device ==>
      d in r[owner] && r[owner][d] == table[owner][d]
    ensures forall d :: d in r[owner] ==> d == device || (owner in table && d in table[owner])
    ensures forall o :: o in table && o != owner ==> o in r && r[o] == table[o]
    ensures forall o :: o in r ==> o in table || o == owner
  {
    var devices := if owner in table then table[owner] else map[];
    table[owner := devices[device := nameLabel]]
  }

  /** The fields of a `VIF.get_all_records` record that the index uses. */
  datatype VifRecord = VifRecord(vm: string, network: string, device: string)

  /** A VIF record filed under its VM's UUID (the key "undefined" when the VM reference is
      unknown) and its device number (newrelic_xenserver.js:221-238): the label of its
      network is stored there, the VM's other devices keep their labels, and every other VM
      keeps its devices. */
  function AddVif(vifByVM: map<string, map<string, string>>, vmRef: map<string, string>,
                  networkRef: map<string, string>, networks: map<string, string>, rec: VifRecord)
    : (r: map<string, map<string, string>>)
    ensures var owner := Str(Get(vmRef, rec.vm));
      && owner in r && rec.device in r[owner]
      && r[owner][rec.device] == NetworkLabel(networkRef, networks, rec.network)
      && (forall d :: owner in vifByVM && d in vifByVM[owner] && d != rec.device ==>
            d in r[owner] && r[owner][d] == vifByVM[owner][d])
      && (forall o :: o in vifByVM && o != owner ==> o in r && r[o] == vifByVM[o])
  {
    AddDevice(vifByVM, Str(Get(vmRef, rec.vm)), rec.device, NetworkLabel(networkRef, networks, rec.network))
  }

  /** The fields of a `PIF.get_all_records` record that the index uses. */
  datatype PifRecord = PifRecord(host: string, network: string, device: string)

  /** A PIF record filed under its host's UUID and its device name
      (newrelic_xenserver.js:253-270): the label of its network is stored there, the host's
      other devices keep their labels, and every other host keeps its devices. */
  function AddPif(pifByHost: map<string, map<string, string>>, hostRef: map<string, string>,
                  networkRef: map<string, string>, networks: map<string, string>, rec: PifRecord)
    : (r: map<string, map<string, string>>)
    ensures var owner := Str(Get(hostRef, rec.host));
      && owner in r && rec.device in r[owner]
      && r[owner][rec.device] == NetworkLabel(networkRef, networks, rec.network)
      && (forall d :: owner in pifByHost && d in pifByHost[owner] && d != rec.device ==>
            d in r[owner] && r[owner][d] == pifByHost[owner][d])
      && (forall o :: o in pifByHost && o != owner ==> o in r && r[o] == pifByHost[o])
  {
    AddDevice(pifByHost, Str(Get(hostRef, rec.host)), rec.device, NetworkLabel(networkRef, networks, rec.network))
  }

  /** The key an SR is filed under in `srShort` (newrelic_xenserver.js:293-294): `uuid.split("-")[0]`. */
  function SrShortKey(uuid: string): (r: string)
  {
    Split(uuid, '-')[0]
  }

  /** The short key is the longest dash-free prefix of the UUID: the whole UUID, or the
      part before its first '-'. */
  lemma SrShortKeyIsPrefix(uuid: string)
    ensures '-' !in SrShortKey(uuid)
    ensures var k := SrShortKey(uuid); k == uuid[..|k|] && (k == uuid || uuid[|k|] == '-')
  {
    FirstPartIsPrefix(uuid, '-');
  }

  /** A device label stored while building the index is what parsing later resolves for that
      owner and device: the network label with its first '/' replaced. */
  lemma DeviceLabelRoundTrip(idx: Index, owner: string, device: string, nameLabel: string)
    ensures VifLabel(idx.(vifByVM := AddDevice(idx.vifByVM, owner, device, nameLabel)), owner, device)
      == ReplaceFirst(nameLabel, '/', '-')
    ensures PifLabel(idx.(pifByHost := AddDevice(idx.pifByHost, owner, device, nameLabel)), owner, device)
      == ReplaceFirst(nameLabel, '/', '-')
  {
  }

  /** A VIF or PIF record of a known VM or host, filed while the index is built, is what
      parsing resolves for that VM or host and device: the label of the record's network,
      or "Unnamed" when the network is unknown, with its first '/' replaced. */
  lemma InterfaceLabelRoundTrip(idx: Index, vmRef: map<string, string>, hostRef: map<string, string>,
                                networkRef: map<string, string>, networks: map<string, string>,
                                vif: VifRecord, pif: PifRecord)
    ensures vif.vm in vmRef ==>
      VifLabel(idx.(vifByVM := AddVif(idx.vifByVM, vmRef, networkRef, networks, vif)), vmRef[vif.vm], vif.device)
        == ReplaceFirst(NetworkLabel(networkRef, networks, vif.network), '/', '-')
    ensures pif.host in hostRef ==>
      PifLabel(idx.(pifByHost := AddPif(idx.pifByHost, hostRef, networkRef, networks, pif)), hostRef[pif.host], pif.device)
        == ReplaceFirst(NetworkLabel(networkRef, networks, pif.network), '/', '-')
  {
  }

  /** An SR filed by `getXenHosts` is found by parsing under the first group of its UUID. */
  lemma SrLabelRoundTrip(idx: Index, uuid: string, nameLabel: string)
    ensures SrLabel(idx.(srShort := idx.srShort[SrShortKey(uuid) := nameLabel]), SrShortKey(uuid))
      == ReplaceFirst(nameLabel, '/', '-')
  {
  }

  // ---------------------------------------------------------------------------------------
  // Component naming (newrelicPost)
  // ---------------------------------------------------------------------------------------

  /** The label `xenData[type][uuid].label`, for the index tables that carry one. */
  function EntityLabel(idx: Index, kind: string, id: string): (r: Option<string>)
  {
    if kind == "host" then Get(idx.host, id)
    else if kind == "vm" then (if id in idx.vm then Some(idx.vm[id].nameLabel) else None)
    else if kind == "network" then Get(idx.network, id)
    else if kind == "sr" then Get(idx.sr, id)
    else None
  }

  /** The component name of an entity: its label with the first '/' replaced, prefixed
      "Host: " for hosts and "VM: " for VMs; the UUID itself when there is no label. */
  function ComponentName(idx: Index, kind: string, id: string): (r: string)
  {
    match EntityLabel(idx, kind, id)
    case None => id
    case Some(nameLabel) =>
      var l := ReplaceFirst(nameLabel, '/', '-');
      if kind == "host" then "Host: " + l else if kind == "vm" then "VM: " + l else l
  }

  /** A known host is named "Host: " and its label, a known VM "VM: " and its label, and
      anything without a label in the index keeps its UUID. */
  lemma ComponentNameCases(idx: Index, kind: string, id: string)
    ensures kind == "host" && id in idx.host ==>
      ComponentName(idx, kind, id) == "Host: " + ReplaceFirst(idx.host[id], '/', '-')
    ensures kind == "vm" && id in idx.vm ==>
      ComponentName(idx, kind, id) == "VM: " + ReplaceFirst(idx.vm[id].nameLabel, '/', '-')
    ensures kind !in {"host", "vm", "network", "sr"} ==> ComponentName(idx, kind, id) == id
    ensures kind == "host" && id !in idx.host ==> ComponentName(idx, kind, id) == id
    ensures kind == "vm" && id !in idx.vm ==> ComponentName(idx, kind, id) == id
  {
  }
}
