/** Re-identifying audio devices across scans: a device keeps its guid while its hardware id changes. */
module AudioDevices {

  datatype AudioDevice = AudioDevice(guid: int, name: string, inputs: int, outputs: int)

  /** One entry of the device list that a scan returns. */
  datatype Entry = Entry(name: string, inputs: int, outputs: int, id: int)

  /** A stored device as a value. */
  datatype Stored = Stored(device: AudioDevice, id: int, isAlive: bool)

  datatype Devices = Devices(stored: seq<Stored>, curGuid: int)

  const FIRST_GUID := 1000

  const NO_DEVICES := Devices([], FIRST_GUID)

  // ---------------------------------------------------------------------------------------------
  // A scan as a function
  // ---------------------------------------------------------------------------------------------

  function AllDead(stored: seq<Stored>): (dead: seq<Stored>)
    ensures |dead| == |stored|
    ensures forall i :: 0 <= i < |dead| ==> dead[i] == stored[i].(isAlive := false)
  {
    seq(|stored|, i requires 0 <= i < |stored| => stored[i].(isAlive := false))
  }

  /** The first stored device, from `i` on, that has the name and was not found yet in this scan. */
  function FirstDead(stored: seq<Stored>, name: string, i: nat := 0): (k: nat)
    requires i <= |stored|
    ensures i <= k <= |stored|
    ensures k < |stored| ==> stored[k].device.name == name && !stored[k].isAlive
    ensures forall j :: i <= j < k ==> stored[j].device.name == name ==> stored[j].isAlive
    decreases |stored| - i
  {
    if i == |stored| || (stored[i].device.name == name && !stored[i].isAlive) then i
    else FirstDead(stored, name, i + 1)
  }

  function Identify(d: Devices, e: Entry): Devices {
    var k := FirstDead(d.stored, e.name);
    if k < |d.stored| then
      d.(stored := d.stored[k := d.stored[k].(isAlive := true, id := e.id)])
    else
      var device := AudioDevice(d.curGuid, e.name, e.inputs, e.outputs);
      Devices(d.stored + [Stored(device, e.id, true)], d.curGuid + 1)
  }

  function IdentifyAll(d: Devices, es: seq<Entry>): Devices {
    if es == [] then d else Identify(IdentifyAll(d, es[..|es| - 1]), es[|es| - 1])
  }

  function Scan(d: Devices, es: seq<Entry>): Devices {
    IdentifyAll(d.(stored := AllDead(d.stored)), es)
  }

  function ScanHistory(scans: seq<seq<Entry>>): Devices {
    if scans == [] then NO_DEVICES else Scan(ScanHistory(scans[..|scans| - 1]), scans[|scans| - 1])
  }

  function Published(stored: seq<Stored>): seq<AudioDevice> {
    if stored == [] then []
    else
      var last := stored[|stored| - 1];
      Published(stored[..|stored| - 1]) + if last.isAlive then [last.device] else []
  }

  /** The id of the first device with the guid, or 0. */
  function GuidToId(stored: seq<Stored>, guid: int): int {
    if stored == [] then 0
    else if stored[0].device.guid == guid then stored[0].id
    else GuidToId(stored[1..], guid)
  }

  // ---------------------------------------------------------------------------------------------
  // The device list, changed in place
  // ---------------------------------------------------------------------------------------------

  class InternalAudioDevice {
    const device: AudioDevice
    var id: int
    var isAlive: bool

    constructor (device: AudioDevice, id: int)
      ensures this.device == device && this.id == id && isAlive
    {
      this.device := device;
      this.id := id;
      this.isAlive := true;
    }
  }

  class PortAudio {
    var devices: seq<InternalAudioDevice>
    var curGuid: int
    var pubDevices: seq<AudioDevice>

    ghost predicate Valid()
      reads this
    {
      && (forall i, j :: 0 <= i < j < |devices| ==> devices[i] != devices[j])
    }

    ghost function State(): Devices
      reads this, devices
    {
      Devices(seq(|devices|, i requires 0 <= i < |devices| reads this, devices =>
                    Stored(devices[i].device, devices[i].id, devices[i].isAlive)), curGuid)
    }

    constructor ()
      ensures Valid() && State() == NO_DEVICES && devices == []
    {
      devices := [];
      curGuid := FIRST_GUID;
      pubDevices := [];
    }

    /** refresh_devices, given the list that a rescan returns. */
    method Refresh(force: bool, fullyLoaded: bool, es: seq<Entry>)
      requires Valid()
      modifies this, devices
      ensures Valid() && fresh(set d | d in devices && d !in old(devices))
      ensures State() == if force || fullyLoaded then Scan(old(State()), es) else old(State())
      ensures pubDevices == if force || fullyLoaded then Published(State().stored) else old(pubDevices)
    {
      if !force && !fullyLoaded {
        return;
      }
      Rescan(es);
      Publish();
    }

    /** Every device is dead until the list of the rescan names it. */
    method Rescan(es: seq<Entry>)
      requires Valid()
      modifies this`devices, this`curGuid, devices
      ensures Valid() && fresh(set d | d in devices && d !in old(devices))
      ensures State() == Scan(old(State()), es)
    {
      MarkDead();
      ghost var start := State();
      for n := 0 to |es|
        invariant Valid() && fresh(set d | d in devices && d !in old(devices))
        invariant State() == IdentifyAll(start, es[..n])
      {
        assert es[..n + 1][..n] == es[..n];
        IdentifyEntry(es[n]);
      }
      assert es[..|es|] == es;
    }

    /** The live devices, in order. */
    method Publish()
      requires Valid()
      modifies this`pubDevices
      ensures Valid() && State() == old(State())
      ensures pubDevices == Published(State().stored)
    {
      pubDevices := [];
      for i := 0 to |devices|
        invariant Valid() && State() == old(State())
        invariant pubDevices == Published(State().stored[..i])
      {
        assert State().stored[..i + 1][..i] == State().stored[..i];
        if devices[i].isAlive {
          pubDevices := pubDevices + [devices[i].device];
        }
      }
      assert State().stored[..|devices|] == State().stored;
    }

    method MarkDead()
      requires Valid()
      modifies devices
      ensures Valid() && State() == old(State()).(stored := AllDead(old(State()).stored))
    {
      for i := 0 to |devices|
        invariant forall j :: 0 <= j < |devices| ==> devices[j].id == old(devices[j].id)
        invariant forall j :: 0 <= j < |devices| ==> devices[j].isAlive == (i <= j && old(devices[j].isAlive))
      {
        devices[i].isAlive := false;
      }
    }

    method IdentifyEntry(e: Entry)
      requires Valid()
      modifies this`devices, this`curGuid, devices
      ensures Valid() && fresh(set d | d in devices && d !in old(devices))
      ensures State() == Identify(old(State()), e)
    {
      ghost var before := State();
      for k := 0 to |devices|
        invariant State() == before && devices == old(devices)
        invariant FirstDead(before.stored, e.name) == FirstDead(before.stored, e.name, k)
      {
        assert before.stored[k] == Stored(devices[k].device, devices[k].id, devices[k].isAlive);
        if devices[k].device.name == e.name && !devices[k].isAlive {
          devices[k].isAlive := true;
          devices[k].id := e.id;
          assert State().stored == before.stored[k := before.stored[k].(isAlive := true, id := e.id)];
          return;
        }
      }
      var dev := new InternalAudioDevice(AudioDevice(curGuid, e.name, e.inputs, e.outputs), e.id);
      curGuid := curGuid + 1;
      devices := devices + [dev];
      assert State().stored == Identify(before, e).stored;
    }

    /** guid_to_id. */
    method IdOf(guid: int) returns (id: int)
      ensures id == GuidToId(State().stored, guid)
    {
      assert State().stored[0..] == State().stored;
      for i := 0 to |devices|
        invariant GuidToId(State().stored, guid) == GuidToId(State().stored[i..], guid)
      {
        assert State().stored[i..][1..] == State().stored[i + 1..];
        if devices[i].device.guid == guid {
          return devices[i].id;
        }
      }
      return 0;
    }
  }

  // ---------------------------------------------------------------------------------------------
  // Guids
  // ---------------------------------------------------------------------------------------------

  /** Guids are handed out in order, so no two are equal. */
  ghost predicate Numbered(d: Devices) {
    && d.curGuid == FIRST_GUID + |d.stored|
    && forall i :: 0 <= i < |d.stored| ==> d.stored[i].device.guid == FIRST_GUID + i
  }

  lemma {:induction false} IdentifyKeepsDevices(d: Devices, es: seq<Entry>)
    requires Numbered(d)
    ensures var d' := IdentifyAll(d, es);
            && Numbered(d') && |d'.stored| >= |d.stored|
            && forall i :: 0 <= i < |d.stored| ==> d'.stored[i].device == d.stored[i].device
    decreases |es|
  {
    if es != [] {
      IdentifyKeepsDevices(d, es[..|es| - 1]);
    }
  }

  /** A scan forgets no device and changes no guid, name or channel count. */
  lemma {:induction false} ScanKeepsDevices(d: Devices, es: seq<Entry>)
    requires Numbered(d)
    ensures var d' := Scan(d, es);
            && Numbered(d') && |d'.stored| >= |d.stored|
            && forall i :: 0 <= i < |d.stored| ==> d'.stored[i].device == d.stored[i].device
  {
    IdentifyKeepsDevices(d.(stored := AllDead(d.stored)), es);
  }

  lemma {:induction false} HistoryIsNumbered(scans: seq<seq<Entry>>)
    ensures Numbered(ScanHistory(scans))
    decreases |scans|
  {
    if scans != [] {
      HistoryIsNumbered(scans[..|scans| - 1]);
      ScanKeepsDevices(ScanHistory(scans[..|scans| - 1]), scans[|scans| - 1]);
    }
  }

  lemma {:induction false} GuidToIdIs(stored: seq<Stored>, i: nat)
    requires i < |stored| && forall j :: 0 <= j < i ==> stored[j].device.guid != stored[i].device.guid
    ensures GuidToId(stored, stored[i].device.guid) == stored[i].id
  {
    if i > 0 {
      assert stored[1..][i - 1] == stored[i];
      assert forall j :: 0 <= j < i - 1 ==> stored[1..][j] == stored[j + 1];
      GuidToIdIs(stored[1..], i - 1);
    }
  }

  /** After any history every device is reached through its own guid. */
  lemma {:induction false} GuidsReachTheirDevice(scans: seq<seq<Entry>>, i: nat)
    requires i < |ScanHistory(scans).stored|
    ensures var stored := ScanHistory(scans).stored; GuidToId(stored, stored[i].device.guid) == stored[i].id
  {
    HistoryIsNumbered(scans);
    GuidToIdIs(ScanHistory(scans).stored, i);
  }

  // ---------------------------------------------------------------------------------------------
  // Live devices and counts
  // ---------------------------------------------------------------------------------------------

  /** Names and ids of the live devices. */
  function LiveKeys(stored: seq<Stored>): multiset<(string, int)> {
    if stored == [] then multiset{}
    else
      var last := stored[|stored| - 1];
      LiveKeys(stored[..|stored| - 1]) + if last.isAlive then multiset{(last.device.name, last.id)} else multiset{}
  }

  function EntryKeys(es: seq<Entry>): multiset<(string, int)> {
    if es == [] then multiset{}
    else
      var last := es[|es| - 1];
      EntryKeys(es[..|es| - 1]) + multiset{(last.name, last.id)}
  }

  function One(b: bool): nat {
    if b then 1 else 0
  }

  function StoredNamed(stored: seq<Stored>, name: string): nat {
    if stored == [] then 0
    else StoredNamed(stored[..|stored| - 1], name) + One(stored[|stored| - 1].device.name == name)
  }

  function LiveNamed(stored: seq<Stored>, name: string): nat {
    if stored == [] then 0
    else
      var last := stored[|stored| - 1];
      LiveNamed(stored[..|stored| - 1], name) + One(last.isAlive && last.device.name == name)
  }

  function EntriesNamed(es: seq<Entry>, name: string): nat {
    if es == [] then 0 else EntriesNamed(es[..|es| - 1], name) + One(es[|es| - 1].name == name)
  }

  function Max(a: nat, b: nat): nat {
    if a < b then b else a
  }

  /** The largest number of entries with the name in any one scan. */
  function MostNamed(scans: seq<seq<Entry>>, name: string): nat {
    if scans == [] then 0
    else Max(MostNamed(scans[..|scans| - 1], name), EntriesNamed(scans[|scans| - 1], name))
  }

  lemma {:induction false} Nothing(stored: seq<Stored>, name: string)
    ensures LiveKeys(AllDead(stored)) == multiset{} && LiveNamed(AllDead(stored), name) == 0
    ensures StoredNamed(AllDead(stored), name) == StoredNamed(stored, name)
    decreases |stored|
  {
    if stored != [] {
      Nothing(stored[..|stored| - 1], name);
      assert AllDead(stored)[..|stored| - 1] == AllDead(stored[..|stored| - 1]);
    }
  }

  /** Bringing a dead device to life adds it to the live ones. */
  lemma {:induction false} Revive(stored: seq<Stored>, k: nat, id: int, name: string)
    requires k < |stored| && !stored[k].isAlive
    ensures var s := stored[k].(isAlive := true, id := id);
            && LiveKeys(stored[k := s]) == LiveKeys(stored) + multiset{(s.device.name, id)}
            && LiveNamed(stored[k := s], name) == LiveNamed(stored, name) + One(s.device.name == name)
            && StoredNamed(stored[k := s], name) == StoredNamed(stored, name)
    decreases |stored|
  {
    var n := |stored| - 1;
    hide LiveKeys, LiveNamed, StoredNamed;
    var s := stored[k].(isAlive := true, id := id);
    var rest, last := stored[..n], stored[n];
    assert stored == rest + [last];
    if k < n {
      Revive(rest, k, id, name);
      assert stored[k := s] == rest[k := s] + [last];
      Last(rest[k := s], last, name);
      Last(rest, last, name);
    } else {
      assert stored[k := s] == rest + [s];
      Last(rest, s, name);
      Last(rest, last, name);
    }
  }

  lemma {:induction false} Last(rest: seq<Stored>, s: Stored, name: string)
    ensures LiveKeys(rest + [s]) == LiveKeys(rest) + if s.isAlive then multiset{(s.device.name, s.id)} else multiset{}
    ensures LiveNamed(rest + [s], name) == LiveNamed(rest, name) + One(s.isAlive && s.device.name == name)
    ensures StoredNamed(rest + [s], name) == StoredNamed(rest, name) + One(s.device.name == name)
  {
    assert (rest + [s])[..|rest|] == rest;
  }

  lemma {:induction false} AllLive(stored: seq<Stored>, name: string)
    requires forall j :: 0 <= j < |stored| ==> stored[j].device.name == name ==> stored[j].isAlive
    ensures LiveNamed(stored, name) == StoredNamed(stored, name)
    decreases |stored|
  {
    if stored != [] {
      AllLive(stored[..|stored| - 1], name);
    }
  }

  lemma {:induction false} LiveAreStored(stored: seq<Stored>, name: string)
    ensures LiveNamed(stored, name) <= StoredNamed(stored, name)
    decreases |stored|
  {
    if stored != [] {
      LiveAreStored(stored[..|stored| - 1], name);
    }
  }

  /** One entry: the live devices gain exactly it, and a device is added only if all of its name are live. */
  lemma {:induction false} IdentifyCounts(d: Devices, e: Entry, name: string)
    ensures var d' := Identify(d, e);
            && LiveKeys(d'.stored) == LiveKeys(d.stored) + multiset{(e.name, e.id)}
            && LiveNamed(d'.stored, name) == LiveNamed(d.stored, name) + One(e.name == name)
            && StoredNamed(d'.stored, name) == Max(StoredNamed(d.stored, name), LiveNamed(d'.stored, name))
  {
    var k := FirstDead(d.stored, e.name);
    if k < |d.stored| {
      Revive(d.stored, k, e.id, name);
      LiveAreStored(Identify(d, e).stored, name);
    } else {
      var s := Stored(AudioDevice(d.curGuid, e.name, e.inputs, e.outputs), e.id, true);
      Last(d.stored, s, name);
      AllLive(d.stored, e.name);
      LiveAreStored(d.stored, name);
    }
  }

  lemma {:induction false} IdentifyAllCounts(d: Devices, es: seq<Entry>, name: string)
    requires LiveKeys(d.stored) == multiset{} && LiveNamed(d.stored, name) == 0
    ensures var d' := IdentifyAll(d, es);
            && LiveKeys(d'.stored) == EntryKeys(es)
            && LiveNamed(d'.stored, name) == EntriesNamed(es, name)
            && StoredNamed(d'.stored, name) == Max(StoredNamed(d.stored, name), EntriesNamed(es, name))
    decreases |es|
  {
    hide Identify;
    if es != [] {
      IdentifyAllCounts(d, es[..|es| - 1], name);
      IdentifyCounts(IdentifyAll(d, es[..|es| - 1]), es[|es| - 1], name);
    }
  }

  /** The main result: after any history, the live devices are those of the latest scan, name by name and id by id,
      and there are as many stored devices of a name as the fullest scan so far had. */
  lemma {:induction false} HistoryMatchesScans(scans: seq<seq<Entry>>, name: string)
    ensures var stored := ScanHistory(scans).stored;
            && (scans != [] ==> LiveKeys(stored) == EntryKeys(scans[|scans| - 1]))
            && StoredNamed(stored, name) == MostNamed(scans, name)
    decreases |scans|
  {
    hide IdentifyAll;
    if scans != [] {
      var before := ScanHistory(scans[..|scans| - 1]);
      HistoryMatchesScans(scans[..|scans| - 1], name);
      Nothing(before.stored, name);
      IdentifyAllCounts(before.(stored := AllDead(before.stored)), scans[|scans| - 1], name);
    }
  }

  // ---------------------------------------------------------------------------------------------
  // The published devices
  // ---------------------------------------------------------------------------------------------

  /** Names of the devices, and the ids that their guids stand for. */
  function NamesAndIds(ds: seq<AudioDevice>, stored: seq<Stored>): multiset<(string, int)> {
    if ds == [] then multiset{}
    else
      var last := ds[|ds| - 1];
      NamesAndIds(ds[..|ds| - 1], stored) + multiset{(last.name, GuidToId(stored, last.guid))}
  }

  lemma {:induction false} PublishedAreLive(stored: seq<Stored>, n: nat)
    requires n <= |stored|
    requires forall i :: 0 <= i < |stored| ==> GuidToId(stored, stored[i].device.guid) == stored[i].id
    ensures NamesAndIds(Published(stored[..n]), stored) == LiveKeys(stored[..n])
    decreases n
  {
    hide GuidToId;
    if n > 0 {
      PublishedAreLive(stored, n - 1);
      assert stored[..n][..n - 1] == stored[..n - 1];
      var less, last := Published(stored[..n - 1]), stored[n - 1];
      assert (less + [last.device])[..|less|] == less;
      assert less + [] == less;
    }
  }

  /** After any history the published devices match the latest scan: by name, and by the id that a command for a device's
      guid is given. */
  lemma {:induction false} PublishedMatchLatestScan(scans: seq<seq<Entry>>)
    requires scans != []
    ensures var stored := ScanHistory(scans).stored;
            NamesAndIds(Published(stored), stored) == EntryKeys(scans[|scans| - 1])
  {
    hide ScanHistory, Published, LiveKeys, EntryKeys;
    var stored := ScanHistory(scans).stored;
    forall i | 0 <= i < |stored| ensures GuidToId(stored, stored[i].device.guid) == stored[i].id {
      GuidsReachTheirDevice(scans, i);
    }
    PublishedAreLive(stored, |stored|);
    assert stored[..|stored|] == stored;
    HistoryMatchesScans(scans, "");
  }

  /** The device was listed with these channels in one of the scans. */
  ghost predicate WasListed(scans: seq<seq<Entry>>, d: AudioDevice) {
    exists k, j :: 0 <= k < |scans| && 0 <= j < |scans[k]| && Describes(scans[k][j], d)
  }

  predicate Describes(e: Entry, d: AudioDevice) {
    d.name == e.name && d.inputs == e.inputs && d.outputs == e.outputs
  }

  lemma {:induction false} NewDevicesAreListed(d: Devices, es: seq<Entry>, i: nat)
    requires Numbered(d) && |d.stored| <= i < |IdentifyAll(d, es).stored|
    ensures exists j :: 0 <= j < |es| && Describes(es[j], IdentifyAll(d, es).stored[i].device)
    decreases |es|
  {
    hide FirstDead;
    var n := |es| - 1;
    var before := IdentifyAll(d, es[..n]);
    if i < |before.stored| {
      NewDevicesAreListed(d, es[..n], i);
      var j :| 0 <= j < n && Describes(es[..n][j], before.stored[i].device);
      assert Describes(es[j], IdentifyAll(d, es).stored[i].device);
    } else {
      assert Describes(es[n], IdentifyAll(d, es).stored[i].device);
    }
  }

  /** Every device is one that some scan listed, and the i-th one has the guid 1000 + i. */
  lemma {:induction false} DevicesComeFromScans(scans: seq<seq<Entry>>, i: nat)
    requires i < |ScanHistory(scans).stored|
    ensures WasListed(scans, ScanHistory(scans).stored[i].device)
    ensures ScanHistory(scans).stored[i].device.guid == 1000 + i
    decreases |scans|
  {
    hide IdentifyAll;
    HistoryIsNumbered(scans);
    var n := |scans| - 1;
    var before, latest := ScanHistory(scans[..n]), scans[n];
    HistoryIsNumbered(scans[..n]);
    ScanKeepsDevices(before, latest);
    if i < |before.stored| {
      DevicesComeFromScans(scans[..n], i);
      var k, j :| 0 <= k < n && 0 <= j < |scans[..n][k]| && Describes(scans[..n][k][j], before.stored[i].device);
      assert Describes(scans[k][j], before.stored[i].device);
    } else {
      NewDevicesAreListed(before.(stored := AllDead(before.stored)), latest, i);
      var j :| 0 <= j < |latest| && Describes(latest[j], ScanHistory(scans).stored[i].device);
      assert Describes(scans[n][j], ScanHistory(scans).stored[i].device);
    }
  }

  /** Among devices of one name, the older ones come to life first. */
  ghost predicate OldestLive(stored: seq<Stored>) {
    forall i, j :: 0 <= i < j < |stored| && stored[i].device.name == stored[j].device.name && stored[j].isAlive ==>
      stored[i].isAlive
  }

  lemma {:induction false} IdentifyKeepsOldest(d: Devices, es: seq<Entry>)
    requires OldestLive(d.stored)
    ensures OldestLive(IdentifyAll(d, es).stored)
    decreases |es|
  {
    if es != [] {
      IdentifyKeepsOldest(d, es[..|es| - 1]);
    }
  }

  lemma {:induction false} OldestComeFirst(scans: seq<seq<Entry>>)
    ensures OldestLive(ScanHistory(scans).stored)
  {
    if scans != [] {
      var before := ScanHistory(scans[..|scans| - 1]);
      IdentifyKeepsOldest(before.(stored := AllDead(before.stored)), scans[|scans| - 1]);
    }
  }

  /** A guid that was never handed out stands for the default device. */
  lemma {:induction false} UnknownGuidIsDefault(stored: seq<Stored>, guid: int)
    requires forall i :: 0 <= i < |stored| ==> stored[i].device.guid != guid
    ensures GuidToId(stored, guid) == 0
    decreases |stored|
  {
    if stored != [] {
      assert forall i :: 0 <= i < |stored| - 1 ==> stored[1..][i] == stored[i + 1];
      UnknownGuidIsDefault(stored[1..], guid);
    }
  }
}
