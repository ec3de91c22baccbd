/** The Linux backend's event loop over an input trace of udev events. */
module LinuxMonitor {

  import opened Wrappers
  import opened Devices
  import opened Udev

  datatype UdevEvent = Add(device: Device) | Remove(device: Device) | Other(device: Device)

  /** What the loop sends for one udev event. */
  function Sent(event: UdevEvent): seq<UsbEvent> {
    match event
    case Add(d) => (match DeviceFromUdev(d) case Some(info) => [Inserted(info)] case None => [])
    case Remove(d) => (match RemoveId(d) case Some(id) => [Removed(id)] case None => [])
    case Other(_) => []
  }

  function Stream(events: seq<UdevEvent>): seq<UsbEvent> {
    if events == [] then [] else Sent(events[0]) + Stream(events[1..])
  }

  lemma {:induction false} StreamSnoc(events: seq<UdevEvent>, e: UdevEvent)
    ensures Stream(events + [e]) == Stream(events) + Sent(e)
  {
    hide Sent;
    if events == [] {
      assert events + [e] == [e];
      assert Stream([e]) == Sent(e) + Stream([e][1..]);
    } else {
      assert (events + [e])[1..] == events[1..] + [e];
      StreamSnoc(events[1..], e);
    }
  }

  /** What the loop does with one event. */
  method Handle(event: UdevEvent, sent: seq<UsbEvent>) returns (events: seq<UsbEvent>)
    ensures events == sent + Sent(event)
  {
    hide DeviceFromUdev;
    events := sent;
    match event {
      case Add(d) =>
        var found := DeviceFromUdev(d);
        if found.Some? { events := events + [Inserted(found.value)]; }
      case Remove(d) =>
        if d.devnode.Some? {
          var name := UnwrapOr(d.devnode.value.Name(), "");
          var id := UnwrapOr(d.Property("ID_SERIAL_SHORT"), name);
          events := events + [Removed(id)];
        }
      case Other(_) =>
    }
  }

  /** The monitor loop. */
  method Monitor(trace: seq<UdevEvent>) returns (events: seq<UsbEvent>)
    ensures events == Stream(trace)
  {
    hide Sent;
    events := [];
    for i := 0 to |trace|
      invariant events == Stream(trace[..i])
    {
      assert trace[..i + 1] == trace[..i] + [trace[i]];
      StreamSnoc(trace[..i], trace[i]);
      events := Handle(trace[i], events);
    }
    assert trace[..|trace|] == trace;
  }

  // ---------------------------------------------------------------- what is plugged in

  /** A step of the machine: a device appears or is announced again, or one that was present goes. */
  predicate Possible(present: set<Device>, event: UdevEvent) {
    match event
    case Add(_) => true
    case Remove(d) => d in present
    case Other(_) => true
  }

  function After(present: set<Device>, event: UdevEvent): set<Device> {
    match event
    case Add(d) => present + {d}
    case Remove(d) => present - {d}
    case Other(_) => present
  }

  predicate PossibleRun(present: set<Device>, events: seq<UdevEvent>)
    decreases events
  {
    events == [] || (Possible(present, events[0]) && PossibleRun(After(present, events[0]), events[1..]))
  }

  function PresentAfter(present: set<Device>, events: seq<UdevEvent>): set<Device>
    decreases events
  {
    if events == [] then present else PresentAfter(After(present, events[0]), events[1..])
  }

  /** The announced ids of the present devices the filter lets through. */
  function EligibleIds(present: set<Device>): set<string> {
    set d | d in present && Eligible(d) :: AddId(d)
  }

  /** The records of the listed devices the filter lets through. */
  function Records(devices: seq<Device>): seq<DeviceInfo> {
    if devices == [] then []
    else (match DeviceFromUdev(devices[0]) case Some(info) => [info] case None => []) + Records(devices[1..])
  }

  lemma {:induction false} RecordsFrom(devices: seq<Device>, k: nat, found: seq<DeviceInfo>)
    requires k < |devices|
    ensures found + Records(devices[k..]) ==
      (match DeviceFromUdev(devices[k]) case Some(info) => found + [info] case None => found)
          + Records(devices[k + 1..])
  {
    hide DeviceFromUdev;
    assert devices[k..][0] == devices[k] && devices[k..][1..] == devices[k + 1..];
  }

  /** A one-off scan over an enumeration. */
  method ScanDevices(devices: seq<Device>) returns (infos: seq<DeviceInfo>)
    ensures infos == Records(devices)
  {
    hide DeviceFromUdev;
    infos := [];
    assert devices[0..] == devices;
    for k := 0 to |devices|
      invariant infos + Records(devices[k..]) == Records(devices)
    {
      RecordsFrom(devices, k, infos);
      var found := DeviceFromUdev(devices[k]);
      if found.Some? { infos := infos + [found.value]; }
    }
  }

  /** A scan lists exactly the ids that an insertion would announce for the enumerated devices. */
  lemma {:induction false} ScanListsEligible(devices: seq<Device>)
    ensures (set info | info in Records(devices) :: info.stableId) == EligibleIds(set d | d in devices)
  {
    hide DeviceFromUdev, Eligible, AddId;
    if devices != [] {
      var first, rest := devices[0], devices[1..];
      ScanListsEligible(rest);
      var head := match DeviceFromUdev(first) case Some(info) => [info] case None => [];
      assert (set info | info in Records(devices) :: info.stableId)
          == (set info | info in head :: info.stableId) + (set info | info in Records(rest) :: info.stableId);
      assert (set d | d in devices) == {first} + (set d | d in rest);
    }
  }

  function Adds(devices: seq<Device>): seq<UdevEvent> {
    if devices == [] then [] else [Add(devices[0])] + Adds(devices[1..])
  }

  function Insertions(infos: seq<DeviceInfo>): seq<UsbEvent> {
    if infos == [] then [] else [Inserted(infos[0])] + Insertions(infos[1..])
  }

  /** Devices that are added are announced with exactly the records that a scan makes of them. */
  lemma {:induction false} AddsAreScanned(devices: seq<Device>)
    ensures Stream(Adds(devices)) == Insertions(Records(devices))
  {
    hide DeviceFromUdev;
    if devices != [] {
      AddsAreScanned(devices[1..]);
      var rest := Records(devices[1..]);
      assert Adds(devices)[1..] == Adds(devices[1..]);
      match DeviceFromUdev(devices[0]) {
        case Some(info) => assert ([info] + rest)[1..] == rest;
        case None => assert [] + rest == rest;
      }
    }
  }

  // ---------------------------------------------------------------- agreement

  /** A consumer's ids agree with what is plugged in, now and after each further event. */
  predicate InSync(held: set<string>, present: set<Device>, events: seq<UdevEvent>)
    decreases events
  {
    held == EligibleIds(present) &&
    (events == [] || InSync(Replay(held, Sent(events[0])), After(present, events[0]), events[1..]))
  }

  /**
   Unplugging `d` is safe when no other eligible device goes by the id its removal announces,
   and the id its insertion announced, if it was, is that id or still belongs to another one.
   */
  predicate SafeUnplug(present: set<Device>, d: Device) {
    var others := EligibleIds(present - {d});
    (RemoveId(d).Some? ==> RemoveId(d).value !in others) &&
    (d in present && Eligible(d) ==> RemoveId(d) == Some(AddId(d)) || AddId(d) in others)
  }

  predicate SafeUnplugs(present: set<Device>, events: seq<UdevEvent>)
    decreases events
  {
    events == [] ||
    ((events[0].Remove? ==> SafeUnplug(present, events[0].device)) &&
        SafeUnplugs(After(present, events[0]), events[1..]))
  }

  lemma {:induction false} PlugAgrees(present: set<Device>, d: Device)
    ensures Replay(EligibleIds(present), Sent(Add(d))) == EligibleIds(present + {d})
  {
    if Eligible(d) {
      assert EligibleIds(present + {d}) == EligibleIds(present) + {AddId(d)};
    } else {
      assert EligibleIds(present + {d}) == EligibleIds(present);
    }
  }

  function Mine(present: set<Device>, d: Device): set<string> {
    if d in present && Eligible(d) then {AddId(d)} else {}
  }

  lemma {:induction false} EligibleIdsSplit(present: set<Device>, d: Device)
    ensures EligibleIds(present) == EligibleIds(present - {d}) + Mine(present, d)
  {
    assert forall e :: e in present <==> e in present - {d} || (e == d && d in present);
  }

  lemma {:induction false} UnplugAgreesIff(present: set<Device>, d: Device)
    ensures Replay(EligibleIds(present), Sent(Remove(d))) == EligibleIds(present - {d}) <==> SafeUnplug(present, d)
  {
    EligibleIdsSplit(present, d);
  }

  /**
   Over any run a consumer stays in agreement with a set of devices, which unplugging one that is
   not in it leaves as it is, exactly when every unplug is safe.
   */
  lemma {:induction false} InSyncIff(present: set<Device>, events: seq<UdevEvent>)
    ensures InSync(EligibleIds(present), present, events) <==> SafeUnplugs(present, events)
    decreases events
  {
    if events != [] {
      var e := events[0];
      match e {
        case Add(d) => PlugAgrees(present, d);
        case Remove(d) => UnplugAgreesIff(present, d);
        case Other(_) =>
      }
      InSyncIff(After(present, e), events[1..]);
      if Replay(EligibleIds(present), Sent(e)) != EligibleIds(After(present, e)) {
        assert !InSync(Replay(EligibleIds(present), Sent(e)), After(present, e), events[1..]);
      }
    }
  }

  /** Agreement throughout includes the end of the run. */
  lemma {:induction false} InSyncAtEnd(held: set<string>, present: set<Device>, events: seq<UdevEvent>)
    requires InSync(held, present, events)
    ensures Replay(held, Stream(events)) == EligibleIds(PresentAfter(present, events))
    decreases events
  {
    if events != [] {
      InSyncAtEnd(Replay(held, Sent(events[0])), After(present, events[0]), events[1..]);
      ReplayConcat(held, Sent(events[0]), Stream(events[1..]));
    }
  }

  /** A serial, or no WWN to stand in for one. */
  predicate PlainlyIdentified(d: Device) {
    d.Property("ID_SERIAL_SHORT").Some? || d.Property("ID_WWN").None?
  }

  /** Every present device is plainly identified and no two, filtered ones included, share an id. */
  predicate Orderly(present: set<Device>) {
    (forall d :: d in present ==> PlainlyIdentified(d)) &&
    (forall d, e :: d in present && e in present && d != e && RemoveId(d).Some? ==> RemoveId(d) != RemoveId(e))
  }

  predicate OrderlyRun(present: set<Device>, events: seq<UdevEvent>)
    decreases events
  {
    Orderly(present) && (events == [] || OrderlyRun(After(present, events[0]), events[1..]))
  }

  lemma {:induction false} OrderlyRunSafe(present: set<Device>, events: seq<UdevEvent>)
    requires PossibleRun(present, events) && OrderlyRun(present, events)
    ensures SafeUnplugs(present, events)
    decreases events
  {
    if events != [] {
      OrderlyRunSafe(After(present, events[0]), events[1..]);
    }
  }

  /** Over any orderly run, replaying the stream yields the ids of the present eligible devices. */
  lemma {:induction false} OrderlyRunAgrees(events: seq<UdevEvent>)
    requires PossibleRun({}, events) && OrderlyRun({}, events)
    ensures InSync({}, {}, events)
    ensures Replay({}, Stream(events)) == EligibleIds(PresentAfter({}, events))
  {
    OrderlyRunSafe({}, events);
    InSyncIff({}, events);
    assert EligibleIds({}) == {};
    InSyncAtEnd({}, {}, events);
  }

  // ---------------------------------------------------------------- disks that were there before

  /** The devices a run says anything about. */
  function Touched(events: seq<UdevEvent>): set<Device> {
    if events == [] then {} else (if events[0].Other? then {} else {events[0].device}) + Touched(events[1..])
  }

  lemma {:induction false} UntouchedStay(seen: set<Device>, present: set<Device>, events: seq<UdevEvent>)
    requires seen <= present
    ensures PresentAfter(present, events) == PresentAfter(seen, events) + (present - seen - Touched(events))
    ensures PresentAfter(seen, events) !! present - seen - Touched(events)
    decreases events
  {
    if events != [] {
      var e := events[0];
      UntouchedStay(After(seen, e), After(present, e), events[1..]);
      assert After(present, e) - After(seen, e) - Touched(events[1..]) == present - seen - Touched(events);
    }
  }

  /**
   A consumer that starts empty beside devices plugged in before: it holds the ids of the eligible
   ones announced since then, at every step, exactly when every unplug is safe among those. It then
   agrees with what is plugged in exactly when every eligible device that was there before, and of
   which nothing was heard since, shares its id with one of them.
   */
  lemma {:induction false} LateStart(before: set<Device>, events: seq<UdevEvent>)
    ensures InSync({}, {}, events) <==> SafeUnplugs({}, events)
    ensures SafeUnplugs({}, events) ==>
      var held, seen := Replay({}, Stream(events)), PresentAfter({}, events);
      && held == EligibleIds(seen)
      && (held == EligibleIds(PresentAfter(before, events)) <==>
          EligibleIds(before - Touched(events)) <= EligibleIds(seen))
  {
    InSyncIff({}, events);
    assert EligibleIds({}) == {};
    if SafeUnplugs({}, events) {
      InSyncAtEnd({}, {}, events);
      UntouchedStay({}, before, events);
      assert before - {} - Touched(events) == before - Touched(events);
    }
  }

  lemma {:induction false} OrderlySeenSafe(seen: set<Device>, present: set<Device>, events: seq<UdevEvent>)
    requires seen <= present && PossibleRun(present, events) && OrderlyRun(present, events)
    ensures SafeUnplugs(seen, events)
    decreases events
  {
    hide RemoveId, AddId, Eligible;
    if events != [] {
      var e := events[0];
      if e.Remove? { OrderlySeenUnplugSafe(seen, present, e.device); }
      OrderlySeenSafe(After(seen, e), After(present, e), events[1..]);
    }
  }

  lemma {:induction false} OrderlyUnplugSafe(present: set<Device>, d: Device)
    requires Orderly(present) && d in present
    ensures SafeUnplug(present, d)
  {
    forall e | e in present - {d} && Eligible(e) ensures RemoveId(d) != Some(AddId(e)) {
      SameIdIff(e);
    }
    if Eligible(d) { SameIdIff(d); }
  }

  lemma {:induction false} OrderlySeenUnplugSafe(seen: set<Device>, present: set<Device>, d: Device)
    requires seen <= present && Orderly(present) && d in present
    ensures SafeUnplug(seen, d)
  {
    OrderlyUnplugSafe(present, d);
    assert EligibleIds(seen - {d}) <= EligibleIds(present - {d});
    if d in seen && Eligible(d) { SameIdIff(d); }
  }

  lemma {:induction false} OrderlyAtEnd(present: set<Device>, events: seq<UdevEvent>)
    requires OrderlyRun(present, events)
    ensures Orderly(PresentAfter(present, events))
    decreases events
  {
    if events != [] { OrderlyAtEnd(After(present, events[0]), events[1..]); }
  }

  /** Over an orderly run such a consumer misses exactly the eligible devices nothing was heard of. */
  lemma {:induction false} OrderlyLateStart(before: set<Device>, events: seq<UdevEvent>)
    requires PossibleRun(before, events) && OrderlyRun(before, events)
    ensures var present, missed := PresentAfter(before, events), before - Touched(events);
      && missed <= present
      && Replay({}, Stream(events)) == EligibleIds(present) - EligibleIds(missed)
  {
    var seen, missed := PresentAfter({}, events), before - Touched(events);
    OrderlySeenSafe({}, before, events);
    LateStart(before, events);
    OrderlyAtEnd(before, events);
    UntouchedStay({}, before, events);
    assert before - {} - Touched(events) == missed;
    OrderlyApart(seen + missed, seen, missed);
  }

  lemma {:induction false} OrderlyApart(present: set<Device>, a: set<Device>, b: set<Device>)
    requires Orderly(present) && a <= present && b <= present && a !! b
    ensures EligibleIds(a) !! EligibleIds(b)
  {
    forall d, e | d in a && Eligible(d) && e in b && Eligible(e) ensures AddId(d) != AddId(e) {
      SameIdIff(d);
      SameIdIff(e);
    }
  }

  /** Plugging and unplugging a device known only by a WWN leaves that WWN behind. */
  lemma {:induction false} WwnLeftBehind(d: Device)
    requires Eligible(d) && d.Property("ID_SERIAL_SHORT").None?
    requires d.Property("ID_WWN").Some? && d.Property("ID_WWN") != EligibleName(d)
    ensures PossibleRun({}, [Add(d), Remove(d)]) && PresentAfter({}, [Add(d), Remove(d)]) == {}
    ensures Replay({}, Stream([Add(d), Remove(d)])) == {d.Property("ID_WWN").value}
  {
    var a, r := Add(d), Remove(d);
    assert [a, r][1..] == [r] && [r][1..] == [];
    assert After({}, a) == {d} && After({d}, r) == {};
    assert PresentAfter({}, [a, r]) == PresentAfter({d}, [r]) == PresentAfter({}, []);
    var wwn, name := d.Property("ID_WWN").value, EligibleName(d).value;
    assert Stream([r]) == Sent(r) + Stream([]);
    assert Stream([a, r]) == Sent(a) + Sent(r);
    ReplayConcat({}, Sent(a), Sent(r));
    assert {} + {wwn} == {wwn} && {wwn} - {name} == {wwn};
  }

  lemma {:induction false} SdaAccepted()
    ensures NameAccepted("sda")
  {
    assert "sd" <= "sda";
  }

  lemma {:induction false} UsbEligible(d: Device, name: string)
    requires d.devnode.Some? && d.devnode.value.Name() == Some(name) && NameAccepted(name) && IsUsb(d)
    ensures EligibleName(d) == Some(name)
  {
  }

  /** Such a device exists: a USB disk `sda` without a serial. */
  lemma {:induction false} WwnOnlyDisk() returns (d: Device)
    ensures Eligible(d) && d.Property("ID_SERIAL_SHORT").None?
    ensures d.Property("ID_WWN").Some? && d.Property("ID_WWN") != EligibleName(d)
  {
    hide FileName, EligibleName, NameAccepted;
    var node := Devnode("/dev/sda", true);
    FileNameIn("/dev", "sda");
    assert "/dev" + "/" + "sda" == "/dev/sda";
    SdaAccepted();
    d := Device(Some(node), map["ID_BUS" := "usb", "ID_WWN" := "0x5000c500a1b2c3d4"], map[], None);
    UsbEligible(d, "sda");
    assert |d.properties["ID_WWN"]| != |"sda"|;
  }
}
