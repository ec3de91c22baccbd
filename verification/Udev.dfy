/**
 What the Linux backend reads off one udev device: the filter, the stable id it announces on
 insertion, the other one it announces on removal, and the speed of the USB ancestor.
 */
module Udev {

  import opened Wrappers
  import opened Text
  import opened Floats
  import opened Binary64
  import opened Devices

  /** A device node, and whether the last component of its path is valid Unicode. */
  datatype Devnode = Devnode(path: string, unicode: bool)
  {
    function Name(): Option<string> {
      if unicode then FileName(path) else None
    }
  }

  /** The last of some path components; empty ones and `.` do not count, and `..` is no name. */
  function LastName(parts: seq<string>): Option<string> {
    if parts == [] then None else
    var last := parts[|parts| - 1];
    if last in {"", "."} then LastName(parts[..|parts| - 1]) else if last == ".." then None else Some(last)
  }

  /** `Path::file_name`. */
  function FileName(path: string): Option<string> {
    LastName(Split(path, '/'))
  }

  /** The name of a file in any directory. */
  lemma {:induction false} FileNameIn(directory: string, name: string)
    requires Free(name, '/') && name !in {"", ".", ".."}
    ensures FileName(directory + "/" + name) == Some(name)
  {
    hide Split;
    SplitConcat(directory, '/', name);
    SplitFree(name, '/');
    assert (Split(directory, '/') + [name])[|Split(directory, '/')|] == name;
  }

  function Get(m: map<string, string>, key: string): Option<string> {
    if key in m then Some(m[key]) else None
  }

  /** A trailing slash or `.` changes nothing, and a path that ends in `..` has no name. */
  lemma {:induction false} FileNameEnds(path: string)
    ensures FileName(path + "/") == FileName(path + "/" + ".") == FileName(path)
    ensures FileName(path + "/" + "..").None?
  {
    hide Split;
    SplitConcat(path, '/', "");
    SplitConcat(path, '/', ".");
    SplitConcat(path, '/', "..");
    SplitFree("", '/');
    SplitFree(".", '/');
    SplitFree("..", '/');
    var parts := Split(path, '/');
    assert path + "/" + "" == path + "/";
    assert (parts + [""])[..|parts|] == parts && (parts + ["."])[..|parts|] == parts;
  }

  datatype Device = Device(
    devnode: Option<Devnode>,
    properties: map<string, string>,
    attributes: map<string, string>,
    parent: Option<Device>)
  {
    function Property(name: string): Option<string> {
      Get(properties, name)
    }

    function Attribute(name: string): Option<string> {
      Get(attributes, name)
    }
  }

  function OrElse<T>(a: Option<T>, b: Option<T>): Option<T> {
    if a.Some? then a else b
  }

  // ---------------------------------------------------------------- speed

  function ParseUsbSpeed(mbps: nat): UsbSpeed {
    match mbps
    case 0 => Unknown
    case 1 => LowSpeed
    case 12 => FullSpeed
    case 480 => HighSpeed
    case 5000 => SuperSpeed
    case 10000 => SuperSpeed10
    case 20000 => SuperSpeed20
    case 40000 => Usb4Gen40
    case 80000 => Usb4Gen80
    case _ => if mbps > 80000 then Usb4Gen80 else Unknown
  }

  function MaxThroughput(speed: UsbSpeed): nat {
    match speed
    case Unknown => 0
    case LowSpeed => 0
    case FullSpeed => 1
    case HighSpeed => 35
    case SuperSpeed => 450
    case SuperSpeed10 => 900
    case SuperSpeed20 => 1800
    case Usb4Gen40 => 3500
    case Usb4Gen80 => 7000
  }

  predicate Recognised(mbps: nat) {
    mbps in {1, 12, 480, 5000, 10000, 20000, 40000} || mbps >= 80000
  }

  /**
   Planned throughput grows with the reported speed except where a speed with some throughput
   is followed by one that no class names.
   */
  lemma {:induction false} ThroughputMonotone(a: nat, b: nat)
    requires a <= b
    ensures MaxThroughput(ParseUsbSpeed(a)) <= MaxThroughput(ParseUsbSpeed(b))
       <==> Recognised(b) || MaxThroughput(ParseUsbSpeed(a)) == 0
  {
  }

  /**
   Planned throughput, in bytes, stays within the line rate in bits, and from SuperSpeed on it is
   at least seven tenths of it.
   */
  lemma {:induction false} ThroughputWithinRate(mbps: nat)
    ensures 8 * MaxThroughput(ParseUsbSpeed(mbps)) <= mbps
    ensures mbps in {5000, 10000, 20000, 40000, 80000} ==> 80 * MaxThroughput(ParseUsbSpeed(mbps)) >= 7 * mbps
    ensures mbps == 480 ==> 80 * MaxThroughput(ParseUsbSpeed(mbps)) >= 5 * mbps
  {
  }

  /** The class a `speed` attribute denotes, if its text is a number. */
  function SpeedClass(device: Device): Option<UsbSpeed> {
    match device.Attribute("speed")
    case None => None
    case Some(text) =>
      match ParseF64(Trim(text))
      case None => None
      case Some(mbps) => Some(ParseUsbSpeed(ToU64(mbps)))
  }

  /** The strict ancestors, nearest first. */
  function Ancestors(device: Device): seq<Device> {
    match device.parent
    case None => []
    case Some(p) => [p] + Ancestors(p)
  }

  function SpeedClasses(devices: seq<Device>): (classes: seq<Option<UsbSpeed>>)
    ensures |classes| == |devices|
    ensures forall i :: 0 <= i < |devices| ==> classes[i] == SpeedClass(devices[i])
  {
    if devices == [] then [] else [SpeedClass(devices[0])] + SpeedClasses(devices[1..])
  }

  function FirstSome<T>(xs: seq<Option<T>>): Option<T> {
    if xs == [] then None else OrElse(xs[0], FirstSome(xs[1..]))
  }

  lemma {:induction false} FirstSomeIs<T>(xs: seq<Option<T>>) returns (k: nat)
    ensures k <= |xs| && forall i :: 0 <= i < k ==> xs[i].None?
    ensures k < |xs| ==> xs[k].Some?
    ensures FirstSome(xs) == if k == |xs| then None else xs[k]
  {
    if xs == [] || xs[0].Some? {
      k := 0;
    } else {
      var j := FirstSomeIs(xs[1..]);
      k := j + 1;
    }
  }

  /** The class of the nearest listed device whose speed parses. */
  function NearestSpeed(devices: seq<Device>): Option<UsbSpeed> {
    FirstSome(SpeedClasses(devices))
  }

  /** When no listed speed parses the walk finds none; otherwise it finds the nearest that does. */
  lemma {:induction false} NearestSpeedIs(devices: seq<Device>) returns (k: nat)
    ensures k <= |devices| && forall i :: 0 <= i < k ==> SpeedClass(devices[i]).None?
    ensures k < |devices| ==> SpeedClass(devices[k]).Some?
    ensures NearestSpeed(devices) == if k == |devices| then None else SpeedClass(devices[k])
  {
    k := FirstSomeIs(SpeedClasses(devices));
  }

  lemma {:induction false} NearestSpeedCons(d: Device, rest: seq<Device>)
    ensures NearestSpeed([d] + rest) == OrElse(SpeedClass(d), NearestSpeed(rest))
  {
    assert ([d] + rest)[1..] == rest;
    assert SpeedClasses([d] + rest)[1..] == SpeedClasses(rest);
  }

  /** Number of strict ancestors: what the walk uses up. */
  function Depth(device: Device): nat {
    match device.parent case None => 0 case Some(p) => 1 + Depth(p)
  }

  /** The ancestor walk: unparsable and missing speeds are passed over. */
  method UsbSpeedOf(device: Device) returns (speed: Option<UsbSpeed>)
    ensures speed == NearestSpeed(Ancestors(device))
  {
    var current := device.parent;
    while current.Some?
      invariant NearestSpeed(Ancestors(device))
        == match current case None => None case Some(d) => NearestSpeed([d] + Ancestors(d))
      decreases match current case None => 0 case Some(d) => 1 + Depth(d)
    {
      var d := current.value;
      NearestSpeedCons(d, Ancestors(d));
      var text := d.Attribute("speed");
      if text.Some? {
        var mbps := ParseF64(Trim(text.value));
        if mbps.Some? { return Some(ParseUsbSpeed(ToU64(mbps.value))); }
      }
      current := d.parent;
    }
    speed := None;
  }

  // ---------------------------------------------------------------- the device record

  predicate NameAccepted(name: string) {
    (StartsWith(name, "sd") || StartsWith(name, "nvme") || StartsWith(name, "vd")) &&
    !(IsDigit(name[|name| - 1]) && StartsWith(name, "sd"))
  }

  /**
   Accepted are NVMe and virtio disks, partitions included, and of the others whole disks only:
   names that end in a digit are refused after `sd` alone.
   */
  lemma {:induction false} NameAcceptedIff(name: string)
    ensures NameAccepted(name) <==>
      "nvme" <= name || "vd" <= name || ("sd" <= name && !('0' <= name[|name| - 1] <= '9'))
  {
    if "sd" <= name { assert name[..2] == "sd"; }
    if "vd" <= name { assert name[..2] == "vd"; }
    if "nvme" <= name { assert name[..2] == "nv"; }
  }

  predicate IsUsb(device: Device) {
    device.Property("ID_BUS") == Some("usb")
  }

  predicate IsRemovable(device: Device) {
    match device.Attribute("removable") case Some(v) => Trim(v) == "1" case None => IsUsb(device)
  }

  /** The name of a device the filter lets through. */
  function EligibleName(device: Device): Option<string> {
    if device.devnode.None? || device.devnode.value.Name().None? then None else
    var name := device.devnode.value.Name().value;
    if NameAccepted(name) && (IsUsb(device) || IsRemovable(device)) then Some(name) else None
  }

  predicate Eligible(device: Device) {
    EligibleName(device).Some?
  }

  /** The id announced on insertion: serial, else WWN, else name. */
  function AddId(device: Device): string
    requires Eligible(device)
  {
    UnwrapOr(device.Property("ID_SERIAL_SHORT"), UnwrapOr(device.Property("ID_WWN"), EligibleName(device).value))
  }

  /** The id announced on removal: serial, else name; nothing without a device node. */
  function RemoveId(device: Device): Option<string> {
    if device.devnode.None? then None
    else Some(UnwrapOr(device.Property("ID_SERIAL_SHORT"), UnwrapOr(device.devnode.value.Name(), "")))
  }

  /** The filter: a known name it accepts, and a USB bus or a removable attribute of one. */
  lemma {:induction false} EligibleIff(d: Device)
    ensures Eligible(d) <==>
      && d.devnode.Some? && d.devnode.value.unicode && FileName(d.devnode.value.path).Some?
      && NameAccepted(FileName(d.devnode.value.path).value)
      && (("ID_BUS" in d.properties && d.properties["ID_BUS"] == "usb") ||
          ("removable" in d.attributes && Trim(d.attributes["removable"]) == "1"))
    ensures Eligible(d) ==> EligibleName(d) == FileName(d.devnode.value.path)
  {
    hide NameAccepted, FileName, Trim;
  }

  /** A removal announces the serial, otherwise the name, which is empty when it is not known. */
  lemma {:induction false} RemoveIdIs(d: Device)
    ensures RemoveId(d).Some? <==> d.devnode.Some?
    ensures d.devnode.Some? && "ID_SERIAL_SHORT" in d.properties ==>
      RemoveId(d) == Some(d.properties["ID_SERIAL_SHORT"])
    ensures d.devnode.Some? && "ID_SERIAL_SHORT" !in d.properties ==>
      RemoveId(d) == Some(if d.devnode.value.unicode && FileName(d.devnode.value.path).Some?
                          then FileName(d.devnode.value.path).value else "")
  {
    hide FileName;
  }

  /** Sectors to bytes in 64-bit arithmetic that wraps. */
  function SectorBytes(sectors: nat): nat {
    (sectors * 512) % (U64_MAX + 1)
  }

  /** The product is exact below 2^55 sectors and comes round every 2^55. */
  lemma {:induction false} SectorBytesWrap(sectors: nat)
    ensures SectorBytes(sectors) == 512 * sectors <==> sectors < 0x80_0000_0000_0000
    ensures SectorBytes(sectors + 0x80_0000_0000_0000) == SectorBytes(sectors)
  {
  }

  function DeviceFromUdev(device: Device): (info: Option<DeviceInfo>)
    ensures info.Some? <==> Eligible(device)
    ensures info.Some? ==> info.value.stableId == AddId(device)
  {
    match EligibleName(device)
    case None => None
    case Some(name) =>
      var capacity := match device.Property("SIZE")
        case None => None
        case Some(text) => (match ParseU64(text) case None => None case Some(n) => Some(SectorBytes(n)));
      Some(DeviceInfo(
        device.devnode.value.path,
        AddId(device),
        UnwrapOr(OrElse(device.Property("ID_MODEL"), device.Property("ID_MODEL_ENC")), name),
        device.Property("ID_VENDOR"),
        None,
        device.Property("ID_SERIAL_SHORT"),
        UnwrapOr(NearestSpeed(Ancestors(device)), Unknown),
        capacity,
        IsRemovable(device),
        device.Property("ID_FS_TYPE")))
  }

  /** Both announcements use the same id exactly when no WWN stands in for a missing serial. */
  lemma {:induction false} SameIdIff(device: Device)
    requires Eligible(device)
    ensures RemoveId(device) == Some(AddId(device))
       <==> device.Property("ID_SERIAL_SHORT").Some? || device.Property("ID_WWN").None?
            || device.Property("ID_WWN") == EligibleName(device)
  {
  }

  // ---------------------------------------------------------------- the record round trip

  function Put(m: map<string, string>, key: string, value: Option<string>): map<string, string> {
    match value case Some(v) => m[key := v] case None => m
  }

  /** A reported speed that means the given class. */
  function Mbps(speed: UsbSpeed): nat {
    match speed
    case Unknown => 0
    case LowSpeed => 1
    case FullSpeed => 12
    case HighSpeed => 480
    case SuperSpeed => 5000
    case SuperSpeed10 => 10000
    case SuperSpeed20 => 20000
    case Usb4Gen40 => 40000
    case Usb4Gen80 => 80000
  }

  /** Where a device shows its model: plainly, beside an encoded text or not; encoded alone; or nowhere. */
  datatype ModelStyle = Plain(encoded: Option<string>) | Encoded | Unnamed

  /**
   The ways in which devices that show the same record differ: the bus, the removable attribute,
   the place of the model, a WWN, an unreadable size, ancestors without a speed, and the one with it.
   */
  datatype Style = Style(
    bus: Option<string>,
    flag: Option<string>,
    model: ModelStyle,
    wwn: Option<string>,
    size: Option<string>,
    silent: seq<map<string, string>>,
    hub: bool)

  function EncodedModel(info: DeviceInfo, style: Style): Option<string> {
    match style.model case Plain(encoded) => encoded case Encoded => Some(info.model) case Unnamed => None
  }

  function SizeText(info: DeviceInfo, style: Style): Option<string> {
    match info.capacityBytes case Some(c) => Some(Decimal(c / 512)) case None => style.size
  }

  /** How udev shows a disk with the given record. */
  function Properties(info: DeviceInfo, style: Style): map<string, string> {
    var bus := Put(map[], "ID_BUS", style.bus);
    var serial := Put(bus, "ID_SERIAL_SHORT", info.serial);
    var wwn := Put(serial, "ID_WWN", style.wwn);
    var model := Put(wwn, "ID_MODEL", if style.model.Plain? then Some(info.model) else None);
    var encoded := Put(model, "ID_MODEL_ENC", EncodedModel(info, style));
    var vendor := Put(encoded, "ID_VENDOR", info.vendorId);
    var size := Put(vendor, "SIZE", SizeText(info, style));
    Put(size, "ID_FS_TYPE", info.detectedFs)
  }

  /** A chain of parents that carry only the given attributes, ending in `last`. */
  function Above(silent: seq<map<string, string>>, last: Option<Device>): Option<Device> {
    if silent == [] then last else Some(Device(None, map[], silent[0], Above(silent[1..], last)))
  }

  function Shown(info: DeviceInfo, style: Style): Device {
    Device(
      Some(Devnode(info.devicePath, true)),
      Properties(info, style),
      Put(map[], "removable", style.flag),
      Above(style.silent, if style.hub then Some(Hub(info.usbSpeed)) else None))
  }

  /** Records udev can show: of an accepted disk, with the serial as the id and capacities in whole sectors. */
  predicate Showable(info: DeviceInfo) {
    && FileName(info.devicePath).Some? && NameAccepted(FileName(info.devicePath).value)
    && info.productId.None?
    && (info.serial.Some? ==> info.serial == Some(info.stableId))
    && (info.capacityBytes.Some? ==> info.capacityBytes.value % 512 == 0 && info.capacityBytes.value <= U64_MAX)
  }

  predicate Silent(attributes: map<string, string>) {
    SpeedClass(Device(None, map[], attributes, None)).None?
  }

  /** Styles in which a record can be shown: what is left out must be what the backend falls back on. */
  predicate Suits(style: Style, info: DeviceInfo)
    requires Showable(info)
  {
    var name, usb := FileName(info.devicePath).value, style.bus == Some("usb");
    && (usb || (style.flag.Some? && info.isRemovable))
    && (match style.flag
        case None => info.isRemovable == usb
        case Some(text) => if info.isRemovable then text in {"1", "1\n"} else '1' !in text)
    && (style.size.Some? ==> NoNumber(style.size.value))
    && (style.model.Unnamed? ==> info.model == name)
    && (info.serial.None? ==> style.wwn == Some(info.stableId) || (style.wwn.None? && info.stableId == name))
    && (!style.hub ==> info.usbSpeed.Unknown?)
    && (forall i :: 0 <= i < |style.silent| ==> Silent(style.silent[i]))
  }

  lemma {:induction false} BusRead(info: DeviceInfo, style: Style)
    ensures Get(Properties(info, style), "ID_BUS") == style.bus
  {
    hide Decimal, SizeText, EncodedModel;
  }

  lemma {:induction false} IdentityRead(info: DeviceInfo, style: Style)
    ensures Get(Properties(info, style), "ID_SERIAL_SHORT") == info.serial
    ensures Get(Properties(info, style), "ID_WWN") == style.wwn
  {
    hide Decimal, SizeText, EncodedModel;
  }

  lemma {:induction false} ModelRead(info: DeviceInfo, style: Style)
    ensures var m := Properties(info, style);
      && Get(m, "ID_MODEL") == (if style.model.Plain? then Some(info.model) else None)
      && Get(m, "ID_MODEL_ENC") == EncodedModel(info, style)
  {
    hide Decimal;
  }

  lemma {:induction false} PropertiesRead(info: DeviceInfo, style: Style)
    ensures var m := Properties(info, style);
      && Get(m, "ID_VENDOR") == info.vendorId
      && Get(m, "SIZE") == SizeText(info, style)
      && Get(m, "ID_FS_TYPE") == info.detectedFs
  {
    hide Decimal;
  }

  lemma {:induction false} TrimmedDecimal(n: nat)
    ensures Trim(Decimal(n) + "\n") == Decimal(n)
  {
    var s := Decimal(n);
    DecimalDigits(n);
    assert IsDigit(s[0]) && IsDigit(s[|s| - 1]);
    TrimOfTrimmed(s);
    TrimSnoc(s, '\n');
  }

  lemma {:induction false} SpeedPrinted(mbps: nat)
    requires mbps <= PRECISION
    ensures ParseF64(Decimal(mbps)).Some? && ToU64(ParseF64(Decimal(mbps)).value) == mbps
  {
    NumeralOfInteger(mbps);
    ParseNumeric(Decimal(mbps));
    IntegerRepresentable(mbps, SUBNORMAL_BITS);
    CastExact(mbps as real);
  }

  /** A USB device that reports a speed. */
  function Hub(speed: UsbSpeed): Device {
    Device(None, map[], map["speed" := Decimal(Mbps(speed)) + "\n"], None)
  }

  lemma {:induction false} MbpsClass(speed: UsbSpeed)
    ensures ParseUsbSpeed(Mbps(speed)) == speed && Mbps(speed) <= PRECISION
  {
  }

  lemma {:induction false} HubClass(speed: UsbSpeed)
    ensures SpeedClass(Hub(speed)) == Some(speed)
  {
    MbpsClass(speed);
    TrimmedDecimal(Mbps(speed));
    SpeedPrinted(Mbps(speed));
    hide Decimal, ParseF64, ToU64, Trim, Mbps, ParseUsbSpeed;
    assert Hub(speed).Attribute("speed") == Some(Decimal(Mbps(speed)) + "\n");
  }

  lemma {:induction false} AboveSilent(silent: seq<map<string, string>>, last: Option<Device>, d: Device)
    requires forall i :: 0 <= i < |silent| ==> Silent(silent[i])
    requires d.parent == Above(silent, last)
    ensures NearestSpeed(Ancestors(d)) == if last.None? then None
                                          else OrElse(SpeedClass(last.value), NearestSpeed(Ancestors(last.value)))
    decreases |silent|
  {
    if d.parent.Some? {
      var p := d.parent.value;
      NearestSpeedCons(p, Ancestors(p));
      if silent != [] {
        assert Silent(silent[0]) && p.attributes == silent[0];
        AboveSilent(silent[1..], last, p);
      }
    }
  }

  lemma {:induction false} SpeedShown(info: DeviceInfo, style: Style)
    requires Showable(info) && Suits(style, info)
    ensures UnwrapOr(NearestSpeed(Ancestors(Shown(info, style))), Unknown) == info.usbSpeed
  {
    HubClass(info.usbSpeed);
    AboveSilent(style.silent, if style.hub then Some(Hub(info.usbSpeed)) else None, Shown(info, style));
  }

  lemma {:induction false} CapacityShown(bytes: nat)
    requires bytes % 512 == 0 && bytes <= U64_MAX
    ensures ParseU64(Decimal(bytes / 512)) == Some(bytes / 512) && SectorBytes(bytes / 512) == bytes
  {
    DecimalRoundTrip(bytes / 512);
    assert IsDigit(Decimal(bytes / 512)[0]);
  }

  lemma {:induction false} EligibleShown(info: DeviceInfo, style: Style)
    requires Showable(info) && Suits(style, info)
    ensures EligibleName(Shown(info, style)) == FileName(info.devicePath)
    ensures IsRemovable(Shown(info, style)) == info.isRemovable
  {
    BusRead(info, style);
    TrimOfTrimmed("1");
    TrimSnoc("1", '\n');
    assert "1\n" == "1" + "\n" && Get(map[], "removable").None?;
    if style.flag.Some? && !info.isRemovable { TrimLacks(style.flag.value, '1'); }
    hide Properties, Trim, NameAccepted, Above, Silent;
  }

  lemma {:induction false} CapacityRead(info: DeviceInfo, style: Style)
    requires Showable(info) && Suits(style, info)
    ensures info.capacityBytes == match SizeText(info, style)
      case None => None
      case Some(text) => (match ParseU64(text) case None => None case Some(n) => Some(SectorBytes(n)))
  {
    hide ParseU64, SectorBytes, FileName, NameAccepted;
    if info.capacityBytes.Some? {
      CapacityShown(info.capacityBytes.value);
    } else if style.size.Some? {
      ParseU64Reads(style.size.value, 0);
    }
  }

  /** A record is read back whole from every device that shows it, in whatever style. */
  lemma {:induction false} RecordReadBack(info: DeviceInfo, style: Style)
    requires Showable(info) && Suits(style, info)
    ensures DeviceFromUdev(Shown(info, style)) == Some(info)
  {
    IdentityRead(info, style);
    ModelRead(info, style);
    PropertiesRead(info, style);
    EligibleShown(info, style);
    SpeedShown(info, style);
    CapacityRead(info, style);
    hide Properties, EligibleName, IsRemovable, Ancestors, NearestSpeed, Decimal, ParseU64, SectorBytes;
    hide NameAccepted, FileName, Above, Silent, Hub, SizeText, Suits;
    ModelTaken(info, style);
  }

  lemma {:induction false} ModelTaken(info: DeviceInfo, style: Style)
    requires Showable(info) && Suits(style, info)
    ensures UnwrapOr(OrElse(if style.model.Plain? then Some(info.model) else None, EncodedModel(info, style)),
                     FileName(info.devicePath).value) == info.model
  {
    hide FileName, NameAccepted;
  }

  /** The plain model is taken whenever there is one, then the encoded one, then the name. */
  lemma {:induction false} ModelPrecedence(d: Device)
    requires Eligible(d)
    ensures var model := DeviceFromUdev(d).value.model;
      if "ID_MODEL" in d.properties then model == d.properties["ID_MODEL"]
      else if "ID_MODEL_ENC" in d.properties then model == d.properties["ID_MODEL_ENC"]
      else Some(model) == FileName(d.devnode.value.path)
  {
    EligibleIff(d);
    hide EligibleName, IsRemovable, Ancestors, NearestSpeed, ParseU64, SectorBytes, FileName;
  }

  lemma {:induction false} ProducedShowable(d: Device)
    requires Eligible(d)
    ensures Showable(DeviceFromUdev(d).value)
  {
    EligibleIff(d);
    hide FileName, NameAccepted, IsRemovable, Ancestors, NearestSpeed, ParseU64;
  }

  lemma {:induction false} PlainlySuits(info: DeviceInfo) returns (style: Style)
    requires Showable(info)
    ensures Suits(style, info)
  {
    hide FileName, NameAccepted;
    var flag := if info.isRemovable then "1" else "0";
    style := Style(Some("usb"), Some(flag), Plain(None), Some(info.stableId), None, [], true);
  }

  /** Some udev device yields a record if and only if the record is showable. */
  lemma {:induction false} ProducedIffShowable(info: DeviceInfo)
    ensures (exists d :: DeviceFromUdev(d) == Some(info)) <==> Showable(info)
  {
    hide DeviceFromUdev, Showable, Shown, Suits, Eligible;
    if d :| DeviceFromUdev(d) == Some(info) { ProducedShowable(d); }
    if Showable(info) {
      var style := PlainlySuits(info);
      RecordReadBack(info, style);
    }
  }
}
