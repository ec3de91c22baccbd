/**
 The macOS backend: `diskutil` text is scanned every two seconds, and the difference from the
 names known so far goes out as events. The scans are an input trace; a scan may fail.
 */
module MacMonitor {

  import opened Wrappers
  import opened Text
  import opened Devices

  // ---------------------------------------------------------------- reading diskutil text

  const DISK_PREFIX: string := "/dev/disk"

  /** The disk a line names, empty when it names none. */
  function DiskName(line: string): string {
    var t := Trim(line);
    if StartsWith(t, "/dev/") then t[5..] else ""
  }

  /** The first line that holds `sub`. */
  function FirstWith(ls: seq<string>, sub: string): Option<string> {
    if ls == [] then None else if Contains(ls[0], sub) then Some(ls[0]) else FirstWith(ls[1..], sub)
  }

  /** What precedes the first `sub`, everything when there is none. */
  function Before(s: string, sub: string): string {
    if s == "" || sub <= s then "" else [s[0]] + Before(s[1..], sub)
  }

  predicate YesNo(info: string, field: string) {
    Contains(info, field + ": Yes") || Contains(info, field + ":  Yes")
  }

  function ParseDeviceInfo(name: string, info: string): Option<DeviceInfo> {
    var removable, ejectable := YesNo(info, "Removable Media"), YesNo(info, "Ejectable");
    if !YesNo(info, "External") && !removable && !ejectable then None else
    var model := match FirstWith(Lines(info), "Device / Media Name:")
      case None => name
      case Some(l) => var parts := Split(l, ':'); if |parts| > 1 then Trim(parts[1]) else "";
    var capacity := match FirstWith(Lines(info), "Disk Size:")
      case None => None
      case Some(l) =>
        var parts := Split(l, '(');
        if |parts| > 1 then ParseU64(Trim(Before(parts[1], "Bytes"))) else None;
    var speed :=
      if Contains(info, "PCI-Express") || Contains(info, "Thunderbolt") then Usb4Gen40
      else if Contains(info, "USB") then SuperSpeed10 else Unknown;
    Some(DeviceInfo("/dev/" + name, name, model, None, None, None, speed, capacity, removable || ejectable, None))
  }

  /** The monitor passes this text for every disk. */
  const ASSUMED_INFO: string := "External: Yes\n"

  /** The record the monitor sends for a disk: its name and nothing else is known. */
  function ExternalDisk(name: string): DeviceInfo {
    DeviceInfo("/dev/" + name, name, name, None, None, None, Unknown, None, false, None)
  }

  lemma {:induction false} LacksCharacter(s: string, sub: string, c: char)
    requires c in sub && c !in s
    ensures !Contains(s, sub)
  {
    if s != "" { LacksCharacter(s[1..], sub, c); }
  }

  lemma {:induction false} AssumedCharacters()
    ensures 'R' !in ASSUMED_INFO && 'j' !in ASSUMED_INFO && 'D' !in ASSUMED_INFO
    ensures 'P' !in ASSUMED_INFO && 'T' !in ASSUMED_INFO && 'U' !in ASSUMED_INFO
  {
  }

  lemma {:induction false} AssumedFlags()
    ensures YesNo(ASSUMED_INFO, "External")
    ensures !YesNo(ASSUMED_INFO, "Removable Media") && !YesNo(ASSUMED_INFO, "Ejectable")
  {
    AssumedCharacters();
    assert "External" + ": Yes" <= ASSUMED_INFO;
    LacksCharacter(ASSUMED_INFO, "Removable Media" + ": Yes", 'R');
    LacksCharacter(ASSUMED_INFO, "Removable Media" + ":  Yes", 'R');
    LacksCharacter(ASSUMED_INFO, "Ejectable" + ": Yes", 'j');
    LacksCharacter(ASSUMED_INFO, "Ejectable" + ":  Yes", 'j');
  }

  lemma {:induction false} NoLineWith(ls: seq<string>, sub: string, c: char)
    requires c in sub && forall l :: l in ls ==> c !in l
    ensures FirstWith(ls, sub).None?
  {
    if ls != [] {
      LacksCharacter(ls[0], sub, c);
      NoLineWith(ls[1..], sub, c);
    }
  }

  /** Every character of a line is a character of the text. */
  lemma {:induction false} LinesCharacter(s: string, c: char)
    requires c !in s
    ensures forall l :: l in Lines(s) ==> c !in l
    decreases |s|
  {
    if s != "" {
      var n := IndexOf(s, '\n');
      if n < |s| {
        LinesCharacter(s[n + 1..], c);
        assert RawLines(s) == [s[..n + 1]] + RawLines(s[n + 1..]);
      }
    }
  }

  lemma {:induction false} AssumedLines()
    ensures FirstWith(Lines(ASSUMED_INFO), "Device / Media Name:").None?
    ensures FirstWith(Lines(ASSUMED_INFO), "Disk Size:").None?
  {
    AssumedCharacters();
    LinesCharacter(ASSUMED_INFO, 'D');
    NoLineWith(Lines(ASSUMED_INFO), "Device / Media Name:", 'D');
    NoLineWith(Lines(ASSUMED_INFO), "Disk Size:", 'D');
  }

  lemma {:induction false} AssumedProtocol()
    ensures !Contains(ASSUMED_INFO, "PCI-Express") && !Contains(ASSUMED_INFO, "Thunderbolt")
    ensures !Contains(ASSUMED_INFO, "USB")
  {
    AssumedCharacters();
    LacksCharacter(ASSUMED_INFO, "PCI-Express", 'P');
    LacksCharacter(ASSUMED_INFO, "Thunderbolt", 'T');
    LacksCharacter(ASSUMED_INFO, "USB", 'U');
  }

  /** Every disk the monitor sees passes the filter, with nothing known but its name. */
  lemma {:induction false} AssumedInfoPasses(name: string)
    ensures ParseDeviceInfo(name, ASSUMED_INFO) == Some(ExternalDisk(name))
  {
    AssumedFlags();
    AssumedLines();
    AssumedProtocol();
  }

  lemma {:induction false} TrimEndKeeps(s: string, prefix: string)
    requires prefix <= s && prefix != "" && !IsWhitespace(prefix[|prefix| - 1])
    ensures prefix <= TrimEnd(s)
  {
    if IsWhitespace(s[|s| - 1]) {
      assert |prefix| < |s|;
      TrimEndKeeps(s[..|s| - 1], prefix);
    }
  }

  /** A line that starts like a disk path always names one. */
  lemma {:induction false} DiskLineNames(line: string)
    requires StartsWith(line, DISK_PREFIX)
    ensures "disk" <= DiskName(line)
  {
    assert line[0] == '/';
    assert TrimStart(line) == line;
    TrimEndKeeps(line, DISK_PREFIX);
    var t := Trim(line);
    assert t[..9] == DISK_PREFIX;
    assert t[..5] == "/dev/" && t[5..9] == "disk";
  }

  lemma {:induction false} TrimEndConcat(a: string, b: string)
    requires a != "" && !IsWhitespace(a[|a| - 1])
    ensures TrimEnd(a + b) == a + TrimEnd(b)
  {
    if b == "" {
      assert a + b == a;
    } else if IsWhitespace(b[|b| - 1]) {
      assert (a + b)[..|a + b| - 1] == a + b[..|b| - 1];
      TrimEndConcat(a, b[..|b| - 1]);
    }
  }

  /** The name is all that follows `/dev/`, up to white space at the end of the line. */
  lemma {:induction false} DiskNameIs(rest: string)
    ensures DiskName("/dev/disk" + rest) == "disk" + TrimEnd(rest)
  {
    var line := "/dev/disk" + rest;
    assert line[0] == '/' && TrimStart(line) == line;
    TrimEndConcat("/dev/disk", rest);
    assert ("/dev/disk" + TrimEnd(rest))[5..] == "disk" + TrimEnd(rest);
  }

  lemma {:induction false} BlankIff(s: string)
    ensures TrimEnd(s) == "" <==> forall i :: 0 <= i < |s| ==> IsWhitespace(s[i])
  {
    if s != "" && IsWhitespace(s[|s| - 1]) { BlankIff(s[..|s| - 1]); }
    if TrimEnd(s) == "" && s != "" { assert IsWhitespace(s[|s| - 1]); }
  }

  /** A disk path alone on its line gives the disk's name; anything after it becomes part of the name. */
  lemma {:induction false} BareNameIff(number: string, rest: string)
    requires forall i :: 0 <= i < |number| ==> !IsWhitespace(number[i])
    ensures DiskName("/dev/disk" + number + rest) == "disk" + number
       <==> forall i :: 0 <= i < |rest| ==> IsWhitespace(rest[i])
  {
    assert "/dev/disk" + number + rest == "/dev/disk" + (number + rest);
    DiskNameIs(number + rest);
    BlankIff(rest);
    if number == "" {
      assert number + rest == rest;
    } else {
      TrimEndConcat(number, rest);
    }
    assert |"disk" + TrimEnd(number + rest)| == 4 + |TrimEnd(number + rest)|;
  }

  /** A line of output: a disk path, perhaps with white space after it, or another line. */
  datatype OutputLine = Disk(name: string, space: string) | OtherLine(text: string)
  {
    function Text(): string {
      match this case Disk(name, space) => "/dev/" + name + space case OtherLine(text) => text
    }

    predicate Valid() {
      Clean(Text()) &&
      match this
      case Disk(name, space) =>
        "disk" <= name && !IsWhitespace(name[|name| - 1]) && forall i :: 0 <= i < |space| ==> IsWhitespace(space[i])
      case OtherLine(text) => !StartsWith(text, "/dev/disk")
    }
  }

  function Printed(output: seq<OutputLine>): seq<string> {
    if output == [] then [] else [output[0].Text()] + Printed(output[1..])
  }

  /** The disks that are printed. */
  function Disks(output: seq<OutputLine>): seq<string> {
    if output == [] then []
    else (if output[0].Disk? then [output[0].name] else []) + Disks(output[1..])
  }

  lemma {:induction false} DiskNamed(name: string, space: string)
    requires "disk" <= name && !IsWhitespace(name[|name| - 1])
    requires forall i :: 0 <= i < |space| ==> IsWhitespace(space[i])
    ensures DiskName("/dev/" + name + space) == name
  {
    var line := "/dev/" + name + space;
    assert line[0] == '/' && TrimStart(line) == line;
    TrimEndConcat("/dev/" + name, space);
    BlankIff(space);
    hide TrimEnd;
    assert "/dev/" + name + "" == "/dev/" + name;
    assert ("/dev/" + name)[5..] == name;
  }

  lemma {:induction false} PathStarts(name: string, space: string)
    requires "disk" <= name
    ensures "/dev/disk" <= "/dev/" + name + space
  {
    var t := "/dev/" + name + space;
    assert t[..5] == "/dev/" && t[5..9] == name[..4] == "disk";
    assert t[..9] == t[..5] + t[5..9];
    assert "/dev/" + "disk" == "/dev/disk";
  }

  lemma {:induction false} DiskLineListed(line: OutputLine)
    requires line.Valid()
    ensures Listing(line.Text()) == if line.Disk? then [line.name] else []
  {
    if line.Disk? {
      PathStarts(line.name, line.space);
      DiskNamed(line.name, line.space);
      hide DiskName, IsWhitespace;
    }
  }

  lemma {:induction false} DisksListed(output: seq<OutputLine>)
    requires forall i :: 0 <= i < |output| ==> output[i].Valid()
    ensures Names(Printed(output)) == Disks(output)
    ensures forall line :: line in Printed(output) ==> Clean(line)
  {
    hide Listing;
    if output != [] {
      assert output[0].Valid();
      DiskLineListed(output[0]);
      DisksListed(output[1..]);
      assert Printed(output)[1..] == Printed(output[1..]);
    }
  }

  /** What is listed of an output is exactly its disks, in order. */
  lemma {:induction false} OutputRead(output: seq<OutputLine>)
    requires forall i :: 0 <= i < |output| ==> output[i].Valid()
    ensures Output(Unlines(Printed(output))).Listed() == Disks(output)
  {
    DisksListed(output);
    LinesOfUnlines(Printed(output));
  }

  /** The disks a `diskutil` output lists, in order, with repetitions. */
  function Names(ls: seq<string>): seq<string> {
    if ls == [] then [] else Listing(ls[0]) + Names(ls[1..])
  }

  /** The disk one line lists, if any. */
  function Listing(line: string): seq<string> {
    if StartsWith(line, DISK_PREFIX) && DiskName(line) != "" then [DiskName(line)] else []
  }

  function Members(names: seq<string>): set<string> {
    set n | n in names
  }

  // ---------------------------------------------------------------- one poll

  /** Insertions sent while the lines are read: one per line whose disk was not known before. */
  function InsertEvents(known: set<string>, names: seq<string>): seq<UsbEvent>
    decreases names
  {
    if names == [] then []
    else (if names[0] in known then [] else [Inserted(ExternalDisk(names[0]))]) + InsertEvents(known, names[1..])
  }

  function RemoveEvents(order: seq<string>): seq<UsbEvent> {
    if order == [] then [] else [Removed(order[0])] + RemoveEvents(order[1..])
  }

  predicate Distinct(names: seq<string>) {
    forall i, j :: 0 <= i < j < |names| ==> names[i] != names[j]
  }

  /** A visiting order of the known disks that are gone: hash sets promise no more than this. */
  predicate RemovalOrder(order: seq<string>, known: set<string>, current: set<string>) {
    Distinct(order) && Members(order) == known - current
  }

  datatype Scan = Failed | Output(text: string)
  {
    function Listed(): seq<string>
      requires Output?
    {
      Names(Lines(text))
    }
  }

  /** The known set after a scan; a failed scan leaves it alone. */
  function Next(known: set<string>, scan: Scan): set<string> {
    if scan.Failed? then known else Members(scan.Listed())
  }

  predicate PollOrder(known: set<string>, scan: Scan, order: seq<string>) {
    if scan.Failed? then order == [] else RemovalOrder(order, known, Members(scan.Listed()))
  }

  function PollEvents(known: set<string>, scan: Scan, order: seq<string>): seq<UsbEvent> {
    if scan.Failed? then [] else InsertEvents(known, scan.Listed()) + RemoveEvents(order)
  }

  // ---------------------------------------------------------------- runs

  function KnownAfter(known: set<string>, scans: seq<Scan>): set<string>
    decreases scans
  {
    if scans == [] then known else KnownAfter(Next(known, scans[0]), scans[1..])
  }

  predicate Orders(known: set<string>, scans: seq<Scan>, orders: seq<seq<string>>)
    decreases scans
  {
    |orders| == |scans| &&
    (scans == [] || (PollOrder(known, scans[0], orders[0]) && Orders(Next(known, scans[0]), scans[1..], orders[1..])))
  }

  /** The event stream of a run, given the order in which each poll visited the gone disks. */
  function Emitted(known: set<string>, scans: seq<Scan>, orders: seq<seq<string>>): seq<UsbEvent>
    requires |orders| == |scans|
    decreases scans
  {
    if scans == [] then []
    else PollEvents(known, scans[0], orders[0]) + Emitted(Next(known, scans[0]), scans[1..], orders[1..])
  }

  lemma {:induction false} ReplayInserts(known: set<string>, held: set<string>, names: seq<string>)
    requires known <= held
    ensures Replay(held, InsertEvents(known, names)) == held + Members(names)
    ensures RemovalsMatched(held, InsertEvents(known, names))
    decreases names
  {
    if names != [] {
      InsertHead(known, names);
      var held' := if names[0] in known then held else held + {names[0]};
      ReplayInserts(known, held', names[1..]);
      assert Members(names) == {names[0]} + Members(names[1..]);
      assert held' + Members(names[1..]) == held + Members(names);
    }
  }

  lemma {:induction false} InsertHead(known: set<string>, names: seq<string>)
    requires names != []
    ensures names[0] in known ==> InsertEvents(known, names) == InsertEvents(known, names[1..])
    ensures names[0] !in known ==>
      InsertEvents(known, names) == [Inserted(ExternalDisk(names[0]))] + InsertEvents(known, names[1..])
  {
  }

  lemma {:induction false} ReplayRemoves(held: set<string>, order: seq<string>)
    requires Distinct(order) && Members(order) <= held
    ensures Replay(held, RemoveEvents(order)) == held - Members(order)
    ensures RemovalsMatched(held, RemoveEvents(order))
    ensures Alternating(held, RemoveEvents(order))
    decreases order
  {
    if order != [] {
      var held' := held - {order[0]};
      assert forall i :: 0 <= i < |order| - 1 ==> order[1..][i] == order[i + 1];
      assert order[0] !in order[1..];
      assert Members(order) == {order[0]} + Members(order[1..]);
      ReplayRemoves(held', order[1..]);
      assert held' - Members(order[1..]) == held - Members(order);
    }
  }

  /** One poll takes a consumer from the known set to the next one. */
  lemma {:induction false} PollReplay(known: set<string>, scan: Scan, order: seq<string>)
    requires PollOrder(known, scan, order)
    ensures Replay(known, PollEvents(known, scan, order)) == Next(known, scan)
    ensures RemovalsMatched(known, PollEvents(known, scan, order))
  {
    if scan.Output? {
      var names := scan.Listed();
      var inserts, removes := InsertEvents(known, names), RemoveEvents(order);
      ReplayInserts(known, known, names);
      ReplayRemoves(known + Members(names), order);
      ReplayConcat(known, inserts, removes);
      RemovalsMatchedConcat(known, inserts, removes);
      assert known + Members(names) - (known - Members(names)) == Members(names);
    }
  }

  /**
   After any run of scans, failed ones and repeated lines included, and for any visiting
   orders, replaying what was sent gives exactly the known set, and every removal met a held id.
   */
  lemma {:induction false} RunReplay(known: set<string>, scans: seq<Scan>, orders: seq<seq<string>>)
    requires Orders(known, scans, orders)
    ensures Replay(known, Emitted(known, scans, orders)) == KnownAfter(known, scans)
    ensures RemovalsMatched(known, Emitted(known, scans, orders))
    decreases scans
  {
    if scans != [] {
      var first := PollEvents(known, scans[0], orders[0]);
      var next := Next(known, scans[0]);
      var rest := Emitted(next, scans[1..], orders[1..]);
      PollReplay(known, scans[0], orders[0]);
      RunReplay(next, scans[1..], orders[1..]);
      ReplayConcat(known, first, rest);
      RemovalsMatchedConcat(known, first, rest);
    }
  }

  /** Scans that failed or whose output was printed from these lines. */
  ghost predicate PrintedScans(scans: seq<Scan>, outputs: seq<Option<seq<OutputLine>>>) {
    |scans| == |outputs| && forall k :: 0 <= k < |scans| ==> PrintedScan(scans[k], outputs[k])
  }

  ghost predicate PrintedScan(scan: Scan, output: Option<seq<OutputLine>>) {
    match output
    case None => scan.Failed?
    case Some(ls) => scan == Output(Unlines(Printed(ls))) && forall i :: 0 <= i < |ls| ==> ls[i].Valid()
  }

  /** The disks of the last output there was. */
  function LastDisks(known: set<string>, outputs: seq<Option<seq<OutputLine>>>): set<string> {
    if outputs == [] then known else
    var n := |outputs| - 1;
    match outputs[n] case Some(ls) => Members(Disks(ls)) case None => LastDisks(known, outputs[..n])
  }

  lemma {:induction false} LastDisksCons(known: set<string>, outputs: seq<Option<seq<OutputLine>>>)
    requires outputs != []
    ensures LastDisks(known, outputs) == LastDisks(
      match outputs[0] case Some(ls) => Members(Disks(ls)) case None => known, outputs[1..])
  {
    var n := |outputs| - 1;
    if n > 0 && outputs[n].None? {
      LastDisksCons(known, outputs[..n]);
      assert outputs[..n][1..] == outputs[1..][..n - 1];
    } else if n == 0 {
      assert outputs[..0] == [] && outputs[1..] == [];
    }
  }

  lemma {:induction false} KnownDisks(known: set<string>, scans: seq<Scan>, outputs: seq<Option<seq<OutputLine>>>)
    requires PrintedScans(scans, outputs)
    ensures KnownAfter(known, scans) == LastDisks(known, outputs)
    decreases scans
  {
    hide LastDisks;
    if scans == [] {
      NoOutputs(known);
      assert outputs == [];
    } else {
      assert PrintedScan(scans[0], outputs[0]);
      if outputs[0].Some? { OutputRead(outputs[0].value); }
      LastDisksCons(known, outputs);
      KnownDisks(Next(known, scans[0]), scans[1..], outputs[1..]);
    }
  }

  lemma {:induction false} NoOutputs(known: set<string>)
    ensures LastDisks(known, []) == known
  {
  }

  /**
   Over printed outputs and failed scans in any order, a consumer that starts empty ends up holding
   exactly the disks of the last output.
   */
  lemma {:induction false} HeldAreTheLastDisks(scans: seq<Scan>, outputs: seq<Option<seq<OutputLine>>>,
      orders: seq<seq<string>>)
    requires PrintedScans(scans, outputs) && Orders({}, scans, orders)
    ensures Replay({}, Emitted({}, scans, orders)) == LastDisks({}, outputs)
  {
    hide PrintedScans, Orders, LastDisks, KnownAfter;
    RunReplay({}, scans, orders);
    KnownDisks({}, scans, outputs);
  }

  /** The record is what the parser makes of the constant description of that disk. */
  predicate AsDescribed(e: UsbEvent) {
    e.Inserted? ==> ParseDeviceInfo(e.info.stableId, ASSUMED_INFO) == Some(e.info)
  }

  lemma {:induction false} InsertsDescribed(known: set<string>, names: seq<string>)
    ensures forall e :: e in InsertEvents(known, names) ==> AsDescribed(e)
  {
    hide ParseDeviceInfo;
    if names != [] {
      AssumedInfoPasses(names[0]);
      InsertsDescribed(known, names[1..]);
    }
  }

  lemma {:induction false} RemovesDescribed(order: seq<string>)
    ensures forall e :: e in RemoveEvents(order) ==> e.Removed?
  {
    if order != [] { RemovesDescribed(order[1..]); }
  }

  /** In every run, every insertion carries the record that the parser makes of that disk. */
  lemma {:induction false} InsertionsAsDescribed(known: set<string>, scans: seq<Scan>, orders: seq<seq<string>>)
    requires |orders| == |scans|
    ensures forall e :: e in Emitted(known, scans, orders) ==> AsDescribed(e)
    decreases scans
  {
    hide ParseDeviceInfo;
    if scans != [] {
      if scans[0].Output? { InsertsDescribed(known, scans[0].Listed()); }
      RemovesDescribed(orders[0]);
      InsertionsAsDescribed(Next(known, scans[0]), scans[1..], orders[1..]);
    }
  }

  // ---------------------------------------------------------------- alternation

  /** No disk that was unknown before the poll is listed twice in it. */
  predicate FreshOnce(known: set<string>, names: seq<string>) {
    forall i, j :: 0 <= i < j < |names| && names[i] == names[j] ==> names[i] in known
  }

  predicate FreshOnceThroughout(known: set<string>, scans: seq<Scan>)
    decreases scans
  {
    scans == [] ||
    ((scans[0].Output? ==> FreshOnce(known, scans[0].Listed())) &&
        FreshOnceThroughout(Next(known, scans[0]), scans[1..]))
  }

  lemma {:induction false} InsertsAlternate(known: set<string>, held: set<string>, names: seq<string>)
    requires known <= held
    ensures Alternating(held, InsertEvents(known, names))
       <==> FreshOnce(known, names) && (forall n :: n in names && n !in known ==> n !in held)
    decreases names
  {
    if names != [] {
      var x, rest := names[0], names[1..];
      InsertHead(known, names);
      assert forall n :: n in names <==> n == x || n in rest;
      if x in known {
        InsertsAlternate(known, held, rest);
      } else {
        InsertsAlternate(known, held + {x}, rest);
        var events := InsertEvents(known, names);
        assert events[1..] == InsertEvents(known, rest);
        assert Alternating(held, events) <==> x !in held && Alternating(held + {x}, events[1..]);
      }
    }
  }

  lemma {:induction false} PollAlternates(known: set<string>, scan: Scan, order: seq<string>)
    requires PollOrder(known, scan, order)
    ensures Alternating(known, PollEvents(known, scan, order))
       <==> (scan.Output? ==> FreshOnce(known, scan.Listed()))
  {
    if scan.Output? {
      var names := scan.Listed();
      InsertsAlternate(known, known, names);
      ReplayInserts(known, known, names);
      ReplayRemoves(known + Members(names), order);
      AlternatingConcat(known, InsertEvents(known, names), RemoveEvents(order));
    }
  }

  /**
   Insertions and removals of each disk strictly alternate over a run exactly when no scan
   lists a disk twice that was unknown before it.
   */
  lemma {:induction false} RunAlternates(known: set<string>, scans: seq<Scan>, orders: seq<seq<string>>)
    requires Orders(known, scans, orders)
    ensures Alternating(known, Emitted(known, scans, orders)) <==> FreshOnceThroughout(known, scans)
    decreases scans
  {
    if scans != [] {
      var first := PollEvents(known, scans[0], orders[0]);
      var next := Next(known, scans[0]);
      PollReplay(known, scans[0], orders[0]);
      PollAlternates(known, scans[0], orders[0]);
      RunAlternates(next, scans[1..], orders[1..]);
      AlternatingConcat(known, first, Emitted(next, scans[1..], orders[1..]));
    }
  }

  lemma {:induction false} ListedTwice(line: string)
    requires Clean(line) && StartsWith(line, DISK_PREFIX)
    ensures Output(Unlines([line, line])).Listed() == [DiskName(line), DiskName(line)]
  {
    DiskLineNames(line);
    LinesOfUnlines([line, line]);
    hide DiskName;
    assert [line, line][1..] == [line] && [line][1..] == [];
    assert Names([line]) == Listing(line) + Names([]);
    assert Names([line, line]) == Listing(line) + Names([line]);
  }

  /** A disk line that comes twice in the first output is announced twice. */
  lemma {:induction false} RepeatedLineRepeats(line: string)
    requires Clean(line) && StartsWith(line, DISK_PREFIX)
    ensures var scans, orders := [Output(Unlines([line, line]))], [[]];
      var inserted := Inserted(ExternalDisk(DiskName(line)));
      && Orders({}, scans, orders) && Emitted({}, scans, orders) == [inserted, inserted]
      && !Alternating({}, Emitted({}, scans, orders))
  {
    var scan, x := Output(Unlines([line, line])), DiskName(line);
    var inserted := Inserted(ExternalDisk(x));
    ListedTwice(line);
    hide DiskName, Lines, Unlines;
    assert Members([x, x]) == {x};
    assert [x, x][1..] == [x] && [x][1..] == [];
    assert InsertEvents({}, [x]) == [inserted] + InsertEvents({}, []);
    assert InsertEvents({}, [x, x]) == [inserted] + InsertEvents({}, [x]);
    assert PollEvents({}, scan, []) == [inserted, inserted];
    assert PollOrder({}, scan, []);
    assert [scan][1..] == [] && [inserted, inserted][1..] == [inserted];
    assert Orders({}, [scan], [[]]);
    assert Emitted({}, [scan], [[]]) == [inserted, inserted];
    assert !Alternating({x}, [inserted]);
  }

  /** From an empty start, insertions minus removals count the known disks when they alternate. */
  lemma {:induction false} RunBalance(scans: seq<Scan>, orders: seq<seq<string>>)
    requires Orders({}, scans, orders) && FreshOnceThroughout({}, scans)
    ensures CountInserted(Emitted({}, scans, orders))
         == CountRemoved(Emitted({}, scans, orders)) + |KnownAfter({}, scans)|
  {
    RunReplay({}, scans, orders);
    RunAlternates({}, scans, orders);
    AlternatingBalance({}, Emitted({}, scans, orders));
  }

  // ---------------------------------------------------------------- stuttering and order

  /** The scans that change the known set: neither failed nor listing the known set again. */
  function Essential(known: set<string>, scans: seq<Scan>): seq<Scan>
    decreases scans
  {
    if scans == [] then []
    else (if Next(known, scans[0]) == known then [] else [scans[0]]) + Essential(Next(known, scans[0]), scans[1..])
  }

  function EssentialOrders(known: set<string>, scans: seq<Scan>, orders: seq<seq<string>>): (kept: seq<seq<string>>)
    requires |orders| == |scans|
    ensures |kept| == |Essential(known, scans)|
    decreases scans
  {
    if scans == [] then []
    else (if Next(known, scans[0]) == known then [] else [orders[0]])
         + EssentialOrders(Next(known, scans[0]), scans[1..], orders[1..])
  }

  lemma {:induction false} NoFreshNoInserts(known: set<string>, names: seq<string>)
    requires Members(names) <= known
    ensures InsertEvents(known, names) == []
    decreases names
  {
    if names != [] {
      assert names[0] in Members(names);
      assert Members(names[1..]) <= Members(names);
      NoFreshNoInserts(known, names[1..]);
    }
  }

  lemma {:induction false} MembersNonEmpty(order: seq<string>)
    requires order != []
    ensures Members(order) != {}
  {
    assert order[0] in Members(order);
  }

  /** A failed scan, or one that lists the known set again, sends nothing. */
  lemma {:induction false} StutterSilent(known: set<string>, scan: Scan, order: seq<string>)
    requires PollOrder(known, scan, order) && Next(known, scan) == known
    ensures PollEvents(known, scan, order) == []
  {
    if scan.Output? {
      NoFreshNoInserts(known, scan.Listed());
      if order != [] { MembersNonEmpty(order); }
    }
  }

  /** Dropping failed and repeating scans leaves the event stream and the known set unchanged. */
  lemma {:induction false} StutterInvariance(known: set<string>, scans: seq<Scan>, orders: seq<seq<string>>)
    requires Orders(known, scans, orders)
    ensures Orders(known, Essential(known, scans), EssentialOrders(known, scans, orders))
    ensures Emitted(known, Essential(known, scans), EssentialOrders(known, scans, orders))
        == Emitted(known, scans, orders)
    ensures KnownAfter(known, Essential(known, scans)) == KnownAfter(known, scans)
    decreases scans
  {
    if scans != [] {
      var next := Next(known, scans[0]);
      StutterInvariance(next, scans[1..], orders[1..]);
      if next == known {
        StutterSilent(known, scans[0], orders[0]);
        StutterDropped(known, scans, orders);
      }
    }
  }

  lemma {:induction false} StutterDropped(known: set<string>, scans: seq<Scan>, orders: seq<seq<string>>)
    requires |orders| == |scans| && scans != [] && Next(known, scans[0]) == known
    ensures Essential(known, scans) == Essential(known, scans[1..])
    ensures EssentialOrders(known, scans, orders) == EssentialOrders(known, scans[1..], orders[1..])
  {
  }

  lemma {:induction false} DistinctCounts(order: seq<string>, x: string)
    requires Distinct(order)
    ensures multiset(order)[x] == if x in order then 1 else 0
  {
    if order != [] {
      var rest := order[1..];
      assert forall i :: 0 <= i < |rest| ==> rest[i] == order[i + 1];
      DistinctCounts(rest, x);
      assert order == [order[0]] + rest;
      assert order[0] !in rest;
    }
  }

  lemma {:induction false} RemoveEventsCounts(order: seq<string>, x: string)
    ensures multiset(RemoveEvents(order))[Removed(x)] == multiset(order)[x]
    ensures forall e :: e in RemoveEvents(order) ==> e.Removed?
  {
    if order != [] {
      RemoveEventsCounts(order[1..], x);
      assert order == [order[0]] + order[1..];
    }
  }

  /** The order in which a poll visits the gone disks only permutes that poll's events. */
  lemma {:induction false} PollOrderIrrelevant(known: set<string>, scan: Scan, order: seq<string>, order': seq<string>)
    requires PollOrder(known, scan, order) && PollOrder(known, scan, order')
    ensures multiset(PollEvents(known, scan, order)) == multiset(PollEvents(known, scan, order'))
  {
    if scan.Output? {
      var a, b := RemoveEvents(order), RemoveEvents(order');
      forall e: UsbEvent ensures multiset(a)[e] == multiset(b)[e] {
        RemoveEventsCounts(order, e.Id());
        RemoveEventsCounts(order', e.Id());
        DistinctCounts(order, e.Id());
        DistinctCounts(order', e.Id());
        assert e.Id() in order <==> e.Id() in Members(order);
        assert e.Id() in order' <==> e.Id() in Members(order');
        if e.Removed? { assert e == Removed(e.Id()); } else { assert e !in a && e !in b; }
      }
      assert multiset(a) == multiset(b);
    }
  }

  /** The events of each poll that sent any, poll by poll. */
  function Polls(known: set<string>, scans: seq<Scan>, orders: seq<seq<string>>): seq<seq<UsbEvent>>
    requires |orders| == |scans|
    decreases scans
  {
    if scans == [] then [] else
    var first := PollEvents(known, scans[0], orders[0]);
    (if first == [] then [] else [first]) + Polls(Next(known, scans[0]), scans[1..], orders[1..])
  }

  function Flatten(polls: seq<seq<UsbEvent>>): seq<UsbEvent> {
    if polls == [] then [] else polls[0] + Flatten(polls[1..])
  }

  lemma {:induction false} PollsFlatten(known: set<string>, scans: seq<Scan>, orders: seq<seq<string>>)
    requires |orders| == |scans|
    ensures Flatten(Polls(known, scans, orders)) == Emitted(known, scans, orders)
    decreases scans
  {
    hide PollEvents, Next;
    if scans != [] {
      var first, rest := PollEvents(known, scans[0], orders[0]), Polls(Next(known, scans[0]), scans[1..], orders[1..]);
      PollsFlatten(Next(known, scans[0]), scans[1..], orders[1..]);
      if first == [] { assert [] + rest == rest; } else { assert ([first] + rest)[1..] == rest; }
    }
  }

  /** Poll by poll the same events, in whatever order within a poll. */
  predicate SamePolls(a: seq<seq<UsbEvent>>, b: seq<seq<UsbEvent>>) {
    |a| == |b| && forall i :: 0 <= i < |a| ==> multiset(a[i]) == multiset(b[i])
  }

  lemma {:induction false} SamePollsCons(x: seq<UsbEvent>, y: seq<UsbEvent>, a: seq<seq<UsbEvent>>,
      b: seq<seq<UsbEvent>>)
    requires multiset(x) == multiset(y) && SamePolls(a, b)
    ensures x == [] <==> y == []
    ensures SamePolls((if x == [] then [] else [x]) + a, (if y == [] then [] else [y]) + b)
  {
    assert |multiset(x)| == |x| && |multiset(y)| == |y|;
  }

  /** Two choices of visiting orders for one run. */
  lemma {:induction false} OrdersIrrelevant(known: set<string>, scans: seq<Scan>, orders: seq<seq<string>>,
      orders': seq<seq<string>>)
    requires Orders(known, scans, orders) && Orders(known, scans, orders')
    ensures SamePolls(Polls(known, scans, orders), Polls(known, scans, orders'))
    decreases scans
  {
    hide PollEvents, Next, SamePolls, PollOrder;
    if scans == [] {
      NoPolls();
    } else {
      PollOrderIrrelevant(known, scans[0], orders[0], orders'[0]);
      OrdersIrrelevant(Next(known, scans[0]), scans[1..], orders[1..], orders'[1..]);
      SamePollsCons(PollEvents(known, scans[0], orders[0]), PollEvents(known, scans[0], orders'[0]),
                    Polls(Next(known, scans[0]), scans[1..], orders[1..]),
                    Polls(Next(known, scans[0]), scans[1..], orders'[1..]));
    }
  }

  lemma {:induction false} NoPolls()
    ensures SamePolls([], [])
  {
  }

  lemma {:induction false} EssentialPolls(known: set<string>, scans: seq<Scan>, orders: seq<seq<string>>)
    requires Orders(known, scans, orders)
    ensures Polls(known, Essential(known, scans), EssentialOrders(known, scans, orders)) == Polls(known, scans, orders)
    decreases scans
  {
    hide PollEvents, PollOrder;
    if scans != [] {
      var next := Next(known, scans[0]);
      EssentialPolls(next, scans[1..], orders[1..]);
      if next == known {
        StutterSilent(known, scans[0], orders[0]);
        StutterDropped(known, scans, orders);
        hide Next;
      } else {
        hide Next;
      }
    }
  }

  /**
   Runs that differ only in failed and repeating scans send, poll by poll, the same events up to
   the order within a poll, whatever orders the hash sets yield in either run.
   */
  lemma {:induction false} StuttersAndOrdersIrrelevant(known: set<string>, scans: seq<Scan>, scans': seq<Scan>,
      orders: seq<seq<string>>, orders': seq<seq<string>>)
    requires Orders(known, scans, orders) && Orders(known, scans', orders')
    requires Essential(known, scans) == Essential(known, scans')
    ensures SamePolls(Polls(known, scans, orders), Polls(known, scans', orders'))
    ensures Flatten(Polls(known, scans, orders)) == Emitted(known, scans, orders)
    ensures KnownAfter(known, scans) == KnownAfter(known, scans')
  {
    assert |orders| == |scans| && |orders'| == |scans'|;
    hide Polls, SamePolls, Orders, Essential, EssentialOrders, Emitted, KnownAfter, Flatten;
    StutterInvariance(known, scans, orders);
    StutterInvariance(known, scans', orders');
    EssentialPolls(known, scans, orders);
    EssentialPolls(known, scans', orders');
    OrdersIrrelevant(known, Essential(known, scans), EssentialOrders(known, scans, orders),
                     EssentialOrders(known, scans', orders'));
    PollsFlatten(known, scans, orders);
  }

  // ---------------------------------------------------------------- the code

  method Describe(name: string) returns (info: Option<DeviceInfo>)
    ensures info == Some(ExternalDisk(name))
  {
    AssumedInfoPasses(name);
    info := ParseDeviceInfo(name, ASSUMED_INFO);
  }

  lemma {:induction false} NamesConcat(a: seq<string>, b: seq<string>)
    ensures Names(a + b) == Names(a) + Names(b)
  {
    if a == [] {
      assert a + b == b;
    } else {
      NamesConcat(a[1..], b);
      ConsConcat(a, b);
      ConcatAssoc(Listing(a[0]), Names(a[1..]), Names(b));
    }
  }

  lemma {:induction false} NamesSnoc(lines: seq<string>, i: nat)
    requires i < |lines|
    ensures Names(lines[..i + 1]) == Names(lines[..i]) + Listing(lines[i])
  {
    assert lines[..i + 1] == lines[..i] + [lines[i]];
    NamesConcat(lines[..i], [lines[i]]);
    assert [lines[i]] + [] == [lines[i]];
  }

  /** The device records a one-off scan makes of a list of disks. */
  function Described(names: seq<string>): (devices: seq<DeviceInfo>)
    ensures |devices| == |names|
    ensures forall i :: 0 <= i < |names| ==> devices[i] == ExternalDisk(names[i])
  {
    if names == [] then [] else Described(names[..|names| - 1]) + [ExternalDisk(names[|names| - 1])]
  }

  method ScanLine(line: string, devices: seq<DeviceInfo>) returns (devices': seq<DeviceInfo>)
    ensures devices' == devices + Described(Listing(line))
  {
    devices' := devices;
    if StartsWith(line, DISK_PREFIX) {
      DiskLineNames(line);
      var info := Describe(DiskName(line));
      match info
      case Some(d) => devices' := devices' + [d];
      case None =>
    }
  }

  /** A one-off scan: every line that starts like a disk path yields a device. */
  method ScanDevices(text: string) returns (devices: seq<DeviceInfo>)
    ensures devices == Described(Names(Lines(text)))
  {
    var lines := Lines(text);
    devices := [];
    for i := 0 to |lines|
      invariant devices == Described(Names(lines[..i]))
    {
      devices := ScanLine(lines[i], devices);
      NamesSnoc(lines, i);
    }
    assert lines[..|lines|] == lines;
  }

  lemma {:induction false} InsertEventsConcat(known: set<string>, a: seq<string>, b: seq<string>)
    ensures InsertEvents(known, a + b) == InsertEvents(known, a) + InsertEvents(known, b)
    decreases a
  {
    if a == [] {
      assert a + b == b;
    } else {
      assert (a + b)[1..] == a[1..] + b;
      InsertEventsConcat(known, a[1..], b);
    }
  }

  /** What the poll does with one line. */
  method SeeLine(known: set<string>, line: string, current: set<string>, events: seq<UsbEvent>)
    returns (current': set<string>, events': seq<UsbEvent>)
    ensures current' == current + Members(Listing(line))
    ensures events' == events + InsertEvents(known, Listing(line))
  {
    current', events' := current, events;
    if StartsWith(line, DISK_PREFIX) {
      var name := DiskName(line);
      if name == "" { return; }
      current' := current' + {name};
      if name !in known {
        var info := Describe(name);
        match info
        case Some(d) => events' := events' + [Inserted(d)];
        case None =>
      }
    }
  }

  method SeeLines(known: set<string>, lines: seq<string>) returns (current: set<string>, events: seq<UsbEvent>)
    ensures current == Members(Names(lines))
    ensures events == InsertEvents(known, Names(lines))
  {
    current, events := {}, [];
    for i := 0 to |lines|
      invariant current == Members(Names(lines[..i]))
      invariant events == InsertEvents(known, Names(lines[..i]))
    {
      current, events := SeeLine(known, lines[i], current, events);
      NamesSnoc(lines, i);
      InsertEventsConcat(known, Names(lines[..i]), Listing(lines[i]));
    }
    assert lines[..|lines|] == lines;
  }

  /** The known disks that are gone, in whatever order the set yields them. */
  method SeeGone(known: set<string>, current: set<string>) returns (order: seq<string>, events: seq<UsbEvent>)
    ensures RemovalOrder(order, known, current)
    ensures events == RemoveEvents(order)
  {
    order, events := [], [];
    var todo := known;
    while todo != {}
      invariant todo <= known
      invariant Distinct(order) && Members(order) == (known - todo) - current
      invariant events == RemoveEvents(order)
      decreases |todo|
    {
      var gone :| gone in todo;
      order, events := SeeKnown(gone, current, order, events);
      todo := todo - {gone};
    }
  }

  method SeeKnown(gone: string, current: set<string>, order: seq<string>, events: seq<UsbEvent>)
    returns (order': seq<string>, events': seq<UsbEvent>)
    requires Distinct(order) && gone !in Members(order) && events == RemoveEvents(order)
    ensures Distinct(order') && Members(order') == Members(order) + if gone in current then {} else {gone}
    ensures events' == RemoveEvents(order')
  {
    order', events' := order, events;
    if gone !in current {
      RemoveEventsSnoc(order, gone);
      order', events' := order' + [gone], events' + [Removed(gone)];
    }
  }

  lemma {:induction false} RemoveEventsSnoc(order: seq<string>, x: string)
    ensures RemoveEvents(order + [x]) == RemoveEvents(order) + [Removed(x)]
  {
    if order == [] {
      assert order + [x] == [x];
    } else {
      assert (order + [x])[1..] == order[1..] + [x];
      RemoveEventsSnoc(order[1..], x);
    }
  }

  /** One successful poll: the lines in order, then the gone disks. */
  method Poll(known: set<string>, text: string)
    returns (current: set<string>, events: seq<UsbEvent>, order: seq<string>)
    ensures PollOrder(known, Output(text), order)
    ensures current == Next(known, Output(text))
    ensures events == PollEvents(known, Output(text), order)
  {
    var removals;
    current, events := SeeLines(known, Lines(text));
    order, removals := SeeGone(known, current);
    events := events + removals;
  }

  lemma {:induction false} RunSnoc(known: set<string>, scans: seq<Scan>, orders: seq<seq<string>>, scan: Scan,
      order: seq<string>)
    requires Orders(known, scans, orders) && PollOrder(KnownAfter(known, scans), scan, order)
    ensures Orders(known, scans + [scan], orders + [order])
    ensures Emitted(known, scans + [scan], orders + [order])
         == Emitted(known, scans, orders) + PollEvents(KnownAfter(known, scans), scan, order)
    ensures KnownAfter(known, scans + [scan]) == Next(KnownAfter(known, scans), scan)
    decreases scans
  {
    if scans == [] {
      assert scans + [scan] == [scan] + [] && orders + [order] == [order] + [];
    } else {
      var next := Next(known, scans[0]);
      RunSnoc(next, scans[1..], orders[1..], scan, order);
      RunSnocStep(known, scans, orders, scan, order);
      ConcatAssoc(PollEvents(known, scans[0], orders[0]), Emitted(next, scans[1..], orders[1..]),
            PollEvents(KnownAfter(known, scans), scan, order));
    }
  }

  lemma {:induction false} RunSnocStep(known: set<string>, scans: seq<Scan>, orders: seq<seq<string>>,
      scan: Scan, order: seq<string>)
    requires scans != [] && Orders(known, scans, orders)
    requires Orders(Next(known, scans[0]), scans[1..] + [scan], orders[1..] + [order])
    ensures Orders(known, scans + [scan], orders + [order])
    ensures Emitted(known, scans + [scan], orders + [order])
         == PollEvents(known, scans[0], orders[0]) + Emitted(Next(known, scans[0]), scans[1..] + [scan],
             orders[1..] + [order])
    ensures KnownAfter(known, scans + [scan]) == KnownAfter(Next(known, scans[0]), scans[1..] + [scan])
  {
    ConsConcat(scans, [scan]);
    ConsConcat(orders, [order]);
  }

  /** One turn of the polling loop: a failed scan is only logged. */
  method Turn(known: set<string>, scan: Scan) returns (known': set<string>, events: seq<UsbEvent>, order: seq<string>)
    ensures PollOrder(known, scan, order)
    ensures known' == Next(known, scan)
    ensures events == PollEvents(known, scan, order)
  {
    match scan
    case Output(text) => known', events, order := Poll(known, text);
    case Failed => known', events, order := known, [], [];
  }

  /** The loop's state after the first `i` scans. */
  ghost predicate Polled(scans: seq<Scan>, i: nat, known: set<string>, events: seq<UsbEvent>,
                         orders: seq<seq<string>>)
  {
    && i <= |scans| && |orders| == i
    && Orders({}, scans[..i], orders)
    && events == Emitted({}, scans[..i], orders)
    && known == KnownAfter({}, scans[..i])
  }

  lemma {:induction false} PolledMore(scans: seq<Scan>, i: nat, known: set<string>, events: seq<UsbEvent>,
      orders: seq<seq<string>>, order: seq<string>)
    requires Polled(scans, i, known, events, orders) && i < |scans| && PollOrder(known, scans[i], order)
    ensures Polled(scans, i + 1, Next(known, scans[i]), events + PollEvents(known, scans[i], order), orders + [order])
  {
    hide Orders, Emitted, KnownAfter, PollOrder, PollEvents, Next;
    RunSnoc({}, scans[..i], orders, scans[i], order);
    assert scans[..i + 1] == scans[..i] + [scans[i]];
  }

  lemma {:induction false} PolledAll(scans: seq<Scan>, known: set<string>, events: seq<UsbEvent>,
      orders: seq<seq<string>>)
    requires Polled(scans, |scans|, known, events, orders)
    ensures Orders({}, scans, orders) && |orders| == |scans| && events == Emitted({}, scans, orders)
  {
    assert scans[..|scans|] == scans;
  }

  /** The polling loop over an input trace of scans. */
  method Monitor(scans: seq<Scan>) returns (events: seq<UsbEvent>, orders: seq<seq<string>>)
    ensures Orders({}, scans, orders)
    ensures events == Emitted({}, scans, orders)
  {
    var known: set<string> := {};
    events, orders := [], [];
    assert Polled(scans, 0, known, events, orders);
    hide Polled, PollOrder, PollEvents, Next;
    for i := 0 to |scans|
      invariant Polled(scans, i, known, events, orders)
    {
      var sent, order;
      ghost var previous := known;
      known, sent, order := Turn(known, scans[i]);
      PolledMore(scans, i, previous, events, orders, order);
      events, orders := events + sent, orders + [order];
    }
    PolledAll(scans, known, events, orders);
  }

  /** The one-off scan and the monitor read the same ids out of the same text. */
  lemma {:induction false} ScanAgreesWithMonitor(text: string, known: set<string>)
    ensures (set d | d in Described(Names(Lines(text))) :: d.stableId) == Next(known, Output(text))
  {
    var names := Names(Lines(text));
    var devices := Described(names);
    forall n | n in names ensures exists d :: d in devices && d.stableId == n {
      var i :| 0 <= i < |names| && names[i] == n;
      assert devices[i].stableId == n;
    }
    forall d | d in devices ensures d.stableId in names {
      var i :| 0 <= i < |devices| && devices[i] == d;
      assert names[i] == d.stableId;
    }
  }
}
