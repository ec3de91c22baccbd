/**
 A world of pools and datasets that `zpool` and `zfs` answer questions about, column by column as
 the question names them, and what the daemon then makes of the answers.
 */
module Worlds {

  import opened Wrappers
  import opened Text
  import opened Commands
  import opened Tables
  import opened Tools
  import opened Intents
  import opened Pools
  import R = Requests
  import S = Responses
  import E = Encryption
  import D = Datasets

  /**
   The pools by name, what each shows in a column, the datasets below each name, and the text of
   each dataset's properties.
   */
  datatype World = World(
    pools: seq<string>,
    column: (string, string) -> string,
    below: string -> seq<string>,
    property: (string, string) -> string)

  function Cells(text: (string, string) -> string, name: string, columns: seq<string>): (row: seq<string>)
    ensures |row| == |columns|
    ensures forall i :: 0 <= i < |columns| ==> row[i] == text(name, columns[i])
  {
    seq(|columns|, i requires 0 <= i < |columns| => text(name, columns[i]))
  }

  function TableOf(text: (string, string) -> string, names: seq<string>, columns: seq<string>)
    : (rows: seq<seq<string>>)
    ensures |rows| == |names|
    ensures forall i :: 0 <= i < |names| ==> rows[i] == Cells(text, names[i], columns)
  {
    seq(|names|, i requires 0 <= i < |names| => Cells(text, names[i], columns))
  }

  predicate Question(action: Action) {
    action.ShowPools? || action.ShowDatasets? || action.ShowProperties?
  }

  /** The text that answers a question: rows and columns, or the values or pairs of some properties. */
  function Answer(world: World, action: Action): string
    requires Question(action)
  {
    match action
    case ShowPools(columns) => Unlines(PrintRows(TableOf(world.column, world.pools, columns)))
    case ShowDatasets(root, columns) => Unlines(PrintRows(TableOf(world.property, world.below(root), columns)))
    case ShowProperties(dataset, names, fields) =>
      if fields == ["value"] then Unlines(Cells(world.property, dataset, names))
      else if fields == ["property", "value"] then
        Unlines(E.LinesOf(E.Printed(name => world.property(dataset, name), names)))
      else ""
  }

  /** A question that was answered at all was answered from this world. */
  predicate Honest(world: World, e: Exchange) {
    var meaning := Meaning(e.call);
    Succeeded(e.reply) && meaning.Some? && Question(meaning.value) ==> e.reply.stdout == Answer(world, meaning.value)
  }

  predicate AllHonest(world: World, es: seq<Exchange>) {
    forall k :: 0 <= k < |es| ==> Honest(world, es[k])
  }

  // ---------------------------------------------------------------- worlds and records

  /** Text that fits into one cell of a table. */
  predicate Cell(text: string) {
    Free(text, '\t') && Free(text, '\n') && Free(text, '\r')
  }

  /** What the daemon wants to know about a pool. */
  function PoolFields(): seq<string> {
    ["name", "size", "allocated", "free", "health", "guid"]
  }

  /** What it wants to know about a dataset. */
  function DatasetFields(): seq<string> {
    ["name", "mountpoint", "mounted", "encryption", "compression", "recordsize", "quota"]
  }

  /** The world is about this dataset. */
  predicate HasDataset(show: Printer, world: World, d: DatasetInfo) {
    var text := (name: string) => world.property(d.name, name);
    && text("name") == d.name
    && ShowsText(text("mountpoint"), d.mountpoint, {"none", "-"})
    && (if d.mounted then text("mounted") == "yes" else text("mounted") in {"no", "-"})
    && (if d.encrypted then text("encryption") !in {"off", "-"} else text("encryption") in {"off", "-"})
    && ShowsText(text("compression"), d.compression, {"off", "-"})
    && d.recordsize.Some? && ShowsSize(show, text("recordsize"), d.recordsize.value)
    && ShowsQuota(show, text("quota"), d.quota)
    && (forall name :: name in DatasetFields() ==> Cell(text(name)))
  }

  /** The world is about this pool. */
  predicate HasPool(show: Printer, world: World, p: PoolInfo) {
    var text := (column: string) => world.column(p.name, column);
    && !CreatePool.IsOption(p.name)
    && text("name") == p.name && text("guid") == p.guid
    && ShowsSize(show, text("size"), p.sizeBytes)
    && ShowsSize(show, text("allocated"), p.allocatedBytes)
    && ShowsSize(show, text("free"), p.freeBytes)
    && ShowsHealth(text("health"), p.health)
    && (forall column :: column in PoolFields() ==> Cell(text(column)))
    && ShowsEncryption(world.property(p.name, "encryption"), p.encrypted)
    && ShowsMount(world.property(p.name, "mounted"), world.property(p.name, "mountpoint"),
                  MountInfo(p.mounted, p.mountpoint))
    && |world.below(p.name)| == |p.datasets|
    && (forall i :: 0 <= i < |p.datasets| ==>
         world.below(p.name)[i] == p.datasets[i].name && HasDataset(show, world, p.datasets[i]))
    && p.features == [] && p.version == ""
  }

  /** The world is about exactly these pools, in order. */
  predicate IsAbout(show: Printer, world: World, ps: seq<PoolInfo>) {
    |world.pools| == |ps| &&
    forall i :: 0 <= i < |ps| ==> world.pools[i] == ps[i].name && HasPool(show, world, ps[i])
  }

  // ---------------------------------------------------------------- the questions of a listing

  lemma {:induction false} SplitHalves(a: string, b: string, text: string)
    requires text == a + "," + b
    ensures Split(text, ',') == Split(a, ',') + Split(b, ',')
  {
    SplitConcat(a, ',', b);
  }

  lemma {:induction false} TwoColumns(a: string, b: string)
    requires Free(a, ',') && Free(b, ',')
    ensures Split(a + "," + b, ',') == [a, b]
  {
    SplitConcat(a, ',', b);
    SplitFree(a, ',');
    SplitFree(b, ',');
  }

  lemma {:induction false} ThreeColumns(a: string, b: string, c: string)
    requires Free(a, ',') && Free(b, ',') && Free(c, ',')
    ensures Split(a + "," + b + "," + c, ',') == [a, b, c]
  {
    SplitConcat(a + "," + b, ',', c);
    TwoColumns(a, b);
    SplitFree(c, ',');
  }

  lemma {:induction false} FirstPoolColumns()
    ensures Split("name,size,allocated", ',') == ["name", "size", "allocated"]
  {
    hide Split;
    ThreeColumns("name", "size", "allocated");
    assert "name" + "," + "size" + "," + "allocated" == "name,size,allocated";
  }

  lemma {:induction false} LastPoolColumns()
    ensures Split("free,health,guid", ',') == ["free", "health", "guid"]
  {
    hide Split;
    ThreeColumns("free", "health", "guid");
    assert "free" + "," + "health" + "," + "guid" == "free,health,guid";
  }

  lemma {:induction false} PoolColumns()
    ensures Split("name,size,allocated,free,health,guid", ',')
         == PoolFields()
  {
    hide Split;
    FirstPoolColumns();
    LastPoolColumns();
    SplitHalves("name,size,allocated", "free,health,guid", "name,size,allocated,free,health,guid");
  }

  lemma {:induction false} FirstDatasetColumns()
    ensures Split("name,mountpoint,mounted", ',') == ["name", "mountpoint", "mounted"]
  {
    hide Split;
    ThreeColumns("name", "mountpoint", "mounted");
    assert "name" + "," + "mountpoint" + "," + "mounted" == "name,mountpoint,mounted";
  }

  lemma {:induction false} MiddleDatasetColumns()
    ensures Split("encryption,compression", ',') == ["encryption", "compression"]
  {
    hide Split;
    TwoColumns("encryption", "compression");
    assert "encryption" + "," + "compression" == "encryption,compression";
  }

  lemma {:induction false} LastDatasetColumns()
    ensures Split("recordsize,quota", ',') == ["recordsize", "quota"]
  {
    hide Split;
    TwoColumns("recordsize", "quota");
    assert "recordsize" + "," + "quota" == "recordsize,quota";
  }

  lemma {:induction false} LaterDatasetColumns()
    ensures Split("encryption,compression,recordsize,quota", ',')
         == ["encryption", "compression", "recordsize", "quota"]
  {
    hide Split;
    MiddleDatasetColumns();
    LastDatasetColumns();
    SplitHalves("encryption,compression", "recordsize,quota", "encryption,compression,recordsize,quota");
  }

  lemma {:induction false} DatasetColumnsText()
    ensures "name,mountpoint,mounted" + "," + "encryption,compression,recordsize,quota"
         == "name,mountpoint,mounted,encryption,compression,recordsize,quota"
  {
  }

  lemma {:induction false} DatasetColumns()
    ensures Split("name,mountpoint,mounted,encryption,compression,recordsize,quota", ',')
         == DatasetFields()
  {
    hide Split;
    FirstDatasetColumns();
    LaterDatasetColumns();
    DatasetColumnsText();
    SplitConcat("name,mountpoint,mounted", ',', "encryption,compression,recordsize,quota");
  }

  lemma {:induction false} TableAsked()
    ensures Meaning(LIST_CALL) == Some(ShowPools(PoolFields()))
  {
    hide Meaning, Split;
    PoolColumns();
    TableMeans("name,size,allocated,free,health,guid");
  }

  lemma {:induction false} DatasetsAsked(name: string)
    requires !CreatePool.IsOption(name)
    ensures Meaning(DatasetsCall(name)) == Some(ShowDatasets(name,
      DatasetFields()))
  {
    hide Meaning, Split;
    DatasetColumns();
    ListingMeans("name,mountpoint,mounted,encryption,compression,recordsize,quota", name);
  }

  lemma {:induction false} EncryptionAsked(name: string)
    requires !CreatePool.IsOption(name)
    ensures Meaning(EncryptionCall(name)) == Some(ShowProperties(name, ["encryption"], ["value"]))
  {
    hide Meaning, Split;
    OneWord("encryption");
    OneWord("value");
    GetMeans("encryption", name, "value");
  }

  lemma {:induction false} MountAsked(name: string)
    requires !CreatePool.IsOption(name)
    ensures Meaning(MountInfoCall(name)) == Some(ShowProperties(name, ["mounted", "mountpoint"], ["value"]))
  {
    hide Meaning, Split;
    TwoColumns("mounted", "mountpoint");
    assert "mounted" + "," + "mountpoint" == "mounted,mountpoint";
    OneWord("value");
    GetMeans("mounted,mountpoint", name, "value");
  }

  // ---------------------------------------------------------------- a listing of the world

  /** A pool as far as the three questions about it were answered. */
  function Seen(p: PoolInfo, encryption: Reply, mount: Reply, datasets: Reply): PoolInfo {
    p.(encrypted := Succeeded(encryption) && p.encrypted,
       mounted := Succeeded(mount) && p.mounted,
       mountpoint := if Succeeded(mount) then p.mountpoint else None,
       datasets := if Succeeded(datasets) then p.datasets else [])
  }

  function AllSeen(ps: seq<PoolInfo>, es: seq<Exchange>): (seen: seq<PoolInfo>)
    requires |es| == 1 + 3 * |ps|
    ensures |seen| == |ps|
    ensures forall i :: 0 <= i < |ps| ==>
      seen[i] == Seen(ps[i], es[3 * i + 1].reply, es[3 * i + 2].reply, es[3 * i + 3].reply)
  {
    seq(|ps|, i requires 0 <= i < |ps| => Seen(ps[i], es[3 * i + 1].reply, es[3 * i + 2].reply, es[3 * i + 3].reply))
  }

  lemma {:induction false} PoolRowShown(show: Printer, world: World, p: PoolInfo)
    requires HasPool(show, world, p)
    ensures var row := Cells(world.column, p.name, PoolFields());
      ShowsPool(show, row, RowOf(p)) && CleanRow(row)
  {
    hide ShowsSize, ShowsHealth, HasDataset, ShowsEncryption, ShowsMount;
    var columns := PoolFields();
    var row := Cells(world.column, p.name, columns);
    forall i | 0 <= i < 6 ensures Cell(row[i]) { assert columns[i] in PoolFields(); }
  }

  lemma {:induction false} TableShown(show: Printer, world: World, ps: seq<PoolInfo>)
    requires IsAbout(show, world, ps)
    ensures ShowsPools(show, TableOf(world.column, world.pools, PoolFields()),
                       RowsOf(ps))
  {
    hide HasPool, ShowsPool, CleanRow, RowOf;
    forall i | 0 <= i < |ps|
      ensures var row := Cells(world.column, ps[i].name, PoolFields());
        ShowsPool(show, row, RowOf(ps[i])) && CleanRow(row)
    {
      PoolRowShown(show, world, ps[i]);
    }
  }

  lemma {:induction false} DatasetRowShown(show: Printer, world: World, d: DatasetInfo)
    requires HasDataset(show, world, d)
    ensures var row := Cells(world.property, d.name,
        DatasetFields());
      ShowsDataset(show, row, d) && CleanRow(row)
  {
    hide ShowsSize, ShowsQuota, ShowsText;
    var columns := DatasetFields();
    var row := Cells(world.property, d.name, columns);
    forall i | 0 <= i < 7 ensures Cell(row[i]) { assert columns[i] in DatasetFields(); }
  }

  lemma {:induction false} DatasetsShown(show: Printer, world: World, p: PoolInfo)
    requires HasPool(show, world, p)
    ensures ShowsDatasets(show, TableOf(world.property, world.below(p.name),
      DatasetFields()), p.datasets)
  {
    hide HasDataset, ShowsDataset, CleanRow, ShowsSize, ShowsHealth, ShowsEncryption, ShowsMount;
    forall i | 0 <= i < |p.datasets|
      ensures var row := Cells(world.property, p.datasets[i].name,
          DatasetFields());
        ShowsDataset(show, row, p.datasets[i]) && CleanRow(row)
    {
      DatasetRowShown(show, world, p.datasets[i]);
    }
  }

  lemma {:induction false} EncryptionTold(show: Printer, world: World, p: PoolInfo, e: Exchange)
    requires HasPool(show, world, p) && Honest(world, e) && e.call == EncryptionCall(p.name) && Succeeded(e.reply)
    ensures TellsEncryption(e.reply, world.property(p.name, "encryption"), p)
  {
    EncryptionAsked(p.name);
    var text := world.property(p.name, "encryption");
    assert Cells(world.property, p.name, ["encryption"]) == [text];
    hide Meaning, ShowsEncryption, ShowsMount, HasDataset, ShowsSize, ShowsHealth;
    assert Unlines([text]) == text + "\n" by { OneUnline(text); }
  }

  lemma {:induction false} OneUnline(text: string)
    ensures Unlines([text]) == text + "\n"
  {
    assert [text][1..] == [];
  }

  lemma {:induction false} MountTold(show: Printer, world: World, p: PoolInfo, e: Exchange)
    requires HasPool(show, world, p) && Honest(world, e) && e.call == MountInfoCall(p.name) && Succeeded(e.reply)
    ensures TellsMount(e.reply, world.property(p.name, "mounted"), world.property(p.name, "mountpoint"), p)
  {
    MountAsked(p.name);
    assert Cells(world.property, p.name, ["mounted", "mountpoint"])
        == [world.property(p.name, "mounted"), world.property(p.name, "mountpoint")];
    hide Meaning, ShowsEncryption, ShowsMount, HasDataset, ShowsSize, ShowsHealth, Unlines;
  }

  lemma {:induction false} HonestAnswer(world: World, e: Exchange, action: Action)
    requires Honest(world, e) && Succeeded(e.reply) && Meaning(e.call) == Some(action) && Question(action)
    ensures e.reply.stdout == Answer(world, action)
  {
    hide Meaning, Answer;
  }

  lemma {:induction false} DatasetsAnswer(world: World, root: string, columns: seq<string>)
    ensures Answer(world, ShowDatasets(root, columns))
         == Unlines(PrintRows(TableOf(world.property, world.below(root), columns)))
  {
  }

  lemma {:induction false} PlainName(show: Printer, world: World, p: PoolInfo)
    requires HasPool(show, world, p)
    ensures !CreatePool.IsOption(p.name)
  {
    hide HasDataset, ShowsEncryption, ShowsMount, ShowsHealth, ShowsSize;
  }

  lemma {:induction false} DatasetsTold(show: Printer, world: World, p: PoolInfo, e: Exchange)
    requires HasPool(show, world, p) && Honest(world, e) && e.call == DatasetsCall(p.name) && Succeeded(e.reply)
    ensures TellsDatasets(show, e.reply, TableOf(world.property, world.below(p.name), DatasetFields()), p)
  {
    DatasetsShown(show, world, p);
    PlainName(show, world, p);
    hide Meaning, HasPool, Honest, ShowsDatasets, Unlines, PrintRows, DatasetFields, TableOf, Answer, DatasetsCall;
    DatasetsAsked(p.name);
    HonestAnswer(world, e, ShowDatasets(p.name, DatasetFields()));
    DatasetsAnswer(world, p.name, DatasetFields());
  }

  lemma {:induction false} PoolDescribed(show: Printer, world: World, p: PoolInfo, a: Exchange, b: Exchange,
      c: Exchange)
    requires HasPool(show, world, p) && Honest(world, a) && Honest(world, b) && Honest(world, c)
    requires a.call == EncryptionCall(p.name) && b.call == MountInfoCall(p.name) && c.call == DatasetsCall(p.name)
    ensures Describes(show, Seen(p, a.reply, b.reply, c.reply), a.reply, b.reply, c.reply)
  {
    var seen := Seen(p, a.reply, b.reply, c.reply);
    assert p.features == [] && p.version == "";
    hide HasPool, Honest, TellsEncryption, TellsMount, TellsDatasets, Succeeded;
    if Succeeded(a.reply) {
      EncryptionTold(show, world, p, a);
      SeenEncryption(p, seen, a.reply, world.property(p.name, "encryption"));
    }
    if Succeeded(b.reply) {
      MountTold(show, world, p, b);
      SeenMount(p, seen, b.reply, world.property(p.name, "mounted"), world.property(p.name, "mountpoint"));
    }
    if Succeeded(c.reply) {
      DatasetsTold(show, world, p, c);
      SeenDatasets(show, p, seen, c.reply, TableOf(world.property, world.below(p.name),
        DatasetFields()));
    }
  }

  lemma {:induction false} SeenEncryption(p: PoolInfo, q: PoolInfo, reply: Reply, text: string)
    requires TellsEncryption(reply, text, p) && q.encrypted == p.encrypted
    ensures TellsEncryption(reply, text, q)
  {
  }

  lemma {:induction false} SeenMount(p: PoolInfo, q: PoolInfo, reply: Reply, mounted: string, mountpoint: string)
    requires TellsMount(reply, mounted, mountpoint, p) && q.mounted == p.mounted && q.mountpoint == p.mountpoint
    ensures TellsMount(reply, mounted, mountpoint, q)
  {
  }

  lemma {:induction false} SeenDatasets(show: Printer, p: PoolInfo, q: PoolInfo, reply: Reply, rows: seq<seq<string>>)
    requires TellsDatasets(show, reply, rows, p) && q.datasets == p.datasets
    ensures TellsDatasets(show, reply, rows, q)
  {
  }

  lemma {:induction false} TableHonest(show: Printer, world: World, e: Exchange, ps: seq<PoolInfo>)
    requires IsAbout(show, world, ps) && Honest(world, e) && e.call == LIST_CALL && Succeeded(e.reply)
    ensures var rows := TableOf(world.column, world.pools, PoolFields());
      e.reply.stdout == Unlines(PrintRows(rows)) && ShowsPools(show, rows, RowsOf(ps))
  {
    TableAsked();
    TableShown(show, world, ps);
    hide Meaning, IsAbout, Unlines, PrintRows, ShowsPools;
  }

  lemma {:induction false} EnquiryAt(es: seq<Exchange>, ps: seq<PoolInfo>, i: nat, j: nat)
    requires Follows(ListPoolsScript(), es) && |es| == 1 + 3 * |ps| && i < |ps| && j < 3
    requires Succeeded(es[0].reply) && PoolTable(es[0].reply.stdout) == RowsOf(ps)
    ensures es[3 * i + j + 1].call == Enquiry(j, ps[i].name)
  {
    hide PoolTable, ListPoolsScript, Enquiry;
    ListPoolsNext(es, 3 * i + j + 1);
    assert (3 * i + j) / 3 == i && (3 * i + j) % 3 == j;
  }

  lemma {:induction false} EnquiriesAre(name: string)
    ensures Enquiry(0, name) == EncryptionCall(name) && Enquiry(1, name) == MountInfoCall(name)
    ensures Enquiry(2, name) == DatasetsCall(name)
  {
    hide EncryptionCall, MountInfoCall, DatasetsCall;
  }

  lemma {:induction false} AboutAt(show: Printer, world: World, ps: seq<PoolInfo>, i: nat)
    requires IsAbout(show, world, ps) && i < |ps|
    ensures HasPool(show, world, ps[i])
  {
    hide HasPool;
  }

  lemma {:induction false} HonestAt(world: World, es: seq<Exchange>, k: nat)
    requires AllHonest(world, es) && k < |es|
    ensures Honest(world, es[k])
  {
    hide Honest;
  }

  lemma {:induction false} PoolAsked(show: Printer, world: World, es: seq<Exchange>, ps: seq<PoolInfo>, i: nat)
    requires IsAbout(show, world, ps) && AllHonest(world, es) && i < |ps|
    requires Follows(ListPoolsScript(), es) && |es| == 1 + 3 * |ps|
    requires Succeeded(es[0].reply) && PoolTable(es[0].reply.stdout) == RowsOf(ps)
    ensures Describes(show, AllSeen(ps, es)[i], es[3 * i + 1].reply, es[3 * i + 2].reply, es[3 * i + 3].reply)
  {
    hide *;
    EnquiryAt(es, ps, i, 0);
    EnquiryAt(es, ps, i, 1);
    EnquiryAt(es, ps, i, 2);
    EnquiriesAre(ps[i].name);
    AboutAt(show, world, ps, i);
    HonestAt(world, es, 3 * i + 1);
    HonestAt(world, es, 3 * i + 2);
    HonestAt(world, es, 3 * i + 3);
    PoolDescribed(show, world, ps[i], es[3 * i + 1], es[3 * i + 2], es[3 * i + 3]);
  }

  /**
   Listing against a world: when the table is had and every answer given is given from the world,
   the client receives exactly the world's pools, in order and with every field, but for what a
   failed question would have told.
   */
  lemma {:induction false} ListingIsTheWorld(show: Printer, world: World, ps: seq<PoolInfo>, es: seq<Exchange>,
      response: R.Response)
    requires Conversation(R.RequestScript(R.ListPools), es, response)
    requires IsAbout(show, world, ps) && AllHonest(world, es) && es != [] && Succeeded(es[0].reply)
    ensures |es| == 1 + 3 * |ps| && response == R.PoolList(AllSeen(ps, es))
  {
    hide *;
    S.ListPoolsAnswered(es, response);
    ListedWorld(show, world, ps, es, response);
  }

  lemma {:induction false} ListedWorld(show: Printer, world: World, ps: seq<PoolInfo>, es: seq<Exchange>,
      response: R.Response)
    requires S.TellsPools(es, response)
    requires IsAbout(show, world, ps) && AllHonest(world, es) && es != [] && Succeeded(es[0].reply)
    ensures |es| == 1 + 3 * |ps| && response == R.PoolList(AllSeen(ps, es))
  {
    hide IsAbout, Honest, PoolTable, ListPoolsScript, Follows, Describes, ShowsPools, Unlines, PrintRows, AllSeen, Seen;
    var pools := response.pools;
    var rows := TableOf(world.column, world.pools, PoolFields());
    ListPoolsCount(es, Ok(pools));
    ListPoolsFirst(es);
    TableHonest(show, world, es[0], ps);
    PoolsPrinted(show, rows, RowsOf(ps));
    forall i | 0 <= i < |ps|
      ensures Describes(show, AllSeen(ps, es)[i], es[3 * i + 1].reply, es[3 * i + 2].reply, es[3 * i + 3].reply)
    {
      PoolAsked(show, world, es, ps, i);
    }
    SameRows(ps, es);
    ListingReadBack(show, es, Ok(pools), rows, AllSeen(ps, es));
  }

  lemma {:induction false} SameRows(ps: seq<PoolInfo>, es: seq<Exchange>)
    requires |es| == 1 + 3 * |ps|
    ensures RowsOf(AllSeen(ps, es)) == RowsOf(ps)
  {
  }

  // ---------------------------------------------------------------- single answers

  lemma {:induction false} MountpointHonest(world: World, dataset: string, e: Exchange)
    requires e.call == S.MountpointQuery(dataset) && !CreatePool.IsOption(dataset)
    requires Honest(world, e) && Succeeded(e.reply)
    ensures e.reply.stdout == world.property(dataset, "mountpoint") + "\n"
  {
    MountpointMeans(dataset);
    assert e.call == D.MountpointCall(dataset);
    var text := world.property(dataset, "mountpoint");
    assert Cells(world.property, dataset, ["mountpoint"]) == [text];
    hide Meaning;
    OneUnline(text);
  }

  /** A mount that is answered from a world reports where the dataset is mounted in it. */
  lemma {:induction false} MountIsTheWorld(world: World, request: R.Request, es: seq<Exchange>, response: R.Response)
    requires request.Mount? && Conversation(R.RequestScript(request), es, response) && response.Success?
    requires es != [] && Honest(world, es[|es| - 1]) && Succeeded(es[|es| - 1].reply)
    requires !CreatePool.IsOption(request.dataset)
    requires var text := world.property(request.dataset, "mountpoint"); Trimmed(text) && Clean(text)
    ensures var text := world.property(request.dataset, "mountpoint");
      response == R.Success(R.Mounted(request.dataset, if text in {"none", "-"} then "/" + request.dataset else text))
  {
    var text := world.property(request.dataset, "mountpoint");
    TrimOfTrimmed(text);
    TrimSnoc(text, '\n');
    hide R.RequestScript, Conversation, Honest, Trim, S.AllGood, S.MountpointQuery, S.Complaint;
    S.ResponsesTellTheTruth(request, es, response);
    MountpointHonest(world, request.dataset, es[|es| - 1]);
  }

  lemma {:induction false} KeyStatusAsked(dataset: string)
    requires !CreatePool.IsOption(dataset)
    ensures Meaning(E.KeyStatusCall(dataset)) == Some(ShowProperties(dataset, ["keystatus"], ["value"]))
  {
    hide Meaning, Split;
    OneWord("keystatus");
    OneWord("value");
    GetMeans("keystatus", dataset, "value");
  }

  lemma {:induction false} KeyStatusHonest(world: World, dataset: string, e: Exchange)
    requires e.call == E.KeyStatusCall(dataset) && !CreatePool.IsOption(dataset)
    requires Honest(world, e) && Succeeded(e.reply)
    ensures e.reply.stdout == world.property(dataset, "keystatus") + "\n"
  {
    KeyStatusAsked(dataset);
    var text := world.property(dataset, "keystatus");
    assert Cells(world.property, dataset, ["keystatus"]) == [text];
    hide Meaning;
    OneUnline(text);
  }

  /** The status query, answered from a world, finds the key status it has; a failed one finds none. */
  lemma {:induction false} KeyStatusIsTheWorld(world: World, dataset: string, e: Exchange, status: E.KeyStatus)
    requires e.call == E.KeyStatusCall(dataset) && !CreatePool.IsOption(dataset)
    requires Honest(world, e) && e.reply.Ran?
    requires var text := world.property(dataset, "keystatus");
      Trimmed(text) && Clean(text) && E.ShowsKey(text, status)
    ensures E.KeyStatusIn(e.reply) == Ok(if e.reply.success then status else E.UnknownKey)
  {
    var text := world.property(dataset, "keystatus");
    TrimOfTrimmed(text);
    TrimSnoc(text, '\n');
    hide Honest, Trim;
    if e.reply.success { KeyStatusHonest(world, dataset, e); }
  }

  lemma {:induction false} PropertyColumns()
    ensures Split("encryption,keyformat,keylocation,keystatus,pbkdf2iters", ',')
         == ["encryption", "keyformat", "keylocation", "keystatus", "pbkdf2iters"]
  {
    hide Split;
    KeyColumns();
    LastKeyColumns();
    PropertyColumnsText();
    SplitConcat("encryption,keyformat,keylocation", ',', "keystatus,pbkdf2iters");
  }

  lemma {:induction false} KeyColumns()
    ensures Split("encryption,keyformat,keylocation", ',') == ["encryption", "keyformat", "keylocation"]
  {
    hide Split;
    ThreeColumns("encryption", "keyformat", "keylocation");
    assert "encryption" + "," + "keyformat" + "," + "keylocation" == "encryption,keyformat,keylocation";
  }

  lemma {:induction false} LastKeyColumns()
    ensures Split("keystatus,pbkdf2iters", ',') == ["keystatus", "pbkdf2iters"]
  {
    hide Split;
    TwoColumns("keystatus", "pbkdf2iters");
    assert "keystatus" + "," + "pbkdf2iters" == "keystatus,pbkdf2iters";
  }

  lemma {:induction false} PropertyColumnsText()
    ensures "encryption,keyformat,keylocation" + "," + "keystatus,pbkdf2iters"
         == "encryption,keyformat,keylocation,keystatus,pbkdf2iters"
  {
  }

  lemma {:induction false} KeyNamesPlain()
    ensures !CreatePool.IsOption("encryption,keyformat,keylocation,keystatus,pbkdf2iters")
  {
    PropertyColumnsText();
    var first := "encryption,keyformat,keylocation";
    assert first == "encryption" + "," + "keyformat" + "," + "keylocation";
    assert first[0] == "encryption"[0];
    assert (first + "," + "keystatus,pbkdf2iters")[0] == first[0];
  }

  lemma {:induction false} PropsAsked(dataset: string)
    requires !CreatePool.IsOption(dataset)
    ensures Meaning(E.PropsCall(dataset)) == Some(ShowProperties(dataset,
      ["encryption", "keyformat", "keylocation", "keystatus", "pbkdf2iters"], ["property", "value"]))
  {
    hide Meaning, Split;
    PropertyColumns();
    TwoColumns("property", "value");
    assert "property" + "," + "value" == "property,value";
    KeyNamesPlain();
    GetMeans("encryption,keyformat,keylocation,keystatus,pbkdf2iters", dataset, "property,value");
  }

  lemma {:induction false} PropsHonest(world: World, dataset: string, e: Exchange)
    requires e.call == E.PropsCall(dataset) && !CreatePool.IsOption(dataset)
    requires Honest(world, e) && Succeeded(e.reply)
    ensures e.reply.stdout == Unlines(E.LinesOf(E.Printed(name => world.property(dataset, name),
      ["encryption", "keyformat", "keylocation", "keystatus", "pbkdf2iters"])))
  {
    PropsAsked(dataset);
    hide Meaning, E.LinesOf, E.Printed, Unlines;
  }

  /**
   The property listing, answered from a world, finds the encryption properties it has; a failed
   one finds none.
   */
  lemma {:induction false} PropsAreTheWorld(world: World, dataset: string, e: Exchange, props: E.EncryptionProps)
    requires e.call == E.PropsCall(dataset) && !CreatePool.IsOption(dataset)
    requires Honest(world, e) && e.reply.Ran?
    requires var value := (name: string) => world.property(dataset, name);
      E.ShowsProps(value, props) &&
      forall name :: name in E.KNOWN ==> E.PlainProperty(E.Property(name, value(name)))
    ensures E.PropsIn(e.reply) == Ok(if e.reply.success then props
                                     else E.EncryptionProps(None, None, None, E.UnknownKey, None))
  {
    var names := ["encryption", "keyformat", "keylocation", "keystatus", "pbkdf2iters"];
    var value := (name: string) => world.property(dataset, name);
    hide Honest, E.PlainProperty, E.ShowsProps, E.PropsOf, E.LinesOf, E.Printed, Lines, Unlines;
    if e.reply.success {
      PropsHonest(world, dataset, e);
      E.PropsPrinted(value, names, props);
    }
  }
}
