/** Pool management: the commands each operation issues and what it makes of their output. */
module Pools {

  import opened Wrappers
  import opened Text
  import opened Tables
  import opened Commands
  import opened CreatePool

  datatype PoolInfo = PoolInfo(
    name: string,
    guid: string,
    health: PoolHealth,
    sizeBytes: nat,
    allocatedBytes: nat,
    freeBytes: nat,
    encrypted: bool,
    mounted: bool,
    mountpoint: Option<string>,
    datasets: seq<DatasetInfo>,
    features: seq<string>,
    version: string)

  // ---------------------------------------------------------------- calls

  function DeviceArgs(device: Option<string>): seq<string> {
    match device case None => [] case Some(path) => ["-d", path]
  }

  function ImportCall(name: string, device: Option<string>): Call {
    Call("zpool", ["import"] + DeviceArgs(device) + [name], None)
  }

  function SearchCall(device: Option<string>): Call {
    Call("zpool", ["import", "-N"] + DeviceArgs(device), None)
  }

  function ExportCall(name: string, force: bool): Call {
    Call("zpool", ["export"] + (if force then ["-f"] else []) + [name], None)
  }

  function CreateCall(name: string, device: string, passphrase: string, options: PoolCreationOptions): Call {
    Call("zpool", Argv(name, device, options), Some(passphrase))
  }

  const LIST_CALL := Call("zpool", ["list", "-H", "-o", "name,size,allocated,free,health,guid"], None)

  function EncryptionCall(name: string): Call {
    Call("zfs", ["get", "-H", "-o", "value", "encryption", name], None)
  }

  function MountInfoCall(name: string): Call {
    Call("zfs", ["get", "-H", "-o", "value", "mounted,mountpoint", name], None)
  }

  function DatasetsCall(name: string): Call {
    Call("zfs", ["list", "-H", "-r", "-o", "name,mountpoint,mounted,encryption,compression,recordsize,quota",
        name], None)
  }

  // ---------------------------------------------------------------- scripts

  function ImportPoolScript(name: string, device: Option<string>): Script<Result<(), string>> {
    Once(ImportCall(name, device), "zpool import failed")
  }

  function ExportPoolScript(name: string, force: bool): Script<Result<(), string>> {
    Once(ExportCall(name, force), "zpool export failed")
  }

  function CreatePoolScript(name: string, device: string, passphrase: string, options: PoolCreationOptions)
    : Script<Result<(), string>>
  {
    Once(CreateCall(name, device, passphrase, options), "Pool creation failed")
  }

  /** Whether a value of the encryption property means an encrypted pool. */
  predicate IsEncryptedValue(text: string) {
    var value := Trim(text);
    value != "off" && value != "" && value != "-" && !StartsWith(value, "cannot")
  }

  function EncryptedIn(reply: Reply): bool {
    Succeeded(reply) && IsEncryptedValue(reply.stdout)
  }

  function MountInfoIn(reply: Reply): MountInfo {
    if Succeeded(reply) then ReadMountInfo(reply.stdout) else MountInfo(false, None)
  }

  function DatasetsIn(reply: Reply): seq<DatasetInfo> {
    if Succeeded(reply) then DatasetTable(reply.stdout) else []
  }

  /** The second, third and fourth questions about a pool. */
  function Enquiry(k: nat, name: string): Call {
    if k == 0 then EncryptionCall(name) else if k == 1 then MountInfoCall(name) else DatasetsCall(name)
  }

  /** One pool's record from its row and the three answers about it. */
  function PoolFrom(row: PoolRow, encrypted: bool, mount: MountInfo, datasets: seq<DatasetInfo>): PoolInfo {
    PoolInfo(row.name, row.guid, row.health, row.size, row.used, row.free,
             encrypted, mount.mounted, mount.mountpoint, datasets, [], "")
  }

  function PoolAt(rows: seq<PoolRow>, answers: seq<Reply>, i: nat): PoolInfo
    requires i < |rows| && 3 * i + 2 < |answers|
  {
    PoolFrom(rows[i], EncryptedIn(answers[3 * i]), MountInfoIn(answers[3 * i + 1]), DatasetsIn(answers[3 * i + 2]))
  }

  function PoolsFrom(rows: seq<PoolRow>, answers: seq<Reply>): (pools: seq<PoolInfo>)
    requires 3 * |rows| <= |answers|
    ensures |pools| == |rows|
  {
    seq(|rows|, i requires 0 <= i < |rows| => PoolAt(rows, answers, i))
  }

  /** What listing the pools does after the table: three questions a row, then the records. */
  function SurveyStep(rows: seq<PoolRow>, answers: seq<Reply>): Step<Result<seq<PoolInfo>, string>> {
    var n := |answers|;
    if n < 3 * |rows| then Issue(Enquiry(n % 3, rows[n / 3].name)) else Finish(Ok(PoolsFrom(rows, answers)))
  }

  function ListPoolsScript(): Script<Result<seq<PoolInfo>, string>> {
    (replies: seq<Reply>) =>
      if replies == [] then Issue(LIST_CALL)
      else match Checked("zpool list failed")(replies[0])
        case Err(e) => Finish(Err(e))
        case Ok(stdout) => SurveyStep(PoolTable(stdout), replies[1..])
  }

  /** The rest of a line after its `pool: ` label, if it has one. */
  function PoolName(line: string): Option<string> {
    if StartsWith(Trim(line), "pool: ") then Some(Trim(line)[6..]) else None
  }

  function PoolNames(ls: seq<string>): seq<string> {
    if ls == [] then []
    else (if PoolName(ls[0]).Some? then [PoolName(ls[0]).value] else []) + PoolNames(ls[1..])
  }

  /** The exit status of the search is not looked at. */
  function FindImportableScript(device: Option<string>): Script<Result<seq<string>, string>> {
    (replies: seq<Reply>) =>
      if replies == [] then Issue(SearchCall(device))
      else match replies[0]
        case Failed(e) => Finish(Err(e))
        case Ran(stdout, _, _) => Finish(Ok(PoolNames(Lines(stdout))))
  }

  /** A search is one command; its exit status is not looked at. */
  lemma {:induction false} SearchConversation(device: Option<string>, es: seq<Exchange>,
      outcome: Result<seq<string>, string>)
    ensures Conversation(FindImportableScript(device), es, outcome) <==>
      && |es| == 1 && es[0].call == SearchCall(device)
      && outcome == match es[0].reply case Failed(e) => Err(e) case Ran(stdout, _, _) => Ok(PoolNames(Lines(stdout)))
  {
    var script := FindImportableScript(device);
    hide SearchCall, PoolNames, Lines;
    if es != [] {
      FollowsFirst(script, es[0]);
      FollowsAt(script, es, 0);
      if |es| > 1 {
        FollowsAt(script, es, 1);
        assert Replies(es[..1])[0] == es[0].reply;
      } else {
        assert es == [es[0]];
        assert Replies(es)[0] == es[0].reply;
      }
    }
  }

  /** A report as the search prints it: each pool's name under a label, amid other lines. */
  datatype ReportLine = Label(indent: string, name: string) | OtherLine(text: string)
  {
    function Text(): string {
      match this case Label(indent, name) => indent + ("pool: " + name) case OtherLine(text) => text
    }

    /** One line, of the kind it says. */
    predicate Valid() {
      Clean(Text()) &&
      match this
      case Label(indent, name) =>
        (forall i :: 0 <= i < |indent| ==> IsWhitespace(indent[i])) && name != "" && !IsWhitespace(name[|name| - 1])
      case OtherLine(text) => !StartsWith(Trim(text), "pool: ")
    }
  }

  function Labels(report: seq<ReportLine>): seq<string> {
    if report == [] then []
    else (if report[0].Label? then [report[0].name] else []) + Labels(report[1..])
  }

  function ReportLines(report: seq<ReportLine>): seq<string> {
    if report == [] then [] else [report[0].Text()] + ReportLines(report[1..])
  }

  lemma {:induction false} TrimStartIndent(indent: string, s: string)
    requires forall i :: 0 <= i < |indent| ==> IsWhitespace(indent[i])
    requires s != "" && !IsWhitespace(s[0])
    ensures TrimStart(indent + s) == s
  {
    if indent == "" {
      assert indent + s == s;
    } else {
      assert (indent + s)[1..] == indent[1..] + s;
      TrimStartIndent(indent[1..], s);
    }
  }

  lemma {:induction false} LabelRead(line: ReportLine)
    requires line.Valid()
    ensures PoolName(line.Text()) == if line.Label? then Some(line.name) else None
  {
    if line.Label? {
      var s := "pool: " + line.name;
      assert s[|s| - 1] == line.name[|line.name| - 1];
      TrimStartIndent(line.indent, s);
      assert s[6..] == line.name;
    }
  }

  lemma {:induction false} LabelsIn(report: seq<ReportLine>)
    requires forall i :: 0 <= i < |report| ==> report[i].Valid()
    ensures PoolNames(ReportLines(report)) == Labels(report)
    ensures forall line :: line in ReportLines(report) ==> Clean(line)
  {
    hide PoolName;
    if report != [] {
      assert report[0].Valid();
      LabelRead(report[0]);
      LabelsIn(report[1..]);
      assert ReportLines(report)[1..] == ReportLines(report[1..]);
    }
  }

  /** The names found in the text of a report are exactly the labelled ones, in order. */
  lemma {:induction false} LabelsFound(report: seq<ReportLine>)
    requires forall i :: 0 <= i < |report| ==> report[i].Valid()
    ensures PoolNames(Lines(Unlines(ReportLines(report)))) == Labels(report)
  {
    LabelsIn(report);
    LinesOfUnlines(ReportLines(report));
  }

  // ---------------------------------------------------------------- what listing asks

  /** A command that only lists or reads properties. */
  predicate ReadOnly(call: Call) {
    |call.args| > 0 && call.args[0] in {"list", "get"}
  }

  lemma {:induction false} ListPoolsApplied(replies: seq<Reply>)
    requires replies != []
    ensures ListPoolsScript()(replies) ==
      if Succeeded(replies[0]) then SurveyStep(PoolTable(replies[0].stdout), replies[1..])
      else Finish(Err(Checked("zpool list failed")(replies[0]).error))
  {
    hide PoolTable, SurveyStep;
    CheckedIs("zpool list failed", replies[0]);
    if Succeeded(replies[0]) {
      assert ListPoolsScript()(replies) == SurveyStep(PoolTable(replies[0].stdout), replies[1..]);
    } else {
      assert ListPoolsScript()(replies) == Finish(Err(Checked("zpool list failed")(replies[0]).error));
    }
  }

  lemma {:induction false} ListPoolsFirst(es: seq<Exchange>)
    requires Follows(ListPoolsScript(), es) && es != []
    ensures es[0].call == LIST_CALL
  {
    FollowsPrefix(ListPoolsScript(), es, 0);
    assert Replies(es[..0]) == [];
  }

  lemma {:induction false} ListPoolsNext(es: seq<Exchange>, k: nat)
    requires Follows(ListPoolsScript(), es) && 0 < k < |es|
    ensures Succeeded(es[0].reply)
    ensures var rows := PoolTable(es[0].reply.stdout);
      k - 1 < 3 * |rows| && es[k].call == Enquiry((k - 1) % 3, rows[(k - 1) / 3].name)
  {
    FollowsPrefix(ListPoolsScript(), es, k);
    var replies := Replies(es[..k]);
    ListPoolsApplied(replies);
    hide PoolTable, ListPoolsScript, Enquiry, Checked, Follows;
    assert replies[0] == es[0].reply;
    assert |replies[1..]| == k - 1;
  }

  /** Every command that listing issues only reads, whatever the answers. */
  lemma {:induction false} ListPoolsReads(es: seq<Exchange>, k: nat)
    requires Follows(ListPoolsScript(), es) && k < |es|
    ensures ReadOnly(es[k].call) && es[k].call.stdin.None?
  {
    if k == 0 {
      ListPoolsFirst(es);
    } else {
      ListPoolsNext(es, k);
    }
  }

  /**
   A listing that succeeds has issued one command for the table and exactly three for each
   accepted row; one that fails has issued the first alone.
   */
  lemma {:induction false} ListPoolsCount(es: seq<Exchange>, outcome: Result<seq<PoolInfo>, string>)
    requires Conversation(ListPoolsScript(), es, outcome)
    ensures |es| > 0 && (outcome.Ok? <==> Succeeded(es[0].reply))
    ensures outcome.Ok? ==> |es| == 1 + 3 * |PoolTable(es[0].reply.stdout)|
    ensures outcome.Ok? ==> outcome.value == PoolsFrom(PoolTable(es[0].reply.stdout), Replies(es)[1..])
    ensures outcome.Err? ==> |es| == 1
  {
    if es != [] { ListPoolsApplied(Replies(es)); }
    assert ListPoolsScript()([]) == Issue(LIST_CALL);
    assert Replies([]) == [];
    hide PoolTable, ListPoolsScript, Enquiry, Checked, Follows, PoolsFrom;
    if |es| > 1 { ListPoolsNext(es, |es| - 1); }
  }

  /** Why the table could not be had. */
  function ListComplaint(reply: Reply): string {
    if reply.Failed? then reply.error else "ZFS error: zpool list failed: " + reply.stderr
  }

  lemma {:induction false} ComplaintIs(reply: Reply)
    requires !Succeeded(reply)
    ensures Checked("zpool list failed")(reply) == Err(ListComplaint(reply))
  {
    CheckedIs("zpool list failed", reply);
    assert "ZFS error: " + "zpool list failed" + ": " == "ZFS error: zpool list failed: ";
  }

  lemma {:induction false} ListPoolsFails(es: seq<Exchange>, outcome: Result<seq<PoolInfo>, string>)
    requires Conversation(ListPoolsScript(), es, outcome)
    ensures es != [] && es[0].call == LIST_CALL
    ensures !Succeeded(es[0].reply) ==> outcome == Err(ListComplaint(es[0].reply))
  {
    ListPoolsCount(es, outcome);
    hide ListPoolsScript, PoolTable, PoolsFrom, SurveyStep, Checked, Follows, ListComplaint, Succeeded;
    ListPoolsFirst(es);
    ListPoolsApplied(Replies(es));
    if !Succeeded(es[0].reply) { ComplaintIs(es[0].reply); }
  }

  // ---------------------------------------------------------------- the survey, step by step

  /** A listing whose table has these rows, as far as it has got. */
  ghost predicate Surveying(rows: seq<PoolRow>, es: seq<Exchange>) {
    es != [] && Follows(ListPoolsScript(), es) && Succeeded(es[0].reply) && rows == PoolTable(es[0].reply.stdout)
  }

  /** It has covered the first `|pools|` rows. */
  ghost predicate Surveyed(rows: seq<PoolRow>, es: seq<Exchange>, pools: seq<PoolInfo>) {
    && |pools| <= |rows| && |es| == 1 + 3 * |pools|
    && Surveying(rows, es)
    && pools == PoolsFrom(rows[..|pools|], Replies(es)[1..])
  }

  lemma {:induction false} SurveyStarts(reply: Reply)
    ensures Follows(ListPoolsScript(), [Exchange(LIST_CALL, reply)])
    ensures Succeeded(reply) ==> Surveyed(PoolTable(reply.stdout), [Exchange(LIST_CALL, reply)], [])
  {
    var es := [Exchange(LIST_CALL, reply)];
    assert es[..0] == [] && Replies([]) == [];
    if Succeeded(reply) {
      assert PoolsFrom(PoolTable(reply.stdout)[..0], Replies(es)[1..]) == [];
    }
  }

  lemma {:induction false} SurveyFails(reply: Reply)
    requires !Succeeded(reply)
    ensures Conversation(ListPoolsScript(), [Exchange(LIST_CALL, reply)],
        Err(Checked("zpool list failed")(reply).error))
  {
    SurveyStarts(reply);
    ListPoolsApplied(Replies([Exchange(LIST_CALL, reply)]));
  }

  lemma {:induction false} ScriptSurveys(rows: seq<PoolRow>, es: seq<Exchange>)
    requires Surveying(rows, es)
    ensures ListPoolsScript()(Replies(es)) == SurveyStep(rows, Replies(es)[1..])
  {
    ListPoolsApplied(Replies(es));
  }

  lemma {:induction false} SurveyStepAt(rows: seq<PoolRow>, answers: seq<Reply>, p: nat, j: nat)
    requires |answers| == 3 * p + j && p < |rows| && j < 3
    ensures SurveyStep(rows, answers) == Issue(Enquiry(j, rows[p].name))
  {
    assert (3 * p + j) / 3 == p && (3 * p + j) % 3 == j;
  }

  lemma {:induction false} SurveyingMore(rows: seq<PoolRow>, es: seq<Exchange>, e: Exchange)
    requires Surveying(rows, es) && ListPoolsScript()(Replies(es)) == Issue(e.call)
    ensures Surveying(rows, es + [e])
  {
    assert (es + [e])[0] == es[0];
  }

  lemma {:induction false} SurveyAsks(rows: seq<PoolRow>, es: seq<Exchange>, p: nat, j: nat, e: Exchange)
    requires Surveying(rows, es) && |es| == 1 + 3 * p + j && p < |rows| && j < 3
    requires e.call == Enquiry(j, rows[p].name)
    ensures Surveying(rows, es + [e])
  {
    ScriptSurveys(rows, es);
    SurveyStepAt(rows, Replies(es)[1..], p, j);
    SurveyingMore(rows, es, e);
  }

  lemma {:induction false} SurveyAsksThree(rows: seq<PoolRow>, es: seq<Exchange>, p: nat, more: seq<Exchange>)
    requires Surveying(rows, es) && |es| == 1 + 3 * p && p < |rows| && |more| == 3
    requires forall j :: 0 <= j < 3 ==> more[j].call == Enquiry(j, rows[p].name)
    ensures Surveying(rows, es + more)
  {
    hide *;
    SurveyAsks(rows, es, p, 0, more[0]);
    SurveyAsks(rows, es + [more[0]], p, 1, more[1]);
    SurveyAsks(rows, es + [more[0]] + [more[1]], p, 2, more[2]);
    assert es + [more[0]] + [more[1]] + [more[2]] == es + more;
  }

  lemma {:induction false} PoolsFromMore(rows: seq<PoolRow>, answers: seq<Reply>, a: Reply, b: Reply, c: Reply, p: nat)
    requires p < |rows| && |answers| == 3 * p
    ensures PoolsFrom(rows[..p + 1], answers + [a, b, c])
      == PoolsFrom(rows[..p], answers) + [PoolFrom(rows[p], EncryptedIn(a), MountInfoIn(b), DatasetsIn(c))]
  {
    hide EncryptedIn, MountInfoIn, DatasetsIn, PoolFrom;
    var more := answers + [a, b, c];
    forall i | 0 <= i < p ensures PoolAt(rows[..p + 1], more, i) == PoolAt(rows[..p], answers, i) {
    }
    assert more[3 * p] == a && more[3 * p + 1] == b && more[3 * p + 2] == c;
  }

  lemma {:induction false} SurveyedMore(rows: seq<PoolRow>, es: seq<Exchange>, pools: seq<PoolInfo>,
      more: seq<Exchange>)
    requires Surveyed(rows, es, pools) && |pools| < |rows| && |more| == 3
    requires forall j :: 0 <= j < 3 ==> more[j].call == Enquiry(j, rows[|pools|].name)
    ensures Surveyed(rows, es + more, pools + [PoolFrom(rows[|pools|], EncryptedIn(more[0].reply),
                                                        MountInfoIn(more[1].reply), DatasetsIn(more[2].reply))])
  {
    hide PoolTable, Enquiry, PoolFrom, EncryptedIn, MountInfoIn, DatasetsIn, PoolsFrom;
    var p := |pools|;
    SurveyAsksThree(rows, es, p, more);
    PoolsFromMore(rows, Replies(es)[1..], more[0].reply, more[1].reply, more[2].reply, p);
    assert Replies(es + more)[1..] == Replies(es)[1..] + [more[0].reply, more[1].reply, more[2].reply];
  }

  lemma {:induction false} NoPools()
    ensures PoolsOf([]) == []
  {
  }

  lemma {:induction false} PoolsOfAt(ls: seq<string>, k: nat, rows: seq<PoolRow>, p: nat)
    requires k < |ls| && p <= |rows| && rows[p..] == PoolsOf(ls[k..])
    ensures |Split(ls[k], '\t')| < 6 ==> rows[p..] == PoolsOf(ls[k + 1..])
    ensures |Split(ls[k], '\t')| >= 6 ==>
      p < |rows| && rows[p] == DecodePoolRow(Split(ls[k], '\t')) && rows[p + 1..] == PoolsOf(ls[k + 1..])
  {
    PoolsOfCons(ls[k..]);
    hide DecodePoolRow, PoolsOf;
    assert ls[k..][0] == ls[k] && ls[k..][1..] == ls[k + 1..];
    if |Split(ls[k], '\t')| >= 6 {
      assert rows[p..][0] == rows[p] && rows[p..][1..] == rows[p + 1..];
    }
  }

  lemma {:induction false} SurveyEnds(rows: seq<PoolRow>, es: seq<Exchange>, pools: seq<PoolInfo>)
    requires Surveyed(rows, es, pools) && |pools| == |rows|
    ensures Conversation(ListPoolsScript(), es, Ok(pools))
  {
    assert rows[..|pools|] == rows;
    ScriptSurveys(rows, es);
  }

  // ---------------------------------------------------------------- what listing returns

  /** How the pool listing shows a pool. */
  function RowOf(p: PoolInfo): PoolRow {
    PoolRow(p.name, p.sizeBytes, p.allocatedBytes, p.freeBytes, p.health, p.guid)
  }

  function RowsOf(ps: seq<PoolInfo>): (rows: seq<PoolRow>)
    ensures |rows| == |ps|
    ensures forall i :: 0 <= i < |ps| ==> rows[i] == RowOf(ps[i])
  {
    if ps == [] then [] else [RowOf(ps[0])] + RowsOf(ps[1..])
  }

  /** A text for the encryption property of a pool: any algorithm, or a mark or message for none. */
  predicate ShowsEncryption(text: string, encrypted: bool) {
    && Trimmed(text) && Clean(text)
    && (encrypted <==> text !in {"off", "-", ""} && !StartsWith(text, "cannot"))
  }

  lemma {:induction false} EncryptionShown(text: string, encrypted: bool)
    requires ShowsEncryption(text, encrypted)
    ensures IsEncryptedValue(text + "\n") == encrypted
  {
    TrimOfTrimmed(text);
    TrimSnoc(text, '\n');
  }

  predicate TellsEncryption(reply: Reply, text: string, p: PoolInfo) {
    reply.Ran? && reply.stdout == text + "\n" && ShowsEncryption(text, p.encrypted)
  }

  predicate TellsMount(reply: Reply, mounted: string, mountpoint: string, p: PoolInfo) {
    && reply.Ran? && reply.stdout == Unlines([mounted, mountpoint])
    && ShowsMount(mounted, mountpoint, MountInfo(p.mounted, p.mountpoint))
  }

  predicate TellsDatasets(show: Printer, reply: Reply, rows: seq<seq<string>>, p: PoolInfo) {
    reply.Ran? && reply.stdout == Unlines(PrintRows(rows)) && ShowsDatasets(show, rows, p.datasets)
  }

  /**
   The answers describe a pool: its encryption, its mount state and its datasets. Where a question
   failed, the record says no, nowhere and none.
   */
  ghost predicate Describes(show: Printer, p: PoolInfo, encryption: Reply, mount: Reply, datasets: Reply) {
    && p.features == [] && p.version == ""
    && (if Succeeded(encryption) then exists text :: TellsEncryption(encryption, text, p) else !p.encrypted)
    && (if Succeeded(mount) then exists mounted, mountpoint :: TellsMount(mount, mounted, mountpoint, p)
        else !p.mounted && p.mountpoint.None?)
    && (if Succeeded(datasets) then exists rows :: TellsDatasets(show, datasets, rows, p) else p.datasets == [])
  }

  lemma {:induction false} EncryptionRead(p: PoolInfo, reply: Reply)
    requires if Succeeded(reply) then exists text :: TellsEncryption(reply, text, p) else !p.encrypted
    ensures EncryptedIn(reply) == p.encrypted
  {
    hide IsEncryptedValue, ShowsEncryption;
    if Succeeded(reply) {
      var text :| TellsEncryption(reply, text, p);
      EncryptionShown(text, p.encrypted);
    }
  }

  lemma {:induction false} MountRead(p: PoolInfo, reply: Reply)
    requires if Succeeded(reply) then exists mounted, mountpoint :: TellsMount(reply, mounted, mountpoint, p)
             else !p.mounted && p.mountpoint.None?
    ensures MountInfoIn(reply) == MountInfo(p.mounted, p.mountpoint)
  {
    hide ReadMountInfo, ShowsMount, Unlines;
    if Succeeded(reply) {
      var mounted, mountpoint :| TellsMount(reply, mounted, mountpoint, p);
      MountInfoPrinted(mounted, mountpoint, MountInfo(p.mounted, p.mountpoint));
    }
  }

  lemma {:induction false} DatasetsRead(show: Printer, p: PoolInfo, reply: Reply)
    requires if Succeeded(reply) then exists rows :: TellsDatasets(show, reply, rows, p) else p.datasets == []
    ensures DatasetsIn(reply) == p.datasets
  {
    hide DatasetTable, ShowsDatasets, Unlines, PrintRows;
    if Succeeded(reply) {
      var rows :| TellsDatasets(show, reply, rows, p);
      DatasetsPrinted(show, rows, p.datasets);
    }
  }

  lemma {:induction false} PoolReadBack(show: Printer, p: PoolInfo, encryption: Reply, mount: Reply, datasets: Reply)
    requires Describes(show, p, encryption, mount, datasets)
    ensures PoolFrom(RowOf(p), EncryptedIn(encryption), MountInfoIn(mount), DatasetsIn(datasets)) == p
  {
    hide EncryptedIn, MountInfoIn, DatasetsIn, TellsEncryption, TellsMount, TellsDatasets, Succeeded;
    EncryptionRead(p, encryption);
    MountRead(p, mount);
    DatasetsRead(show, p, datasets);
  }

  /** The later answers describe the pools in turn. */
  ghost predicate DescribesAll(show: Printer, ps: seq<PoolInfo>, es: seq<Exchange>) {
    |es| == 1 + 3 * |ps| &&
    forall i :: 0 <= i < |ps| ==>
      Describes(show, ps[i], es[3 * i + 1].reply, es[3 * i + 2].reply, es[3 * i + 3].reply)
  }

  /**
   When the table shows some pools and the later answers describe each in turn, failed ones saying
   nothing, listing returns exactly those pools, in order and with every field.
   */
  lemma {:induction false} ListingReadBack(show: Printer, es: seq<Exchange>, outcome: Result<seq<PoolInfo>, string>,
      rows: seq<seq<string>>, ps: seq<PoolInfo>)
    requires Conversation(ListPoolsScript(), es, outcome) && DescribesAll(show, ps, es)
    requires Succeeded(es[0].reply) && es[0].reply.stdout == Unlines(PrintRows(rows))
    requires ShowsPools(show, rows, RowsOf(ps))
    ensures outcome == Ok(ps)
  {
    hide *;
    ListPoolsCount(es, outcome);
    PoolsPrinted(show, rows, RowsOf(ps));
    AllAnswered(show, es, ps);
  }

  lemma {:induction false} AnsweredPool(show: Printer, es: seq<Exchange>, ps: seq<PoolInfo>, i: nat)
    requires |es| == 1 + 3 * |ps| && i < |ps|
    requires Describes(show, ps[i], es[3 * i + 1].reply, es[3 * i + 2].reply, es[3 * i + 3].reply)
    ensures PoolAt(RowsOf(ps), Replies(es)[1..], i) == ps[i]
  {
    hide Describes, EncryptedIn, MountInfoIn, DatasetsIn, PoolFrom, RowOf;
    PoolReadBack(show, ps[i], es[3 * i + 1].reply, es[3 * i + 2].reply, es[3 * i + 3].reply);
  }

  lemma {:induction false} AllAnswered(show: Printer, es: seq<Exchange>, ps: seq<PoolInfo>)
    requires |es| >= 1 && DescribesAll(show, ps, es)
    ensures 3 * |ps| <= |Replies(es)[1..]| && PoolsFrom(RowsOf(ps), Replies(es)[1..]) == ps
  {
    hide Describes, PoolAt, RowsOf;
    var answers := Replies(es)[1..];
    forall i | 0 <= i < |ps| ensures PoolAt(RowsOf(ps), answers, i) == ps[i] {
      AnsweredPool(show, es, ps, i);
    }
  }

  // ---------------------------------------------------------------- the manager

  lemma {:induction false} PoolNamesStep(ls: seq<string>, k: nat, found: seq<string>)
    requires k < |ls|
    ensures found + PoolNames(ls[k..]) ==
      (if PoolName(ls[k]).Some? then found + [PoolName(ls[k]).value] else found) + PoolNames(ls[k + 1..])
  {
    hide PoolName;
    assert ls[k..][0] == ls[k] && ls[k..][1..] == ls[k + 1..];
    if PoolName(ls[k]).Some? { ConcatAssoc(found, [PoolName(ls[k]).value], PoolNames(ls[k + 1..])); }
  }

  method ReadPoolNames(text: string) returns (pools: seq<string>)
    ensures pools == PoolNames(Lines(text))
  {
    pools := [];
    var ls := Lines(text);
    assert ls[0..] == ls;
    for k := 0 to |ls|
      invariant pools + PoolNames(ls[k..]) == PoolNames(ls)
    {
      PoolNamesStep(ls, k, pools);
      var line := Trim(ls[k]);
      if StartsWith(line, "pool: ") { pools := pools + [line[6..]]; }
    }
    assert pools + [] == pools;
  }

  class PoolManager {
    const runner: CommandRunner

    constructor (runner: CommandRunner)
      ensures this.runner == runner
    {
      this.runner := runner;
    }

    method RunOnce(cmd: string, args: seq<string>, stdin: Option<string>, what: string) returns (r: Result<(), string>)
      modifies runner
      ensures Conducted(Once(Call(cmd, args, stdin), what), old(runner.log), runner.log, r)
    {
      var reply := runner.Run(cmd, args, stdin);
      OnceConducted(Call(cmd, args, stdin), what, old(runner.log), Exchange(Call(cmd, args, stdin), reply));
      r := match Checked(what)(reply) case Err(e) => Err(e) case Ok(_) => Ok(());
    }

    method ImportPool(name: string, device: Option<string>) returns (r: Result<(), string>)
      modifies runner
      ensures Conducted(ImportPoolScript(name, device), old(runner.log), runner.log, r)
    {
      var args := ["import"];
      if device.Some? {
        args := args + ["-d"];
        args := args + [device.value];
      }
      args := args + [name];
      assert args == ImportCall(name, device).args;
      r := RunOnce("zpool", args, None, "zpool import failed");
    }

    method FindImportablePools(device: Option<string>) returns (r: Result<seq<string>, string>)
      modifies runner
      ensures Conducted(FindImportableScript(device), old(runner.log), runner.log, r)
    {
      var args := ["import", "-N"];
      if device.Some? {
        args := args + ["-d"];
        args := args + [device.value];
      }
      assert args == SearchCall(device).args;
      var reply := runner.Run("zpool", args, None);
      ghost var es := [Exchange(SearchCall(device), reply)];
      assert es[..0] == [] && Replies([]) == [];
      assert Follows(FindImportableScript(device), es);
      if reply.Failed? {
        r := Err(reply.error);
      } else {
        var pools := ReadPoolNames(reply.stdout);
        r := Ok(pools);
      }
      ConductedIs(FindImportableScript(device), old(runner.log), es, r);
    }

    method ExportPool(name: string, force: bool) returns (r: Result<(), string>)
      modifies runner
      ensures Conducted(ExportPoolScript(name, force), old(runner.log), runner.log, r)
    {
      var args := ["export"];
      if force { args := args + ["-f"]; }
      args := args + [name];
      assert args == ExportCall(name, force).args;
      r := RunOnce("zpool", args, None, "zpool export failed");
    }

    method CreatePool(name: string, device: string, passphrase: string, options: PoolCreationOptions)
      returns (r: Result<(), string>)
      modifies runner
      ensures Conducted(CreatePoolScript(name, device, passphrase, options), old(runner.log), runner.log, r)
    {
      var args := BuildArgs(name, device, options);
      r := RunOnce("zpool", args, Some(passphrase), "Pool creation failed");
    }

    method IsEncrypted(name: string) returns (encrypted: bool, ghost e: Exchange)
      modifies runner
      ensures runner.log == old(runner.log) + [e] && e.call == EncryptionCall(name)
      ensures encrypted == EncryptedIn(e.reply)
    {
      var reply := runner.Run("zfs", ["get", "-H", "-o", "value", "encryption", name], None);
      e := Exchange(EncryptionCall(name), reply);
      encrypted := reply.Ran? && reply.success && IsEncryptedValue(reply.stdout);
    }

    method GetMountInfo(name: string) returns (mount: MountInfo, ghost e: Exchange)
      modifies runner
      ensures runner.log == old(runner.log) + [e] && e.call == MountInfoCall(name)
      ensures mount == MountInfoIn(e.reply)
    {
      var reply := runner.Run("zfs", ["get", "-H", "-o", "value", "mounted,mountpoint", name], None);
      e := Exchange(MountInfoCall(name), reply);
      mount := if reply.Ran? && reply.success then ReadMountInfo(reply.stdout) else MountInfo(false, None);
    }

    method ListDatasets(name: string) returns (datasets: seq<DatasetInfo>, ghost e: Exchange)
      modifies runner
      ensures runner.log == old(runner.log) + [e] && e.call == DatasetsCall(name)
      ensures datasets == DatasetsIn(e.reply)
    {
      var reply := runner.Run("zfs",
        ["list", "-H", "-r", "-o", "name,mountpoint,mounted,encryption,compression,recordsize,quota", name], None);
      e := Exchange(DatasetsCall(name), reply);
      datasets := [];
      if reply.Ran? && reply.success { datasets := ReadDatasets(reply.stdout); }
    }

    /** The three questions about one pool, in order. */
    method Describe(row: PoolRow) returns (pool: PoolInfo, ghost es: seq<Exchange>)
      modifies runner
      ensures runner.log == old(runner.log) + es && |es| == 3
      ensures forall j :: 0 <= j < 3 ==> es[j].call == Enquiry(j, row.name)
      ensures pool == PoolFrom(row, EncryptedIn(es[0].reply), MountInfoIn(es[1].reply), DatasetsIn(es[2].reply))
    {
      var encrypted, e0 := IsEncrypted(row.name);
      var mount, e1 := GetMountInfo(row.name);
      var datasets, e2 := ListDatasets(row.name);
      es := [e0, e1, e2];
      assert runner.log == old(runner.log) + es;
      pool := PoolFrom(row, encrypted, mount, datasets);
    }

    /** The loop over the table's lines, after `es`, the exchange that fetched the table. */
    method DescribePools(ls: seq<string>, ghost base: seq<Exchange>, ghost es: seq<Exchange>)
      returns (pools: seq<PoolInfo>, ghost all: seq<Exchange>)
      requires runner.log == base + es && Surveyed(PoolsOf(ls), es, [])
      modifies runner
      ensures runner.log == base + all && Surveyed(PoolsOf(ls), all, pools)
      ensures |pools| == |PoolsOf(ls)|
    {
      hide Surveyed, DecodePoolRow, PoolFrom, Enquiry, EncryptedIn, MountInfoIn, DatasetsIn, PoolsOf;
      pools, all := [], es;
      ghost var rows := PoolsOf(ls);
      assert rows[0..] == rows && ls[0..] == ls;
      for k := 0 to |ls|
        invariant runner.log == base + all
        invariant Surveyed(rows, all, pools)
        invariant |pools| <= |rows| && rows[|pools|..] == PoolsOf(ls[k..])
      {
        var parts := Split(ls[k], '\t');
        PoolsOfAt(ls, k, rows, |pools|);
        if |parts| < 6 { continue; }
        var row := DecodePoolRow(parts);
        var pool, more := Describe(row);
        SurveyedMore(rows, all, pools, more);
        ConcatAssoc(base, all, more);
        all := all + more;
        pools := pools + [pool];
      }
      NoPools();
      assert ls[|ls|..] == [];
      assert |rows[|pools|..]| == |rows| - |pools|;
    }

    method ListPools() returns (r: Result<seq<PoolInfo>, string>)
      modifies runner
      ensures Conducted(ListPoolsScript(), old(runner.log), runner.log, r)
    {
      hide Conducted, Surveyed, PoolsOf;
      var reply := runner.Run("zpool", ["list", "-H", "-o", "name,size,allocated,free,health,guid"], None);
      ghost var es := [Exchange(LIST_CALL, reply)];
      var checked := Checked("zpool list failed")(reply);
      if checked.Err? {
        SurveyFails(reply);
        r := Err(checked.error);
      } else {
        SurveyStarts(reply);
        var pools, all := DescribePools(Lines(checked.value), old(runner.log), es);
        SurveyEnds(PoolsOf(Lines(checked.value)), all, pools);
        es := all;
        r := Ok(pools);
      }
      ConductedIs(ListPoolsScript(), old(runner.log), es, r);
    }
  }
}
