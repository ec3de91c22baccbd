/** What a client may conclude from a response, for every runner. */
module Responses {

  import opened Wrappers
  import opened Commands
  import Text
  import CreatePool
  import opened Requests
  import P = Pools
  import E = Encryption
  import D = Datasets

  /** A command that may change something: anything but listing and reading properties. */
  predicate Mutating(call: Call) {
    !P.ReadOnly(call)
  }

  /** Every command ran, and every mutating one succeeded. */
  predicate AllGood(es: seq<Exchange>) {
    forall i :: 0 <= i < |es| ==> es[i].reply.Ran? && (Mutating(es[i].call) ==> Succeeded(es[i].reply))
  }

  /** Requests that ask for a change. */
  predicate Changes(request: Request) {
    request.ImportPool? || request.ExportPool? || request.InitPool? ||
    request.Mount? || request.Unmount? || request.ChangeKey?
  }

  // ---------------------------------------------------------------- truth, script by script

  /** How a failure of a mutating command is announced. */
  function Headline(verb: string): string {
    match verb
    case "import" => "zpool import failed"
    case "export" => "zpool export failed"
    case "create" => "Pool creation failed"
    case "load-key" => "Key load failed"
    case "change-key" => "Key change failed"
    case "mount" => "zfs mount failed"
    case "unmount" => "zfs unmount failed"
    case _ => ""
  }

  /**
   What an exchange that went wrong is reported as: the runner's error, or a headline and what
   the command wrote to its error output; a mount for want of a key has a text of its own.
   */
  function Complaint(e: Exchange): string {
    match e.reply
    case Failed(error) => error
    case Ran(_, stderr, _) =>
      if |e.call.args| == 2 && e.call.args[0] == "mount" && Text.Contains(stderr, "encryption key not loaded") then
        "ZFS error: Dataset " + e.call.args[1] + " is encrypted \U{2014} load key first"
      else "ZFS error: " + Headline(if e.call.args == [] then "" else e.call.args[0]) + ": " + stderr
  }

  /** An outcome that is good exactly when the exchanges were, and otherwise reports the last of them. */
  predicate Truthful<A>(es: seq<Exchange>, outcome: Result<A, string>) {
    && (outcome.Ok? <==> AllGood(es))
    && (outcome.Err? ==> es != [] && outcome.error == Complaint(es[|es| - 1]))
  }

  /** A check that accepts exactly the successful replies to `call`, and reports the others. */
  ghost predicate Exacting(call: Call, check: Check) {
    forall reply: Reply ::
      (check(reply).Ok? <==> Succeeded(reply)) &&
      (check(reply).Err? ==> check(reply).error == Complaint(Exchange(call, reply)))
  }

  lemma {:induction false} MountExacting(dataset: string)
    ensures Exacting(D.MountCall(dataset), D.MountChecked(dataset))
  {
    hide Text.Contains;
    assert Headline("mount") == "zfs mount failed";
    assert "ZFS error: " + "zfs mount failed" + ": " == "ZFS error: zfs mount failed: ";
  }

  lemma {:induction false} AllGoodCons(e: Exchange, es: seq<Exchange>)
    ensures AllGood([e] + es) <==> e.reply.Ran? && (Mutating(e.call) ==> Succeeded(e.reply)) && AllGood(es)
  {
    hide Mutating;
    if AllGood([e] + es) {
      assert ([e] + es)[0] == e;
      assert forall i :: 0 <= i < |es| ==> ([e] + es)[i + 1] == es[i];
    }
  }

  lemma {:induction false} ThenTruthful<A>(call: Call, check: Check, next: Script<Result<A, string>>, es: seq<Exchange>,
                        outcome: Result<A, string>)
    requires Mutating(call) && Exacting(call, check)
    requires Conversation(Then(call, check, next), es, outcome)
    requires es != [] && Conversation(next, es[1..], outcome) ==> Truthful(es[1..], outcome)
    ensures Truthful(es, outcome)
  {
    hide Mutating, Conversation, AllGood, Succeeded, Complaint;
    ThenConversation(call, check, next, es, outcome);
    assert es == [es[0]] + es[1..];
    AllGoodCons(es[0], es[1..]);
    GoodReply(es[0].reply);
    if |es| == 1 { assert es[1..] == []; }
  }

  lemma {:induction false} GoodReply(reply: Reply)
    ensures Succeeded(reply) ==> reply.Ran?
  {
  }

  lemma {:induction false} OnceTruthful(call: Call, what: string, es: seq<Exchange>, outcome: Result<(), string>)
    requires Mutating(call) && Exacting(call, Checked(what)) && Conversation(Once(call, what), es, outcome)
    ensures Truthful(es, outcome)
  {
    hide Mutating, Checked, Complaint, Once, Conversation;
    OnceConversation(call, what, es, outcome);
    GoodReply(es[0].reply);
    assert Exchange(call, es[0].reply) == es[0];
  }

  lemma {:induction false} MountpointReads(dataset: string)
    ensures !Mutating(D.MountpointCall(dataset))
  {
  }

  function MountpointQuery(dataset: string): Call {
    Call("zfs", ["get", "-H", "-o", "value", "mountpoint", dataset], None)
  }

  /** The mountpoint the last answer shows; a dataset without one is taken to be under the root. */
  predicate TellsMountpoint(dataset: string, es: seq<Exchange>, mountpoint: string) {
    es != [] && es[|es| - 1].call == MountpointQuery(dataset) && es[|es| - 1].reply.Ran? &&
    var text := Text.Trim(es[|es| - 1].reply.stdout);
    mountpoint == if text in {"none", "-"} then "/" + dataset else text
  }

  lemma {:induction false} MountpointTold(dataset: string, es: seq<Exchange>, outcome: Result<string, string>)
    requires Conversation(D.MountpointScript(dataset), es, outcome)
    ensures outcome.Ok? ==> TellsMountpoint(dataset, es, outcome.value)
  {
    D.MountpointConversation(dataset, es, outcome);
    hide Text.Trim;
  }

  /** What holds of the last exchange of the rest holds of the whole. */
  lemma {:induction false} MountpointToldAfter(call: Call, check: Check, next: Script<Result<string, string>>,
      dataset: string, es: seq<Exchange>, outcome: Result<string, string>)
    requires Conversation(Then(call, check, next), es, outcome)
    requires es != [] && Conversation(next, es[1..], outcome) && outcome.Ok? ==>
      TellsMountpoint(dataset, es[1..], outcome.value)
    ensures outcome.Ok? ==> TellsMountpoint(dataset, es, outcome.value)
  {
    hide Conversation, Text.Trim, Then;
    ThenConversation(call, check, next, es, outcome);
    if outcome.Ok? { assert es[1..][|es[1..]| - 1] == es[|es| - 1]; }
  }

  lemma {:induction false} MountpointTruthful(dataset: string, es: seq<Exchange>, outcome: Result<string, string>)
    requires Conversation(D.MountpointScript(dataset), es, outcome)
    ensures Truthful(es, outcome)
  {
    MountpointReads(dataset);
    D.MountpointConversation(dataset, es, outcome);
    hide Mutating, D.MountpointCall, D.MountpointScript, D.MountpointIn, Headline;
  }

  lemma {:induction false} MountMutates(dataset: string)
    ensures Mutating(D.MountCall(dataset))
  {
  }

  lemma {:induction false} LoadKeyMutates(dataset: string, passphrase: string)
    ensures Mutating(E.LoadKeyCall(dataset, passphrase))
    ensures Exacting(E.LoadKeyCall(dataset, passphrase), Checked(E.LOAD_FAILED))
  {
    assert Headline("load-key") == E.LOAD_FAILED;
  }

  lemma {:induction false} MountTruthful(dataset: string, es: seq<Exchange>, outcome: Result<string, string>)
    requires Conversation(D.MountScript(dataset), es, outcome)
    ensures Truthful(es, outcome) && (outcome.Ok? ==> TellsMountpoint(dataset, es, outcome.value))
  {
    MountMutates(dataset);
    MountExacting(dataset);
    hide Mutating, D.MountpointScript, Exacting, Conversation, Truthful, TellsMountpoint, Then;
    if es != [] && Conversation(D.MountpointScript(dataset), es[1..], outcome) {
      MountpointTruthful(dataset, es[1..], outcome);
      MountpointTold(dataset, es[1..], outcome);
    }
    ThenTruthful(D.MountCall(dataset), D.MountChecked(dataset), D.MountpointScript(dataset), es, outcome);
    MountpointToldAfter(D.MountCall(dataset), D.MountChecked(dataset), D.MountpointScript(dataset), dataset, es,
                        outcome);
  }

  lemma {:induction false} KeyedMountTruthful(dataset: string, passphrase: string, es: seq<Exchange>,
      outcome: Result<string, string>)
    requires Conversation(KeyedMountScript(dataset, passphrase), es, outcome)
    ensures Truthful(es, outcome) && (outcome.Ok? ==> TellsMountpoint(dataset, es, outcome.value))
  {
    LoadKeyMutates(dataset, passphrase);
    hide Mutating, D.MountScript, Exacting, Conversation, Truthful, TellsMountpoint, Then;
    if es != [] && Conversation(D.MountScript(dataset), es[1..], outcome) {
      MountTruthful(dataset, es[1..], outcome);
    }
    ThenTruthful(E.LoadKeyCall(dataset, passphrase), Checked(E.LOAD_FAILED), D.MountScript(dataset), es, outcome);
    MountpointToldAfter(E.LoadKeyCall(dataset, passphrase), Checked(E.LOAD_FAILED), D.MountScript(dataset), dataset, es,
                        outcome);
  }

  lemma {:induction false} ChangeKeyMutates(dataset: string, passphrase: string)
    ensures Mutating(E.ChangeKeyCall(dataset, passphrase))
    ensures Exacting(E.ChangeKeyCall(dataset, passphrase), Checked("Key change failed"))
  {
    assert Headline("change-key") == "Key change failed";
  }

  lemma {:induction false} ImportMutates(name: string, device: Option<string>)
    ensures Mutating(P.ImportCall(name, device)) && Exacting(P.ImportCall(name, device), Checked("zpool import failed"))
  {
    assert P.ImportCall(name, device).args[0] == "import";
    assert Headline("import") == "zpool import failed";
  }

  lemma {:induction false} ExportMutates(name: string, force: bool)
    ensures Mutating(P.ExportCall(name, force)) && Exacting(P.ExportCall(name, force), Checked("zpool export failed"))
  {
    assert P.ExportCall(name, force).args[0] == "export";
    assert Headline("export") == "zpool export failed";
  }

  lemma {:induction false} UnmountMutates(dataset: string, unloadKey: bool)
    ensures Mutating(D.UnmountCall(dataset, unloadKey)) &&
        Exacting(D.UnmountCall(dataset, unloadKey), Checked(D.UNMOUNT_FAILED))
  {
    assert D.UnmountCall(dataset, unloadKey).args[0] == "unmount";
    assert Headline("unmount") == D.UNMOUNT_FAILED;
  }

  lemma {:induction false} CreateMutates(request: Request)
    requires request.InitPool?
    ensures var call := P.CreateCall(request.poolName, request.devicePath, request.secret, request.options);
      Mutating(call) && Exacting(call, Checked("Pool creation failed"))
  {
    hide CreatePool.Render, CreatePool.Settings;
    var call := P.CreateCall(request.poolName, request.devicePath, request.secret, request.options);
    assert call.args[0] == "create";
    assert Headline("create") == "Pool creation failed";
  }

  // ---------------------------------------------------------------- truth of responses

  function FailureCode(request: Request): string
    requires Changes(request)
  {
    match request
    case ImportPool(_, _) => "IMPORT_ERROR"
    case ExportPool(_, _) => "EXPORT_ERROR"
    case Mount(_, _) => "MOUNT_ERROR"
    case Unmount(_, _) => "UNMOUNT_ERROR"
    case InitPool(_, _, _, _) => "INIT_ERROR"
    case ChangeKey(_, _, _) => "CHANGE_KEY_ERROR"
  }

  /** The report names what the request asked for. */
  predicate Concerns(report: Report, request: Request)
    requires Changes(request)
  {
    match request
    case ImportPool(name, _) => report == Imported(name)
    case ExportPool(name, _) => report == Exported(name)
    case Mount(dataset, _) => report.Mounted? && report.dataset == dataset
    case Unmount(dataset, _) => report == Unmounted(dataset)
    case InitPool(name, device, _, _) => report == Created(name, device)
    case ChangeKey(dataset, _, _) => report == KeyChanged(dataset)
  }

  /** What the response to `request` must look like after the exchanges `es`. */
  predicate TellsTruth(request: Request, es: seq<Exchange>, response: Response)
    requires Changes(request)
  {
    && (response.Success? <==> AllGood(es))
    && (response.Success? ==> Concerns(response.report, request))
    && (response.Success? && request.Mount? ==>
         TellsMountpoint(request.dataset, es, response.report.mountpoint))
    && (!response.Success? ==> response.Error? && response.code == FailureCode(request))
    && (response.Error? ==> es != [] && response.message == Complaint(es[|es| - 1]))
  }

  lemma {:induction false} SingleTruth(request: Request, call: Call, what: string, report: Report,
      es: seq<Exchange>, response: Response)
    requires Changes(request) && !request.Mount? && Mutating(call) && Exacting(call, Checked(what)) &&
        Concerns(report, request)
    requires Conversation(Mapped(Once(call, what), Reporting(FailureCode(request), Announce(report))), es, response)
    ensures TellsTruth(request, es, response)
  {
    var f := Reporting(FailureCode(request), Announce(report));
    var a := MappedConversation(Once(call, what), f, es, response);
    OnceTruthful(call, what, es, a.value);
    hide AllGood, Concerns, FailureCode, Mutating, Conversation, Once, Complaint;
    assert f(a.value) == if a.value.Ok? then Success(report) else Error(FailureCode(request), a.value.error);
  }

  lemma {:induction false} MountIs(request: Request)
    requires request.Mount?
    ensures var script := if request.passphrase.Some? then KeyedMountScript(request.dataset, request.passphrase.value)
                          else D.MountScript(request.dataset);
      RequestScript(request) == Mapped(script, Reporting("MOUNT_ERROR", AnnounceMount(request.dataset)))
  {
    hide KeyedMountScript, D.MountScript, Mapped, Reporting;
  }

  lemma {:induction false} MountTruth(request: Request, es: seq<Exchange>, response: Response)
    requires request.Mount? && Conversation(RequestScript(request), es, response)
    ensures TellsTruth(request, es, response)
  {
    var dataset, f := request.dataset, Reporting("MOUNT_ERROR", AnnounceMount(request.dataset));
    var script := if request.passphrase.Some? then KeyedMountScript(dataset, request.passphrase.value)
                  else D.MountScript(dataset);
    MountIs(request);
    hide RequestScript, AllGood, Conversation, KeyedMountScript, D.MountScript, Complaint, Mapped, Follows;
    hide TellsMountpoint;
    hide Mutating, Text.Trim, MountpointQuery;
    var a := MappedConversation(script, f, es, response);
    if request.passphrase.Some? {
      KeyedMountTruthful(dataset, request.passphrase.value, es, a.value);
    } else {
      MountTruthful(dataset, es, a.value);
    }
    if a.value.Ok? { assert f(a.value) == Success(Mounted(dataset, a.value.value)); }
  }

  lemma {:induction false} ChangeKeyTruth(request: Request, es: seq<Exchange>, response: Response)
    requires request.ChangeKey? && Conversation(RequestScript(request), es, response)
    ensures TellsTruth(request, es, response)
  {
    var f := Reporting("CHANGE_KEY_ERROR", Announce(KeyChanged(request.dataset)));
    var script := E.ChangeKeyScript(request.dataset, request.oldPassphrase, request.newPassphrase);
    hide AllGood, Conversation, E.ChangeKeyScript, Complaint, Mapped, Follows;
    var a := MappedConversation(script, f, es, response);
    if a.value.Ok? { assert f(a.value) == Success(KeyChanged(request.dataset)); }
  }

  /**
   A request for a change is answered with success exactly when every command ran and every
   mutating one succeeded; the success names what was asked for, and anything else is the
   request's own error with the complaint of the last command issued.
   */
  lemma {:induction false} ResponsesTellTheTruth(request: Request, es: seq<Exchange>, response: Response)
    requires Changes(request) && Conversation(RequestScript(request), es, response)
    ensures TellsTruth(request, es, response)
  {
    hide TellsTruth, Conversation, Mutating, AllGood, Exacting;
    match request {
      case ImportPool(name, device) =>
        ImportMutates(name, device);
        SingleTruth(request, P.ImportCall(name, device), "zpool import failed", Imported(name), es, response);
      case ExportPool(name, force) =>
        ExportMutates(name, force);
        SingleTruth(request, P.ExportCall(name, force), "zpool export failed", Exported(name), es, response);
      case Unmount(dataset, unloadKey) =>
        UnmountMutates(dataset, unloadKey);
        SingleTruth(request, D.UnmountCall(dataset, unloadKey), D.UNMOUNT_FAILED, Unmounted(dataset), es, response);
      case InitPool(name, device, secret, options) =>
        CreateMutates(request);
        SingleTruth(request, P.CreateCall(name, device, secret, options), "Pool creation failed",
                    Created(name, device), es, response);
      case Mount(_, _) =>
        MountTruth(request, es, response);
      case ChangeKey(_, _, _) =>
        ChangeKeyTruth(request, es, response);
    }
  }

  /** A listing whose table could be fetched, and what its table and the later answers make of each row. */
  ghost predicate Listed(es: seq<Exchange>, pools: seq<P.PoolInfo>) {
    es != [] && Conversation(P.ListPoolsScript(), es, Ok(pools))
  }

  /** A listing is answered with what was listed, or with why the table could not be had. */
  ghost predicate TellsPools(es: seq<Exchange>, response: Response) {
    && es != [] && es[0].call == Call("zpool", ["list", "-H", "-o", "name,size,allocated,free,health,guid"], None)
    && (Succeeded(es[0].reply) ==> response.PoolList? && Listed(es, response.pools))
    && (!Succeeded(es[0].reply) ==> response == Error("POOL_LIST_ERROR",
         if es[0].reply.Failed? then es[0].reply.error else "ZFS error: zpool list failed: " + es[0].reply.stderr))
  }

  /**
   Listing pools answers with the pools exactly when the table could be fetched, whatever became
   of the questions about single pools, and otherwise reports why it could not.
   */
  lemma {:induction false} ListPoolsAnswered(es: seq<Exchange>, response: Response)
    requires Conversation(RequestScript(ListPools), es, response)
    ensures TellsPools(es, response) && (response.PoolList? <==> Succeeded(es[0].reply))
  {
    hide P.ListPoolsScript, P.PoolsFrom, Mapped, Conversation, Succeeded;
    var f := Reporting("POOL_LIST_ERROR", AnnouncePools());
    var a := MappedConversation(P.ListPoolsScript(), f, es, response);
    P.ListPoolsCount(es, a.value);
    P.ListPoolsFails(es, a.value);
    assert f(a.value) == if a.value.Ok? then PoolList(a.value.value) else Error("POOL_LIST_ERROR", a.value.error);
  }

  // ---------------------------------------------------------------- keys first, and no undoing

  /** Requests that bring a passphrase for an existing dataset. */
  predicate Keyed(request: Request) {
    (request.Mount? && request.passphrase.Some?) || request.ChangeKey?
  }

  /** Loading the key: the passphrase, for a change the old one, goes to standard input. */
  function LoadCall(request: Request): Call
    requires Keyed(request)
  {
    Call("zfs", ["load-key", request.dataset],
         Some(if request.Mount? then request.passphrase.value else request.oldPassphrase))
  }

  /** What the key is loaded for. */
  function MainCall(request: Request): Call
    requires Keyed(request)
  {
    if request.Mount? then Call("zfs", ["mount", request.dataset], None)
    else Call("zfs", ["change-key", "-o", "keyformat=passphrase", "-o", "keylocation=prompt", request.dataset],
              Some(request.newPassphrase))
  }

  /** The commands of a keyed request so far, finished or not. */
  ghost predicate KeyFirst(request: Request, es: seq<Exchange>)
    requires Keyed(request)
  {
    && (es != [] ==> es[0].call == LoadCall(request))
    && (|es| > 1 ==> Succeeded(es[0].reply) && es[1].call == MainCall(request))
    && (|es| > 2 ==> |es| == 3 && request.Mount? && Succeeded(es[1].reply))
    && (|es| > 2 ==> es[2].call == MountpointQuery(request.dataset))
  }

  lemma {:induction false} CallsAre(request: Request)
    requires Keyed(request)
    ensures LoadCall(request) ==
      E.LoadKeyCall(request.dataset, if request.Mount? then request.passphrase.value else request.oldPassphrase)
    ensures request.Mount? ==> MainCall(request) == D.MountCall(request.dataset)
    ensures request.ChangeKey? ==> MainCall(request) == E.ChangeKeyCall(request.dataset, request.newPassphrase)
    ensures MountpointQuery(request.dataset) == D.MountpointCall(request.dataset)
  {
  }

  lemma {:induction false} MountpointSoFar(dataset: string, es: seq<Exchange>)
    requires Follows(D.MountpointScript(dataset), es) && es != []
    ensures |es| == 1 && es[0].call == D.MountpointCall(dataset)
  {
    hide D.MountpointCall, D.MountpointIn;
    FollowsAt(D.MountpointScript(dataset), es, 0);
  }

  lemma {:induction false} KeyedMountSoFar(request: Request, es: seq<Exchange>)
    requires request.Mount? && Keyed(request)
    requires Follows(KeyedMountScript(request.dataset, request.passphrase.value), es)
    ensures KeyFirst(request, es)
  {
    hide Follows, D.MountpointScript, D.MountCall, D.MountChecked, D.MountpointCall, E.LoadKeyCall, Checked, Then;
    var dataset := request.dataset;
    CallsAre(request);
    hide LoadCall, MainCall, MountpointQuery;
    if es != [] {
      ThenSoFar(E.LoadKeyCall(dataset, request.passphrase.value), Checked(E.LOAD_FAILED), D.MountScript(dataset), es);
      CheckedIs(E.LOAD_FAILED, es[0].reply);
      if |es| > 1 {
        ThenSoFar(D.MountCall(dataset), D.MountChecked(dataset), D.MountpointScript(dataset), es[1..]);
        D.MountCheckedIs(dataset, es[1].reply);
        if |es| > 2 { MountpointSoFar(dataset, es[1..][1..]); }
      }
    }
  }

  /**
   At every moment of a keyed request the first command is the key load, the main command is
   issued only after that load succeeded, and nothing follows it but the mountpoint query after a
   successful mount: there is no compensating command.
   */
  lemma {:induction false} KeyLoadedFirst(request: Request, es: seq<Exchange>)
    requires Keyed(request) && Follows(RequestScript(request), es)
    ensures KeyFirst(request, es)
  {
    if request.Mount? {
      MappedFollows(KeyedMountScript(request.dataset, request.passphrase.value),
                    Reporting("MOUNT_ERROR", AnnounceMount(request.dataset)), es);
      KeyedMountSoFar(request, es);
    } else {
      MappedFollows(E.ChangeKeyScript(request.dataset, request.oldPassphrase, request.newPassphrase),
                    Reporting("CHANGE_KEY_ERROR", Announce(KeyChanged(request.dataset))), es);
    }
  }

  /** The last mutating command that succeeded. */
  function LastSuccess(es: seq<Exchange>): Option<Call> {
    if es == [] then None else
    var n := |es| - 1;
    if Mutating(es[n].call) && Succeeded(es[n].reply) then Some(es[n].call) else LastSuccess(es[..n])
  }

  predicate Counts(e: Exchange) {
    Mutating(e.call) && Succeeded(e.reply)
  }

  lemma {:induction false} LastSuccessTwo(a: Exchange, b: Exchange)
    ensures LastSuccess([a, b]) == if Counts(b) then Some(b.call) else if Counts(a) then Some(a.call) else None
  {
    hide Mutating;
    assert [a, b][..1] == [a] && [a][..0] == [];
    assert LastSuccess([a]) == if Counts(a) then Some(a.call) else LastSuccess([]);
  }

  lemma {:induction false} LastSuccessThree(a: Exchange, b: Exchange, c: Exchange)
    requires !Mutating(c.call)
    ensures LastSuccess([a, b, c]) == LastSuccess([a, b])
  {
    hide Mutating;
    assert [a, b, c][..2] == [a, b];
  }

  lemma {:induction false} MainMutates(request: Request)
    requires Keyed(request)
    ensures Mutating(LoadCall(request)) && Mutating(MainCall(request)) && LoadCall(request) != MainCall(request)
  {
    LoadKeyMutates(request.dataset, "");
    MountMutates(request.dataset);
    ChangeKeyMutates(request.dataset, "");
    assert LoadCall(request).args[0] == "load-key";
    assert MainCall(request).args[0] == if request.Mount? then "mount" else "change-key";
  }

  lemma {:induction false} KeyedErrorLong(request: Request, es: seq<Exchange>, response: Response)
    requires Keyed(request) && Conversation(RequestScript(request), es, response)
    requires response.Error?
    ensures es != [] && (|es| == 1 ==> !Succeeded(es[0].reply))
    ensures |es| == 2 ==> Succeeded(es[0].reply) && !Succeeded(es[1].reply)
    ensures |es| == 3 ==> es[2].reply.Failed?
  {
    hide Mutating, Follows, RequestScript, LoadCall, MainCall, MountpointQuery, D.MountpointCall, Concerns, FailureCode;
    KeyLoadedFirst(request, es);
    ResponsesTellTheTruth(request, es, response);
    MainMutates(request);
    MountpointReads(request.dataset);
    CallsAre(request);
    assert !AllGood(es);
  }

  /**
   When a keyed request fails after its key was loaded, that load is the last mutating command
   that succeeded, exactly when the main command failed. The other case is a dataset that was
   mounted and whose mountpoint could then not be asked for: it stays mounted.
   */
  lemma {:induction false} FailureLeavesKeyLoaded(request: Request, es: seq<Exchange>, response: Response)
    requires Keyed(request) && Conversation(RequestScript(request), es, response)
    requires response.Error? && es != [] && Succeeded(es[0].reply)
    ensures |es| >= 2
    ensures LastSuccess(es) == Some(LoadCall(request)) <==> !Succeeded(es[1].reply)
    ensures Succeeded(es[1].reply) ==> request.Mount? && |es| == 3 && es[2].reply.Failed?
    ensures Succeeded(es[1].reply) ==> LastSuccess(es) == Some(MainCall(request))
  {
    hide RequestScript, LoadCall, MainCall, D.MountpointCall, LastSuccess, Mutating, Follows, MountpointQuery;
    KeyLoadedFirst(request, es);
    KeyedErrorLong(request, es, response);
    MainMutates(request);
    MountpointReads(request.dataset);
    CallsAre(request);
    LastSuccessTwo(es[0], es[1]);
    if |es| == 3 {
      LastSuccessThree(es[0], es[1], es[2]);
      assert es == [es[0], es[1], es[2]];
    } else {
      assert es == [es[0], es[1]];
    }
  }

  lemma {:induction false} QueryLost(dataset: string, passphrase: string, error: string, es: seq<Exchange>)
    requires es == [Exchange(E.LoadKeyCall(dataset, passphrase), Ran("", "", true)),
                    Exchange(D.MountCall(dataset), Ran("", "", true)),
                    Exchange(D.MountpointCall(dataset), Failed(error))]
    ensures Conversation(KeyedMountScript(dataset, passphrase), es, Err(error))
  {
    hide Conversation, Then, Checked, D.MountChecked, D.MountpointScript, E.LoadKeyCall, D.MountCall, D.MountpointCall;
    CheckedIs(E.LOAD_FAILED, es[0].reply);
    D.MountCheckedIs(dataset, es[1].reply);
    ThenConversation(E.LoadKeyCall(dataset, passphrase), Checked(E.LOAD_FAILED), D.MountScript(dataset), es,
                     Err(error));
    ThenConversation(D.MountCall(dataset), D.MountChecked(dataset), D.MountpointScript(dataset), es[1..], Err(error));
    D.MountpointConversation(dataset, es[1..][1..], Err(error));
  }

  /**
   The other case happens: the key is loaded, the dataset mounted, and the query for its mountpoint
   cannot be run. The response is that error, and the dataset stays mounted.
   */
  lemma {:induction false} MountedButFailed(dataset: string, passphrase: string, error: string)
    ensures var request := Mount(dataset, Some(passphrase));
      var es := [Exchange(E.LoadKeyCall(dataset, passphrase), Ran("", "", true)),
                 Exchange(D.MountCall(dataset), Ran("", "", true)),
                 Exchange(D.MountpointCall(dataset), Failed(error))];
      && Conversation(RequestScript(request), es, Error("MOUNT_ERROR", error))
      && LastSuccess(es) == Some(MainCall(request))
  {
    var request, script := Mount(dataset, Some(passphrase)), KeyedMountScript(dataset, passphrase);
    var es := [Exchange(E.LoadKeyCall(dataset, passphrase), Ran("", "", true)),
               Exchange(D.MountCall(dataset), Ran("", "", true)),
               Exchange(D.MountpointCall(dataset), Failed(error))];
    QueryLost(dataset, passphrase, error, es);
    MappedFollows(script, Reporting("MOUNT_ERROR", AnnounceMount(dataset)), es);
    hide Follows, Then, D.MountpointScript, LastSuccess, Mutating, E.LoadKeyCall, D.MountCall, D.MountpointCall;
    MountMutates(dataset);
    MountpointReads(dataset);
    LastSuccessTwo(es[0], es[1]);
    LastSuccessThree(es[0], es[1], es[2]);
  }
}
