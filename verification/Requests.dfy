/** The daemon's requests: what each asks of the runner, and what its response lets a client conclude. */
module Requests {

  import opened Wrappers
  import opened Commands
  import opened CreatePool
  import opened Devices
  import P = Pools
  import E = Encryption
  import D = Datasets

  datatype Request =
    | Ping
    | Status
    | ListPools
    | ListDevices
    | ImportPool(poolName: string, device: Option<string>)
    | ExportPool(poolName: string, force: bool)
    | Mount(dataset: string, passphrase: Option<string>)
    | Unmount(dataset: string, unloadKey: bool)
    | InitPool(poolName: string, devicePath: string, secret: string, options: PoolCreationOptions)
    | ChangeKey(dataset: string, oldPassphrase: string, newPassphrase: string)
    | SubscribeEvents
    | ReloadConfig

  /** What a success message says was done. */
  datatype Report =
    | Imported(pool: string)
    | Exported(pool: string)
    | Mounted(dataset: string, mountpoint: string)
    | Unmounted(dataset: string)
    | Created(pool: string, device: string)
    | KeyChanged(dataset: string)
    | Reloaded

  datatype Response =
    | Pong
    | StatusReport(
        version: string, uptimeSec: nat, poolsImported: seq<P.PoolInfo>, devicesConnected: seq<DeviceInfo>,
        autoDetect: bool)
    | PoolList(pools: seq<P.PoolInfo>)
    | DeviceList(devices: seq<DeviceInfo>)
    | Success(report: Report)
    | Error(code: string, message: string)
    | EventStream

  // ---------------------------------------------------------------- scripts

  function Reporting<A>(code: string, ok: A -> Response): Result<A, string> -> Response {
    (result: Result<A, string>) => match result case Ok(a) => ok(a) case Err(message) => Error(code, message)
  }

  function Announce(report: Report): (()) -> Response {
    (done: ()) => Success(report)
  }

  function AnnounceMount(dataset: string): string -> Response {
    (mountpoint: string) => Success(Mounted(dataset, mountpoint))
  }

  function AnnouncePools(): seq<P.PoolInfo> -> Response {
    (pools: seq<P.PoolInfo>) => PoolList(pools)
  }

  /** Requests answered from commands alone; the others look at the devices or the configuration. */
  predicate CommandsOnly(request: Request) {
    !request.Status? && !request.ListDevices? && !request.ReloadConfig?
  }

  /** Mounting with a passphrase loads the key first, and mounts only if that succeeded. */
  function KeyedMountScript(dataset: string, passphrase: string): Script<Result<string, string>> {
    Then(E.LoadKeyCall(dataset, passphrase), Checked(E.LOAD_FAILED), D.MountScript(dataset))
  }

  function RequestScript(request: Request): Script<Response>
    requires CommandsOnly(request)
  {
    match request
    case Ping => Return(Pong)
    case SubscribeEvents => Return(EventStream)
    case ListPools => Mapped(P.ListPoolsScript(), Reporting("POOL_LIST_ERROR", AnnouncePools()))
    case ImportPool(name, device) =>
      Mapped(P.ImportPoolScript(name, device), Reporting("IMPORT_ERROR", Announce(Imported(name))))
    case ExportPool(name, force) =>
      Mapped(P.ExportPoolScript(name, force), Reporting("EXPORT_ERROR", Announce(Exported(name))))
    case Mount(dataset, passphrase) =>
      var script := if passphrase.Some? then KeyedMountScript(dataset, passphrase.value) else D.MountScript(dataset);
      Mapped(script, Reporting("MOUNT_ERROR", AnnounceMount(dataset)))
    case Unmount(dataset, unloadKey) =>
      Mapped(D.UnmountScript(dataset, unloadKey), Reporting("UNMOUNT_ERROR", Announce(Unmounted(dataset))))
    case InitPool(name, device, secret, options) =>
      Mapped(P.CreatePoolScript(name, device, secret, options),
             Reporting("INIT_ERROR", Announce(Created(name, device))))
    case ChangeKey(dataset, o, n) =>
      Mapped(E.ChangeKeyScript(dataset, o, n), Reporting("CHANGE_KEY_ERROR", Announce(KeyChanged(dataset))))
  }

  // ---------------------------------------------------------------- serving one request

  /** The settings a daemon holds; `others` stands for those no request reads. */
  datatype Config = Config(autoDetect: bool, others: string)

  const VERSION := "0.1.0"

  /** What clients share. No request puts anything into the list of imported pools. */
  class DaemonState {
    var config: Config
    var importedPools: seq<P.PoolInfo>

    constructor (config: Config)
      ensures this.config == config && importedPools == []
    {
      this.config, importedPools := config, [];
    }
  }

  /** The status a daemon reports: its uptime is not measured and its devices are not listed. */
  function StatusOf(config: Config, importedPools: seq<P.PoolInfo>): Response {
    StatusReport(VERSION, 0, importedPools, [], config.autoDetect)
  }

  /** A reload that fails leaves the configuration as it was. */
  function Reload(config: Config, resolved: Result<Config, string>): Config {
    match resolved case Ok(latest) => latest case Err(_) => config
  }

  function ReloadResponse(resolved: Result<Config, string>): Response {
    match resolved case Ok(_) => Success(Reloaded) case Err(message) => Error("CONFIG_ERROR", message)
  }

  function DevicesResponse(scanned: Result<seq<DeviceInfo>, string>): Response {
    match scanned case Ok(devices) => DeviceList(devices) case Err(message) => Error("DEVICE_SCAN_ERROR", message)
  }

  method ServeMount(dataset: string, passphrase: Option<string>, runner: CommandRunner) returns (response: Response)
    modifies runner
    ensures Conducted(RequestScript(Mount(dataset, passphrase)), old(runner.log), runner.log, response)
  {
    hide Follows, Conversation, D.MountpointScript, D.MountChecked;
    var datasets := new D.DatasetManager(runner);
    var result: Result<string, string>;
    if passphrase.Some? {
      var keys := new E.EncryptionManager(runner);
      var loaded, e := keys.LoadKey(dataset, passphrase.value);
      ghost var call := E.LoadKeyCall(dataset, passphrase.value);
      if loaded.Ok? {
        result := datasets.Mount(dataset);
        ThenConducted(call, Checked(E.LOAD_FAILED), D.MountScript(dataset), old(runner.log), e, runner.log, result);
      } else {
        ThenStopped(call, Checked(E.LOAD_FAILED), D.MountScript(dataset), old(runner.log), e);
        result := Err(loaded.error);
      }
      MappedConducted(KeyedMountScript(dataset, passphrase.value), Reporting("MOUNT_ERROR", AnnounceMount(dataset)),
                      old(runner.log), runner.log, result);
    } else {
      result := datasets.Mount(dataset);
      MappedConducted(D.MountScript(dataset), Reporting("MOUNT_ERROR", AnnounceMount(dataset)),
                      old(runner.log), runner.log, result);
    }
    response := Reporting("MOUNT_ERROR", AnnounceMount(dataset))(result);
  }

  method ServePool(request: Request, runner: CommandRunner) returns (response: Response)
    requires request.ListPools? || request.ImportPool? || request.ExportPool? || request.InitPool?
    modifies runner
    ensures Conducted(RequestScript(request), old(runner.log), runner.log, response)
  {
    hide Conducted, Follows;
    var pools := new P.PoolManager(runner);
    match request {
      case ListPools =>
        var result := pools.ListPools();
        MappedConducted(P.ListPoolsScript(), Reporting("POOL_LIST_ERROR", AnnouncePools()),
                        old(runner.log), runner.log, result);
        response := Reporting("POOL_LIST_ERROR", AnnouncePools())(result);
      case ImportPool(name, device) =>
        var result := pools.ImportPool(name, device);
        MappedConducted(P.ImportPoolScript(name, device), Reporting("IMPORT_ERROR", Announce(Imported(name))),
                        old(runner.log), runner.log, result);
        response := Reporting("IMPORT_ERROR", Announce(Imported(name)))(result);
      case ExportPool(name, force) =>
        var result := pools.ExportPool(name, force);
        MappedConducted(P.ExportPoolScript(name, force), Reporting("EXPORT_ERROR", Announce(Exported(name))),
                        old(runner.log), runner.log, result);
        response := Reporting("EXPORT_ERROR", Announce(Exported(name)))(result);
      case InitPool(name, device, secret, options) =>
        var result := pools.CreatePool(name, device, secret, options);
        MappedConducted(P.CreatePoolScript(name, device, secret, options),
                        Reporting("INIT_ERROR", Announce(Created(name, device))),
                        old(runner.log), runner.log, result);
        response := Reporting("INIT_ERROR", Announce(Created(name, device)))(result);
    }
  }

  method ServeDataset(request: Request, runner: CommandRunner) returns (response: Response)
    requires request.Unmount? || request.ChangeKey?
    modifies runner
    ensures Conducted(RequestScript(request), old(runner.log), runner.log, response)
  {
    hide Conducted, Follows;
    match request {
      case Unmount(dataset, unloadKey) =>
        var datasets := new D.DatasetManager(runner);
        var result := datasets.Unmount(dataset, unloadKey);
        MappedConducted(D.UnmountScript(dataset, unloadKey), Reporting("UNMOUNT_ERROR", Announce(Unmounted(dataset))),
                        old(runner.log), runner.log, result);
        response := Reporting("UNMOUNT_ERROR", Announce(Unmounted(dataset)))(result);
      case ChangeKey(dataset, o, n) =>
        var keys := new E.EncryptionManager(runner);
        var result := keys.ChangeKey(dataset, o, n);
        MappedConducted(E.ChangeKeyScript(dataset, o, n), Reporting("CHANGE_KEY_ERROR", Announce(KeyChanged(dataset))),
                        old(runner.log), runner.log, result);
        response := Reporting("CHANGE_KEY_ERROR", Announce(KeyChanged(dataset)))(result);
    }
  }

  lemma {:induction false} ReturnConducted(response: Response, log: seq<Exchange>)
    ensures Conducted(Return(response), log, log, response)
  {
    assert log[|log|..] == [];
  }

  /**
   Serving one request: commands through the runner, a device scan, or the shared configuration
   under its mutex. The scan's and the configuration file's contents are given.
   */
  method ProcessRequest(request: Request, state: DaemonState, runner: CommandRunner,
                        scanned: Result<seq<DeviceInfo>, string>, resolved: Result<Config, string>)
    returns (response: Response)
    modifies state, runner
    ensures CommandsOnly(request) ==> Conducted(RequestScript(request), old(runner.log), runner.log, response)
    ensures !CommandsOnly(request) ==> runner.log == old(runner.log)
    ensures request.Status? ==>
      response == StatusReport("0.1.0", 0, old(state.importedPools), [], old(state.config).autoDetect)
    ensures request.ListDevices? ==>
      response == match scanned case Ok(devices) => DeviceList(devices) case Err(m) => Error("DEVICE_SCAN_ERROR", m)
    ensures request.ReloadConfig? ==>
      response == match resolved case Ok(_) => Success(Reloaded) case Err(m) => Error("CONFIG_ERROR", m)
    ensures state.importedPools == old(state.importedPools)
    ensures state.config == if request.ReloadConfig? && resolved.Ok? then resolved.value else old(state.config)
  {
    hide Conducted, Follows;
    match request {
      case Ping =>
        response := Pong;
        ReturnConducted(Pong, runner.log);
      case SubscribeEvents =>
        response := EventStream;
        ReturnConducted(EventStream, runner.log);
      case Status =>
        response := StatusReport(VERSION, 0, state.importedPools, [], state.config.autoDetect);
      case ListDevices =>
        response := match scanned case Ok(devices) => DeviceList(devices) case Err(m) => Error("DEVICE_SCAN_ERROR", m);
      case ReloadConfig =>
        if resolved.Ok? {
          state.config := resolved.value;
          response := Success(Reloaded);
        } else {
          response := Error("CONFIG_ERROR", resolved.error);
        }
      case Mount(dataset, passphrase) =>
        response := ServeMount(dataset, passphrase, runner);
      case Unmount(_, _) =>
        response := ServeDataset(request, runner);
      case ChangeKey(_, _, _) =>
        response := ServeDataset(request, runner);
      case _ =>
        response := ServePool(request, runner);
    }
  }
}
