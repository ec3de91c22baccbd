/** What the daemon's commands ask of `zpool` and `zfs`, against what its clients asked for. */
module Intents {

  import opened Wrappers
  import opened Text
  import opened Commands
  import opened CreatePool
  import opened Tables
  import opened Tools
  import opened Requests
  import opened Responses
  import P = Pools
  import E = Encryption
  import D = Datasets

  // ---------------------------------------------------------------- one command

  lemma {:induction false} ImportMeans(name: string, device: Option<string>)
    ensures (Meaning(P.ImportCall(name, device)) == Some(BringIn(name, device))) == !IsOption(name)
  {
    var call := P.ImportCall(name, device);
    var flags := if device.Some? then [Flag("-d", device)] else [];
    Written(Flag("-d", device));
    assert call.args[0] == "import" && call.args[1..] == Spelled(flags) + [name];
    Tools.ReadOne({"-N", "-f", "-a", "-l"}, {"-d", "-o", "-R", "-c"}, flags, name);
    OneFlag(Flag("-d", device), [name], "-N");
    OneFlag(Flag("-d", device), [name], "-f");
    OneFlag(Flag("-d", device), [name], "-d");
    hide ReadArgs, FlagValue, Given;
  }

  lemma {:induction false} Written(f: Flag)
    ensures Spelled([]) == [] && Spelled([f]) == match f.value case None => [f.name] case Some(v) => [f.name, v]
  {
    assert [f][1..] == [];
  }

  lemma {:induction false} WrittenCons(f: Flag, flags: seq<Flag>)
    ensures Spelled([f] + flags) == (match f.value case None => [f.name] case Some(v) => [f.name, v]) + Spelled(flags)
  {
    assert ([f] + flags)[1..] == flags;
  }

  lemma {:induction false} ExportMeans(name: string, force: bool)
    ensures (Meaning(P.ExportCall(name, force)) == Some(TakeOut(name, force))) == !IsOption(name)
  {
    var call, flag := P.ExportCall(name, force), Flag("-f", None);
    var flags := if force then [flag] else [];
    Written(flag);
    assert call.args[0] == "export" && call.args[1..] == Spelled(flags) + [name];
    Tools.ReadOne({"-f", "-a"}, {}, flags, name);
    OneFlag(flag, [name], "-a");
    OneFlag(flag, [name], "-f");
    hide ReadArgs, FlagValue, Given;
  }

  lemma {:induction false} UnmountMeans(dataset: string, unloadKey: bool)
    ensures (Meaning(D.UnmountCall(dataset, unloadKey)) == Some(UnmountOne(dataset, unloadKey))) == !IsOption(dataset)
  {
    var call, flag := D.UnmountCall(dataset, unloadKey), Flag("-u", None);
    var flags := if unloadKey then [flag] else [];
    Written(flag);
    assert call.args[0] == "unmount" && call.args[1..] == Spelled(flags) + [dataset];
    Tools.ReadOne({"-f", "-u", "-a"}, {}, flags, dataset);
    OneFlag(flag, [dataset], "-f");
    OneFlag(flag, [dataset], "-u");
    hide ReadArgs, FlagValue, Given;
  }

  lemma {:induction false} CreateMeans(name: string, device: string, secret: string, options: PoolCreationOptions)
    ensures (Meaning(P.CreateCall(name, device, secret, options))
         == Some(MakePool(name, device, Settings(options), secret))) == !IsOption(name)
  {
    ArgvReadsBack(name, device, options);
    hide Settings, Render, Read;
    var args := Argv(name, device, options);
    var line := Read(args[1..], NOTHING);
    if line.Some? && |line.value.operands| == 2 {
      var operands := line.value.operands;
      assert operands == [operands[0], operands[1]];
    }
  }

  lemma {:induction false} LoadKeyMeans(dataset: string, secret: string)
    ensures (Meaning(E.LoadKeyCall(dataset, secret)) == Some(LoadKey(dataset, secret))) == !IsOption(dataset)
  {
    var call := E.LoadKeyCall(dataset, secret);
    assert call.args[0] == "load-key" && call.args[1..] == [dataset];
    ReadOperand({"-n", "-r", "-a"}, {"-L"}, dataset);
    hide ReadArgs;
  }

  lemma {:induction false} UnloadKeyMeans(dataset: string)
    ensures (Meaning(E.UnloadKeyCall(dataset)) == Some(DropKey(dataset))) == !IsOption(dataset)
  {
    var call := E.UnloadKeyCall(dataset);
    assert call.args[0] == "unload-key" && call.args[1..] == [dataset];
    ReadOperand({"-r", "-a"}, {}, dataset);
    hide ReadArgs;
  }

  /** What the new key is to be: a passphrase that is prompted for. */
  function Prompted(): seq<Setting> {
    [Setting("-o", "keyformat", "passphrase"), Setting("-o", "keylocation", "prompt")]
  }

  lemma {:induction false} AssignmentRead(key: string, value: string, text: string)
    requires Free(key, '=') && text == key + "=" + value
    ensures ReadSetting("-o", text) == Setting("-o", key, value)
  {
    ReadSettingIs(Setting("-o", key, value));
  }

  lemma {:induction false} AssignmentsTwo(a: string, b: string)
    ensures Assignments([a, b]) == [ReadSetting("-o", a), ReadSetting("-o", b)]
  {
    hide ReadSetting;
    assert [a, b][1..] == [b] && [b][1..] == [];
    assert Assignments([b]) == [ReadSetting("-o", b)] + Assignments([]);
  }

  lemma {:induction false} PromptedRead()
    ensures Assignments(["keyformat=passphrase", "keylocation=prompt"]) == Prompted()
  {
    hide Assignments, ReadSetting;
    assert "keyformat" + "=" + "passphrase" == "keyformat=passphrase";
    assert "keylocation" + "=" + "prompt" == "keylocation=prompt";
    AssignmentRead("keyformat", "passphrase", "keyformat=passphrase");
    AssignmentRead("keylocation", "prompt", "keylocation=prompt");
    AssignmentsTwo("keyformat=passphrase", "keylocation=prompt");
  }

  lemma {:induction false} ChangeKeyLine(dataset: string, a: string, b: string)
    ensures var line := ReadArgs({"-l", "-i"}, {"-o"}, ["-o", a, "-o", b] + [dataset]);
      if IsOption(dataset) then line.None? || line.value.operands == []
      else line.Some? && line.value.operands == [dataset] && !line.value.Has("-i") &&
           ValuesOf(line.value.flags, "-o") == [a, b]
  {
    var f, g := Flag("-o", Some(a)), Flag("-o", Some(b));
    assert [f, g] == [f] + [g];
    WrittenCons(f, [g]);
    Written(g);
    assert Spelled([f, g]) == ["-o", a, "-o", b];
    Tools.ReadOne({"-l", "-i"}, {"-o"}, [f, g], dataset);
    GivenCons(g, [], "-i");
    GivenCons(g, [], "-o");
    GivenCons(f, [g], "-i");
    GivenCons(f, [g], "-o");
    hide ReadArgs, Given, ValuesOf, Spelled;
    assert [g] + [] == [g];
  }

  lemma {:induction false} SetKeyMeans(a: string, b: string, dataset: string, secret: string)
    ensures var meaning := Meaning(Call("zfs", ["change-key", "-o", a, "-o", b, dataset], Some(secret)));
      if IsOption(dataset) then meaning.None? else meaning == Some(SetKey(dataset, Assignments([a, b]), secret))
  {
    var call := Call("zfs", ["change-key", "-o", a, "-o", b, dataset], Some(secret));
    assert call.args[0] == "change-key" && call.args[1..] == ["-o", a, "-o", b] + [dataset];
    ChangeKeyLine(dataset, a, b);
    hide ReadArgs, Given, ValuesOf, Assignments;
  }

  lemma {:induction false} ChangeKeyMeans(dataset: string, secret: string)
    ensures (Meaning(E.ChangeKeyCall(dataset, secret)) == Some(SetKey(dataset, Prompted(), secret)))
         == !IsOption(dataset)
  {
    hide Meaning, Assignments, Prompted;
    SetKeyMeans("keyformat=passphrase", "keylocation=prompt", dataset, secret);
    PromptedRead();
  }

  lemma {:induction false} MountMeans(dataset: string)
    ensures (Meaning(D.MountCall(dataset)) == Some(MountOne(dataset, None))) == !IsOption(dataset)
  {
    var call := D.MountCall(dataset);
    assert call.args[0] == "mount" && call.args[1..] == [dataset];
    ReadOperand({"-l", "-v", "-f", "-O", "-a"}, {"-o"}, dataset);
    OneFlag(Flag("-l", None), [dataset], "-l");
    hide ReadArgs;
  }

  lemma {:induction false} MountLoadingMeans(dataset: string, secret: string)
    ensures (Meaning(D.MountLoadingCall(dataset, secret)) == Some(MountOne(dataset, Some(secret))))
         == !IsOption(dataset)
  {
    var call, flag := D.MountLoadingCall(dataset, secret), Flag("-l", None);
    Written(flag);
    assert call.args[0] == "mount" && call.args[1..] == Spelled([flag]) + [dataset];
    Tools.ReadOne({"-l", "-v", "-f", "-O", "-a"}, {"-o"}, [flag], dataset);
    OneFlag(flag, [dataset], "-l");
    hide ReadArgs;
  }

  lemma {:induction false} SearchMeans(device: Option<string>)
    ensures Meaning(P.SearchCall(device)) == Some(FindPools(device))
  {
    var bare, valued := {"-N", "-f", "-a", "-l"}, {"-d", "-o", "-R", "-c"};
    var call, n, d := P.SearchCall(device), Flag("-N", None), Flag("-d", device);
    var flags := if device.Some? then [n, d] else [n];
    Written(d);
    Written(n);
    assert [n, d] == [n] + [d];
    WrittenCons(n, [d]);
    assert call.args[0] == "import" && call.args[1..] == Spelled(flags) + [];
    ReadNothing(bare, valued);
    ReadSpelled(bare, valued, flags, []);
    OneFlag(n, [], "-a");
    OneFlag(n, [], "-d");
    FlagsTwo(n, d, [], "-a");
    FlagsTwo(n, d, [], "-d");
    hide ReadArgs, Given, FlagValue, Spelled;
    assert flags + [] == flags;
  }

  // ---------------------------------------------------------------- questions

  lemma {:induction false} FlagsTwo(a: Flag, b: Flag, operands: seq<string>, name: string)
    ensures Line([a, b], operands).Has(name) <==> a.name == name || b.name == name
    ensures FlagValue(Line([a, b], operands), name) ==
      if b.name == name && b.value.Some? then b.value else if a.name == name then a.value else None
  {
    GivenCons(b, [], name);
    GivenCons(a, [b], name);
    assert [b] + [] == [b] && [a] + [b] == [a, b];
  }

  lemma {:induction false} FlagsThree(a: Flag, b: Flag, c: Flag, operands: seq<string>, name: string)
    requires a.value.None? && b.value.None?
    ensures Line([a, b, c], operands).Has(name) <==> a.name == name || b.name == name || c.name == name
    ensures FlagValue(Line([a, b, c], operands), name) == if c.name == name then c.value else None
  {
    GivenCons(c, [], name);
    GivenCons(b, [c], name);
    GivenCons(a, [b, c], name);
    assert [c] + [] == [c] && [b] + [c] == [b, c] && [a] + [b, c] == [a, b, c];
  }

  lemma {:induction false} GetLine(names: string, dataset: string, fields: string)
    requires !IsOption(names)
    ensures ReadArgs({"-H", "-r", "-p"}, {"-o", "-s", "-t", "-d"}, ["-H", "-o", fields] + [names, dataset])
         == if IsOption(dataset) then None
            else Some(Line([Flag("-H", None), Flag("-o", Some(fields))], [names, dataset]))
  {
    var bare, valued := {"-H", "-r", "-p"}, {"-o", "-s", "-t", "-d"};
    var h, o := Flag("-H", None), Flag("-o", Some(fields));
    assert [h, o] == [h] + [o];
    WrittenCons(h, [o]);
    Written(o);
    assert Spelled([h, o]) == ["-H", "-o", fields];
    ReadSpelled(bare, valued, [h, o], [names, dataset]);
    ReadTwoOperands(bare, valued, names, dataset);
    hide ReadArgs, Spelled;
    assert [h, o] + [] == [h, o];
  }

  /** A `get` without a heading, for some properties of one dataset, in some fields. */
  lemma {:induction false} GetMeans(names: string, dataset: string, fields: string)
    requires !IsOption(names)
    ensures Meaning(Call("zfs", ["get", "-H", "-o", fields, names, dataset], None))
         == if IsOption(dataset) then None else Some(ShowProperties(dataset, Split(names, ','), Split(fields, ',')))
  {
    var h, o := Flag("-H", None), Flag("-o", Some(fields));
    var call := Call("zfs", ["get", "-H", "-o", fields, names, dataset], None);
    assert call.args[0] == "get" && call.args[1..] == ["-H", "-o", fields] + [names, dataset];
    GetLine(names, dataset, fields);
    FlagsTwo(h, o, [names, dataset], "-H");
    FlagsTwo(h, o, [names, dataset], "-r");
    FlagsTwo(h, o, [names, dataset], "-o");
    hide ReadArgs, Given, FlagValue, Split;
  }

  /** A pool table without a heading, in some columns. */
  lemma {:induction false} TableMeans(columns: string)
    ensures Meaning(Call("zpool", ["list", "-H", "-o", columns], None)) == Some(ShowPools(Split(columns, ',')))
  {
    var bare, valued := {"-H", "-v", "-p"}, {"-o", "-T"};
    var h, o := Flag("-H", None), Flag("-o", Some(columns));
    var call := Call("zpool", ["list", "-H", "-o", columns], None);
    assert [h, o] == [h] + [o];
    WrittenCons(h, [o]);
    Written(o);
    assert call.args[0] == "list" && call.args[1..] == Spelled([h, o]) + [];
    ReadNothing(bare, valued);
    ReadSpelled(bare, valued, [h, o], []);
    FlagsTwo(h, o, [], "-H");
    FlagsTwo(h, o, [], "-o");
    hide ReadArgs, Given, FlagValue, Split, Spelled;
    assert [h, o] + [] == [h, o];
  }

  lemma {:induction false} ListingLine(columns: string, root: string)
    requires !IsOption(root)
    ensures ReadArgs({"-H", "-r", "-p"}, {"-o", "-t", "-s", "-S", "-d"}, ["-H", "-r", "-o", columns] + [root])
         == Some(Line([Flag("-H", None), Flag("-r", None), Flag("-o", Some(columns))], [root]))
  {
    var h, r, o := Flag("-H", None), Flag("-r", None), Flag("-o", Some(columns));
    assert [h, r, o] == [h] + [r, o] && [r, o] == [r] + [o];
    WrittenCons(h, [r, o]);
    WrittenCons(r, [o]);
    Written(o);
    assert Spelled([h, r, o]) == ["-H", "-r", "-o", columns];
    Tools.ReadOne({"-H", "-r", "-p"}, {"-o", "-t", "-s", "-S", "-d"}, [h, r, o], root);
  }

  /** A recursive listing without a heading, in some columns. */
  lemma {:induction false} ListingMeans(columns: string, root: string)
    requires !IsOption(root)
    ensures Meaning(Call("zfs", ["list", "-H", "-r", "-o", columns, root], None))
         == Some(ShowDatasets(root, Split(columns, ',')))
  {
    var h, r, o := Flag("-H", None), Flag("-r", None), Flag("-o", Some(columns));
    var call := Call("zfs", ["list", "-H", "-r", "-o", columns, root], None);
    assert call.args[0] == "list" && call.args[1..] == ["-H", "-r", "-o", columns] + [root];
    ListingLine(columns, root);
    FlagsThree(h, r, o, [root], "-H");
    FlagsThree(h, r, o, [root], "-r");
    FlagsThree(h, r, o, [root], "-o");
    hide ReadArgs, Given, FlagValue, Split;
  }

  // ---------------------------------------------------------------- what a request asks for

  /** What a request for a change asks of the system, in order. */
  function Wanted(request: Request): seq<Action>
    requires Changes(request)
  {
    match request
    case ImportPool(name, device) => [BringIn(name, device)]
    case ExportPool(name, force) => [TakeOut(name, force)]
    case InitPool(name, device, secret, options) => [MakePool(name, device, Settings(options), secret)]
    case Unmount(dataset, unloadKey) => [UnmountOne(dataset, unloadKey)]
    case Mount(dataset, passphrase) =>
      (match passphrase case None => [] case Some(secret) => [LoadKey(dataset, secret)]) +
      [MountOne(dataset, None), ShowProperties(dataset, ["mountpoint"], ["value"])]
    case ChangeKey(dataset, o, n) =>
      [LoadKey(dataset, o),
       SetKey(dataset, [Setting("-o", "keyformat", "passphrase"), Setting("-o", "keylocation", "prompt")], n)]
  }

  /** The pool or dataset it is about. */
  function Target(request: Request): string
    requires Changes(request)
  {
    if request.Mount? || request.Unmount? || request.ChangeKey? then request.dataset else request.poolName
  }

  /** A call that means `action` unless the target looks like an option. */
  predicate Means(call: Call, action: Action, target: string) {
    (Meaning(call) == Some(action)) == !IsOption(target)
  }

  /** The commands so far mean the actions wanted, one each. */
  predicate MeanInTurn(es: seq<Exchange>, actions: seq<Action>, target: string) {
    |es| <= |actions| && forall k :: 0 <= k < |es| ==> Means(es[k].call, actions[k], target)
  }

  lemma {:induction false} OneMeant(call: Call, what: string, es: seq<Exchange>, action: Action, target: string)
    requires Follows(Once(call, what), es) && Means(call, action, target)
    ensures MeanInTurn(es, [action], target)
  {
    hide Means;
    OnceSoFar(call, what, es);
  }

  lemma {:induction false} OneWord(word: string)
    requires Free(word, ',')
    ensures Split(word, ',') == [word]
  {
    SplitFree(word, ',');
  }

  lemma {:induction false} MountpointMeans(dataset: string)
    ensures Means(D.MountpointCall(dataset), ShowProperties(dataset, ["mountpoint"], ["value"]), dataset)
  {
    hide Meaning, Split;
    GetMeans("mountpoint", dataset, "value");
    OneWord("mountpoint");
    OneWord("value");
  }

  lemma {:induction false} MountSoFar(dataset: string, es: seq<Exchange>)
    requires Follows(D.MountScript(dataset), es)
    ensures |es| <= 2 && (|es| > 0 ==> es[0].call == D.MountCall(dataset))
    ensures |es| > 1 ==> es[1].call == D.MountpointCall(dataset)
  {
    hide D.MountpointScript, D.MountCall, D.MountChecked, D.MountpointCall, Then, Follows;
    if es != [] {
      ThenSoFar(D.MountCall(dataset), D.MountChecked(dataset), D.MountpointScript(dataset), es);
      if |es| > 1 { MountpointSoFar(dataset, es[1..]); }
    }
  }

  lemma {:induction false} MountMeant(dataset: string, es: seq<Exchange>)
    requires Follows(RequestScript(Mount(dataset, None)), es)
    ensures MeanInTurn(es, Wanted(Mount(dataset, None)), dataset)
  {
    MappedFollows(D.MountScript(dataset), Reporting("MOUNT_ERROR", AnnounceMount(dataset)), es);
    hide Means, D.MountScript, Follows, D.MountCall, D.MountpointCall, Mapped;
    MountSoFar(dataset, es);
    MeansMount(dataset);
    MountpointMeans(dataset);
  }

  lemma {:induction false} MeansMount(dataset: string)
    ensures Means(D.MountCall(dataset), MountOne(dataset, None), dataset)
  {
    MountMeans(dataset);
  }

  lemma {:induction false} KeyedMeant(request: Request, es: seq<Exchange>)
    requires Keyed(request) && KeyFirst(request, es)
    ensures MeanInTurn(es, Wanted(request), request.dataset)
  {
    hide Meaning, Settings;
    var dataset := request.dataset;
    if request.Mount? {
      LoadKeyMeans(dataset, request.passphrase.value);
      MeansMount(dataset);
      MountpointMeans(dataset);
    } else {
      LoadKeyMeans(dataset, request.oldPassphrase);
      ChangeKeyMeans(dataset, request.newPassphrase);
    }
  }

  /**
   However far a request for a change has got, its commands are read by `zpool` and `zfs` as exactly
   the actions it asks for, in order, with the names, flags and secrets it gives, if and only if
   the pool or dataset does not look like an option.
   */
  lemma {:induction false} CommandsMeanTheRequest(request: Request, es: seq<Exchange>)
    requires Changes(request) && Follows(RequestScript(request), es)
    ensures MeanInTurn(es, Wanted(request), Target(request))
  {
    hide Follows, Meaning, Once, Mapped, Then, Reporting, Settings;
    match request {
      case ImportPool(name, device) =>
        MappedFollows(P.ImportPoolScript(name, device), Reporting("IMPORT_ERROR", Announce(Imported(name))), es);
        ImportMeans(name, device);
        OneMeant(P.ImportCall(name, device), "zpool import failed", es, BringIn(name, device), name);
      case ExportPool(name, force) =>
        MappedFollows(P.ExportPoolScript(name, force), Reporting("EXPORT_ERROR", Announce(Exported(name))), es);
        ExportMeans(name, force);
        OneMeant(P.ExportCall(name, force), "zpool export failed", es, TakeOut(name, force), name);
      case InitPool(name, device, secret, options) =>
        MappedFollows(P.CreatePoolScript(name, device, secret, options),
                      Reporting("INIT_ERROR", Announce(Created(name, device))), es);
        CreateMeans(name, device, secret, options);
        OneMeant(P.CreateCall(name, device, secret, options), "Pool creation failed", es,
                 MakePool(name, device, Settings(options), secret), name);
      case Unmount(dataset, unloadKey) =>
        MappedFollows(D.UnmountScript(dataset, unloadKey),
                      Reporting("UNMOUNT_ERROR", Announce(Unmounted(dataset))), es);
        UnmountMeans(dataset, unloadKey);
        OneMeant(D.UnmountCall(dataset, unloadKey), D.UNMOUNT_FAILED, es, UnmountOne(dataset, unloadKey), dataset);
      case Mount(dataset, passphrase) =>
        if passphrase.None? {
          MountMeant(dataset, es);
        } else {
          KeyLoadedFirst(request, es);
          KeyedMeant(request, es);
        }
      case ChangeKey(_, _, _) =>
        KeyLoadedFirst(request, es);
        KeyedMeant(request, es);
    }
  }

  // ---------------------------------------------------------------- operations no request uses

  /** Unloading a key means just that. */
  lemma {:induction false} UnloadKeyMeant(dataset: string, es: seq<Exchange>)
    requires Follows(E.UnloadKeyScript(dataset), es)
    ensures MeanInTurn(es, [DropKey(dataset)], dataset)
  {
    hide Meaning, Once, Follows;
    UnloadKeyMeans(dataset);
    OneMeant(E.UnloadKeyCall(dataset), "Key unload failed", es, DropKey(dataset), dataset);
  }

  /** Mounting with a key load is one command with the passphrase, and the mountpoint query. */
  lemma {:induction false} LoadingMountMeant(dataset: string, passphrase: string, es: seq<Exchange>)
    requires Follows(D.MountWithKeyloadScript(dataset, passphrase), es)
    ensures MeanInTurn(es, [MountOne(dataset, Some(passphrase)),
                            ShowProperties(dataset, ["mountpoint"], ["value"])], dataset)
  {
    var call, check := D.MountLoadingCall(dataset, passphrase), Checked(D.MOUNT_LOADING_FAILED);
    MountLoadingMeans(dataset, passphrase);
    MountpointMeans(dataset);
    hide Meaning, D.MountpointScript, D.MountLoadingCall, D.MountpointCall, Then, Follows, Checked;
    if es != [] {
      ThenSoFar(call, check, D.MountpointScript(dataset), es);
      if |es| > 1 { MountpointSoFar(dataset, es[1..]); }
    }
  }

  /** The search for pools asks for those in the given directory, if any, and imports none. */
  lemma {:induction false} SearchMeant(device: Option<string>, es: seq<Exchange>)
    requires Follows(P.FindImportableScript(device), es)
    ensures |es| <= 1 && (es != [] ==> Meaning(es[0].call) == Some(FindPools(device)))
  {
    hide Meaning, P.SearchCall, P.PoolNames;
    SearchMeans(device);
    SearchStops(device, es);
    if es != [] { FollowsAt(P.FindImportableScript(device), es, 0); }
  }

  lemma {:induction false} SearchStops(device: Option<string>, es: seq<Exchange>)
    ensures Follows(P.FindImportableScript(device), es) ==> |es| <= 1
  {
    hide P.SearchCall, P.PoolNames;
    if |es| > 1 { FollowsAt(P.FindImportableScript(device), es, 1); }
  }
}
