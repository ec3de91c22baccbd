/**
 The argument list of pool creation, and a reading of it: an independent left-to-right option
 parser in which the last assignment to a property wins.
 */
module CreatePool {

  import opened Wrappers
  import opened Text
  import opened Sizes

  datatype PoolCreationOptions = PoolCreationOptions(
    encryption: bool,
    algorithm: string,
    compression: string,
    recordsizeKb: nat,
    disableAtime: bool,
    crossPlatformSafe: bool)

  const SAFE_FEATURES: seq<string> := [
    "allocation_classes", "async_destroy", "bookmarks", "bookmark_v2", "device_rebuild", "edonr", "embedded_data",
    "empty_bpobj", "encryption", "extensible_dataset", "filesystem_limits", "hole_birth", "large_blocks",
    "large_dnode", "livelist", "log_spacemap", "lz4_compress", "multi_vdev_crash_dump", "obsolete_counts",
    "project_quota", "redaction_bookmarks", "redacted_datasets", "resilver_defer", "sha512", "skein",
    "spacemap_histogram", "spacemap_v2", "userobj_accounting", "zstd_compress"]

  const RISKY_FEATURES: seq<string> := ["block_cloning_endian", "fast_dedup", "raidz_expansion", "longname"]

  // ---------------------------------------------------------------- what is meant

  /** A property set with `-O` (file system) or `-o` (pool). */
  datatype Setting = Setting(flag: string, key: string, value: string)

  function FeatureSettings(features: seq<string>, value: string): (settings: seq<Setting>)
    ensures |settings| == |features|
    ensures forall i :: 0 <= i < |features| ==> settings[i] == Setting("-o", "feature@" + features[i], value)
  {
    seq(|features|, i requires 0 <= i < |features| => Setting("-o", "feature@" + features[i], value))
  }

  function AtimeSettings(options: PoolCreationOptions): seq<Setting> {
    if options.disableAtime then [Setting("-O", "atime", "off")] else []
  }

  function LayoutSettings(options: PoolCreationOptions): seq<Setting> {
    [Setting("-O", "compression", options.compression),
     Setting("-O", "recordsize", RecordSizeText(options.recordsizeKb))]
  }

  function EncryptionSettings(options: PoolCreationOptions): seq<Setting> {
    if options.encryption then
      [Setting("-O", "encryption", "on"), Setting("-O", "encryption", options.algorithm),
       Setting("-O", "keyformat", "passphrase"), Setting("-O", "keylocation", "prompt")]
    else []
  }

  function FilesystemSettings(options: PoolCreationOptions): seq<Setting> {
    AtimeSettings(options) + (LayoutSettings(options) + EncryptionSettings(options))
  }

  function PoolSettings(options: PoolCreationOptions): seq<Setting> {
    if options.crossPlatformSafe then
      FeatureSettings(SAFE_FEATURES, "enabled") + FeatureSettings(RISKY_FEATURES, "disabled")
    else []
  }

  function Settings(options: PoolCreationOptions): seq<Setting> {
    FilesystemSettings(options) + PoolSettings(options)
  }

  function Render(settings: seq<Setting>): seq<string> {
    if settings == [] then []
    else [settings[0].flag, settings[0].key + "=" + settings[0].value] + Render(settings[1..])
  }

  function Argv(name: string, device: string, options: PoolCreationOptions): seq<string> {
    ["create", "-f"] + (Render(Settings(options)) + [name, device])
  }

  // ---------------------------------------------------------------- building

  lemma {:induction false} RenderSnoc(settings: seq<Setting>, s: Setting)
    ensures Render(settings + [s]) == Render(settings) + [s.flag, s.key + "=" + s.value]
  {
    if settings == [] {
      assert settings + [s] == [s];
      assert Render([s][1..]) == [];
    } else {
      assert (settings + [s])[1..] == settings[1..] + [s];
      RenderSnoc(settings[1..], s);
    }
  }

  method PushSetting(args: seq<string>, s: Setting, ghost settings: seq<Setting>) returns (longer: seq<string>)
    requires args == ["create", "-f"] + Render(settings)
    ensures longer == ["create", "-f"] + Render(settings + [s])
  {
    longer := args + [s.flag];
    longer := longer + [s.key + "=" + s.value];
    RenderSnoc(settings, s);
  }

  method PushFeatures(args: seq<string>, features: seq<string>, value: string, ghost settings: seq<Setting>)
    returns (longer: seq<string>)
    requires args == ["create", "-f"] + Render(settings)
    ensures longer == ["create", "-f"] + Render(settings + FeatureSettings(features, value))
  {
    longer := args;
    ghost var done := settings;
    for i := 0 to |features|
      invariant longer == ["create", "-f"] + Render(done)
      invariant done == settings + FeatureSettings(features, value)[..i]
    {
      var s := Setting("-o", "feature@" + features[i], value);
      longer := PushSetting(longer, s, done);
      done := done + [s];
    }
    assert done == settings + FeatureSettings(features, value);
  }

  method PushFilesystemSettings(options: PoolCreationOptions) returns (args: seq<string>)
    ensures args == ["create", "-f"] + Render(FilesystemSettings(options))
  {
    args := ["create", "-f"];
    ghost var done: seq<Setting> := [];
    assert Render(done) == [];
    if options.disableAtime {
      args := PushSetting(args, Setting("-O", "atime", "off"), done);
      done := done + [Setting("-O", "atime", "off")];
    }
    args := PushSetting(args, Setting("-O", "compression", options.compression), done);
    done := done + [Setting("-O", "compression", options.compression)];
    args := PushSetting(args, Setting("-O", "recordsize", RecordSizeText(options.recordsizeKb)), done);
    done := done + [Setting("-O", "recordsize", RecordSizeText(options.recordsizeKb))];
    if options.encryption {
      args := PushSetting(args, Setting("-O", "encryption", "on"), done);
      done := done + [Setting("-O", "encryption", "on")];
      args := PushSetting(args, Setting("-O", "encryption", options.algorithm), done);
      done := done + [Setting("-O", "encryption", options.algorithm)];
      args := PushSetting(args, Setting("-O", "keyformat", "passphrase"), done);
      done := done + [Setting("-O", "keyformat", "passphrase")];
      args := PushSetting(args, Setting("-O", "keylocation", "prompt"), done);
      done := done + [Setting("-O", "keylocation", "prompt")];
    }
    assert done == FilesystemSettings(options);
  }

  /** The pushes of pool creation, in order. */
  method BuildArgs(name: string, device: string, options: PoolCreationOptions) returns (args: seq<string>)
    ensures args == Argv(name, device, options)
  {
    args := PushFilesystemSettings(options);
    ghost var done := FilesystemSettings(options);
    if options.crossPlatformSafe {
      args := PushFeatures(args, SAFE_FEATURES, "enabled", done);
      done := done + FeatureSettings(SAFE_FEATURES, "enabled");
      args := PushFeatures(args, RISKY_FEATURES, "disabled", done);
      done := done + FeatureSettings(RISKY_FEATURES, "disabled");
    }
    SettingsAre(options, done);
    args := args + [name];
    args := args + [device];
  }

  lemma {:induction false} SettingsAre(options: PoolCreationOptions, done: seq<Setting>)
    requires done == if options.crossPlatformSafe then
      FilesystemSettings(options) + FeatureSettings(SAFE_FEATURES, "enabled")
        + FeatureSettings(RISKY_FEATURES, "disabled")
      else FilesystemSettings(options)
    ensures done == Settings(options)
  {
    ConcatAssoc(FilesystemSettings(options), FeatureSettings(SAFE_FEATURES, "enabled"),
        FeatureSettings(RISKY_FEATURES, "disabled"));
  }

  // ---------------------------------------------------------------- reading

  datatype CommandLine = CommandLine(force: bool, settings: seq<Setting>, operands: seq<string>)

  predicate IsOption(arg: string) {
    |arg| > 1 && arg[0] == '-'
  }

  function ReadSetting(flag: string, text: string): Setting {
    var n := IndexOf(text, '=');
    if n == |text| then Setting(flag, text, "") else Setting(flag, text[..n], text[n + 1..])
  }

  /** Options up to the first operand; each `-O` and `-o` takes the next argument. */
  function Read(args: seq<string>, line: CommandLine): Option<CommandLine>
    decreases |args|
  {
    if args == [] || !IsOption(args[0]) then Some(line.(operands := args))
    else if args[0] == "-f" then Read(args[1..], line.(force := true))
    else if (args[0] == "-O" || args[0] == "-o") && |args| > 1 then
      Read(args[2..], line.(settings := line.settings + [ReadSetting(args[0], args[1])]))
    else None
  }

  /** The values assigned to `key` by `flag`, in order. */
  function Values(settings: seq<Setting>, flag: string, key: string): seq<string> {
    if settings == [] then []
    else (if settings[0].flag == flag && settings[0].key == key then [settings[0].value] else []) +
         Values(settings[1..], flag, key)
  }

  /** The last assignment wins. */
  function Last(settings: seq<Setting>, flag: string, key: string): Option<string> {
    var values := Values(settings, flag, key);
    if values == [] then None else Some(values[|values| - 1])
  }

  /** A flag the parser knows, and a key it cannot cut short. */
  predicate Plain(s: Setting) {
    (s.flag == "-O" || s.flag == "-o") && Free(s.key, '=')
  }

  lemma {:induction false} ReadSettingIs(s: Setting)
    requires Free(s.key, '=')
    ensures ReadSetting(s.flag, s.key + "=" + s.value) == s
  {
    var text := s.key + "=" + s.value;
    IndexOfIs(text, '=', |s.key|);
    assert text[..|s.key|] == s.key && text[|s.key| + 1..] == s.value;
  }

  lemma {:induction false} ReadOne(s: Setting, rest: seq<string>, line: CommandLine)
    requires Plain(s)
    ensures Read([s.flag, s.key + "=" + s.value] + rest, line) == Read(rest, line.(settings := line.settings + [s]))
  {
    ReadSettingIs(s);
    var args := [s.flag, s.key + "=" + s.value] + rest;
    assert args[2..] == rest;
  }

  /** Reading rendered settings recovers them in order. */
  lemma {:induction false} ReadRendered(settings: seq<Setting>, rest: seq<string>, line: CommandLine)
    requires forall s :: s in settings ==> Plain(s)
    ensures Read(Render(settings) + rest, line) == Read(rest, line.(settings := line.settings + settings))
    decreases settings
  {
    if settings == [] {
      assert Render(settings) + rest == rest;
      assert line.settings + settings == line.settings;
    } else {
      var s, more := settings[0], settings[1..];
      var next := line.(settings := line.settings + [s]);
      ReadRendered(more, rest, next);
      ReadOne(s, Render(more) + rest, line);
      ConcatAssoc([s.flag, s.key + "=" + s.value], Render(more), rest);
      ConcatAssoc(line.settings, [s], more);
      assert [s] + more == settings;
    }
  }

  // ---------------------------------------------------------------- the feature names

  /** Tells the feature names apart: the position of a listed name, safe ones first. */
  function Place(name: string): int
    requires |name| > 1
  {
    match |name|
    case 5 => if name[0] == 'e' then 5 else 24
    case 6 => 23
    case 8 => if name[1] == 'i' then 14 else 32
    case 9 => 2
    case 10 => if name[0] == 'e' then 8 else if name[0] == 'h' then 11 else 30
    case 11 => if name[0] == 'b' then 3 else if name[0] == 'e' then 7 else if name[0] == 'l' then 13 else 26
    case 12 => if name[1] == 'a' then 12 else if name[1] == 'o' then 15 else 16
    case 13 => if name[0] == 'a' then 1 else if name[0] == 'e' then 6 else if name[0] == 'p' then 19 else 28
    case 14 => if name[0] == 'd' then 4 else 22
    case 15 => if name[0] == 'o' then 18 else 31
    case 17 => if name[0] == 'f' then 10 else 21
    case 18 => if name[0] == 'a' then 0 else if name[0] == 'e' then 9 else if name[0] == 's' then 25 else 27
    case 19 => 20
    case 20 => 29
    case 21 => 17
    case _ => 33
  }

  predicate PlacedAt(name: string, i: int) {
    |name| > 1 && Place(name) == i && Free(name, '=')
  }

  lemma {:induction false} SafePlaced0()
    ensures forall i :: 0 <= i < 8 ==> PlacedAt(SAFE_FEATURES[i], i)
  {
  }

  lemma {:induction false} SafePlaced1()
    ensures forall i :: 8 <= i < 16 ==> PlacedAt(SAFE_FEATURES[i], i)
  {
  }

  lemma {:induction false} SafePlaced2()
    ensures forall i :: 16 <= i < 23 ==> PlacedAt(SAFE_FEATURES[i], i)
  {
  }

  lemma {:induction false} SafePlaced3()
    ensures forall i :: 23 <= i < 29 ==> PlacedAt(SAFE_FEATURES[i], i)
  {
  }

  lemma {:induction false} RiskyPlaced()
    ensures forall i :: 0 <= i < 4 ==> PlacedAt(RISKY_FEATURES[i], 29 + i)
  {
  }

  /** The pool settings assign to distinct, plainly named features: 29 enabled, then 4 disabled. */
  predicate FeatureAt(s: Setting, i: int) {
    s.flag == "-o" && |s.key| > 8 && s.key[..8] == "feature@" && PlacedAt(s.key[8..], i) &&
    s.value == if i < 29 then "enabled" else "disabled"
  }

  lemma {:induction false} FeatureSettingsAt(features: seq<string>, value: string, offset: int)
    requires forall i :: 0 <= i < |features| ==> PlacedAt(features[i], offset + i)
    requires (offset + |features| <= 29 && value == "enabled") || (29 <= offset && value == "disabled")
    ensures forall i :: 0 <= i < |features| ==> FeatureAt(FeatureSettings(features, value)[i], offset + i)
  {
  }

  lemma {:induction false} PoolSettingsAt(options: PoolCreationOptions)
    requires options.crossPlatformSafe
    ensures |PoolSettings(options)| == 33
    ensures forall i :: 0 <= i < 33 ==> FeatureAt(PoolSettings(options)[i], i)
  {
    SafePlaced0();
    SafePlaced1();
    SafePlaced2();
    SafePlaced3();
    RiskyPlaced();
    FeatureSettingsAt(SAFE_FEATURES, "enabled", 0);
    FeatureSettingsAt(RISKY_FEATURES, "disabled", 29);
    JoinedAt(FeatureSettings(SAFE_FEATURES, "enabled"), FeatureSettings(RISKY_FEATURES, "disabled"));
  }

  lemma {:induction false} JoinedAt(a: seq<Setting>, b: seq<Setting>)
    requires |a| == 29 && forall i :: 0 <= i < 29 ==> FeatureAt(a[i], i)
    requires |b| == 4 && forall i :: 0 <= i < 4 ==> FeatureAt(b[i], 29 + i)
    ensures |a + b| == 33 && forall i :: 0 <= i < 33 ==> FeatureAt((a + b)[i], i)
  {
    forall i | 29 <= i < 33 ensures FeatureAt((a + b)[i], i) {
      assert FeatureAt(b[i - 29], 29 + (i - 29));
    }
  }

  // ---------------------------------------------------------------- reading the settings back

  lemma {:induction false} ValuesConcat(a: seq<Setting>, b: seq<Setting>, flag: string, key: string)
    ensures Values(a + b, flag, key) == Values(a, flag, key) + Values(b, flag, key)
  {
    if a == [] {
      assert a + b == b;
    } else {
      assert (a + b)[1..] == a[1..] + b;
      ValuesConcat(a[1..], b, flag, key);
    }
  }

  lemma {:induction false} ValuesNone(settings: seq<Setting>, flag: string, key: string)
    requires forall s :: s in settings ==> s.flag != flag || s.key != key
    ensures Values(settings, flag, key) == []
  {
    if settings != [] { ValuesNone(settings[1..], flag, key); }
  }

  lemma {:induction false} ValuesUnique(settings: seq<Setting>, i: nat)
    requires i < |settings|
    requires forall j :: 0 <= j < |settings| && j != i ==> settings[j].key != settings[i].key
    ensures Values(settings, settings[i].flag, settings[i].key) == [settings[i].value]
  {
    var flag, key := settings[i].flag, settings[i].key;
    ValuesNone(settings[..i], flag, key);
    ValuesNone(settings[i + 1..], flag, key);
    ValuesConcat(settings[..i], [settings[i]] + settings[i + 1..], flag, key);
    assert settings == settings[..i] + ([settings[i]] + settings[i + 1..]);
    assert ([settings[i]] + settings[i + 1..])[1..] == settings[i + 1..];
  }

  lemma {:induction false} FilesystemValues(options: PoolCreationOptions, key: string)
    ensures Values(Settings(options), "-O", key) == Values(FilesystemSettings(options), "-O", key)
  {
    ValuesConcat(FilesystemSettings(options), PoolSettings(options), "-O", key);
    ValuesNone(PoolSettings(options), "-O", key);
  }

  lemma {:induction false} PoolValues(options: PoolCreationOptions, key: string)
    ensures Values(Settings(options), "-o", key) == Values(PoolSettings(options), "-o", key)
  {
    ValuesConcat(FilesystemSettings(options), PoolSettings(options), "-o", key);
    ValuesNone(FilesystemSettings(options), "-o", key);
  }

  lemma {:induction false} PoolSettingUnique(options: PoolCreationOptions, i: nat)
    requires options.crossPlatformSafe && i < 33
    ensures |PoolSettings(options)| == 33
    ensures var s := PoolSettings(options)[i]; FeatureAt(s, i) && Values(Settings(options), "-o", s.key) == [s.value]
  {
    PoolSettingsAt(options);
    var settings := PoolSettings(options);
    forall j | 0 <= j < 33 && j != i ensures settings[j].key != settings[i].key {
      assert FeatureAt(settings[j], j) && FeatureAt(settings[i], i);
    }
    ValuesUnique(settings, i);
    PoolValues(options, settings[i].key);
  }

  /**
   With `cross_platform_safe` every listed feature is assigned exactly once: a safe one enabled,
   a risky one disabled. Without it no feature is assigned at all.
   */
  lemma {:induction false} FeaturesAssignedOnce(options: PoolCreationOptions, i: nat)
    ensures options.crossPlatformSafe && i < |SAFE_FEATURES| ==>
      Values(Settings(options), "-o", "feature@" + SAFE_FEATURES[i]) == ["enabled"]
    ensures options.crossPlatformSafe && i < |RISKY_FEATURES| ==>
      Values(Settings(options), "-o", "feature@" + RISKY_FEATURES[i]) == ["disabled"]
    ensures !options.crossPlatformSafe ==> forall key :: Values(Settings(options), "-o", key) == []
  {
    if options.crossPlatformSafe {
      if i < 29 { PoolSettingUnique(options, i); }
      if i < 4 { PoolSettingUnique(options, 29 + i); }
    } else {
      forall key ensures Values(Settings(options), "-o", key) == [] {
        PoolValues(options, key);
      }
    }
  }

  lemma {:induction false} SettingsPlain(options: PoolCreationOptions)
    ensures forall s :: s in Settings(options) ==> Plain(s)
  {
    if options.crossPlatformSafe {
      PoolSettingsAt(options);
    }
    FilesystemPlain(options);
  }

  lemma {:induction false} FilesystemPlain(options: PoolCreationOptions)
    ensures forall s :: s in FilesystemSettings(options) ==> Plain(s)
  {
    EncryptionPlain(options);
  }

  lemma {:induction false} EncryptionPlain(options: PoolCreationOptions)
    ensures forall s :: s in EncryptionSettings(options) ==> Plain(s)
  {
  }

  lemma {:induction false} ReadOperandCount(args: seq<string>, line: CommandLine)
    ensures Read(args, line).Some? ==> |Read(args, line).value.operands| <= |args|
    decreases |args|
  {
    if args != [] && IsOption(args[0]) {
      if args[0] == "-f" {
        ReadOperandCount(args[1..], line.(force := true));
      } else if (args[0] == "-O" || args[0] == "-o") && |args| > 1 {
        ReadOperandCount(args[2..], line.(settings := line.settings + [ReadSetting(args[0], args[1])]));
      }
    }
  }

  lemma {:induction false} ReadOperands(name: string, device: string, line: CommandLine)
    ensures Read([name, device], line) == Some(line.(operands := [name, device])) <==> !IsOption(name)
  {
    if IsOption(name) {
      ReadOperandCount([name, device][1..], line.(force := true));
      if name == "-O" || name == "-o" {
        ReadOperandCount([name, device][2..], line.(settings := line.settings + [ReadSetting(name, device)]));
      }
    }
  }

  const NOTHING := CommandLine(false, [], [])

  /**
   After the subcommand, the parser reads back exactly the settings and both operands, for every
   name that does not itself look like an option, and for no other.
   */
  lemma {:induction false} ArgvReadsBack(name: string, device: string, options: PoolCreationOptions)
    ensures Argv(name, device, options)[0] == "create"
    ensures Read(Argv(name, device, options)[1..], NOTHING)
        == Some(CommandLine(true, Settings(options), [name, device]))
       <==> !IsOption(name)
  {
    var settings := Settings(options);
    var tail := Render(settings) + [name, device];
    assert Argv(name, device, options)[1..] == ["-f"] + tail;
    assert (["-f"] + tail)[1..] == tail;
    SettingsPlain(options);
    ReadRendered(settings, [name, device], CommandLine(true, [], []));
    assert [] + settings == settings;
    ReadOperands(name, device, CommandLine(true, settings, []));
  }

  /** The number of kilobytes that a record size such as `128K` denotes. */
  function Kilobytes(text: string): nat {
    if EndsWithChar(text, 'K') && AllDigits(text[..|text| - 1]) then DigitsValue(text[..|text| - 1]) else 0
  }

  /** The options as the settings determine them, the last assignment to each property winning. */
  function Recovered(settings: seq<Setting>): PoolCreationOptions {
    PoolCreationOptions(
      Last(settings, "-O", "encryption").Some?,
      UnwrapOr(Last(settings, "-O", "encryption"), ""),
      UnwrapOr(Last(settings, "-O", "compression"), ""),
      Kilobytes(UnwrapOr(Last(settings, "-O", "recordsize"), "")),
      Last(settings, "-O", "atime") == Some("off"),
      Last(settings, "-o", "feature@encryption") == Some("enabled"))
  }

  lemma {:induction false} KilobytesPrinted(kb: nat)
    ensures Kilobytes(RecordSizeText(kb)) == kb
  {
    var text := RecordSizeText(kb);
    DecimalRoundTrip(kb);
    assert text[..|text| - 1] == Decimal(kb);
  }

  function ValueOf(s: Setting, flag: string, key: string): seq<string> {
    if s.flag == flag && s.key == key then [s.value] else []
  }

  lemma {:induction false} ValuesOne(s: Setting, flag: string, key: string)
    ensures Values([s], flag, key) == ValueOf(s, flag, key)
  {
    assert Values([s][1..], flag, key) == [];
  }

  lemma {:induction false} ValuesTwo(s: Setting, t: Setting, flag: string, key: string)
    ensures Values([s, t], flag, key) == ValueOf(s, flag, key) + ValueOf(t, flag, key)
  {
    ValuesOne(t, flag, key);
    assert [s, t][1..] == [t];
  }

  lemma {:induction false} ValuesFour(s: Setting, t: Setting, u: Setting, v: Setting, flag: string, key: string)
    ensures Values([s, t, u, v], flag, key)
      == (ValueOf(s, flag, key) + ValueOf(t, flag, key)) + (ValueOf(u, flag, key) + ValueOf(v, flag, key))
  {
    ValuesTwo(s, t, flag, key);
    ValuesTwo(u, v, flag, key);
    ValuesConcat([s, t], [u, v], flag, key);
    assert [s, t, u, v] == [s, t] + [u, v];
  }

  lemma {:induction false} EncryptionValues(options: PoolCreationOptions, key: string)
    ensures Values(EncryptionSettings(options), "-O", key) ==
      if !options.encryption then [] else
      if key == "encryption" then ["on", options.algorithm] else
      if key == "keyformat" then ["passphrase"] else
      if key == "keylocation" then ["prompt"] else []
  {
    if options.encryption {
      ValuesFour(Setting("-O", "encryption", "on"), Setting("-O", "encryption", options.algorithm),
                 Setting("-O", "keyformat", "passphrase"), Setting("-O", "keylocation", "prompt"), "-O", key);
    }
  }

  lemma {:induction false} LayoutValues(options: PoolCreationOptions, key: string)
    ensures Values(LayoutSettings(options), "-O", key) ==
      if key == "compression" then [options.compression] else
      if key == "recordsize" then [RecordSizeText(options.recordsizeKb)] else []
  {
    ValuesTwo(Setting("-O", "compression", options.compression),
              Setting("-O", "recordsize", RecordSizeText(options.recordsizeKb)), "-O", key);
  }

  /** Everything assigned to a file-system property, in order. */
  lemma {:induction false} FilesystemAssigns(options: PoolCreationOptions, key: string)
    ensures Values(Settings(options), "-O", key) ==
      if key == "atime" then (if options.disableAtime then ["off"] else []) else
      if key == "compression" then [options.compression] else
      if key == "recordsize" then [RecordSizeText(options.recordsizeKb)] else
      if !options.encryption then [] else
      if key == "encryption" then ["on", options.algorithm] else
      if key == "keyformat" then ["passphrase"] else
      if key == "keylocation" then ["prompt"] else []
  {
    FilesystemValues(options, key);
    ValuesConcat(AtimeSettings(options), LayoutSettings(options) + EncryptionSettings(options), "-O", key);
    ValuesConcat(LayoutSettings(options), EncryptionSettings(options), "-O", key);
    LayoutValues(options, key);
    EncryptionValues(options, key);
  }

  lemma {:induction false} FilesystemLast(options: PoolCreationOptions)
    ensures var s := Settings(options);
      && Last(s, "-O", "atime") == (if options.disableAtime then Some("off") else None)
      && Last(s, "-O", "compression") == Some(options.compression)
      && Last(s, "-O", "recordsize") == Some(RecordSizeText(options.recordsizeKb))
      && Last(s, "-O", "encryption") == (if options.encryption then Some(options.algorithm) else None)
  {
    FilesystemAssigns(options, "atime");
    FilesystemAssigns(options, "compression");
    FilesystemAssigns(options, "recordsize");
    FilesystemAssigns(options, "encryption");
  }

  lemma {:induction false} FeatureLast(options: PoolCreationOptions)
    ensures Last(Settings(options), "-o", "feature@encryption")
      == if options.crossPlatformSafe then Some("enabled") else None
  {
    FeaturesAssignedOnce(options, 8);
    assert SAFE_FEATURES[8] == "encryption";
    assert "feature@" + "encryption" == "feature@encryption";
  }

  /** Every option field is recovered; the algorithm when encryption is on, over `encryption=on`. */
  lemma {:induction false} OptionsRecovered(options: PoolCreationOptions)
    ensures Recovered(Settings(options)) == if options.encryption then options else options.(algorithm := "")
  {
    FilesystemLast(options);
    FeatureLast(options);
    KilobytesPrinted(options.recordsizeKb);
  }
}
