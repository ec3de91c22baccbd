/**
 What `zpool` and `zfs` take a command to mean: an independent left-to-right reading of its arguments.
 A reading command is answered from a world of pools and datasets, column by column as it asked.
 */
module Tools {

  import opened Wrappers
  import opened Text
  import opened Commands
  import opened CreatePool
  import opened Tables

  // ---------------------------------------------------------------- command lines

  datatype Flag = Flag(name: string, value: Option<string>)

  datatype Line = Line(flags: seq<Flag>, operands: seq<string>)
  {
    predicate Has(name: string) {
      Given(flags, name)
    }
  }

  predicate Given(flags: seq<Flag>, name: string) {
    flags != [] && (flags[0].name == name || Given(flags[1..], name))
  }

  /** The values given to a flag, in order. */
  function ValuesOf(flags: seq<Flag>, name: string): seq<string> {
    if flags == [] then []
    else (if flags[0].name == name && flags[0].value.Some? then [flags[0].value.value] else []) +
         ValuesOf(flags[1..], name)
  }

  /** The last value given to a flag. */
  function FlagValue(line: Line, name: string): Option<string> {
    var values := ValuesOf(line.flags, name);
    if values == [] then None else Some(values[|values| - 1])
  }

  function Preceded(flag: Flag, line: Option<Line>): Option<Line> {
    match line case None => None case Some(l) => Some(Line([flag] + l.flags, l.operands))
  }

  /**
   Flags, then operands. A flag in `valued` takes the next argument, whatever it looks like; one in
   `bare` takes none. An operand that looks like a flag is refused: some readers take it for one.
   */
  function ReadArgs(bare: set<string>, valued: set<string>, args: seq<string>): Option<Line> {
    if args == [] then Some(Line([], []))
    else if args[0] in bare then Preceded(Flag(args[0], None), ReadArgs(bare, valued, args[1..]))
    else if args[0] in valued && |args| > 1 then
      Preceded(Flag(args[0], Some(args[1])), ReadArgs(bare, valued, args[2..]))
    else if exists i :: 0 <= i < |args| && IsOption(args[i]) then None
    else Some(Line([], args))
  }

  // ---------------------------------------------------------------- meanings

  datatype Action =
    | ShowPools(columns: seq<string>)
    | FindPools(directory: Option<string>)
    | BringIn(pool: string, directory: Option<string>)
    | TakeOut(pool: string, force: bool)
    | MakePool(pool: string, device: string, settings: seq<Setting>, secret: string)
    | LoadKey(dataset: string, secret: string)
    | DropKey(dataset: string)
    | SetKey(dataset: string, settings: seq<Setting>, secret: string)
    | MountOne(dataset: string, loading: Option<string>)
    | UnmountOne(dataset: string, dropKey: bool)
    | ShowProperties(dataset: string, names: seq<string>, fields: seq<string>)
    | ShowDatasets(root: string, columns: seq<string>)

  /** The columns that `-o` names. */
  function Columns(line: Line): seq<string> {
    match FlagValue(line, "-o") case None => [] case Some(text) => Split(text, ',')
  }

  function Assignments(texts: seq<string>): seq<Setting> {
    if texts == [] then [] else [ReadSetting("-o", texts[0])] + Assignments(texts[1..])
  }

  function PoolMeaning(verb: string, args: seq<string>, stdin: Option<string>): Option<Action> {
    match verb
    case "list" =>
      (match ReadArgs({"-H", "-v", "-p"}, {"-o", "-T"}, args)
       case Some(line) => if line.Has("-H") && line.operands == [] then Some(ShowPools(Columns(line))) else None
       case None => None)
    case "import" =>
      (match ReadArgs({"-N", "-f", "-a", "-l"}, {"-d", "-o", "-R", "-c"}, args)
       case Some(line) =>
         if |line.operands| == 1 && !line.Has("-N") && !line.Has("-f") then
           Some(BringIn(line.operands[0], FlagValue(line, "-d")))
         else if line.operands == [] && !line.Has("-a") then Some(FindPools(FlagValue(line, "-d"))) else None
       case None => None)
    case "export" =>
      (match ReadArgs({"-f", "-a"}, {}, args)
       case Some(line) =>
         if |line.operands| == 1 && !line.Has("-a") then Some(TakeOut(line.operands[0], line.Has("-f"))) else None
       case None => None)
    case "create" =>
      (match Read(args, NOTHING)
       case Some(line) =>
         if |line.operands| == 2 && line.force && stdin.Some? then
           Some(MakePool(line.operands[0], line.operands[1], line.settings, stdin.value))
         else None
       case None => None)
    case _ => None
  }

  function DatasetMeaning(verb: string, args: seq<string>, stdin: Option<string>): Option<Action> {
    match verb
    case "load-key" =>
      (match ReadArgs({"-n", "-r", "-a"}, {"-L"}, args)
       case Some(line) =>
         if |line.operands| == 1 && line.flags == [] && stdin.Some? then Some(LoadKey(line.operands[0], stdin.value))
         else None
       case None => None)
    case "unload-key" =>
      (match ReadArgs({"-r", "-a"}, {}, args)
       case Some(line) => if |line.operands| == 1 && line.flags == [] then Some(DropKey(line.operands[0])) else None
       case None => None)
    case "change-key" =>
      (match ReadArgs({"-l", "-i"}, {"-o"}, args)
       case Some(line) =>
         if |line.operands| == 1 && !line.Has("-i") && stdin.Some? then
           Some(SetKey(line.operands[0], Assignments(ValuesOf(line.flags, "-o")), stdin.value))
         else None
       case None => None)
    case "mount" =>
      (match ReadArgs({"-l", "-v", "-f", "-O", "-a"}, {"-o"}, args)
       case Some(line) =>
         if |line.operands| == 1 && (line.Has("-l") ==> stdin.Some?) then
           Some(MountOne(line.operands[0], if line.Has("-l") then stdin else None))
         else None
       case None => None)
    case "unmount" =>
      (match ReadArgs({"-f", "-u", "-a"}, {}, args)
       case Some(line) =>
         if |line.operands| == 1 && !line.Has("-f") then Some(UnmountOne(line.operands[0], line.Has("-u"))) else None
       case None => None)
    case "get" =>
      (match ReadArgs({"-H", "-r", "-p"}, {"-o", "-s", "-t", "-d"}, args)
       case Some(line) =>
         if |line.operands| == 2 && line.Has("-H") && !line.Has("-r") then
           Some(ShowProperties(line.operands[1], Split(line.operands[0], ','), Columns(line)))
         else None
       case None => None)
    case "list" =>
      (match ReadArgs({"-H", "-r", "-p"}, {"-o", "-t", "-s", "-S", "-d"}, args)
       case Some(line) =>
         if |line.operands| == 1 && line.Has("-H") && line.Has("-r") then
           Some(ShowDatasets(line.operands[0], Columns(line)))
         else None
       case None => None)
    case _ => None
  }

  /** What a command asks its program to do, when the program accepts it. */
  function Meaning(call: Call): Option<Action> {
    if call.args == [] then None
    else if call.cmd == "zpool" then PoolMeaning(call.args[0], call.args[1..], call.stdin)
    else if call.cmd == "zfs" then DatasetMeaning(call.args[0], call.args[1..], call.stdin)
    else None
  }

  // ---------------------------------------------------------------- reading one command line

  lemma {:induction false} GivenCons(flag: Flag, rest: seq<Flag>, name: string)
    ensures Given([], name) == false && ValuesOf([], name) == []
    ensures Given([flag] + rest, name) <==> flag.name == name || Given(rest, name)
    ensures ValuesOf([flag] + rest, name)
         == (if flag.name == name && flag.value.Some? then [flag.value.value] else []) + ValuesOf(rest, name)
  {
    assert ([flag] + rest)[1..] == rest;
  }

  /** A line with one flag. */
  lemma {:induction false} OneFlag(flag: Flag, operands: seq<string>, name: string)
    ensures Line([flag], operands).Has(name) <==> flag.name == name
    ensures FlagValue(Line([flag], operands), name) == if flag.name == name then flag.value else None
    ensures Line([], operands).Has(name) == false && FlagValue(Line([], operands), name) == None
  {
    GivenCons(flag, [], name);
    assert [flag] + [] == [flag];
  }

  lemma {:induction false} ReadNothing(bare: set<string>, valued: set<string>)
    ensures ReadArgs(bare, valued, []) == Some(Line([], []))
  {
  }

  lemma {:induction false} ReadBare(bare: set<string>, valued: set<string>, flag: string, rest: seq<string>)
    requires flag in bare
    ensures ReadArgs(bare, valued, [flag] + rest) == Preceded(Flag(flag, None), ReadArgs(bare, valued, rest))
  {
    assert ([flag] + rest)[1..] == rest;
  }

  lemma {:induction false} ReadValued(bare: set<string>, valued: set<string>, flag: string, value: string,
      rest: seq<string>)
    requires flag in valued && flag !in bare
    ensures ReadArgs(bare, valued, [flag, value] + rest)
         == Preceded(Flag(flag, Some(value)), ReadArgs(bare, valued, rest))
  {
    assert ([flag, value] + rest)[2..] == rest;
  }

  /** Flags of a program look like flags. */
  predicate Dashed(flags: set<string>) {
    forall f :: f in flags ==> IsOption(f)
  }

  /** An operand is read as one exactly when it does not look like a flag. */
  lemma {:induction false} ReadOperand(bare: set<string>, valued: set<string>, x: string)
    requires Dashed(bare) && Dashed(valued)
    ensures !IsOption(x) ==> ReadArgs(bare, valued, [x]) == Some(Line([], [x]))
    ensures IsOption(x) && ReadArgs(bare, valued, [x]).Some? ==>
      ReadArgs(bare, valued, [x]) == Some(Line([Flag(x, None)], []))
  {
    ReadNothing(bare, valued);
    assert [x][1..] == [] && [x][0] == x;
    assert [Flag(x, None)] + [] == [Flag(x, None)];
  }

  lemma {:induction false} ReadTwoOperands(bare: set<string>, valued: set<string>, x: string, y: string)
    requires Dashed(bare) && Dashed(valued) && !IsOption(x)
    ensures ReadArgs(bare, valued, [x, y]) == if IsOption(y) then None else Some(Line([], [x, y]))
  {
    assert [x, y][0] == x && [x, y][1] == y;
  }

  /** How flags are written. */
  function Spelled(flags: seq<Flag>): seq<string> {
    if flags == [] then []
    else (match flags[0].value case None => [flags[0].name] case Some(v) => [flags[0].name, v]) + Spelled(flags[1..])
  }

  /** Flags the program knows, with a value where one is due. */
  predicate Fits(bare: set<string>, valued: set<string>, flags: seq<Flag>) {
    forall i :: 0 <= i < |flags| ==>
      if flags[i].value.None? then flags[i].name in bare else flags[i].name in valued && flags[i].name !in bare
  }

  /** Written flags are read back in order, whatever follows them. */
  lemma {:induction false} ReadSpelled(bare: set<string>, valued: set<string>, flags: seq<Flag>, rest: seq<string>)
    requires Fits(bare, valued, flags)
    ensures ReadArgs(bare, valued, Spelled(flags) + rest) ==
      match ReadArgs(bare, valued, rest) case None => None case Some(l) => Some(Line(flags + l.flags, l.operands))
  {
    hide ReadArgs;
    if flags == [] {
      assert Spelled(flags) + rest == rest;
      var last := ReadArgs(bare, valued, rest);
      if last.Some? { assert [] + last.value.flags == last.value.flags; }
    } else {
      var f, more := flags[0], Spelled(flags[1..]) + rest;
      ReadSpelled(bare, valued, flags[1..], rest);
      match f.value {
        case None =>
          assert Spelled(flags) + rest == [f.name] + more;
          ReadBare(bare, valued, f.name, more);
        case Some(v) =>
          assert Spelled(flags) + rest == [f.name, v] + more;
          ReadValued(bare, valued, f.name, v, more);
      }
      var last := ReadArgs(bare, valued, rest);
      if last.Some? { assert [f] + (flags[1..] + last.value.flags) == flags + last.value.flags; }
    }
  }

  /** Flags and one operand, which is read as one exactly when it does not look like a flag. */
  lemma {:induction false} ReadOne(bare: set<string>, valued: set<string>, flags: seq<Flag>, x: string)
    requires Dashed(bare) && Dashed(valued) && Fits(bare, valued, flags)
    ensures !IsOption(x) ==> ReadArgs(bare, valued, Spelled(flags) + [x]) == Some(Line(flags, [x]))
    ensures IsOption(x) && ReadArgs(bare, valued, Spelled(flags) + [x]).Some? ==>
      ReadArgs(bare, valued, Spelled(flags) + [x]).value.operands == []
  {
    ReadSpelled(bare, valued, flags, [x]);
    ReadOperand(bare, valued, x);
    hide ReadArgs;
    assert flags + [] == flags;
  }
}
