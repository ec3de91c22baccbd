/** Encryption keys and properties: commands, the property fold, and the readers of one value. */
module Encryption {

  import opened Wrappers
  import opened Text
  import opened Commands
  import opened Tables
  import opened Pools

  datatype KeyStatus = UnknownKey | KeyAvailable | KeyUnavailable | NoKey

  datatype EncryptionProps = EncryptionProps(
    algorithm: Option<string>,
    keyformat: Option<string>,
    keylocation: Option<string>,
    keystatus: KeyStatus,
    pbkdf2Iterations: Option<nat>)

  const NO_PROPS := EncryptionProps(None, None, None, UnknownKey, None)

  function KeyStatusOf(value: string): KeyStatus {
    match value
    case "available" => KeyAvailable
    case "unavailable" => KeyUnavailable
    case "none" => NoKey
    case _ => UnknownKey
  }

  // ---------------------------------------------------------------- the property fold

  datatype Property = Property(name: string, value: string)

  /** A line cut at its first tab; lines without one are ignored. */
  function PropertyIn(line: string): Option<Property> {
    var n := IndexOf(line, '\t');
    if n == |line| then None else Some(Property(Trim(line[..n]), Trim(line[n + 1..])))
  }

  /** The value given to `name` by the last line about it. */
  function LastValue(ls: seq<string>, name: string): Option<string> {
    if ls == [] then None else
    var n := |ls| - 1;
    match PropertyIn(ls[n])
    case None => LastValue(ls[..n], name)
    case Some(p) => if p.name == name then Some(p.value) else LastValue(ls[..n], name)
  }

  function UnlessIn(value: Option<string>, absent: set<string>): Option<string> {
    match value case None => None case Some(v) => Unless(v, absent)
  }

  /** The last well-formed line about each property determines it. */
  function PropsOf(ls: seq<string>): EncryptionProps {
    EncryptionProps(
      UnlessIn(LastValue(ls, "encryption"), {"off"}),
      UnlessIn(LastValue(ls, "keyformat"), {"none", "-"}),
      UnlessIn(LastValue(ls, "keylocation"), {"none", "-"}),
      (match LastValue(ls, "keystatus") case None => UnknownKey case Some(v) => KeyStatusOf(v)),
      (match LastValue(ls, "pbkdf2iters") case None => None case Some(v) => ParseU64(v)))
  }

  const KNOWN: set<string> := {"encryption", "keyformat", "keylocation", "keystatus", "pbkdf2iters"}

  lemma {:induction false} LastValueSnoc(ls: seq<string>, line: string, name: string)
    ensures LastValue(ls + [line], name) ==
      if PropertyIn(line).Some? && PropertyIn(line).value.name == name then Some(PropertyIn(line).value.value)
      else LastValue(ls, name)
  {
    hide PropertyIn;
    assert (ls + [line])[..|ls|] == ls;
  }

  /** One turn of the loop. */
  method ReadProperty(props: EncryptionProps, line: string, ghost before: seq<string>) returns (next: EncryptionProps)
    requires props == PropsOf(before)
    ensures next == PropsOf(before + [line])
  {
    hide PropertyIn, KeyStatusOf, ParseU64;
    LastValueSnoc(before, line, "encryption");
    LastValueSnoc(before, line, "keyformat");
    LastValueSnoc(before, line, "keylocation");
    LastValueSnoc(before, line, "keystatus");
    LastValueSnoc(before, line, "pbkdf2iters");
    hide LastValue;
    next := props;
    var parts := PropertyIn(line);
    if parts.None? { return; }
    var value := parts.value.value;
    match parts.value.name {
      case "encryption" => next := next.(algorithm := if value == "off" then None else Some(value));
      case "keyformat" => next := next.(keyformat := if value == "none" || value == "-" then None else Some(value));
      case "keylocation" => next := next.(keylocation := if value == "none" || value == "-" then None else Some(value));
      case "keystatus" => next := next.(keystatus := KeyStatusOf(value));
      case "pbkdf2iters" => next := next.(pbkdf2Iterations := ParseU64(value));
      case _ =>
    }
  }

  lemma {:induction false} NoLines()
    ensures PropsOf([]) == NO_PROPS
  {
  }

  /** The loop that overwrites one field a line. */
  method ReadProps(text: string) returns (props: EncryptionProps)
    ensures props == PropsOf(Lines(text))
  {
    hide PropsOf, Lines;
    var ls := Lines(text);
    props := NO_PROPS;
    NoLines();
    ghost var seen: seq<string> := [];
    for k := 0 to |ls|
      invariant seen == ls[..k] && props == PropsOf(seen)
    {
      props := ReadProperty(props, ls[k], seen);
      seen := seen + [ls[k]];
    }
    assert seen == ls;
  }

  // ---------------------------------------------------------------- what the order of lines matters

  /** Some line gives `name` this value. */
  predicate Gives(ls: seq<string>, name: string, value: string) {
    exists line :: line in ls && PropertyIn(line) == Some(Property(name, value))
  }

  lemma {:induction false} LastValueGiven(ls: seq<string>, name: string)
    ensures LastValue(ls, name).Some? ==> Gives(ls, name, LastValue(ls, name).value)
    ensures LastValue(ls, name).None? ==> forall line :: line in ls ==>
        PropertyIn(line).None? || PropertyIn(line).value.name != name
  {
    hide PropertyIn;
    if ls != [] {
      var n := |ls| - 1;
      LastValueGiven(ls[..n], name);
      assert ls == ls[..n] + [ls[n]];
    }
  }

  /** Two lines about one property. */
  predicate SameProperty(a: string, b: string) {
    PropertyIn(a).Some? && PropertyIn(b).Some? && PropertyIn(a).value.name == PropertyIn(b).value.name
  }

  /** No two lines give one property different values. */
  predicate Consistent(ls: seq<string>) {
    forall a, b :: a in ls && b in ls && SameProperty(a, b) ==> PropertyIn(a) == PropertyIn(b)
  }

  ghost predicate SameLines(a: seq<string>, b: seq<string>) {
    forall line :: line in a <==> line in b
  }

  lemma {:induction false} LastValueOfSameLines(a: seq<string>, b: seq<string>, name: string)
    requires Consistent(a) && SameLines(a, b)
    ensures LastValue(a, name) == LastValue(b, name)
  {
    hide PropertyIn, LastValue;
    LastValueGiven(a, name);
    LastValueGiven(b, name);
  }

  /** With one value a property the result depends on which lines there are, not on their order or number. */
  lemma {:induction false} PropsOfSameLines(a: seq<string>, b: seq<string>)
    requires Consistent(a) && SameLines(a, b)
    ensures PropsOf(a) == PropsOf(b)
  {
    hide LastValue, Consistent, SameLines, ParseU64, KeyStatusOf;
    LastValueOfSameLines(a, b, "encryption");
    LastValueOfSameLines(a, b, "keyformat");
    LastValueOfSameLines(a, b, "keylocation");
    LastValueOfSameLines(a, b, "keystatus");
    LastValueOfSameLines(a, b, "pbkdf2iters");
  }

  /** Permuting lines about distinct properties changes nothing. */
  lemma {:induction false} PermutationInvariant(a: seq<string>, b: seq<string>)
    requires multiset(a) == multiset(b)
    requires forall i, j :: 0 <= i < j < |a| ==> !SameProperty(a[i], a[j])
    ensures PropsOf(a) == PropsOf(b)
  {
    hide PropertyIn;
    forall line ensures line in a <==> line in b {
      assert line in a <==> line in multiset(a);
      assert line in b <==> line in multiset(b);
    }
    PropsOfSameLines(a, b);
  }

  /** A line without a tab, or about no known property. */
  predicate Ignorable(line: string) {
    PropertyIn(line).None? || PropertyIn(line).value.name !in KNOWN
  }

  lemma {:induction false} LastValueInsert(a: seq<string>, line: string, b: seq<string>, name: string)
    requires PropertyIn(line).Some? ==> PropertyIn(line).value.name != name
    ensures LastValue(a + [line] + b, name) == LastValue(a + b, name)
  {
    hide PropertyIn;
    if b == [] {
      LastValueSnoc(a, line, name);
      assert a + [line] + [] == a + [line] && a + [] == a;
    } else {
      var n := |b| - 1;
      LastValueInsert(a, line, b[..n], name);
      LastValueSnoc(a + [line] + b[..n], b[n], name);
      LastValueSnoc(a + b[..n], b[n], name);
      assert a + [line] + b == a + [line] + b[..n] + [b[n]];
      assert a + b == a + b[..n] + [b[n]];
    }
  }

  /** Ignorable lines change nothing, wherever they are inserted. */
  lemma {:induction false} IgnorableLine(a: seq<string>, line: string, b: seq<string>)
    requires Ignorable(line)
    ensures PropsOf(a + [line] + b) == PropsOf(a + b)
  {
    hide LastValue, PropertyIn, ParseU64, KeyStatusOf;
    LastValueInsert(a, line, b, "encryption");
    LastValueInsert(a, line, b, "keyformat");
    LastValueInsert(a, line, b, "keylocation");
    LastValueInsert(a, line, b, "keystatus");
    LastValueInsert(a, line, b, "pbkdf2iters");
  }

  // ---------------------------------------------------------------- the readers of one value

  /** Properties from the answer to the query for them. */
  function PropsIn(reply: Reply): Result<EncryptionProps, string> {
    match reply
    case Failed(e) => Err(e)
    case Ran(stdout, _, success) => Ok(if success then PropsOf(Lines(stdout)) else NO_PROPS)
  }

  function KeyStatusIn(reply: Reply): Result<KeyStatus, string> {
    match reply
    case Failed(e) => Err(e)
    case Ran(stdout, _, success) => Ok(if success then KeyStatusOf(Trim(stdout)) else UnknownKey)
  }

  /** Queries that could not be run report why; failed ones find nothing. */
  lemma {:induction false} FailedQueries(error: string, stdout: string, stderr: string)
    ensures KeyStatusIn(Failed(error)) == Err(error) && PropsIn(Failed(error)) == Err(error)
    ensures KeyStatusIn(Ran(stdout, stderr, false)) == Ok(UnknownKey)
    ensures PropsIn(Ran(stdout, stderr, false)) == Ok(EncryptionProps(None, None, None, UnknownKey, None))
  {
  }

  lemma {:induction false} PropertyLine(name: string, value: string)
    requires Free(name, '\t') && Trim(name) == name
    ensures PropertyIn(name + "\t" + value) == Some(Property(name, Trim(value)))
  {
    var line := name + "\t" + value;
    IndexOfIs(line, '\t', |name|);
    assert line[..|name|] == name && line[|name| + 1..] == value;
  }

  lemma {:induction false} TrimWithoutCr(v: string)
    ensures Trim(if EndsWithChar(v, '\r') then v[..|v| - 1] else v) == Trim(v)
  {
    if EndsWithChar(v, '\r') {
      TrimSnoc(v[..|v| - 1], '\r');
      assert v[..|v| - 1] + ['\r'] == v;
    }
  }

  /** A property printed with its value is read as the trimmed value. */
  lemma {:induction false} PropertyRead(name: string, value: string)
    requires Free(name, '\t') && Free(name, '\n') && Trim(name) == name && Free(value, '\n')
    ensures LastValue(Lines(name + "\t" + value + "\n"), name) == Some(Trim(value))
  {
    var line := name + "\t" + value;
    OneLine(line);
    var kept := if EndsWithChar(value, '\r') then value[..|value| - 1] else value;
    assert Lines(line + "\n") == [name + "\t" + kept] by { LineKept(name, value); }
    PropertyLine(name, kept);
    TrimWithoutCr(value);
    LastValueSnoc([], name + "\t" + kept, name);
    assert [] + [name + "\t" + kept] == [name + "\t" + kept];
  }

  lemma {:induction false} LineKept(name: string, value: string)
    requires Free(name, '\n') && Free(value, '\n')
    ensures Lines(name + "\t" + value + "\n")
      == [name + "\t" + if EndsWithChar(value, '\r') then value[..|value| - 1] else value]
  {
    var line := name + "\t" + value;
    OneLine(line);
    assert EndsWithChar(line, '\r') <==> EndsWithChar(value, '\r');
    if EndsWithChar(value, '\r') { assert line[..|line| - 1] == name + "\t" + value[..|value| - 1]; }
  }

  function LineOf(p: Property): string {
    p.name + "\t" + p.value
  }

  function LinesOf(ps: seq<Property>): seq<string> {
    if ps == [] then [] else LinesOf(ps[..|ps| - 1]) + [LineOf(ps[|ps| - 1])]
  }

  function Given(ps: seq<Property>, name: string): Option<string> {
    if ps == [] then None
    else if ps[|ps| - 1].name == name then Some(ps[|ps| - 1].value)
    else Given(ps[..|ps| - 1], name)
  }

  /** Names and values that printing and trimming leave alone. */
  predicate PlainProperty(p: Property) {
    Free(p.name, '\t') && Free(p.name, '\n') && Free(p.value, '\n') &&
    Trim(p.name) == p.name && Trim(p.value) == p.value
  }

  lemma {:induction false} LinesOfClean(ps: seq<Property>)
    requires forall i :: 0 <= i < |ps| ==> PlainProperty(ps[i])
    ensures forall line :: line in LinesOf(ps) ==> Clean(line)
  {
    hide Trim;
    if ps != [] {
      var n := |ps| - 1;
      LinesOfClean(ps[..n]);
      LineOfClean(ps[n]);
    }
  }

  lemma {:induction false} LineOfClean(p: Property)
    requires PlainProperty(p)
    ensures Clean(LineOf(p))
  {
    hide TrimStart;
    assert p.value != "" ==> !IsWhitespace(p.value[|p.value| - 1]);
  }

  lemma {:induction false} PrintedProperties(ps: seq<Property>, name: string)
    requires forall i :: 0 <= i < |ps| ==> PlainProperty(ps[i])
    ensures LastValue(LinesOf(ps), name) == Given(ps, name)
  {
    hide Trim, PropertyIn, LastValue;
    if ps == [] {
      NoValue(name);
    } else {
      var n := |ps| - 1;
      PrintedProperties(ps[..n], name);
      PropertyLine(ps[n].name, ps[n].value);
      LastValueSnoc(LinesOf(ps[..n]), LineOf(ps[n]), name);
    }
  }

  lemma {:induction false} NoValue(name: string)
    ensures LastValue([], name).None?
  {
  }

  /** A text for a key status; every other word is unknown. */
  predicate ShowsKey(text: string, status: KeyStatus) {
    match status
    case KeyAvailable => text == "available"
    case KeyUnavailable => text == "unavailable"
    case NoKey => text == "none"
    case UnknownKey => text !in {"available", "unavailable", "none"}
  }

  predicate ShowsIterations(text: string, n: Option<nat>) {
    match n case Some(k) => k <= U64_MAX && text == Decimal(k) case None => text in {"none", "-", ""}
  }

  /** Values that are about these properties, whichever marks stand for what is absent. */
  predicate ShowsProps(value: string -> string, props: EncryptionProps) {
    && ShowsText(value("encryption"), props.algorithm, {"off"})
    && ShowsText(value("keyformat"), props.keyformat, {"none", "-"})
    && ShowsText(value("keylocation"), props.keylocation, {"none", "-"})
    && ShowsKey(value("keystatus"), props.keystatus)
    && ShowsIterations(value("pbkdf2iters"), props.pbkdf2Iterations)
  }

  /** Some properties with their values, as a listing names them. */
  function Printed(value: string -> string, names: seq<string>): (ps: seq<Property>)
    ensures |ps| == |names|
    ensures forall i :: 0 <= i < |names| ==> ps[i] == Property(names[i], value(names[i]))
  {
    seq(|names|, i requires 0 <= i < |names| => Property(names[i], value(names[i])))
  }

  lemma {:induction false} GivenPrinted(value: string -> string, names: seq<string>, name: string)
    ensures Given(Printed(value, names), name) == if name in names then Some(value(name)) else None
  {
    if names != [] {
      var n := |names| - 1;
      GivenPrinted(value, names[..n], name);
      assert Printed(value, names)[..n] == Printed(value, names[..n]);
      assert names == names[..n] + [names[n]];
    }
  }

  lemma {:induction false} IterationsRead(text: string, n: Option<nat>)
    requires ShowsIterations(text, n)
    ensures ParseU64(text) == n
  {
    if n.Some? {
      DecimalRoundTrip(n.value);
      assert IsDigit(text[0]);
    }
  }

  lemma {:induction false} PropsAre(ls: seq<string>, value: string -> string, props: EncryptionProps)
    requires ShowsProps(value, props) && forall name :: name in KNOWN ==> LastValue(ls, name) == Some(value(name))
    ensures PropsOf(ls) == props
  {
    IterationsRead(value("pbkdf2iters"), props.pbkdf2Iterations);
    hide LastValue, ParseU64, ShowsIterations;
  }

  /** Plain names and values of one line each. */
  predicate PlainListing(value: string -> string, names: seq<string>) {
    forall i :: 0 <= i < |names| ==> PlainProperty(Property(names[i], value(names[i])))
  }

  /**
   Properties listed as text, the known five among them in any order, are read back field by field,
   whichever marks stand for what is absent.
   */
  lemma {:induction false} PropsPrinted(value: string -> string, names: seq<string>, props: EncryptionProps)
    requires PlainListing(value, names) && (forall name :: name in KNOWN ==> name in names)
    requires ShowsProps(value, props)
    ensures PropsOf(Lines(Unlines(LinesOf(Printed(value, names))))) == props
  {
    var ps, ls := Printed(value, names), LinesOf(Printed(value, names));
    hide PropsOf, LastValue, Given, LinesOf, PlainProperty, ShowsProps, Lines, Unlines, Clean;
    LinesOfClean(ps);
    LinesOfUnlines(ls);
    forall name | name in KNOWN ensures LastValue(ls, name) == Some(value(name)) {
      PrintedProperties(ps, name);
      GivenPrinted(value, names, name);
    }
    PropsAre(ls, value, props);
  }

  /** The key status among the properties is the one the status query finds in the same value. */
  lemma {:induction false} KeyStatusAgrees(value: string, stderr: string)
    requires Free(value, '\n')
    ensures PropsOf(Lines("keystatus" + "\t" + value + "\n")).keystatus == KeyStatusOf(Trim(value))
    ensures KeyStatusIn(Ran(value + "\n", stderr, true)) == Ok(KeyStatusOf(Trim(value)))
  {
    TrimOfTrimmed("keystatus");
    PropertyRead("keystatus", value);
    TrimSnoc(value, '\n');
  }

  /** The pool survey's reader, on the value printed alone. */
  predicate SurveyReads(value: string, stderr: string) {
    EncryptedIn(Ran(value + "\n", stderr, true))
  }

  /** The property reader, on the value printed after its name. */
  predicate PropsRead(value: string) {
    PropsOf(Lines("encryption" + "\t" + value + "\n")).algorithm.Some?
  }

  lemma {:induction false} SurveyReadsIs(value: string, stderr: string)
    ensures SurveyReads(value, stderr) <==>
      Trim(value) != "off" && Trim(value) != "" && Trim(value) != "-" && !StartsWith(Trim(value), "cannot")
  {
    TrimSnoc(value, '\n');
  }

  lemma {:induction false} PropsReadIs(value: string)
    requires Free(value, '\n')
    ensures PropsRead(value) <==> Trim(value) != "off"
  {
    TrimOfTrimmed("encryption");
    PropertyRead("encryption", value);
  }

  /**
   The survey, the dataset listing and the property reader agree on whether a value means
   encryption exactly when it is `off` itself, or trims to something that is neither `off`, empty,
   a dash nor the start of an error message.
   */
  lemma {:induction false} ReadersAgreeIff(value: string, row: seq<string>, stderr: string)
    requires Free(value, '\n') && |row| >= 7 && row[3] == value
    ensures SurveyReads(value, stderr) == DecodeDataset(row).encrypted == PropsRead(value)
       <==> value == "off" ||
            (Trim(value) !in {"off", "", "-"} && !StartsWith(Trim(value), "cannot"))
  {
    SurveyReadsIs(value, stderr);
    PropsReadIs(value);
    TrimOfTrimmed("off");
    TrimOfTrimmed("-");
    hide *;
    assert value == "-" ==> Trim(value) == "-";
    assert value == "off" ==> Trim(value) == "off";
  }

  // ---------------------------------------------------------------- calls and scripts

  function LoadKeyCall(dataset: string, passphrase: string): Call {
    Call("zfs", ["load-key", dataset], Some(passphrase))
  }

  function UnloadKeyCall(dataset: string): Call {
    Call("zfs", ["unload-key", dataset], None)
  }

  function ChangeKeyCall(dataset: string, passphrase: string): Call {
    Call("zfs", ["change-key", "-o", "keyformat=passphrase", "-o", "keylocation=prompt", dataset], Some(passphrase))
  }

  function KeyStatusCall(dataset: string): Call {
    Call("zfs", ["get", "-H", "-o", "value", "keystatus", dataset], None)
  }

  function PropsCall(dataset: string): Call {
    Call("zfs", ["get", "-H", "-o", "property,value", "encryption,keyformat,keylocation,keystatus,pbkdf2iters",
        dataset], None)
  }

  const LOAD_FAILED := "Key load failed"

  function LoadKeyScript(dataset: string, passphrase: string): Script<Result<(), string>> {
    Once(LoadKeyCall(dataset, passphrase), LOAD_FAILED)
  }

  function UnloadKeyScript(dataset: string): Script<Result<(), string>> {
    Once(UnloadKeyCall(dataset), "Key unload failed")
  }

  /** The old key is loaded first; the new one is set only if that succeeded. */
  function ChangeKeyScript(dataset: string, oldPassphrase: string, newPassphrase: string): Script<Result<(), string>> {
    Then(LoadKeyCall(dataset, oldPassphrase), Checked(LOAD_FAILED),
         Once(ChangeKeyCall(dataset, newPassphrase), "Key change failed"))
  }

  // ---------------------------------------------------------------- the manager

  class EncryptionManager {
    const runner: CommandRunner

    constructor (runner: CommandRunner)
      ensures this.runner == runner
    {
      this.runner := runner;
    }

    /** The exchange that loading a key consists of. */
    method LoadKey(dataset: string, passphrase: string) returns (r: Result<(), string>, ghost e: Exchange)
      modifies runner
      ensures runner.log == old(runner.log) + [e] && e.call == LoadKeyCall(dataset, passphrase)
      ensures r == match Checked(LOAD_FAILED)(e.reply) case Err(m) => Err(m) case Ok(_) => Ok(())
      ensures Conducted(LoadKeyScript(dataset, passphrase), old(runner.log), runner.log, r)
    {
      var reply := runner.Run("zfs", ["load-key", dataset], Some(passphrase));
      e := Exchange(LoadKeyCall(dataset, passphrase), reply);
      OnceConducted(LoadKeyCall(dataset, passphrase), LOAD_FAILED, old(runner.log), e);
      r := match Checked(LOAD_FAILED)(reply) case Err(m) => Err(m) case Ok(_) => Ok(());
    }

    method UnloadKey(dataset: string) returns (r: Result<(), string>)
      modifies runner
      ensures Conducted(UnloadKeyScript(dataset), old(runner.log), runner.log, r)
    {
      var reply := runner.Run("zfs", ["unload-key", dataset], None);
      OnceConducted(UnloadKeyCall(dataset), "Key unload failed", old(runner.log),
          Exchange(UnloadKeyCall(dataset), reply));
      r := match Checked("Key unload failed")(reply) case Err(m) => Err(m) case Ok(_) => Ok(());
    }

    method ChangeKey(dataset: string, oldPassphrase: string, newPassphrase: string) returns (r: Result<(), string>)
      modifies runner
      ensures Conducted(ChangeKeyScript(dataset, oldPassphrase, newPassphrase), old(runner.log), runner.log, r)
    {
      ghost var next := Once(ChangeKeyCall(dataset, newPassphrase), "Key change failed");
      ghost var first := LoadKeyCall(dataset, oldPassphrase);
      var loaded, e := LoadKey(dataset, oldPassphrase);
      if loaded.Err? {
        ThenStopped(first, Checked(LOAD_FAILED), next, old(runner.log), e);
        return loaded;
      }
      var reply := runner.Run("zfs",
        ["change-key", "-o", "keyformat=passphrase", "-o", "keylocation=prompt", dataset], Some(newPassphrase));
      OnceConducted(ChangeKeyCall(dataset, newPassphrase), "Key change failed", old(runner.log) + [e],
                    Exchange(ChangeKeyCall(dataset, newPassphrase), reply));
      r := match Checked("Key change failed")(reply) case Err(m) => Err(m) case Ok(_) => Ok(());
      ThenConducted(first, Checked(LOAD_FAILED), next, old(runner.log), e, runner.log, r);
    }

    method KeyStatus(dataset: string) returns (r: Result<KeyStatus, string>, ghost e: Exchange)
      modifies runner
      ensures runner.log == old(runner.log) + [e] && e.call == KeyStatusCall(dataset)
      ensures r == KeyStatusIn(e.reply)
    {
      var reply := runner.Run("zfs", ["get", "-H", "-o", "value", "keystatus", dataset], None);
      e := Exchange(KeyStatusCall(dataset), reply);
      if reply.Failed? { return Err(reply.error), e; }
      r := Ok(if reply.success then KeyStatusOf(Trim(reply.stdout)) else UnknownKey);
    }

    method GetEncryptionProps(dataset: string) returns (r: Result<EncryptionProps, string>, ghost e: Exchange)
      modifies runner
      ensures runner.log == old(runner.log) + [e] && e.call == PropsCall(dataset)
      ensures r == PropsIn(e.reply)
    {
      hide PropsOf;
      var reply := runner.Run("zfs",
        ["get", "-H", "-o", "property,value", "encryption,keyformat,keylocation,keystatus,pbkdf2iters", dataset], None);
      e := Exchange(PropsCall(dataset), reply);
      if reply.Failed? { return Err(reply.error), e; }
      if !reply.success { return Ok(NO_PROPS), e; }
      var props := ReadProps(reply.stdout);
      r := Ok(props);
    }
  }
}
