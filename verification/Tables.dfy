/**
 The tab-separated tables that `zpool` and `zfs` print with `-H`, and the decoders for them.
 The printers are specification functions.
 */
module Tables {

  import opened Wrappers
  import opened Text
  import opened Binary64
  import opened Sizes
  import opened Floats

  // ---------------------------------------------------------------- rows

  /** The lines with at least `n` fields, cut into their fields. */
  function Accepted(ls: seq<string>, n: nat): seq<seq<string>> {
    if ls == [] then []
    else (if |Split(ls[0], '\t')| < n then [] else [Split(ls[0], '\t')]) + Accepted(ls[1..], n)
  }

  function Rows(text: string, n: nat): seq<seq<string>> {
    Accepted(Lines(text), n)
  }

  predicate Wide(rows: seq<seq<string>>, n: nat) {
    forall i :: 0 <= i < |rows| ==> |rows[i]| >= n
  }

  lemma {:induction false} AcceptedWide(ls: seq<string>, n: nat)
    ensures Wide(Accepted(ls, n), n)
  {
    if ls != [] { AcceptedWide(ls[1..], n); }
  }

  lemma {:induction false} AcceptedConcat(a: seq<string>, b: seq<string>, n: nat)
    ensures Accepted(a + b, n) == Accepted(a, n) + Accepted(b, n)
  {
    if a == [] {
      assert a + b == b;
    } else {
      assert (a + b)[1..] == a[1..] + b;
      AcceptedConcat(a[1..], b, n);
    }
  }

  function PrintRow(row: seq<string>): string {
    if row == [] then "" else Join(row, '\t')
  }

  function PrintRows(rows: seq<seq<string>>): (ls: seq<string>)
    ensures |ls| == |rows|
    ensures forall i :: 0 <= i < |rows| ==> ls[i] == PrintRow(rows[i])
  {
    if rows == [] then [] else [PrintRow(rows[0])] + PrintRows(rows[1..])
  }

  /** No field holds a tab or ends a line. */
  predicate CleanRow(row: seq<string>) {
    row != [] && (forall i :: 0 <= i < |row| ==> Free(row[i], '\t') && Free(row[i], '\n') && Free(row[i], '\r'))
  }

  lemma {:induction false} JoinFree(parts: seq<string>, sep: char, c: char)
    requires parts != [] && sep != c
    requires forall i :: 0 <= i < |parts| ==> Free(parts[i], c)
    ensures Free(Join(parts, sep), c)
  {
    if |parts| > 1 { JoinFree(parts[1..], sep, c); }
  }

  lemma {:induction false} PrintRowClean(row: seq<string>)
    requires CleanRow(row)
    ensures Clean(PrintRow(row)) && Split(PrintRow(row), '\t') == row
  {
    JoinFree(row, '\t', '\n');
    JoinFree(row, '\t', '\r');
    SplitJoin(row, '\t');
  }

  predicate CleanRows(rows: seq<seq<string>>, n: nat) {
    forall i :: 0 <= i < |rows| ==> CleanRow(rows[i]) && |rows[i]| >= n
  }

  lemma {:induction false} PrintRowsClean(rows: seq<seq<string>>, n: nat)
    requires CleanRows(rows, n)
    ensures forall line :: line in PrintRows(rows) ==> Clean(line)
  {
    forall i | 0 <= i < |rows| ensures Clean(PrintRows(rows)[i]) {
      PrintRowClean(rows[i]);
    }
  }

  lemma {:induction false} AcceptedPrinted(rows: seq<seq<string>>, n: nat)
    requires CleanRows(rows, n)
    ensures Accepted(PrintRows(rows), n) == rows
  {
    if rows != [] {
      assert CleanRows(rows[1..], n);
      PrintRowClean(rows[0]);
      AcceptedPrinted(rows[1..], n);
      assert PrintRows(rows)[1..] == PrintRows(rows[1..]);
    }
  }

  /** Reading a printed table returns its rows in order. */
  lemma {:induction false} RowsPrinted(rows: seq<seq<string>>, n: nat)
    requires CleanRows(rows, n)
    ensures Rows(Unlines(PrintRows(rows)), n) == rows
  {
    PrintRowsClean(rows, n);
    LinesOfUnlines(PrintRows(rows));
    AcceptedPrinted(rows, n);
  }

  /** Text that stops at a line boundary. */
  predicate WholeLines(text: string) {
    text == "" || EndsWithChar(text, '\n')
  }

  lemma {:induction false} IndexOfConcat(a: string, b: string, c: char)
    requires IndexOf(a, c) < |a|
    ensures IndexOf(a + b, c) == IndexOf(a, c)
  {
    IndexOfFirst(a, c);
    IndexOfIs(a + b, c, IndexOf(a, c));
  }

  lemma {:induction false} RawLinesMore(line: string, rest: string, b: string)
    requires Free(line, '\n') && RawLines(rest + b) == RawLines(rest) + RawLines(b)
    ensures RawLines(line + "\n" + rest + b) == RawLines(line + "\n" + rest) + RawLines(b)
  {
    hide RawLines;
    RawLinesCons(line, rest);
    RawLinesCons(line, rest + b);
    assert line + "\n" + rest + b == line + "\n" + (rest + b);
    ConsAssoc(line + "\n", RawLines(rest), RawLines(b));
  }

  lemma {:induction false} RawLinesConcat(a: string, b: string)
    requires WholeLines(a)
    ensures RawLines(a + b) == RawLines(a) + RawLines(b)
    decreases |a|
  {
    if a == "" {
      assert a + b == b;
    } else {
      var n := IndexOf(a, '\n');
      IndexOfFirst(a, '\n');
      RawLinesConcat(a[n + 1..], b);
      RawLinesMore(a[..n], a[n + 1..], b);
      assert a == a[..n] + "\n" + a[n + 1..];
    }
  }

  /** Line splitting distributes over text that stops at a line boundary. */
  lemma {:induction false} LinesConcat(a: string, b: string)
    requires WholeLines(a)
    ensures Lines(a + b) == Lines(a) + Lines(b)
  {
    RawLinesConcat(a, b);
  }

  lemma {:induction false} OneLine(line: string)
    requires Free(line, '\n')
    ensures Lines(line + "\n") == [if EndsWithChar(line, '\r') then line[..|line| - 1] else line]
  {
    LinesCons(line, "");
    assert line + "\n" + "" == line + "\n";
  }

  lemma {:induction false} SplitAt(s: string, c: char)
    requires IndexOf(s, c) < |s|
    ensures Split(s, c) == [s[..IndexOf(s, c)]] + Split(s[IndexOf(s, c) + 1..], c)
  {
    hide IndexOf;
  }

  lemma {:induction false} SplitCount(s: string, t: string, c: char)
    requires Free(t, c)
    ensures |Split(s + t, c)| == |Split(s, c)|
    decreases |s|
  {
    hide Split, IndexOf;
    var n := IndexOf(s, c);
    IndexOfFirst(s, c);
    if n == |s| {
      SplitFree(s + t, c);
      SplitFree(s, c);
    } else {
      IndexOfConcat(s, t, c);
      assert (s + t)[n + 1..] == s[n + 1..] + t;
      SplitCount(s[n + 1..], t, c);
      SplitAt(s, c);
      SplitAt(s + t, c);
    }
  }

  lemma {:induction false} AcceptedOne(line: string, n: nat)
    ensures Accepted([line], n) == if |Split(line, '\t')| < n then [] else [Split(line, '\t')]
  {
    hide Split;
    assert [line][1..] == [];
    assert Accepted([line][1..], n) == [];
  }

  lemma {:induction false} ShortLine(line: string, n: nat)
    requires Free(line, '\n') && |Split(line, '\t')| < n
    ensures Rows(line + "\n", n) == []
  {
    hide Split, Accepted, Lines;
    OneLine(line);
    if EndsWithChar(line, '\r') {
      var body := line[..|line| - 1];
      assert line == body + "\r";
      SplitCount(body, "\r", '\t');
      AcceptedOne(body, n);
    } else {
      AcceptedOne(line, n);
    }
  }

  lemma {:induction false} RowsConcat(a: string, b: string, n: nat)
    requires WholeLines(a)
    ensures Rows(a + b, n) == Rows(a, n) + Rows(b, n)
  {
    LinesConcat(a, b);
    AcceptedConcat(Lines(a), Lines(b), n);
  }

  lemma {:induction false} RowsInsert(before: string, middle: string, after: string, n: nat)
    requires WholeLines(before) && WholeLines(middle) && Rows(middle, n) == []
    ensures Rows(before + (middle + after), n) == Rows(before + after, n)
  {
    RowsConcat(before, middle + after, n);
    RowsConcat(middle, after, n);
    RowsConcat(before, after, n);
    assert [] + Rows(after, n) == Rows(after, n);
  }

  /** A line with too few fields changes nothing, wherever it is inserted. */
  lemma {:induction false} ShortLineIgnored(before: string, line: string, after: string, n: nat)
    requires WholeLines(before) && Free(line, '\n') && |Split(line, '\t')| < n
    ensures Rows(before + ((line + "\n") + after), n) == Rows(before + after, n)
  {
    ShortLine(line, n);
    RowsInsert(before, line + "\n", after, n);
  }

  // ---------------------------------------------------------------- datasets

  datatype DatasetInfo = DatasetInfo(
    name: string,
    mountpoint: Option<string>,
    mounted: bool,
    encrypted: bool,
    compression: Option<string>,
    recordsize: Option<nat>,
    quota: Option<nat>)

  function Unless(text: string, absent: set<string>): Option<string> {
    if text in absent then None else Some(text)
  }

  /** The record in a row whose last two fields denote the given sizes. */
  function DatasetIn(row: seq<string>, recordsize: nat, quota: nat): DatasetInfo
    requires |row| >= 7
  {
    DatasetInfo(
      row[0],
      Unless(row[1], {"none", "-"}),
      row[2] == "yes",
      row[3] != "off" && row[3] != "-",
      Unless(row[4], {"off", "-"}),
      Some(recordsize),
      if row[6] in {"none", "-", "0"} then None else Some(quota))
  }

  function DecodeDataset(row: seq<string>): DatasetInfo
    requires |row| >= 7
  {
    DatasetIn(row, ParseZfsSize(row[5]), ParseZfsSize(row[6]))
  }

  function DecodeDatasets(rows: seq<seq<string>>): seq<DatasetInfo>
    requires Wide(rows, 7)
  {
    if rows == [] then [] else [DecodeDataset(rows[0])] + DecodeDatasets(rows[1..])
  }

  /** How a program prints sizes. */
  type Printer = nat -> string

  /** A size that its printed text gives back; text for no size is different. */
  predicate Readable(show: Printer, n: nat) {
    ParseZfsSize(show(n)) == n && show(n) !in {"none", "-", "0"}
  }

  /** A text for an optional value, where some texts stand for none. */
  predicate ShowsText(text: string, o: Option<string>, absent: set<string>) {
    match o case Some(v) => text == v && v !in absent case None => text in absent
  }

  predicate ShowsSize(show: Printer, text: string, n: nat) {
    text == show(n) && Readable(show, n)
  }

  predicate ShowsQuota(show: Printer, text: string, quota: Option<nat>) {
    match quota case Some(n) => ShowsSize(show, text, n) case None => text in {"none", "-", "0"}
  }

  /** A row of the listing that is about this record, whichever marks stand for what is absent. */
  predicate ShowsDataset(show: Printer, row: seq<string>, d: DatasetInfo) {
    && |row| == 7
    && row[0] == d.name
    && ShowsText(row[1], d.mountpoint, {"none", "-"})
    && (if d.mounted then row[2] == "yes" else row[2] in {"no", "-"})
    && (if d.encrypted then row[3] !in {"off", "-"} else row[3] in {"off", "-"})
    && ShowsText(row[4], d.compression, {"off", "-"})
    && d.recordsize.Some? && ShowsSize(show, row[5], d.recordsize.value)
    && ShowsQuota(show, row[6], d.quota)
  }

  lemma {:induction false} DatasetPrinted(show: Printer, row: seq<string>, d: DatasetInfo)
    requires ShowsDataset(show, row, d)
    ensures DecodeDataset(row) == d
  {
    hide ParseZfsSize;
  }

  predicate ShowsDatasets(show: Printer, rows: seq<seq<string>>, ds: seq<DatasetInfo>) {
    |rows| == |ds| && forall i :: 0 <= i < |rows| ==> ShowsDataset(show, rows[i], ds[i]) && CleanRow(rows[i])
  }

  lemma {:induction false} DecodeDatasetsPrinted(show: Printer, rows: seq<seq<string>>, ds: seq<DatasetInfo>)
    requires ShowsDatasets(show, rows, ds)
    ensures CleanRows(rows, 7) && Wide(rows, 7) && DecodeDatasets(rows) == ds
  {
    hide ShowsDataset, CleanRow, DecodeDataset;
    forall i | 0 <= i < |rows| ensures |rows[i]| == 7 { RowLength(show, rows[i], ds[i]); }
    if rows != [] {
      DatasetPrinted(show, rows[0], ds[0]);
      DecodeDatasetsPrinted(show, rows[1..], ds[1..]);
    }
  }

  lemma {:induction false} RowLength(show: Printer, row: seq<string>, d: DatasetInfo)
    requires ShowsDataset(show, row, d)
    ensures |row| == 7
  {
  }

  function DatasetsOf(ls: seq<string>): seq<DatasetInfo> {
    AcceptedWide(ls, 7);
    DecodeDatasets(Accepted(ls, 7))
  }

  function DatasetTable(text: string): seq<DatasetInfo> {
    DatasetsOf(Lines(text))
  }

  lemma {:induction false} DatasetsOfCons(ls: seq<string>)
    requires ls != []
    ensures DatasetsOf(ls) == if |Split(ls[0], '\t')| < 7 then DatasetsOf(ls[1..])
                              else [DecodeDataset(Split(ls[0], '\t'))] + DatasetsOf(ls[1..])
  {
    var rest := Accepted(ls[1..], 7);
    AcceptedWide(ls[1..], 7);
    if |Split(ls[0], '\t')| < 7 {
      assert Accepted(ls, 7) == rest;
    } else {
      assert Accepted(ls, 7)[1..] == rest;
    }
  }

  lemma {:induction false} DatasetsOfStep(ls: seq<string>, k: nat, found: seq<DatasetInfo>)
    requires k < |ls|
    ensures found + DatasetsOf(ls[k..]) ==
      (if |Split(ls[k], '\t')| < 7 then found else found + [DecodeDataset(Split(ls[k], '\t'))])
      + DatasetsOf(ls[k + 1..])
  {
    DatasetsOfCons(ls[k..]);
    hide DecodeDataset, DatasetsOf;
    assert ls[k..][0] == ls[k] && ls[k..][1..] == ls[k + 1..];
    if |Split(ls[k], '\t')| >= 7 {
      ConcatAssoc(found, [DecodeDataset(Split(ls[k], '\t'))], DatasetsOf(ls[k + 1..]));
    }
  }

  /** The decoding loop of a dataset listing. */
  method ReadDatasets(text: string) returns (datasets: seq<DatasetInfo>)
    ensures datasets == DatasetTable(text)
  {
    hide DecodeDataset;
    datasets := [];
    var ls := Lines(text);
    assert ls[0..] == ls;
    for k := 0 to |ls|
      invariant datasets + DatasetsOf(ls[k..]) == DatasetsOf(ls)
    {
      var parts := Split(ls[k], '\t');
      DatasetsOfStep(ls, k, datasets);
      if |parts| < 7 { continue; }
      datasets := datasets + [DecodeDataset(parts)];
    }
  }

  /** Decoding a listing returns the dataset records that its rows show, in order. */
  lemma {:induction false} DatasetsPrinted(show: Printer, rows: seq<seq<string>>, ds: seq<DatasetInfo>)
    requires ShowsDatasets(show, rows, ds)
    ensures DatasetTable(Unlines(PrintRows(rows))) == ds
  {
    DecodeDatasetsPrinted(show, rows, ds);
    RowsPrinted(rows, 7);
  }

  /**
   The record size that pool creation prints is listed back as kb * 1024 bytes exactly when kb has
   a 53-bit significand and is below 2^54; from there on it saturates.
   */
  lemma {:induction false} RecordSizeListed(row: seq<string>, kb: nat)
    requires |row| >= 7 && row[5] == RecordSizeText(kb)
    ensures DecodeDataset(row).recordsize == Some(kb * 1024) <==> kb < 2 * PRECISION && FitsSignificand(kb)
    ensures kb <= PRECISION ==> DecodeDataset(row).recordsize == Some(kb * 1024)
    ensures kb >= 2 * PRECISION ==> DecodeDataset(row).recordsize == Some(U64_MAX)
  {
    RecordSizeRoundTrip(kb);
  }

  // ---------------------------------------------------------------- whole sizes

  /** The largest unit not above `n`, and its letter. */
  function NiceUnit(n: nat): (Suffix, char) {
    if n >= 0x4_0000_0000_0000 then (Pebi, 'P')
    else if n >= 0x100_0000_0000 then (Tebi, 'T')
    else if n >= 0x4000_0000 then (Gibi, 'G')
    else if n >= 0x10_0000 then (Mebi, 'M')
    else if n >= 0x400 then (Kibi, 'K')
    else (One, 'B')
  }

  /** How `zpool` and `zfs` print a size that is whole in its unit, without decimals. */
  function NiceSize(n: nat): string {
    Decimal(n / NiceUnit(n).0.Bytes()) + [NiceUnit(n).1]
  }

  lemma {:induction false} NiceUnitRead(n: nat)
    ensures IsSuffixChar(NiceUnit(n).1) && SuffixOf([NiceUnit(n).1]) == NiceUnit(n).0
  {
  }

  /**
   A size that is whole in its unit is read back from the text printed for it, up to 1024 units of
   the largest suffix the parser knows; from there on the program prints a suffix it does not know.
   */
  lemma {:induction false} NiceSizeRead(n: nat)
    requires n < 0x1000_0000_0000_0000 && n % NiceUnit(n).0.Bytes() == 0
    ensures Readable(NiceSize, n)
  {
    var u, c := NiceUnit(n).0, NiceUnit(n).1;
    var q := n / u.Bytes();
    NiceUnitRead(n);
    assert q <= PRECISION && q * u.Bytes() == n;
    ParsePrinted(q, c);
    BytesOfInteger(q, u);
    assert EndsWithChar(NiceSize(n), c);
    hide ParseZfsSize, Decimal, Bytes;
  }

  // ---------------------------------------------------------------- pools

  datatype PoolHealth = Online | Degraded | Faulted | Offline | Unavailable | Removed | Unknown

  /**
   Upper case as far as ASCII words can tell: the characters some of whose upper-case forms are
   ASCII letters. Every other character keeps a form no ASCII word contains.
   */
  function UpperChar(c: char): string {
    if 'a' <= c <= 'z' then [(c as int - 32) as char]
    else if c == '\U{DF}' then "SS"
    else if c == '\U{131}' then "I"
    else if c == '\U{17F}' then "S"
    else if c == '\U{FB00}' then "FF"
    else if c == '\U{FB01}' then "FI"
    else if c == '\U{FB02}' then "FL"
    else if c == '\U{FB03}' then "FFI"
    else if c == '\U{FB04}' then "FFL"
    else if c == '\U{FB05}' || c == '\U{FB06}' then "ST"
    else [c]
  }

  function Upper(s: string): string {
    if s == "" then "" else UpperChar(s[0]) + Upper(s[1..])
  }

  function ParseHealth(text: string): PoolHealth {
    match Upper(Trim(text))
    case "ONLINE" => Online
    case "DEGRADED" => Degraded
    case "FAULTED" => Faulted
    case "OFFLINE" => Offline
    case "UNAVAIL" => Unavailable
    case "UNAVAILABLE" => Unavailable
    case "REMOVED" => Removed
    case _ => Unknown
  }

  /** A word for each health in any casing and surrounded by any white space; every other text is unknown. */
  predicate ShowsHealth(text: string, health: PoolHealth) {
    var word := Upper(Trim(text));
    match health
    case Online => word == "ONLINE"
    case Degraded => word == "DEGRADED"
    case Faulted => word == "FAULTED"
    case Offline => word == "OFFLINE"
    case Unavailable => word in {"UNAVAIL", "UNAVAILABLE"}
    case Removed => word == "REMOVED"
    case Unknown => word !in {"ONLINE", "DEGRADED", "FAULTED", "OFFLINE", "UNAVAIL", "UNAVAILABLE", "REMOVED"}
  }

  lemma {:induction false} HealthPrinted(text: string, health: PoolHealth)
    requires ShowsHealth(text, health)
    ensures ParseHealth(text) == health
  {
    hide Upper, Trim;
  }

  /** The same word but for the case of its letters. */
  predicate SameWord(s: string, word: string) {
    |s| == |word| && forall i :: 0 <= i < |s| ==> LowerAscii(s[i]) == LowerAscii(word[i])
  }

  lemma {:induction false} UpperWord(s: string, word: string)
    requires SameWord(s, word) && forall i :: 0 <= i < |word| ==> 'A' <= word[i] <= 'Z'
    ensures Upper(s) == word
  {
    if s != "" { UpperWord(s[1..], word[1..]); }
  }

  lemma {:induction false} WordTrimmed(s: string, word: string)
    requires SameWord(s, word) && forall i :: 0 <= i < |word| ==> 'A' <= word[i] <= 'Z'
    ensures Trim(s) == s
  {
    forall i | 0 <= i < |s| ensures !IsWhitespace(s[i]) { assert LowerAscii(s[i]) == LowerAscii(word[i]); }
    TrimOfTrimmed(s);
  }

  /** A word of capital letters means the same in every mixture of upper and lower case. */
  lemma {:induction false} HealthAnyCase(text: string, word: string, health: PoolHealth)
    requires SameWord(text, word) && forall i :: 0 <= i < |word| ==> 'A' <= word[i] <= 'Z'
    requires ShowsHealth(word, health)
    ensures ParseHealth(text) == health
  {
    hide ParseHealth;
    UpperWord(text, word);
    UpperWord(word, word);
    WordTrimmed(text, word);
    WordTrimmed(word, word);
    hide Upper, Trim, SameWord;
    HealthPrinted(text, health);
  }

  /** What a row of the pool listing says. */
  datatype PoolRow = PoolRow(name: string, size: nat, used: nat, free: nat, health: PoolHealth, guid: string)

  function DecodePoolRow(row: seq<string>): PoolRow
    requires |row| >= 6
  {
    PoolRow(row[0], ParseZfsSize(row[1]), ParseZfsSize(row[2]), ParseZfsSize(row[3]), ParseHealth(row[4]), row[5])
  }

  /** A row of the pool listing that is about this pool. */
  predicate ShowsPool(show: Printer, row: seq<string>, r: PoolRow) {
    && |row| == 6
    && row[0] == r.name
    && ShowsSize(show, row[1], r.size) && ShowsSize(show, row[2], r.used) && ShowsSize(show, row[3], r.free)
    && ShowsHealth(row[4], r.health)
    && row[5] == r.guid
  }

  lemma {:induction false} PoolRowPrinted(show: Printer, row: seq<string>, r: PoolRow)
    requires ShowsPool(show, row, r)
    ensures |row| == 6 && DecodePoolRow(row) == r
  {
    hide ParseZfsSize, ShowsHealth, ParseHealth;
    HealthPrinted(row[4], r.health);
  }

  function DecodePoolRows(rows: seq<seq<string>>): seq<PoolRow>
    requires Wide(rows, 6)
  {
    if rows == [] then [] else [DecodePoolRow(rows[0])] + DecodePoolRows(rows[1..])
  }

  predicate ShowsPools(show: Printer, rows: seq<seq<string>>, rs: seq<PoolRow>) {
    |rows| == |rs| && forall i :: 0 <= i < |rows| ==> ShowsPool(show, rows[i], rs[i]) && CleanRow(rows[i])
  }

  lemma {:induction false} PoolRowsPrinted(show: Printer, rows: seq<seq<string>>, rs: seq<PoolRow>)
    requires ShowsPools(show, rows, rs)
    ensures CleanRows(rows, 6) && Wide(rows, 6) && DecodePoolRows(rows) == rs
  {
    hide ShowsPool, CleanRow, DecodePoolRow;
    forall i | 0 <= i < |rows| ensures |rows[i]| == 6 { PoolRowPrinted(show, rows[i], rs[i]); }
    if rows != [] {
      PoolRowPrinted(show, rows[0], rs[0]);
      PoolRowsPrinted(show, rows[1..], rs[1..]);
    }
  }

  function PoolsOf(ls: seq<string>): seq<PoolRow> {
    AcceptedWide(ls, 6);
    DecodePoolRows(Accepted(ls, 6))
  }

  function PoolTable(text: string): seq<PoolRow> {
    PoolsOf(Lines(text))
  }

  lemma {:induction false} PoolsOfCons(ls: seq<string>)
    requires ls != []
    ensures PoolsOf(ls) == if |Split(ls[0], '\t')| < 6 then PoolsOf(ls[1..])
                           else [DecodePoolRow(Split(ls[0], '\t'))] + PoolsOf(ls[1..])
  {
    var rest := Accepted(ls[1..], 6);
    AcceptedWide(ls[1..], 6);
    if |Split(ls[0], '\t')| < 6 {
      assert Accepted(ls, 6) == rest;
    } else {
      assert Accepted(ls, 6)[1..] == rest;
    }
  }

  /** Decoding a pool listing returns the records that its rows show, in order. */
  lemma {:induction false} PoolsPrinted(show: Printer, rows: seq<seq<string>>, rs: seq<PoolRow>)
    requires ShowsPools(show, rows, rs)
    ensures PoolTable(Unlines(PrintRows(rows))) == rs
  {
    PoolRowsPrinted(show, rows, rs);
    RowsPrinted(rows, 6);
  }

  // ---------------------------------------------------------------- mount state

  datatype MountInfo = MountInfo(mounted: bool, mountpoint: Option<string>)

  function ReadMountInfo(text: string): MountInfo {
    var ls := Lines(text);
    MountInfo(|ls| > 0 && Trim(ls[0]) == "yes", if |ls| > 1 then Unless(Trim(ls[1]), {"none", "-", ""}) else None)
  }

  /** Two values, one a line, that say whether and where a dataset is mounted. */
  predicate ShowsMount(mounted: string, mountpoint: string, m: MountInfo) {
    && (if m.mounted then mounted == "yes" else mounted in {"no", "-"})
    && ShowsText(mountpoint, m.mountpoint, {"none", "-", ""})
    && Clean(mountpoint) && Trimmed(mountpoint)
  }

  lemma {:induction false} MountLines(mounted: string, mountpoint: string)
    requires Clean(mounted) && Clean(mountpoint)
    ensures Lines(Unlines([mounted, mountpoint])) == [mounted, mountpoint] && Lines(Unlines([mounted])) == [mounted]
    ensures Lines("") == []
  {
    LinesOfUnlines([mounted, mountpoint]);
    LinesOfUnlines([mounted]);
  }

  lemma {:induction false} MountedWord(mounted: string)
    requires mounted in {"yes", "no", "-"}
    ensures Clean(mounted) && Trim(mounted) == mounted
  {
    TrimOfTrimmed(mounted);
  }

  /** The two lines are read back, whichever marks stand for what is absent; a missing line says no. */
  lemma {:induction false} MountInfoPrinted(mounted: string, mountpoint: string, m: MountInfo)
    requires ShowsMount(mounted, mountpoint, m)
    ensures ReadMountInfo(Unlines([mounted, mountpoint])) == m
    ensures ReadMountInfo(Unlines([mounted])) == MountInfo(m.mounted, None)
    ensures ReadMountInfo("") == MountInfo(false, None)
  {
    hide Lines, Unlines, Trim, Clean, Trimmed;
    MountedWord(mounted);
    TrimOfTrimmed(mountpoint);
    MountLines(mounted, mountpoint);
  }
}
