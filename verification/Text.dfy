/**
 Text primitives the daemon leans on: `lines`, `split`, `trim` and decimal digits,
 written from scratch over sequences of Unicode scalar values.
 */
module Text {

  import opened Wrappers

  /** The code points with the Unicode White_Space property, which `str::trim` removes. */
  predicate IsWhitespace(c: char) {
    var n := c as int;
    || 0x9 <= n <= 0xD || n == 0x20 || n == 0x85 || n == 0xA0 || n == 0x1680
    || 0x2000 <= n <= 0x200A || n == 0x2028 || n == 0x2029 || n == 0x202F || n == 0x205F || n == 0x3000
  }

  /** These are 25 characters. */
  lemma {:induction false} WhitespaceIs(c: char)
    ensures IsWhitespace(c) <==>
      c in "\t\n\U{B}\U{C}\r \U{85}\U{A0}\U{1680}\U{2028}\U{2029}\U{202F}\U{205F}\U{3000}" ||
      c in "\U{2000}\U{2001}\U{2002}\U{2003}\U{2004}\U{2005}\U{2006}\U{2007}\U{2008}\U{2009}\U{200A}"
  {
  }

  predicate IsDigit(c: char) {
    '0' <= c <= '9'
  }

  predicate AllDigits(s: string) {
    forall i :: 0 <= i < |s| ==> IsDigit(s[i])
  }

  predicate StartsWith(s: string, prefix: string) {
    prefix <= s
  }

  predicate EndsWithChar(s: string, c: char) {
    |s| > 0 && s[|s| - 1] == c
  }

  predicate Contains(s: string, sub: string) {
    sub <= s || (|s| > 0 && Contains(s[1..], sub))
  }

  /** Position of the first `c`, or the length of `s` when there is none. */
  function IndexOf(s: string, c: char): (n: nat)
    ensures n <= |s|
    ensures n < |s| ==> s[n] == c
  {
    if s == "" || s[0] == c then 0 else 1 + IndexOf(s[1..], c)
  }

  lemma {:induction false} IndexOfFirst(s: string, c: char)
    ensures forall i :: 0 <= i < IndexOf(s, c) ==> s[i] != c
  {
    if s != "" && s[0] != c { IndexOfFirst(s[1..], c); }
  }

  lemma {:induction false} IndexOfIs(s: string, c: char, n: nat)
    requires n <= |s|
    requires n < |s| ==> s[n] == c
    requires forall i :: 0 <= i < n ==> s[i] != c
    ensures IndexOf(s, c) == n
  {
    var k := IndexOf(s, c);
    IndexOfFirst(s, c);
    assert !(k < n);
    assert !(n < k);
  }

  // ---------------------------------------------------------------- splitting

  /** `str::split(c)`: one more part than there are separators. */
  function Split(s: string, c: char): (parts: seq<string>)
    ensures |parts| >= 1
    decreases |s|
  {
    var n := IndexOf(s, c);
    if n == |s| then [s] else [s[..n]] + Split(s[n + 1..], c)
  }

  function Join(parts: seq<string>, c: char): string
    requires |parts| >= 1
  {
    if |parts| == 1 then parts[0] else parts[0] + [c] + Join(parts[1..], c)
  }

  /** A string none of whose characters is `c`. */
  predicate Free(s: string, c: char) {
    c !in s
  }

  lemma {:induction false} SplitFree(s: string, c: char)
    requires Free(s, c)
    ensures Split(s, c) == [s]
  {
    IndexOfIs(s, c, |s|);
  }

  lemma {:induction false} SplitCons(head: string, c: char, rest: string)
    requires Free(head, c)
    ensures Split(head + [c] + rest, c) == [head] + Split(rest, c)
  {
    var s := head + [c] + rest;
    IndexOfIs(s, c, |head|);
    assert s[..|head|] == head;
    assert s[|head| + 1..] == rest;
  }

  lemma {:induction false} SplitConcat(s: string, c: char, t: string)
    ensures Split(s + [c] + t, c) == Split(s, c) + Split(t, c)
    decreases |s|
  {
    hide Split;
    var n := IndexOf(s, c);
    IndexOfFirst(s, c);
    if n == |s| {
      SplitFree(s, c);
      SplitCons(s, c, t);
    } else {
      var head, tail := s[..n], s[n + 1..];
      var more := tail + [c] + t;
      SplitConcat(tail, c, t);
      SplitCons(head, c, tail);
      SplitCons(head, c, more);
      assert s == head + [c] + tail;
      assert s + [c] + t == head + [c] + more;
      assert [head] + (Split(tail, c) + Split(t, c)) == ([head] + Split(tail, c)) + Split(t, c);
    }
  }

  /** Splitting undoes joining when no part holds the separator. */
  lemma {:induction false} SplitJoin(parts: seq<string>, c: char)
    requires |parts| >= 1
    requires forall i :: 0 <= i < |parts| ==> Free(parts[i], c)
    ensures Split(Join(parts, c), c) == parts
  {
    if |parts| == 1 {
      SplitFree(parts[0], c);
    } else {
      SplitJoin(parts[1..], c);
      SplitCons(parts[0], c, Join(parts[1..], c));
    }
  }

  lemma {:induction false} ConsConcat<T>(a: seq<T>, b: seq<T>)
    requires a != []
    ensures a + b == [a[0]] + (a[1..] + b)
  {
  }

  lemma {:induction false} ConcatAssoc<T>(a: seq<T>, b: seq<T>, c: seq<T>)
    ensures (a + b) + c == a + (b + c)
  {
  }

  // ---------------------------------------------------------------- lines

  /** The pieces of `s` up to and including each LF; a last piece may lack it. */
  function RawLines(s: string): (pieces: seq<string>)
    decreases |s|
  {
    if s == "" then [] else
    var n := IndexOf(s, '\n');
    if n == |s| then [s] else [s[..n + 1]] + RawLines(s[n + 1..])
  }

  /** Drops one LF and then one CR; a CR without an LF after it stays. */
  function StripEol(piece: string): string {
    if EndsWithChar(piece, '\n') then
      var body := piece[..|piece| - 1];
      if EndsWithChar(body, '\r') then body[..|body| - 1] else body
    else piece
  }

  function StripAll(pieces: seq<string>): (ls: seq<string>)
    ensures |ls| == |pieces|
    ensures forall i :: 0 <= i < |ls| ==> ls[i] == StripEol(pieces[i])
  {
    if pieces == [] then [] else [StripEol(pieces[0])] + StripAll(pieces[1..])
  }

  /** `str::lines`. */
  function Lines(s: string): seq<string> {
    StripAll(RawLines(s))
  }

  function Concat(pieces: seq<string>): string {
    if pieces == [] then "" else pieces[0] + Concat(pieces[1..])
  }

  /** A piece ended by its only LF. */
  predicate Terminated(piece: string) {
    EndsWithChar(piece, '\n') && Free(piece[..|piece| - 1], '\n')
  }

  /** Every piece but the last ends with its only LF; the last is not empty. */
  predicate Cut(pieces: seq<string>) {
    pieces != [] ==>
      if |pieces| == 1 then pieces[0] != "" && (Terminated(pieces[0]) || Free(pieces[0], '\n'))
      else Terminated(pieces[0]) && Cut(pieces[1..])
  }

  lemma {:induction false} HeadTerminated(s: string, n: nat)
    requires n == IndexOf(s, '\n') < |s|
    ensures Terminated(s[..n + 1])
    ensures s == s[..n + 1] + s[n + 1..]
  {
    var head := s[..n + 1];
    IndexOfFirst(s, '\n');
    assert head[..|head| - 1] == s[..n];
  }

  lemma {:induction false} ConcatCons(head: string, rest: seq<string>)
    ensures Concat([head] + rest) == head + Concat(rest)
  {
    assert ([head] + rest)[1..] == rest;
  }

  lemma {:induction false} CutCons(head: string, rest: seq<string>)
    requires Terminated(head) && Cut(rest)
    ensures Cut([head] + rest)
  {
    assert ([head] + rest)[1..] == rest;
  }

  /** Nothing is lost by line splitting, and only the last piece may be unterminated. */
  lemma {:induction false} RawLinesPartition(s: string)
    ensures Concat(RawLines(s)) == s
    ensures Cut(RawLines(s))
    decreases |s|
  {
    if s != "" {
      var n := IndexOf(s, '\n');
      if n < |s| {
        RawLinesPartition(s[n + 1..]);
        HeadTerminated(s, n);
        ConcatCons(s[..n + 1], RawLines(s[n + 1..]));
        CutCons(s[..n + 1], RawLines(s[n + 1..]));
      } else {
        IndexOfFirst(s, '\n');
        ConcatCons(s, []);
      }
    }
  }

  lemma {:induction false} RawLinesCons(line: string, rest: string)
    requires Free(line, '\n')
    ensures RawLines(line + "\n" + rest) == [line + "\n"] + RawLines(rest)
  {
    var s := line + "\n" + rest;
    IndexOfIs(s, '\n', |line|);
    assert s[..|line| + 1] == line + "\n";
    assert s[|line| + 1..] == rest;
  }

  lemma {:induction false} LinesCons(line: string, rest: string)
    requires Free(line, '\n')
    ensures Lines(line + "\n" + rest) == [if EndsWithChar(line, '\r') then line[..|line| - 1] else line] + Lines(rest)
  {
    RawLinesCons(line, rest);
  }

  /** Every line followed by LF. */
  function Unlines(ls: seq<string>): string {
    if ls == [] then "" else ls[0] + "\n" + Unlines(ls[1..])
  }

  predicate Clean(line: string) {
    Free(line, '\n') && !EndsWithChar(line, '\r')
  }

  lemma {:induction false} UnlinesCons(line: string, ls: seq<string>, rest: string)
    ensures Unlines([line] + ls) + rest == line + "\n" + (Unlines(ls) + rest)
  {
    assert ([line] + ls)[1..] == ls;
  }

  lemma {:induction false} ConsAssoc<T>(x: T, a: seq<T>, b: seq<T>)
    ensures [x] + (a + b) == ([x] + a) + b
  {
  }

  lemma {:induction false} LinesUnlinesStep(line: string, ls: seq<string>, rest: string)
    requires Clean(line)
    requires Lines(Unlines(ls) + rest) == ls + Lines(rest)
    ensures Lines(Unlines([line] + ls) + rest) == ([line] + ls) + Lines(rest)
  {
    var tail := Unlines(ls) + rest;
    assert Lines(line + "\n" + tail) == [line] + Lines(tail) by { LinesCons(line, tail); }
    UnlinesCons(line, ls, rest);
    ConsAssoc(line, ls, Lines(rest));
  }

  /** Reading back lines that were written out, in front of any other text. */
  lemma {:induction false} LinesUnlines(ls: seq<string>, rest: string)
    requires forall line :: line in ls ==> Clean(line)
    ensures Lines(Unlines(ls) + rest) == ls + Lines(rest)
  {
    if ls == [] {
      assert Unlines(ls) + rest == rest;
    } else {
      LinesUnlines(ls[1..], rest);
      LinesUnlinesStep(ls[0], ls[1..], rest);
      assert [ls[0]] + ls[1..] == ls;
    }
  }

  lemma {:induction false} LinesOfUnlines(ls: seq<string>)
    requires forall line :: line in ls ==> Clean(line)
    ensures Lines(Unlines(ls)) == ls
  {
    LinesUnlines(ls, "");
    assert Unlines(ls) + "" == Unlines(ls);
    assert Lines("") == [];
    assert ls + [] == ls;
  }

  // ---------------------------------------------------------------- trimming

  function TrimStart(s: string): (r: string)
    ensures r != "" ==> !IsWhitespace(r[0])
  {
    if s != "" && IsWhitespace(s[0]) then TrimStart(s[1..]) else s
  }

  function TrimEnd(s: string): (r: string)
    ensures r <= s
    ensures r != "" ==> !IsWhitespace(r[|r| - 1])
  {
    if s != "" && IsWhitespace(s[|s| - 1]) then TrimEnd(s[..|s| - 1]) else s
  }

  /** `str::trim`. */
  function Trim(s: string): string {
    TrimEnd(TrimStart(s))
  }

  predicate Trimmed(s: string) {
    s == "" || (!IsWhitespace(s[0]) && !IsWhitespace(s[|s| - 1]))
  }

  lemma {:induction false} TrimOfTrimmed(s: string)
    requires Trimmed(s)
    ensures Trim(s) == s
  {
  }

  lemma {:induction false} TrimStartSnoc(s: string, c: char)
    requires IsWhitespace(c)
    ensures TrimStart(s + [c]) == if TrimStart(s) == "" then "" else TrimStart(s) + [c]
  {
    if s == "" {
      assert s + [c] == [c];
      assert TrimStart([c]) == TrimStart([c][1..]);
    } else if IsWhitespace(s[0]) {
      assert (s + [c])[1..] == s[1..] + [c];
      TrimStartSnoc(s[1..], c);
    }
  }

  /** A trailing white-space character does not change what trimming leaves. */
  lemma {:induction false} TrimSnoc(s: string, c: char)
    requires IsWhitespace(c)
    ensures Trim(s + [c]) == Trim(s)
  {
    TrimStartSnoc(s, c);
    var a := TrimStart(s);
    if a != "" {
      assert (a + [c])[..|a|] == a;
    }
  }

  // ---------------------------------------------------------------- decimal digits

  function DigitValue(c: char): (d: nat)
    requires IsDigit(c)
    ensures d <= 9
  {
    c as int - '0' as int
  }

  function DigitChar(d: nat): (c: char)
    requires d <= 9
    ensures IsDigit(c) && DigitValue(c) == d
  {
    ('0' as int + d) as char
  }

  /** The number a string of digits denotes. */
  function DigitsValue(s: string): nat
    requires AllDigits(s)
  {
    if s == "" then 0 else 10 * DigitsValue(s[..|s| - 1]) + DigitValue(s[|s| - 1])
  }

  /** Decimal text of `n` without leading zeros, as the formatter prints an integer. */
  function Decimal(n: nat): (s: string)
    ensures |s| >= 1
  {
    if n < 10 then [DigitChar(n)] else Decimal(n / 10) + [DigitChar(n % 10)]
  }

  lemma {:induction false} DecimalDigits(n: nat)
    ensures AllDigits(Decimal(n))
  {
    if n >= 10 { DecimalDigits(n / 10); }
  }

  lemma {:induction false} DecimalRoundTrip(n: nat)
    ensures AllDigits(Decimal(n))
    ensures DigitsValue(Decimal(n)) == n
  {
    var s := Decimal(n);
    DecimalDigits(n);
    if n < 10 {
      assert s[..0] == "";
      assert DigitsValue(s) == 10 * DigitsValue(s[..0]) + DigitValue(s[0]);
    } else {
      DecimalRoundTrip(n / 10);
      assert s[..|s| - 1] == Decimal(n / 10);
    }
  }

  const U64_MAX: nat := 0xFFFF_FFFF_FFFF_FFFF

  /** `str::parse::<u64>`: digits after an optional plus sign, within 64 bits. */
  function ParseU64(s: string): Option<nat> {
    var body := if s != "" && s[0] == '+' then s[1..] else s;
    if body == "" || !AllDigits(body) || DigitsValue(body) > U64_MAX then None
    else Some(DigitsValue(body))
  }

  /** Text that is no number: empty but for a sign, or with something other than a digit after it. */
  predicate NoNumber(s: string) {
    s == "" || s == "+" || exists i :: 0 <= i < |s| && !IsDigit(s[i]) && (i > 0 || s[i] != '+')
  }

  /** Exactly the texts without a number, and numbers beyond 64 bits, are refused; a plus sign may lead. */
  lemma {:induction false} ParseU64Reads(s: string, n: nat)
    ensures ParseU64(Decimal(n)) == ParseU64("+" + Decimal(n)) == if n <= U64_MAX then Some(n) else None
    ensures NoNumber(s) ==> ParseU64(s).None?
    ensures !NoNumber(s) ==> AllDigits(if s[0] == '+' then s[1..] else s)
  {
    DecimalRoundTrip(n);
    assert IsDigit(Decimal(n)[0]);
    assert ("+" + Decimal(n))[1..] == Decimal(n);
    if s != "" && s != "+" {
      var body := if s[0] == '+' then s[1..] else s;
      if NoNumber(s) {
        var i :| 0 <= i < |s| && !IsDigit(s[i]) && (i > 0 || s[i] != '+');
        assert !IsDigit(body[if s[0] == '+' then i - 1 else i]);
      }
    }
  }

  lemma {:induction false} TrimLacks(s: string, c: char)
    requires c !in s
    ensures c !in Trim(s)
  {
    TrimStartLacks(s, c);
    var t := TrimStart(s);
    assert forall i :: 0 <= i < |TrimEnd(t)| ==> TrimEnd(t)[i] == t[i];
  }

  lemma {:induction false} TrimStartLacks(s: string, c: char)
    requires c !in s
    ensures c !in TrimStart(s)
  {
    if s != "" && IsWhitespace(s[0]) { TrimStartLacks(s[1..], c); }
  }
}
