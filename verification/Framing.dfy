/** One message a line: the daemon's read loop over a reused buffer, and the client's one exchange. */
module Framing {

  import opened Wrappers
  import opened Text
  import opened Requests

  type Decoder<!M> = string -> Result<M, string>

  /**
   The lines a reader gets to see of `text`. The last one may lack its LF when the stream ends
   there, but is lost when the stream fails there, be it broken or not valid UTF-8.
   */
  function Delivered(text: string, fails: bool): (ls: seq<string>)
    decreases |text|
  {
    if text == "" then [] else
    var n := IndexOf(text, '\n');
    if n == |text| then (if fails then [] else [text]) else [text[..n + 1]] + Delivered(text[n + 1..], fails)
  }

  /** All text is delivered but for an unfinished line before a failure. */
  lemma {:induction false} DeliveredIs(text: string, fails: bool) returns (lost: string)
    ensures Concat(Delivered(text, fails)) + lost == text && Free(lost, '\n')
    ensures RawLines(text) == Delivered(text, fails) + if lost == "" then [] else [lost]
    ensures lost != "" ==> fails
    ensures fails ==> forall i :: 0 <= i < |Delivered(text, fails)| ==> Terminated(Delivered(text, fails)[i])
    decreases |text|
  {
    if text == "" { return ""; }
    var n := IndexOf(text, '\n');
    if n == |text| {
      IndexOfFirst(text, '\n');
      lost := if fails then text else "";
      if !fails { ConcatCons(text, []); }
    } else {
      lost := DeliveredIs(text[n + 1..], fails);
      HeadTerminated(text, n);
      ConcatCons(text[..n + 1], Delivered(text[n + 1..], fails));
    }
  }

  lemma {:induction false} DeliveredCons(line: string, rest: string, fails: bool)
    requires Free(line, '\n')
    ensures Delivered(line + "\n" + rest, fails) == [line + "\n"] + Delivered(rest, fails)
  {
    var s := line + "\n" + rest;
    IndexOfIs(s, '\n', |line|);
    assert s[..|line| + 1] == line + "\n";
    assert s[|line| + 1..] == rest;
  }

  /** The text a peer has sent, read line by line into a buffer the caller owns; it may end in a failure. */
  class Reader {
    const fails: bool
    var rest: string
    var line: string

    constructor (text: string, fails: bool)
      ensures rest == text && line == "" && this.fails == fails
    {
      rest, line, this.fails := text, "", fails;
    }

    /** Appends the text up to and including the next LF, or all of it; 0 at the end. */
    method ReadLine() returns (n: Option<nat>)
      modifies this
      ensures n.Some? ==> n.value == |old(rest)| - |rest| && line == old(line) + old(rest)[..n.value]
      ensures n.None? ==> fails && Delivered(old(rest), fails) == []
      ensures n == Some(0) ==> old(rest) == "" && !fails && Delivered(old(rest), fails) == []
      ensures n.Some? && n.value > 0 ==> Delivered(old(rest), fails) == [old(rest)[..n.value]] + Delivered(rest, fails)
    {
      var k := IndexOf(rest, '\n');
      if k == |rest| && fails {
        line, rest := line + rest, "";
        return None;
      }
      var m := if k == |rest| then k else k + 1;
      assert rest[..|rest|] == rest;
      line := line + rest[..m];
      rest := rest[m..];
      n := Some(m);
    }
  }

  /** Whether a peer takes all of `text`; without a limit it always does. */
  predicate Fits(room: Option<nat>, text: string) {
    room.Some? ==> |text| <= room.value
  }

  /** What reaches such a peer of `text`. */
  function Taken(room: Option<nat>, text: string): string {
    if Fits(room, text) then text else text[..room.value]
  }

  /** The way back to the peer; it may fail after any number of characters. */
  class Writer {
    const room: Option<nat>
    var output: string

    constructor (room: Option<nat>)
      ensures output == "" && this.room == room
    {
      output, this.room := "", room;
    }

    method WriteAll(text: string) returns (ok: bool)
      requires Fits(room, output)
      modifies this
      ensures output == Taken(room, old(output) + text) && ok == Fits(room, old(output) + text)
    {
      ok := Fits(room, output + text);
      output := Taken(room, output + text);
    }
  }

  /** The requests decoded so far, malformed lines left out. */
  function Decoded<M>(decode: Decoder<M>, ls: seq<string>): seq<M> {
    if ls == [] then [] else
    var n := |ls| - 1;
    Decoded(decode, ls[..n]) + match decode(ls[n]) case Ok(m) => [m] case Err(_) => []
  }

  /** A response that may depend on everything requested before. */
  type Server = (seq<Request>, Request) -> Response

  /** What answers line `k`: an error if it is malformed, otherwise the server's response. */
  function ResponseTo(decode: Decoder<Request>, serve: Server, ls: seq<string>, k: nat): Response
    requires k < |ls|
  {
    match decode(ls[k])
    case Err(message) => Error("INVALID_REQUEST", message)
    case Ok(request) => serve(Decoded(decode, ls[..k]), request)
  }

  function ResponsesTo(decode: Decoder<Request>, serve: Server, ls: seq<string>): (responses: seq<Response>)
    ensures |responses| == |ls|
  {
    seq(|ls|, k requires 0 <= k < |ls| => ResponseTo(decode, serve, ls, k))
  }

  function Encoded<M>(encode: M -> string, ms: seq<M>): (ls: seq<string>)
    ensures |ls| == |ms|
  {
    if ms == [] then [] else [encode(ms[0])] + Encoded(encode, ms[1..])
  }

  lemma {:induction false} EncodedSnoc<M>(encode: M -> string, ms: seq<M>, m: M)
    ensures Encoded(encode, ms + [m]) == Encoded(encode, ms) + [encode(m)]
  {
    if ms == [] {
      assert ms + [m] == [m];
      assert Encoded(encode, [m]) == [encode(m)] + Encoded(encode, [m][1..]);
    } else {
      assert (ms + [m])[1..] == ms[1..] + [m];
      EncodedSnoc(encode, ms[1..], m);
    }
  }

  lemma {:induction false} UnlinesSnoc(ls: seq<string>, line: string)
    ensures Unlines(ls + [line]) == Unlines(ls) + line + "\n"
  {
    if ls == [] {
      assert ls + [line] == [line];
      assert Unlines([line]) == line + "\n" + Unlines([line][1..]);
    } else {
      assert (ls + [line])[1..] == ls[1..] + [line];
      UnlinesSnoc(ls[1..], line);
    }
  }

  lemma {:induction false} ResponsesToSnoc(decode: Decoder<Request>, serve: Server, ls: seq<string>, line: string)
    ensures ResponsesTo(decode, serve, ls + [line])
        == ResponsesTo(decode, serve, ls) + [ResponseTo(decode, serve, ls + [line], |ls|)]
  {
    var more := ls + [line];
    forall k | 0 <= k < |ls| ensures ResponseTo(decode, serve, more, k) == ResponseTo(decode, serve, ls, k) {
      assert more[..k] == ls[..k];
    }
  }

  /** What is written for some responses: each encoded, each on a line of its own. */
  function Written(encode: Response -> string, responses: seq<Response>): string {
    Unlines(Encoded(encode, responses))
  }

  lemma {:induction false} WrittenSnoc(encode: Response -> string, responses: seq<Response>, r: Response)
    ensures Written(encode, responses + [r]) == Written(encode, responses) + encode(r) + "\n"
  {
    EncodedSnoc(encode, responses, r);
    UnlinesSnoc(Encoded(encode, responses), encode(r));
  }

  /** What the first `k` lines are answered with, written out. */
  function Answers(decode: Decoder<Request>, serve: Server, encode: Response -> string, ls: seq<string>, k: nat): string
    requires k <= |ls|
  {
    Written(encode, ResponsesTo(decode, serve, ls[..k]))
  }

  lemma {:induction false} ResponseToPrefix(decode: Decoder<Request>, serve: Server, ls: seq<string>, n: nat, k: nat)
    requires k < n <= |ls|
    ensures ResponseTo(decode, serve, ls[..n], k) == ResponseTo(decode, serve, ls, k)
  {
    assert ls[..n][..k] == ls[..k];
  }

  lemma {:induction false} AnswersOneMore(decode: Decoder<Request>, serve: Server, encode: Response -> string,
      ls: seq<string>, k: nat)
    requires k < |ls|
    ensures Answers(decode, serve, encode, ls, k + 1)
         == Answers(decode, serve, encode, ls, k) + encode(ResponseTo(decode, serve, ls, k)) + "\n"
  {
    assert ls[..k + 1] == ls[..k] + [ls[k]];
    ResponsesToSnoc(decode, serve, ls[..k], ls[k]);
    ResponseToPrefix(decode, serve, ls, k + 1, k);
    WrittenSnoc(encode, ResponsesTo(decode, serve, ls[..k]), ResponseTo(decode, serve, ls, k));
  }

  lemma {:induction false} AnswersGrow(decode: Decoder<Request>, serve: Server, encode: Response -> string,
      ls: seq<string>, k: nat, n: nat)
    requires k <= n <= |ls|
    ensures Answers(decode, serve, encode, ls, k) <= Answers(decode, serve, encode, ls, n)
    decreases n
  {
    if k < n {
      AnswersGrow(decode, serve, encode, ls, k, n - 1);
      AnswersOneMore(decode, serve, encode, ls, n - 1);
    }
  }

  /** The loop's state after `k` of the lines `ls`, when `rest` is still to be read. */
  ghost predicate Served(decode: Decoder<Request>, serve: Server, encode: Response -> string, ls: seq<string>, k: nat,
                         rest: seq<string>, requests: seq<Request>, output: string)
  {
    && k <= |ls| && rest == ls[k..]
    && requests == Decoded(decode, ls[..k])
    && output == Answers(decode, serve, encode, ls, k)
  }

  /**
   How a conversation about the lines `ls` ends for a peer with `room` for the answers: the first
   `k` lines were served, `k` counting the one whose answer no longer fits.
   */
  ghost predicate Ended(decode: Decoder<Request>, serve: Server, encode: Response -> string, ls: seq<string>, k: nat,
                        room: Option<nat>, requests: seq<Request>, output: string)
  {
    && k <= |ls| && requests == Decoded(decode, ls[..k])
    && output == Taken(room, Answers(decode, serve, encode, ls, |ls|))
    && (k > 0 ==> Fits(room, Answers(decode, serve, encode, ls, k - 1)))
    && (k < |ls| ==> !Fits(room, Answers(decode, serve, encode, ls, k)))
  }

  lemma {:induction false} ServedMore(decode: Decoder<Request>, serve: Server, encode: Response -> string,
      ls: seq<string>, k: nat, rest: seq<string>, requests: seq<Request>, output: string, line: string,
      rest': seq<string>)
    requires Served(decode, serve, encode, ls, k, rest, requests, output) && rest == [line] + rest'
    ensures var response := match decode(line)
              case Err(m) => Error("INVALID_REQUEST", m)
              case Ok(r) => serve(requests, r);
            var requests' := match decode(line) case Err(_) => requests case Ok(r) => requests + [r];
            Served(decode, serve, encode, ls, k + 1, rest', requests', output + encode(response) + "\n")
  {
    assert ls[k] == line && rest' == ls[k + 1..];
    hide Answers, Decoded;
    assert ls[..k + 1] == ls[..k] + [line];
    AnswersOneMore(decode, serve, encode, ls, k);
  }

  lemma {:induction false} ServedAll(decode: Decoder<Request>, serve: Server, encode: Response -> string,
      ls: seq<string>, k: nat, room: Option<nat>, requests: seq<Request>, output: string)
    requires Served(decode, serve, encode, ls, k, [], requests, output) && Fits(room, output)
    ensures Ended(decode, serve, encode, ls, k, room, requests, output) && k == |ls|
  {
    assert k == |ls| && ls[..|ls|] == ls;
    hide Answers;
    if k > 0 { AnswersGrow(decode, serve, encode, ls, k - 1, k); }
  }

  lemma {:induction false} ServedNoMore(decode: Decoder<Request>, serve: Server, encode: Response -> string,
      ls: seq<string>, k: nat, room: Option<nat>, before: string, rest: seq<string>, requests: seq<Request>,
      output: string)
    requires Served(decode, serve, encode, ls, k, rest, requests, output) && !Fits(room, output)
    requires k > 0 && Fits(room, before) && before == Answers(decode, serve, encode, ls, k - 1)
    ensures Ended(decode, serve, encode, ls, k, room, requests, Taken(room, output))
    ensures !Fits(room, Answers(decode, serve, encode, ls, |ls|))
  {
    AnswersGrow(decode, serve, encode, ls, k, |ls|);
    hide Answers;
  }

  /** Sends one response; a connection that fails may have carried a part of it. */
  method SendResponse(writer: Writer, encode: Response -> string, response: Response) returns (ok: bool)
    requires Fits(writer.room, writer.output)
    modifies writer
    ensures var all := old(writer.output) + encode(response) + "\n";
      writer.output == Taken(writer.room, all) && ok == Fits(writer.room, all)
  {
    ok := writer.WriteAll(encode(response));
    if ok { ok := writer.WriteAll("\n"); }
  }

  /**
   The daemon's loop over one connection. The k-th response answers the k-th line, malformed lines
   and an unterminated last one included. A failure to read or to write ends it; the request whose
   answer could not be written has been served.
   */
  method HandleClient(reader: Reader, writer: Writer, decode: Decoder<Request>, serve: Server,
                      encode: Response -> string)
    returns (ok: bool, requests: seq<Request>, ghost served: nat)
    requires reader.line == "" && writer.output == ""
    modifies reader, writer
    ensures var ls := Delivered(old(reader.rest), reader.fails);
      && Ended(decode, serve, encode, ls, served, writer.room, requests, writer.output)
      && (ok ==> served == |ls|)
      && (ok <==> !reader.fails && Fits(writer.room, Answers(decode, serve, encode, ls, |ls|)))
  {
    hide Ended, Delivered, Answers, Decoded;
    ghost var ls := Delivered(reader.rest, reader.fails);
    ghost var left := ls;
    requests, served := [], 0;
    ServedNone(decode, serve, encode, ls);
    while true
      invariant reader.line == "" && left == Delivered(reader.rest, reader.fails)
      invariant Fits(writer.room, writer.output)
      invariant Served(decode, serve, encode, ls, served, left, requests, writer.output)
      decreases |reader.rest|
    {
      ghost var text, before := reader.rest, writer.output;
      var n := reader.ReadLine();
      if n.None? || n.value == 0 {
        ServedAll(decode, serve, encode, ls, served, writer.room, requests, writer.output);
        ok := n.Some?;
        return;
      }
      assert "" + text[..n.value] == text[..n.value];
      left := Delivered(reader.rest, reader.fails);
      ServedMore(decode, serve, encode, ls, served, [reader.line] + left, requests, before, reader.line, left);
      var request := decode(reader.line);
      var response: Response;
      if request.Err? {
        response := Error("INVALID_REQUEST", request.error);
      } else {
        response := serve(requests, request.value);
        requests := requests + [request.value];
      }
      served := served + 1;
      ok := SendResponse(writer, encode, response);
      if !ok {
        ghost var all := before + encode(response) + "\n";
        ServedNoMore(decode, serve, encode, ls, served, writer.room, before, left, requests, all);
        return;
      }
      reader.line := "";
    }
  }

  lemma {:induction false} ServedNone(decode: Decoder<Request>, serve: Server, encode: Response -> string,
      ls: seq<string>)
    ensures Served(decode, serve, encode, ls, 0, ls, [], "")
  {
    assert ResponsesTo(decode, serve, []) == [];
  }

  // ---------------------------------------------------------------- malformed lines

  lemma {:induction false} DecodedConcat<M>(decode: Decoder<M>, a: seq<string>, b: seq<string>)
    ensures Decoded(decode, a + b) == Decoded(decode, a) + Decoded(decode, b)
  {
    if b == [] {
      assert a + b == a;
    } else {
      var n := |b| - 1;
      DecodedConcat(decode, a, b[..n]);
      assert (a + b)[..|a| + n] == a + b[..n] && (a + b)[|a| + n] == b[n];
    }
  }

  lemma {:induction false} JunkDecoded<M>(decode: Decoder<M>, a: seq<string>, junk: string, b: seq<string>)
    requires decode(junk).Err?
    ensures Decoded(decode, a + [junk] + b) == Decoded(decode, a + b)
  {
    hide Decoded;
    DecodedConcat(decode, a + [junk], b);
    DecodedConcat(decode, a, b);
    DecodedSnoc(decode, a, junk);
    assert Decoded(decode, a) + [] == Decoded(decode, a);
  }

  lemma {:induction false} DecodedSnoc<M>(decode: Decoder<M>, ls: seq<string>, line: string)
    ensures Decoded(decode, ls + [line]) == Decoded(decode, ls) + match decode(line) case Ok(m) => [m] case Err(_) => []
  {
    assert (ls + [line])[..|ls|] == ls;
  }

  /** A line that does not decode is answered with an error of its own and changes no other answer. */
  lemma {:induction false} MalformedLine(decode: Decoder<Request>, serve: Server, a: seq<string>, junk: string,
      b: seq<string>)
    requires decode(junk).Err?
    ensures ResponsesTo(decode, serve, a + [junk] + b)
         == ResponsesTo(decode, serve, a + b)[..|a|] + [Error("INVALID_REQUEST", decode(junk).error)]
            + ResponsesTo(decode, serve, a + b)[|a|..]
  {
    hide Decoded;
    var ls, without := a + [junk] + b, a + b;
    assert ls[|a|] == junk;
    forall k | 0 <= k < |a| ensures ResponseTo(decode, serve, ls, k) == ResponseTo(decode, serve, without, k) {
      assert ls[..k] == without[..k] && ls[k] == without[k];
    }
    forall k | |a| <= k < |without|
      ensures ResponseTo(decode, serve, ls, k + 1) == ResponseTo(decode, serve, without, k)
    {
      assert ls[..k + 1] == a + [junk] + b[..k - |a|] && without[..k] == a + b[..k - |a|];
      JunkDecoded(decode, a, junk, b[..k - |a|]);
      assert ls[k + 1] == without[k];
    }
    assert |ls| == |without| + 1;
  }

  // ---------------------------------------------------------------- messages across the line

  /** An encoder whose text never holds a raw LF, and a decoder that undoes it before one. */
  ghost predicate Lossless<M(!new)>(encode: M -> string, decode: Decoder<M>) {
    forall m: M :: Free(encode(m), '\n') && decode(encode(m) + "\n") == Ok(m)
  }

  function Framed<M>(encode: M -> string, ms: seq<M>): (ls: seq<string>)
    ensures |ls| == |ms|
    ensures forall i :: 0 <= i < |ms| ==> ls[i] == encode(ms[i]) + "\n"
  {
    if ms == [] then [] else [encode(ms[0]) + "\n"] + Framed(encode, ms[1..])
  }

  /** Sent messages arrive as exactly their frames, whatever follows them. */
  lemma {:induction false} FramesArrive<M(!new)>(encode: M -> string, decode: Decoder<M>, ms: seq<M>, tail: string,
      fails: bool)
    requires Lossless(encode, decode)
    ensures Delivered(Unlines(Encoded(encode, ms)) + tail, fails) == Framed(encode, ms) + Delivered(tail, fails)
  {
    if ms == [] {
      assert Unlines(Encoded(encode, ms)) + tail == tail;
      assert Framed(encode, ms) + Delivered(tail, fails) == Delivered(tail, fails);
    } else {
      var rest := Unlines(Encoded(encode, ms[1..])) + tail;
      FramesArrive(encode, decode, ms[1..], tail, fails);
      DeliveredCons(encode(ms[0]), rest, fails);
      UnlinesCons(encode(ms[0]), Encoded(encode, ms[1..]), tail);
      ConsAssoc(encode(ms[0]) + "\n", Framed(encode, ms[1..]), Delivered(tail, fails));
    }
  }

  /** How many messages end within the first `n` characters. */
  function FramesWithin<M>(encode: M -> string, ms: seq<M>, n: nat): (k: nat)
    ensures k <= |ms|
  {
    if ms == [] || n <= |encode(ms[0])| then 0 else 1 + FramesWithin(encode, ms[1..], n - |encode(ms[0])| - 1)
  }

  lemma {:induction false} CutAfter<M(!new)>(encode: M -> string, decode: Decoder<M>, ms: seq<M>, n: nat, k: nat)
    returns (tail: string)
    requires Lossless(encode, decode) && n <= |Unlines(Encoded(encode, ms))| && k == FramesWithin(encode, ms, n)
    ensures Unlines(Encoded(encode, ms))[..n] == Unlines(Encoded(encode, ms[..k])) + tail
    ensures Free(tail, '\n')
    ensures if k == |ms| then tail == "" else tail <= encode(ms[k])
  {
    var text := Unlines(Encoded(encode, ms));
    if ms == [] { return ""; }
    var line, rest := encode(ms[0]), Unlines(Encoded(encode, ms[1..]));
    UnlinesCons(line, Encoded(encode, ms[1..]), "");
    assert text == line + "\n" + rest;
    if n <= |line| {
      assert ms[..0] == [];
      return text[..n];
    }
    var m := n - |line| - 1;
    tail := CutAfter(encode, decode, ms[1..], m, k - 1);
    EncodedFirst(encode, ms, k);
    assert text[..n] == line + "\n" + rest[..m];
  }

  lemma {:induction false} EncodedFirst<M>(encode: M -> string, ms: seq<M>, k: nat)
    requires 0 < k <= |ms|
    ensures Unlines(Encoded(encode, ms[..k])) == encode(ms[0]) + "\n" + Unlines(Encoded(encode, ms[1..][..k - 1]))
  {
    assert ms[..k][1..] == ms[1..][..k - 1];
    assert ([encode(ms[0])] + Encoded(encode, ms[1..][..k - 1]))[1..] == Encoded(encode, ms[1..][..k - 1]);
  }

  /** What a decoder makes of a message without its end: none or one. */
  function Unfinished<M>(decode: Decoder<M>, tail: string): seq<M> {
    match decode(tail) case Ok(m) => [m] case Err(_) => []
  }

  /**
   A stream cut off after any number of characters delivers exactly the messages that were complete
   by then. What was there of the next one is lost when the stream fails; when it merely ends the
   decoder is given that piece as a line of its own.
   */
  lemma {:induction false} CutBetweenFrames<M(!new)>(encode: M -> string, decode: Decoder<M>, ms: seq<M>, n: nat,
      fails: bool)
    returns (k: nat, tail: string)
    requires Lossless(encode, decode) && n <= |Unlines(Encoded(encode, ms))|
    ensures k <= |ms| && Unlines(Encoded(encode, ms))[..n] == Unlines(Encoded(encode, ms[..k])) + tail
    ensures if k == |ms| then tail == "" else tail <= encode(ms[k])
    ensures Decoded(decode, Delivered(Unlines(Encoded(encode, ms))[..n], fails))
         == ms[..k] + if fails || tail == "" then [] else Unfinished(decode, tail)
  {
    k := FramesWithin(encode, ms, n);
    tail := CutAfter(encode, decode, ms, n, k);
    FramesArrive(encode, decode, ms[..k], tail, fails);
    FramesDecode(encode, decode, ms[..k]);
    hide Delivered, Unlines, Encoded, Decoded, Lossless;
    var frames := Framed(encode, ms[..k]);
    if fails || tail == "" {
      assert frames + [] == frames && ms[..k] + [] == ms[..k];
    }
  }

  lemma {:induction false} FramesDecode<M(!new)>(encode: M -> string, decode: Decoder<M>, ms: seq<M>)
    requires Lossless(encode, decode)
    ensures Decoded(decode, Framed(encode, ms)) == ms
  {
    if ms != [] {
      var n := |ms| - 1;
      FramesDecode(encode, decode, ms[..n]);
      FramedInit(encode, ms);
      assert Framed(encode, ms)[n] == encode(ms[n]) + "\n";
      assert ms == ms[..n] + [ms[n]];
    }
  }

  lemma {:induction false} FramedInit<M>(encode: M -> string, ms: seq<M>)
    requires ms != []
    ensures Framed(encode, ms)[..|ms| - 1] == Framed(encode, ms[..|ms| - 1])
  {
  }

  /**
   The daemon decodes exactly the messages sent, in order, and answers the k-th with what the
   server makes of it after those before it. Of one cut off by a failure it sees nothing.
   */
  lemma {:induction false} MessagesServed(encode: Request -> string, decode: Decoder<Request>, serve: Server,
      ms: seq<Request>, tail: string, fails: bool, k: nat)
    requires Lossless(encode, decode) && k < |ms|
    requires tail == "" || (fails && Free(tail, '\n'))
    ensures var ls := Delivered(Unlines(Encoded(encode, ms)) + tail, fails);
      && Decoded(decode, ls) == ms
      && |ResponsesTo(decode, serve, ls)| == |ms|
      && ResponsesTo(decode, serve, ls)[k] == serve(ms[..k], ms[k])
  {
    FramesArrive(encode, decode, ms, tail, fails);
    var ls := Framed(encode, ms);
    assert ls + [] == ls;
    FramesDecode(encode, decode, ms);
    FramesDecode(encode, decode, ms[..k]);
    FramedPrefix(encode, ms, k);
    assert Delivered(tail, fails) == [];
    hide Delivered, Decoded, Unlines, Encoded, Lossless;
    assert ls[k] == encode(ms[k]) + "\n";
  }

  lemma {:induction false} FramedPrefix<M>(encode: M -> string, ms: seq<M>, k: nat)
    requires k <= |ms|
    ensures Framed(encode, ms)[..k] == Framed(encode, ms[..k])
  {
  }

  /** The first line a client reads of a text. */
  function FirstLine(text: string): string {
    var ls := Delivered(text, false);
    if ls == [] then "" else ls[0]
  }

  /** A client that sends one request reads back the server's response to it. */
  lemma {:induction false} OneExchange(encodeRequest: Request -> string, decodeRequest: Decoder<Request>, serve: Server,
                    encodeResponse: Response -> string, decodeResponse: Decoder<Response>, request: Request,
                    fails: bool)
    requires Lossless(encodeRequest, decodeRequest) && Lossless(encodeResponse, decodeResponse)
    ensures var ls := Delivered(encodeRequest(request) + "\n", fails);
      |ls| == 1 &&
      decodeResponse(FirstLine(Answers(decodeRequest, serve, encodeResponse, ls, 1))) == Ok(serve([], request))
  {
    FramesArrive(encodeRequest, decodeRequest, [request], "", fails);
    MessagesServed(encodeRequest, decodeRequest, serve, [request], "", fails, 0);
    assert encodeRequest(request) + "\n" + "" == encodeRequest(request) + "\n";
    assert [request][..0] == [];
    var response := serve([], request);
    var ls := Delivered(encodeRequest(request) + "\n", fails);
    var responses := ResponsesTo(decodeRequest, serve, ls);
    assert responses == [response] && ls[..1] == ls;
    FramesArrive(encodeResponse, decodeResponse, [response], "", false);
    assert encodeResponse(response) + "\n" + "" == encodeResponse(response) + "\n";
  }
}
