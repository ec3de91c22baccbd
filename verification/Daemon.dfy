/**
 The daemon as interleaved steps of any number of clients: commands start and end at separate
 moments, and only the status and reload requests take the mutex over the configuration.
 */
module Daemon {

  import opened Wrappers
  import opened Text
  import opened Devices
  import opened Commands
  import opened Requests
  import opened Sessions

  type Id = nat

  /** A connected client: all its requests, those not yet answered, and how far the first of them is. */
  datatype Client = Client(
    all: seq<Request>,
    todo: seq<Request>,
    got: seq<Reply>,
    running: Option<Call>,
    made: Option<Response>,
    sent: seq<Response>)

  /** The commands' starts and ends, as they happen. */
  datatype Entry = Started(client: Id, call: Call) | Ended(client: Id, reply: Reply)

  /** A critical section: a status read, or a reload with what the configuration file gave. */
  datatype Access = Access(client: Id, reload: Option<Result<Config, string>>, response: Response)

  datatype Daemon = Daemon(
    clients: map<Id, Client>,
    log: seq<Entry>,
    config: Config,
    holder: Option<Id>,
    acquired: seq<Id>,
    accesses: seq<Access>)

  datatype Event =
    | Connect(client: Id, requests: seq<Request>)
    | Start(client: Id)
    | End(client: Id, reply: Reply)
    | Respond(client: Id)
    | Scan(client: Id, scanned: Result<seq<DeviceInfo>, string>)
    | Lock(client: Id)
    | Critical(client: Id, resolved: Result<Config, string>)
    | Unlock(client: Id)

  function Initial(config: Config): Daemon {
    Daemon(map[], [], config, None, [], [])
  }

  predicate TakesLock(request: Request) {
    request.Status? || request.ReloadConfig?
  }

  /** The client is between commands of its first request. */
  predicate Between(c: Client) {
    c.todo != [] && CommandsOnly(c.todo[0]) && c.running.None?
  }

  predicate Enabled(d: Daemon, e: Event) {
    if e.Connect? then e.client !in d.clients else
    e.client in d.clients &&
    var c := d.clients[e.client];
    match e
    case Start(_) => Between(c) && RequestScript(c.todo[0])(c.got).Issue?
    case End(_, _) => c.running.Some?
    case Respond(_) => Between(c) && RequestScript(c.todo[0])(c.got).Finish?
    case Scan(_, _) => c.todo != [] && c.todo[0].ListDevices?
    case Lock(_) => c.todo != [] && TakesLock(c.todo[0]) && d.holder.None?
    case Critical(_, _) => c.todo != [] && TakesLock(c.todo[0]) && d.holder == Some(e.client) && c.made.None?
    case Unlock(_) => d.holder == Some(e.client) && c.made.Some? && c.todo != []
    case Connect(_, _) => true
  }

  /** The first request has been answered. */
  function Answered(c: Client, response: Response): Client
    requires c.todo != []
  {
    c.(todo := c.todo[1..], got := [], made := None, sent := c.sent + [response])
  }

  function AccessOf(d: Daemon, id: Id, request: Request, resolved: Result<Config, string>): Access {
    if request.Status? then Access(id, None, StatusOf(d.config, []))
    else Access(id, Some(resolved), ReloadResponse(resolved))
  }

  /** The client that takes the step, after it. */
  function Moved(d: Daemon, e: Event): Client
    requires Enabled(d, e)
  {
    if e.Connect? then Client(e.requests, e.requests, [], None, None, []) else
    var c := d.clients[e.client];
    match e
    case Start(_) => c.(running := Some(RequestScript(c.todo[0])(c.got).call))
    case End(_, reply) => c.(running := None, got := c.got + [reply])
    case Respond(_) => Answered(c, RequestScript(c.todo[0])(c.got).outcome)
    case Scan(_, scanned) => Answered(c, DevicesResponse(scanned))
    case Critical(_, resolved) => c.(made := Some(AccessOf(d, e.client, c.todo[0], resolved).response))
    case Unlock(_) => Answered(c, c.made.value)
    case _ => c
  }

  /** What the step adds to the command log. */
  function Logged(d: Daemon, e: Event): seq<Entry>
    requires Enabled(d, e)
  {
    match e
    case Start(id) => [Started(id, RequestScript(d.clients[id].todo[0])(d.clients[id].got).call)]
    case End(id, reply) => [Ended(id, reply)]
    case _ => []
  }

  /** What the step does inside the mutex. */
  function Accessed(d: Daemon, e: Event): seq<Access>
    requires Enabled(d, e)
  {
    if e.Critical? then [AccessOf(d, e.client, d.clients[e.client].todo[0], e.resolved)] else []
  }

  function Next(d: Daemon, e: Event): Daemon
    requires Enabled(d, e)
  {
    Daemon(
      d.clients[e.client := Moved(d, e)],
      d.log + Logged(d, e),
      if e.Critical? && d.clients[e.client].todo[0].ReloadConfig? then Reload(d.config, e.resolved) else d.config,
      if e.Lock? then Some(e.client) else if e.Unlock? then None else d.holder,
      d.acquired + if e.Lock? then [e.client] else [],
      d.accesses + Accessed(d, e))
  }

  predicate Possible(d: Daemon, events: seq<Event>)
    decreases |events|
  {
    events == [] || (Enabled(d, events[0]) && Possible(Next(d, events[0]), events[1..]))
  }

  /** The daemon after a run. */
  function After(d: Daemon, events: seq<Event>): Daemon
    requires Possible(d, events)
    decreases |events|
  {
    if events == [] then d else After(Next(d, events[0]), events[1..])
  }

  // ---------------------------------------------------------------- one client's part of the log

  function CallsOf(log: seq<Entry>, id: Id): seq<Call> {
    if log == [] then [] else
    var n := |log| - 1;
    CallsOf(log[..n], id) + if log[n].Started? && log[n].client == id then [log[n].call] else []
  }

  function RepliesOf(log: seq<Entry>, id: Id): seq<Reply> {
    if log == [] then [] else
    var n := |log| - 1;
    RepliesOf(log[..n], id) + if log[n].Ended? && log[n].client == id then [log[n].reply] else []
  }

  lemma {:induction false} LogSnoc(log: seq<Entry>, e: Entry, id: Id)
    ensures CallsOf(log + [e], id) == CallsOf(log, id) + if e.Started? && e.client == id then [e.call] else []
    ensures RepliesOf(log + [e], id) == RepliesOf(log, id) + if e.Ended? && e.client == id then [e.reply] else []
  {
    assert (log + [e])[..|log|] == log;
  }

  /** The responses a client got to requests that commands alone answer. */
  function Open(all: seq<Request>, sent: seq<Response>): (open: seq<Option<Response>>)
    requires |sent| <= |all|
    ensures |open| == |sent|
  {
    seq(|sent|, i requires 0 <= i < |sent| => if CommandsOnly(all[i]) then Some(sent[i]) else None)
  }

  function Pending(c: Client): seq<Call> {
    if c.running.Some? then [c.running.value] else []
  }

  /** The rest of the session, whatever the answers still to come. */
  ghost predicate Continues(c: Client, finished: seq<Call>, replies: seq<Reply>)
    requires |c.sent| <= |c.all|
  {
    forall more: seq<Reply> ::
      Session(c.all, [], replies + more) == Progress(finished, Open(c.all, c.sent)).Then(Session(c.todo, c.got, more))
  }

  /** What every step keeps about one client, given its part of the log. */
  ghost predicate Tracks(c: Client, calls: seq<Call>, replies: seq<Reply>) {
    && |c.sent| <= |c.all| && c.todo == c.all[|c.sent|..]
    && (c.running.Some? ==> c.todo != [] && CommandsOnly(c.todo[0]))
    && (c.running.Some? ==> RequestScript(c.todo[0])(c.got) == Issue(c.running.value))
    && (c.made.Some? ==> c.todo != [] && TakesLock(c.todo[0]))
    && |calls| == |replies| + |Pending(c)| && calls[|replies|..] == Pending(c)
    && Continues(c, calls[..|replies|], replies)
  }

  // ---------------------------------------------------------------- steps of one client

  lemma {:induction false} StartTracked(c: Client, calls: seq<Call>, replies: seq<Reply>, call: Call)
    requires Tracks(c, calls, replies) && Between(c) && RequestScript(c.todo[0])(c.got) == Issue(call)
    ensures Tracks(c.(running := Some(call)), calls + [call], replies)
  {
    hide RequestScript, Session, Open, CommandsOnly;
    assert calls[|replies|..] == [];
    assert (calls + [call])[..|replies|] == calls[..|replies|];
  }

  lemma {:induction false} EndContinues(c: Client, finished: seq<Call>, replies: seq<Reply>, call: Call,
      reply: Reply, more: seq<Reply>)
    requires |c.sent| <= |c.all| && Continues(c, finished, replies)
    requires c.todo != [] && CommandsOnly(c.todo[0]) && RequestScript(c.todo[0])(c.got) == Issue(call)
    ensures Session(c.all, [], (replies + [reply]) + more)
      == Progress(finished + [call], Open(c.all, c.sent)).Then(Session(c.todo, c.got + [reply], more))
  {
    SessionIssues(c.todo, c.got, call, reply, more);
    hide RequestScript, Session, Open, CommandsOnly;
    ConcatAssoc(replies, [reply], more);
    var open, rest := Open(c.all, c.sent), Session(c.todo, c.got + [reply], more);
    assert Session(c.all, [], replies + ([reply] + more))
        == Progress(finished, open).Then(Progress([call], []).Then(rest));
    ThenAssociates(Progress(finished, open), Progress([call], []), rest);
    assert open + [] == open;
  }

  lemma {:induction false} EndTracked(c: Client, calls: seq<Call>, replies: seq<Reply>, reply: Reply)
    requires Tracks(c, calls, replies) && c.running.Some?
    ensures Tracks(c.(running := None, got := c.got + [reply]), calls, replies + [reply])
  {
    hide RequestScript, Session, Open, CommandsOnly;
    var call := c.running.value;
    assert calls[..|replies|] + [call] == calls[..|replies| + 1] == calls;
    assert calls[|replies| + 1..] == [];
    forall more: seq<Reply>
      ensures Session(c.all, [], (replies + [reply]) + more)
        == Progress(calls, Open(c.all, c.sent)).Then(Session(c.todo, c.got + [reply], more))
    {
      EndContinues(c, calls[..|replies|], replies, call, reply, more);
    }
  }

  lemma {:induction false} OpenSnoc(all: seq<Request>, sent: seq<Response>, response: Response)
    requires |sent| < |all|
    ensures Open(all, sent + [response])
         == Open(all, sent) + [if CommandsOnly(all[|sent|]) then Some(response) else None]
  {
    hide CommandsOnly;
  }

  lemma {:induction false} AnswerContinues(c: Client, finished: seq<Call>, replies: seq<Reply>,
      response: Response, more: seq<Reply>)
    requires |c.sent| < |c.all| && c.todo == c.all[|c.sent|..] && Continues(c, finished, replies)
    requires CommandsOnly(c.todo[0]) ==> RequestScript(c.todo[0])(c.got) == Finish(response)
    ensures Session(c.all, [], replies + more)
      == Progress(finished, Open(c.all, c.sent + [response])).Then(Session(c.todo[1..], [], more))
  {
    SessionAnswers(c.todo, c.got, response, more);
    OpenSnoc(c.all, c.sent, response);
    hide RequestScript, Session, Open, CommandsOnly;
    var open := Open(c.all, c.sent);
    var slot := if CommandsOnly(c.todo[0]) then Some(response) else None;
    ThenAssociates(Progress(finished, open), Progress([], [slot]), Session(c.todo[1..], [], more));
    assert finished + [] == finished;
  }

  lemma {:induction false} AnswerTracked(c: Client, calls: seq<Call>, replies: seq<Reply>, response: Response)
    requires Tracks(c, calls, replies) && c.todo != [] && c.running.None?
    requires CommandsOnly(c.todo[0]) ==> RequestScript(c.todo[0])(c.got) == Finish(response)
    ensures Tracks(Answered(c, response), calls, replies)
  {
    hide RequestScript, Session, Open, CommandsOnly;
    forall more: seq<Reply>
      ensures Session(c.all, [], replies + more)
        == Progress(calls[..|replies|], Open(c.all, c.sent + [response])).Then(Session(c.todo[1..], [], more))
    {
      AnswerContinues(c, calls[..|replies|], replies, response, more);
    }
  }

  lemma {:induction false} MadeTracked(c: Client, calls: seq<Call>, replies: seq<Reply>, response: Response)
    requires Tracks(c, calls, replies) && c.todo != [] && TakesLock(c.todo[0])
    ensures Tracks(c.(made := Some(response)), calls, replies)
  {
    hide RequestScript, Session, Open, CommandsOnly;
  }

  lemma {:induction false} ConnectTracked(requests: seq<Request>)
    ensures Tracks(Client(requests, requests, [], None, None, []), [], [])
  {
    hide Session;
    assert requests[0..] == requests;
    forall more: seq<Reply>
      ensures Session(requests, [], [] + more) == Progress([], Open(requests, [])).Then(Session(requests, [], more))
    {
      assert [] + more == more;
    }
  }

  // ---------------------------------------------------------------- every client at once

  ghost predicate Tracked(d: Daemon) {
    && (forall id :: id in d.clients ==> Tracks(d.clients[id], CallsOf(d.log, id), RepliesOf(d.log, id)))
    && (forall id: Id :: id !in d.clients ==> CallsOf(d.log, id) == [] && RepliesOf(d.log, id) == [])
  }

  lemma {:induction false} LogMore(log: seq<Entry>, es: seq<Entry>, actor: Id, id: Id)
    requires es == [] || (|es| == 1 && es[0].client == actor)
    ensures id != actor ==> CallsOf(log + es, id) == CallsOf(log, id) && RepliesOf(log + es, id) == RepliesOf(log, id)
  {
    hide CallsOf, RepliesOf;
    if es == [] {
      assert log + es == log;
    } else {
      assert es == [es[0]];
      LogSnoc(log, es[0], id);
    }
  }

  lemma {:induction false} LoggedOwn(d: Daemon, e: Event)
    requires Enabled(d, e)
    ensures Logged(d, e) == [] || (|Logged(d, e)| == 1 && Logged(d, e)[0].client == e.client)
  {
    hide RequestScript, CommandsOnly;
  }

  /** What the acting client's part of the log is after the step. */
  ghost predicate TracksAfter(d: Daemon, e: Event)
    requires Enabled(d, e)
  {
    Tracks(Moved(d, e), CallsOf(d.log + Logged(d, e), e.client), RepliesOf(d.log + Logged(d, e), e.client))
  }

  lemma {:induction false} StartCase(d: Daemon, e: Event, c: Client, calls: seq<Call>, replies: seq<Reply>)
    requires Enabled(d, e) && e.Start? && c == d.clients[e.client]
    requires calls == CallsOf(d.log, e.client) && replies == RepliesOf(d.log, e.client) && Tracks(c, calls, replies)
    ensures TracksAfter(d, e)
  {
    hide Tracks, CallsOf, RepliesOf;
    var call := RequestScript(c.todo[0])(c.got).call;
    LogSnoc(d.log, Started(e.client, call), e.client);
    StartTracked(c, calls, replies, call);
    hide RequestScript;
    assert calls + [call] == CallsOf(d.log + Logged(d, e), e.client);
    assert replies + [] == replies;
  }

  lemma {:induction false} EndCase(d: Daemon, e: Event, c: Client, calls: seq<Call>, replies: seq<Reply>)
    requires Enabled(d, e) && e.End? && c == d.clients[e.client]
    requires calls == CallsOf(d.log, e.client) && replies == RepliesOf(d.log, e.client) && Tracks(c, calls, replies)
    ensures TracksAfter(d, e)
  {
    hide Tracks, CallsOf, RepliesOf, RequestScript, CommandsOnly;
    LogSnoc(d.log, Ended(e.client, e.reply), e.client);
    EndTracked(c, calls, replies, e.reply);
    assert calls + [] == calls;
  }

  lemma {:induction false} NoLockRunning(c: Client, calls: seq<Call>, replies: seq<Reply>)
    requires Tracks(c, calls, replies) && c.todo != [] && !CommandsOnly(c.todo[0])
    ensures c.running.None?
  {
    hide Continues, RequestScript;
  }

  lemma {:induction false} QuietCase(d: Daemon, e: Event, c: Client, calls: seq<Call>, replies: seq<Reply>)
    requires Enabled(d, e) && (e.Respond? || e.Scan? || e.Unlock?) && c == d.clients[e.client]
    requires calls == CallsOf(d.log, e.client) && replies == RepliesOf(d.log, e.client) && Tracks(c, calls, replies)
    requires e.Unlock? ==> TakesLock(c.todo[0])
    ensures TracksAfter(d, e)
  {
    hide Tracks, CallsOf, RepliesOf;
    if !e.Respond? { NoLockRunning(c, calls, replies); }
    var response := if e.Respond? then RequestScript(c.todo[0])(c.got).outcome
      else if e.Scan? then DevicesResponse(e.scanned) else c.made.value;
    AnswerTracked(c, calls, replies, response);
    assert d.log + [] == d.log;
    hide RequestScript, CommandsOnly, Answered;
  }

  lemma {:induction false} LockCase(d: Daemon, e: Event, c: Client, calls: seq<Call>, replies: seq<Reply>)
    requires Enabled(d, e) && (e.Lock? || e.Critical?) && c == d.clients[e.client]
    requires calls == CallsOf(d.log, e.client) && replies == RepliesOf(d.log, e.client) && Tracks(c, calls, replies)
    ensures TracksAfter(d, e)
  {
    hide Tracks, CallsOf, RepliesOf, RequestScript, AccessOf;
    if e.Critical? { MadeTracked(c, calls, replies, AccessOf(d, e.client, c.todo[0], e.resolved).response); }
    assert d.log + [] == d.log;
  }

  lemma {:induction false} MadeTakesLock(c: Client, calls: seq<Call>, replies: seq<Reply>)
    requires Tracks(c, calls, replies) && c.made.Some?
    ensures c.todo != [] && TakesLock(c.todo[0])
  {
    hide Continues, RequestScript;
  }

  lemma {:induction false} ConnectCase(d: Daemon, e: Event)
    requires Enabled(d, e) && e.Connect? && CallsOf(d.log, e.client) == [] && RepliesOf(d.log, e.client) == []
    ensures TracksAfter(d, e)
  {
    hide Tracks, CallsOf, RepliesOf;
    ConnectTracked(e.requests);
    assert d.log + [] == d.log;
  }

  lemma {:induction false} ActorTracked(d: Daemon, e: Event)
    requires Enabled(d, e) && Tracked(d)
    ensures TracksAfter(d, e)
  {
    hide Tracks, CallsOf, RepliesOf, TracksAfter, RequestScript, Answered, CommandsOnly, TakesLock;
    if e.Connect? {
      ConnectCase(d, e);
    } else {
      var c, calls, replies := d.clients[e.client], CallsOf(d.log, e.client), RepliesOf(d.log, e.client);
      if e.Start? {
        StartCase(d, e, c, calls, replies);
      } else if e.End? {
        EndCase(d, e, c, calls, replies);
      } else if e.Lock? || e.Critical? {
        LockCase(d, e, c, calls, replies);
      } else {
        if e.Unlock? { MadeTakesLock(c, calls, replies); }
        QuietCase(d, e, c, calls, replies);
      }
    }
  }

  lemma {:induction false} StepTracked(d: Daemon, e: Event)
    requires Enabled(d, e) && Tracked(d)
    ensures Tracked(Next(d, e))
  {
    hide Tracks, CallsOf, RepliesOf, Enabled, Moved, Logged, Accessed, Reload;
    ActorTracked(d, e);
    LoggedOwn(d, e);
    forall id: Id | id != e.client
      ensures CallsOf(d.log + Logged(d, e), id) == CallsOf(d.log, id)
      ensures RepliesOf(d.log + Logged(d, e), id) == RepliesOf(d.log, id)
    {
      LogMore(d.log, Logged(d, e), e.client, id);
    }
  }

  // ---------------------------------------------------------------- the mutex

  function Holders(accesses: seq<Access>): (ids: seq<Id>)
    ensures |ids| == |accesses|
  {
    seq(|accesses|, i requires 0 <= i < |accesses| => accesses[i].client)
  }

  lemma {:induction false} HoldersSnoc(accesses: seq<Access>, a: Access)
    ensures Holders(accesses + [a]) == Holders(accesses) + [a.client]
  {
  }

  /** Only the holder is inside, and critical sections happen in the order of acquisition. */
  ghost predicate Exclusive(d: Daemon) {
    && (forall id :: id in d.clients && d.holder != Some(id) ==> d.clients[id].made.None?)
    && match d.holder
       case None => d.acquired == Holders(d.accesses)
       case Some(h) =>
         && h in d.clients && d.clients[h].todo != [] && TakesLock(d.clients[h].todo[0])
         && d.acquired == Holders(d.accesses) + if d.clients[h].made.None? then [h] else []
  }

  lemma {:induction false} StepExclusive(d: Daemon, e: Event)
    requires Enabled(d, e) && Exclusive(d)
    ensures Exclusive(Next(d, e))
  {
    hide RequestScript, Holders, Reload, Logged, AccessOf;
    if e.Critical? {
      HoldersSnoc(d.accesses, Accessed(d, e)[0]);
      AccessExpected(d, e.client, d.clients[e.client].todo[0], e.resolved);
    }
    assert d.accesses + [] == d.accesses;
    assert d.acquired + [] == d.acquired;
  }

  // ---------------------------------------------------------------- the configuration as one register

  /** The configuration after some critical sections: the last successful reload's. */
  function Current(config: Config, accesses: seq<Access>): Config {
    if accesses == [] then config else
    var n := |accesses| - 1;
    match accesses[n].reload
    case Some(Ok(latest)) => latest
    case _ => Current(config, accesses[..n])
  }

  /** The response a critical section gives when it finds `config`; the list of imported pools stays empty. */
  function Expected(config: Config, reload: Option<Result<Config, string>>): Response {
    match reload
    case None => StatusReport("0.1.0", 0, [], [], config.autoDetect)
    case Some(Ok(_)) => Success(Reloaded)
    case Some(Err(message)) => Error("CONFIG_ERROR", message)
  }

  /** Each critical section answered as if all the earlier ones, and nothing else, had happened. */
  predicate Linear(config: Config, accesses: seq<Access>) {
    forall k :: 0 <= k < |accesses| ==>
      accesses[k].response == Expected(Current(config, accesses[..k]), accesses[k].reload)
  }

  ghost predicate Registers(d: Daemon, config: Config) {
    Linear(config, d.accesses) && d.config == Current(config, d.accesses)
  }

  lemma {:induction false} LinearSnoc(config: Config, accesses: seq<Access>, a: Access)
    requires Linear(config, accesses) && a.response == Expected(Current(config, accesses), a.reload)
    ensures Linear(config, accesses + [a])
    ensures Current(config, accesses + [a])
        == match a.reload case Some(Ok(latest)) => latest case _ => Current(config, accesses)
  {
    var more := accesses + [a];
    assert more[..|accesses|] == accesses;
    forall k | 0 <= k < |more| ensures more[k].response == Expected(Current(config, more[..k]), more[k].reload) {
      if k < |accesses| { assert more[..k] == accesses[..k]; }
    }
  }

  lemma {:induction false} AccessExpected(d: Daemon, id: Id, request: Request, resolved: Result<Config, string>)
    requires TakesLock(request)
    ensures var a := AccessOf(d, id, request, resolved);
      && a.client == id && a.response == Expected(d.config, a.reload)
      && (if request.ReloadConfig? then Reload(d.config, resolved) else d.config)
         == match a.reload case Some(Ok(latest)) => latest case _ => d.config
  {
  }

  lemma {:induction false} StepRegisters(d: Daemon, e: Event, config: Config)
    requires Enabled(d, e) && Registers(d, config)
    ensures Registers(Next(d, e), config)
  {
    hide Linear, Current, RequestScript, AccessOf, Moved, Logged, Reload, Expected;
    assert d.accesses + [] == d.accesses;
    if e.Critical? {
      var c := d.clients[e.client];
      AccessExpected(d, e.client, c.todo[0], e.resolved);
      LinearSnoc(config, d.accesses, AccessOf(d, e.client, c.todo[0], e.resolved));
    }
  }

  // ---------------------------------------------------------------- delivery

  /** The responses of one client's critical sections, in order. */
  function ResponsesOf(accesses: seq<Access>, id: Id): seq<Response> {
    if accesses == [] then [] else
    var n := |accesses| - 1;
    ResponsesOf(accesses[..n], id) + if accesses[n].client == id then [accesses[n].response] else []
  }

  /** The responses a client got to its status and reload requests, in order. */
  function LockResponses(all: seq<Request>, sent: seq<Response>): seq<Response>
    requires |sent| <= |all|
  {
    if sent == [] then [] else
    var n := |sent| - 1;
    LockResponses(all, sent[..n]) + if TakesLock(all[n]) then [sent[n]] else []
  }

  ghost predicate DeliveredTo(d: Daemon, id: Id) {
    if id in d.clients then
      var c := d.clients[id];
      |c.sent| <= |c.all| && ResponsesOf(d.accesses, id)
          == LockResponses(c.all, c.sent) + if c.made.Some? then [c.made.value] else []
    else ResponsesOf(d.accesses, id) == []
  }

  ghost predicate Delivered(d: Daemon) {
    forall id: Id :: DeliveredTo(d, id)
  }

  lemma {:induction false} ResponsesSnoc(accesses: seq<Access>, a: Access, id: Id)
    ensures ResponsesOf(accesses + [a], id) == ResponsesOf(accesses, id) + if a.client == id then [a.response] else []
  {
    assert (accesses + [a])[..|accesses|] == accesses;
  }

  lemma {:induction false} LockResponsesSnoc(all: seq<Request>, sent: seq<Response>, r: Response)
    requires |sent| < |all|
    ensures LockResponses(all, sent + [r]) == LockResponses(all, sent) + if TakesLock(all[|sent|]) then [r] else []
  {
    assert (sent + [r])[..|sent|] == sent;
  }

  lemma {:induction false} MovedDelivered(d: Daemon, e: Event, c: Client)
    requires Enabled(d, e) && !e.Connect? && c == d.clients[e.client] && DeliveredTo(d, e.client)
    requires |c.sent| <= |c.all| && c.todo == c.all[|c.sent|..]
    requires c.made.Some? ==> c.todo != [] && TakesLock(c.todo[0])
    ensures DeliveredTo(Next(d, e), e.client)
  {
    hide RequestScript, ResponsesOf, LockResponses, AccessOf, Reload, Logged;
    assert d.accesses + [] == d.accesses;
    if e.Respond? || e.Scan? || e.Unlock? {
      var response := Moved(d, e).sent[|c.sent|];
      LockResponsesSnoc(c.all, c.sent, response);
    } else if e.Critical? {
      ResponsesSnoc(d.accesses, Accessed(d, e)[0], e.client);
      AccessExpected(d, e.client, c.todo[0], e.resolved);
    }
  }

  lemma {:induction false} StepDeliveredTo(d: Daemon, e: Event, id: Id)
    requires Enabled(d, e) && Tracked(d) && DeliveredTo(d, id)
    ensures DeliveredTo(Next(d, e), id)
  {
    hide RequestScript, ResponsesOf, LockResponses, AccessOf, Reload, Logged, Moved, CallsOf, RepliesOf, Continues;
    if id != e.client || e.Connect? {
      BystanderDelivered(d, e, id);
    } else {
      var c := d.clients[id];
      assert Tracks(c, CallsOf(d.log, id), RepliesOf(d.log, id));
      MovedDelivered(d, e, c);
    }
  }

  lemma {:induction false} BystanderDelivered(d: Daemon, e: Event, id: Id)
    requires Enabled(d, e) && DeliveredTo(d, id) && (id != e.client || e.Connect?)
    ensures DeliveredTo(Next(d, e), id)
  {
    hide RequestScript, ResponsesOf, AccessOf, Reload, Logged;
    assert d.accesses + [] == d.accesses;
    if e.Critical? {
      AccessExpected(d, e.client, d.clients[e.client].todo[0], e.resolved);
      ResponsesSnoc(d.accesses, Accessed(d, e)[0], id);
    }
  }

  // ---------------------------------------------------------------- every run

  /** What every run keeps, from the configuration the daemon started with. */
  ghost predicate Good(d: Daemon, config: Config) {
    Tracked(d) && Exclusive(d) && Registers(d, config) && Delivered(d)
  }

  lemma {:induction false} InitialGood(config: Config)
    ensures Good(Initial(config), config)
  {
  }

  lemma {:induction false} StepGood(d: Daemon, e: Event, config: Config)
    requires Enabled(d, e) && Good(d, config)
    ensures Good(Next(d, e), config)
  {
    hide Tracked, Exclusive, Registers, DeliveredTo, Enabled, Next;
    StepTracked(d, e);
    StepExclusive(d, e);
    StepRegisters(d, e, config);
    forall id: Id ensures DeliveredTo(Next(d, e), id) {
      StepDeliveredTo(d, e, id);
    }
  }

  lemma {:induction false} RunGood(d: Daemon, events: seq<Event>, config: Config)
    requires Good(d, config) && Possible(d, events)
    ensures Good(After(d, events), config)
    decreases |events|
  {
    hide Good, Enabled, Next;
    if events != [] {
      StepGood(d, events[0], config);
      RunGood(Next(d, events[0]), events[1..], config);
    }
  }

  /** A daemon some run leads to. */
  ghost predicate Reachable(d: Daemon, config: Config) {
    exists events: seq<Event> :: Possible(Initial(config), events) && After(Initial(config), events) == d
  }

  lemma {:induction false} ReachableGood(d: Daemon, config: Config)
    requires Reachable(d, config)
    ensures Good(d, config)
  {
    hide Good, Enabled, Next;
    var events: seq<Event> :| Possible(Initial(config), events) && After(Initial(config), events) == d;
    InitialGood(config);
    RunGood(Initial(config), events, config);
  }

  /**
   In every reachable state, whatever the interleaving and the answers, one client's part of the
   command log is what its requests issue when served alone and in order under the answers it
   received: the same calls in the same order, with at most the last still running, and the same
   responses to everything commands determine. The session is at most one call ahead, none while a
   command is running; once all is answered it is the whole session.
   */
  lemma {:induction false} ProjectionIsSequential(d: Daemon, config: Config, id: Id)
    requires Reachable(d, config) && id in d.clients
    ensures var c := d.clients[id];
      && var calls, replies := CallsOf(d.log, id), RepliesOf(d.log, id);
      && var session := Session(c.all, [], replies);
      && |calls| == |replies| + (if c.running.Some? then 1 else 0)
      && calls <= session.calls && |session.calls| <= |replies| + 1
      && (c.running.Some? ==> calls == session.calls)
      && |c.sent| <= |c.all| && Open(c.all, c.sent) <= session.responses
      && (c.todo == [] ==> session == Progress(calls, Open(c.all, c.sent)))
  {
    ReachableGood(d, config);
    var c, calls, replies := d.clients[id], CallsOf(d.log, id), RepliesOf(d.log, id);
    assert Tracks(c, calls, replies);
    TracksSession(c, calls, replies);
  }

  lemma {:induction false} TracksSession(c: Client, calls: seq<Call>, replies: seq<Reply>)
    requires Tracks(c, calls, replies)
    ensures var session := Session(c.all, [], replies);
      && calls <= session.calls && |session.calls| <= |replies| + 1
      && (c.running.Some? ==> calls == session.calls)
      && Open(c.all, c.sent) <= session.responses
      && (c.todo == [] ==> session == Progress(calls, Open(c.all, c.sent)))
  {
    var finished, open := calls[..|replies|], Open(c.all, c.sent);
    var rest := Session(c.todo, c.got, []);
    assert replies + [] == replies;
    assert Session(c.all, [], replies) == Progress(finished, open).Then(rest);
    assert calls == finished + calls[|replies|..];
    OneCallAhead(c.todo, c.got);
    if c.running.Some? {
      SessionIssues(c.todo, c.got, c.running.value, Failed(""), []);
      assert rest == Progress([c.running.value], []);
    }
    hide RequestScript, Session, Open, Continues;
    if c.todo == [] {
      assert rest == NOTHING;
      assert finished + [] == finished && open + [] == open;
    }
  }

  /**
   In every reachable state at most one client is inside the mutex; critical sections happen in
   the order the mutex was acquired; each answers as a read or write of one register of which all
   the earlier ones were the only users, so that a failed reload changes nothing and a status
   shows the last successful reload; and every client received exactly its own answers, in order.
   */
  lemma {:induction false} LockOrderLinearizes(d: Daemon, config: Config)
    requires Reachable(d, config)
    ensures Exclusive(d) && Linear(config, d.accesses) && d.config == Current(config, d.accesses)
    ensures Holders(d.accesses) <= d.acquired && |d.acquired| <= |d.accesses| + 1
    ensures forall id :: id in d.clients && d.clients[id].made.None? ==>
      |d.clients[id].sent| <= |d.clients[id].all| &&
      ResponsesOf(d.accesses, id) == LockResponses(d.clients[id].all, d.clients[id].sent)
  {
    ReachableGood(d, config);
    hide Tracked, Linear, Current, Holders, ResponsesOf, LockResponses;
    forall id | id in d.clients && d.clients[id].made.None?
      ensures |d.clients[id].sent| <= |d.clients[id].all|
      ensures ResponsesOf(d.accesses, id) == LockResponses(d.clients[id].all, d.clients[id].sent)
    {
      assert DeliveredTo(d, id);
    }
  }
}
