/** What responses mean in the interleaved daemon: each answers a segment of its own client's log. */
module Service {

  import opened Wrappers
  import opened Commands
  import opened Requests
  import opened Responses
  import opened Daemon
  import opened Devices
  import I = Intents
  import W = Worlds
  import P = Pools
  import T = Tables

  /** The finished commands of a client, with their answers. */
  function Finished(calls: seq<Call>, replies: seq<Reply>): (es: seq<Exchange>)
    requires |replies| <= |calls|
    ensures |es| == |replies|
  {
    seq(|replies|, i requires 0 <= i < |replies| => Exchange(calls[i], replies[i]))
  }

  /** What a device scan is answered with. */
  predicate TellsDevices(scanned: Result<seq<DeviceInfo>, string>, response: Response) {
    match scanned
    case Ok(devices) => response == DeviceList(devices)
    case Err(message) => response == Error("DEVICE_SCAN_ERROR", message)
  }

  /** The exchanges that a response answers. */
  ghost predicate ServedBy(request: Request, segment: seq<Exchange>, response: Response) {
    if CommandsOnly(request) then Conversation(RequestScript(request), segment, response)
    else segment == [] && (request.ListDevices? ==> exists scanned :: TellsDevices(scanned, response))
  }

  /** Positions within `es`, ascending from its start. */
  predicate Ascending(cuts: seq<nat>, es: seq<Exchange>) {
    && cuts != [] && cuts[0] == 0
    && (forall i :: 0 <= i < |cuts| ==> cuts[i] <= |es|)
    && (forall i :: 0 <= i < |cuts| - 1 ==> cuts[i] <= cuts[i + 1])
  }

  /** What the request in progress has asked and been told so far. */
  ghost predicate InProgress(c: Client, now: seq<Exchange>) {
    && Replies(now) == c.got
    && (if c.todo != [] && CommandsOnly(c.todo[0]) then Follows(RequestScript(c.todo[0]), now) else now == [])
  }

  /** The client's exchanges cut into one segment a response, and the segment in progress. */
  ghost predicate CutAt(c: Client, es: seq<Exchange>, cuts: seq<nat>) {
    && Ascending(cuts, es) && |cuts| == |c.sent| + 1 && |c.sent| <= |c.all|
    && (forall i :: 0 <= i < |c.sent| ==> ServedBy(c.all[i], es[cuts[i]..cuts[i + 1]], c.sent[i]))
    && InProgress(c, es[cuts[|c.sent|]..])
  }

  ghost predicate Segmented(c: Client, es: seq<Exchange>) {
    exists cuts: seq<nat> :: CutAt(c, es, cuts)
  }

  // ---------------------------------------------------------------- steps of one client

  lemma {:induction false} ConnectSegmented(requests: seq<Request>)
    ensures Segmented(Client(requests, requests, [], None, None, []), [])
  {
    assert CutAt(Client(requests, requests, [], None, None, []), [], [0]);
  }

  lemma {:induction false} EndInProgress(c: Client, now: seq<Exchange>, call: Call, reply: Reply)
    requires InProgress(c, now) && c.todo != [] && CommandsOnly(c.todo[0])
    requires RequestScript(c.todo[0])(c.got) == Issue(call)
    ensures InProgress(c.(running := None, got := c.got + [reply]), now + [Exchange(call, reply)])
  {
    hide RequestScript;
  }

  lemma {:induction false} EndSegmented(c: Client, es: seq<Exchange>, call: Call, reply: Reply)
    requires Segmented(c, es) && c.todo != [] && CommandsOnly(c.todo[0])
    requires RequestScript(c.todo[0])(c.got) == Issue(call)
    ensures Segmented(c.(running := None, got := c.got + [reply]), es + [Exchange(call, reply)])
  {
    hide RequestScript, ServedBy, InProgress, CommandsOnly;
    var cuts: seq<nat> :| CutAt(c, es, cuts);
    var more, last := es + [Exchange(call, reply)], cuts[|c.sent|];
    EndInProgress(c, es[last..], call, reply);
    assert more[last..] == es[last..] + [Exchange(call, reply)];
    forall i | 0 <= i < |c.sent| ensures more[cuts[i]..cuts[i + 1]] == es[cuts[i]..cuts[i + 1]] {
    }
    assert CutAt(c.(running := None, got := c.got + [reply]), more, cuts);
  }

  lemma {:induction false} AnswerServes(c: Client, now: seq<Exchange>, response: Response)
    requires InProgress(c, now) && c.todo != []
    requires CommandsOnly(c.todo[0]) ==> RequestScript(c.todo[0])(c.got) == Finish(response)
    requires c.todo[0].ListDevices? ==> exists scanned :: TellsDevices(scanned, response)
    ensures ServedBy(c.todo[0], now, response) && InProgress(Answered(c, response), [])
  {
    hide RequestScript, CommandsOnly;
    assert Replies([]) == [];
  }

  lemma {:induction false} AnswerSegmented(c: Client, es: seq<Exchange>, response: Response)
    requires Segmented(c, es) && c.todo != [] && |c.sent| <= |c.all| && c.todo == c.all[|c.sent|..]
    requires CommandsOnly(c.todo[0]) ==> RequestScript(c.todo[0])(c.got) == Finish(response)
    requires c.todo[0].ListDevices? ==> exists scanned :: TellsDevices(scanned, response)
    ensures Segmented(Answered(c, response), es)
  {
    hide RequestScript, ServedBy, InProgress, CommandsOnly;
    var cuts: seq<nat> :| CutAt(c, es, cuts);
    var n, more := |c.sent|, cuts + [|es|];
    AnswerServes(c, es[cuts[n]..], response);
    assert es[cuts[n]..|es|] == es[cuts[n]..] && es[|es|..] == [];
    assert CutAt(Answered(c, response), es, more);
  }

  /** Nothing else about a client matters. */
  lemma {:induction false} QuietSegmented(c: Client, c': Client, es: seq<Exchange>)
    requires Segmented(c, es)
    requires c'.all == c.all && c'.todo == c.todo && c'.got == c.got && c'.sent == c.sent
    ensures Segmented(c', es)
  {
    hide RequestScript, ServedBy, CommandsOnly, Follows;
    var cuts: seq<nat> :| CutAt(c, es, cuts);
    assert CutAt(c', es, cuts);
  }

  // ---------------------------------------------------------------- every client, every run

  ghost predicate SegmentedAt(d: Daemon, id: Id) {
    id in d.clients ==>
      |RepliesOf(d.log, id)| <= |CallsOf(d.log, id)| &&
      Segmented(d.clients[id], Finished(CallsOf(d.log, id), RepliesOf(d.log, id)))
  }

  lemma {:induction false} ActorSegmented(d: Daemon, e: Event)
    requires Enabled(d, e) && Tracked(d) && SegmentedAt(d, e.client) && !e.Connect?
    ensures SegmentedAt(Next(d, e), e.client)
  {
    hide CallsOf, RepliesOf, Segmented, RequestScript, Continues, AccessOf, CommandsOnly, Answered;
    var id := e.client;
    var c, calls, replies := d.clients[id], CallsOf(d.log, id), RepliesOf(d.log, id);
    assert Tracks(c, calls, replies);
    var es := Finished(calls, replies);
    assert d.log + [] == d.log;
    if e.Start? {
      LogSnoc(d.log, Logged(d, e)[0], id);
      assert Finished(calls + [Logged(d, e)[0].call], replies) == es;
      assert replies + [] == replies;
      QuietSegmented(c, Moved(d, e), es);
    } else if e.End? {
      LogSnoc(d.log, Ended(id, e.reply), id);
      assert calls + [] == calls;
      assert calls[|replies|] == c.running.value;
      assert Finished(calls, replies + [e.reply]) == es + [Exchange(c.running.value, e.reply)];
      EndSegmented(c, es, c.running.value, e.reply);
    } else if e.Lock? || e.Critical? {
      QuietSegmented(c, Moved(d, e), es);
    } else {
      QuietAnswer(d, e, c, es);
    }
  }

  lemma {:induction false} QuietAnswer(d: Daemon, e: Event, c: Client, es: seq<Exchange>)
    requires Enabled(d, e) && (e.Respond? || e.Scan? || e.Unlock?) && c == d.clients[e.client]
    requires Segmented(c, es) && |c.sent| <= |c.all| && c.todo == c.all[|c.sent|..]
    requires c.made.Some? ==> c.todo != [] && TakesLock(c.todo[0])
    ensures Segmented(Moved(d, e), es)
  {
    hide Segmented, RequestScript, AccessOf, Answered;
    if e.Scan? { assert TellsDevices(e.scanned, DevicesResponse(e.scanned)); }
    var response := if e.Respond? then RequestScript(c.todo[0])(c.got).outcome
      else if e.Scan? then DevicesResponse(e.scanned) else c.made.value;
    AnswerSegmented(c, es, response);
  }

  lemma {:induction false} StepSegmented(d: Daemon, e: Event, id: Id)
    requires Enabled(d, e) && Tracked(d) && SegmentedAt(d, id)
    ensures SegmentedAt(Next(d, e), id)
  {
    hide CallsOf, RepliesOf, Segmented, Moved, Tracks, Enabled, Accessed, Reload;
    LoggedOwn(d, e);
    if id != e.client {
      LogMore(d.log, Logged(d, e), e.client, id);
    } else if e.Connect? {
      Connected(d, e);
    } else {
      ActorSegmented(d, e);
    }
  }

  lemma {:induction false} Connected(d: Daemon, e: Event)
    requires Enabled(d, e) && Tracked(d) && e.Connect?
    ensures SegmentedAt(Next(d, e), e.client)
  {
    hide CallsOf, RepliesOf, Segmented, Tracks;
    ConnectSegmented(e.requests);
    assert d.log + [] == d.log;
    assert Finished([], []) == [];
  }

  lemma {:induction false} RunSegmented(d: Daemon, events: seq<Event>, config: Config, id: Id)
    requires Good(d, config) && Possible(d, events) && SegmentedAt(d, id)
    ensures SegmentedAt(After(d, events), id)
    decreases |events|
  {
    hide Tracked, SegmentedAt, Enabled, Next, Exclusive, Registers, Delivered;
    if events != [] {
      StepGood(d, events[0], config);
      StepSegmented(d, events[0], id);
      RunSegmented(Next(d, events[0]), events[1..], config, id);
    }
  }

  lemma {:induction false} ReachableSegmented(d: Daemon, config: Config, id: Id)
    requires Reachable(d, config)
    ensures SegmentedAt(d, id)
  {
    hide Good, Enabled, Next;
    var events: seq<Event> :| Possible(Initial(config), events) && After(Initial(config), events) == d;
    InitialGood(config);
    RunSegmented(Initial(config), events, config, id);
  }

  // ---------------------------------------------------------------- what a client may conclude

  /** What a response may be, given its own segment of the client's exchanges. */
  ghost predicate TrueOf(request: Request, segment: seq<Exchange>, response: Response) {
    && (Changes(request) ==> TellsTruth(request, segment, response))
    && (request.ListPools? ==> TellsPools(segment, response))
    && (request.ListDevices? ==> exists scanned :: TellsDevices(scanned, response))
    && (request.Ping? ==> response == Pong && segment == [])
    && (request.SubscribeEvents? ==> response == EventStream && segment == [])
  }

  /** What commands a request may have issued so far. */
  ghost predicate Proper(request: Request, segment: seq<Exchange>) {
    && (Keyed(request) ==> KeyFirst(request, segment))
    && (Changes(request) ==> I.MeanInTurn(segment, I.Wanted(request), I.Target(request)))
  }

  /** Each response is true of its own segment, and every segment is proper, the one in progress too. */
  ghost predicate TruthfulSegments(c: Client, es: seq<Exchange>, cuts: seq<nat>)
    requires CutAt(c, es, cuts)
  {
    && (forall i :: 0 <= i < |c.sent| ==>
         TrueOf(c.all[i], es[cuts[i]..cuts[i + 1]], c.sent[i]) && Proper(c.all[i], es[cuts[i]..cuts[i + 1]]))
    && (c.todo != [] ==> Proper(c.todo[0], es[cuts[|c.sent|]..]))
  }

  lemma {:induction false} SegmentProper(request: Request, segment: seq<Exchange>)
    requires if CommandsOnly(request) then Follows(RequestScript(request), segment) else segment == []
    ensures Proper(request, segment)
  {
    hide KeyFirst, RequestScript, Follows, I.MeanInTurn, I.Wanted, I.Target;
    if Keyed(request) { KeyLoadedFirst(request, segment); }
    if Changes(request) { I.CommandsMeanTheRequest(request, segment); }
  }

  lemma {:induction false} SegmentTrue(request: Request, segment: seq<Exchange>, response: Response)
    requires ServedBy(request, segment, response)
    ensures TrueOf(request, segment, response)
  {
    hide TellsTruth, TellsPools, TellsDevices, Follows;
    if Changes(request) { ResponsesTellTheTruth(request, segment, response); }
    if request.ListPools? { ListPoolsAnswered(segment, response); }
    if request.Ping? { ReturnSoFar(Pong, segment); }
    if request.SubscribeEvents? { ReturnSoFar(EventStream, segment); }
  }

  /**
   In every reachable state of the interleaved daemon, a client's finished commands fall into
   consecutive segments, one for each response it got and one for the request in progress. Whatever
   other clients did in between, every response is true of its own segment, and the commands of
   every segment are those its request asks for, a key load before anything that needs the key.
   */
  lemma {:induction false} EveryResponseTellsTheTruth(d: Daemon, config: Config, id: Id)
    requires Reachable(d, config) && id in d.clients
    ensures |RepliesOf(d.log, id)| <= |CallsOf(d.log, id)|
    ensures var c, es := d.clients[id], Finished(CallsOf(d.log, id), RepliesOf(d.log, id));
      exists cuts: seq<nat> :: CutAt(c, es, cuts) && TruthfulSegments(c, es, cuts)
  {
    ReachableSegmented(d, config, id);
    hide CallsOf, RepliesOf, Reachable;
    CutsTrue(d.clients[id], Finished(CallsOf(d.log, id), RepliesOf(d.log, id)));
  }

  lemma {:induction false} CutsTrue(c: Client, es: seq<Exchange>)
    requires Segmented(c, es)
    ensures exists cuts: seq<nat> :: CutAt(c, es, cuts) && TruthfulSegments(c, es, cuts)
  {
    hide TrueOf, Proper, RequestScript, TellsDevices, Follows;
    var cuts: seq<nat> :| CutAt(c, es, cuts);
    forall i | 0 <= i < |c.sent|
      ensures TrueOf(c.all[i], es[cuts[i]..cuts[i + 1]], c.sent[i]) && Proper(c.all[i], es[cuts[i]..cuts[i + 1]])
    {
      SegmentTrue(c.all[i], es[cuts[i]..cuts[i + 1]], c.sent[i]);
      SegmentProper(c.all[i], es[cuts[i]..cuts[i + 1]]);
    }
    if c.todo != [] { SegmentProper(c.todo[0], es[cuts[|c.sent|]..]); }
    assert TruthfulSegments(c, es, cuts);
  }

  // ---------------------------------------------------------------- what a client sees of the world

  /** A listing whose table was had shows the world's pools. */
  ghost predicate ShowsWorld(ps: seq<P.PoolInfo>, segment: seq<Exchange>, response: Response) {
    segment != [] && Succeeded(segment[0].reply) ==>
      |segment| == 1 + 3 * |ps| && response == PoolList(W.AllSeen(ps, segment))
  }

  /**
   In every reachable state, when the answers a client's commands got were given from one world,
   every listing it was sent shows exactly the pools of that world, whatever other clients did.
   */
  lemma {:induction false} EveryListingIsTheWorld(d: Daemon, config: Config, id: Id, show: T.Printer, world: W.World,
      ps: seq<P.PoolInfo>)
    requires Reachable(d, config) && id in d.clients && |RepliesOf(d.log, id)| <= |CallsOf(d.log, id)|
    requires W.IsAbout(show, world, ps)
    requires W.AllHonest(world, Finished(CallsOf(d.log, id), RepliesOf(d.log, id)))
    ensures var c, es := d.clients[id], Finished(CallsOf(d.log, id), RepliesOf(d.log, id));
      exists cuts: seq<nat> :: CutAt(c, es, cuts) && forall i :: 0 <= i < |c.sent| && c.all[i].ListPools? ==>
        ShowsWorld(ps, es[cuts[i]..cuts[i + 1]], c.sent[i])
  {
    ReachableSegmented(d, config, id);
    hide CallsOf, RepliesOf, Reachable, W.Honest, W.IsAbout;
    var c, es := d.clients[id], Finished(CallsOf(d.log, id), RepliesOf(d.log, id));
    var cuts: seq<nat> :| CutAt(c, es, cuts);
    forall i | 0 <= i < |c.sent| && c.all[i].ListPools?
      ensures ShowsWorld(ps, es[cuts[i]..cuts[i + 1]], c.sent[i])
    {
      SegmentShowsWorld(show, world, ps, es, cuts[i], cuts[i + 1], c.sent[i]);
    }
  }

  lemma {:induction false} SegmentShowsWorld(show: T.Printer, world: W.World, ps: seq<P.PoolInfo>, es: seq<Exchange>,
      from: nat, to: nat, response: Response)
    requires from <= to <= |es| && ServedBy(ListPools, es[from..to], response)
    requires W.IsAbout(show, world, ps) && W.AllHonest(world, es)
    ensures ShowsWorld(ps, es[from..to], response)
  {
    hide W.Honest, W.IsAbout, RequestScript, Follows, W.AllSeen;
    var segment := es[from..to];
    assert W.AllHonest(world, segment);
    if segment != [] && Succeeded(segment[0].reply) {
      W.ListingIsTheWorld(show, world, ps, segment, response);
    }
  }
}
