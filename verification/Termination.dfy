/** The daemon does not run on: whatever the answers, the requests of a client take finitely many steps. */
module Termination {

  import opened Wrappers
  import opened Commands
  import opened Requests
  import opened Daemon
  import E = Encryption
  import D = Datasets
  import P = Pools
  import T = Tables

  // ---------------------------------------------------------------- scripts end

  /** How many answers a request can use once it has had the first. */
  function Need(request: Request, first: Reply): nat {
    if request.ListPools? && Succeeded(first) then 1 + 3 * |T.PoolTable(first.stdout)| else 3
  }

  lemma {:induction false} ThenIssues<A>(call: Call, check: Check, next: Script<Result<A, string>>, replies: seq<Reply>)
    ensures Then(call, check, next)(replies).Issue? && replies != [] ==> next(replies[1..]).Issue?
  {
  }

  lemma {:induction false} ShortScripts(request: Request, replies: seq<Reply>)
    requires request.Mount? || request.ChangeKey?
    ensures RequestScript(request)(replies).Issue? ==> |replies| < 3
  {
    match request
    case Mount(dataset, passphrase) =>
      ThenIssues(D.MountCall(dataset), D.MountChecked(dataset), D.MountpointScript(dataset), replies);
      if passphrase.Some? && replies != [] {
        ThenIssues(E.LoadKeyCall(dataset, passphrase.value), Checked(E.LOAD_FAILED), D.MountScript(dataset), replies);
        ThenIssues(D.MountCall(dataset), D.MountChecked(dataset), D.MountpointScript(dataset), replies[1..]);
      }
    case ChangeKey(dataset, o, n) =>
      var next := Once(E.ChangeKeyCall(dataset, n), "Key change failed");
      ThenIssues(E.LoadKeyCall(dataset, o), Checked(E.LOAD_FAILED), next, replies);
  }

  /** However a request has been answered so far, it issues only as many commands as it needs. */
  lemma {:induction false} ScriptEnds(request: Request, replies: seq<Reply>)
    requires CommandsOnly(request) && replies != []
    ensures RequestScript(request)(replies).Issue? ==> |replies| < Need(request, replies[0])
  {
    if request.Mount? || request.ChangeKey? {
      ShortScripts(request, replies);
    } else if request.ListPools? {
      P.ListPoolsApplied(replies);
    }
  }

  // ---------------------------------------------------------------- clients end

  /** Twice the unanswered requests, less one when the first has had an answer to a command. */
  function Phases(c: Client): nat {
    if c.todo == [] then 0 else 2 * |c.todo| - if c.got == [] then 0 else 1
  }

  /** A bound on the steps within one phase. */
  function Steps(c: Client, inside: bool): nat {
    if c.todo == [] || c.todo[0].ListDevices? then 0
    else if TakesLock(c.todo[0]) then (if !inside then 2 else if c.made.None? then 1 else 0)
    else
      var idle := if c.running.None? then 1 else 0;
      if c.got == [] || |c.got| >= Need(c.todo[0], c.got[0]) then idle
      else 2 * (Need(c.todo[0], c.got[0]) - |c.got|) + idle
  }

  /** Fewer phases, or as many and fewer steps in this one. */
  predicate Less(c: Client, inside: bool, c': Client, inside': bool) {
    Phases(c) < Phases(c') || (Phases(c) == Phases(c') && Steps(c, inside) < Steps(c', inside'))
  }

  predicate Inside(d: Daemon, id: Id) {
    d.holder == Some(id)
  }

  lemma {:induction false} CommandStepLess(c: Client, reply: Reply)
    requires c.todo != [] && CommandsOnly(c.todo[0])
    ensures c.running.None? ==> forall call: Call :: Less(c.(running := Some(call)), false, c, false)
    ensures c.running.Some? && RequestScript(c.todo[0])(c.got).Issue? ==>
      Less(c.(running := None, got := c.got + [reply]), false, c, false)
  {
    if c.got != [] { ScriptEnds(c.todo[0], c.got); }
    hide RequestScript, Need;
  }

  lemma {:induction false} StepLess(d: Daemon, e: Event)
    requires Enabled(d, e) && Tracked(d) && Exclusive(d) && !e.Connect?
    ensures Less(Next(d, e).clients[e.client], Inside(Next(d, e), e.client), d.clients[e.client], Inside(d, e.client))
  {
    hide CallsOf, RepliesOf, RequestScript, Continues, AccessOf, Need, Logged, Accessed, Reload;
    var c := d.clients[e.client];
    assert Tracks(c, CallsOf(d.log, e.client), RepliesOf(d.log, e.client));
    if e.Start? || e.End? { CommandStepLess(c, if e.End? then e.reply else Failed("")); }
  }

  lemma {:induction false} StepSame(d: Daemon, e: Event, id: Id)
    requires Enabled(d, e) && id in d.clients && id != e.client
    ensures id in Next(d, e).clients && Next(d, e).clients[id] == d.clients[id]
    ensures Inside(Next(d, e), id) == Inside(d, id)
  {
    hide RequestScript, Moved, Logged, Accessed, Reload;
  }

  // ---------------------------------------------------------------- endless runs

  /** An endless run of the daemon: its states and the steps between them. */
  ghost predicate Run(states: nat -> Daemon, events: nat -> Event) {
    forall i: nat :: Enabled(states(i), events(i)) && states(i + 1) == Next(states(i), events(i))
  }

  lemma {:induction false} RunKeeps(states: nat -> Daemon, events: nat -> Event, config: Config, i: nat, j: nat)
    requires Run(states, events) && i <= j && Good(states(i), config)
    ensures Good(states(j), config) && states(i).clients.Keys <= states(j).clients.Keys
    decreases j - i
  {
    hide Good, Enabled;
    if i < j {
      StepGood(states(i), events(i), config);
      RunKeeps(states, events, config, i + 1, j);
    }
  }

  /** Until a client takes a step of its own, nothing about it changes. */
  lemma {:induction false} Unmoved(states: nat -> Daemon, events: nat -> Event, id: Id, i: nat, j: nat)
    requires Run(states, events) && i <= j && id in states(i).clients
    requires forall k: nat :: i <= k < j ==> events(k).client != id
    ensures id in states(j).clients && states(j).clients[id] == states(i).clients[id]
    ensures Inside(states(j), id) == Inside(states(i), id)
    decreases j - i
  {
    hide Enabled, Inside;
    if i < j {
      StepSame(states(i), events(i), id);
      Unmoved(states, events, id, i + 1, j);
    }
  }

  lemma {:induction false} FirstStep(events: nat -> Event, id: Id, i: nat, j: nat) returns (k: nat)
    requires i <= j && events(j).client == id
    ensures i <= k && events(k).client == id && forall m: nat :: i <= m < k ==> events(m).client != id
    decreases j - i
  {
    if events(i).client == id { return i; }
    k := FirstStep(events, id, i + 1, j);
  }

  /** From some moment on a client takes no step any more. */
  ghost predicate QuietFrom(events: nat -> Event, id: Id, n: nat) {
    forall i: nat :: n <= i ==> events(i).client != id
  }

  /** In every endless run, whatever the interleaving and the answers, a client takes finitely many steps. */
  lemma {:induction false} ClientEnds(states: nat -> Daemon, events: nat -> Event, config: Config, id: Id, i: nat)
    returns (n: nat)
    requires Run(states, events) && Good(states(i), config) && id in states(i).clients
    ensures i <= n && QuietFrom(events, id, n)
    decreases Phases(states(i).clients[id]), Steps(states(i).clients[id], Inside(states(i), id))
  {
    hide Good, Enabled, Next, Inside, Phases, Steps;
    if QuietFrom(events, id, i) { return i; }
    var j: nat :| i <= j && events(j).client == id;
    var k := FirstStep(events, id, i, j);
    Unmoved(states, events, id, i, k);
    RunKeeps(states, events, config, i, k);
    RunKeeps(states, events, config, k, k + 1);
    OwnLess(states(k), events(k), config);
    n := ClientEnds(states, events, config, id, k + 1);
  }

  lemma {:induction false} OwnLess(d: Daemon, e: Event, config: Config)
    requires Enabled(d, e) && Good(d, config) && e.client in d.clients
    ensures e.client in Next(d, e).clients
    ensures Less(Next(d, e).clients[e.client], Inside(Next(d, e), e.client), d.clients[e.client], Inside(d, e.client))
  {
    hide Tracked, Exclusive, Less, Registers, Delivered, RequestScript, Logged, Accessed, Reload, Moved;
    StepLess(d, e);
  }

  lemma {:induction false} AllEnd(states: nat -> Daemon, events: nat -> Event, config: Config, ids: set<Id>, i: nat)
    returns (n: nat)
    requires Run(states, events) && Good(states(i), config) && ids <= states(i).clients.Keys
    ensures i <= n && forall id :: id in ids ==> QuietFrom(events, id, n)
    decreases |ids|
  {
    hide Good, Enabled, Next;
    if ids == {} { return i; }
    var id :| id in ids;
    var m := AllEnd(states, events, config, ids - {id}, i);
    var k := ClientEnds(states, events, config, id, i);
    n := if m < k then k else m;
    forall other | other in ids ensures QuietFrom(events, other, n) {
      if other != id { assert QuietFrom(events, other, m); }
    }
  }

  lemma {:induction false} ClientsStay(states: nat -> Daemon, events: nat -> Event, i: nat, j: nat)
    requires Run(states, events) && i <= j && forall k: nat :: i <= k < j ==> !events(k).Connect?
    ensures states(j).clients.Keys == states(i).clients.Keys
    decreases j - i
  {
    hide Moved, Logged, Accessed, Reload, RequestScript;
    if i < j {
      assert states(i + 1) == Next(states(i), events(i));
      ClientsStay(states, events, i + 1, j);
    }
  }

  lemma {:induction false} StrangerConnects(d: Daemon, e: Event)
    requires Enabled(d, e)
    ensures e.client !in d.clients ==> e.Connect?
  {
  }

  /** A run goes on forever only if clients connect forever: no requests keep the daemon busy. */
  lemma {:induction false} EndlessConnects(states: nat -> Daemon, events: nat -> Event, config: Config, n: nat)
    returns (i: nat)
    requires Run(states, events) && Reachable(states(0), config)
    ensures n <= i && events(i).Connect?
  {
    hide Reachable, Good, Next, Enabled;
    ReachableGood(states(0), config);
    RunKeeps(states, events, config, 0, n);
    var ids := states(n).clients.Keys;
    var last := AllEnd(states, events, config, ids, n);
    if k: nat :| n <= k < last && events(k).Connect? {
      i := k;
    } else {
      ClientsStay(states, events, n, last);
      assert events(last).client in ids ==> QuietFrom(events, events(last).client, last);
      StrangerConnects(states(last), events(last));
      i := last;
    }
  }
}
