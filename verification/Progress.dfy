/** The daemon does not block: a client that waits for an answer can move, or waits for the mutex of one that can. */
module Progress {

  import opened Wrappers
  import opened Commands
  import opened Requests
  import opened Daemon

  /** The next step of a client that can go on by itself. */
  function OwnStep(d: Daemon, id: Id): Event
    requires id in d.clients && d.clients[id].todo != []
  {
    var c := d.clients[id];
    if c.running.Some? then End(id, Failed(""))
    else if CommandsOnly(c.todo[0]) then
      if RequestScript(c.todo[0])(c.got).Issue? then Start(id) else Respond(id)
    else if c.todo[0].ListDevices? then Scan(id, Err(""))
    else if d.holder.None? then Lock(id)
    else if c.made.None? then Critical(id, Err(""))
    else Unlock(id)
  }

  /** The client is about to enter the mutex while another is inside. */
  predicate Waits(d: Daemon, id: Id)
    requires id in d.clients
  {
    var c := d.clients[id];
    c.todo != [] && TakesLock(c.todo[0]) && d.holder.Some? && d.holder != Some(id)
  }

  lemma {:induction false} OwnStepEnabled(d: Daemon, id: Id)
    requires Tracked(d) && Exclusive(d) && id in d.clients && d.clients[id].todo != [] && !Waits(d, id)
    ensures Enabled(d, OwnStep(d, id)) && OwnStep(d, id).client == id && !OwnStep(d, id).Connect?
  {
    hide CallsOf, RepliesOf, RequestScript, Continues;
    assert Tracks(d.clients[id], CallsOf(d.log, id), RepliesOf(d.log, id));
  }

  /**
   In every reachable state a client with an unanswered request has a step of its own to take, or
   waits for the mutex, whose holder has one.
   */
  lemma {:induction false} NeverBlocked(d: Daemon, config: Config, id: Id) returns (e: Event)
    requires Reachable(d, config) && id in d.clients && d.clients[id].todo != []
    ensures Enabled(d, e) && !e.Connect?
    ensures if Waits(d, id) then d.holder == Some(e.client) else e.client == id
  {
    hide Reachable, Tracked, Enabled, OwnStep, Registers, Delivered;
    ReachableGood(d, config);
    var mover := if Waits(d, id) then d.holder.value else id;
    OwnStepEnabled(d, mover);
    e := OwnStep(d, mover);
  }

  /** Nothing but a new connection can happen. */
  ghost predicate AtRest(d: Daemon) {
    forall e: Event :: Enabled(d, e) ==> e.Connect?
  }

  predicate AllAnswered(d: Daemon) {
    forall id :: id in d.clients ==> d.clients[id].todo == []
  }

  /** So a daemon at rest has answered every request. */
  lemma {:induction false} RestIsDone(d: Daemon, config: Config)
    requires Reachable(d, config) && AtRest(d)
    ensures AllAnswered(d)
  {
    hide Reachable, Enabled;
    forall id | id in d.clients ensures d.clients[id].todo == [] {
      if d.clients[id].todo != [] {
        var e := NeverBlocked(d, config, id);
      }
    }
  }
}
