/**
 One client's requests served in order: the commands they issue and the responses they get, as a
 function of the answers received. Secrets reach only the standard input of commands.
 */
module Sessions {

  import opened Wrappers
  import opened Commands
  import opened Devices
  import opened Requests
  import P = Pools
  import E = Encryption
  import D = Datasets

  /** Responses that the commands alone do not determine are left open. */
  datatype Progress = Progress(calls: seq<Call>, responses: seq<Option<Response>>)
  {
    function Then(later: Progress): Progress {
      Progress(calls + later.calls, responses + later.responses)
    }
  }

  const NOTHING := Progress([], [])

  /** What serving `requests` does with `answers`, when the first request has had the answers `got`. */
  function Session(requests: seq<Request>, got: seq<Reply>, answers: seq<Reply>): Progress
    decreases |requests|, |answers|
  {
    if requests == [] then NOTHING
    else if !CommandsOnly(requests[0]) then Progress([], [None]).Then(Session(requests[1..], [], answers))
    else match RequestScript(requests[0])(got)
      case Finish(response) => Progress([], [Some(response)]).Then(Session(requests[1..], [], answers))
      case Issue(call) =>
        if answers == [] then Progress([call], [])
        else Progress([call], []).Then(Session(requests, got + [answers[0]], answers[1..]))
  }

  // ---------------------------------------------------------------- the code serves sessions

  function CallsIn(es: seq<Exchange>): (calls: seq<Call>)
    ensures |calls| == |es|
    ensures forall i :: 0 <= i < |es| ==> calls[i] == es[i].call
  {
    seq(|es|, i requires 0 <= i < |es| => es[i].call)
  }

  lemma {:induction false} ThenAssociates(a: Progress, b: Progress, c: Progress)
    ensures a.Then(b).Then(c) == a.Then(b.Then(c))
  {
    assert (a.calls + b.calls) + c.calls == a.calls + (b.calls + c.calls);
    assert (a.responses + b.responses) + c.responses == a.responses + (b.responses + c.responses);
  }

  lemma {:induction false} SessionIssues(requests: seq<Request>, got: seq<Reply>, call: Call, reply: Reply,
      more: seq<Reply>)
    requires requests != [] && CommandsOnly(requests[0]) && RequestScript(requests[0])(got) == Issue(call)
    ensures Session(requests, got, [reply] + more) == Progress([call], []).Then(Session(requests, got + [reply], more))
    ensures Session(requests, got, []) == Progress([call], [])
  {
    hide RequestScript;
    assert ([reply] + more)[1..] == more;
  }

  lemma {:induction false} SessionAnswers(requests: seq<Request>, got: seq<Reply>, response: Response, more: seq<Reply>)
    requires requests != []
    requires CommandsOnly(requests[0]) ==> RequestScript(requests[0])(got) == Finish(response)
    ensures Session(requests, got, more)
      == Progress([], [if CommandsOnly(requests[0]) then Some(response) else None])
          .Then(Session(requests[1..], [], more))
  {
    hide RequestScript;
  }

  lemma {:induction false} RunGoesOn(es: seq<Exchange>, more: seq<Reply>, k: nat)
    requires k < |es|
    ensures Replies(es[..k]) + [es[k].reply] == Replies(es[..k + 1])
    ensures Replies(es[k..]) + more == [es[k].reply] + (Replies(es[k + 1..]) + more)
    ensures CallsIn(es[k..]) == [es[k].call] + CallsIn(es[k + 1..])
  {
  }

  /** A whole run of the first request's script, from its `k`-th command on, is what the session does. */
  lemma {:induction false} SessionRuns(requests: seq<Request>, es: seq<Exchange>, response: Response,
      more: seq<Reply>, k: nat)
    requires requests != [] && CommandsOnly(requests[0]) && k <= |es|
    requires Conversation(RequestScript(requests[0]), es, response)
    ensures Session(requests, Replies(es[..k]), Replies(es[k..]) + more)
      == Progress(CallsIn(es[k..]), [Some(response)]).Then(Session(requests[1..], [], more))
    decreases |es| - k
  {
    hide RequestScript, Follows, Session, CommandsOnly;
    var rest := Session(requests[1..], [], more);
    if k == |es| {
      assert es[..k] == es && Replies(es[k..]) + more == more;
      assert CallsIn(es[k..]) == [];
      SessionAnswers(requests, Replies(es), response, more);
    } else {
      FollowsAt(RequestScript(requests[0]), es, k);
      SessionRuns(requests, es, response, more, k + 1);
      RunGoesOn(es, more, k);
      SessionIssues(requests, Replies(es[..k]), es[k].call, es[k].reply, Replies(es[k + 1..]) + more);
      ThenAssociates(Progress([es[k].call], []), Progress(CallsIn(es[k + 1..]), [Some(response)]), rest);
      assert [] + [Some(response)] == [Some(response)];
    }
  }

  /** Without further answers a session issues at most one more call. */
  lemma {:induction false} OneCallAhead(requests: seq<Request>, got: seq<Reply>)
    ensures |Session(requests, got, []).calls| <= 1
    decreases |requests|
  {
    hide RequestScript, CommandsOnly;
    if requests != [] { OneCallAhead(requests[1..], []); }
  }

  /** The progress that some exchanges and responses show. */
  function Shown(requests: seq<Request>, es: seq<Exchange>, responses: seq<Response>): Progress
    requires |responses| == |requests|
  {
    Progress(CallsIn(es), seq(|requests|, i requires 0 <= i < |requests| =>
                                if CommandsOnly(requests[i]) then Some(responses[i]) else None))
  }

  /** The commands and responses of some served requests, and whatever the rest then does. */
  ghost predicate ServedSo(requests: seq<Request>, i: nat, es: seq<Exchange>, responses: seq<Response>)
    requires i <= |requests|
  {
    |responses| == i && forall more: seq<Reply> ::
      Session(requests, [], Replies(es) + more)
          == Shown(requests[..i], es, responses).Then(Session(requests[i..], [], more))
  }

  lemma {:induction false} ShownMore(requests: seq<Request>, i: nat, es: seq<Exchange>, responses: seq<Response>,
      added: seq<Exchange>, r: Response)
    requires i < |requests| && |responses| == i
    ensures Shown(requests[..i + 1], es + added, responses + [r]) ==
      Shown(requests[..i], es, responses)
          .Then(Progress(CallsIn(added), [if CommandsOnly(requests[i]) then Some(r) else None]))
  {
    hide CommandsOnly;
    assert CallsIn(es + added) == CallsIn(es) + CallsIn(added);
  }

  lemma {:induction false} OneServed(requests: seq<Request>, i: nat, added: seq<Exchange>, r: Response,
      more: seq<Reply>)
    requires i < |requests|
    requires if CommandsOnly(requests[i]) then Conversation(RequestScript(requests[i]), added, r) else added == []
    ensures Session(requests[i..], [], Replies(added) + more) ==
      Progress(CallsIn(added), [if CommandsOnly(requests[i]) then Some(r) else None])
          .Then(Session(requests[i + 1..], [], more))
  {
    assert requests[i..][0] == requests[i] && requests[i..][1..] == requests[i + 1..];
    if CommandsOnly(requests[i]) {
      SessionRuns(requests[i..], added, r, more, 0);
      assert added[..0] == [] && added[0..] == added && Replies([]) == [];
    } else {
      assert Replies(added) + more == more && CallsIn(added) == [];
    }
  }

  lemma {:induction false} ServedOneMore(requests: seq<Request>, i: nat, es: seq<Exchange>, responses: seq<Response>,
      added: seq<Exchange>, r: Response)
    requires i < |requests| && ServedSo(requests, i, es, responses)
    requires if CommandsOnly(requests[i]) then Conversation(RequestScript(requests[i]), added, r) else added == []
    ensures ServedSo(requests, i + 1, es + added, responses + [r])
  {
    hide Session, RequestScript, CommandsOnly, Conversation, Shown;
    var slot := Progress(CallsIn(added), [if CommandsOnly(requests[i]) then Some(r) else None]);
    ShownMore(requests, i, es, responses, added, r);
    forall more: seq<Reply>
      ensures Session(requests, [], Replies(es + added) + more)
        == Shown(requests[..i + 1], es + added, responses + [r]).Then(Session(requests[i + 1..], [], more))
    {
      assert Replies(es + added) + more == Replies(es) + (Replies(added) + more);
      OneServed(requests, i, added, r, more);
      ThenAssociates(Shown(requests[..i], es, responses), slot, Session(requests[i + 1..], [], more));
    }
  }

  lemma {:induction false} ServedNone(requests: seq<Request>)
    ensures ServedSo(requests, 0, [], [])
  {
    hide Session;
    assert requests[0..] == requests && requests[..0] == [];
    forall more: seq<Reply>
      ensures Session(requests, [], Replies([]) + more) == Shown([], [], []).Then(Session(requests, [], more))
    {
      assert Replies([]) + more == more;
      assert Shown([], [], []) == NOTHING;
    }
  }

  lemma {:induction false} NoRequests()
    ensures Session([], [], []) == NOTHING
  {
  }

  lemma {:induction false} ServedAll(requests: seq<Request>, es: seq<Exchange>, responses: seq<Response>)
    requires ServedSo(requests, |requests|, es, responses)
    ensures Session(requests, [], Replies(es)) == Shown(requests, es, responses)
  {
    hide Session, Shown, Replies;
    NoRequests();
    assert Replies(es) + [] == Replies(es);
    assert requests[..|requests|] == requests && requests[|requests|..] == [];
  }

  /**
   Serving requests one after another: the commands issued and the responses made are the
   session under the answers the runner gave, whatever the runner.
   */
  method ServeInOrder(requests: seq<Request>, state: DaemonState, runner: CommandRunner,
                      scans: seq<Result<seq<DeviceInfo>, string>>, files: seq<Result<Config, string>>)
    returns (responses: seq<Response>, ghost es: seq<Exchange>)
    requires |scans| == |files| == |requests|
    modifies state, runner
    ensures runner.log == old(runner.log) + es && |responses| == |requests|
    ensures Session(requests, [], Replies(es)) == Shown(requests, es, responses)
  {
    hide Session, ServedSo, RequestScript, CommandsOnly, Follows, Shown;
    responses, es := [], [];
    ServedNone(requests);
    for i := 0 to |requests|
      invariant runner.log == old(runner.log) + es && |responses| == i
      invariant ServedSo(requests, i, es, responses)
    {
      ghost var before := runner.log;
      var response := ProcessRequest(requests[i], state, runner, scans[i], files[i]);
      ghost var added := if CommandsOnly(requests[i]) then runner.log[|before|..] else [];
      assert runner.log == before + added;
      ServedOneMore(requests, i, es, responses, added, response);
      responses := responses + [response];
      assert runner.log == old(runner.log) + (es + added);
      es := es + added;
    }
    ServedAll(requests, es, responses);
  }

  // ---------------------------------------------------------------- secrets

  predicate SameButSecrets(a: Request, b: Request) {
    match a
    case Mount(dataset, passphrase) =>
      b.Mount? && b.dataset == dataset && (b.passphrase.Some? <==> passphrase.Some?)
    case InitPool(name, device, _, options) =>
      b.InitPool? && b.poolName == name && b.devicePath == device && b.options == options
    case ChangeKey(dataset, _, _) => b.ChangeKey? && b.dataset == dataset
    case _ => a == b
  }

  /** A call without the content of its standard input. */
  function Masked(call: Call): Call {
    call.(stdin := if call.stdin.Some? then Some("") else None)
  }

  /** The same step but for the content of a standard input. */
  predicate Alike<A(==)>(a: Step<A>, b: Step<A>) {
    match a
    case Issue(call) => b.Issue? && Masked(call) == Masked(b.call)
    case Finish(outcome) => b == Finish(outcome)
  }

  function MaskedCalls(calls: seq<Call>): (masked: seq<Call>)
    ensures |masked| == |calls|
    ensures forall i :: 0 <= i < |calls| ==> masked[i] == Masked(calls[i])
  {
    if calls == [] then [] else [Masked(calls[0])] + MaskedCalls(calls[1..])
  }

  /** The same progress but for the contents of standard inputs. */
  predicate AlikeProgress(a: Progress, b: Progress) {
    MaskedCalls(a.calls) == MaskedCalls(b.calls) && a.responses == b.responses
  }

  lemma {:induction false} AnsweredAlike(response: Option<Response>, a: Progress, b: Progress)
    requires AlikeProgress(a, b)
    ensures AlikeProgress(Progress([], [response]).Then(a), Progress([], [response]).Then(b))
  {
    assert [] + a.calls == a.calls && [] + b.calls == b.calls;
  }

  lemma {:induction false} IssuedAlike(c: Call, d: Call, a: Progress, b: Progress)
    requires AlikeProgress(a, b) && Masked(c) == Masked(d)
    ensures AlikeProgress(Progress([c], []).Then(a), Progress([d], []).Then(b))
  {
    hide Masked;
  }

  /**
   Two sessions whose requests differ only in the contents of passphrases and that get the same
   answers issue the same commands with the same arguments, differing in standard inputs alone,
   and send the same responses.
   */
  lemma {:induction false} SecretsOnlyInStdin(a: seq<Request>, b: seq<Request>, got: seq<Reply>, answers: seq<Reply>)
    requires |a| == |b| && forall i :: 0 <= i < |a| ==> SameButSecrets(a[i], b[i])
    ensures AlikeProgress(Session(a, got, answers), Session(b, got, answers))
    decreases |a|, |answers|
  {
    hide AlikeProgress, RequestScript, Masked, MaskedCalls;
    if a == [] {
      SameProgress(NOTHING);
    } else if !CommandsOnly(a[0]) {
      SecretsOnlyInStdin(a[1..], b[1..], [], answers);
      AnsweredAlike(None, Session(a[1..], [], answers), Session(b[1..], [], answers));
    } else {
      StepsAlike(a[0], b[0], got);
      match RequestScript(a[0])(got) {
        case Finish(response) =>
          SecretsOnlyInStdin(a[1..], b[1..], [], answers);
          AnsweredAlike(Some(response), Session(a[1..], [], answers), Session(b[1..], [], answers));
        case Issue(call) =>
          var call' := RequestScript(b[0])(got).call;
          if answers == [] {
            SingleAlike(call, call');
          } else {
            SecretsOnlyInStdin(a, b, got + [answers[0]], answers[1..]);
            IssuedAlike(call, call', Session(a, got + [answers[0]], answers[1..]),
                        Session(b, got + [answers[0]], answers[1..]));
          }
      }
    }
  }

  lemma {:induction false} StepsAlike(a: Request, b: Request, got: seq<Reply>)
    requires SameButSecrets(a, b) && CommandsOnly(a)
    ensures CommandsOnly(b) && Alike(RequestScript(a)(got), RequestScript(b)(got))
  {
  }

  lemma {:induction false} SameProgress(a: Progress)
    ensures AlikeProgress(a, a)
  {
  }

  lemma {:induction false} SingleAlike(c: Call, d: Call)
    requires Masked(c) == Masked(d)
    ensures AlikeProgress(Progress([c], []), Progress([d], []))
  {
  }
}
