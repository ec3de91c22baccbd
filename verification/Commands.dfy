/**
 External commands: what is asked of a runner, what it answers, and scripts, which say what is
 asked next given the answers so far. A runner's answers are arbitrary.
 */
module Commands {

  import opened Wrappers

  datatype Call = Call(cmd: string, args: seq<string>, stdin: Option<string>)

  /** Output and exit status, or the text of the error when the command could not be run. */
  datatype Reply = Ran(stdout: string, stderr: string, success: bool) | Failed(error: string)

  datatype Exchange = Exchange(call: Call, reply: Reply)

  function Replies(es: seq<Exchange>): (rs: seq<Reply>)
    ensures |rs| == |es|
    ensures forall i :: 0 <= i < |es| ==> rs[i] == es[i].reply
  {
    seq(|es|, i requires 0 <= i < |es| => es[i].reply)
  }

  // ---------------------------------------------------------------- scripts

  datatype Step<+A> = Issue(call: Call) | Finish(outcome: A)

  /** What an operation does once it has had the given answers. */
  type Script<A> = seq<Reply> -> Step<A>

  /** Every call was the one the script issues at that point. */
  ghost predicate Follows<A>(script: Script<A>, es: seq<Exchange>) {
    es == [] ||
    var n := |es| - 1;
    Follows(script, es[..n]) && script(Replies(es[..n])) == Issue(es[n].call)
  }

  /** A whole run of the script, from its first call to its outcome. */
  ghost predicate Conversation<A>(script: Script<A>, es: seq<Exchange>, outcome: A) {
    Follows(script, es) && script(Replies(es)) == Finish(outcome)
  }

  lemma {:induction false} FollowsPrefix<A>(script: Script<A>, es: seq<Exchange>, n: nat)
    requires Follows(script, es) && n <= |es|
    ensures Follows(script, es[..n])
    ensures n < |es| ==> script(Replies(es[..n])) == Issue(es[n].call)
  {
    if n < |es| - 1 {
      FollowsPrefix(script, es[..|es| - 1], n);
      assert es[..|es| - 1][..n] == es[..n];
    } else if n == |es| {
      assert es[..n] == es;
    }
  }

  lemma {:induction false} FollowsAt<A>(script: Script<A>, es: seq<Exchange>, k: nat)
    requires k < |es|
    ensures Follows(script, es) ==> script(Replies(es[..k])) == Issue(es[k].call)
  {
    if Follows(script, es) { FollowsPrefix(script, es, k); }
  }

  /** Two runs of one script, finished or not, that get the same answers agree on every call. */
  lemma {:induction false} FollowsDetermined<A>(script: Script<A>, a: seq<Exchange>, b: seq<Exchange>)
    requires Follows(script, a) && Follows(script, b) && Replies(a) == Replies(b)
    ensures a == b
  {
    if a != [] {
      var n := |a| - 1;
      assert Replies(a[..n]) == Replies(a)[..n];
      assert Replies(b[..n]) == Replies(b)[..n];
      FollowsDetermined(script, a[..n], b[..n]);
      assert a[n].reply == Replies(a)[n] == Replies(b)[n] == b[n].reply;
      assert a == a[..n] + [a[n]] && b == b[..n] + [b[n]];
    }
  }

  // ---------------------------------------------------------------- sequencing

  /** A reply that says the command ran and succeeded. */
  predicate Succeeded(reply: Reply) {
    reply.Ran? && reply.success
  }

  type Check = Reply -> Result<string, string>

  /** The output of a command that had to succeed, or the text of the error its caller reports. */
  function Checked(what: string): Check {
    (reply: Reply) => match reply
      case Failed(error) => Err(error)
      case Ran(stdout, stderr, success) => if success then Ok(stdout) else Err("ZFS error: " + what + ": " + stderr)
  }

  lemma {:induction false} CheckedIs(what: string, reply: Reply)
    ensures Checked(what)(reply) ==
      if Succeeded(reply) then Ok(reply.stdout)
      else Err(if reply.Failed? then reply.error else "ZFS error: " + what + ": " + reply.stderr)
  {
  }

  function Return<A>(outcome: A): Script<A> {
    (replies: seq<Reply>) => Finish(outcome)
  }

  /** Issue `call`; return early on an error, otherwise go on with `next`. */
  function Then<A>(call: Call, check: Check, next: Script<Result<A, string>>): Script<Result<A, string>> {
    (replies: seq<Reply>) =>
      if replies == [] then Issue(call)
      else match check(replies[0])
        case Err(e) => Finish(Err(e))
        case Ok(_) => next(replies[1..])
  }

  /** Issue one command and report whether it succeeded. */
  function Once(call: Call, what: string): Script<Result<(), string>> {
    Then(call, Checked(what), Return(Ok(())))
  }

  lemma {:induction false} RepliesCons(e: Exchange, es: seq<Exchange>)
    ensures Replies([e] + es) == [e.reply] + Replies(es)
  {
  }

  lemma {:induction false} ThenApplied<A>(call: Call, check: Check, next: Script<Result<A, string>>, e: Exchange,
      es: seq<Exchange>)
    requires check(e.reply).Ok?
    ensures Then(call, check, next)(Replies([e] + es)) == next(Replies(es))
  {
    RepliesCons(e, es);
    assert ([e.reply] + Replies(es))[1..] == Replies(es);
  }

  lemma {:induction false} FollowsFirst<A>(script: Script<A>, e: Exchange)
    ensures Follows(script, [e]) <==> script([]) == Issue(e.call)
  {
    assert [e][..0] == [] && Replies([]) == [];
  }

  lemma {:induction false} ThenFollows<A>(call: Call, check: Check, next: Script<Result<A, string>>, e: Exchange,
                                          es: seq<Exchange>)
    requires check(e.reply).Ok? && e.call == call
    ensures Follows(Then(call, check, next), [e] + es) <==> Follows(next, es)
  {
    if es == [] {
      FollowsFirst(Then(call, check, next), e);
      assert [e] + es == [e];
    } else {
      var n := |es| - 1;
      ThenFollows(call, check, next, e, es[..n]);
      ThenApplied(call, check, next, e, es[..n]);
      assert [e] + es[..n] + [es[n]] == [e] + es;
    }
  }

  /** A run of a sequence: an error from the first command ends it; otherwise a run of the rest follows. */
  lemma {:induction false} ThenConversation<A>(call: Call, check: Check, next: Script<Result<A, string>>,
      es: seq<Exchange>, outcome: Result<A, string>)
    ensures Conversation(Then(call, check, next), es, outcome) <==>
      && es != [] && es[0].call == call
      && match check(es[0].reply)
         case Err(e) => |es| == 1 && outcome == Err(e)
         case Ok(_) => Conversation(next, es[1..], outcome)
  {
    var script := Then(call, check, next);
    if es != [] { FollowsAt(script, es, 0); }
    if es != [] && es[0].call == call {
      assert es == [es[0]] + es[1..];
      if check(es[0].reply).Ok? {
        ThenFollows(call, check, next, es[0], es[1..]);
        ThenApplied(call, check, next, es[0], es[1..]);
      } else {
        ThenFails(call, check, next, es);
      }
    }
  }

  lemma {:induction false} ThenFails<A>(call: Call, check: Check, next: Script<Result<A, string>>, es: seq<Exchange>)
    requires es != [] && es[0].call == call && check(es[0].reply).Err?
    ensures Follows(Then(call, check, next), es) <==> |es| == 1
  {
    var script := Then(call, check, next);
    FollowsFirst(script, es[0]);
    if |es| > 1 {
      FollowsAt(script, es, 1);
    } else {
      assert es == [es[0]];
    }
  }

  /** However far a sequence has got: past its first command only if that succeeded. */
  lemma {:induction false} ThenSoFar<A>(call: Call, check: Check, next: Script<Result<A, string>>, es: seq<Exchange>)
    requires Follows(Then(call, check, next), es) && es != []
    ensures es[0].call == call
    ensures |es| > 1 ==> check(es[0].reply).Ok? && Follows(next, es[1..])
  {
    var script := Then(call, check, next);
    FollowsAt(script, es, 0);
    if |es| > 1 {
      FollowsAt(script, es, 1);
      if check(es[0].reply).Ok? {
        assert es == [es[0]] + es[1..];
        ThenFollows(call, check, next, es[0], es[1..]);
      }
    }
  }

  /** A run of one command. */
  lemma {:induction false} OnceConversation(call: Call, what: string, es: seq<Exchange>, outcome: Result<(), string>)
    ensures Conversation(Once(call, what), es, outcome) <==>
      && |es| == 1 && es[0].call == call
      && outcome == match Checked(what)(es[0].reply) case Err(e) => Err(e) case Ok(_) => Ok(())
  {
    ThenConversation(call, Checked(what), Return(Ok(())), es, outcome);
  }

  lemma {:induction false} ReturnSoFar<A>(a: A, es: seq<Exchange>)
    ensures Follows(Return(a), es) ==> es == []
  {
    if es != [] { FollowsAt(Return(a), es, 0); }
  }

  lemma {:induction false} OnceSoFar(call: Call, what: string, es: seq<Exchange>)
    requires Follows(Once(call, what), es)
    ensures |es| <= 1 && (es != [] ==> es[0].call == call)
  {
    if es != [] {
      ThenSoFar(call, Checked(what), Return(Ok(())), es);
      ReturnSoFar<Result<(), string>>(Ok(()), es[1..]);
    }
  }

  /** The same commands, with the outcome turned into something else. */
  function Mapped<A, B>(script: Script<A>, f: A -> B): Script<B> {
    (replies: seq<Reply>) => match script(replies)
      case Issue(call) => Issue(call)
      case Finish(a) => Finish(f(a))
  }

  lemma {:induction false} MappedFollows<A, B>(script: Script<A>, f: A -> B, es: seq<Exchange>)
    ensures Follows(Mapped(script, f), es) <==> Follows(script, es)
  {
    if es != [] { MappedFollows(script, f, es[..|es| - 1]); }
  }

  /** A run of the mapped script is a run of the script, with the outcome mapped. */
  lemma {:induction false} MappedConversation<A, B>(script: Script<A>, f: A -> B, es: seq<Exchange>,
      outcome: B) returns (a: Option<A>)
    ensures Conversation(Mapped(script, f), es, outcome) <==> a.Some?
    ensures a.Some? ==> Conversation(script, es, a.value) && outcome == f(a.value)
  {
    MappedFollows(script, f, es);
    a := match script(Replies(es))
      case Issue(_) => None
      case Finish(x) => if Follows(script, es) && f(x) == outcome then Some(x) else None;
  }

  lemma {:induction false} MappedConducted<A, B>(script: Script<A>, f: A -> B, before: seq<Exchange>,
      after: seq<Exchange>, a: A)
    requires Conducted(script, before, after, a)
    ensures Conducted(Mapped(script, f), before, after, f(a))
  {
    MappedFollows(script, f, after[|before|..]);
  }

  /** The log grew by a whole run of `script` and by nothing else. */
  ghost predicate Conducted<A>(script: Script<A>, before: seq<Exchange>, after: seq<Exchange>, outcome: A) {
    before <= after && Conversation(script, after[|before|..], outcome)
  }

  lemma {:induction false} ConductedIs<A>(script: Script<A>, before: seq<Exchange>, es: seq<Exchange>, outcome: A)
    ensures Conducted(script, before, before + es, outcome) <==> Conversation(script, es, outcome)
  {
    assert (before + es)[|before|..] == es;
  }

  /** What a method has conducted once its first command succeeded and the rest was conducted. */
  lemma {:induction false} ThenConducted<A>(call: Call, check: Check, next: Script<Result<A, string>>,
      before: seq<Exchange>, e: Exchange, after: seq<Exchange>, outcome: Result<A, string>)
    requires e.call == call && check(e.reply).Ok?
    requires Conducted(next, before + [e], after, outcome)
    ensures Conducted(Then(call, check, next), before, after, outcome)
  {
    var rest := after[|before| + 1..];
    var es := [e] + rest;
    assert after == before + es;
    assert es[1..] == rest;
    ThenConversation(call, check, next, es, outcome);
    ConductedIs(Then(call, check, next), before, es, outcome);
  }

  /** What a method has conducted when its first command fails. */
  lemma {:induction false} ThenStopped<A>(call: Call, check: Check, next: Script<Result<A, string>>,
      before: seq<Exchange>, e: Exchange)
    requires e.call == call && check(e.reply).Err?
    ensures Conducted(Then(call, check, next), before, before + [e], Err(check(e.reply).error))
  {
    ThenConversation(call, check, next, [e], Err(check(e.reply).error));
    ConductedIs(Then(call, check, next), before, [e], Err(check(e.reply).error));
  }

  lemma {:induction false} OnceConducted(call: Call, what: string, before: seq<Exchange>, e: Exchange)
    requires e.call == call
    ensures Conducted(Once(call, what), before, before + [e],
                      match Checked(what)(e.reply) case Err(m) => Err(m) case Ok(_) => Ok(()))
  {
    var outcome := match Checked(what)(e.reply) case Err(m) => Err(m) case Ok(_) => Ok(());
    OnceConversation(call, what, [e], outcome);
    ConductedIs(Once(call, what), before, [e], outcome);
  }

  // ---------------------------------------------------------------- a runner

  /** Any runner at all: each answer may depend on everything asked before. */
  class CommandRunner {
    const oracle: (seq<Exchange>, Call) -> Reply
    var log: seq<Exchange>

    constructor (oracle: (seq<Exchange>, Call) -> Reply)
      ensures this.oracle == oracle && log == []
    {
      this.oracle := oracle;
      log := [];
    }

    method Run(cmd: string, args: seq<string>, stdin: Option<string>) returns (reply: Reply)
      modifies this
      ensures reply == oracle(old(log), Call(cmd, args, stdin))
      ensures log == old(log) + [Exchange(Call(cmd, args, stdin), reply)]
    {
      reply := oracle(log, Call(cmd, args, stdin));
      log := log + [Exchange(Call(cmd, args, stdin), reply)];
    }
  }

  // ---------------------------------------------------------------- the mock runner

  type Key = (string, seq<string>)

  datatype MockStep = Register(key: Key, reply: Reply) | Cleared | Called(call: Call)

  /** The answer to `key`: the latest registration since the last clearing, else empty success. */
  function Answer(history: seq<MockStep>, key: Key): Reply {
    if history == [] then Ran("", "", true) else
    var earlier, last := history[..|history| - 1], history[|history| - 1];
    match last
    case Register(k, reply) => if k == key then reply else Answer(earlier, key)
    case Cleared => Ran("", "", true)
    case Called(_) => Answer(earlier, key)
  }

  /** A registration answers its key until it is replaced or cleared. */
  lemma {:induction false} LatestRegistrationAnswers(history: seq<MockStep>, i: nat, key: Key, reply: Reply)
    requires i < |history| && history[i] == Register(key, reply)
    requires forall j :: i < j < |history| ==> history[j] != Cleared && !(history[j].Register? && history[j].key == key)
    ensures Answer(history, key) == reply
  {
    if i < |history| - 1 { LatestRegistrationAnswers(history[..|history| - 1], i, key, reply); }
  }

  /** What was never registered, or not since the last clearing, is answered with empty success. */
  lemma {:induction false} UnregisteredSucceeds(history: seq<MockStep>, i: nat, key: Key)
    requires i <= |history| && (i == 0 || history[i - 1] == Cleared)
    requires forall j :: i <= j < |history| ==>
      history[j] != Cleared && !(history[j].Register? && history[j].key == key)
    ensures Answer(history, key) == Ran("", "", true)
  {
    if i < |history| { UnregisteredSucceeds(history[..|history| - 1], i, key); }
  }

  /** The calls since the last clearing, in order. */
  function CallsMade(history: seq<MockStep>): seq<Call> {
    if history == [] then [] else
    var earlier, last := history[..|history| - 1], history[|history| - 1];
    match last
    case Register(_, _) => CallsMade(earlier)
    case Cleared => []
    case Called(call) => CallsMade(earlier) + [call]
  }

  class MockCommandRunner {
    var responses: map<Key, Reply>
    var callLog: seq<Call>
    ghost var history: seq<MockStep>

    function Lookup(key: Key): Reply
      reads this
    {
      if key in responses then responses[key] else Ran("", "", true)
    }

    ghost predicate Valid()
      reads this
    {
      callLog == CallsMade(history) && forall key: Key :: Lookup(key) == Answer(history, key)
    }

    constructor ()
      ensures Valid() && history == []
    {
      responses, callLog, history := map[], [], [];
    }

    method AddResponse(cmd: string, args: seq<string>, stdout: string, stderr: string, success: bool)
      requires Valid()
      modifies this
      ensures Valid() && history == old(history) + [Register((cmd, args), Ran(stdout, stderr, success))]
    {
      responses := responses[(cmd, args) := Ran(stdout, stderr, success)];
      history := history + [Register((cmd, args), Ran(stdout, stderr, success))];
      assert history[..|history| - 1] == old(history);
    }

    method GetCalls() returns (calls: seq<Call>)
      requires Valid()
      ensures calls == CallsMade(history)
    {
      calls := callLog;
    }

    method Clear()
      requires Valid()
      modifies this
      ensures Valid() && history == old(history) + [Cleared]
    {
      responses, callLog := map[], [];
      history := history + [Cleared];
    }

    /** Neither the calls made nor the standard input affect the answer. */
    method Run(cmd: string, args: seq<string>, stdin: Option<string>) returns (reply: Reply)
      requires Valid()
      modifies this
      ensures Valid() && history == old(history) + [Called(Call(cmd, args, stdin))]
      ensures reply == Answer(old(history), (cmd, args))
    {
      callLog := callLog + [Call(cmd, args, stdin)];
      reply := Lookup((cmd, args));
      history := history + [Called(Call(cmd, args, stdin))];
      assert history[..|history| - 1] == old(history);
    }
  }
}
