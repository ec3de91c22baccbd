/** Mounting and unmounting datasets. */
module Datasets {

  import opened Wrappers
  import opened Text
  import opened Commands

  function MountCall(dataset: string): Call {
    Call("zfs", ["mount", dataset], None)
  }

  function MountLoadingCall(dataset: string, passphrase: string): Call {
    Call("zfs", ["mount", "-l", dataset], Some(passphrase))
  }

  function UnmountCall(dataset: string, unloadKey: bool): Call {
    Call("zfs", ["unmount"] + (if unloadKey then ["-u"] else []) + [dataset], None)
  }

  function MountpointCall(dataset: string): Call {
    Call("zfs", ["get", "-H", "-o", "value", "mountpoint", dataset], None)
  }

  /** A failed mount for want of a key has a message of its own. */
  function MountChecked(dataset: string): Check {
    (reply: Reply) => match reply
      case Failed(error) => Err(error)
      case Ran(stdout, stderr, success) =>
        if success then Ok(stdout)
        else if Contains(stderr, "encryption key not loaded") then
          Err("ZFS error: Dataset " + dataset + " is encrypted \U{2014} load key first")
        else Err("ZFS error: zfs mount failed: " + stderr)
  }

  lemma {:induction false} MountCheckedIs(dataset: string, reply: Reply)
    ensures MountChecked(dataset)(reply).Ok? <==> Succeeded(reply)
  {
  }

  /** Where a mounted dataset is: its mountpoint property, or its name under the root. */
  function MountpointIn(dataset: string, stdout: string): string {
    var text := Trim(stdout);
    if text == "none" || text == "-" then "/" + dataset else text
  }

  /** A printed mountpoint is read back; a dataset without one is taken to be under the root. */
  lemma {:induction false} MountpointReadBack(dataset: string, path: string)
    requires Trimmed(path)
    ensures MountpointIn(dataset, path + "\n") == if path in {"none", "-"} then "/" + dataset else path
  {
    TrimOfTrimmed(path);
    TrimSnoc(path, '\n');
  }

  /** The exit status of the query is not looked at. */
  function MountpointScript(dataset: string): Script<Result<string, string>> {
    (replies: seq<Reply>) =>
      if replies == [] then Issue(MountpointCall(dataset))
      else match replies[0]
        case Failed(e) => Finish(Err(e))
        case Ran(stdout, _, _) => Finish(Ok(MountpointIn(dataset, stdout)))
  }

  function MountScript(dataset: string): Script<Result<string, string>> {
    Then(MountCall(dataset), MountChecked(dataset), MountpointScript(dataset))
  }

  const MOUNT_LOADING_FAILED := "Mount with keyload failed"

  function MountWithKeyloadScript(dataset: string, passphrase: string): Script<Result<string, string>> {
    Then(MountLoadingCall(dataset, passphrase), Checked(MOUNT_LOADING_FAILED), MountpointScript(dataset))
  }

  const UNMOUNT_FAILED := "zfs unmount failed"

  function UnmountScript(dataset: string, unloadKey: bool): Script<Result<(), string>> {
    Once(UnmountCall(dataset, unloadKey), UNMOUNT_FAILED)
  }

  function MountpointOutcome(dataset: string, reply: Reply): Result<string, string> {
    match reply case Failed(e) => Err(e) case Ran(stdout, _, _) => Ok(MountpointIn(dataset, stdout))
  }

  /** A run of the mountpoint query. */
  lemma {:induction false} MountpointConversation(dataset: string, es: seq<Exchange>, outcome: Result<string, string>)
    ensures Conversation(MountpointScript(dataset), es, outcome) <==>
      |es| == 1 && es[0].call == MountpointCall(dataset) && outcome == MountpointOutcome(dataset, es[0].reply)
  {
    var script := MountpointScript(dataset);
    hide MountpointCall, MountpointIn;
    if es != [] {
      FollowsFirst(script, es[0]);
      FollowsAt(script, es, 0);
      if |es| > 1 {
        FollowsAt(script, es, 1);
        assert Replies(es[..1])[0] == es[0].reply;
      } else {
        assert es == [es[0]];
        assert Replies(es)[0] == es[0].reply;
      }
    }
  }

  class DatasetManager {
    const runner: CommandRunner

    constructor (runner: CommandRunner)
      ensures this.runner == runner
    {
      this.runner := runner;
    }

    method Mount(dataset: string) returns (r: Result<string, string>)
      modifies runner
      ensures Conducted(MountScript(dataset), old(runner.log), runner.log, r)
    {
      var reply := runner.Run("zfs", ["mount", dataset], None);
      ghost var e := Exchange(MountCall(dataset), reply);
      ghost var next := MountpointScript(dataset);
      var checked := MountChecked(dataset)(reply);
      if checked.Err? {
        ThenStopped(MountCall(dataset), MountChecked(dataset), next, old(runner.log), e);
        return Err(checked.error);
      }
      var answer := runner.Run("zfs", ["get", "-H", "-o", "value", "mountpoint", dataset], None);
      r := match answer case Failed(error) => Err(error) case Ran(stdout, _, _) => Ok(MountpointIn(dataset, stdout));
      ThenConducted(MountCall(dataset), MountChecked(dataset), next, old(runner.log), e, runner.log, r);
    }

    method MountWithKeyload(dataset: string, passphrase: string) returns (r: Result<string, string>)
      modifies runner
      ensures Conducted(MountWithKeyloadScript(dataset, passphrase), old(runner.log), runner.log, r)
    {
      var reply := runner.Run("zfs", ["mount", "-l", dataset], Some(passphrase));
      ghost var call := MountLoadingCall(dataset, passphrase);
      ghost var e := Exchange(call, reply);
      ghost var next := MountpointScript(dataset);
      var checked := Checked(MOUNT_LOADING_FAILED)(reply);
      if checked.Err? {
        ThenStopped(call, Checked(MOUNT_LOADING_FAILED), next, old(runner.log), e);
        return Err(checked.error);
      }
      var answer := runner.Run("zfs", ["get", "-H", "-o", "value", "mountpoint", dataset], None);
      r := match answer case Failed(error) => Err(error) case Ran(stdout, _, _) => Ok(MountpointIn(dataset, stdout));
      ThenConducted(call, Checked(MOUNT_LOADING_FAILED), next, old(runner.log), e, runner.log, r);
    }

    method Unmount(dataset: string, unloadKey: bool) returns (r: Result<(), string>)
      modifies runner
      ensures Conducted(UnmountScript(dataset, unloadKey), old(runner.log), runner.log, r)
    {
      var args := ["unmount"];
      if unloadKey { args := args + ["-u"]; }
      args := args + [dataset];
      assert args == UnmountCall(dataset, unloadKey).args;
      var reply := runner.Run("zfs", args, None);
      OnceConducted(UnmountCall(dataset, unloadKey), UNMOUNT_FAILED, old(runner.log),
                    Exchange(UnmountCall(dataset, unloadKey), reply));
      r := match Checked(UNMOUNT_FAILED)(reply) case Err(e) => Err(e) case Ok(_) => Ok(());
    }
  }
}
