/** The collaborators a network reaches through `state.State`: the cluster
    database (`UpdateNetwork`, `DeleteNetwork`, `RenameNetwork`), the cluster
    notifier, and the `networks` directory of the daemon's var path.  What
    they do remotely is out of reach, so each call only records itself in a
    ghost trace and succeeds or fails nondeterministically. */
module DaemonState {
  import opened NetworkTypes

  /** The calling network's in-memory name, description and config at the moment of a call. */
  datatype View = View(name: string, description: string, config: ConfigMap)

  /** One call as it happened: the request, whether it succeeded, and the caller's view at that moment. */
  datatype Entry = Entry(call: Call, ok: bool, view: View)

  /** The calls `t` are the plan `plan` run in order up to and including the
      first failure; the outcome is nil when all of it succeeded and otherwise
      the failing call's error. */
  ghost predicate RanUntilFailure(t: seq<Entry>, plan: seq<Call>, result: Outcome) {
    && |t| <= |plan|
    && (forall i :: 0 <= i < |t| ==> t[i].call == plan[i])
    && (forall i :: 0 <= i < |t| - 1 ==> t[i].ok)
    && (result.Pass? <==> |t| == |plan| && (t == [] || t[|t| - 1].ok))
    && (result.Fail? ==> t != [] && !t[|t| - 1].ok && result.error == CallFailed(t[|t| - 1].call))
  }

  /** Every call of `t` was made while the caller looked like `v`. */
  ghost predicate SeenAs(t: seq<Entry>, v: View) {
    forall e :: e in t ==> e.view == v
  }

  class State {
    /** `db.NodeSpecificNetworkConfig`: the keys that stay on the node that set them. */
    const nodeSpecificKeys: set<string>
    /** The network names that have a directory under the var path's `networks`. */
    var dirs: set<string>
    /** Every collaborator call made so far, oldest first. */
    ghost var trace: seq<Entry>

    constructor (nodeSpecificKeys: set<string>, dirs: set<string>)
      ensures this.nodeSpecificKeys == nodeSpecificKeys && this.dirs == dirs && trace == []
    {
      this.nodeSpecificKeys := nodeSpecificKeys;
      this.dirs := dirs;
      trace := [];
    }

    /** A database or cluster request whose outcome is not ours to decide. */
    method Request(call: Call, ghost view: View) returns (ok: bool)
      requires !call.RemoveDir? && !call.RenameDir?
      modifies this`trace
      ensures trace == old(trace) + [Entry(call, ok, view)]
    {
      ok := *;
      trace := trace + [Entry(call, ok, view)];
    }

    /** `shared.PathExists(shared.VarPath("networks", dir))`. */
    method PathExists(dir: string) returns (present: bool)
      ensures present <==> dir in dirs
    {
      present := dir in dirs;
    }

    /** `os.RemoveAll` of a network directory; it may fail and leave the directory. */
    method RemoveAll(dir: string, ghost view: View) returns (ok: bool)
      modifies this`dirs, this`trace
      ensures trace == old(trace) + [Entry(RemoveDir(dir), ok, view)]
      ensures dirs == if ok then old(dirs) - {dir} else old(dirs)
    {
      ok := *;
      if ok {
        dirs := dirs - {dir};
      }
      trace := trace + [Entry(RemoveDir(dir), ok, view)];
    }

    /** `os.Rename` of one network directory to another name. */
    method Rename(from: string, to: string, ghost view: View) returns (ok: bool)
      modifies this`dirs, this`trace
      ensures trace == old(trace) + [Entry(RenameDir(from, to), ok, view)]
      ensures dirs == if ok then old(dirs) - {from} + {to} else old(dirs)
    {
      ok := *;
      if ok {
        dirs := dirs - {from} + {to};
      }
      trace := trace + [Entry(RenameDir(from, to), ok, view)];
    }
  }
}
