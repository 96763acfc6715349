/** `common`, the base every network driver embeds: its fields, `init`, the
    accessors, the DHCP readings, the config diff, and the three operations
    that reach the cluster (`update`, `delete`, `rename`). */
module Network {
  import opened NetworkTypes
  import opened DaemonState
  import opened ConfigDiff
  import opened Dhcp

  newtype int64 = x: int | -0x8000_0000_0000_0000 <= x < 0x8000_0000_0000_0000

  /** The config forwarded to the other cluster members: the applied config
      without its node-specific keys, which each member keeps for itself. */
  method ForwardedConfig(config: ConfigMap, nodeSpecific: set<string>) returns (sent: ConfigMap)
    ensures sent.Keys == config.Keys - nodeSpecific
    ensures forall k :: k in sent ==> sent[k] == config[k]
    ensures sent == config - nodeSpecific
  {
    sent := map[];
    var todo := config.Keys;
    while todo != {}
      invariant todo <= config.Keys
      invariant forall k :: k in sent <==> k in config && k !in todo && k !in nodeSpecific
      invariant forall k :: k in sent ==> sent[k] == config[k]
      decreases todo
    {
      var k :| k in todo;
      todo := todo - {k};
      if k in nodeSpecific {
        continue;
      }
      sent := sent[k := config[k]];
    }
  }

  /** The calls `update` makes, in order: none for a cluster notification;
      otherwise, when no target member is named, the notifier and the
      forwarded update fanned out to the other members, then the database write. */
  function UpdatePlan(name: string, applyNetwork: NetworkPut, targetNode: string,
                      clusterNotification: bool, nodeSpecific: set<string>): seq<Call>
  {
    if clusterNotification then []
    else
      (if targetNode == ""
       then [NewNotifier, NotifyUpdateNetwork(name, NetworkPut(applyNetwork.description, applyNetwork.config - nodeSpecific))]
       else [])
      + [DbUpdateNetwork(name, applyNetwork.description, applyNetwork.config)]
  }

  /** The calls a `update` that is not a cluster notification makes under
      the view `v`, given whether the notifier was created, the other members
      were notified, and the database was written. */
  ghost function UpdateCalls(v: View, name: string, applyNetwork: NetworkPut, targetNode: string,
                             nodeSpecific: set<string>, created: bool, notified: bool, written: bool): seq<Entry>
  {
    var fanOut := targetNode == "";
    var notify := NotifyUpdateNetwork(name, NetworkPut(applyNetwork.description, applyNetwork.config - nodeSpecific));
    (if fanOut then [Entry(NewNotifier, created, v)] + (if created then [Entry(notify, notified, v)] else []) else [])
    + (if !fanOut || (created && notified)
       then [Entry(DbUpdateNetwork(name, applyNetwork.description, applyNetwork.config), written, v)]
       else [])
  }

  /** The calls of `UpdateCalls`, with the outcome `update` returns, run
      `UpdatePlan` until the first failure, and no forwarded config holds a
      node-specific key. */
  lemma {:induction false} UpdateRunOf(t0: seq<Entry>, t: seq<Entry>, v: View, name: string, applyNetwork: NetworkPut,
                                       targetNode: string, nodeSpecific: set<string>,
                                       created: bool, notified: bool, written: bool, result: Outcome)
    requires t == t0 + UpdateCalls(v, name, applyNetwork, targetNode, nodeSpecific, created, notified, written)
    requires result ==
               if targetNode == "" && !created then Fail(CallFailed(NewNotifier))
               else if targetNode == "" && !notified
               then Fail(CallFailed(NotifyUpdateNetwork(name, NetworkPut(applyNetwork.description, applyNetwork.config - nodeSpecific))))
               else if written then Pass
               else Fail(CallFailed(DbUpdateNetwork(name, applyNetwork.description, applyNetwork.config)))
    ensures var u := t[|t0|..];
            && RanUntilFailure(u, UpdatePlan(name, applyNetwork, targetNode, false, nodeSpecific), result)
            && SeenAs(u, v)
            && (forall e :: e in u && e.call.NotifyUpdateNetwork? ==> e.call.put.config.Keys !! nodeSpecific)
  {
  }

  /** The calls `delete` makes: the database delete unless this is a cluster notification. */
  function DeletePlan(name: string, clusterNotification: bool): seq<Call> {
    if clusterNotification then [] else [DbDeleteNetwork(name)]
  }

  /** The calls `t` of a `rename` from `oldName` to `newName`, with the
      directories before (`dirs0`) and after (`dirs1`): a directory already
      named `newName` is removed first, and a failure there is ignored; then the
      old directory, if there is one, is renamed, and the database entry is
      renamed, stopping at the first of these two that fails. */
  ghost predicate RenameRun(t: seq<Entry>, oldName: string, newName: string,
                            dirs0: set<string>, dirs1: set<string>, result: Outcome)
  {
    var k := if newName in dirs0 then 1 else 0;
    && |t| >= k
    && (k == 1 ==> t[0].call == RemoveDir(newName))
    && (var dirsK := if k == 1 && t[0].ok then dirs0 - {newName} else dirs0;
        var moved := oldName in dirsK;
        && RanUntilFailure(t[k..], (if moved then [RenameDir(oldName, newName)] else []) + [DbRenameNetwork(oldName, newName)], result)
        && dirs1 == if moved && |t| > k && t[k].ok then dirsK - {oldName} + {newName} else dirsK)
  }

  /** After a successful rename between distinct names, the network's
      directory, if it had one, is the only one that moved, and no stale
      directory is left under the new name unless its removal failed. */
  lemma {:induction false} RenamedDirectories(t: seq<Entry>, oldName: string, newName: string,
                                              dirs0: set<string>, dirs1: set<string>, result: Outcome)
    requires RenameRun(t, oldName, newName, dirs0, dirs1, result)
    requires result.Pass? && oldName != newName
    ensures oldName in dirs0 ==> dirs1 == dirs0 - {oldName} + {newName}
    ensures oldName !in dirs0 ==> dirs1 - {newName} == dirs0 - {newName}
    ensures oldName !in dirs1
    ensures oldName !in dirs0 ==> (newName in dirs1 <==> newName in dirs0 && !t[0].ok)
    ensures t[|t| - 1].call == DbRenameNetwork(oldName, newName) && t[|t| - 1].ok
  {
  }

  /** The calls a `rename` under the view `v` makes, given whether a stale
      directory named `newName` was present and removed, whether the old
      directory was present and moved, and whether the database rename succeeded. */
  ghost function RenameCalls(v: View, newName: string, stale: bool, removed: bool,
                             present: bool, moved: bool, renamed: bool): seq<Entry>
  {
    (if stale then [Entry(RemoveDir(newName), removed, v)] else [])
    + (if present then [Entry(RenameDir(v.name, newName), moved, v)] else [])
    + (if !present || moved then [Entry(DbRenameNetwork(v.name, newName), renamed, v)] else [])
  }

  /** The calls of `RenameCalls`, with the directories they leave and the
      outcome `rename` returns, form a `RenameRun`. */
  lemma {:induction false} RenameRunOf(t0: seq<Entry>, t: seq<Entry>, v: View, newName: string,
                                       dirs0: set<string>, dirsK: set<string>, dirs1: set<string>,
                                       removed: bool, present: bool, moved: bool, renamed: bool, result: Outcome)
    requires t == t0 + RenameCalls(v, newName, newName in dirs0, removed, present, moved, renamed)
    requires dirsK == if newName in dirs0 && removed then dirs0 - {newName} else dirs0
    requires present == (v.name in dirsK)
    requires dirs1 == if present && moved then dirsK - {v.name} + {newName} else dirsK
    requires result == if present && !moved then Fail(CallFailed(RenameDir(v.name, newName)))
                       else if renamed then Pass else Fail(CallFailed(DbRenameNetwork(v.name, newName)))
    ensures RenameRun(t[|t0|..], v.name, newName, dirs0, dirs1, result) && SeenAs(t[|t0|..], v)
  {
    var u := RenameCalls(v, newName, newName in dirs0, removed, present, moved, renamed);
    assert t[|t0|..] == u;
    var pre := if newName in dirs0 then [Entry(RemoveDir(newName), removed, v)] else [];
    var rest := u[|pre|..];
    assert u == pre + rest;
    if pre != [] {
      assert u[0] == pre[0];
    }
  }

  /** Renaming a network to its own name when it has a directory, and the
      removal of that directory succeeds, leaves it without a directory. */
  lemma {:induction false} RenameToSelfDropsDirectory(t: seq<Entry>, name: string,
                                                      dirs0: set<string>, dirs1: set<string>, result: Outcome)
    requires RenameRun(t, name, name, dirs0, dirs1, result)
    requires name in dirs0 && t[0].ok
    ensures name !in dirs1
    ensures dirs1 == dirs0 - {name}
  {
  }

  class Common {
    var state: State
    var id: int64
    var name: string
    var netType: string
    var description: string
    var config: ConfigMap
    var status: string

    /** The part of this network a collaborator call can observe. */
    ghost function Snapshot(): View
      reads this
    {
      View(name, description, config)
    }

    constructor (state: State, id: int64, name: string, netType: string,
                 description: string, config: ConfigMap, status: string)
      ensures this.state == state && this.id == id && this.name == name && this.netType == netType
      ensures this.description == description && this.config == config && this.status == status
    {
      this.state := state;
      new;
      Init(state, id, name, netType, description, config, status);
    }

    /** `init`: stores every field; the accessors then return what was stored. */
    method Init(state: State, id: int64, name: string, netType: string,
                description: string, config: ConfigMap, status: string)
      modifies this
      ensures this.state == state && this.id == id && this.description == description
      ensures Name() == name && Type() == netType && Config() == config && Status() == status
    {
      this.id := id;
      this.name := name;
      this.netType := netType;
      this.config := config;
      this.state := state;
      this.description := description;
      this.status := status;
    }

    function Name(): string
      reads this
    {
      name
    }

    function Status(): string
      reads this
    {
      status
    }

    function Type(): string
      reads this
    {
      netType
    }

    function Config(): ConfigMap
      reads this
    {
      config
    }

    /** `HasDHCPv4`: on unless `ipv4.dhcp` holds a value that is not truthy. */
    function HasDHCPv4(isTrue: string -> bool): (r: bool)
      reads this
      ensures r <==> "ipv4.dhcp" !in config || config["ipv4.dhcp"] == "" || isTrue(config["ipv4.dhcp"])
    {
      DhcpEnabled(config, "ipv4.dhcp", isTrue)
    }

    /** `HasDHCPv6`: on unless `ipv6.dhcp` holds a value that is not truthy. */
    function HasDHCPv6(isTrue: string -> bool): (r: bool)
      reads this
      ensures r <==> "ipv6.dhcp" !in config || config["ipv6.dhcp"] == "" || isTrue(config["ipv6.dhcp"])
    {
      DhcpEnabled(config, "ipv6.dhcp", isTrue)
    }

    /** `DHCPv4Ranges`: the ranges of `ipv4.dhcp.ranges`, endpoints coerced to 4 bytes. */
    method DHCPv4Ranges(lib: IPLib) returns (dhcpRanges: seq<DHCPRange>)
      ensures dhcpRanges == RangesOf(lib, V4, Get(config, "ipv4.dhcp.ranges"))
      ensures Get(config, "ipv4.dhcp.ranges") == "" ==> dhcpRanges == []
    {
      dhcpRanges := ParseRanges(lib, V4, Get(config, "ipv4.dhcp.ranges"));
    }

    /** `DHCPv6Ranges`: the ranges of `ipv6.dhcp.ranges`, endpoints coerced to 16 bytes. */
    method DHCPv6Ranges(lib: IPLib) returns (dhcpRanges: seq<DHCPRange>)
      ensures dhcpRanges == RangesOf(lib, V6, Get(config, "ipv6.dhcp.ranges"))
      ensures Get(config, "ipv6.dhcp.ranges") == "" ==> dhcpRanges == []
    {
      dhcpRanges := ParseRanges(lib, V6, Get(config, "ipv6.dhcp.ranges"));
    }

    /** `configChanged`: a copy of the current description and config to revert
        to, whether the new ones differ from it, and the non-user keys that changed. */
    method ConfigChanged(newNetwork: NetworkPut) returns (changed: bool, changedKeys: seq<string>, oldNetwork: NetworkPut)
      ensures oldNetwork == NetworkPut(description, config)
      ensures changed <==> description != newNetwork.description || ConfigDiffers(config, newNetwork.config)
      ensures NoDuplicates(changedKeys)
      ensures forall k :: k in changedKeys <==> KeyChanged(config, newNetwork.config, k)
      ensures newNetwork == oldNetwork ==> !changed && changedKeys == []
    {
      oldNetwork := NetworkPut(description, config);
      changed, changedKeys := DiffConfig(oldNetwork, newNetwork);
    }

    /** `update`: the new description and config are applied in memory before
        any call, so every call sees them; then the calls of `UpdatePlan` run
        until one fails.  A cluster notification makes no call at all, and the
        copy sent to the other members holds no node-specific key. */
    method Update(applyNetwork: NetworkPut, targetNode: string, clusterNotification: bool) returns (result: Outcome)
      modifies this`description, this`config, state`trace
      ensures description == applyNetwork.description && config == applyNetwork.config
      ensures old(state.trace) <= state.trace
      ensures var t := state.trace[|old(state.trace)|..];
              && RanUntilFailure(t, UpdatePlan(name, applyNetwork, targetNode, clusterNotification, state.nodeSpecificKeys), result)
              && SeenAs(t, View(name, applyNetwork.description, applyNetwork.config))
              && (forall e :: e in t && e.call.NotifyUpdateNetwork? ==> e.call.put.config.Keys !! state.nodeSpecificKeys)
      ensures clusterNotification ==> state.trace == old(state.trace) && result == Pass
    {
      description := applyNetwork.description;
      config := applyNetwork.config;
      result := Pass;
      if !clusterNotification {
        ghost var t0, v := state.trace, Snapshot();
        var created, notified := false, false;
        if targetNode == "" {
          created := state.Request(NewNotifier, v);
          if !created {
            result := Fail(CallFailed(NewNotifier));
            UpdateRunOf(t0, state.trace, v, name, applyNetwork, targetNode, state.nodeSpecificKeys, created, notified, false, result);
            return;
          }
          var sent := ForwardedConfig(applyNetwork.config, state.nodeSpecificKeys);
          var notify := NotifyUpdateNetwork(name, NetworkPut(applyNetwork.description, sent));
          notified := state.Request(notify, v);
          if !notified {
            result := Fail(CallFailed(notify));
            UpdateRunOf(t0, state.trace, v, name, applyNetwork, targetNode, state.nodeSpecificKeys, created, notified, false, result);
            return;
          }
        }
        var write := DbUpdateNetwork(name, applyNetwork.description, applyNetwork.config);
        var written := state.Request(write, v);
        result := if written then Pass else Fail(CallFailed(write));
        UpdateRunOf(t0, state.trace, v, name, applyNetwork, targetNode, state.nodeSpecificKeys, created, notified, written, result);
      }
    }

    /** `delete`: the database record is deleted unless this is a cluster notification. */
    method Delete(clusterNotification: bool) returns (result: Outcome)
      modifies state`trace
      ensures old(state.trace) <= state.trace
      ensures RanUntilFailure(state.trace[|old(state.trace)|..], DeletePlan(name, clusterNotification), result)
      ensures SeenAs(state.trace[|old(state.trace)|..], Snapshot())
      ensures clusterNotification ==> state.trace == old(state.trace) && result == Pass
    {
      if !clusterNotification {
        var call := DbDeleteNetwork(name);
        var deleted := state.Request(call, Snapshot());
        if !deleted {
          return Fail(CallFailed(call));
        }
      }
      return Pass;
    }

    /** `rename`: moves the directory and the database entry as `RenameRun`
        says.  The name changes only when both succeeded, so every call is
        made under the old name and nothing else about the network changes. */
    method Rename(newName: string) returns (result: Outcome)
      modifies this, state`dirs, state`trace
      ensures state == old(state) && id == old(id) && netType == old(netType) && status == old(status)
      ensures description == old(description) && config == old(config)
      ensures name == if result.Pass? then newName else old(name)
      ensures old(state.trace) <= state.trace
      ensures RenameRun(state.trace[|old(state.trace)|..], old(name), newName, old(state.dirs), state.dirs, result)
      ensures SeenAs(state.trace[|old(state.trace)|..], old(Snapshot()))
    {
      ghost var t0, dirs0, v := state.trace, state.dirs, Snapshot();
      ghost var removed := false;
      var moved, renamed := false, false;
      var stale := state.PathExists(newName);
      if stale {
        removed := state.RemoveAll(newName, v);
      }
      ghost var dirsK := state.dirs;
      var present := state.PathExists(name);
      if present {
        moved := state.Rename(name, newName, v);
        if !moved {
          result := Fail(CallFailed(RenameDir(name, newName)));
          RenameRunOf(t0, state.trace, v, newName, dirs0, dirsK, state.dirs, removed, present, moved, renamed, result);
          return;
        }
      }
      var call := DbRenameNetwork(name, newName);
      renamed := state.Request(call, v);
      result := if renamed then Pass else Fail(CallFailed(call));
      RenameRunOf(t0, state.trace, v, newName, dirs0, dirsK, state.dirs, removed, present, moved, renamed, result);
      if !renamed {
        return;
      }
      Init(state, id, newName, netType, description, config, status);
      return Pass;
    }
  }
}
