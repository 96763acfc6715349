# LXD network base (`common`) in Dafny

This project models `common`, the base that every LXD network driver (bridge,
macvlan, sriov, ovn, …) embeds, from `lxd/network/driver_common.go`.  The model
covers:

- its fields and `init`, and the accessors `Name`, `Status`, `Type` and `Config`;
- config validation: the driver rules merged over the common ones, every rule
  run on its key's value, and unknown non-`user.` keys rejected;
- the `ipv4.dhcp` and `ipv6.dhcp` switches;
- parsing of `ipv4.dhcp.ranges` and `ipv6.dhcp.ranges`;
- `configChanged`, the config diff;
- the three operations that reach the cluster: `update`, `delete` and `rename`.

Modules:

- `Text`: the Go `strings` functions the core relies on.  These are `Split`,
  `SplitN(…, 2)`, `TrimSpace` (Unicode white space), `HasPrefix` and the
  first-index search behind them.  They are written on strings as sequences of
  code points.
- `NetworkTypes`: the shared values.
  - The config map: an absent key reads as "".
  - The `user.` key test.
  - `api.NetworkPut`.
  - The collaborator calls.
  - The two validation errors on one side, and the collaborator failures,
    which are returned unchanged, on the other.
- `Validation`: `validationRules` and `validate`.
  - Validators are predicates on the value (`true` = nil error).
  - Go's map iteration order is a nondeterministic choice of the next key.
  - The network name that `validate` reads from `n.name` is a parameter.
- `ConfigDiff`: the two diff loops of `configChanged`, with the changed-key list
  they build.
- `Dhcp`: `HasDHCPv4`/`HasDHCPv6` and the range loop shared by
  `DHCPv4Ranges`/`DHCPv6Ranges`.
  - `net.ParseIP`, `To4` and `To16` enter as the functions of an `IPLib`, and
    `None` is Go's nil IP.
  - `shared.IsTrue` is a predicate parameter.
- `DaemonState`: the collaborators reached through `state.State`.
  - Each database or cluster request records itself in a ghost trace together
    with a snapshot of the calling network, and succeeds or fails
    nondeterministically.
  - The `networks` directory is the set of names that have a directory there.
  - `db.NodeSpecificNetworkConfig` is a constant set of keys.
- `Network`: the class `Common`, whose fields the operations update in place,
  plus:
  - the forwarded-config loop of `update`;
  - the call plans `update`, `delete` and `rename` follow;
  - lemmas about those plans.

The ghost trace states the ordering facts:

- `update` assigns the description and config before any call.
- A cluster notification makes no call.
- The copy fanned out to the other members carries no node-specific key.
- The database is written only after every earlier step succeeded.
- `rename` changes the name only after both the directory move and the database
  rename succeeded, and every call is made under the old name.

## Model

| member | source | states |
|---|---|---|
| Text.HasPrefixIff | lxd/network/driver_common.go:92 | `strings.HasPrefix(s, p)` holds exactly when `s` is `p` followed by some rest |
| Text.IndexOf | lxd/network/driver_common.go:195 | the index of the first occurrence of the separator: it holds the separator and none comes before it |
| Text.Split | lxd/network/driver_common.go:194 | `strings.Split` yields at least one piece and no piece contains the separator |
| Text.JoinSplit | lxd/network/driver_common.go:194 | joining the pieces of `Split` with the separator gives back the input |
| Text.SplitJoin | lxd/network/driver_common.go:194 | splitting a join of separator-free pieces gives back those pieces |
| Text.FirstSeparatorAt | lxd/network/driver_common.go:195 | in `a + sep + b` with `sep` not in `a`, the first separator comes right after `a` |
| Text.SplitN2 | lxd/network/driver_common.go:195 | `strings.SplitN(s, sep, 2)` gives two parts exactly when `sep` occurs; then the first part has no separator and the parts joined around it give `s`; otherwise the one part is `s` |
| Text.TrimLeftSpec | lxd/network/driver_common.go:195 | the left trim is a suffix of the input, what it removed is all white space, and it does not start with white space |
| Text.TrimRightSpec | lxd/network/driver_common.go:195 | the right trim is a prefix of the input, what it removed is all white space, and it does not end with white space |
| Text.TrimSpaceSpec | lxd/network/driver_common.go:195 | `strings.TrimSpace` returns a middle slice of its input; only white space is dropped on either side, and the result neither starts nor ends with white space |
| Text.TrimPadded | lxd/network/driver_common.go:195 | white-space padding around a text that neither starts nor ends with white space is exactly what `TrimSpace` removes |
| NetworkTypes.UserKeyShape | lxd/network/driver_common.go:92 | a key counts as a user key exactly when it is `user.` followed by anything, the same test as at lines 304 and 315 |
| Validation.CommonRules | lxd/network/driver_common.go:59-61 | the base defines no common rule |
| Validation.CommonRulesNeutral | lxd/network/driver_common.go:66-73 | merging driver rules over the common ones gives exactly the driver rules |
| Validation.MergeRules | lxd/network/driver_common.go:66-73 | the merged rules cover the common keys and the driver keys; a driver rule replaces the common rule of the same key, and the other common rules are kept |
| Validation.Validate | lxd/network/driver_common.go:64-100 | nil exactly when every rule accepts its key's value ("" when absent) and every config key has a rule or is a `user.` key; an invalid-value error names a key whose rule rejects its value; an invalid-option error names an uncovered non-`user.` config key, and comes only when every rule passed; both errors carry the network name |
| Validation.UserKeysNeverValidated | lxd/network/driver_common.go:90-93 | setting a `user.` key that no rule mentions never changes whether a config is valid |
| ConfigDiff.DiffConfig | lxd/network/driver_common.go:291-319 | the update-needed flag is set exactly when the descriptions differ or some key reads differently; the changed-key list has no duplicates and holds exactly the non-`user.` keys whose values differ; identical inputs give no change and an empty list |
| ConfigDiff.NonEmpty | lxd/network/driver_common.go:299-319 | dropping empty values changes no lookup, and leaves no empty value |
| ConfigDiff.NoDiffIffSameNonEmpty | lxd/network/driver_common.go:299-319 | two configs show no difference exactly when they are equal once empty values are dropped, so a key set to "" counts as absent |
| ConfigDiff.UserKeyChangeIsUnlisted | lxd/network/driver_common.go:303-306 | a change confined to one `user.` key needs a database update but lists no changed key |
| Dhcp.Coerce | lxd/network/driver_common.go:197-201 | an endpoint that does not parse is nil; with coercions that return 4- and 16-byte forms, a v4 endpoint is 4 bytes and a v6 endpoint 16 (the v6 form at lines 217-221) |
| Dhcp.ParseRanges | lxd/network/driver_common.go:192-207 | the range loop over a config value returns the ranges of its comma-separated pieces; none for "" |
| Dhcp.DashedIndicesSnoc | lxd/network/driver_common.go:194-196 | appending a piece adds its position to the dashed positions exactly when its trimmed text contains `-` |
| Dhcp.RangesCount | lxd/network/driver_common.go:194-205 | one range per piece whose trimmed text contains `-`; the other pieces are skipped silently |
| Dhcp.RangeAt | lxd/network/driver_common.go:194-205 | the k-th dashed piece yields the k-th range, so ranges come out in input order |
| Dhcp.EndpointWidths | lxd/network/driver_common.go:197-202 | with coercions that return 4- and 16-byte forms, every endpoint of a v4 range is nil or 4 bytes, and of a v6 range nil or 16 bytes |
| Dhcp.PieceRange | lxd/network/driver_common.go:195-202 | a piece `start-end`, possibly led by white space, yields the range of the parses of `start` and `end` |
| Dhcp.TwoRanges | lxd/network/driver_common.go:191-208 | "10.0.0.10-10.0.0.20, 10.0.0.50-10.0.0.60" yields exactly two ranges, in input order, with the parses of the four literals as endpoints |
| Dhcp.DhcpEnabled | lxd/network/driver_common.go:170-188 | DHCP is on exactly when the key is absent, empty, or truthy |
| Dhcp.DhcpDefaultsOn | lxd/network/driver_common.go:170-176 | removing the key or emptying it turns DHCP on, whatever it held |
| DaemonState.State.constructor | lxd/network/driver_common.go:32 | a state with the given node-specific keys and directories, and no calls yet |
| DaemonState.State.Request | lxd/network/driver_common.go:242-269 | a database or cluster request appends itself, its success and the caller's view to the trace, and changes nothing else |
| DaemonState.State.PathExists | lxd/network/driver_common.go:327 | a network directory exists exactly when its name is among the directories |
| DaemonState.State.RemoveAll | lxd/network/driver_common.go:327-329 | the removal is logged; the directory is gone if it succeeded and unchanged otherwise |
| DaemonState.State.Rename | lxd/network/driver_common.go:332-336 | the move is logged; on success the old name's directory is now under the new name, and otherwise nothing moved |
| Network.ForwardedConfig | lxd/network/driver_common.go:247-256 | the copy sent to the other members is the applied config without its node-specific keys: the same values on every other key |
| Network.UpdateRunOf | lxd/network/driver_common.go:231-274 | the calls of a non-notification update, with the outcome it returns, run the plan (notifier, fan-out, database write; or only the write when a target member is named) until the first failure; no forwarded config holds a node-specific key |
| Network.RenameRunOf | lxd/network/driver_common.go:325-349 | the calls of a rename, with the outcome it returns and the directories it leaves, satisfy `RenameRun` |
| Network.RenamedDirectories | lxd/network/driver_common.go:325-349 | after a successful rename between distinct names, a directory the network had is now under the new name and is the only one that moved; no directory is left under the old name; when the network had none, a directory remains under the new name exactly when it was there before and its removal failed; the last call was the successful database rename |
| Network.RenameToSelfDropsDirectory | lxd/network/driver_common.go:326-336 | renaming a network to its own name deletes its directory when that removal succeeds, because the stale-directory step runs before the move |
| Network.Common.constructor | lxd/network/driver_common.go:42-51 | a network is created holding the given fields, by way of `init` |
| Network.Common.Init | lxd/network/driver_common.go:42-51 | `init` stores every field, and the accessors `Name`, `Type`, `Config` and `Status` (lines 103-120) then return what it stored |
| Network.Common.HasDHCPv4 | lxd/network/driver_common.go:170-176 | on exactly when `ipv4.dhcp` is absent, empty or truthy |
| Network.Common.HasDHCPv6 | lxd/network/driver_common.go:182-188 | on exactly when `ipv6.dhcp` is absent, empty or truthy |
| Network.Common.DHCPv4Ranges | lxd/network/driver_common.go:191-208 | the ranges of `ipv4.dhcp.ranges` with endpoints coerced by `To4`; none when the key is empty or absent |
| Network.Common.DHCPv6Ranges | lxd/network/driver_common.go:211-228 | the ranges of `ipv6.dhcp.ranges` with endpoints coerced by `To16`; none when the key is empty or absent |
| Network.Common.ConfigChanged | lxd/network/driver_common.go:279-322 | returns a copy of the current description and config, the update-needed flag (set exactly when something differs), and the duplicate-free list of exactly the changed non-`user.` keys; comparing with the current state reports nothing |
| Network.Common.Update | lxd/network/driver_common.go:231-274 | description and config are applied before any call, and every call sees them; the calls run `UpdatePlan` until the first failure, whose error is returned; a cluster notification makes no call and returns nil; the fanned-out copy holds no node-specific key; nothing else changes |
| Network.Common.Delete | lxd/network/driver_common.go:352-363 | the database record is deleted unless this is a cluster notification, and the delete's error is returned; nothing else changes |
| Network.Common.Rename | lxd/network/driver_common.go:325-349 | a stale directory under the new name is removed, and a failure of that removal is ignored; the old directory is moved if present; then the database entry is renamed, stopping at the first failure; the name is the new one exactly when the result is nil; all calls are made under the old name; no other field changes |

## Left out

- `IsUsed` (lines 123-167) is not modelled: it needs the instance and profile loaders and the `IsInUseByInstance`/`IsInUseByProfile` helpers, which are outside this core.
- `fillConfig` and `HandleHeartbeat` are no-ops that return nil, so there is nothing to state about them.
- The logger that `init` attaches, and the logger context that `rename` refreshes, are not modelled: logging has no effect on behaviour.
- The TLS certificate that `update` passes to `cluster.NewNotifier` is not modelled.
- The notifier's fan-out is one call that succeeds or fails.
  - Which peers were contacted, and in what order, is not modelled.
  - The notification flag on the outbound request is not modelled.
- `net.ParseIP`, `To4`, `To16` and `shared.IsTrue` are uninterpreted functions.
  - Which texts count as IP literals or as truthy is out of scope.
  - `EndpointWidths` assumes only the 4- and 16-byte results from the Go library.
- Endpoints padded with blanks around the hyphen (`"10.0.0.1 - 10.0.0.2"`) are not trimmed individually.
  - The code trims only each whole comma-separated piece, so such an endpoint reaches `ParseIP` with its blank, and the model does the same.
  - A range one of whose endpoints does not parse is kept, with a nil endpoint, as the code does.
- Validation.Validate: the validator's own error text, which Go wraps into the message, is lost, because validators are predicates. Which failing key is reported, when several fail, is left open, as Go's map order is unspecified.
- Validation.Validate: the network name that the Go method reads from `n.name` is an explicit parameter.
- Network.Common.ConfigChanged: the `shared.DeepCopy` error path is not modelled, because copying a Dafny map cannot fail.
- Network.Common.Init, Network.Common.Update, Network.Common.Config: map aliasing is not modelled. `init` (line 47) and `update` (line 235) store the caller's map itself, and `Config` returns the live map, so in Go the network and its caller share one map; here the map is a value. Nothing in this core mutates a config map in place, so no modelled outcome depends on it.
- Directories are a set of names under the var path's `networks` directory.
  - Their contents are not modelled.
  - Other processes touching them are not modelled.
  - Path construction (`shared.VarPath`) is not modelled.
- Concurrent calls into one network are not modelled: each operation runs to completion on its own.
- The order of the changed-key list of `configChanged` follows Go's map order, and the model leaves it open; only its contents and the absence of duplicates are stated.
