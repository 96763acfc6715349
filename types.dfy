/** Values shared by every part of the network base: the config map, the
    `api.NetworkPut` record, the calls made to the database, cluster and
    filesystem collaborators, and the error a mutating operation returns. */
module NetworkTypes {
  import Text

  datatype Option<+T> = None | Some(value: T)

  /** `map[string]string` of network config keys. */
  type ConfigMap = map<string, string>

  /** `config[key]` in Go: an absent key reads as the empty string. */
  function Get(config: ConfigMap, key: string): string {
    if key in config then config[key] else ""
  }

  /** Keys prefixed `user.` are free-form annotations, never rejected as unknown nor reported as changed. */
  predicate IsUserKey(key: string) {
    Text.HasPrefix(key, "user.")
  }

  /** A user key is `user.` followed by anything, `user.` itself included. */
  lemma UserKeyShape(key: string)
    ensures IsUserKey(key) <==> exists rest :: key == "user." + rest
  {
    Text.HasPrefixIff(key, "user.");
  }

  /** `api.NetworkPut`: the user-editable part of a network. */
  datatype NetworkPut = NetworkPut(description: string, config: ConfigMap)

  /** One request to a collaborator of the network base. */
  datatype Call =
    | NewNotifier                                                    // cluster.NewNotifier(state, cert, NotifyAll)
    | NotifyUpdateNetwork(name: string, put: NetworkPut)             // client.UpdateNetwork(name, put, "") fanned out to every peer
    | DbUpdateNetwork(name: string, description: string, config: ConfigMap)
    | DbDeleteNetwork(name: string)
    | DbRenameNetwork(oldName: string, newName: string)
    | RemoveDir(dir: string)                                         // os.RemoveAll(VarPath("networks", dir))
    | RenameDir(from: string, to: string)                            // os.Rename(VarPath("networks", from), VarPath("networks", to))

  datatype Error =
    | InvalidValue(network: string, key: string)     // "Invalid value for network %q option %q"
    | InvalidOption(network: string, key: string)    // "Invalid option for network %q option %q"
    | CallFailed(call: Call)                         // a collaborator's error, returned unchanged

  /** The Go `error` result: `nil` or an error. */
  datatype Outcome = Pass | Fail(error: Error)
}
