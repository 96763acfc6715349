/** The config diff behind `common.configChanged`: compare an old and a new
    description and config, both ways round, reporting whether anything
    differs and which non-user keys changed. */
module ConfigDiff {
  import opened NetworkTypes

  /** Some key reads differently in `a` and `b` (absent reads as ""). */
  ghost predicate ConfigDiffers(a: ConfigMap, b: ConfigMap) {
    exists k :: Get(a, k) != Get(b, k)
  }

  /** `k` is a non-user key whose value differs between `a` and `b`. */
  ghost predicate KeyChanged(a: ConfigMap, b: ConfigMap, k: string) {
    !IsUserKey(k) && Get(a, k) != Get(b, k)
  }

  predicate NoDuplicates(s: seq<string>) {
    forall i, j :: 0 <= i < j < |s| ==> s[i] != s[j]
  }

  /** The two diff loops of `configChanged`: first over the old keys, then
      over the new ones, appending each changed non-user key not yet listed.
      The order of the list follows Go's unspecified map order and is left open. */
  method DiffConfig(oldNetwork: NetworkPut, newNetwork: NetworkPut) returns (changed: bool, changedKeys: seq<string>)
    ensures changed <==> oldNetwork.description != newNetwork.description
                         || ConfigDiffers(oldNetwork.config, newNetwork.config)
    ensures NoDuplicates(changedKeys)
    ensures forall k :: k in changedKeys <==> KeyChanged(oldNetwork.config, newNetwork.config, k)
    ensures oldNetwork == newNetwork ==> !changed && changedKeys == []
  {
    var o, n := oldNetwork.config, newNetwork.config;
    changedKeys := [];
    changed := false;
    if newNetwork.description != oldNetwork.description {
      changed := true;
    }

    var todo := o.Keys;
    while todo != {}
      invariant todo <= o.Keys
      invariant NoDuplicates(changedKeys)
      invariant forall k :: k in changedKeys <==> k in o && k !in todo && KeyChanged(o, n, k)
      invariant changed <==> oldNetwork.description != newNetwork.description
                             || exists k :: k in o && k !in todo && Get(o, k) != Get(n, k)
      decreases todo
    {
      var k :| k in todo;
      if o[k] != Get(n, k) {
        changed := true;
        if !IsUserKey(k) && k !in changedKeys {
          changedKeys := changedKeys + [k];
        }
      }
      todo := todo - {k};
    }

    todo := n.Keys;
    while todo != {}
      invariant todo <= n.Keys
      invariant NoDuplicates(changedKeys)
      invariant forall k :: k in changedKeys <==> (k in o || (k in n && k !in todo)) && KeyChanged(o, n, k)
      invariant changed <==> oldNetwork.description != newNetwork.description
                             || exists k :: (k in o || (k in n && k !in todo)) && Get(o, k) != Get(n, k)
      decreases todo
    {
      var k :| k in todo;
      if n[k] != Get(o, k) {
        changed := true;
        if !IsUserKey(k) && k !in changedKeys {
          changedKeys := changedKeys + [k];
        }
      }
      todo := todo - {k};
    }

    assert changedKeys != [] ==> changedKeys[0] in changedKeys;
  }

  /** The config without its empty values: what Go's lookups can tell apart. */
  function NonEmpty(m: ConfigMap): (r: ConfigMap)
    ensures forall k :: Get(r, k) == Get(m, k)
    ensures forall k :: k in r ==> r[k] != ""
  {
    map k | k in m && m[k] != "" :: m[k]
  }

  /** Two configs show no difference exactly when they agree once empty
      values are dropped: a key set to "" counts as absent. */
  lemma {:induction false} NoDiffIffSameNonEmpty(a: ConfigMap, b: ConfigMap)
    ensures !ConfigDiffers(a, b) <==> NonEmpty(a) == NonEmpty(b)
  {
    var na, nb := NonEmpty(a), NonEmpty(b);
    if !ConfigDiffers(a, b) {
      forall k ensures k in na <==> k in nb {
        assert Get(a, k) == Get(b, k);
        assert Get(na, k) == Get(nb, k);
      }
      forall k | k in na ensures na[k] == nb[k] {
        assert Get(a, k) == Get(b, k);
        assert Get(na, k) == Get(nb, k);
      }
    } else {
      var k :| Get(a, k) != Get(b, k);
      assert Get(na, k) != Get(nb, k);
    }
  }

  /** A change confined to one user key is still a change, but lists no key. */
  lemma {:induction false} UserKeyChangeIsUnlisted(a: ConfigMap, b: ConfigMap, k: string)
    requires IsUserKey(k) && Get(a, k) != Get(b, k)
    requires forall j :: j != k ==> Get(a, j) == Get(b, j)
    ensures ConfigDiffers(a, b)
    ensures forall j :: !KeyChanged(a, b, j)
  {
  }
}
