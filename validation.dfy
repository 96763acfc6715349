/** Config validation of a network (`common.validationRules` and `common.validate`):
    the driver's rules are merged over the common ones, every rule is run on
    its key's value (absent reads as ""), and any key that no rule covers and
    that is not a `user.` key is rejected. */
module Validation {
  import opened NetworkTypes

  /** A field validator: true when it accepts the value (a nil error in Go). */
  type Validator = string -> bool

  type Rules = map<string, Validator>

  /** `validationRules`: the rules common to all drivers; the base defines none. */
  function CommonRules(): (rules: Rules)
    ensures forall k :: k !in rules
  {
    map[]
  }

  /** Merging driver rules over the common ones yields the driver rules: the
      base adds no rule of its own, so a driver decides every check. */
  lemma CommonRulesNeutral(driverRules: Rules)
    ensures CommonRules() + driverRules == driverRules
  {
  }

  /** Every rule accepts the value of its key, an absent key reading as "". */
  ghost predicate RulesAccept(config: ConfigMap, rules: Rules) {
    forall k :: k in rules ==> rules[k](Get(config, k))
  }

  /** Every config key is covered by a rule or is a user key. */
  ghost predicate KeysKnown(config: ConfigMap, rules: Rules) {
    forall k :: k in config ==> k in rules || IsUserKey(k)
  }

  ghost predicate ConfigValid(config: ConfigMap, rules: Rules) {
    RulesAccept(config, rules) && KeysKnown(config, rules)
  }

  /** The loop that copies the driver rules over the common ones. */
  method MergeRules(common: Rules, driverRules: Rules) returns (rules: Rules)
    ensures rules.Keys == common.Keys + driverRules.Keys
    ensures forall k :: k in driverRules ==> rules[k] == driverRules[k]
    ensures forall k :: k in common && k !in driverRules ==> rules[k] == common[k]
  {
    rules := common;
    var todo := driverRules.Keys;
    while todo != {}
      invariant todo <= driverRules.Keys
      invariant rules.Keys == common.Keys + (driverRules.Keys - todo)
      invariant forall k :: k in driverRules && k !in todo ==> rules[k] == driverRules[k]
      invariant forall k :: k in common && (k !in driverRules || k in todo) ==> rules[k] == common[k]
      decreases todo
    {
      var field :| field in todo;
      rules := rules[field := driverRules[field]];
      todo := todo - {field};
    }
  }

  /** `validate(config, driverRules)` of the network named `network`.  Go's
      map iteration order is unspecified, so which failing key is reported is
      left open; a rule failure always wins over an unknown key. */
  method Validate(network: string, config: ConfigMap, driverRules: Rules) returns (result: Outcome)
    ensures result.Pass? <==> ConfigValid(config, CommonRules() + driverRules)
    ensures result.Fail? ==> result.error.InvalidValue? || result.error.InvalidOption?
    ensures result.Fail? ==> result.error.network == network
    ensures result.Fail? && result.error.InvalidValue? ==>
              var rules, k := CommonRules() + driverRules, result.error.key;
              k in rules && !rules[k](Get(config, k))
    ensures result.Fail? && result.error.InvalidOption? ==>
              var rules, k := CommonRules() + driverRules, result.error.key;
              RulesAccept(config, rules) && k in config && k !in rules && !IsUserKey(k)
  {
    var checkedFields: set<string> := {};
    var rules := MergeRules(CommonRules(), driverRules);
    assert rules == CommonRules() + driverRules;

    // Every rule is applied to its key's value; the first rejection is the error.
    var todo := rules.Keys;
    while todo != {}
      invariant todo <= rules.Keys
      invariant forall k :: k in checkedFields <==> k in rules && k !in todo
      invariant forall k :: k in rules && k !in todo ==> rules[k](Get(config, k))
      decreases todo
    {
      var k :| k in todo;
      checkedFields := checkedFields + {k};
      if !rules[k](Get(config, k)) {
        return Fail(InvalidValue(network, k));
      }
      todo := todo - {k};
    }

    // Any field no rule checked is unknown, unless it is a user key.
    var rest := config.Keys;
    while rest != {}
      invariant rest <= config.Keys
      invariant forall k :: k in config && k !in rest ==> k in checkedFields || IsUserKey(k)
      decreases rest
    {
      var k :| k in rest;
      rest := rest - {k};
      if k in checkedFields {
        continue;
      }
      if IsUserKey(k) {
        continue;
      }
      return Fail(InvalidOption(network, k));
    }
    return Pass;
  }

  /** Adding or changing a user key never changes whether a config is valid
      under rules that do not mention it. */
  lemma {:induction false} UserKeysNeverValidated(config: ConfigMap, rules: Rules, k: string, v: string)
    requires IsUserKey(k) && k !in rules
    ensures ConfigValid(config[k := v], rules) <==> ConfigValid(config, rules)
  {
  }
}
