/**
 * The startup-mode decision of the proxy's entry point: which bootstrap
 * initializer to build, and the configuration it is built from.
 */
module Bootstrap {
  import opened Wrappers
  import opened Config

  /** The persist configuration used when no rule of the persist kind is configured. */
  const DefaultPersistRuleConfiguration := DistMetaDataPersistRuleConfiguration("Local", true, map[])

  /** True when rule `i` is of the persist kind and none before it is. */
  predicate IsFirstPersistRule(rules: seq<RuleConfiguration>, i: nat)
  {
    && i < |rules|
    && rules[i].DistMetaDataPersist?
    && forall j | 0 <= j < i :: !rules[j].DistMetaDataPersist?
  }

  /** True when no rule of the list is of the persist kind. */
  predicate NoPersistRule(rules: seq<RuleConfiguration>)
  {
    forall j | 0 <= j < |rules| :: !rules[j].DistMetaDataPersist?
  }

  /**
   * The `filter(instanceof)` and `map(cast)` stages of the lookup: the
   * persist-kind rules, in list order.
   */
  function PersistRuleConfigurations(rules: seq<RuleConfiguration>): (r: seq<DistMetaDataPersistRuleConfiguration>)
    ensures |r| <= |rules|
    ensures forall c :: c in r <==> DistMetaDataPersist(c) in rules
  {
    if rules == [] then []
    else
      assert rules == [rules[0]] + rules[1..];
      if rules[0].DistMetaDataPersist? then [rules[0].persist] + PersistRuleConfigurations(rules[1..])
      else PersistRuleConfigurations(rules[1..])
  }

  /**
   * The `findFirst().orElse(...)` stages of the lookup: the first persist-kind
   * rule, or the local default when there is none. Never absent.
   */
  function FirstPersistOrDefault(rules: seq<RuleConfiguration>): (r: DistMetaDataPersistRuleConfiguration)
    ensures r == DefaultPersistRuleConfiguration || DistMetaDataPersist(r) in rules
    ensures NoPersistRule(rules) ==> r == DefaultPersistRuleConfiguration
  {
    var found := PersistRuleConfigurations(rules);
    if |found| > 0 then found[0] else DefaultPersistRuleConfiguration
  }

  /**
   * Resolves the persist configuration of a loaded configuration: the first
   * persist-kind rule of the swapped rule list, or the local default when
   * that list holds none.
   */
  function FindDistMetaDataPersistRuleConfiguration(yamlConfig: YamlProxyConfiguration, swappers: Swappers)
    : (r: DistMetaDataPersistRuleConfiguration)
    ensures var swapped := swappers.rules(yamlConfig.serverConfiguration.rules);
      forall i: nat :: IsFirstPersistRule(swapped, i) ==> r == swapped[i].persist
    ensures var swapped := swappers.rules(yamlConfig.serverConfiguration.rules);
      NoPersistRule(swapped) ==> r == DefaultPersistRuleConfiguration
  {
    var swapped := swappers.rules(yamlConfig.serverConfiguration.rules);
    assert forall i: nat :: IsFirstPersistRule(swapped, i) ==> FirstPersistOrDefault(swapped) == swapped[i].persist by {
      forall i: nat | IsFirstPersistRule(swapped, i) ensures FirstPersistOrDefault(swapped) == swapped[i].persist {
        FirstPersistWins(swapped, i);
      }
    }
    FirstPersistOrDefault(swapped)
  }

  /**
   * Converts the governance section with the governance swapper, passing the
   * section unchanged and returning the swapper's outcome as it is. Only
   * called when the section is present.
   */
  function FindGovernanceConfiguration(yamlConfig: YamlProxyConfiguration, swappers: Swappers)
    : (r: Result<GovernanceConfiguration, ConfigurationError>)
    requires yamlConfig.serverConfiguration.governance.Some?
    ensures r == swappers.governance(yamlConfig.serverConfiguration.governance.value)
  {
    swappers.governance(yamlConfig.serverConfiguration.governance.value)
  }

  /**
   * Builds the bootstrap initializer: the standard variant over a repository
   * for the resolved persist configuration when there is no governance
   * section, the governance variant over a governance rule otherwise. A
   * failure of the governance swapper propagates unchanged.
   */
  function CreateBootstrapInitializer(yamlConfig: YamlProxyConfiguration, swappers: Swappers)
    : (r: Result<BootstrapInitializer, ConfigurationError>)
    ensures yamlConfig.serverConfiguration.governance.None? ==>
      && r.Success?
      && r.value.StandardBootstrapInitializer?
      && r.value.repository.config == FirstPersistOrDefault(swappers.rules(yamlConfig.serverConfiguration.rules))
    ensures yamlConfig.serverConfiguration.governance.Some? ==>
      var converted := swappers.governance(yamlConfig.serverConfiguration.governance.value);
      && (r.Success? <==> converted.Success?)
      && (r.Success? ==> r.value.GovernanceBootstrapInitializer? && r.value.rule.config == converted.value)
      && (r.Failure? ==> r.error == converted.error)
  {
    if yamlConfig.serverConfiguration.governance.None? then
      Success(StandardBootstrapInitializer(
        DistMetaDataPersistRepository(FindDistMetaDataPersistRuleConfiguration(yamlConfig, swappers))))
    else
      match FindGovernanceConfiguration(yamlConfig, swappers)
      case Success(governanceConfig) => Success(GovernanceBootstrapInitializer(GovernanceRule(governanceConfig)))
      case Failure(e) => Failure(e)
  }

  // ---------------------------------------------------------------------------
  // Properties of the persist-rule lookup
  // ---------------------------------------------------------------------------

  /** Filtering distributes over concatenation and keeps the order of both parts. */
  lemma {:induction false} PersistRuleConfigurationsAppend(a: seq<RuleConfiguration>, b: seq<RuleConfiguration>)
    ensures PersistRuleConfigurations(a + b) == PersistRuleConfigurations(a) + PersistRuleConfigurations(b)
  {
    if a != [] {
      assert (a + b)[1..] == a[1..] + b;
      PersistRuleConfigurationsAppend(a[1..], b);
    } else {
      assert a + b == b;
    }
  }

  /** The filtered list starts with the first persist-kind rule. */
  lemma {:induction false} PersistRuleConfigurationsStartAtFirst(rules: seq<RuleConfiguration>, i: nat)
    requires IsFirstPersistRule(rules, i)
    ensures |PersistRuleConfigurations(rules)| > 0
    ensures PersistRuleConfigurations(rules)[0] == rules[i].persist
  {
    if i > 0 {
      assert !rules[0].DistMetaDataPersist?;
      assert IsFirstPersistRule(rules[1..], i - 1);
      PersistRuleConfigurationsStartAtFirst(rules[1..], i - 1);
    }
  }

  /** The filtered list is empty exactly when no rule is of the persist kind. */
  lemma {:induction false} PersistRuleConfigurationsEmpty(rules: seq<RuleConfiguration>)
    ensures PersistRuleConfigurations(rules) == [] <==> NoPersistRule(rules)
  {
    if rules != [] {
      PersistRuleConfigurationsEmpty(rules[1..]);
      assert NoPersistRule(rules) <==> !rules[0].DistMetaDataPersist? && NoPersistRule(rules[1..]) by {
        if NoPersistRule(rules) {
          forall j | 0 <= j < |rules[1..]| ensures !rules[1..][j].DistMetaDataPersist? {
            assert rules[1..][j] == rules[j + 1];
          }
        }
        if !rules[0].DistMetaDataPersist? && NoPersistRule(rules[1..]) {
          forall j | 0 <= j < |rules| ensures !rules[j].DistMetaDataPersist? {
            if j > 0 { assert rules[j] == rules[1..][j - 1]; }
          }
        }
      }
    }
  }

  /** With a persist-kind rule at index `i` and none before it, the lookup returns rule `i`. */
  lemma FirstPersistWins(rules: seq<RuleConfiguration>, i: nat)
    requires IsFirstPersistRule(rules, i)
    ensures FirstPersistOrDefault(rules) == rules[i].persist
  {
    PersistRuleConfigurationsStartAtFirst(rules, i);
  }

  /**
   * Whenever the list holds a persist-kind rule, the lookup returns the one at
   * the smallest such index (the default is then never synthesized).
   */
  lemma SomePersistIsFound(rules: seq<RuleConfiguration>)
    ensures !NoPersistRule(rules) ==>
      exists i: nat :: IsFirstPersistRule(rules, i) && FirstPersistOrDefault(rules) == rules[i].persist
  {
    if !NoPersistRule(rules) {
      var k :| 0 <= k < |rules| && rules[k].DistMetaDataPersist?;
      var i := FirstPersistIndexUpTo(rules, k);
      FirstPersistWins(rules, i);
    }
  }

  /** The index of the first persist-kind rule, given one at index `k`. */
  lemma {:induction false} FirstPersistIndexUpTo(rules: seq<RuleConfiguration>, k: nat) returns (i: nat)
    requires k < |rules| && rules[k].DistMetaDataPersist?
    ensures i <= k && IsFirstPersistRule(rules, i)
  {
    if k == 0 || NoPersistRule(rules[..k]) {
      i := k;
      forall j | 0 <= j < k ensures !rules[j].DistMetaDataPersist? {
        assert rules[..k][j] == rules[j];
      }
    } else {
      var k' :| 0 <= k' < k && rules[..k][k'].DistMetaDataPersist?;
      i := FirstPersistIndexUpTo(rules, k');
    }
  }

  /**
   * Rules after a persist-kind rule never change the lookup: appending any
   * rules to a list that already holds one leaves the result unchanged.
   */
  lemma LaterRulesIgnored(rules: seq<RuleConfiguration>, extra: seq<RuleConfiguration>)
    requires !NoPersistRule(rules)
    ensures FirstPersistOrDefault(rules + extra) == FirstPersistOrDefault(rules)
  {
    PersistRuleConfigurationsAppend(rules, extra);
    PersistRuleConfigurationsEmpty(rules);
  }

  /** Appending rules to a list with no persist-kind rule makes the lookup that of the appended rules. */
  lemma EarlierNonPersistRulesIgnored(rules: seq<RuleConfiguration>, extra: seq<RuleConfiguration>)
    requires NoPersistRule(rules)
    ensures FirstPersistOrDefault(rules + extra) == FirstPersistOrDefault(extra)
  {
    PersistRuleConfigurationsAppend(rules, extra);
    PersistRuleConfigurationsEmpty(rules);
  }

  // ---------------------------------------------------------------------------
  // Properties of the initializer selection
  // ---------------------------------------------------------------------------

  /**
   * The variant depends on governance presence alone: two successful
   * selections over configurations that agree on presence pick the same
   * variant, whatever their rule lists and swappers.
   */
  lemma VariantDependsOnlyOnGovernancePresence(
    config1: YamlProxyConfiguration, swappers1: Swappers,
    config2: YamlProxyConfiguration, swappers2: Swappers)
    requires config1.serverConfiguration.governance.Some? == config2.serverConfiguration.governance.Some?
    requires CreateBootstrapInitializer(config1, swappers1).Success?
    requires CreateBootstrapInitializer(config2, swappers2).Success?
    ensures CreateBootstrapInitializer(config1, swappers1).value.StandardBootstrapInitializer?
         == CreateBootstrapInitializer(config2, swappers2).value.StandardBootstrapInitializer?
  {
  }

  /**
   * On the governance path the rule list and the rule swapper play no part:
   * the persist lookup is not consulted.
   */
  lemma GovernancePathIgnoresRules(
    config1: YamlProxyConfiguration, swappers1: Swappers,
    config2: YamlProxyConfiguration, swappers2: Swappers)
    requires config1.serverConfiguration.governance.Some?
    requires config2.serverConfiguration.governance == config1.serverConfiguration.governance
    requires swappers1.governance(config1.serverConfiguration.governance.value)
          == swappers2.governance(config1.serverConfiguration.governance.value)
    ensures CreateBootstrapInitializer(config1, swappers1) == CreateBootstrapInitializer(config2, swappers2)
  {
  }

  /**
   * On the standard path the governance swapper is never called. Any failure
   * of the repository factory is not modelled, so the standard path cannot
   * fail in the model.
   */
  lemma StandardPathIgnoresGovernanceSwapper(config: YamlProxyConfiguration, swappers1: Swappers, swappers2: Swappers)
    requires config.serverConfiguration.governance.None?
    requires swappers1.rules(config.serverConfiguration.rules) == swappers2.rules(config.serverConfiguration.rules)
    ensures CreateBootstrapInitializer(config, swappers1) == CreateBootstrapInitializer(config, swappers2)
    ensures CreateBootstrapInitializer(config, swappers1).Success?
  {
  }
}
