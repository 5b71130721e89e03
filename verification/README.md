# Proxy bootstrap: startup-mode selection

A Dafny model of the decision the ShardingSphere proxy makes at startup, in
`Bootstrap.createBootstrapInitializer`: with no `governance` section in the
server configuration the proxy runs standalone, with a
`StandardBootstrapInitializer` over a metadata-persist repository; with one it
runs cluster-coordinated, with a `GovernanceBootstrapInitializer` over a
`GovernanceRule`. The persist repository is built from the first
`DistMetaDataPersistRuleConfiguration` in the rule list, or from the default
`("Local", true, {})` when there is none.

Files:

- `wrappers.dfy` — `Option` (a Java reference that may be null) and `Result`
  (a call that may throw).
- `config.dfy` — the configuration values: the loaded YAML configuration, the
  typed rule configurations (persist kind or any other kind), the governance
  configuration, the two YAML swappers as function values, and the repository,
  governance rule and the two initializer variants, each a value tagged with
  the argument it was constructed from.
- `bootstrap.dfy` — the lookup (`PersistRuleConfigurations`,
  `FirstPersistOrDefault`, `FindDistMetaDataPersistRuleConfiguration`), the
  governance conversion (`FindGovernanceConfiguration`), the selection
  (`CreateBootstrapInitializer`) and the lemmas about them.

The Java stream `filter(instanceof).map(cast).findFirst().orElse(default)` is
modelled stage by stage: `PersistRuleConfigurations` is the filter and cast,
`FirstPersistOrDefault` takes its head or the default.

## Model

| member | source | states |
|---|---|---|
| `Bootstrap.FindDistMetaDataPersistRuleConfiguration` | shardingsphere-proxy/shardingsphere-proxy-bootstrap/src/main/java/org/apache/shardingsphere/proxy/Bootstrap.java:69-73 | Over the list the rule swapper makes of the configuration's rule nodes, the result is the persist rule at the first persist-kind index, and the default `("Local", true, {})` when no rule of that list is of the persist kind |
| `Bootstrap.FindGovernanceConfiguration` | shardingsphere-proxy/shardingsphere-proxy-bootstrap/src/main/java/org/apache/shardingsphere/proxy/Bootstrap.java:75-77 | A pass-through: the governance section goes to the governance swapper unchanged, and the swapper's outcome, success or failure, is returned as it is |
| `Bootstrap.CreateBootstrapInitializer` | shardingsphere-proxy/shardingsphere-proxy-bootstrap/src/main/java/org/apache/shardingsphere/proxy/Bootstrap.java:60-77 | Without a governance section the result is always the standard variant over a repository built from the first persist rule of the swapped rule list (or the default); with one, the result is the governance variant over a governance rule wrapping exactly the governance swapper's output for the unchanged section, and it fails exactly when that swapper fails, with the same error |
| `Bootstrap.PersistRuleConfigurations` | shardingsphere-proxy/shardingsphere-proxy-bootstrap/src/main/java/org/apache/shardingsphere/proxy/Bootstrap.java:71-72 | The filter-and-cast stage keeps exactly the persist-kind rules: a persist configuration is in the output if and only if it occurs as a rule in the input, and the output is no longer than the input |
| `Bootstrap.FirstPersistOrDefault` | shardingsphere-proxy/shardingsphere-proxy-bootstrap/src/main/java/org/apache/shardingsphere/proxy/Bootstrap.java:71-72 | The lookup is total: its result is either a persist rule of the list or the default `("Local", true, {})`, and with no persist-kind rule (the empty list included) it is the default |
| `Bootstrap.PersistRuleConfigurationsAppend` | shardingsphere-proxy/shardingsphere-proxy-bootstrap/src/main/java/org/apache/shardingsphere/proxy/Bootstrap.java:71 | Filtering a concatenation is the concatenation of the filtered parts, so rule order is kept |
| `Bootstrap.PersistRuleConfigurationsStartAtFirst` | shardingsphere-proxy/shardingsphere-proxy-bootstrap/src/main/java/org/apache/shardingsphere/proxy/Bootstrap.java:71-72 | When rule `i` is the first persist-kind rule, the filtered list is non-empty and starts with it |
| `Bootstrap.PersistRuleConfigurationsEmpty` | shardingsphere-proxy/shardingsphere-proxy-bootstrap/src/main/java/org/apache/shardingsphere/proxy/Bootstrap.java:71-72 | The filtered list is empty if and only if no rule is of the persist kind, so `orElse` supplies the default exactly then |
| `Bootstrap.FirstPersistWins` | shardingsphere-proxy/shardingsphere-proxy-bootstrap/src/main/java/org/apache/shardingsphere/proxy/Bootstrap.java:71-72 | When rule `i` is of the persist kind and no rule before it is, the lookup returns rule `i`'s configuration |
| `Bootstrap.SomePersistIsFound` | shardingsphere-proxy/shardingsphere-proxy-bootstrap/src/main/java/org/apache/shardingsphere/proxy/Bootstrap.java:71-72 | Whenever some rule is of the persist kind, there is a smallest such index, every rule before it is of another kind, and the lookup returns that rule's configuration |
| `Bootstrap.FirstPersistIndexUpTo` | shardingsphere-proxy/shardingsphere-proxy-bootstrap/src/main/java/org/apache/shardingsphere/proxy/Bootstrap.java:72 | `findFirst` is well defined: a persist-kind rule at index `k` implies a first persist-kind rule at some index no greater than `k` |
| `Bootstrap.LaterRulesIgnored` | shardingsphere-proxy/shardingsphere-proxy-bootstrap/src/main/java/org/apache/shardingsphere/proxy/Bootstrap.java:71-72 | Appending any rules, persist kind included, to a list that already holds a persist-kind rule leaves the lookup's result unchanged |
| `Bootstrap.EarlierNonPersistRulesIgnored` | shardingsphere-proxy/shardingsphere-proxy-bootstrap/src/main/java/org/apache/shardingsphere/proxy/Bootstrap.java:71-72 | Rules of other kinds in front of the list never change the lookup: with no persist-kind rule in the prefix, the result is that of the suffix |
| `Bootstrap.VariantDependsOnlyOnGovernancePresence` | shardingsphere-proxy/shardingsphere-proxy-bootstrap/src/main/java/org/apache/shardingsphere/proxy/Bootstrap.java:61 | Two successful selections over configurations that agree on governance presence choose the same variant, whatever their rule lists and swappers |
| `Bootstrap.GovernancePathIgnoresRules` | shardingsphere-proxy/shardingsphere-proxy-bootstrap/src/main/java/org/apache/shardingsphere/proxy/Bootstrap.java:61-66 | With the same governance section and the same swapper output for it, the selection result is the same whatever the rule lists and rule swappers: the persist lookup is not consulted on this path |
| `Bootstrap.StandardPathIgnoresGovernanceSwapper` | shardingsphere-proxy/shardingsphere-proxy-bootstrap/src/main/java/org/apache/shardingsphere/proxy/Bootstrap.java:61-62 | Without a governance section the selection never fails and does not depend on the governance swapper |

## Left out

- `main` (argument parsing, loading the YAML file, and `init(config, port)`, which starts the server): process and network I/O.
- The rule swapper engine and the governance swapper: their code is not part of this model. They are function values passed in (`Swappers`); the rule swapper is total, and the lookup lemmas are about the order of the swapped list, so whether that follows the YAML order is up to the swapper and is not modelled; the governance swapper may fail with a `ConfigurationError` whose causes are not modelled.
- The persist-repository factory, `GovernanceRule` and the two initializer constructors: foreign constructors, modelled as values tagged with their argument. Any failure of the repository factory is not modelled, so the standard path cannot fail in the model.
- The internal fields of the YAML rule nodes, the governance section and `GovernanceConfiguration`: only what the decision reads is kept.
- `IOException` and `SQLException` propagation from startup, and the planned provider lookup for the governance rule, which has no code yet.
- Subclasses of the persist rule configuration: `instanceof` also accepts them in Java; the model has a single persist kind.
- Idempotence of the lookup is not stated separately: every Dafny function returns equal results on equal arguments.
