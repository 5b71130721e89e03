/**
 * The configuration values that the proxy's bootstrap consumes and produces.
 * They are defined elsewhere in the proxy (the YAML loader, the rule and
 * governance swappers, the persist-repository factory); only the parts the
 * startup-mode decision looks at are spelled out here.
 */
module Config {
  import opened Wrappers

  /** One generic rule node of the `rules` list, as parsed from YAML. */
  datatype YamlRuleConfiguration = YamlRuleConfiguration(tag: string, properties: map<string, string>)

  /** The raw `governance` section, as parsed from YAML. */
  datatype YamlGovernanceConfiguration = YamlGovernanceConfiguration(properties: map<string, string>)

  /** The server configuration: the ordered rule nodes and the optional governance section. */
  datatype YamlProxyServerConfiguration = YamlProxyServerConfiguration(
    rules: seq<YamlRuleConfiguration>,
    governance: Option<YamlGovernanceConfiguration>)

  /** The whole loaded proxy configuration. */
  datatype YamlProxyConfiguration = YamlProxyConfiguration(serverConfiguration: YamlProxyServerConfiguration)

  /** The metadata-persist rule: backend type name, overwrite flag and free-form properties. */
  datatype DistMetaDataPersistRuleConfiguration = DistMetaDataPersistRuleConfiguration(
    repositoryType: string,
    overwrite: bool,
    props: map<string, string>)

  /**
   * A typed rule configuration. Only the metadata-persist kind is told apart;
   * every other kind (sharding, encryption, ...) is known by its name alone.
   */
  datatype RuleConfiguration =
    | DistMetaDataPersist(persist: DistMetaDataPersistRuleConfiguration)
    | OtherRule(kind: string)

  /** The typed governance configuration produced from the raw section. */
  datatype GovernanceConfiguration = GovernanceConfiguration(settings: map<string, string>)

  /** Why converting the raw governance section failed. */
  datatype ConfigurationError = ConfigurationError(message: string)

  /**
   * The two YAML swappers the bootstrap calls. The rule swapper turns the rule
   * nodes into an ordered list of typed rule configurations; the lookup is
   * about the order of that list, and whether it follows the YAML order is up
   * to the swapper. The governance swapper converts the raw section and may
   * fail on a malformed one.
   */
  datatype Swappers = Swappers(
    rules: seq<YamlRuleConfiguration> -> seq<RuleConfiguration>,
    governance: YamlGovernanceConfiguration -> Result<GovernanceConfiguration, ConfigurationError>)

  /** The repository built by the persist-repository factory, tagged with the configuration it was built from. */
  datatype DistMetaDataPersistRepository = DistMetaDataPersistRepository(config: DistMetaDataPersistRuleConfiguration)

  /** The governance rule, tagged with the configuration it wraps. */
  datatype GovernanceRule = GovernanceRule(config: GovernanceConfiguration)

  /** The two startup variants. */
  datatype BootstrapInitializer =
    | StandardBootstrapInitializer(repository: DistMetaDataPersistRepository)
    | GovernanceBootstrapInitializer(rule: GovernanceRule)
}
