/** The options `Bot` reads from its `BotConfig`.  Intents and partials only
    configure the gateway connection and are not part of this model. */
module Configuration {
  import opened Wrappers
  import opened CommandTypes

  datatype BotConfig = BotConfig(
    token: string,
    appId: Snowflake,
    commandsFolder: Option<string>,
    eventsFolder: Option<string>,
    componentHandlersFolder: Option<string>,
    debugGuildId: Option<Snowflake>)

  /** JavaScript truthiness of an optional string: present and non-empty. */
  predicate Truthy(o: Option<string>)
  {
    o.Some? && o.value != ""
  }
}
