/** The registration round, `registerCommands` (src/client/Bot.ts:156-177):
    the choice of route, the request body, and what a successful round leaves
    behind.  The REST call itself is not modelled: its outcome is an input. */
module Registration {
  import opened Wrappers
  import opened CommandTypes
  import opened CommandIndex
  import opened Reconciliation
  import opened Configuration

  /** The two `Routes` the round can address: one guild of the application
      (development) or the application globally (production). */
  datatype Route =
    | ApplicationGuildCommands(appId: Snowflake, guildId: Snowflake)
    | ApplicationCommands(appId: Snowflake)

  /** What the bulk `put` produced: an error, or the registry's records. */
  datatype PutOutcome = Rejected(error: string) | Responded(records: seq<RemoteCommand>)

  /** The route is guild-scoped exactly when `debugGuildId` is truthy, and
      always belongs to the configured application. */
  function ChooseRoute(cfg: BotConfig): (r: Route)
    ensures r.ApplicationGuildCommands? <==> Truthy(cfg.debugGuildId)
    ensures r.appId == cfg.appId
    ensures r.ApplicationGuildCommands? ==> Some(r.guildId) == cfg.debugGuildId
  {
    match cfg.debugGuildId
    case Some(g) => if g != "" then ApplicationGuildCommands(cfg.appId, g) else ApplicationCommands(cfg.appId)
    case None => ApplicationCommands(cfg.appId)
  }

  /** `this.commands.map(command => command.builder.toJSON())`: one
      serialised entry per command, in index order. */
  function RequestBody(e: seq<Entry>): (b: seq<CommandJson>)
    ensures |b| == |e|
    ensures forall i :: 0 <= i < |e| ==> b[i] == ToJson(e[i].1.builder)
  {
    if |e| == 0 then []
    else RequestBody(e[..|e| - 1]) + [ToJson(e[|e| - 1].1.builder)]
  }

  /** On an index keyed by builder name, the body carries the index's names
      in index order, once each. */
  lemma BodyNamesAreKeys(e: seq<Entry>)
    requires UniqueKeys(e) && KeyedByName(e)
    ensures forall i :: 0 <= i < |e| ==> RequestBody(e)[i].name == e[i].0
    ensures forall i, j :: 0 <= i < j < |e| ==> RequestBody(e)[i].name != RequestBody(e)[j].name
  {
  }

  /** Reconciliation only touches ids, which are not serialised: the next
      round sends the same body. */
  lemma ReconcileKeepsBody(e: seq<Entry>, resp: seq<RemoteCommand>)
    ensures RequestBody(ReconcileAll(e, resp)) == RequestBody(e)
  {
    ReconcileOnlyIds(e, resp);
  }
}
