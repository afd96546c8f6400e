# Bot registration and dispatch, modelled in Dafny

This project models the bookkeeping core of the `Bot` client of a Discord
bot template (src/client/Bot.ts): how handler modules found on disk are
indexed, how component ids are routed to handlers, how event handlers are
registered, and how a registration round sends the commands to Discord's
registry and copies the ids it assigns back onto the local command records.
It also models the one concrete component-id pattern of the repository,
`/^example_.+$/` (src/component_handlers/ExampleComponentHandler.ts).

Modules, one per component:

- `CommandTypes` (command.dfy): the command record of src/interfaces/Command.ts,
  with handler callables as opaque references and the builder reduced to its
  name and the `type` its JSON carries.
- `Discovery` (discovery.dfy): what a folder scan yields (a failed scan, or per
  file a loaded module or the error it threw) and the log lines the bot writes.
- `CommandIndex` (command_index.dfy): the command `Collection` as its entries in
  insertion order; `Set` is JS `Map.prototype.set` (an existing key keeps its
  place), `Get` is `Map.prototype.get`, `LoadAll` is the `loadCommands` loop.
- `ComponentRouter` (component_router.dfy): the (pattern, handler) list and
  first-match lookup; a pattern is an opaque `string -> bool`.
- `ExampleComponentHandler` (example_component_handler.dfy): the example
  pattern as a predicate on ids, plus a character-by-character evaluation of
  it proved to accept the same ids.
- `Reconciliation` (reconciliation.dfy): `assignCommandIds` as functions over
  the index.
- `Configuration`, `Registration` (configuration.dfy, registration.dfy): the
  options read, the route choice, the request body.
- `Client` (bot.dfy): the class `Bot`, whose methods update the index, router,
  listener list and log in place and are proved against the functions above.

Inputs that stand for I/O: each folder's scan (`glob.sync` plus `require`) is
a `Scan` parameter of the constructor; the outcome of the REST `put` is a
`PutOutcome` parameter of `RegisterCommands`, which returns the route and body
it would send. The logger is the ghost field `log`; the client's event-emitter
registrations are the ghost field `listeners`.

Two details follow the code exactly: the registration round logs the number
of commands it *sent* (`commandsJSON.length`), and the component-handler
loader logs the router's size only when its scan succeeded.

## Model

| member | source | states |
|---|---|---|
| `CommandTypes.PermissionFromCode` | src/interfaces/Command.ts:28-31 | only the codes 1 (ROLE) and 2 (USER) name a permission type |
| `CommandTypes.PermissionCodeRoundTrip` | src/interfaces/Command.ts:28-31 | each permission type's code decodes back to that type |
| `Discovery.LoadSplit` | src/client/Bot.ts:40-48 | loading N files of which M throw yields N - M modules and exactly M error lines of the phase |
| `Discovery.LoadedModulesMembers` | src/client/Bot.ts:74-83 | a module is among those loaded exactly when some file loaded it |
| `CommandIndex.Find` | src/client/Bot.ts:92-96 | the position found holds the key and no earlier position does; none exactly when the key is absent |
| `CommandIndex.GetUnique` | src/client/Bot.ts:92-96 | with unique keys, lookup returns the record filed under the name |
| `CommandIndex.Set` | src/client/Bot.ts:43 | `set` adds the key to the key set, keeps length for an existing key and appends otherwise, and leaves other entries in place |
| `CommandIndex.SetGet` | src/client/Bot.ts:43 | after `set`, keys stay unique, the key maps to the new record and every other key to its old one |
| `CommandIndex.SetKeyedByName` | src/client/Bot.ts:43 | filing a record under its builder name keeps every entry keyed by its builder name |
| `CommandIndex.LastLoaded` | src/client/Bot.ts:40-43 | the reference answer: the last loaded module with that builder name |
| `CommandIndex.LoadAllValid` | src/client/Bot.ts:14-15 | loading keeps one entry per name, each filed under its builder name |
| `CommandIndex.LoadAllGet` | src/client/Bot.ts:40-43 | after loading, `get(n)` is the last loaded module named n, or the earlier entry if no module used n (later wins) |
| `CommandIndex.LoadAllKeys` | src/client/Bot.ts:40-43 | the loaded index's names are the earlier names plus the names of the modules that loaded |
| `CommandIndex.KeysCard` | src/client/Bot.ts:14-15 | an index with unique keys has as many entries as names |
| `CommandIndex.LoadAllSize` | src/client/Bot.ts:40-43 | the loaded index holds exactly one entry per distinct name |
| `ComponentRouter.FirstMatchIndex` | src/client/Bot.ts:101-107 | the position returned is the earliest whose pattern accepts the id; none exactly when no pattern does |
| `ComponentRouter.EarlierPatternWins` | src/client/Bot.ts:101-106 | if patterns at i < j both accept the id, the match is at i or before, never j |
| `ComponentRouter.FirstMatchUnique` | src/client/Bot.ts:101-106 | the earliest accepting position is the one lookup returns |
| `ComponentRouter.AppendKeepsRoute` | src/client/Bot.ts:77 | handlers registered later never change the route of an id an earlier pattern accepts |
| `ComponentRouter.AppendRoutesToLater` | src/client/Bot.ts:77 | an id no earlier pattern accepts is routed by the later ones, in their order |
| `ExampleComponentHandler.AcceptsExactly` | src/component_handlers/ExampleComponentHandler.ts:11 | `"example_" + t` is accepted exactly when t is non-empty and has no line terminator |
| `ExampleComponentHandler.RejectsWithoutPrefix` | src/component_handlers/ExampleComponentHandler.ts:11 | an id not starting with `"example_"` at position 0 is rejected |
| `ExampleComponentHandler.RejectsBarePrefix` | src/component_handlers/ExampleComponentHandler.ts:11 | `"example_"` alone is rejected |
| `ExampleComponentHandler.RejectsOtherIds` | src/component_handlers/ExampleComponentHandler.ts:11 | `"other_id"` and `"xexample_a"` are rejected |
| `ExampleComponentHandler.RejectsLineTerminator` | src/component_handlers/ExampleComponentHandler.ts:11 | a line terminator after the prefix makes the id rejected |
| `ExampleComponentHandler.AcceptsAcknowledgeButton` | src/commands/ExampleContextMenuCommand.ts:26 | the button id `"example_ACKNOWLEDGE"` is accepted |
| `ExampleComponentHandler.AcknowledgeButtonRoutes` | src/component_handlers/ExampleComponentHandler.ts:11 | with this handler registered first, the button id routes to it |
| `ExampleComponentHandler.OtherIdFindsNoHandler` | src/component_handlers/ExampleComponentHandler.ts:11 | with only this pattern registered, `"other_id"` finds no handler |
| `ExampleComponentHandler.RunTail` | src/component_handlers/ExampleComponentHandler.ts:11 | after the prefix, `.+$` keeps matching exactly while no line terminator is read |
| `ExampleComponentHandler.RunPrefix` | src/component_handlers/ExampleComponentHandler.ts:11 | the scan from the k-th prefix character accepts exactly the rest of the literal and a non-empty terminator-free tail |
| `ExampleComponentHandler.TestMatches` | src/component_handlers/ExampleComponentHandler.ts:11 | the character-by-character test and the pattern's language agree on every id |
| `Reconciliation.FindMatch` | src/client/Bot.ts:139-145 | the match is the first command whose JSON (name, type) equals the record's; none exactly when no command's does |
| `Reconciliation.AssignOne` | src/client/Bot.ts:146-147 | one record never adds or removes commands |
| `Reconciliation.ReconcileAll` | src/client/Bot.ts:138-153 | processing a response keeps the number of commands |
| `Reconciliation.FindMatchIgnoresIds` | src/client/Bot.ts:139-145 | matching does not depend on ids, so earlier assignments never change later matches |
| `Reconciliation.ReconcileOnlyIds` | src/client/Bot.ts:138-147 | only `id` fields change: no command is added, removed, moved or otherwise altered |
| `Reconciliation.ReconcileId` | src/client/Bot.ts:138-147 | each command ends with the id of the last record matched to it, or keeps its previous id if none matched |
| `Reconciliation.LastAssignedIgnoresIds` | src/client/Bot.ts:139-147 | which record assigns a command's id does not depend on ids already present |
| `Reconciliation.ReconcileIdempotent` | src/client/Bot.ts:138-153 | processing the same response twice leaves the index as processing it once |
| `Reconciliation.UnmatchedWarnings` | src/client/Bot.ts:148-152 | exactly one warning per record that matches no command, and only warnings |
| `Reconciliation.ReconcileKeepsIndex` | src/client/Bot.ts:146-147 | reconciliation keeps the key set, unique keys and keying by builder name |
| `Reconciliation.PingScenario` | src/client/Bot.ts:135-154 | local "ping" (type 1) and response [123 ping, 999 stale]: ping gets id "123", one warning for "stale" |
| `Registration.ChooseRoute` | src/client/Bot.ts:157-162 | guild route with (appId, debugGuildId) exactly when debugGuildId is non-empty; global route with appId otherwise |
| `Registration.RequestBody` | src/client/Bot.ts:164-166 | one serialised entry per command, in index order |
| `Registration.BodyNamesAreKeys` | src/client/Bot.ts:164-166 | the body carries the index's names, in index order, each once |
| `Registration.ReconcileKeepsBody` | src/client/Bot.ts:164-170 | reconciliation leaves the next round's body unchanged, so repeated rounds send the same body |
| `Client.EventLoadSplit` | src/client/Bot.ts:57-65 | N event files of which M throw register N - M listeners and write one line per file, errors exactly for the failures |
| `Client.Bot.constructor` | src/client/Bot.ts:21-36 | each folder with a truthy path is loaded, commands, events, components in that order |
| `Client.Bot.LoadCommands` | src/client/Bot.ts:38-53 | the index becomes `LoadAll` of the loaded files; one error per failing file or for a failed scan; validity kept |
| `Client.Bot.RegisterEvent` | src/client/Bot.ts:115-133 | one listener, `once` exactly when `!!event.once`, and one info line with the mode |
| `Client.Bot.LoadEvents` | src/client/Bot.ts:55-70 | one listener per loaded event module, an error line per failing one |
| `Client.Bot.LoadComponentHandlers` | src/client/Bot.ts:72-90 | loaded handlers appended in scan order; errors per failing file; then the router's size logged |
| `Client.Bot.GetCommand` | src/client/Bot.ts:92-96 | the record filed under the name; none exactly when the name is not a key |
| `Client.Bot.GetComponentHandler` | src/client/Bot.ts:98-108 | the handler of the earliest accepting pattern; none exactly when no pattern accepts; no state changes |
| `Client.Bot.AssignCommandIds` | src/client/Bot.ts:135-154 | the index becomes `ReconcileAll` of the response and one warning is logged per unmatched record |
| `Client.Bot.RegisterCommands` | src/client/Bot.ts:156-177 | route and body as above; on failure index untouched and exactly one error; on success reconciliation then an info line with the count of commands |

## Left out

- The discord.js `Client`, `login`, the gateway connection and intents: transport, not bookkeeping. `run` is only `login` followed by `registerCommands`.
- The REST client and the `Routes` URL builders: the call's outcome is an input and the route is a two-case datatype.
- `glob.sync` and `require`: a scan is an input listing, per file, the loaded module or the error thrown.
- A module that loads but whose `pattern` or `builder.name` is `undefined` (which JS would file under the key `undefined`): loading is modelled as either yielding a well-formed module or throwing.
- The asynchronous event wrapper and its `.catch` (src/client/Bot.ts:116-124): it isolates rejections of handler promises, which has no counterpart without a model of promises; registration itself (the `once`/`on` choice and the info line) is modelled.
- `builder.toJSON()`: a builder is reduced to its name and the optional `type` of its JSON; the model assumes the JSON name equals `builder.name`.
- The optional logger: `log` records what is written when a logger is attached; without one nothing is written and nothing else changes.
- Handler bodies of the example commands and component handler: they are Discord API calls.
- The identity of `RegExp` objects as router keys: each file yields a distinct object, so every loaded handler is appended.
- UTF-16 code units: ids are sequences of Unicode scalar values; for this pattern the accepted set is the same, since `.` accepts either half of a surrogate pair.
