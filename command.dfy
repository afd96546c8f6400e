/** The command record of src/interfaces/Command.ts.  Handler callables and
    the `guildOnly` / `permissions` predicates are opaque references: the model
    never calls them, it only stores and returns them. */
module CommandTypes {
  import opened Wrappers

  /** A Discord snowflake identifier, kept as its decimal string. */
  type Snowflake = string

  /** The identity of a callable supplied by a handler module. */
  type HandlerRef = nat

  /** `CommandPermissionTypes`: ROLE = 1, USER = 2. */
  datatype PermissionType = Role | User

  function PermissionCode(t: PermissionType): int
  {
    match t
    case Role => 1
    case User => 2
  }

  function PermissionFromCode(code: int): (t: Option<PermissionType>)
    ensures t.Some? <==> code == 1 || code == 2
  {
    if code == 1 then Some(Role)
    else if code == 2 then Some(User)
    else None
  }

  /** The numeric codes of the enumeration decode back to the same member. */
  lemma PermissionCodeRoundTrip(t: PermissionType)
    ensures PermissionFromCode(PermissionCode(t)) == Some(t)
  {
  }

  datatype CommandPermission = CommandPermission(kind: PermissionType, id: Snowflake, permission: bool)

  /** What the model needs of a command builder: its name and the `type` field
      that its JSON form carries, if it carries one. */
  datatype Builder = Builder(name: string, jsonType: Option<int>)

  /** The serialised (name, type) of a builder, as sent to the registry. */
  datatype CommandJson = CommandJson(name: string, jsonType: Option<int>)

  function ToJson(b: Builder): CommandJson
  {
    CommandJson(b.name, b.jsonType)
  }

  /** `Command<Builder>`: every field of the interface, `id` unset until a
      registration round assigns it. */
  datatype Command = Command(
    handler: HandlerRef,
    builder: Builder,
    guildOnly: Option<HandlerRef>,
    permissions: Option<HandlerRef>,
    id: Option<Snowflake>,
    idBasedPermissions: Option<seq<CommandPermission>>)
}
