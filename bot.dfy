/** The `Bot` class of src/client/Bot.ts: the command index, the component
    router and the event registrations it fills at construction, the lookups
    it answers, and the registration round.  The logger is modelled as the
    ghost list of lines written to it; the event emitter's registrations as
    the ghost list of listeners. */
module Client {
  import opened Wrappers
  import opened CommandTypes
  import opened Discovery
  import opened CommandIndex
  import opened ComponentRouter
  import opened Reconciliation
  import opened Configuration
  import opened Registration

  /** An event module: the event it listens to, its handler, and `once`. */
  datatype EventModule = EventModule(name: string, handler: HandlerRef, once: Option<bool>)

  /** A registration with the client's event emitter: `once` for
      `client.once`, otherwise `client.on`. */
  datatype Listener = Listener(eventName: string, once: bool, handler: HandlerRef)

  /** `!!event.once`. */
  predicate OnceFlag(ev: EventModule)
  {
    ev.once == Some(true)
  }

  /** The command index after `loadCommands` over one scan. */
  function CommandsAfterScan(e: seq<Entry>, scan: Scan<Command>): seq<Entry>
  {
    match scan
    case ScanFailed(_) => e
    case Scanned(files) => LoadAll(e, files)
  }

  /** The lines `loadCommands` writes for one scan. */
  function CommandScanLog(scan: Scan<Command>): seq<LogEntry>
  {
    match scan
    case ScanFailed(err) => [FolderLoadFailed(CommandKind, err)]
    case Scanned(files) => LoadErrors(CommandKind, files)
  }

  /** The router after `loadComponentHandlers` over one scan: every handler
      that loaded is appended, in scan order. */
  function RouterAfterScan(hs: seq<ComponentHandler>, scan: Scan<ComponentHandler>): seq<ComponentHandler>
  {
    match scan
    case ScanFailed(_) => hs
    case Scanned(files) => hs + LoadedModules(files)
  }

  /** The lines `loadComponentHandlers` writes: one error per skipped file,
      then the size of the router. */
  function ComponentScanLog(hs: seq<ComponentHandler>, scan: Scan<ComponentHandler>): seq<LogEntry>
  {
    match scan
    case ScanFailed(err) => [FolderLoadFailed(ComponentKind, err)]
    case Scanned(files) =>
      LoadErrors(ComponentKind, files) + [ComponentHandlersRegistered(|hs| + |LoadedModules(files)|)]
  }

  /** The listeners `loadEvents` registers for the event modules that loaded. */
  function EventListeners(files: seq<ModuleLoad<EventModule>>): seq<Listener>
  {
    if |files| == 0 then []
    else
      var last := files[|files| - 1];
      EventListeners(files[..|files| - 1])
        + (if last.Loaded? then [Listener(last.value.name, OnceFlag(last.value), last.value.handler)] else [])
  }

  /** The lines `loadEvents` writes, file by file: an error for a module that
      threw, an info line for a registered event. */
  function EventLoadLog(files: seq<ModuleLoad<EventModule>>): seq<LogEntry>
  {
    if |files| == 0 then []
    else
      var last := files[|files| - 1];
      EventLoadLog(files[..|files| - 1])
        + [match last
           case Loaded(_, ev) => EventRegistered(ev.name, OnceFlag(ev))
           case Threw(f, err) => ModuleLoadFailed(EventKind, f, err)]
  }

  /** Loading N event files of which M throw registers N - M listeners, one
      per loaded module in scan order, and writes one line per file. */
  lemma {:induction false} EventLoadSplit(files: seq<ModuleLoad<EventModule>>)
    ensures |EventListeners(files)| == |files| - FailedCount(files)
    ensures |EventLoadLog(files)| == |files|
    ensures forall k :: 0 <= k < |files| ==>
              (LevelOf(EventLoadLog(files)[k]) == Error <==> files[k].Threw?)
  {
    if |files| > 0 {
      var init := files[..|files| - 1];
      EventLoadSplit(init);
      assert forall k :: 0 <= k < |init| ==> files[k] == init[k];
    }
  }

  function ListenersAfterScan(ls: seq<Listener>, scan: Scan<EventModule>): seq<Listener>
  {
    match scan
    case ScanFailed(_) => ls
    case Scanned(files) => ls + EventListeners(files)
  }

  function EventScanLog(scan: Scan<EventModule>): seq<LogEntry>
  {
    match scan
    case ScanFailed(err) => [FolderLoadFailed(EventKind, err)]
    case Scanned(files) => EventLoadLog(files)
  }

  class Bot {
    const config: BotConfig
    var commands: seq<Entry>
    var componentHandlers: seq<ComponentHandler>
    ghost var listeners: seq<Listener>
    ghost var log: seq<LogEntry>

    /** The index has one entry per name, each filed under its builder's name. */
    ghost predicate Valid()
      reads this
    {
      UniqueKeys(commands) && KeyedByName(commands)
    }

    /** The constructor loads each folder the configuration names (a truthy
        path), commands first, then events, then component handlers. */
    constructor (config: BotConfig, commandScan: Scan<Command>, eventScan: Scan<EventModule>,
                 componentScan: Scan<ComponentHandler>)
      ensures Valid() && this.config == config
      ensures commands == if Truthy(config.commandsFolder) then CommandsAfterScan([], commandScan) else []
      ensures listeners == if Truthy(config.eventsFolder) then ListenersAfterScan([], eventScan) else []
      ensures componentHandlers ==
                if Truthy(config.componentHandlersFolder) then RouterAfterScan([], componentScan) else []
      ensures log == (if Truthy(config.commandsFolder) then CommandScanLog(commandScan) else [])
                     + (if Truthy(config.eventsFolder) then EventScanLog(eventScan) else [])
                     + (if Truthy(config.componentHandlersFolder) then ComponentScanLog([], componentScan) else [])
    {
      this.config := config;
      commands := [];
      componentHandlers := [];
      listeners := [];
      log := [];
      new;
      ghost var commandLog: seq<LogEntry> := [];
      if Truthy(config.commandsFolder) {
        LoadCommands(commandScan);
        commandLog := CommandScanLog(commandScan);
      }
      ghost var afterCommands := commands;
      assert Valid() && log == commandLog && listeners == [] && componentHandlers == [];
      ghost var eventLog: seq<LogEntry> := [];
      if Truthy(config.eventsFolder) {
        LoadEvents(eventScan);
        eventLog := EventScanLog(eventScan);
      }
      ghost var afterEvents := listeners;
      assert commands == afterCommands && log == commandLog + eventLog && componentHandlers == [];
      ghost var componentLog: seq<LogEntry> := [];
      if Truthy(config.componentHandlersFolder) {
        LoadComponentHandlers(componentScan);
        componentLog := ComponentScanLog([], componentScan);
      }
      assert commands == afterCommands && listeners == afterEvents;
      assert log == commandLog + eventLog + componentLog;
    }

    /** `loadCommands`: every module that loads is filed under its builder's
        name, a later module replacing an earlier one of the same name; a
        module that throws is logged and skipped; a failed scan is logged. */
    method LoadCommands(scan: Scan<Command>)
      requires Valid()
      modifies this`commands, this`log
      ensures Valid()
      ensures commands == CommandsAfterScan(old(commands), scan)
      ensures log == old(log) + CommandScanLog(scan)
    {
      match scan
      case ScanFailed(err) =>
        log := log + [FolderLoadFailed(CommandKind, err)];
      case Scanned(files) =>
        for i := 0 to |files|
          invariant commands == LoadAll(old(commands), files[..i])
          invariant log == old(log) + LoadErrors(CommandKind, files[..i])
          invariant Valid()
        {
          assert files[..i + 1][..i] == files[..i];
          match files[i]
          case Loaded(_, c) =>
            commands := CommandIndex.Set(commands, c.builder.name, c);
            LoadAllValid(old(commands), files[..i + 1]);
          case Threw(file, err) =>
            log := log + [ModuleLoadFailed(CommandKind, file, err)];
        }
        assert files[..|files|] == files;
    }

    /** `registerEvent`: one listener, `once` exactly when `!!event.once`,
        and one info line naming the event and its mode. */
    method RegisterEvent(eventName: string, ev: EventModule)
      modifies this`listeners, this`log
      ensures listeners == old(listeners) + [Listener(eventName, OnceFlag(ev), ev.handler)]
      ensures log == old(log) + [EventRegistered(eventName, OnceFlag(ev))]
    {
      listeners := listeners + [Listener(eventName, OnceFlag(ev), ev.handler)];
      log := log + [EventRegistered(eventName, OnceFlag(ev))];
    }

    /** `loadEvents`: each event module that loads is registered under its
        `name`; a module that throws is logged and skipped. */
    method LoadEvents(scan: Scan<EventModule>)
      modifies this`listeners, this`log
      ensures listeners == ListenersAfterScan(old(listeners), scan)
      ensures log == old(log) + EventScanLog(scan)
    {
      match scan
      case ScanFailed(err) =>
        log := log + [FolderLoadFailed(EventKind, err)];
      case Scanned(files) =>
        for i := 0 to |files|
          invariant listeners == old(listeners) + EventListeners(files[..i])
          invariant log == old(log) + EventLoadLog(files[..i])
        {
          assert files[..i + 1][..i] == files[..i];
          match files[i]
          case Loaded(_, ev) =>
            RegisterEvent(ev.name, ev);
          case Threw(file, err) =>
            log := log + [ModuleLoadFailed(EventKind, file, err)];
        }
        assert files[..|files|] == files;
    }

    /** `loadComponentHandlers`: each handler that loads is appended to the
        router (its pattern object is a fresh key), then the router's size is
        logged. */
    method LoadComponentHandlers(scan: Scan<ComponentHandler>)
      modifies this`componentHandlers, this`log
      ensures componentHandlers == RouterAfterScan(old(componentHandlers), scan)
      ensures log == old(log) + ComponentScanLog(old(componentHandlers), scan)
    {
      match scan
      case ScanFailed(err) =>
        log := log + [FolderLoadFailed(ComponentKind, err)];
      case Scanned(files) =>
        for i := 0 to |files|
          invariant componentHandlers == old(componentHandlers) + LoadedModules(files[..i])
          invariant log == old(log) + LoadErrors(ComponentKind, files[..i])
        {
          assert files[..i + 1][..i] == files[..i];
          match files[i]
          case Loaded(_, h) =>
            componentHandlers := componentHandlers + [h];
          case Threw(file, err) =>
            log := log + [ModuleLoadFailed(ComponentKind, file, err)];
        }
        assert files[..|files|] == files;
        log := log + [ComponentHandlersRegistered(|componentHandlers|)];
    }

    /** `getCommand`: the record filed under `name`, if any. */
    function GetCommand(name: string): (r: Option<Command>)
      reads this
      requires Valid()
      ensures r.None? <==> name !in Keys(commands)
      ensures forall i :: 0 <= i < |commands| && commands[i].0 == name ==> r == Some(commands[i].1)
    {
      Get(commands, name)
    }

    /** `getComponentHandler`: the handler of the first pattern, in
        registration order, that accepts the id; none when no pattern does. */
    method GetComponentHandler(componentId: string) returns (r: Option<ComponentHandler>)
      ensures r == HandlerFor(componentHandlers, componentId)
      ensures r.None? <==> forall j :: 0 <= j < |componentHandlers| ==> !componentHandlers[j].pattern(componentId)
    {
      for i := 0 to |componentHandlers|
        invariant forall j :: 0 <= j < i ==> !componentHandlers[j].pattern(componentId)
      {
        if componentHandlers[i].pattern(componentId) {
          return Some(componentHandlers[i]);
        }
      }
      return None;
    }

    /** `assignCommandIds`: each record, in order, sets the id of the first
        command it describes; a record describing none is logged as a warning. */
    method AssignCommandIds(response: seq<RemoteCommand>)
      requires Valid()
      modifies this`commands, this`log
      ensures Valid()
      ensures commands == ReconcileAll(old(commands), response)
      ensures log == old(log) + Unmatched(old(commands), response)
    {
      for i := 0 to |response|
        invariant commands == ReconcileAll(old(commands), response[..i])
        invariant log == old(log) + Unmatched(old(commands), response[..i])
      {
        var rec := response[i];
        assert response[..i + 1][..i] == response[..i];
        ReconcileOnlyIds(old(commands), response[..i]);
        FindMatchIgnoresIds(commands, old(commands), rec);
        match FindMatch(commands, rec)
        case Some(k) =>
          commands := commands[k := (commands[k].0, commands[k].1.(id := Some(rec.id)))];
        case None =>
          log := log + [NoCommandMatch(rec.name, rec.jsonType)];
      }
      assert response[..|response|] == response;
      ReconcileKeepsIndex(old(commands), response);
    }

    /** `registerCommands`: the body is sent to the chosen route; on success
        the response is reconciled and the number of commands sent is logged;
        on failure one error is logged and the index is left as it was. */
    method RegisterCommands(outcome: PutOutcome) returns (route: Route, body: seq<CommandJson>)
      requires Valid()
      modifies this`commands, this`log
      ensures Valid()
      ensures route == ChooseRoute(config)
      ensures body == RequestBody(old(commands))
      ensures outcome.Rejected? ==>
                commands == old(commands) && log == old(log) + [RegistrationFailed(outcome.error)]
      ensures outcome.Responded? ==>
                commands == ReconcileAll(old(commands), outcome.records)
                && log == old(log) + Unmatched(old(commands), outcome.records) + [CommandsRegistered(|old(commands)|)]
    {
      route := ChooseRoute(config);
      body := RequestBody(commands);
      match outcome
      case Rejected(err) =>
        log := log + [RegistrationFailed(err)];
      case Responded(records) =>
        AssignCommandIds(records);
        log := log + [CommandsRegistered(|body|)];
    }
  }
}
