/** What the filesystem scan and `require` produce, and the log the bot keeps.
    The scan of a folder either fails as a whole or yields, file by file, a
    loaded module or the error its loading threw. */
module Discovery {

  /** Which loader phase a log line belongs to. */
  datatype HandlerKind = CommandKind | EventKind | ComponentKind

  datatype ModuleLoad<T> = Loaded(file: string, value: T) | Threw(file: string, error: string)

  datatype Scan<T> = ScanFailed(error: string) | Scanned(files: seq<ModuleLoad<T>>)

  datatype Level = Info | Warn | Error

  /** One line written through the bot's logger. */
  datatype LogEntry =
    | ModuleLoadFailed(kind: HandlerKind, file: string, error: string)
    | FolderLoadFailed(kind: HandlerKind, error: string)
    | ComponentHandlersRegistered(count: nat)
    | EventRegistered(eventName: string, once: bool)
    | NoCommandMatch(name: string, jsonType: int)
    | CommandsRegistered(count: nat)
    | RegistrationFailed(error: string)

  function LevelOf(e: LogEntry): Level
  {
    match e
    case ModuleLoadFailed(_, _, _) => Error
    case FolderLoadFailed(_, _) => Error
    case ComponentHandlersRegistered(_) => Info
    case EventRegistered(_, _) => Info
    case NoCommandMatch(_, _) => Warn
    case CommandsRegistered(_) => Info
    case RegistrationFailed(_) => Error
  }

  /** The modules that loaded, in scan order. */
  function LoadedModules<T>(files: seq<ModuleLoad<T>>): seq<T>
  {
    if |files| == 0 then []
    else
      var last := files[|files| - 1];
      LoadedModules(files[..|files| - 1]) + (if last.Loaded? then [last.value] else [])
  }

  /** The error lines that a loader phase writes for the files it skips. */
  function LoadErrors<T>(kind: HandlerKind, files: seq<ModuleLoad<T>>): seq<LogEntry>
  {
    if |files| == 0 then []
    else
      var last := files[|files| - 1];
      LoadErrors(kind, files[..|files| - 1])
        + (if last.Threw? then [ModuleLoadFailed(kind, last.file, last.error)] else [])
  }

  /** The number of files whose loading threw. */
  function FailedCount<T>(files: seq<ModuleLoad<T>>): nat
  {
    if |files| == 0 then 0
    else FailedCount(files[..|files| - 1]) + (if files[|files| - 1].Threw? then 1 else 0)
  }

  /** Loading N files of which M throw yields N - M modules and M error lines,
      each at the error level and tagged with the phase. */
  lemma {:induction false} LoadSplit<T>(kind: HandlerKind, files: seq<ModuleLoad<T>>)
    ensures |LoadedModules(files)| == |files| - FailedCount(files)
    ensures |LoadErrors(kind, files)| == FailedCount(files)
    ensures forall k :: 0 <= k < |LoadErrors(kind, files)| ==>
              LoadErrors(kind, files)[k].ModuleLoadFailed? && LoadErrors(kind, files)[k].kind == kind
              && LevelOf(LoadErrors(kind, files)[k]) == Error
  {
    if |files| > 0 {
      LoadSplit(kind, files[..|files| - 1]);
    }
  }

  /** Every module that loaded appears among the loaded modules, and nothing else does. */
  lemma {:induction false} LoadedModulesMembers<T>(files: seq<ModuleLoad<T>>, x: T)
    ensures x in LoadedModules(files) <==> exists k :: 0 <= k < |files| && files[k].Loaded? && files[k].value == x
  {
    if |files| > 0 {
      var init := files[..|files| - 1];
      LoadedModulesMembers(init, x);
      assert forall k :: 0 <= k < |init| ==> init[k] == files[k];
    }
  }
}
