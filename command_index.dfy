/** The command index of `Bot` (src/client/Bot.ts:14-15): a discord.js
    `Collection`, i.e. a JS `Map` from command name to command record.  It is
    modelled as the sequence of its entries in insertion order, because the
    registration round serialises the commands in that order. */
module CommandIndex {
  import opened Wrappers
  import opened CommandTypes
  import opened Discovery

  type Entry = (string, Command)

  predicate UniqueKeys(e: seq<Entry>)
  {
    forall i, j :: 0 <= i < j < |e| ==> e[i].0 != e[j].0
  }

  /** Every entry is filed under its builder's name, as `loadCommands` files it. */
  predicate KeyedByName(e: seq<Entry>)
  {
    forall i :: 0 <= i < |e| ==> e[i].0 == e[i].1.builder.name
  }

  function Keys(e: seq<Entry>): set<string>
  {
    set i | 0 <= i < |e| :: e[i].0
  }

  /** The position of `name` among the keys. */
  function Find(e: seq<Entry>, name: string): (r: Option<nat>)
    ensures r.Some? ==> r.value < |e| && e[r.value].0 == name
    ensures r.None? <==> name !in Keys(e)
    ensures r.Some? ==> forall j :: 0 <= j < r.value ==> e[j].0 != name
  {
    if |e| == 0 then None
    else if e[0].0 == name then Some(0)
    else
      var r := Find(e[1..], name);
      assert Keys(e) == {e[0].0} + Keys(e[1..]) by {
        forall k | k in Keys(e) ensures k in {e[0].0} + Keys(e[1..]) {
          var i :| 0 <= i < |e| && e[i].0 == k;
          if i > 0 { assert e[1..][i - 1] == e[i]; }
        }
      }
      if r.None? then None else Some(r.value + 1)
  }

  /** `Map.prototype.get`. */
  function Get(e: seq<Entry>, name: string): Option<Command>
  {
    match Find(e, name)
    case Some(i) => Some(e[i].1)
    case None => None
  }

  /** With unique keys, the lookup answers with the one entry filed under the name. */
  lemma GetUnique(e: seq<Entry>, name: string, i: nat)
    requires UniqueKeys(e) && i < |e| && e[i].0 == name
    ensures Get(e, name) == Some(e[i].1)
  {
  }

  /** `Map.prototype.set`: an existing key keeps its position and gets the
      new record; a new key goes to the end. */
  function Set(e: seq<Entry>, name: string, c: Command): (r: seq<Entry>)
    ensures Keys(r) == Keys(e) + {name}
    ensures |r| == if name in Keys(e) then |e| else |e| + 1
    ensures forall j :: 0 <= j < |e| && e[j].0 != name ==> r[j] == e[j]
  {
    match Find(e, name)
    case Some(i) =>
      var r := e[i := (name, c)];
      assert Keys(r) == Keys(e) by {
        forall k | k in Keys(e) ensures k in Keys(r) {
          var j :| 0 <= j < |e| && e[j].0 == k;
          assert r[j].0 == k;
        }
        forall k | k in Keys(r) ensures k in Keys(e) {
          var j :| 0 <= j < |r| && r[j].0 == k;
          assert e[j].0 == k;
        }
      }
      r
    case None =>
      var r := e + [(name, c)];
      assert Keys(r) == Keys(e) + {name} by {
        forall k | k in Keys(r) ensures k in Keys(e) + {name} {
          var j :| 0 <= j < |r| && r[j].0 == k;
          if j < |e| { assert e[j].0 == k; }
        }
        forall k | k in Keys(e) ensures k in Keys(r) {
          var j :| 0 <= j < |e| && e[j].0 == k;
          assert r[j].0 == k;
        }
        assert r[|e|].0 == name;
      }
      r
  }

  /** On an index with unique keys, `set` keeps the keys unique, makes `get`
      of the key return the new record and leaves every other key's record alone. */
  lemma SetGet(e: seq<Entry>, name: string, c: Command)
    requires UniqueKeys(e)
    ensures UniqueKeys(Set(e, name, c))
    ensures Get(Set(e, name, c), name) == Some(c)
    ensures forall n :: n != name ==> Get(Set(e, name, c), n) == Get(e, n)
  {
    var r := Set(e, name, c);
    var i := match Find(e, name) case Some(i) => i case None => |e|;
    assert r[i] == (name, c);
    GetUnique(r, name, i);
    forall n | n != name ensures Get(r, n) == Get(e, n) {
      if n in Keys(e) {
        var j :| 0 <= j < |e| && e[j].0 == n;
        GetUnique(e, n, j);
        GetUnique(r, n, j);
      }
    }
  }

  /** `set` files the record under its builder's name, so the index stays keyed by name. */
  lemma SetKeyedByName(e: seq<Entry>, c: Command)
    requires KeyedByName(e)
    ensures KeyedByName(Set(e, c.builder.name, c))
  {
  }

  /** One iteration of the `forEach` in `loadCommands`: a loaded module is
      filed under `builder.name`; a module that threw leaves the index alone. */
  function LoadStep(e: seq<Entry>, m: ModuleLoad<Command>): seq<Entry>
  {
    match m
    case Loaded(_, c) => Set(e, c.builder.name, c)
    case Threw(_, _) => e
  }

  /** The index after loading `files` in order, starting from `e`. */
  function LoadAll(e: seq<Entry>, files: seq<ModuleLoad<Command>>): seq<Entry>
  {
    if |files| == 0 then e
    else LoadStep(LoadAll(e, files[..|files| - 1]), files[|files| - 1])
  }

  /** Reference definition: the record of the last module in `files` that
      loaded with builder name `name`. */
  function LastLoaded(files: seq<ModuleLoad<Command>>, name: string): (r: Option<Command>)
    ensures r.Some? ==> r.value.builder.name == name
  {
    if |files| == 0 then None
    else
      var last := files[|files| - 1];
      if last.Loaded? && last.value.builder.name == name then Some(last.value)
      else LastLoaded(files[..|files| - 1], name)
  }

  /** The names of the modules in `files` that loaded. */
  function LoadedNames(files: seq<ModuleLoad<Command>>): set<string>
  {
    set k | 0 <= k < |files| && files[k].Loaded? :: files[k].value.builder.name
  }

  /** Loading keeps the index well formed: one entry per name, and each
      entry filed under its builder's name if that held before. */
  lemma {:induction false} LoadAllValid(e: seq<Entry>, files: seq<ModuleLoad<Command>>)
    requires UniqueKeys(e)
    ensures UniqueKeys(LoadAll(e, files))
    ensures KeyedByName(e) ==> KeyedByName(LoadAll(e, files))
  {
    if |files| > 0 {
      var init := files[..|files| - 1];
      LoadAllValid(e, init);
      match files[|files| - 1]
      case Loaded(_, c) =>
        SetGet(LoadAll(e, init), c.builder.name, c);
      case Threw(_, _) =>
    }
  }

  /** After loading, looking a name up yields the last module loaded under
      that name, or what the index held before if no module used it: the
      later of two modules with the same name wins. */
  lemma {:induction false} LoadAllGet(e: seq<Entry>, files: seq<ModuleLoad<Command>>, name: string)
    requires UniqueKeys(e)
    ensures Get(LoadAll(e, files), name) ==
              if LastLoaded(files, name).Some? then LastLoaded(files, name) else Get(e, name)
  {
    if |files| > 0 {
      var init := files[..|files| - 1];
      var last := files[|files| - 1];
      var prev := LoadAll(e, init);
      LoadAllGet(e, init, name);
      LoadAllValid(e, init);
      match last
      case Loaded(_, c) =>
        SetGet(prev, c.builder.name, c);
      case Threw(_, _) =>
    }
  }

  /** The loaded index holds exactly the names it held before plus the names of
      the modules that loaded. */
  lemma {:induction false} LoadAllKeys(e: seq<Entry>, files: seq<ModuleLoad<Command>>)
    ensures Keys(LoadAll(e, files)) == Keys(e) + LoadedNames(files)
  {
    if |files| > 0 {
      var init := files[..|files| - 1];
      var last := files[|files| - 1];
      LoadAllKeys(e, init);
      assert LoadedNames(files) == LoadedNames(init) + (if last.Loaded? then {last.value.builder.name} else {}) by {
        forall n | n in LoadedNames(files)
          ensures n in LoadedNames(init) + (if last.Loaded? then {last.value.builder.name} else {})
        {
          var k :| 0 <= k < |files| && files[k].Loaded? && files[k].value.builder.name == n;
          if k < |init| { assert init[k] == files[k]; }
        }
        forall n | n in LoadedNames(init) ensures n in LoadedNames(files) {
          var k :| 0 <= k < |init| && init[k].Loaded? && init[k].value.builder.name == n;
          assert files[k] == init[k];
        }
        if last.Loaded? {
          assert files[|files| - 1] == last;
        }
      }
    }
  }

  /** The keys of an index are those of all but its last entry, plus the last key. */
  lemma KeysSnoc(e: seq<Entry>)
    requires |e| > 0
    ensures Keys(e) == Keys(e[..|e| - 1]) + {e[|e| - 1].0}
  {
    var init := e[..|e| - 1];
    forall k | k in Keys(e) ensures k in Keys(init) + {e[|e| - 1].0} {
      var j :| 0 <= j < |e| && e[j].0 == k;
      if j < |init| { assert init[j] == e[j]; }
    }
    forall k | k in Keys(init) ensures k in Keys(e) {
      var j :| 0 <= j < |init| && init[j].0 == k;
      assert e[j] == init[j];
    }
  }

  /** An index with unique keys has as many entries as it has names. */
  lemma {:induction false} KeysCard(e: seq<Entry>)
    requires UniqueKeys(e)
    ensures |Keys(e)| == |e|
  {
    if |e| > 0 {
      var init := e[..|e| - 1];
      var last := e[|e| - 1].0;
      assert UniqueKeys(init);
      KeysCard(init);
      KeysSnoc(e);
      assert last !in Keys(init) by {
        forall j | 0 <= j < |init| ensures init[j].0 != last {
          assert e[j] == init[j];
        }
      }
      assert |Keys(init) + {last}| == |Keys(init)| + 1;
    }
  }

  /** Loading leaves exactly one entry per distinct name: the names held
      before together with the names of the modules that loaded. */
  lemma LoadAllSize(e: seq<Entry>, files: seq<ModuleLoad<Command>>)
    requires UniqueKeys(e)
    ensures |LoadAll(e, files)| == |Keys(e) + LoadedNames(files)|
  {
    LoadAllValid(e, files);
    LoadAllKeys(e, files);
    KeysCard(LoadAll(e, files));
  }
}
