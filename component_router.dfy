/** The component router of `Bot` (src/client/Bot.ts:16-17, 98-108): the
    (pattern, handler) pairs in the order they were registered.  A pattern is
    an opaque test on component ids; the key of each pair is the `pattern`
    field of the handler module it belongs to, so one record holds both. */
module ComponentRouter {
  import opened Wrappers
  import opened CommandTypes

  /** A compiled component-id pattern, seen only through its `test`. */
  type Pattern = string -> bool

  /** A component-handler module: its handler callable and its id pattern. */
  datatype ComponentHandler = ComponentHandler(handler: HandlerRef, pattern: Pattern)

  /** `k` is the earliest position whose pattern accepts `id`. */
  ghost predicate FirstMatchAt(hs: seq<ComponentHandler>, id: string, k: nat)
  {
    k < |hs| && hs[k].pattern(id) && forall j :: 0 <= j < k ==> !hs[j].pattern(id)
  }

  /** The position of the first pattern, in registration order, that accepts `id`. */
  function FirstMatchIndex(hs: seq<ComponentHandler>, id: string): (r: Option<nat>)
    ensures r.Some? ==> FirstMatchAt(hs, id, r.value)
    ensures r.None? <==> forall j :: 0 <= j < |hs| ==> !hs[j].pattern(id)
  {
    if |hs| == 0 then None
    else if hs[0].pattern(id) then Some(0)
    else
      var r := FirstMatchIndex(hs[1..], id);
      assert forall j :: 1 <= j < |hs| ==> hs[1..][j - 1] == hs[j];
      if r.None? then None else Some(r.value + 1)
  }

  /** What `getComponentHandler` answers: the handler of the first matching pattern. */
  function HandlerFor(hs: seq<ComponentHandler>, id: string): Option<ComponentHandler>
  {
    match FirstMatchIndex(hs, id)
    case Some(k) => Some(hs[k])
    case None => None
  }

  /** Tie-break: when the patterns at `i < j` both accept `id`, the route is
      never the later one; it is the earlier one or one registered before it. */
  lemma EarlierPatternWins(hs: seq<ComponentHandler>, id: string, i: nat, j: nat)
    requires i < j < |hs| && hs[i].pattern(id) && hs[j].pattern(id)
    ensures FirstMatchIndex(hs, id).Some? && FirstMatchIndex(hs, id).value <= i
  {
  }

  /** Registering more handlers after the ones already present never changes
      the route of an id that some earlier pattern already accepts. */
  lemma {:induction false} AppendKeepsRoute(hs: seq<ComponentHandler>, more: seq<ComponentHandler>, id: string)
    requires FirstMatchIndex(hs, id).Some?
    ensures FirstMatchIndex(hs + more, id) == FirstMatchIndex(hs, id)
  {
    forall j | 0 <= j < |hs| ensures (hs + more)[j] == hs[j] { }
  }

  /** The first match is unique: a position that is the first match is the answer. */
  lemma FirstMatchUnique(hs: seq<ComponentHandler>, id: string, k: nat)
    requires FirstMatchAt(hs, id, k)
    ensures FirstMatchIndex(hs, id) == Some(k)
  {
  }

  /** An id that no earlier pattern accepts is routed by the later ones, with
      their positions shifted by the earlier count. */
  lemma AppendRoutesToLater(hs: seq<ComponentHandler>, more: seq<ComponentHandler>, id: string)
    requires FirstMatchIndex(hs, id).None?
    ensures FirstMatchIndex(hs + more, id) ==
              match FirstMatchIndex(more, id)
              case Some(k) => Some(|hs| + k)
              case None => None
  {
    var all := hs + more;
    match FirstMatchIndex(more, id)
    case Some(k) =>
      forall j | 0 <= j < |hs| + k ensures !all[j].pattern(id) {
        if j < |hs| {
          assert all[j] == hs[j];
        } else {
          assert all[j] == more[j - |hs|];
        }
      }
      FirstMatchUnique(all, id, |hs| + k);
    case None =>
      forall j | 0 <= j < |all| ensures !all[j].pattern(id) {
        if j < |hs| {
          assert all[j] == hs[j];
        } else {
          assert all[j] == more[j - |hs|];
        }
      }
  }
}
