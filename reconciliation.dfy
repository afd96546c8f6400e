/** Id reconciliation, `assignCommandIds` (src/client/Bot.ts:135-154): each
    record the registry sends back is matched, in order, against the first
    command whose serialised (name, type) equals the record's, and that
    command's `id` is overwritten; a record that matches nothing is logged as
    a warning. */
module Reconciliation {
  import opened Wrappers
  import opened CommandTypes
  import opened CommandIndex
  import opened Discovery

  /** One element of the registry's response. */
  datatype RemoteCommand = RemoteCommand(id: Snowflake, name: string, jsonType: int)

  /** The `find` test: the command's JSON name and type equal the record's.
      A builder whose JSON carries no `type` matches no record. */
  predicate Describes(c: Command, rec: RemoteCommand)
  {
    ToJson(c.builder) == CommandJson(rec.name, Some(rec.jsonType))
  }

  /** `Collection.find`: the position of the first command, in index order,
      that the record describes. */
  function FindMatch(e: seq<Entry>, rec: RemoteCommand): (r: Option<nat>)
    ensures r.Some? ==> r.value < |e| && Describes(e[r.value].1, rec)
    ensures r.Some? ==> forall j :: 0 <= j < r.value ==> !Describes(e[j].1, rec)
    ensures r.None? <==> forall j :: 0 <= j < |e| ==> !Describes(e[j].1, rec)
  {
    if |e| == 0 then None
    else if Describes(e[0].1, rec) then Some(0)
    else
      var r := FindMatch(e[1..], rec);
      assert forall j :: 1 <= j < |e| ==> e[1..][j - 1] == e[j];
      if r.None? then None else Some(r.value + 1)
  }

  /** One iteration of the loop: `command.id = commandData.id` on the match. */
  function AssignOne(e: seq<Entry>, rec: RemoteCommand): (r: seq<Entry>)
    ensures |r| == |e|
  {
    match FindMatch(e, rec)
    case Some(k) => e[k := (e[k].0, e[k].1.(id := Some(rec.id)))]
    case None => e
  }

  /** The index after the whole response has been processed in order. */
  function ReconcileAll(e: seq<Entry>, resp: seq<RemoteCommand>): (r: seq<Entry>)
    ensures |r| == |e|
  {
    if |resp| == 0 then e
    else AssignOne(ReconcileAll(e, resp[..|resp| - 1]), resp[|resp| - 1])
  }

  /** The warnings written for the records that match no command. */
  function Unmatched(e: seq<Entry>, resp: seq<RemoteCommand>): seq<LogEntry>
  {
    if |resp| == 0 then []
    else
      var rec := resp[|resp| - 1];
      Unmatched(e, resp[..|resp| - 1])
        + (if FindMatch(e, rec).None? then [NoCommandMatch(rec.name, rec.jsonType)] else [])
  }

  /** `b` is `a` with, at most, other `id` values: same length, same keys,
      same records in every other field. */
  ghost predicate OnlyIdsDiffer(b: seq<Entry>, a: seq<Entry>)
  {
    |b| == |a| && forall i :: 0 <= i < |a| ==> b[i] == (a[i].0, a[i].1.(id := b[i].1.id))
  }

  /** Matching never looks at ids, so two indexes that differ only in ids
      match every record to the same position. */
  lemma FindMatchIgnoresIds(b: seq<Entry>, a: seq<Entry>, rec: RemoteCommand)
    requires OnlyIdsDiffer(b, a)
    ensures FindMatch(b, rec) == FindMatch(a, rec)
  {
    assert forall j :: 0 <= j < |a| ==> (Describes(b[j].1, rec) <==> Describes(a[j].1, rec));
  }

  /** Reconciliation changes nothing but `id` fields: no command is added,
      removed, moved, renamed or otherwise altered. */
  lemma {:induction false} ReconcileOnlyIds(e: seq<Entry>, resp: seq<RemoteCommand>)
    ensures OnlyIdsDiffer(ReconcileAll(e, resp), e)
  {
    if |resp| > 0 {
      ReconcileOnlyIds(e, resp[..|resp| - 1]);
    }
  }

  /** The id of the last record in `resp` whose match is the command at `i`. */
  function LastAssigned(e: seq<Entry>, resp: seq<RemoteCommand>, i: nat): Option<Snowflake>
  {
    if |resp| == 0 then None
    else if FindMatch(e, resp[|resp| - 1]) == Some(i) then Some(resp[|resp| - 1].id)
    else LastAssigned(e, resp[..|resp| - 1], i)
  }

  /** After reconciliation the command at `i` carries the id of the last record
      matched to it; a command that no record matched keeps its previous id. */
  lemma {:induction false} ReconcileId(e: seq<Entry>, resp: seq<RemoteCommand>, i: nat)
    requires i < |e|
    ensures ReconcileAll(e, resp)[i].1.id ==
              if LastAssigned(e, resp, i).Some? then LastAssigned(e, resp, i) else e[i].1.id
  {
    ReconcileOnlyIds(e, resp);
    if |resp| > 0 {
      var init := resp[..|resp| - 1];
      ReconcileId(e, init, i);
      ReconcileOnlyIds(e, init);
      FindMatchIgnoresIds(ReconcileAll(e, init), e, resp[|resp| - 1]);
    }
  }

  /** Processing the same response twice leaves the index as processing it once. */
  lemma ReconcileIdempotent(e: seq<Entry>, resp: seq<RemoteCommand>)
    ensures ReconcileAll(ReconcileAll(e, resp), resp) == ReconcileAll(e, resp)
  {
    var once := ReconcileAll(e, resp);
    var twice := ReconcileAll(once, resp);
    ReconcileOnlyIds(e, resp);
    ReconcileOnlyIds(once, resp);
    forall i | 0 <= i < |e| ensures twice[i] == once[i] {
      ReconcileId(e, resp, i);
      ReconcileId(once, resp, i);
      LastAssignedIgnoresIds(once, e, resp, i);
    }
  }

  lemma {:induction false} LastAssignedIgnoresIds(b: seq<Entry>, a: seq<Entry>, resp: seq<RemoteCommand>, i: nat)
    requires OnlyIdsDiffer(b, a)
    ensures LastAssigned(b, resp, i) == LastAssigned(a, resp, i)
  {
    if |resp| > 0 {
      FindMatchIgnoresIds(b, a, resp[|resp| - 1]);
      LastAssignedIgnoresIds(b, a, resp[..|resp| - 1], i);
    }
  }

  /** The number of records that match no command. */
  function UnmatchedCount(e: seq<Entry>, resp: seq<RemoteCommand>): nat
  {
    if |resp| == 0 then 0
    else UnmatchedCount(e, resp[..|resp| - 1]) + (if FindMatch(e, resp[|resp| - 1]).None? then 1 else 0)
  }

  /** Exactly one warning per record that matches no command, and nothing
      but warnings. */
  lemma {:induction false} UnmatchedWarnings(e: seq<Entry>, resp: seq<RemoteCommand>)
    ensures |Unmatched(e, resp)| == UnmatchedCount(e, resp)
    ensures forall k :: 0 <= k < |Unmatched(e, resp)| ==> LevelOf(Unmatched(e, resp)[k]) == Warn
  {
    if |resp| > 0 {
      UnmatchedWarnings(e, resp[..|resp| - 1]);
    }
  }

  /** Reconciliation keeps the index well formed. */
  lemma ReconcileKeepsIndex(e: seq<Entry>, resp: seq<RemoteCommand>)
    ensures Keys(ReconcileAll(e, resp)) == Keys(e)
    ensures UniqueKeys(e) ==> UniqueKeys(ReconcileAll(e, resp))
    ensures KeyedByName(e) ==> KeyedByName(ReconcileAll(e, resp))
  {
    var r := ReconcileAll(e, resp);
    ReconcileOnlyIds(e, resp);
    assert forall i :: 0 <= i < |e| ==> r[i].0 == e[i].0;
    assert Keys(r) == Keys(e) by {
      forall k | k in Keys(e) ensures k in Keys(r) {
        var j :| 0 <= j < |e| && e[j].0 == k;
        assert r[j].0 == k;
      }
    }
  }

  /** The reconciliation scenario of the registry contract: local "ping"
      (type 1) and a response naming "ping" with id "123" and a stale
      "stale" with id "999". */
  lemma PingScenario(ping: Command)
    requires ping.builder == Builder("ping", Some(1))
    ensures var e := [("ping", ping)];
            var resp := [RemoteCommand("123", "ping", 1), RemoteCommand("999", "stale", 1)];
            ReconcileAll(e, resp) == [("ping", ping.(id := Some("123")))]
            && Unmatched(e, resp) == [NoCommandMatch("stale", 1)]
  {
    var e := [("ping", ping)];
    var resp := [RemoteCommand("123", "ping", 1), RemoteCommand("999", "stale", 1)];
    assert resp[..1] == [resp[0]];
    assert resp[..1][..0] == [];
    assert FindMatch(e, resp[0]) == Some(0);
    assert !Describes(e[0].1, resp[1]);
    var mid := AssignOne(e, resp[0]);
    assert ReconcileAll(e, resp[..1]) == mid;
    assert mid == [("ping", ping.(id := Some("123")))];
    assert !Describes(mid[0].1, resp[1]);
    assert AssignOne(mid, resp[1]) == mid;
    assert Unmatched(e, resp[..1]) == [];
  }
}
