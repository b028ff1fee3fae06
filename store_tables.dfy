/**
 * What the store's bulk writes do to one table, as functions: a series of puts into a
 * natural-keyed table, a series of adds that aborts on a taken key, and the rows a batch
 * of auto-increment inserts creates.
 */
module StoreTables {
  import opened Wrappers
  import opened Tables
  import opened Har
  import opened Migration

  /** A `historyUrls` or `historySockets` table: url -> time, in url order. */
  type HistoryTable = seq<Row<string, int>>

  /** `put` of every entry in turn. */
  function PutAll(t: HistoryTable, es: seq<HistoryEntry>): (u: HistoryTable)
    requires Sorted(t, StrKeyLt)
    ensures Sorted(u, StrKeyLt)
    decreases |es|
  {
    StrOrder();
    if es == [] then t
    else Put(PutAll(t, es[..|es| - 1]), Row(es[|es| - 1].url, es[|es| - 1].time), StrKeyLt)
  }

  /** The time of the last entry for `url`, if any. */
  function LastTime(es: seq<HistoryEntry>, url: string): Option<int>
    decreases |es|
  {
    if es == [] then None
    else if es[|es| - 1].url == url then Some(es[|es| - 1].time)
    else LastTime(es[..|es| - 1], url)
  }

  /** Upsert semantics: after a series of puts a url holds the time of its last put, or its old time. */
  lemma {:induction false} PutAllLastWins(t: HistoryTable, es: seq<HistoryEntry>, url: string)
    requires Sorted(t, StrKeyLt)
    ensures Find(PutAll(t, es), url) == if LastTime(es, url).Some? then LastTime(es, url) else Find(t, url)
    decreases |es|
  {
    StrOrder();
    if es != [] {
      var front := es[..|es| - 1];
      PutAllLastWins(t, front, url);
      FindPut(PutAll(t, front), Row(es[|es| - 1].url, es[|es| - 1].time), StrKeyLt, url);
    }
  }

  /** `add` of every row in turn; None when one of them hits a key already present. */
  function AddAll<V(==,!new)>(t: seq<Row<(string, string), V>>, rows: seq<Row<(string, string), V>>): (u: Option<seq<Row<(string, string), V>>>)
    requires Sorted(t, PairLt)
    ensures u.Some? ==> Sorted(u.value, PairLt)
    decreases |rows|
  {
    PairOrder();
    if rows == [] then Some(t)
    else
      match AddAll(t, rows[..|rows| - 1])
      case None => None
      case Some(v) => Add(v, rows[|rows| - 1], PairLt)
  }

  /** No two rows share a key, and none of them takes a key of `t`. */
  predicate FreshKeys<K(==), V>(t: seq<Row<K, V>>, rows: seq<Row<K, V>>)
  {
    && (forall i, j :: 0 <= i < j < |rows| ==> rows[i].key != rows[j].key)
    && (forall i, j :: 0 <= i < |rows| && 0 <= j < |t| ==> rows[i].key != t[j].key)
  }

  /** A batch of adds with fresh keys succeeds and holds the old rows and the new ones. */
  lemma {:induction false} AddAllSucceeds<V(!new)>(t: seq<Row<(string, string), V>>, rows: seq<Row<(string, string), V>>)
    requires Sorted(t, PairLt) && FreshKeys(t, rows)
    ensures AddAll(t, rows).Some?
    ensures forall x :: x in AddAll(t, rows).value <==> x in t || x in rows
    decreases |rows|
  {
    PairOrder();
    if rows != [] {
      var front := rows[..|rows| - 1];
      var last := rows[|rows| - 1];
      assert rows == front + [last];
      assert FreshKeys(t, front);
      AddAllSucceeds(t, front);
      var v := AddAll(t, front).value;
      forall i | 0 <= i < |v| ensures v[i].key != last.key {
        assert v[i] in v;
        if v[i] in t {
          var j :| 0 <= j < |t| && t[j] == v[i];
          assert rows[|rows| - 1].key != t[j].key;
        } else {
          var j :| 0 <= j < |front| && front[j] == v[i];
          assert rows[j].key != rows[|rows| - 1].key;
        }
      }
    }
  }

  /** FreshKeys of a batch without its last row, restated over the batch itself. */
  lemma FrontFresh<K, V>(t: seq<Row<K, V>>, rows: seq<Row<K, V>>)
    requires rows != [] && FreshKeys(t, rows[..|rows| - 1])
    ensures forall a, b :: 0 <= a < b < |rows| - 1 ==> rows[a].key != rows[b].key
    ensures forall a, b :: 0 <= a < |rows| - 1 && 0 <= b < |t| ==> rows[a].key != t[b].key
  {
    var front := rows[..|rows| - 1];
    assert forall a :: 0 <= a < |front| ==> front[a] == rows[a];
  }

  /** When the rest of a batch is fresh but the whole is not, the last row's key is taken already. */
  lemma LastClashes<K, V>(t: seq<Row<K, V>>, rows: seq<Row<K, V>>)
    requires rows != [] && FreshKeys(t, rows[..|rows| - 1]) && !FreshKeys(t, rows)
    ensures exists x :: (x in t || x in rows[..|rows| - 1]) && x.key == rows[|rows| - 1].key
  {
    var front := rows[..|rows| - 1];
    FrontFresh(t, rows);
    if exists i, j :: 0 <= i < j < |rows| && rows[i].key == rows[j].key {
      var i, j :| 0 <= i < j < |rows| && rows[i].key == rows[j].key;
      assert j == |rows| - 1;
      assert front[i] in front;
    } else {
      var i, j :| 0 <= i < |rows| && 0 <= j < |t| && rows[i].key == t[j].key;
      assert i == |rows| - 1;
      assert t[j] in t;
    }
  }

  /** A batch of adds in which a key repeats, or is already taken, fails as a whole. */
  lemma {:induction false} AddAllFails<V(!new)>(t: seq<Row<(string, string), V>>, rows: seq<Row<(string, string), V>>)
    requires Sorted(t, PairLt) && !FreshKeys(t, rows)
    ensures AddAll(t, rows).None?
    decreases |rows|
  {
    PairOrder();
    var front := rows[..|rows| - 1];
    if !FreshKeys(t, front) {
      AddAllFails(t, front);
    } else {
      var last := rows[|rows| - 1];
      AddAllSucceeds(t, front);
      LastClashes(t, rows);
      var v := AddAll(t, front).value;
      var x :| (x in t || x in front) && x.key == last.key;
      assert x in v;
      var k :| 0 <= k < |v| && v[k] == x;
      assert Add(v, last, PairLt).None?;
    }
  }

  /** A row of the `statuses` table, as the definitions file gives it. */
  datatype StatusDef = StatusDef(code: int, statusText: string, desc: string)

  /** `add` of every status definition in turn, keyed by its code. */
  function AddCodes(m: map<int, StatusDef>, codes: seq<StatusDef>): (r: Option<map<int, StatusDef>>)
    decreases |codes|
  {
    if codes == [] then Some(m)
    else
      match AddCodes(m, codes[..|codes| - 1])
      case None => None
      case Some(m') =>
        var c := codes[|codes| - 1];
        if c.code in m' then None else Some(m'[c.code := c])
  }

  /** The codes are pairwise distinct and none is in `m`. */
  predicate FreshCodes(m: map<int, StatusDef>, codes: seq<StatusDef>)
  {
    && (forall i, j :: 0 <= i < j < |codes| ==> codes[i].code != codes[j].code)
    && (forall i :: 0 <= i < |codes| ==> codes[i].code !in m)
  }

  /** A batch of status adds with fresh codes succeeds and maps every code to its definition. */
  lemma {:induction false} AddCodesSucceeds(m: map<int, StatusDef>, codes: seq<StatusDef>)
    requires FreshCodes(m, codes)
    ensures AddCodes(m, codes).Some?
    ensures forall k :: k in AddCodes(m, codes).value <==> k in m || exists i :: 0 <= i < |codes| && codes[i].code == k
    ensures forall i :: 0 <= i < |codes| ==> AddCodes(m, codes).value[codes[i].code] == codes[i]
    ensures forall k :: k in m ==> AddCodes(m, codes).value[k] == m[k]
    decreases |codes|
  {
    if codes != [] {
      var front := codes[..|codes| - 1];
      var c := codes[|codes| - 1];
      assert forall i :: 0 <= i < |front| ==> front[i] == codes[i];
      assert FreshCodes(m, front);
      AddCodesSucceeds(m, front);
    }
  }

  /** A batch of status adds with a repeated or taken code fails as a whole. */
  lemma {:induction false} AddCodesFails(m: map<int, StatusDef>, codes: seq<StatusDef>)
    requires !FreshCodes(m, codes)
    ensures AddCodes(m, codes).None?
    decreases |codes|
  {
    var front := codes[..|codes| - 1];
    var c := codes[|codes| - 1];
    assert forall i :: 0 <= i < |front| ==> front[i] == codes[i];
    if !FreshCodes(m, front) {
      AddCodesFails(m, front);
    } else {
      AddCodesSucceeds(m, front);
      if c.code !in m {
        var j :| 0 <= j < |front| && front[j].code == c.code;
      }
    }
  }

  /** The ids base, base + 1, ..., base + n - 1 that n auto-increment inserts receive. */
  function Range(base: nat, n: nat): (ids: seq<nat>)
    ensures |ids| == n && forall i :: 0 <= i < n ==> ids[i] == base + i
  {
    seq(n, i requires 0 <= i < n => base + i)
  }

  /** The table `t` after inserting the first `n` of `objs` in order when the next auto-increment id is `base`. */
  function InsertedUpTo<V>(t: map<nat, V>, objs: seq<V>, base: nat, n: nat): map<nat, V>
    requires n <= |objs|
  {
    if n == 0 then t else InsertedUpTo(t, objs, base, n - 1)[base + n - 1 := objs[n - 1]]
  }

  /** The table `t` after inserting all of `objs`. */
  function Inserted<V>(t: map<nat, V>, objs: seq<V>, base: nat): map<nat, V>
  {
    InsertedUpTo(t, objs, base, |objs|)
  }

  lemma {:induction false} InsertedUpToContents<V>(t: map<nat, V>, objs: seq<V>, base: nat, n: nat)
    requires n <= |objs|
    ensures forall k :: k in InsertedUpTo(t, objs, base, n) <==> k in t || base <= k < base + n
    ensures forall k :: 0 <= k < n ==> InsertedUpTo(t, objs, base, n)[base + k] == objs[k]
    ensures forall k :: k in t && !(base <= k < base + n) ==> InsertedUpTo(t, objs, base, n)[k] == t[k]
  {
    if n != 0 {
      InsertedUpToContents(t, objs, base, n - 1);
    }
  }

  /**
   * Auto-increment inserts add exactly the keys base .. base + |objs| - 1, the k-th one holding
   * `objs[k]`, and leave every other row as it was.
   */
  lemma InsertedContents<V>(t: map<nat, V>, objs: seq<V>, base: nat)
    ensures forall k :: k in Inserted(t, objs, base) <==> k in t || base <= k < base + |objs|
    ensures forall k :: 0 <= k < |objs| ==> Inserted(t, objs, base)[base + k] == objs[k]
    ensures forall k :: k in t && !(base <= k < base + |objs|) ==> Inserted(t, objs, base)[k] == t[k]
  {
    InsertedUpToContents(t, objs, base, |objs|);
  }

  /** The stored requests of a migration batch: each pending request without its hints. */
  function Stripped(reqs: seq<PendingRequest>): (r: seq<RequestObject>)
    ensures |r| == |reqs| && forall k :: 0 <= k < |reqs| ==> r[k] == reqs[k].request
  {
    seq(|reqs|, k requires 0 <= k < |reqs| => reqs[k].request)
  }

  /** The in-flight projects in `Object.keys` order. */
  function ProjectValues(d: InFlight): (r: seq<Project>)
    requires forall k :: k in d.keys ==> k in d.entries
  {
    seq(|d.keys|, i requires 0 <= i < |d.keys| => var k := d.keys[i]; assert k in d.keys; d.entries[k])
  }

  /** The `serverExportObjects` table after adding the first `n` of `es` in turn, keyed by `[serverId+requestId]`. */
  function ExportTableUpTo(t: map<(string, nat), ServerExport>, es: seq<ServerExport>, n: nat): map<(string, nat), ServerExport>
    requires n <= |es|
  {
    if n == 0 then t
    else ExportTableUpTo(t, es, n - 1)[(es[n - 1].serverId, es[n - 1].requestId) := es[n - 1]]
  }

  /** The `serverExportObjects` table after adding all of `es`. */
  function ExportTable(t: map<(string, nat), ServerExport>, es: seq<ServerExport>): map<(string, nat), ServerExport>
  {
    ExportTableUpTo(t, es, |es|)
  }

  lemma {:induction false} ExportTableUpToKeys(t: map<(string, nat), ServerExport>, es: seq<ServerExport>, n: nat)
    requires n <= |es|
    ensures forall k :: k in ExportTableUpTo(t, es, n) <==>
      k in t || exists j :: 0 <= j < n && k == (es[j].serverId, es[j].requestId)
  {
    if n != 0 {
      ExportTableUpToKeys(t, es, n - 1);
      var e := es[n - 1];
      forall k ensures k in ExportTableUpTo(t, es, n) <==> k in t || exists j :: 0 <= j < n && k == (es[j].serverId, es[j].requestId) {
        if k == (e.serverId, e.requestId) {
          assert exists j :: 0 <= j < n && k == (es[j].serverId, es[j].requestId) by {
            assert k == (es[n - 1].serverId, es[n - 1].requestId);
          }
        }
      }
    }
  }

  /**
   * The adds of `_storeUpgrade`'s export step never meet a taken key. The records name new
   * request ids in strictly increasing order, and every old key names an older request.
   */
  lemma ExportAddsFresh(t: map<(string, nat), ServerExport>, es: seq<ServerExport>, firstId: nat)
    requires forall i, j :: 0 <= i < j < |es| ==> es[i].requestId < es[j].requestId
    requires forall k :: k in t ==> k.1 < firstId
    requires forall j :: 0 <= j < |es| ==> firstId <= es[j].requestId
    ensures forall n :: 0 <= n < |es| ==> (es[n].serverId, es[n].requestId) !in ExportTableUpTo(t, es, n)
  {
    forall n | 0 <= n < |es| ensures (es[n].serverId, es[n].requestId) !in ExportTableUpTo(t, es, n) {
      ExportTableUpToKeys(t, es, n);
    }
  }

  /** The export table holds the old keys and the `[serverId+requestId]` key of every added record. */
  lemma ExportTableKeys(t: map<(string, nat), ServerExport>, es: seq<ServerExport>)
    ensures forall k :: k in ExportTable(t, es) <==>
      k in t || exists j :: 0 <= j < |es| && k == (es[j].serverId, es[j].requestId)
  {
    ExportTableUpToKeys(t, es, |es|);
  }

  lemma {:induction false} ExportTableUpToValues(t: map<(string, nat), ServerExport>, es: seq<ServerExport>, n: nat, j: nat)
    requires j < n <= |es| && forall i :: j < i < n ==> es[i].requestId != es[j].requestId
    ensures (es[j].serverId, es[j].requestId) in ExportTableUpTo(t, es, n)
    ensures ExportTableUpTo(t, es, n)[(es[j].serverId, es[j].requestId)] == es[j]
  {
    if j < n - 1 {
      ExportTableUpToValues(t, es, n - 1, j);
    }
  }

  /** A record whose request id no later record repeats is the one stored under its key. */
  lemma ExportTableValues(t: map<(string, nat), ServerExport>, es: seq<ServerExport>, j: nat)
    requires j < |es| && forall i :: j < i < |es| ==> es[i].requestId != es[j].requestId
    ensures (es[j].serverId, es[j].requestId) in ExportTable(t, es)
    ensures ExportTable(t, es)[(es[j].serverId, es[j].requestId)] == es[j]
  {
    ExportTableUpToValues(t, es, |es|, j);
  }

  /** Every key of the export table names a request below `bound` when the old keys and the batch do. */
  lemma ExportTableBound(t: map<(string, nat), ServerExport>, es: seq<ServerExport>, bound: nat)
    requires forall k :: k in t ==> k.1 < bound
    requires forall j :: 0 <= j < |es| ==> es[j].requestId < bound
    ensures forall k :: k in ExportTable(t, es) ==> k.1 < bound
  {
    ExportTableKeys(t, es);
  }

  /** A batch of inserts keeps every key of the table in [1, next id). */
  lemma InsertedBound<V>(t: map<nat, V>, objs: seq<V>, base: nat)
    requires 1 <= base && forall id :: id in t ==> 1 <= id < base
    ensures forall id :: id in Inserted(t, objs, base) ==> 1 <= id < base + |objs|
  {
    InsertedContents(t, objs, base);
  }

  /**
   * Inserts under fresh ids: every row below `base` stays as it was, and the k-th object gets
   * the id `base + k`, which no old row had.
   */
  lemma InsertedFresh<V>(t: map<nat, V>, objs: seq<V>, base: nat)
    requires forall id :: id in t ==> id < base
    ensures forall id :: id in t ==> id in Inserted(t, objs, base) && Inserted(t, objs, base)[id] == t[id]
    ensures forall k :: 0 <= k < |objs| ==>
      base + k !in t && base + k in Inserted(t, objs, base) && Inserted(t, objs, base)[base + k] == objs[k]
  {
    InsertedContents(t, objs, base);
  }

}
