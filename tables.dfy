/**
 * Tables kept in key order: the shape of an IndexedDB object store with a natural key
 * (and of a JavaScript object with integer keys, whose `Object.keys` lists them ascending).
 * A table is a sequence of rows strictly increasing in its key.
 */
module Tables {
  import opened Wrappers
  import Text

  datatype Row<K, V> = Row(key: K, value: V)

  /** `lt` is a strict total order. */
  ghost predicate StrictOrder<K(!new)>(lt: (K, K) -> bool)
  {
    && (forall a :: !lt(a, a))
    && (forall a, b, c :: lt(a, b) && lt(b, c) ==> lt(a, c))
    && (forall a, b :: a != b ==> lt(a, b) || lt(b, a))
  }

  predicate Sorted<K, V>(t: seq<Row<K, V>>, lt: (K, K) -> bool)
  {
    forall i, j :: 0 <= i < j < |t| ==> lt(t[i].key, t[j].key)
  }

  function StrKeyLt(a: string, b: string): bool { Text.StrLt(a, b) }

  /** The order of a compound index `[first+second]`: by the first component, then the second. */
  function PairLt(a: (string, string), b: (string, string)): bool
  {
    Text.StrLt(a.0, b.0) || (a.0 == b.0 && Text.StrLt(a.1, b.1))
  }

  lemma StrOrder()
    ensures StrictOrder(StrKeyLt)
  {
    forall a: string ensures !StrKeyLt(a, a) {
      Text.StrLtIrreflexive(a);
    }
    forall a: string, b: string, c: string | StrKeyLt(a, b) && StrKeyLt(b, c)
      ensures StrKeyLt(a, c)
    {
      Text.StrLtTransitive(a, b, c);
    }
    forall a: string, b: string | a != b ensures StrKeyLt(a, b) || StrKeyLt(b, a) {
      Text.StrLtTotal(a, b);
    }
  }

  lemma PairOrder()
    ensures StrictOrder(PairLt)
  {
    forall a: (string, string) ensures !PairLt(a, a) {
      Text.StrLtIrreflexive(a.0);
      Text.StrLtIrreflexive(a.1);
    }
    forall a: (string, string), b: (string, string), c: (string, string) | PairLt(a, b) && PairLt(b, c)
      ensures PairLt(a, c)
    {
      if Text.StrLt(a.0, b.0) && Text.StrLt(b.0, c.0) {
        Text.StrLtTransitive(a.0, b.0, c.0);
      } else if a.0 == b.0 && b.0 == c.0 {
        Text.StrLtTransitive(a.1, b.1, c.1);
      }
    }
    forall a: (string, string), b: (string, string) | a != b ensures PairLt(a, b) || PairLt(b, a) {
      if a.0 != b.0 {
        Text.StrLtTotal(a.0, b.0);
      } else {
        Text.StrLtTotal(a.1, b.1);
      }
    }
  }

  /** The value stored under `k`, or None: `table.get(k)`. */
  function Find<K(==), V>(t: seq<Row<K, V>>, k: K): (r: Option<V>)
    ensures r.None? <==> forall i :: 0 <= i < |t| ==> t[i].key != k
    ensures r.Some? ==> exists i :: 0 <= i < |t| && t[i] == Row(k, r.value)
  {
    if t == [] then None
    else if t[0].key == k then Some(t[0].value)
    else
      var r := Find(t[1..], k);
      assert r.Some? ==> exists i :: 0 <= i < |t| - 1 && t[1..][i] == Row(k, r.value);
      r
  }

  /** In a sorted table a key names at most one row. */
  lemma {:induction false} KeysUnique<K(!new), V>(t: seq<Row<K, V>>, lt: (K, K) -> bool, i: nat, j: nat)
    requires StrictOrder(lt) && Sorted(t, lt)
    requires i < |t| && j < |t| && t[i].key == t[j].key
    ensures i == j
  {
  }

  /** In a sorted table, Find returns the value of the row that has the key. */
  lemma FindRow<K(!new), V>(t: seq<Row<K, V>>, lt: (K, K) -> bool, i: nat)
    requires StrictOrder(lt) && Sorted(t, lt) && i < |t|
    ensures Find(t, t[i].key) == Some(t[i].value)
  {
    var r := Find(t, t[i].key);
    var j :| 0 <= j < |t| && t[j] == Row(t[i].key, r.value);
    KeysUnique(t, lt, i, j);
  }

  /** Lower bound on every key of a sorted table whose first key is bounded. */
  lemma BelowAll<K(!new), V>(t: seq<Row<K, V>>, lt: (K, K) -> bool, k: K)
    requires StrictOrder(lt) && Sorted(t, lt)
    requires t != [] && lt(k, t[0].key)
    ensures forall i :: 0 <= i < |t| ==> lt(k, t[i].key)
  {
    forall i | 0 < i < |t| ensures lt(k, t[i].key) {
      assert lt(t[0].key, t[i].key);
    }
  }

  /**
   * `table.put(row)`: the row replaces the one with the same key, or is inserted at its place
   * in key order (PutMembers states which rows the table then holds).
   */
  function Put<K(==,!new), V(==,!new)>(t: seq<Row<K, V>>, r: Row<K, V>, lt: (K, K) -> bool): (u: seq<Row<K, V>>)
    requires StrictOrder(lt) && Sorted(t, lt)
    ensures Sorted(u, lt)
    ensures u != [] && (u[0].key == r.key || (t != [] && u[0] == t[0]))
  {
    if t == [] then [r]
    else if t[0].key == r.key then
      [r] + t[1..]
    else if lt(r.key, t[0].key) then
      BelowAll(t, lt, r.key);
      [r] + t
    else
      var rest := Put(t[1..], r, lt);
      assert lt(t[0].key, rest[0].key);
      BelowAll(rest, lt, t[0].key);
      [t[0]] + rest
  }

  /** The rows of a table after a put: the new row, and every old row with another key. */
  lemma {:induction false} PutMembers<K(!new), V(!new)>(t: seq<Row<K, V>>, r: Row<K, V>, lt: (K, K) -> bool)
    requires StrictOrder(lt) && Sorted(t, lt)
    ensures forall x :: x in Put(t, r, lt) <==> x == r || (x in t && x.key != r.key)
    ensures |Put(t, r, lt)| == if Find(t, r.key).Some? then |t| else |t| + 1
  {
    if t == [] {
    } else if t[0].key == r.key {
      forall x | x in t[1..] ensures x.key != r.key {
        var i :| 1 <= i < |t| && t[i] == x;
        assert lt(t[0].key, t[i].key);
      }
      forall x ensures x in t <==> x == t[0] || x in t[1..] {
        assert x in t <==> x == t[0] || x in t[1..];
      }
    } else if lt(r.key, t[0].key) {
      BelowAll(t, lt, r.key);
      forall x | x in t ensures x.key != r.key {
        assert lt(r.key, x.key);
      }
    } else {
      PutMembers(t[1..], r, lt);
      var rest := Put(t[1..], r, lt);
      var u := [t[0]] + rest;
      assert Put(t, r, lt) == u;
      assert forall i :: 0 < i < |u| ==> u[i] in rest;
      forall x ensures x in u <==> x == r || (x in t && x.key != r.key) {
        assert x in t <==> x == t[0] || x in t[1..];
      }
    }
  }

  /** Reading a key after a put: the put row for its own key, the old value for any other. */
  lemma FindPut<K(!new), V(!new)>(t: seq<Row<K, V>>, r: Row<K, V>, lt: (K, K) -> bool, k: K)
    requires StrictOrder(lt) && Sorted(t, lt)
    ensures Find(Put(t, r, lt), k) == if k == r.key then Some(r.value) else Find(t, k)
  {
    if k == r.key {
      FindPutSame(t, r, lt);
    } else {
      FindPutOther(t, r, lt, k);
    }
  }

  lemma FindPutSame<K(!new), V(!new)>(t: seq<Row<K, V>>, r: Row<K, V>, lt: (K, K) -> bool)
    requires StrictOrder(lt) && Sorted(t, lt)
    ensures Find(Put(t, r, lt), r.key) == Some(r.value)
  {
    var u := Put(t, r, lt);
    PutMembers(t, r, lt);
    assert r in u;
    var j :| 0 <= j < |u| && u[j] == r;
    FindRow(u, lt, j);
  }

  lemma FindPutOther<K(!new), V(!new)>(t: seq<Row<K, V>>, r: Row<K, V>, lt: (K, K) -> bool, k: K)
    requires StrictOrder(lt) && Sorted(t, lt) && k != r.key
    ensures Find(Put(t, r, lt), k) == Find(t, k)
  {
    if j :| 0 <= j < |t| && t[j].key == k {
      FindPutKept(t, r, lt, j);
    } else {
      var u := Put(t, r, lt);
      PutMembers(t, r, lt);
      forall i | 0 <= i < |u| ensures u[i].key != k {
        assert u[i] in u;
      }
    }
  }

  lemma FindPutKept<K(!new), V(!new)>(t: seq<Row<K, V>>, r: Row<K, V>, lt: (K, K) -> bool, j: nat)
    requires StrictOrder(lt) && Sorted(t, lt) && j < |t| && t[j].key != r.key
    ensures Find(Put(t, r, lt), t[j].key) == Find(t, t[j].key)
  {
    var u := Put(t, r, lt);
    PutMembers(t, r, lt);
    assert t[j] in u;
    var i :| 0 <= i < |u| && u[i] == t[j];
    FindRow(u, lt, i);
    FindRow(t, lt, j);
  }

  /** `table.add(row)`: like Put, but it fails when the key is already taken. */
  function Add<K(==,!new), V(==,!new)>(t: seq<Row<K, V>>, r: Row<K, V>, lt: (K, K) -> bool): (u: Option<seq<Row<K, V>>>)
    requires StrictOrder(lt) && Sorted(t, lt)
    ensures u.None? <==> exists i :: 0 <= i < |t| && t[i].key == r.key
    ensures u.Some? ==> Sorted(u.value, lt) && |u.value| == |t| + 1
    ensures u.Some? ==> forall x :: x in u.value <==> x == r || x in t
  {
    if Find(t, r.key).Some? then None
    else
      PutMembers(t, r, lt);
      Some(Put(t, r, lt))
  }

  /** The rows that satisfy `keep`, in table order: a filtered cursor over the store. */
  function Select<K(!new), V(!new)>(t: seq<Row<K, V>>, keep: Row<K, V> -> bool, ghost lt: (K, K) -> bool): (u: seq<Row<K, V>>)
    requires Sorted(t, lt)
    ensures Sorted(u, lt)
    ensures forall x :: x in u <==> x in t && keep(x)
  {
    if t == [] then []
    else
      var rest := Select(t[1..], keep, lt);
      if keep(t[0]) then
        forall x | x in rest ensures lt(t[0].key, x.key) {
          var i :| 1 <= i < |t| && t[i] == x;
        }
        var u := [t[0]] + rest;
        assert forall i :: 0 < i < |u| ==> u[i] in rest;
        forall x ensures x in u <==> x in t && keep(x) {
          assert x in t <==> x == t[0] || x in t[1..];
        }
        u
      else
        forall x ensures x in rest <==> x in t && keep(x) {
          assert x in t <==> x == t[0] || x in t[1..];
        }
        rest
  }

  /**
   * The keys below `bound` of a map keyed by auto-increment ids whose row satisfies `keep`,
   * ascending: the order in which a query over the primary key or over an index on one
   * value delivers its rows.
   */
  function KeysBelow<V>(m: map<nat, V>, keep: (nat, V) -> bool, bound: nat): (ks: seq<nat>)
    ensures forall i, j :: 0 <= i < j < |ks| ==> ks[i] < ks[j]
    ensures forall k :: k in ks <==> k < bound && k in m && keep(k, m[k])
  {
    if bound == 0 then []
    else
      var ks := KeysBelow(m, keep, bound - 1);
      assert forall i :: 0 <= i < |ks| ==> ks[i] in ks;
      if bound - 1 in m && keep(bound - 1, m[bound - 1]) then ks + [bound - 1] else ks
  }

  /** A query over two maps that agree on their keys and on `keep` returns the same keys. */
  lemma {:induction false} KeysBelowSame<V>(m: map<nat, V>, m': map<nat, V>, keep: (nat, V) -> bool, bound: nat)
    requires forall k :: k in m <==> k in m'
    requires forall k :: k in m ==> keep(k, m[k]) == keep(k, m'[k])
    ensures KeysBelow(m, keep, bound) == KeysBelow(m', keep, bound)
  {
    if bound != 0 {
      KeysBelowSame(m, m', keep, bound - 1);
    }
  }
}
