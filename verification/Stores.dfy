/** Key-value stores and stream ingestion: all the puts of a stream in one transaction. */
module Stores {
  import opened Wrappers

  datatype Put<K, V> = Put(key: K, value: V)

  function PutItem<K, V>(store: map<K, V>, item: Put<K, V>): map<K, V> {
    store[item.key := item.value]
  }

  /** The left fold of an ingestion's puts. */
  function PutAll<K, V>(store: map<K, V>, items: seq<Put<K, V>>): map<K, V> {
    if items == [] then store else PutItem(PutAll(store, items[..|items| - 1]), items[|items| - 1])
  }

  /** `i` is the last put of its key. */
  predicate LastPut<K(==), V>(items: seq<Put<K, V>>, i: nat) {
    i < |items| && forall j :: i < j < |items| ==> items[j].key != items[i].key
  }

  predicate HasPut<K(==), V>(items: seq<Put<K, V>>, k: K) {
    exists i :: 0 <= i < |items| && items[i].key == k
  }

  /** The fold keeps what it does not touch, and has the keys of the store and of the stream. */
  lemma {:induction false} PutAllKeys<K, V>(store: map<K, V>, items: seq<Put<K, V>>, k: K)
    ensures k in PutAll(store, items) <==> k in store || HasPut(items, k)
    ensures k in store && !HasPut(items, k) ==> PutAll(store, items)[k] == store[k]
  {
    if items == [] {
    } else {
      var n := |items| - 1;
      PutAllKeys(store, items[..n], k);
      assert HasPut(items[..n], k) ==> HasPut(items, k);
    }
  }

  /** The last put of a key wins. */
  lemma {:induction false} LastPutWins<K, V>(store: map<K, V>, items: seq<Put<K, V>>, i: nat)
    requires LastPut(items, i)
    ensures items[i].key in PutAll(store, items) && PutAll(store, items)[items[i].key] == items[i].value
  {
    var n := |items| - 1;
    if i < n {
      assert LastPut(items[..n], i);
      LastPutWins(store, items[..n], i);
    }
  }

  /** Which engine call fails during an ingestion, if any. */
  datatype Faults = Faults(begin: bool, put: Option<nat>, commit: bool)
  {
    predicate Strike(n: nat) { begin || (put.Some? && put.value < n) || commit }
  }

  /** The wrapper around one database, without interference from other tasks. */
  class Database<K(==), V> {
    var committed: map<K, V>
    var writerBusy: bool

    constructor (store: map<K, V>)
      ensures committed == store && !writerBusy
    {
      committed, writerBusy := store, false;
    }

    /** `ingest_stream`: one transaction, one put per item, one commit. It succeeds exactly when no
        engine call fails; then it counts the items, equal keys included, and publishes their fold.
        Otherwise nothing is published. The mutex is free again either way. */
    method IngestStream(items: seq<Put<K, V>>, faults: Faults) returns (r: Option<nat>)
      requires !writerBusy
      modifies this`committed, this`writerBusy
      ensures r == (if faults.Strike(|items|) then None else Some(|items|))
      ensures committed == if r.Some? then PutAll(old(committed), items) else old(committed)
      ensures !writerBusy
    {
      writerBusy := true;
      if faults.begin {
        writerBusy := false;
        return None;
      }
      var txn := committed;
      var count := 0;
      while count < |items|
        invariant count <= |items|
        invariant txn == PutAll(old(committed), items[..count])
        invariant committed == old(committed)
        invariant faults.put.Some? ==> count <= faults.put.value
      {
        if faults.put == Some(count) {
          writerBusy := false;
          return None;
        }
        assert items[..count + 1][..count] == items[..count];
        txn := PutItem(txn, items[count]);
        count := count + 1;
      }
      assert items[..count] == items;
      if !faults.commit {
        committed := txn;
        r := Some(count);
      } else {
        r := None;
      }
      writerBusy := false;
    }
  }

  /** The SQLite wrapper ingests by plain inserts into a table without a key. */
  class Table<Row> {
    var rows: seq<Row>

    constructor ()
      ensures rows == []
    {
      rows := [];
    }

    method IngestStream(items: seq<Row>, faults: Faults) returns (r: Option<nat>)
      modifies this`rows
      ensures r == (if faults.Strike(|items|) then None else Some(|items|))
      ensures rows == if r.Some? then old(rows) + items else old(rows)
    {
      if faults.begin {
        return None;
      }
      var tx := rows;
      var count := 0;
      while count < |items|
        invariant count <= |items|
        invariant tx == old(rows) + items[..count]
        invariant rows == old(rows)
        invariant faults.put.Some? ==> count <= faults.put.value
      {
        if faults.put == Some(count) {
          return None;
        }
        tx := tx + [items[count]];
        count := count + 1;
      }
      if faults.commit {
        return None;
      }
      rows := tx;
      return Some(count);
    }
  }
}
