/**
 * The buffered multi-value store `KvvBufUsed`: a scratch layer of per-key
 * deltas over a persisted key -> set-of-values multi-map.
 *
 * The persisted side is the `MultiStore` class (an LMDB duplicate-sorted
 * database: a key holds a set of distinct values, and a key whose last value
 * is removed disappears).  The scratch is a map from key to `ValuesDelta`:
 * a `delete_all` marker plus, per value, the last operation recorded for it.
 */
module KvvStore {

  /** The operation recorded in scratch for one value of one key. */
  datatype KvvOp = Insert | Delete

  /** Scratch of one key: whether `delete_all` was called, and one op per value. */
  datatype ValuesDelta<V> = ValuesDelta(deleteAll: bool, deltas: map<V, KvvOp>)

  /** The default delta a key gets on its first `insert` or `delete`. */
  function NoDelta<V>(): ValuesDelta<V> {
    ValuesDelta(false, map[])
  }

  /** What `delete_all` leaves as the key's whole scratch. */
  function AllDeleted<V>(): ValuesDelta<V> {
    ValuesDelta(true, map[])
  }

  /** Values whose recorded op is `Insert`. */
  function Inserted<V>(d: ValuesDelta<V>): set<V> {
    set v | v in d.deltas && d.deltas[v] == Insert
  }

  /** Values whose recorded op is `Delete` (tombstones). */
  function Deleted<V>(d: ValuesDelta<V>): set<V> {
    set v | v in d.deltas && d.deltas[v] == Delete
  }

  /**
   * The values `get` yields for a key whose persisted set is `persisted`
   * and whose scratch is `d`; also what `flush_to_txn` leaves persisted.
   */
  function Overlay<V>(persisted: set<V>, d: ValuesDelta<V>): (r: set<V>)
    ensures Inserted(d) <= r && r !! Deleted(d)
    ensures r <= persisted + Inserted(d)
    ensures d.deleteAll ==> r == Inserted(d)
    ensures !d.deleteAll ==> persisted - Deleted(d) <= r
  {
    (if d.deleteAll then {} else persisted - Deleted(d)) + Inserted(d)
  }

  /** One scratch mutation of a single key. */
  datatype Mutation<V> = InsertValue(v: V) | DeleteValue(v: V) | DeleteAllValues

  /** How a mutation changes the key's scratch (`insert`, `delete`, `delete_all`). */
  function Record<V>(d: ValuesDelta<V>, m: Mutation<V>): ValuesDelta<V> {
    match m
    case InsertValue(v) => d.(deltas := d.deltas[v := Insert])
    case DeleteValue(v) => d.(deltas := d.deltas[v := Delete])
    case DeleteAllValues => AllDeleted()
  }

  /** The scratch after a sequence of mutations, in order. */
  function RecordAll<V>(d: ValuesDelta<V>, ms: seq<Mutation<V>>): ValuesDelta<V>
    decreases |ms|
  {
    if ms == [] then d else RecordAll(Record(d, ms[0]), ms[1..])
  }

  /**
   * Reference semantics: the same mutations applied directly to a plain set
   * of values, with no scratch and no persisted layer.
   */
  function Mutate<V>(s: set<V>, m: Mutation<V>): set<V> {
    match m
    case InsertValue(v) => s + {v}
    case DeleteValue(v) => s - {v}
    case DeleteAllValues => {}
  }

  function MutateAll<V>(s: set<V>, ms: seq<Mutation<V>>): set<V>
    decreases |ms|
  {
    if ms == [] then s else MutateAll(Mutate(s, ms[0]), ms[1..])
  }

  /** One recorded mutation changes the visible values exactly as on a plain set. */
  lemma RecordIsMutate<V>(persisted: set<V>, d: ValuesDelta<V>, m: Mutation<V>)
    ensures Overlay(persisted, Record(d, m)) == Mutate(Overlay(persisted, d), m)
  {
    var d' := Record(d, m);
    match m
    case InsertValue(v) =>
      assert Inserted(d') == Inserted(d) + {v};
      assert Deleted(d') == Deleted(d) - {v};
    case DeleteValue(v) =>
      assert Inserted(d') == Inserted(d) - {v};
      assert Deleted(d') == Deleted(d) + {v};
    case DeleteAllValues =>
      assert Inserted(d') == {};
  }

  /**
   * The buffered store is observationally a plain set: after any sequence of
   * `insert`/`delete`/`delete_all` on a key, `get` yields exactly what the
   * same sequence would leave in a plain set that started as the visible values.
   */
  lemma {:induction false} RecordAllIsMutateAll<V>(persisted: set<V>, d: ValuesDelta<V>, ms: seq<Mutation<V>>)
    ensures Overlay(persisted, RecordAll(d, ms)) == MutateAll(Overlay(persisted, d), ms)
    decreases |ms|
  {
    if ms != [] {
      RecordIsMutate(persisted, d, ms[0]);
      RecordAllIsMutateAll(persisted, Record(d, ms[0]), ms[1..]);
    }
  }

  /** A later `insert` of a value already recorded as inserted changes nothing in scratch. */
  lemma InsertTwiceRecordsOnce<V>(d: ValuesDelta<V>, v: V)
    ensures Record(Record(d, InsertValue(v)), InsertValue(v)) == Record(d, InsertValue(v))
  {
  }

  /** Re-inserting a value that is already visible, from scratch or persisted, adds no duplicate. */
  lemma InsertVisibleIsIdempotent<V>(persisted: set<V>, d: ValuesDelta<V>, v: V)
    requires v in Overlay(persisted, d)
    ensures Overlay(persisted, Record(d, InsertValue(v))) == Overlay(persisted, d)
  {
    RecordIsMutate(persisted, d, InsertValue(v));
  }

  /**
   * `delete_all` hides both the persisted values and earlier scratch inserts:
   * only the values inserted after it are visible.
   */
  lemma {:induction false} DeleteAllThenInserts<V>(persisted: set<V>, d: ValuesDelta<V>, later: seq<V>)
    ensures Overlay(persisted, RecordAll(d, [DeleteAllValues] + Inserts(later))) == (set v | v in later)
  {
    RecordAllIsMutateAll(persisted, d, [DeleteAllValues] + Inserts(later));
    assert ([DeleteAllValues] + Inserts(later))[1..] == Inserts(later);
    MutateAllInserts({}, later);
  }

  function Inserts<V>(vs: seq<V>): (ms: seq<Mutation<V>>)
    ensures |ms| == |vs|
    ensures forall i :: 0 <= i < |vs| ==> ms[i] == InsertValue(vs[i])
  {
    if vs == [] then [] else [InsertValue(vs[0])] + Inserts(vs[1..])
  }

  lemma {:induction false} MutateAllInserts<V>(s: set<V>, vs: seq<V>)
    ensures MutateAll(s, Inserts(vs)) == s + (set v | v in vs)
    decreases |vs|
  {
    if vs != [] {
      var ms := Inserts(vs);
      assert ms[1..] == Inserts(vs[1..]);
      MutateAllInserts(s + {vs[0]}, vs[1..]);
      assert (set v | v in vs) == {vs[0]} + (set v | v in vs[1..]);
    }
  }

  /**
   * Insert then delete of the same value in one scratch leaves a `Delete`
   * marker for it, and nothing of it is visible or flushed for a key that had
   * nothing persisted.
   */
  lemma InsertThenDeleteLeavesTombstone<V>(d: ValuesDelta<V>, v: V)
    requires d == NoDelta()
    ensures var d' := Record(Record(d, InsertValue(v)), DeleteValue(v));
      d'.deltas == map[v := Delete] && Overlay({}, d') == {}
  {
    var d' := Record(Record(d, InsertValue(v)), DeleteValue(v));
    assert Inserted(d') == {};
  }

  /** A scratch that was never touched shows the persisted values unchanged. */
  lemma UntouchedKeyShowsPersisted<V>(persisted: set<V>)
    ensures Overlay(persisted, NoDelta()) == persisted
  {
    assert Inserted(NoDelta<V>()) == {};
    assert Deleted(NoDelta<V>()) == {};
  }

  /**
   * The persisted multi-map.  Keys whose value set becomes empty are removed,
   * so every stored set is non-empty.
   */
  class MultiStore<K(==,!new), V(==)> {
    var data: map<K, set<V>>

    ghost predicate Valid()
      reads this
    {
      forall k :: k in data ==> data[k] != {}
    }

    /** The values persisted for `k` (`get_persisted`). */
    function Persisted(k: K): (r: set<V>)
      reads this
      ensures k !in data ==> r == {}
      ensures k in data ==> r == data[k]
    {
      if k in data then data[k] else {}
    }

    constructor ()
      ensures Valid() && data == map[]
    {
      data := map[];
    }

    /** Add one value under a key (a duplicate value is not stored twice). */
    method Put(k: K, v: V)
      requires Valid()
      modifies this
      ensures Valid()
      ensures Persisted(k) == old(Persisted(k)) + {v}
      ensures forall k' :: k' != k ==> Persisted(k') == old(Persisted(k'))
    {
      data := data[k := Persisted(k) + {v}];
    }

    /** Remove one value under a key; removing the last value removes the key. */
    method DeleteValue(k: K, v: V)
      requires Valid()
      modifies this
      ensures Valid()
      ensures Persisted(k) == old(Persisted(k)) - {v}
      ensures forall k' :: k' != k ==> Persisted(k') == old(Persisted(k'))
    {
      var rest := Persisted(k) - {v};
      if rest == {} {
        data := data - {k};
      } else {
        data := data[k := rest];
      }
    }

    /** Remove every value under a key. */
    method DeleteAll(k: K)
      requires Valid()
      modifies this
      ensures Valid()
      ensures Persisted(k) == {}
      ensures forall k' :: k' != k ==> Persisted(k') == old(Persisted(k'))
    {
      data := data - {k};
    }
  }

  /** `KvvBufUsed`: a scratch of per-key deltas over a shared `MultiStore`. */
  class KvvBuf<K(==,!new), V(==)> {
    const db: MultiStore<K, V>
    var scratch: map<K, ValuesDelta<V>>

    /** A new store over `db`, with an empty scratch. */
    constructor (db: MultiStore<K, V>)
      ensures this.db == db && scratch == map[]
    {
      this.db := db;
      scratch := map[];
    }

    function DeltaFor(k: K): ValuesDelta<V>
      reads this
    {
      if k in scratch then scratch[k] else NoDelta()
    }

    /** The values `get` yields for `k`: scratch layered over persisted. */
    function View(k: K): set<V>
      reads this, db
    {
      Overlay(db.Persisted(k), DeltaFor(k))
    }

    method Insert(k: K, v: V)
      modifies this
      ensures scratch == old(scratch)[k := Record(old(DeltaFor(k)), InsertValue(v))]
      ensures View(k) == old(View(k)) + {v}
    {
      var d := DeltaFor(k);
      scratch := scratch[k := d.(deltas := d.deltas[v := KvvOp.Insert])];
      RecordIsMutate(db.Persisted(k), d, InsertValue(v));
    }

    method Delete(k: K, v: V)
      modifies this
      ensures scratch == old(scratch)[k := Record(old(DeltaFor(k)), DeleteValue(v))]
      ensures View(k) == old(View(k)) - {v}
    {
      var d := DeltaFor(k);
      scratch := scratch[k := d.(deltas := d.deltas[v := KvvOp.Delete])];
      RecordIsMutate(db.Persisted(k), d, DeleteValue(v));
    }

    method DeleteAll(k: K)
      modifies this
      ensures scratch == old(scratch)[k := AllDeleted()]
      ensures View(k) == {}
    {
      scratch := scratch[k := ValuesDelta(true, map[])];
    }

    /**
     * `get`: the persisted values that scratch does not mention (none at all
     * after `delete_all`), followed by the values scratch inserted.  No value
     * is yielded twice.
     */
    method Get(k: K) returns (vs: seq<V>)
      ensures forall i, j :: 0 <= i < j < |vs| ==> vs[i] != vs[j]
      ensures forall v :: v in vs <==> v in View(k)
    {
      var d := DeltaFor(k);
      vs := [];
      if !d.deleteAll {
        var rest := db.Persisted(k);
        while rest != {}
          invariant rest <= db.Persisted(k)
          invariant forall i, j :: 0 <= i < j < |vs| ==> vs[i] != vs[j]
          invariant forall v :: v in vs <==> v in db.Persisted(k) - rest && v !in d.deltas
          decreases rest
        {
          var v :| v in rest;
          if v !in d.deltas {
            vs := vs + [v];
          }
          rest := rest - {v};
        }
      }
      var added := Inserted(d);
      while added != {}
        invariant added <= Inserted(d)
        invariant forall i, j :: 0 <= i < j < |vs| ==> vs[i] != vs[j]
        invariant forall v :: v in vs <==>
          (v in Inserted(d) - added) || (!d.deleteAll && v in db.Persisted(k) && v !in d.deltas)
        decreases added
      {
        var v :| v in added;
        vs := vs + [v];
        added := added - {v};
      }
    }

    /** Apply one key's delta to the persisted store, value by value. */
    method FlushKey(k: K, d: ValuesDelta<V>)
      requires db.Valid()
      modifies db
      ensures db.Valid()
      ensures db.Persisted(k) == Overlay(old(db.Persisted(k)), d)
      ensures forall k' :: k' != k ==> db.Persisted(k') == old(db.Persisted(k'))
    {
      if d.deleteAll {
        db.DeleteAll(k);
      }
      ghost var base := db.Persisted(k);
      assert base == if d.deleteAll then {} else old(db.Persisted(k));
      var pending := d.deltas.Keys;
      while pending != {}
        invariant db.Valid()
        invariant pending <= d.deltas.Keys
        invariant db.Persisted(k) ==
          (base - (Deleted(d) - pending)) + (Inserted(d) - pending)
        invariant forall k' :: k' != k ==> db.Persisted(k') == old(db.Persisted(k'))
        decreases pending
      {
        var v :| v in pending;
        if d.deltas[v] == KvvOp.Insert {
          db.Put(k, v);
        } else {
          db.DeleteValue(k, v);
        }
        pending := pending - {v};
      }
    }

    /**
     * `flush_to_txn`: write every key's delta into the persisted store and
     * hand over the scratch.  Afterwards the persisted values of every key are
     * what `get` showed before the flush, so a fresh store over `db` sees them.
     */
    method FlushToTxn()
      requires db.Valid()
      modifies this, db
      ensures db.Valid() && scratch == map[]
      ensures forall k :: db.Persisted(k) == old(View(k))
    {
      forall k | k !in scratch
        ensures View(k) == db.Persisted(k)
      {
        UntouchedKeyShowsPersisted(db.Persisted(k));
      }
      var pending := scratch.Keys;
      while pending != {}
        invariant db.Valid()
        invariant pending <= scratch.Keys && scratch == old(scratch)
        invariant forall k :: k in pending ==> db.Persisted(k) == old(db.Persisted(k))
        invariant forall k :: k !in pending ==> db.Persisted(k) == old(View(k))
        decreases pending
      {
        var k :| k in pending;
        FlushKey(k, scratch[k]);
        pending := pending - {k};
      }
      scratch := map[];
    }
  }
}
