/** The store adapter every service talks to: a key-indexed table of entities with
    `findById`, `save` (insert or update), `delete` and `findAll`. Ids are assigned by
    the store, starting at 1, and `findAll` lists entities in store (insertion) order. */
module Repositories {
  import opened Results
  import opened Sequences

  /** Every id in `keys` is stored in `rows`. */
  predicate AllStored<T>(keys: seq<int>, rows: map<int, T>)
  {
    forall i | 0 <= i < |keys| :: keys[i] in rows
  }

  /** The entries stored under `keys`, each paired with its id, in the order of `keys`. */
  function Entries<T>(rows: map<int, T>, keys: seq<int>): (r: seq<(int, T)>)
    requires AllStored(keys, rows)
    ensures |r| == |keys|
    ensures forall i | 0 <= i < |r| :: r[i] == (keys[i], rows[keys[i]])
  {
    if keys == [] then [] else [(keys[0], rows[keys[0]])] + Entries(rows, keys[1..])
  }

  /** The id of a listed entry. */
  function Key<T>(e: (int, T)): int
  {
    e.0
  }

  /** A filtered listing lists its ids in the order `keys` gives them. */
  lemma ListingKeepsOrder<T>(rows: map<int, T>, keys: seq<int>, p: ((int, T)) -> bool)
    requires AllStored(keys, rows)
    ensures Subsequence(Map(Filter(Entries(rows, keys), p), Key), keys)
  {
    var es := Entries(rows, keys);
    FilterSubsequence(es, p);
    MapSubsequence(Filter(es, p), es, Key);
    assert Map(es, Key) == keys;
  }

  /** A filtered listing holds exactly the stored entries that pass the filter, each
      once, in the order of `keys`. */
  lemma FilteredEntries<T>(rows: map<int, T>, keys: seq<int>, p: ((int, T)) -> bool)
    requires AllStored(keys, rows) && Distinct(keys)
    requires forall k | k in rows :: k in keys
    ensures var r := Filter(Entries(rows, keys), p);
      && (forall i | 0 <= i < |r| :: r[i].0 in rows && r[i].1 == rows[r[i].0] && p(r[i]))
      && (forall k | k in rows && p((k, rows[k])) :: exists i :: 0 <= i < |r| && r[i].0 == k)
      && Subsequence(Map(r, Key), keys)
      && Distinct(Map(r, Key))
  {
    var es := Entries(rows, keys);
    var r := Filter(es, p);
    forall i | 0 <= i < |r| ensures r[i].0 in rows && r[i].1 == rows[r[i].0] && p(r[i]) {
      assert r[i] in r;
    }
    forall k | k in rows && p((k, rows[k])) ensures exists i :: 0 <= i < |r| && r[i].0 == k {
      var j :| 0 <= j < |keys| && keys[j] == k;
      assert es[j] == (k, rows[k]);
      assert es[j] in r;
    }
    ListingKeepsOrder(rows, keys, p);
    SubsequenceDistinct(Map(r, Key), keys);
  }

  /** Keeps every id but `id`. */
  function Other(id: int): int -> bool
  {
    k => k != id
  }

  /** Keeps every entry but the one stored under `id`. */
  function OtherEntry<T>(id: int): ((int, T)) -> bool
  {
    (e: (int, T)) => e.0 != id
  }

  /** Deleting one id from the table deletes exactly its entry from the listing and
      keeps the others in their order. */
  lemma {:induction false} EntriesWithout<T>(rows: map<int, T>, keys: seq<int>, id: int)
    requires AllStored(keys, rows)
    ensures AllStored(Filter(keys, Other(id)), rows - {id})
    ensures Entries(rows - {id}, Filter(keys, Other(id)))
         == Filter(Entries(rows, keys), OtherEntry(id))
  {
    var kept := Filter(keys, Other(id));
    forall i | 0 <= i < |kept| ensures kept[i] in rows - {id} {
      assert kept[i] in kept;
      var j :| 0 <= j < |keys| && keys[j] == kept[i];
    }
    if keys != [] {
      EntriesWithout(rows, keys[1..], id);
      assert keys == [keys[0]] + keys[1..];
      FilterConcat([keys[0]], keys[1..], Other(id));
      var es := Entries(rows, keys);
      assert es == [es[0]] + es[1..];
      assert es[1..] == Entries(rows, keys[1..]);
      FilterConcat([es[0]], es[1..], OtherEntry(id));
    }
  }

  /** An entity inserted under a fresh id is listed last. */
  lemma EntriesAppend<T>(rows: map<int, T>, keys: seq<int>, id: int, v: T)
    requires AllStored(keys, rows)
    requires id !in keys
    ensures Entries(rows[id := v], keys + [id]) == Entries(rows, keys) + [(id, v)]
  {
    var a, b := Entries(rows[id := v], keys + [id]), Entries(rows, keys) + [(id, v)];
    assert |a| == |b|;
    forall i | 0 <= i < |a| ensures a[i] == b[i] {
      if i < |keys| { assert keys[i] != id; }
    }
  }

  class Repository<T> {
    /** The stored entities, by id. */
    var rows: map<int, T>
    /** The ids of the stored entities, in store order. */
    var order: seq<int>
    /** The id the next inserted entity receives. */
    var nextId: int

    ghost predicate Valid()
      reads this
    {
      && 0 < nextId
      && (forall k | k in rows :: k in order && 0 < k < nextId)
      && AllStored(order, rows)
      && Distinct(order)
    }

    constructor ()
      ensures Valid() && rows == map[] && order == []
    {
      rows, order, nextId := map[], [], 1;
    }

    /** `findById`: the entity stored under `id`, if any. */
    function FindById(id: int): Option<T>
      reads this
    {
      if id in rows then Some(rows[id]) else None
    }

    /** `findAll`: every stored entity exactly once, with its id, in store order. */
    function FindAll(): (r: seq<(int, T)>)
      reads this
      requires Valid()
      ensures |r| == |order| == |rows|
      ensures forall i | 0 <= i < |r| :: r[i].0 in rows && r[i].1 == rows[r[i].0]
      ensures forall i, j | 0 <= i < j < |r| :: r[i].0 != r[j].0
      ensures forall id | id in rows :: exists i :: 0 <= i < |r| && r[i].0 == id
      ensures forall i | 0 <= i < |r| :: r[i].0 == order[i]
    {
      DistinctCardinality(order);
      assert (set x | x in order) == rows.Keys by {
        forall x | x in rows.Keys ensures x in (set x | x in order) {
          assert x in order;
        }
        forall x | x in (set x | x in order) ensures x in rows.Keys {
          assert x in order;
        }
      }
      Entries(rows, order)
    }

    /** `save` of a new entity: stores it under a fresh id, which it returns. */
    method Insert(v: T) returns (id: int)
      requires Valid()
      modifies this
      ensures Valid()
      ensures id !in old(rows) && rows == old(rows)[id := v] && order == old(order) + [id]
      ensures FindAll() == old(FindAll()) + [(id, v)]
    {
      id := nextId;
      EntriesAppend(rows, order, id, v);
      rows, order, nextId := rows[id := v], order + [id], nextId + 1;
    }

    /** `save` of a stored entity: replaces it, keeping its id and place. */
    method Update(id: int, v: T)
      requires Valid() && id in rows
      modifies this
      ensures Valid()
      ensures rows == old(rows)[id := v] && order == old(order) && nextId == old(nextId)
    {
      rows := rows[id := v];
    }

    /** `delete`: removes the entity stored under `id`; nothing else changes. */
    method Delete(id: int)
      requires Valid()
      modifies this
      ensures Valid()
      ensures rows == old(rows) - {id} && order == Filter(old(order), Other(id))
      ensures nextId == old(nextId)
      ensures FindAll() == Filter(old(FindAll()), OtherEntry(id))
    {
      EntriesWithout(rows, order, id);
      FilterDistinct(order, Other(id));
      rows, order := rows - {id}, Filter(order, Other(id));
    }
  }
}
