/** The product service over an abstract store, and the update reconciler. */
module Service {
  import opened Wrappers
  import opened Bson
  import opened Model
  import Converter

  /** The attribute map after `keySet().removeIf`: the current entries whose
      keys the replacement also has. */
  function Retained(current: map<string, Value>, desired: map<string, Value>): (m: map<string, Value>)
    ensures m.Keys == current.Keys * desired.Keys
    ensures forall k :: k in m ==> m[k] == current[k]
  {
    map k | k in current && k in desired :: current[k]
  }

  /** The attribute map after the remove step and then `putAll(desired)`:
      exactly the replacement's attributes. */
  function Synced(current: map<string, Value>, desired: map<string, Value>): (m: map<string, Value>)
    ensures m == desired
  {
    Retained(current, desired) + desired
  }

  /** The record an update stores: the replacement's four fixed fields, the
      replacement's attributes, and the existing id. */
  function Reconciled(existing: Record, replacement: Record): (r: Record)
    ensures r.id == existing.id
    ensures r.name == replacement.name && r.description == replacement.description
    ensures r.category == replacement.category && r.price == replacement.price
    ensures r.fields == replacement.fields
  {
    Record(existing.id, replacement.name, replacement.description, replacement.category,
           replacement.price, Synced(existing.fields, replacement.fields))
  }

  /** Keys the stored record has and the replacement lacks are removed, keys
      the replacement has are updated or added. */
  lemma ReconciledAttributes(existing: Record, replacement: Record, k: string)
    ensures k in existing.fields && k !in replacement.fields ==> k !in Reconciled(existing, replacement).fields
    ensures k in replacement.fields ==> Reconciled(existing, replacement).fields[k] == replacement.fields[k]
  {
  }

  /** Reconciling twice with the same replacement changes nothing more. */
  lemma {:induction false} ReconcileIdempotent(existing: Record, replacement: Record)
    ensures Reconciled(Reconciled(existing, replacement), replacement) == Reconciled(existing, replacement)
  {
  }

  /** The record an update saves reads back unchanged through the storage
      converters when the replacement uses no reserved attribute name. */
  lemma {:induction false} ReconciledSurvivesStorage(existing: Record, replacement: Record)
    requires replacement.fields.Keys !! Converter.Reserved
    ensures Converter.Decoded(Converter.Encoded(Reconciled(existing, replacement))) == Ok(Reconciled(existing, replacement))
  {
    Converter.RoundTrip(Reconciled(existing, replacement));
  }

  /** The store as the service sees it: a fresh product holding a stored record
      (the repository's read path). */
  method Load(r: Record) returns (p: Product)
    ensures fresh(p) && p.Snapshot() == r
  {
    p := new Product();
    p.SetId(r.id);
    p.SetName(r.name);
    p.SetDescription(r.description);
    p.SetCategory(r.category);
    p.SetPrice(r.price);
    p.fields := r.fields;
  }

  /** A sequence of distinct keys that covers exactly the map's keys is as
      long as the map. */
  lemma {:induction false} DistinctKeysCount<V>(ids: seq<ObjectId>, m: map<ObjectId, V>)
    requires forall i :: 0 <= i < |ids| ==> ids[i] in m
    requires forall k :: k in m ==> k in ids
    requires forall i, j :: 0 <= i < j < |ids| ==> ids[i] != ids[j]
    ensures |ids| == |m|
    decreases |ids|
  {
    if ids != [] {
      var last := ids[|ids| - 1];
      var rest := ids[..|ids| - 1];
      var m' := m - {last};
      forall k | k in m' ensures k in rest {
        var i :| 0 <= i < |ids| && ids[i] == k;
        assert i != |ids| - 1;
      }
      forall i | 0 <= i < |rest| ensures rest[i] in m' {
        assert rest[i] == ids[i] != ids[|ids| - 1];
      }
      DistinctKeysCount(rest, m');
    } else {
      assert m.Keys == {};
    }
  }

  /** `fields.keySet().removeIf(k -> !desired.containsKey(k))` applied to the
      live attribute map of `p`. */
  method RemoveMissingFields(p: Product, desired: map<string, Value>)
    modifies p
    ensures p.Snapshot() == old(p.Snapshot()).(fields := Retained(old(p.fields), desired))
  {
    ghost var start := p.fields;
    ghost var fixed := p.Snapshot();
    var candidates := p.fields.Keys;
    while candidates != {}
      invariant candidates <= start.Keys
      invariant p.fields.Keys == start.Keys * (candidates + desired.Keys)
      invariant forall k :: k in p.fields ==> p.fields[k] == start[k]
      invariant p.Snapshot() == fixed.(fields := p.fields)
      decreases candidates
    {
      var k :| k in candidates;
      if k !in desired {
        p.fields := p.fields - {k};
      }
      candidates := candidates - {k};
    }
    assert p.fields == Retained(start, desired);
  }

  /** `fields.putAll(source)` applied to the live attribute map of `p`. */
  method PutAllFields(p: Product, source: map<string, Value>)
    modifies p
    ensures p.Snapshot() == old(p.Snapshot()).(fields := old(p.fields) + source)
  {
    ghost var start := p.fields;
    ghost var fixed := p.Snapshot();
    var pending := source.Keys;
    while pending != {}
      invariant pending <= source.Keys
      invariant p.fields.Keys == start.Keys + (source.Keys - pending)
      invariant forall k :: k in source && k !in pending ==> p.fields[k] == source[k]
      invariant forall k :: k in start && k in pending ==> p.fields[k] == start[k]
      invariant forall k :: k in start && k !in source ==> p.fields[k] == start[k]
      invariant p.Snapshot() == fixed.(fields := p.fields)
      decreases pending
    {
      var k :| k in pending;
      p.fields := p.fields[k := source[k]];
      pending := pending - {k};
    }
    assert p.fields == start + source;
  }

  /** A service over a repository modelled as a map from id to stored record. */
  class ProductService {
    var store: map<ObjectId, Record>

    /** Every stored record carries the id it is stored under. */
    ghost predicate WellKeyed()
      reads this
    {
      forall k :: k in store ==> store[k].id == Some(k)
    }

    constructor (repository: map<ObjectId, Record>)
      requires forall k :: k in repository ==> repository[k].id == Some(k)
      ensures WellKeyed() && store == repository
    {
      store := repository;
    }

    /** `getProductById`: a store lookup. */
    method GetProductById(id: ObjectId) returns (result: Option<Product>)
      ensures result.None? <==> id !in store
      ensures result.Some? ==> fresh(result.value) && result.value.Snapshot() == store[id]
    {
      if id in store {
        var p := Load(store[id]);
        result := Some(p);
      } else {
        result := None;
      }
    }

    /** `getAllProducts`: one fresh product per stored record, in no particular order. */
    method GetAllProducts() returns (all: seq<Product>)
      requires WellKeyed()
      ensures |all| == |store|
      ensures forall i :: 0 <= i < |all| ==> fresh(all[i]) && all[i].Snapshot() in store.Values
      ensures forall id :: id in store ==> exists i :: 0 <= i < |all| && all[i].Snapshot() == store[id]
    {
      all := [];
      ghost var ids: seq<ObjectId> := [];
      var pending := store.Keys;
      while pending != {}
        invariant pending <= store.Keys
        invariant |ids| == |all|
        invariant forall i :: 0 <= i < |ids| ==> ids[i] in store && ids[i] !in pending
        invariant forall id :: id in store && id !in pending ==> id in ids
        invariant forall i, j :: 0 <= i < j < |ids| ==> ids[i] != ids[j]
        invariant forall i :: 0 <= i < |all| ==> fresh(all[i]) && all[i].Snapshot() == store[ids[i]]
        decreases pending
      {
        var id :| id in pending;
        var p := Load(store[id]);
        all := all + [p];
        ids := ids + [id];
        pending := pending - {id};
      }
      DistinctKeysCount(ids, store);
      forall id | id in store
        ensures exists i :: 0 <= i < |all| && all[i].Snapshot() == store[id]
      {
        var i :| 0 <= i < |ids| && ids[i] == id;
        assert all[i].Snapshot() == store[id];
      }
    }

    /** `addProduct`: saves `p` as it is. An id-less product receives the id
        the store generates, `generated`, which is not yet in use. */
    method AddProduct(p: Product, generated: ObjectId)
      requires WellKeyed()
      requires generated !in store
      modifies this, p
      ensures WellKeyed()
      ensures p.Snapshot() == old(p.Snapshot()).(id := Some(if old(p.id).Some? then old(p.id).value else generated))
      ensures store == old(store)[p.id.value := p.Snapshot()]
    {
      if p.id.None? {
        p.SetId(Some(generated));
      }
      store := store[p.id.value := p.Snapshot()];
    }

    /** `updateProduct`: one lookup; on a hit the stored record's fixed fields
        are overwritten, its attributes synced to the replacement's, and the
        result saved under the same id. */
    method UpdateProduct(id: ObjectId, updated: Product) returns (result: Option<Product>)
      requires WellKeyed()
      modifies this
      ensures WellKeyed()
      ensures id !in old(store) ==> result == None && store == old(store)
      ensures id in old(store) ==>
                && result.Some? && fresh(result.value)
                && result.value.Snapshot() == Reconciled(old(store[id]), updated.Snapshot())
                && store == old(store)[id := result.value.Snapshot()]
    {
      if id !in store {
        return None;
      }
      var existing := Load(store[id]);

      existing.SetName(updated.name);
      existing.SetDescription(updated.description);
      existing.SetCategory(updated.category);
      existing.SetPrice(updated.price);

      var updatedFields := updated.fields;
      RemoveMissingFields(existing, updatedFields);
      PutAllFields(existing, updatedFields);

      store := store[id := existing.Snapshot()];
      result := Some(existing);
    }

    /** `deleteProduct`: removes `id`, and nothing else; an unknown id is a no-op. */
    method DeleteProduct(id: ObjectId)
      requires WellKeyed()
      modifies this
      ensures WellKeyed()
      ensures store == old(store) - {id}
    {
      store := store - {id};
    }
  }
}
