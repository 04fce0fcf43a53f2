/**
 * `VehicleDB` (src/pages/Admin.tsx): the browser-side store of the admin page. Its
 * `vehicles` object store is keyed by the record's `id`; its `auth` object store holds one
 * record under the key `authenticated`. The database connection, the transactions and the
 * request callbacks are not modelled: each operation is its effect on the stored data.
 */
module Store {
  import opened Wrappers
  import opened Seqs
  import opened Vehicles
  import opened StringOrder

  /** The error `add` reports for a key that is already present. */
  const ConstraintError := "ConstraintError"

  /** Every record sits under its own `id`, as an object store with key path `id` keeps it. */
  predicate KeyedById(m: map<string, Vehicle>)
  {
    forall k | k in m :: m[k].id == k
  }

  /** `store.add(v)`: refuses a key already present and otherwise inserts the record. */
  function Add(m: map<string, Vehicle>, v: Vehicle): (r: Result<map<string, Vehicle>, string>)
    ensures r.Success? <==> v.id !in m
    ensures r.Failure? ==> r.error == ConstraintError
    ensures r.Success? ==> r.value.Keys == m.Keys + {v.id} && r.value[v.id] == v
    ensures r.Success? ==> forall k | k in m :: r.value[k] == m[k]
  {
    if v.id in m then Failure(ConstraintError) else Success(m[v.id := v])
  }

  /** `store.put(v)`: inserts the record or replaces the one under its key. */
  function Put(m: map<string, Vehicle>, v: Vehicle): (r: map<string, Vehicle>)
    ensures r.Keys == m.Keys + {v.id} && r[v.id] == v
    ensures forall k | k in m && k != v.id :: r[k] == m[k]
  {
    m[v.id := v]
  }

  /** `store.delete(id)`: removes that key, if present, and nothing else. */
  function Delete(m: map<string, Vehicle>, id: string): (r: map<string, Vehicle>)
    ensures r.Keys == m.Keys - {id}
    ensures forall k | k in r :: r[k] == m[k]
  {
    m - {id}
  }

  /** The store after an `add` whose failure is caught and ignored. */
  function AddOrKeep(m: map<string, Vehicle>, v: Vehicle): map<string, Vehicle>
  {
    match Add(m, v)
    case Success(m') => m'
    case Failure(_) => m
  }

  /** The store after adding `vs` one at a time, each failure ignored. */
  function AddAll(m: map<string, Vehicle>, vs: seq<Vehicle>): map<string, Vehicle>
  {
    if vs == [] then m else AddOrKeep(AddAll(m, vs[..|vs| - 1]), vs[|vs| - 1])
  }

  /** `getAuthStatus`: `result?.value || false`, so an unset flag reads as `false`. */
  function AuthValue(auth: Option<bool>): (b: bool)
    ensures auth.None? ==> !b
    ensures auth.Some? ==> b == auth.value
  {
    match auth
    case Some(value) => value
    case None => false
  }

  /** The keys of a list of records, in order. */
  function Ids(vs: seq<Vehicle>): (ids: seq<string>)
    ensures |ids| == |vs| && forall i | 0 <= i < |vs| :: ids[i] == vs[i].id
  {
    seq(|vs|, i requires 0 <= i < |vs| => vs[i].id)
  }

  /** `getAll()`: every stored record once, in ascending key order. */
  predicate InKeyOrder(m: map<string, Vehicle>, vs: seq<Vehicle>)
  {
    && (forall i | 0 <= i < |vs| :: vs[i].id in m && m[vs[i].id] == vs[i])
    && (forall k | k in m :: k in Ids(vs))
    && StrictlySorted(Ids(vs))
  }

  /** The keys of a store, each once, in the order the cursor meets them. */
  method KeysOf(m: map<string, Vehicle>) returns (keys: seq<string>)
    ensures forall k :: k in keys <==> k in m
    ensures NoDuplicates(keys)
  {
    var rest := m.Keys;
    keys := [];
    while rest != {}
      invariant rest <= m.Keys
      invariant forall k :: k in keys <==> k in m && k !in rest
      invariant NoDuplicates(keys)
      decreases |rest|
    {
      var k :| k in rest;
      keys := keys + [k];
      rest := rest - {k};
    }
  }

  /** The records under the given keys, in that order. */
  function Lookup(m: map<string, Vehicle>, keys: seq<string>): (vs: seq<Vehicle>)
    requires forall k | k in keys :: k in m
    ensures |vs| == |keys| && forall i | 0 <= i < |keys| :: vs[i] == m[keys[i]]
  {
    seq(|keys|, i requires 0 <= i < |keys| => m[keys[i]])
  }

  /** The records under the store's keys, in ascending key order, are its key-ordered listing. */
  lemma ListingInKeyOrder(m: map<string, Vehicle>, keys: seq<string>, sorted: seq<string>, vs: seq<Vehicle>)
    requires KeyedById(m)
    requires forall k :: k in keys <==> k in m
    requires multiset(sorted) == multiset(keys) && StrictlySorted(sorted)
    requires forall k | k in sorted :: k in m
    requires |vs| == |sorted| && forall i | 0 <= i < |sorted| :: vs[i] == m[sorted[i]]
    ensures InKeyOrder(m, vs)
  {
    assert Ids(vs) == sorted;
    forall k | k in m ensures k in sorted {
      assert k in multiset(keys);
    }
  }

  class VehicleDB {
    /** The `vehicles` object store. */
    var vehicles: map<string, Vehicle>
    /** The `value` of the `authenticated` record of the `auth` object store, if written. */
    var auth: Option<bool>

    ghost predicate Valid()
      reads this
    {
      KeyedById(vehicles)
    }

    /** Opening the database: its object stores hold what earlier visits left in them,
      * records keyed by their `id` (both are empty on a first visit, when they are created). */
    constructor(stored: map<string, Vehicle>, storedAuth: Option<bool>)
      requires KeyedById(stored)
      ensures Valid()
      ensures vehicles == stored && auth == storedAuth
    {
      vehicles := stored;
      auth := storedAuth;
    }

    /** `getAllVehicles`. */
    method GetAllVehicles() returns (vs: seq<Vehicle>)
      requires Valid()
      ensures InKeyOrder(vehicles, vs)
    {
      var keys := KeysOf(vehicles);
      var sorted := Sort(keys);
      SameMultisetNoDuplicates(keys, sorted);
      SortedDistinctIsStrict(sorted);
      forall k | k in sorted ensures k in vehicles {
        assert k in multiset(sorted);
      }
      vs := Lookup(vehicles, sorted);
      ListingInKeyOrder(vehicles, keys, sorted, vs);
    }

    /** `addVehicle`: the key, or the error an existing key raises; the store is unchanged
      * on failure. */
    method AddVehicle(v: Vehicle) returns (r: Result<string, string>)
      requires Valid()
      modifies this
      ensures Valid()
      ensures vehicles == AddOrKeep(old(vehicles), v) && auth == old(auth)
      ensures r.Success? <==> v.id !in old(vehicles)
      ensures r.Success? ==> r.value == v.id
      ensures r.Failure? ==> r.error == ConstraintError
    {
      if v.id in vehicles {
        r := Failure(ConstraintError);
      } else {
        vehicles := vehicles[v.id := v];
        r := Success(v.id);
      }
    }

    /** `updateVehicle`: an insert-or-replace under the record's key. */
    method UpdateVehicle(v: Vehicle) returns (key: string)
      requires Valid()
      modifies this
      ensures Valid()
      ensures vehicles == Put(old(vehicles), v) && auth == old(auth)
      ensures key == v.id
    {
      vehicles := vehicles[v.id := v];
      key := v.id;
    }

    /** `deleteVehicle`: succeeds whether or not the key is present. */
    method DeleteVehicle(id: string)
      requires Valid()
      modifies this
      ensures Valid()
      ensures vehicles == Delete(old(vehicles), id) && auth == old(auth)
    {
      vehicles := vehicles - {id};
    }

    /** `clearAllVehicles`: empties the vehicle store and leaves the auth store alone. */
    method ClearAllVehicles()
      modifies this
      ensures Valid()
      ensures vehicles == map[] && auth == old(auth)
    {
      vehicles := map[];
    }

    /** `setAuthStatus`: writes the `authenticated` record and returns its key. */
    method SetAuthStatus(isAuthenticated: bool) returns (key: string)
      modifies this
      ensures auth == Some(isAuthenticated) && vehicles == old(vehicles)
      ensures key == "authenticated"
    {
      auth := Some(isAuthenticated);
      key := "authenticated";
    }

    /** `getAuthStatus`: true exactly when the flag was last set to true. */
    method GetAuthStatus() returns (b: bool)
      ensures b <==> auth == Some(true)
    {
      b := AuthValue(auth);
    }
  }

  // ---------------------------------------------------------------------------------------
  // Properties of the store operations

  /** Each write keeps every record under its own key. */
  lemma WritesKeepKeys(m: map<string, Vehicle>, v: Vehicle, id: string)
    requires KeyedById(m)
    ensures KeyedById(Put(m, v)) && KeyedById(Delete(m, id)) && KeyedById(AddOrKeep(m, v))
  {
  }

  /** Adding a record that is stored and then reading it back: the store is `put` of it. */
  lemma AddIsPutOfFresh(m: map<string, Vehicle>, v: Vehicle)
    ensures Add(m, v).Success? ==> Add(m, v).value == Put(m, v)
    ensures !Add(m, v).Success? ==> AddOrKeep(m, v) == m
  {
  }

  /** `put` twice is `put` once; `delete` after `put` forgets the put. */
  lemma PutDeleteLaws(m: map<string, Vehicle>, v: Vehicle)
    ensures Put(Put(m, v), v) == Put(m, v)
    ensures Delete(Put(m, v), v.id) == Delete(m, v.id)
    ensures v.id !in m ==> Delete(Put(m, v), v.id) == m
  {
    assert Delete(Put(m, v), v.id).Keys == Delete(m, v.id).Keys;
  }

  /** Deleting an absent key changes nothing. */
  lemma DeleteAbsent(m: map<string, Vehicle>, id: string)
    requires id !in m
    ensures Delete(m, id) == m
  {
    assert Delete(m, id).Keys == m.Keys;
  }

  /** Adding records one at a time stores the union of the old keys and theirs. */
  lemma {:induction false} AddAllKeys(m: map<string, Vehicle>, vs: seq<Vehicle>)
    ensures forall k :: k in AddAll(m, vs) <==> k in m || k in Ids(vs)
  {
    if vs != [] {
      var n := |vs| - 1;
      AddAllKeys(m, vs[..n]);
      assert Ids(vs) == Ids(vs[..n]) + [vs[n].id];
    }
  }

  /** Adding never overwrites: a record already stored stays as it was. */
  lemma {:induction false} AddAllKeepsExisting(m: map<string, Vehicle>, vs: seq<Vehicle>)
    ensures forall k | k in m :: k in AddAll(m, vs) && AddAll(m, vs)[k] == m[k]
  {
    if vs != [] {
      AddAllKeepsExisting(m, vs[..|vs| - 1]);
    }
  }

  /** Of several new records with the same key, the first one added is the one stored. */
  lemma {:induction false} AddAllFirstWins(m: map<string, Vehicle>, vs: seq<Vehicle>, i: nat)
    requires i < |vs| && vs[i].id !in m
    requires forall j | 0 <= j < i :: vs[j].id != vs[i].id
    ensures vs[i].id in AddAll(m, vs) && AddAll(m, vs)[vs[i].id] == vs[i]
  {
    var n := |vs| - 1;
    var before := AddAll(m, vs[..n]);
    if i < n {
      AddAllFirstWins(m, vs[..n], i);
    } else {
      AddAllKeys(m, vs[..n]);
      assert vs[i].id !in Ids(vs[..n]);
      assert vs[i].id !in before;
    }
  }

  /** A key-ordered listing of a store is unique. */
  lemma KeyOrderUnique(m: map<string, Vehicle>, a: seq<Vehicle>, b: seq<Vehicle>)
    requires InKeyOrder(m, a) && InKeyOrder(m, b)
    ensures a == b
  {
    StrictlySortedUnique(Ids(a), Ids(b));
    assert |a| == |b|;
    forall i | 0 <= i < |a| ensures a[i] == b[i] {
      assert Ids(a)[i] == Ids(b)[i];
    }
  }
}
