/** The vehicle registry (contexts/VehicleContext.tsx): the signed-in user's
    vehicles in memory, and the per-user lists persisted in the device's
    key-value store (`vehicles_<userId>`), keyed here by user id. */
module Vehicles {
  import opened Wrappers
  import opened Types
  import Seqs

  datatype Registry = Registry(vehicles: seq<Vehicle>, stored: map<string, seq<Vehicle>>)

  /** The test `v.id === id`, as a value. */
  function HasId(id: string): Vehicle -> bool
  {
    (v: Vehicle) => v.id == id
  }

  /** Writes the new list back when a user is signed in; without one the
      persisted lists are left alone. */
  function Save(r: Registry, user: Option<UserProfile>, vehicles: seq<Vehicle>): (r': Registry)
    ensures r'.vehicles == vehicles
    ensures user.Some? ==> r'.stored == r.stored[user.value.id := vehicles]
    ensures user.None? ==> r'.stored == r.stored
  {
    Registry(vehicles, if user.Some? then r.stored[user.value.id := vehicles] else r.stored)
  }

  /** The effect that runs when the signed-in user changes: the user's persisted
      list, or the empty list when there is none or nobody is signed in. */
  function OnUserChange(r: Registry, user: Option<UserProfile>): (r': Registry)
    ensures user.None? ==> r'.vehicles == []
    ensures user.Some? && user.value.id in r.stored ==> r'.vehicles == r.stored[user.value.id]
    ensures user.Some? && user.value.id !in r.stored ==> r'.vehicles == []
    ensures r'.stored == r.stored
  {
    if user.Some? && user.value.id in r.stored then r.(vehicles := r.stored[user.value.id])
    else r.(vehicles := [])
  }

  /** A list saved for a signed-in user is the list that user gets back on
      the next sign-in, even after signing out in between; a save with nobody
      signed in changes what no user gets back. */
  lemma SavedListComesBack(r: Registry, u: UserProfile, vehicles: seq<Vehicle>, other: UserProfile)
    ensures OnUserChange(Save(r, Some(u), vehicles), Some(u)).vehicles == vehicles
    ensures OnUserChange(OnUserChange(Save(r, Some(u), vehicles), None), Some(u)).vehicles == vehicles
    ensures OnUserChange(Save(r, None, vehicles), Some(other)).vehicles == OnUserChange(r, Some(other)).vehicles
  {
  }

  /** `addVehicle(data)` with the id the clock would supply: the new vehicle goes
      at the end and every earlier entry stays where it was. */
  function AddVehicle(r: Registry, user: Option<UserProfile>, data: VehicleData, newId: string): (r': Registry)
    ensures |r'.vehicles| == |r.vehicles| + 1
    ensures r'.vehicles[..|r.vehicles|] == r.vehicles
    ensures r'.vehicles[|r.vehicles|] == data.WithId(newId)
    ensures user.Some? ==> r'.stored == r.stored[user.value.id := r'.vehicles]
    ensures user.None? ==> r'.stored == r.stored
  {
    Save(r, user, r.vehicles + [data.WithId(newId)])
  }

  /** `updateVehicle(v)`: every entry with `v`'s id becomes `v`; every other
      entry, and the length, stay as they were. */
  function UpdateVehicle(r: Registry, user: Option<UserProfile>, v: Vehicle): (r': Registry)
    ensures |r'.vehicles| == |r.vehicles|
    ensures forall i :: 0 <= i < |r.vehicles| && r.vehicles[i].id == v.id ==> r'.vehicles[i] == v
    ensures forall i :: 0 <= i < |r.vehicles| && r.vehicles[i].id != v.id ==> r'.vehicles[i] == r.vehicles[i]
    ensures user.Some? ==> r'.stored == r.stored[user.value.id := r'.vehicles]
    ensures user.None? ==> r'.stored == r.stored
  {
    Save(r, user, Seqs.MapWhere(r.vehicles, HasId(v.id), (_: Vehicle) => v))
  }

  /** `removeVehicle(id)`: every entry with that id goes, the rest stay in their
      original relative order. */
  function RemoveVehicle(r: Registry, user: Option<UserProfile>, id: string): (r': Registry)
    ensures forall k :: 0 <= k < |r'.vehicles| ==> r'.vehicles[k].id != id
    ensures forall i :: 0 <= i < |r.vehicles| && r.vehicles[i].id != id ==> r.vehicles[i] in r'.vehicles
    ensures |r'.vehicles| <= |r.vehicles|
    ensures user.Some? ==> r'.stored == r.stored[user.value.id := r'.vehicles]
    ensures user.None? ==> r'.stored == r.stored
  {
    Save(r, user, Seqs.Filter(r.vehicles, (v: Vehicle) => v.id != id))
  }

  /** `getVehicleById(id)`: the first entry with that id, if any. */
  function GetVehicleById(r: Registry, id: string): (v: Option<Vehicle>)
    ensures v.None? <==> forall i :: 0 <= i < |r.vehicles| ==> r.vehicles[i].id != id
    ensures v.Some? ==> v.value in r.vehicles && v.value.id == id
    ensures forall i :: 0 <= i < |r.vehicles| && r.vehicles[i].id == id
                        && (forall j :: 0 <= j < i ==> r.vehicles[j].id != id)
                        ==> v == Some(r.vehicles[i])
  {
    Seqs.FindFirst(r.vehicles, HasId(id))
  }

  /** After adding under an id not yet in use, looking that id up finds the
      new vehicle. */
  lemma AddThenGet(r: Registry, user: Option<UserProfile>, data: VehicleData, newId: string)
    requires forall i :: 0 <= i < |r.vehicles| ==> r.vehicles[i].id != newId
    ensures GetVehicleById(AddVehicle(r, user, data, newId), newId) == Some(data.WithId(newId))
  {
    var r' := AddVehicle(r, user, data, newId);
    assert forall j :: 0 <= j < |r.vehicles| ==> r'.vehicles[j] == r.vehicles[j];
  }

  /** After removing an id, looking it up finds nothing. */
  lemma RemoveThenGet(r: Registry, user: Option<UserProfile>, id: string)
    ensures GetVehicleById(RemoveVehicle(r, user, id), id).None?
  {
  }

  /** Removing splits the list: what stays and the entries with the id
      together hold each vehicle exactly as often as the list did. */
  lemma RemoveSplitsList(r: Registry, user: Option<UserProfile>, id: string)
    ensures multiset(RemoveVehicle(r, user, id).vehicles) + multiset(Seqs.Filter(r.vehicles, HasId(id))) == multiset(r.vehicles)
  {
    Seqs.FilterPartition(r.vehicles, (v: Vehicle) => v.id != id, HasId(id));
  }

  /** Removing keeps the surviving entries in their original order. */
  lemma RemovePreservesOrder(r: Registry, user: Option<UserProfile>, id: string)
    ensures exists idx :: Seqs.IsEmbedding(RemoveVehicle(r, user, id).vehicles, r.vehicles, idx)
  {
    var p := (v: Vehicle) => v.id != id;
    Seqs.FilterPreservesOrder(r.vehicles, p);
    assert RemoveVehicle(r, user, id).vehicles == Seqs.Filter(r.vehicles, p);
  }

  /** After updating a vehicle whose id is in the registry, looking that id up
      finds the new version. */
  lemma UpdateThenGet(r: Registry, user: Option<UserProfile>, v: Vehicle)
    requires exists i :: 0 <= i < |r.vehicles| && r.vehicles[i].id == v.id
    ensures GetVehicleById(UpdateVehicle(r, user, v), v.id) == Some(v)
  {
    var r' := UpdateVehicle(r, user, v);
    var i :| 0 <= i < |r.vehicles| && r.vehicles[i].id == v.id;
    assert r'.vehicles[i] == v;
    var g := GetVehicleById(r', v.id);
    var j :| 0 <= j < |r'.vehicles| && r'.vehicles[j] == g.value;
    assert r.vehicles[j].id == v.id;
  }

  /** Updating with an id the registry does not hold leaves the list identical. */
  lemma UpdateUnknownIsNoop(r: Registry, user: Option<UserProfile>, v: Vehicle)
    requires forall i :: 0 <= i < |r.vehicles| ==> r.vehicles[i].id != v.id
    ensures UpdateVehicle(r, user, v).vehicles == r.vehicles
  {
  }

  /** Removing an id the registry does not hold leaves the list identical. */
  lemma {:induction false} RemoveUnknownIsNoop(r: Registry, user: Option<UserProfile>, id: string)
    requires forall i :: 0 <= i < |r.vehicles| ==> r.vehicles[i].id != id
    ensures RemoveVehicle(r, user, id).vehicles == r.vehicles
  {
    FilterKeepsAll(r.vehicles, (v: Vehicle) => v.id != id);
  }

  /** A filter whose predicate holds everywhere keeps the whole list. */
  lemma {:induction false} FilterKeepsAll(s: seq<Vehicle>, p: Vehicle -> bool)
    requires forall i :: 0 <= i < |s| ==> p(s[i])
    ensures Seqs.Filter(s, p) == s
  {
    if s != [] {
      FilterKeepsAll(s[1..], p);
      assert s == [s[0]] + s[1..];
    }
  }

  /** Two vehicles added for a user, then the first removed: the registry, in
      memory and persisted, holds exactly the second under its original id. */
  lemma AddTwoRemoveOne(r: Registry, user: UserProfile, a: VehicleData, b: VehicleData, idA: string, idB: string)
    requires r.vehicles == []
    requires idA != idB
    ensures var r' := RemoveVehicle(AddVehicle(AddVehicle(r, Some(user), a, idA), Some(user), b, idB), Some(user), idA);
      && r'.vehicles == [b.WithId(idB)]
      && r'.stored[user.id] == [b.WithId(idB)]
  {
    var r2 := AddVehicle(AddVehicle(r, Some(user), a, idA), Some(user), b, idB);
    assert r2.vehicles == [a.WithId(idA), b.WithId(idB)];
    var p := (v: Vehicle) => v.id != idA;
    assert Seqs.Filter(r2.vehicles, p) == [b.WithId(idB)] by {
      assert r2.vehicles[1..] == [b.WithId(idB)];
      assert r2.vehicles[1..][1..] == [];
    }
  }
}
