/**
 * The read queries of the store: `SELECT ... ORDER BY`, the point lookups
 * `SELECT ... WHERE id = ?` (which hand back the first matching row), and
 * the inner join of maintenance rows with the vehicles they reference.
 *
 * ORDER BY is modelled by a stable insertion sort under the BINARY
 * collation; SQL leaves the order of ties open, and the contracts promise
 * only what any SQL engine must: a permutation of the rows, in key order.
 */
module Queries {
  import opened Sql
  import opened Schema

  /** A maintenance row as the join returns it: `m.*` plus `v.name as vehicle_name`. */
  datatype MaintenanceView = MaintenanceView(row: Maintenance, vehicleName: string)

  // ---------------------------------------------------------------------
  // ORDER BY

  /** `a` may come before `b` when ordering by `key`, ascending or descending. */
  predicate Precedes<T>(key: T -> string, descending: bool, a: T, b: T)
  {
    if descending then TextLe(key(b), key(a)) else TextLe(key(a), key(b))
  }

  ghost predicate SortedBy<T>(s: seq<T>, key: T -> string, descending: bool)
  {
    forall i, j :: 0 <= i < j < |s| ==> Precedes(key, descending, s[i], s[j])
  }

  lemma PrecedesTotal<T>(key: T -> string, descending: bool, a: T, b: T)
    ensures Precedes(key, descending, a, b) || Precedes(key, descending, b, a)
  {
    TextLeTotal(key(a), key(b));
  }

  lemma PrecedesTransitive<T>(key: T -> string, descending: bool, a: T, b: T, c: T)
    requires Precedes(key, descending, a, b) && Precedes(key, descending, b, c)
    ensures Precedes(key, descending, a, c)
  {
    if descending {
      TextLeTransitive(key(c), key(b), key(a));
    } else {
      TextLeTransitive(key(a), key(b), key(c));
    }
  }

  /** Places `x` into an ordered sequence, before the first row it may precede. */
  function InsertBy<T>(x: T, s: seq<T>, key: T -> string, descending: bool): (r: seq<T>)
    requires SortedBy(s, key, descending)
    ensures multiset(r) == multiset(s) + multiset{x}
    ensures SortedBy(r, key, descending)
  {
    if s == [] then [x]
    else if Precedes(key, descending, x, s[0]) then
      assert forall j :: 0 <= j < |s| ==> Precedes(key, descending, x, s[j]) by {
        forall j | 0 < j < |s| ensures Precedes(key, descending, x, s[j]) {
          PrecedesTransitive(key, descending, x, s[0], s[j]);
        }
      }
      [x] + s
    else
      var rest := InsertBy(x, s[1..], key, descending);
      assert s == [s[0]] + s[1..];
      assert forall j :: 0 <= j < |rest| ==> Precedes(key, descending, s[0], rest[j]) by {
        PrecedesTotal(key, descending, x, s[0]);
        forall j | 0 <= j < |rest| ensures Precedes(key, descending, s[0], rest[j]) {
          assert rest[j] in multiset(rest);
          if rest[j] != x {
            assert rest[j] in multiset(s[1..]);
            var k :| 0 <= k < |s[1..]| && s[1..][k] == rest[j];
            assert s[k + 1] == rest[j];
          }
        }
      }
      [s[0]] + rest
  }

  /** The rows of `s` in `key` order; rows with equal keys keep their scan order. */
  function SortBy<T>(s: seq<T>, key: T -> string, descending: bool): (r: seq<T>)
    ensures multiset(r) == multiset(s)
    ensures SortedBy(r, key, descending)
  {
    if s == [] then []
    else
      assert s == [s[0]] + s[1..];
      InsertBy(s[0], SortBy(s[1..], key, descending), key, descending)
  }

  /** Two permutations of each other hold the same rows. */
  lemma SameRows<T>(a: seq<T>, b: seq<T>)
    requires multiset(a) == multiset(b)
    ensures forall x :: x in a <==> x in b
  {
    forall x ensures x in a <==> x in b {
      assert x in a <==> x in multiset(a);
      assert x in b <==> x in multiset(b);
    }
  }

  function VehicleName(v: Vehicle): string { v.name }
  function PartName(p: Part): string { p.name }
  function StartDate(x: MaintenanceView): string { x.row.startDate }

  /** `getAllVehicles`: `SELECT * FROM vehicles ORDER BY name`. */
  function AllVehicles(vs: seq<Vehicle>): (r: seq<Vehicle>)
    ensures multiset(r) == multiset(vs)
    ensures forall i, j :: 0 <= i < j < |r| ==> TextLe(r[i].name, r[j].name)
  {
    var r := SortBy(vs, VehicleName, false);
    assert forall i, j :: 0 <= i < j < |r| ==> Precedes(VehicleName, false, r[i], r[j]);
    r
  }

  /** `getAllParts`: `SELECT * FROM parts ORDER BY name`. */
  function AllParts(ps: seq<Part>): (r: seq<Part>)
    ensures multiset(r) == multiset(ps)
    ensures forall i, j :: 0 <= i < j < |r| ==> TextLe(r[i].name, r[j].name)
  {
    var r := SortBy(ps, PartName, false);
    assert forall i, j :: 0 <= i < j < |r| ==> Precedes(PartName, false, r[i], r[j]);
    r
  }

  // ---------------------------------------------------------------------
  // WHERE id = ?

  /** `getVehicleById`: the first row whose id is `id`, if any. */
  function VehicleById(vs: seq<Vehicle>, id: int): (r: Option<Vehicle>)
    ensures r.Some? <==> HasVehicle(vs, id)
    ensures r.Some? ==> r.value in vs && r.value.id == id
  {
    if vs == [] then None
    else if vs[0].id == id then Some(vs[0])
    else
      assert HasVehicle(vs, id) <==> HasVehicle(vs[1..], id) by {
        assert vs == [vs[0]] + vs[1..];
      }
      VehicleById(vs[1..], id)
  }

  /** `getPartById`: the first row whose id is `id`, if any. */
  function PartById(ps: seq<Part>, id: int): (r: Option<Part>)
    ensures r.Some? <==> HasPart(ps, id)
    ensures r.Some? ==> r.value in ps && r.value.id == id
  {
    if ps == [] then None
    else if ps[0].id == id then Some(ps[0])
    else
      assert HasPart(ps, id) <==> HasPart(ps[1..], id) by {
        assert ps == [ps[0]] + ps[1..];
      }
      PartById(ps[1..], id)
  }

  /** A row appended under an id no other row has is what the lookup by that
      id returns: `addVehicle` followed by `getVehicleById`. */
  lemma {:induction false} AppendedVehicleFound(vs: seq<Vehicle>, v: Vehicle)
    requires forall i :: 0 <= i < |vs| ==> vs[i].id != v.id
    ensures VehicleById(vs + [v], v.id) == Some(v)
  {
    if vs != [] {
      assert (vs + [v])[1..] == vs[1..] + [v];
      AppendedVehicleFound(vs[1..], v);
    }
  }

  /** The same for `addPart` followed by `getPartById`. */
  lemma {:induction false} AppendedPartFound(ps: seq<Part>, p: Part)
    requires forall i :: 0 <= i < |ps| ==> ps[i].id != p.id
    ensures PartById(ps + [p], p.id) == Some(p)
  {
    if ps != [] {
      assert (ps + [p])[1..] == ps[1..] + [p];
      AppendedPartFound(ps[1..], p);
    }
  }

  // ---------------------------------------------------------------------
  // maintenance m JOIN vehicles v ON m.vehicle_id = v.id

  /** The vehicle `m` references is present, and is called `name`. */
  predicate Owns(vs: seq<Vehicle>, m: Maintenance, name: string)
  {
    exists v :: v in vs && v.id == m.vehicleId && v.name == name
  }

  /** The joined row for `m`, or nothing when no vehicle has `m.vehicle_id`. */
  function JoinRow(vs: seq<Vehicle>, m: Maintenance): (r: Option<MaintenanceView>)
    ensures r.Some? <==> HasVehicle(vs, m.vehicleId)
    ensures r.Some? ==> r.value.row == m && Owns(vs, m, r.value.vehicleName)
  {
    match VehicleById(vs, m.vehicleId)
    case None => None
    case Some(v) => Some(MaintenanceView(m, v.name))
  }

  /** The work order rows the joined rows were made from. */
  function Rows(xs: seq<MaintenanceView>): (r: seq<Maintenance>)
    ensures |r| == |xs|
  {
    if xs == [] then [] else [xs[0].row] + Rows(xs[1..])
  }

  /** The work orders whose vehicle exists, in scan order: what the inner
      join on the primary key `v.id` keeps, once each. */
  function Referenced(ms: seq<Maintenance>, vs: seq<Vehicle>): (r: seq<Maintenance>)
    ensures |r| <= |ms|
    ensures forall m :: m in r <==> m in ms && HasVehicle(vs, m.vehicleId)
  {
    if ms == [] then []
    else
      assert ms == [ms[0]] + ms[1..];
      (if HasVehicle(vs, ms[0].vehicleId) then [ms[0]] else []) + Referenced(ms[1..], vs)
  }

  /** The inner join, in maintenance scan order: one row per work order whose
      vehicle exists, carrying that vehicle's name. */
  function Join(ms: seq<Maintenance>, vs: seq<Vehicle>): (r: seq<MaintenanceView>)
    ensures Rows(r) == Referenced(ms, vs)
    ensures forall x :: x in r ==> x.row in ms && Owns(vs, x.row, x.vehicleName)
    ensures forall m :: m in ms ==> (HasVehicle(vs, m.vehicleId) <==> exists x :: x in r && x.row == m)
  {
    if ms == [] then []
    else
      assert ms == [ms[0]] + ms[1..];
      var rest := Join(ms[1..], vs);
      match JoinRow(vs, ms[0])
      case None => rest
      case Some(x) =>
        assert ([x] + rest)[1..] == rest;
        [x] + rest
  }

  /** `getAllMaintenance`: the join ordered by `start_date DESC`. */
  function AllMaintenance(ms: seq<Maintenance>, vs: seq<Vehicle>): (r: seq<MaintenanceView>)
    ensures multiset(r) == multiset(Join(ms, vs))
    ensures |r| == |Referenced(ms, vs)|
    ensures forall x :: x in r ==> x.row in ms && Owns(vs, x.row, x.vehicleName)
    ensures forall m :: m in ms ==> (HasVehicle(vs, m.vehicleId) <==> exists x :: x in r && x.row == m)
    ensures forall i, j :: 0 <= i < j < |r| ==> TextLe(r[j].row.startDate, r[i].row.startDate)
  {
    var j := Join(ms, vs);
    var r := SortBy(j, StartDate, true);
    SameRows(r, j);
    assert |r| == |multiset(r)| == |multiset(j)| == |j|;
    assert forall i, k :: 0 <= i < k < |r| ==> Precedes(StartDate, true, r[i], r[k]);
    r
  }

  /** `getMaintenanceById`: the first joined row whose maintenance id is `id`. */
  function MaintenanceById(ms: seq<Maintenance>, vs: seq<Vehicle>, id: int): (r: Option<MaintenanceView>)
    ensures r.Some? <==> exists m :: m in ms && m.id == id && HasVehicle(vs, m.vehicleId)
    ensures r.Some? ==> r.value.row in ms && r.value.row.id == id && Owns(vs, r.value.row, r.value.vehicleName)
  {
    if ms == [] then None
    else
      assert ms == [ms[0]] + ms[1..];
      if ms[0].id == id && JoinRow(vs, ms[0]).Some? then JoinRow(vs, ms[0])
      else MaintenanceById(ms[1..], vs, id)
  }

  /** After `DELETE FROM vehicles WHERE id = ?` the inner join no longer
      returns the work orders of that vehicle, although they are still in
      the maintenance table: neither the listing nor the lookup by id shows
      them. */
  lemma DeletedVehicleHidesWorkOrders(ms: seq<Maintenance>, vs: seq<Vehicle>, id: int, mid: int)
    ensures forall x :: x in AllMaintenance(ms, RemoveVehicle(vs, id)) ==> x.row.vehicleId != id
    ensures MaintenanceById(ms, RemoveVehicle(vs, id), mid).Some? ==>
              MaintenanceById(ms, RemoveVehicle(vs, id), mid).value.row.vehicleId != id
    ensures forall m :: m in ms && m.vehicleId == id ==>
              !exists x :: x in AllMaintenance(ms, RemoveVehicle(vs, id)) && x.row == m
  {
    var rest := RemoveVehicle(vs, id);
    forall x | x in AllMaintenance(ms, rest) ensures x.row.vehicleId != id {
      var v :| v in rest && v.id == x.row.vehicleId && v.name == x.vehicleName;
    }
  }
}
