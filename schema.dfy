/**
 * The three tables the store uses (vehicles, parts, maintenance), the
 * values a caller binds to their INSERT and UPDATE statements, and the
 * column constraints declared by `createTables`: NOT NULL columns, the
 * UNIQUE `plate` and `code` columns, and AUTOINCREMENT primary keys.
 *
 * A stored row keeps a NOT NULL column as a plain value, so the constraint
 * holds by construction; every column a statement binds is an `Option`,
 * since the caller may pass null (or leave the property undefined, which
 * the driver binds as NULL).
 */
module Schema {
  import opened Sql

  /** A row of `vehicles`.  `kind` is the `type` column. */
  datatype Vehicle = Vehicle(
    id: int,
    name: string,
    kind: string,
    brand: string,
    model: string,
    year: int,
    plate: Option<string>,
    status: Option<string>,
    lastMaintenance: Option<string>,
    nextMaintenance: Option<string>)

  /** A row of `parts`.  `price` is a REAL column, modelled as an integer. */
  datatype Part = Part(
    id: int,
    name: string,
    code: string,
    category: string,
    stock: Option<int>,
    minStock: Option<int>,
    price: int,
    supplier: Option<string>)

  /** A row of `maintenance`.  `kind` is the `type` column; `cost` is REAL,
      modelled as an integer. */
  datatype Maintenance = Maintenance(
    id: int,
    vehicleId: int,
    kind: string,
    description: Option<string>,
    startDate: string,
    endDate: Option<string>,
    status: Option<string>,
    technician: Option<string>,
    cost: Option<int>,
    priority: Option<string>)

  /** The seven values `addVehicle` and `updateVehicle` bind. */
  datatype VehicleFields = VehicleFields(
    name: Option<string>,
    kind: Option<string>,
    brand: Option<string>,
    model: Option<string>,
    year: Option<int>,
    plate: Option<string>,
    status: Option<string>)

  /** The seven values `addPart` and `updatePart` bind. */
  datatype PartFields = PartFields(
    name: Option<string>,
    code: Option<string>,
    category: Option<string>,
    stock: Option<int>,
    minStock: Option<int>,
    price: Option<int>,
    supplier: Option<string>)

  /** The nine values `addMaintenance` binds. */
  datatype MaintenanceFields = MaintenanceFields(
    vehicleId: Option<int>,
    kind: Option<string>,
    description: Option<string>,
    startDate: Option<string>,
    endDate: Option<string>,
    status: Option<string>,
    technician: Option<string>,
    cost: Option<int>,
    priority: Option<string>)

  // ---------------------------------------------------------------------
  // NOT NULL columns

  predicate VehicleRequiredPresent(f: VehicleFields)
  {
    f.name.Some? && f.kind.Some? && f.brand.Some? && f.model.Some? && f.year.Some?
  }

  predicate PartRequiredPresent(f: PartFields)
  {
    f.name.Some? && f.code.Some? && f.category.Some? && f.price.Some?
  }

  predicate MaintenanceRequiredPresent(f: MaintenanceFields)
  {
    f.vehicleId.Some? && f.kind.Some? && f.startDate.Some?
  }

  /** The first NOT NULL column of `vehicles`, in declaration order, that `f` leaves null. */
  function VehicleNullError(f: VehicleFields): (e: Option<DbError>)
    ensures e.None? <==> VehicleRequiredPresent(f)
    ensures e.Some? ==> e.value.NotNullFailed?
  {
    if f.name.None? then Some(NotNullFailed("vehicles.name"))
    else if f.kind.None? then Some(NotNullFailed("vehicles.type"))
    else if f.brand.None? then Some(NotNullFailed("vehicles.brand"))
    else if f.model.None? then Some(NotNullFailed("vehicles.model"))
    else if f.year.None? then Some(NotNullFailed("vehicles.year"))
    else None
  }

  /** The first NOT NULL column of `parts`, in declaration order, that `f` leaves null. */
  function PartNullError(f: PartFields): (e: Option<DbError>)
    ensures e.None? <==> PartRequiredPresent(f)
    ensures e.Some? ==> e.value.NotNullFailed?
  {
    if f.name.None? then Some(NotNullFailed("parts.name"))
    else if f.code.None? then Some(NotNullFailed("parts.code"))
    else if f.category.None? then Some(NotNullFailed("parts.category"))
    else if f.price.None? then Some(NotNullFailed("parts.price"))
    else None
  }

  /** The first NOT NULL column of `maintenance`, in declaration order, that `f` leaves null. */
  function MaintenanceNullError(f: MaintenanceFields): (e: Option<DbError>)
    ensures e.None? <==> MaintenanceRequiredPresent(f)
    ensures e.Some? ==> e.value.NotNullFailed?
  {
    if f.vehicleId.None? then Some(NotNullFailed("maintenance.vehicle_id"))
    else if f.kind.None? then Some(NotNullFailed("maintenance.type"))
    else if f.startDate.None? then Some(NotNullFailed("maintenance.start_date"))
    else None
  }

  // ---------------------------------------------------------------------
  // Keys and UNIQUE columns

  predicate HasVehicle(vs: seq<Vehicle>, id: int)
  {
    exists v :: v in vs && v.id == id
  }

  predicate HasPart(ps: seq<Part>, id: int)
  {
    exists p :: p in ps && p.id == id
  }

  /** Some row holds `plate`. */
  predicate PlateInUse(vs: seq<Vehicle>, plate: string)
  {
    exists v :: v in vs && v.plate == Some(plate)
  }

  /** Some row holds `code`. */
  predicate CodeInUse(ps: seq<Part>, code: string)
  {
    exists p :: p in ps && p.code == code
  }

  /** Some row other than the one with id `except` holds `plate`. */
  predicate PlateTaken(vs: seq<Vehicle>, plate: string, except: int)
  {
    exists v :: v in vs && v.plate == Some(plate) && v.id != except
  }

  /** Some row other than the one with id `except` holds `code`. */
  predicate CodeTaken(ps: seq<Part>, code: string, except: int)
  {
    exists p :: p in ps && p.code == code && p.id != except
  }

  /** The AUTOINCREMENT key discipline: ids positive, in increasing scan order,
      none above the largest id ever handed out. */
  ghost predicate VehicleKeys(vs: seq<Vehicle>, last: int)
  {
    && (forall i, j :: 0 <= i < j < |vs| ==> vs[i].id < vs[j].id)
    && (forall i :: 0 <= i < |vs| ==> 0 < vs[i].id <= last)
  }

  ghost predicate PartKeys(ps: seq<Part>, last: int)
  {
    && (forall i, j :: 0 <= i < j < |ps| ==> ps[i].id < ps[j].id)
    && (forall i :: 0 <= i < |ps| ==> 0 < ps[i].id <= last)
  }

  ghost predicate MaintenanceKeys(ms: seq<Maintenance>, last: int)
  {
    && (forall i, j :: 0 <= i < j < |ms| ==> ms[i].id < ms[j].id)
    && (forall i :: 0 <= i < |ms| ==> 0 < ms[i].id <= last)
  }

  /** UNIQUE plate: two different rows never share a non-null plate
      (any number of rows may have a null plate). */
  ghost predicate PlatesUnique(vs: seq<Vehicle>)
  {
    forall i, j :: 0 <= i < |vs| && 0 <= j < |vs| && vs[i].id != vs[j].id && vs[i].plate.Some? ==> vs[i].plate != vs[j].plate
  }

  /** UNIQUE code: two different rows never share a code. */
  ghost predicate CodesUnique(ps: seq<Part>)
  {
    forall a, b :: a in ps && b in ps && a.id != b.id ==> a.code != b.code
  }

  // ---------------------------------------------------------------------
  // What a row holds after a statement bound `f` to it

  /** Row `v` holds exactly the values `f` bound to `vehicles`' named columns. */
  predicate VehicleBinds(v: Vehicle, f: VehicleFields)
  {
    && f.name == Some(v.name) && f.kind == Some(v.kind) && f.brand == Some(v.brand)
    && f.model == Some(v.model) && f.year == Some(v.year)
    && v.plate == f.plate && v.status == f.status
  }

  predicate PartBinds(p: Part, f: PartFields)
  {
    && f.name == Some(p.name) && f.code == Some(p.code) && f.category == Some(p.category)
    && p.stock == f.stock && p.minStock == f.minStock && f.price == Some(p.price)
    && p.supplier == f.supplier
  }

  predicate MaintenanceBinds(m: Maintenance, f: MaintenanceFields)
  {
    && f.vehicleId == Some(m.vehicleId) && f.kind == Some(m.kind)
    && m.description == f.description && f.startDate == Some(m.startDate)
    && m.endDate == f.endDate && m.status == f.status && m.technician == f.technician
    && m.cost == f.cost && m.priority == f.priority
  }

  // ---------------------------------------------------------------------
  // Constraint checks of each statement

  /** Why `INSERT INTO vehicles` of `f` fails, if it does: a NOT NULL column
      left null, else a non-null plate some row already has. */
  function VehicleInsertError(vs: seq<Vehicle>, f: VehicleFields): (e: Option<DbError>)
    ensures e.None? <==> VehicleRequiredPresent(f) && !(f.plate.Some? && exists v :: v in vs && v.plate == f.plate)
    ensures e == Some(UniqueFailed("vehicles.plate")) <==>
              VehicleRequiredPresent(f) && f.plate.Some? && exists v :: v in vs && v.plate == f.plate
  {
    if VehicleNullError(f).Some? then VehicleNullError(f)
    else if f.plate.Some? && PlateInUse(vs, f.plate.value) then Some(UniqueFailed("vehicles.plate"))
    else None
  }

  /** Why `INSERT INTO parts` of `f` fails, if it does: a NOT NULL column
      left null, else a code some row already has. */
  function PartInsertError(ps: seq<Part>, f: PartFields): (e: Option<DbError>)
    ensures e.None? <==> PartRequiredPresent(f) && !(exists p :: p in ps && Some(p.code) == f.code)
    ensures e == Some(UniqueFailed("parts.code")) <==>
              PartRequiredPresent(f) && exists p :: p in ps && Some(p.code) == f.code
  {
    if PartNullError(f).Some? then PartNullError(f)
    else if CodeInUse(ps, f.code.value) then Some(UniqueFailed("parts.code"))
    else None
  }

  /** The parts table and its AUTOINCREMENT counter after `INSERT INTO parts`
      of `f`: untouched when the statement fails, else one row more under
      the next id. */
  function PartsAfterInsert(ps: seq<Part>, last: nat, f: PartFields): (r: (seq<Part>, nat))
    ensures PartInsertError(ps, f).Some? ==> r == (ps, last)
    ensures PartInsertError(ps, f).None? ==>
              && r.1 == last + 1 && |r.0| == |ps| + 1 && r.0[..|ps|] == ps
              && r.0[|ps|].id == last + 1 && PartBinds(r.0[|ps|], f)
  {
    if PartInsertError(ps, f).Some? then (ps, last)
    else (ps + [Part(last + 1, f.name.value, f.code.value, f.category.value, f.stock, f.minStock, f.price.value, f.supplier)],
          last + 1)
  }

  /** Why `UPDATE vehicles ... WHERE id = ?` fails, if it does.  With no row
      of that id nothing is written and nothing can fail. */
  function VehicleUpdateError(vs: seq<Vehicle>, id: int, f: VehicleFields): (e: Option<DbError>)
    ensures !HasVehicle(vs, id) ==> e.None?
    ensures HasVehicle(vs, id) ==>
              (e.None? <==> VehicleRequiredPresent(f) && !(f.plate.Some? && PlateTaken(vs, f.plate.value, id)))
  {
    if !HasVehicle(vs, id) then None
    else if VehicleNullError(f).Some? then VehicleNullError(f)
    else if f.plate.Some? && PlateTaken(vs, f.plate.value, id) then Some(UniqueFailed("vehicles.plate"))
    else None
  }

  /** Why `UPDATE parts ... WHERE id = ?` fails, if it does. */
  function PartUpdateError(ps: seq<Part>, id: int, f: PartFields): (e: Option<DbError>)
    ensures !HasPart(ps, id) ==> e.None?
    ensures HasPart(ps, id) ==>
              (e.None? <==> PartRequiredPresent(f) && !CodeTaken(ps, f.code.value, id))
  {
    if !HasPart(ps, id) then None
    else if PartNullError(f).Some? then PartNullError(f)
    else if CodeTaken(ps, f.code.value, id) then Some(UniqueFailed("parts.code"))
    else None
  }

  // ---------------------------------------------------------------------
  // Table rewrites

  /** `DELETE FROM vehicles WHERE id = ?`: every row but the one with that id,
      in the same order. */
  function RemoveVehicle(vs: seq<Vehicle>, id: int): (r: seq<Vehicle>)
    ensures forall v :: v in r <==> v in vs && v.id != id
    ensures !HasVehicle(r, id)
    ensures |r| <= |vs|
  {
    if vs == [] then []
    else if vs[0].id == id then RemoveVehicle(vs[1..], id)
    else [vs[0]] + RemoveVehicle(vs[1..], id)
  }

  /** Deleting from a table with unique keys removes at most one row, and
      exactly one when the id is present: the `changes` count. */
  lemma {:induction false} RemoveVehicleCount(vs: seq<Vehicle>, id: int, last: int)
    requires VehicleKeys(vs, last)
    ensures |RemoveVehicle(vs, id)| == |vs| - (if HasVehicle(vs, id) then 1 else 0)
  {
    if vs != [] {
      assert VehicleKeys(vs[1..], last);
      RemoveVehicleCount(vs[1..], id, last);
      HasVehicleSplit(vs, id, last);
    }
  }

  /** A table with increasing ids holds `id` in its first row or in the rest,
      never in both. */
  lemma HasVehicleSplit(vs: seq<Vehicle>, id: int, last: int)
    requires vs != [] && VehicleKeys(vs, last)
    ensures HasVehicle(vs, id) <==> vs[0].id == id || HasVehicle(vs[1..], id)
    ensures vs[0].id == id ==> !HasVehicle(vs[1..], id)
  {
    assert vs == [vs[0]] + vs[1..];
    if vs[0].id == id {
      forall v | v in vs[1..] ensures v.id != id {
        var j :| 0 <= j < |vs[1..]| && vs[1..][j] == v;
        assert vs[j + 1] == v;
      }
    }
  }

  /** Deleting keeps the remaining ids increasing and within the counter. */
  lemma {:induction false} RemoveVehicleKeys(vs: seq<Vehicle>, id: int, last: int)
    requires VehicleKeys(vs, last)
    ensures VehicleKeys(RemoveVehicle(vs, id), last)
  {
    if vs != [] {
      assert VehicleKeys(vs[1..], last);
      RemoveVehicleKeys(vs[1..], id, last);
      if vs[0].id != id {
        var rest := RemoveVehicle(vs[1..], id);
        FirstIdSmallest(vs, last);
        assert forall v :: v in rest ==> vs[0].id < v.id;
        ConsKeys(vs[0], rest, last);
      }
    }
  }

  /** In a table with increasing ids the first row has the smallest id. */
  lemma FirstIdSmallest(vs: seq<Vehicle>, last: int)
    requires vs != [] && VehicleKeys(vs, last)
    ensures forall v :: v in vs[1..] ==> vs[0].id < v.id
  {
    forall v | v in vs[1..] ensures vs[0].id < v.id {
      var j :| 0 <= j < |vs[1..]| && vs[1..][j] == v;
      assert vs[j + 1] == v;
    }
  }

  /** A row whose id is below every id of a well-keyed table may head it. */
  lemma ConsKeys(v: Vehicle, vs: seq<Vehicle>, last: int)
    requires VehicleKeys(vs, last) && 0 < v.id <= last
    requires forall w :: w in vs ==> v.id < w.id
    ensures VehicleKeys([v] + vs, last)
  {
    var r := [v] + vs;
    forall i, j | 0 <= i < j < |r| ensures r[i].id < r[j].id {
      assert r[j] == vs[j - 1];
      if i > 0 {
        assert r[i] == vs[i - 1];
      } else {
        assert vs[j - 1] in vs;
      }
    }
  }

  /** Row `v` after `UPDATE vehicles SET` of the seven bound columns: its id
      and its two maintenance dates stay. */
  function UpdatedVehicle(v: Vehicle, f: VehicleFields): (r: Vehicle)
    requires VehicleRequiredPresent(f)
    ensures r.id == v.id && VehicleBinds(r, f)
    ensures r.lastMaintenance == v.lastMaintenance && r.nextMaintenance == v.nextMaintenance
  {
    v.(name := f.name.value, kind := f.kind.value, brand := f.brand.value, model := f.model.value,
       year := f.year.value, plate := f.plate, status := f.status)
  }

  /** The result and the vehicles table after `UPDATE vehicles ... WHERE id = ?`
      of `f`: on a constraint failure the error and the table untouched,
      else the number of rows matched and every row with that id rewritten. */
  function VehiclesAfterUpdate(vs: seq<Vehicle>, id: int, f: VehicleFields): (r: (Result<nat>, seq<Vehicle>))
    ensures r.0.Err? <==> VehicleUpdateError(vs, id, f).Some?
    ensures r.0.Err? ==> r.0.error == VehicleUpdateError(vs, id, f).value && r.1 == vs
    ensures r.0.Ok? ==> r.0.value == if HasVehicle(vs, id) then 1 else 0
    ensures |r.1| == |vs|
    ensures forall i :: 0 <= i < |vs| ==>
              if r.0.Ok? && vs[i].id == id then
                && r.1[i].id == id && VehicleBinds(r.1[i], f)
                && r.1[i].lastMaintenance == vs[i].lastMaintenance
                && r.1[i].nextMaintenance == vs[i].nextMaintenance
              else r.1[i] == vs[i]
  {
    match VehicleUpdateError(vs, id, f)
    case Some(e) => (Err(e), vs)
    case None =>
      if !HasVehicle(vs, id) then
        assert forall i :: 0 <= i < |vs| ==> vs[i].id != id;
        (Ok(0), vs)
      else
        (Ok(1), seq(|vs|, i requires 0 <= i < |vs| => if vs[i].id == id then UpdatedVehicle(vs[i], f) else vs[i]))
  }

  /** Row `p` after `UPDATE parts SET` of the seven bound columns: its id stays. */
  function UpdatedPart(p: Part, f: PartFields): (r: Part)
    requires PartRequiredPresent(f)
    ensures r.id == p.id && PartBinds(r, f)
  {
    p.(name := f.name.value, code := f.code.value, category := f.category.value, stock := f.stock,
       minStock := f.minStock, price := f.price.value, supplier := f.supplier)
  }

  /** The result and the parts table after `UPDATE parts ... WHERE id = ?` of
      `f`: on a constraint failure the error and the table untouched, else
      the number of rows matched and every row with that id rewritten. */
  function PartsAfterUpdate(ps: seq<Part>, id: int, f: PartFields): (r: (Result<nat>, seq<Part>))
    ensures r.0.Err? <==> PartUpdateError(ps, id, f).Some?
    ensures r.0.Err? ==> r.0.error == PartUpdateError(ps, id, f).value && r.1 == ps
    ensures r.0.Ok? ==> r.0.value == if HasPart(ps, id) then 1 else 0
    ensures |r.1| == |ps|
    ensures forall i :: 0 <= i < |ps| ==>
              if r.0.Ok? && ps[i].id == id then r.1[i].id == id && PartBinds(r.1[i], f)
              else r.1[i] == ps[i]
  {
    match PartUpdateError(ps, id, f)
    case Some(e) => (Err(e), ps)
    case None =>
      if !HasPart(ps, id) then
        assert forall i :: 0 <= i < |ps| ==> ps[i].id != id;
        (Ok(0), ps)
      else
        (Ok(1), seq(|ps|, i requires 0 <= i < |ps| => if ps[i].id == id then UpdatedPart(ps[i], f) else ps[i]))
  }

  /** An update keeps every row's id and hands no other row's plate to the
      rewritten one, so it keeps the table's keys and its UNIQUE plate. */
  lemma VehicleUpdateKeepsConstraints(vs: seq<Vehicle>, id: int, f: VehicleFields, last: int)
    requires VehicleKeys(vs, last) && PlatesUnique(vs)
    ensures var r := VehiclesAfterUpdate(vs, id, f).1;
            && VehicleKeys(r, last) && PlatesUnique(r)
            && forall i :: 0 <= i < |r| ==> r[i].id == vs[i].id
  {
    var r := VehiclesAfterUpdate(vs, id, f).1;
    if r != vs {
      forall i, j | 0 <= i < |r| && 0 <= j < |r| && r[i].id != r[j].id && r[i].plate.Some?
        ensures r[i].plate != r[j].plate
      {
        assert vs[i] in vs && vs[j] in vs;
      }
    }
  }

  /** The same for an update of a part, which hands no other row's code to
      the rewritten one. */
  lemma PartUpdateKeepsConstraints(ps: seq<Part>, id: int, f: PartFields, last: int)
    requires PartKeys(ps, last) && CodesUnique(ps)
    ensures var r := PartsAfterUpdate(ps, id, f).1;
            && PartKeys(r, last) && CodesUnique(r)
            && forall i :: 0 <= i < |r| ==> r[i].id == ps[i].id
  {
    var r := PartsAfterUpdate(ps, id, f).1;
    if r != ps {
      forall a, b | a in r && b in r && a.id != b.id ensures a.code != b.code {
        var i :| 0 <= i < |r| && r[i] == a;
        var j :| 0 <= j < |r| && r[j] == b;
        assert ps[i] in ps && ps[j] in ps;
      }
    }
  }
}
