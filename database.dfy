/**
 * `TallerDatabase`: the workshop store.  Each table is a sequence of rows
 * in scan (rowid) order; each AUTOINCREMENT table keeps the largest id it
 * has ever handed out, as SQLite's `sqlite_sequence` does, so ids of
 * deleted rows are never handed out again.  A statement that fails a
 * constraint is rolled back and changes nothing, its counter included.
 *
 * Foreign keys are declared by the schema but not enforced (SQLite leaves
 * enforcement off unless asked), so neither inserting a work order nor
 * deleting a vehicle looks at the other table.
 */
module Database {
  import opened Sql
  import opened Schema
  import opened Queries
  import opened Stats
  import opened Seed

  class TallerDatabase {
    var vehicles: seq<Vehicle>
    var parts: seq<Part>
    var maintenance: seq<Maintenance>
    var vehicleSeq: nat
    var partSeq: nat
    var maintenanceSeq: nat
    /** Every id ever assigned in each table, deleted rows' ids included. */
    ghost var vehicleIds: set<int>
    ghost var partIds: set<int>
    ghost var maintenanceIds: set<int>

    /** The schema's constraints and the AUTOINCREMENT bookkeeping, table by table. */
    ghost predicate Valid()
      reads this
    {
      VehiclesValid() && PartsValid() && MaintenanceValid()
    }

    ghost predicate VehiclesValid()
      reads this`vehicles, this`vehicleSeq, this`vehicleIds
    {
      && VehicleKeys(vehicles, vehicleSeq) && PlatesUnique(vehicles)
      && (forall id :: id in vehicleIds ==> 0 < id <= vehicleSeq)
      && (forall i :: 0 <= i < |vehicles| ==> vehicles[i].id in vehicleIds)
    }

    ghost predicate PartsValid()
      reads this`parts, this`partSeq, this`partIds
    {
      && PartKeys(parts, partSeq) && CodesUnique(parts)
      && (forall id :: id in partIds ==> 0 < id <= partSeq)
      && (forall i :: 0 <= i < |parts| ==> parts[i].id in partIds)
    }

    ghost predicate MaintenanceValid()
      reads this`maintenance, this`maintenanceSeq, this`maintenanceIds
    {
      && MaintenanceKeys(maintenance, maintenanceSeq)
      && (forall id :: id in maintenanceIds ==> 0 < id <= maintenanceSeq)
      && (forall i :: 0 <= i < |maintenance| ==> maintenance[i].id in maintenanceIds)
    }

    /** A store whose tables have never held a row. */
    ghost predicate Empty()
      reads this
    {
      && vehicles == [] && parts == [] && maintenance == []
      && vehicleSeq == 0 && partSeq == 0 && maintenanceSeq == 0
    }

    /** A new database file after `createTables`. */
    constructor ()
      ensures Valid() && Empty()
    {
      vehicles, parts, maintenance := [], [], [];
      vehicleSeq, partSeq, maintenanceSeq := 0, 0, 0;
      vehicleIds, partIds, maintenanceIds := {}, {}, {};
    }

    // -------------------------------------------------------------------
    // Vehicles

    /** The vehicles table grew by one row binding `f` under the next id,
        which is above every id handed out before. */
    ghost predicate VehicleAppended(before: seq<Vehicle>, beforeSeq: int, beforeIds: set<int>, id: int, f: VehicleFields)
      reads this
    {
      && id == beforeSeq + 1 == vehicleSeq
      && (forall k :: k in beforeIds ==> k < id)
      && vehicleIds == beforeIds + {id}
      && |vehicles| == |before| + 1 && vehicles[..|before|] == before
      && vehicles[|before|].id == id
      && VehicleBinds(vehicles[|before|], f)
    }

    /** `INSERT INTO vehicles (name, type, brand, model, year, plate, status,
        last_maintenance, next_maintenance)`, the statement the seed uses. */
    method InsertVehicle(f: VehicleFields, last: Option<string>, next: Option<string>) returns (r: Result<int>)
      requires Valid()
      modifies this
      ensures Valid()
      ensures r.Err? <==> VehicleInsertError(old(vehicles), f).Some?
      ensures r.Err? ==> r.error == VehicleInsertError(old(vehicles), f).value && unchanged(this)
      ensures r.Ok? ==>
                && VehicleAppended(old(vehicles), old(vehicleSeq), old(vehicleIds), r.value, f)
                && vehicles[|old(vehicles)|].lastMaintenance == last
                && vehicles[|old(vehicles)|].nextMaintenance == next
      ensures unchanged(this`parts, this`partSeq, this`partIds)
      ensures unchanged(this`maintenance, this`maintenanceSeq, this`maintenanceIds)
    {
      var e := VehicleInsertError(vehicles, f);
      if e.Some? {
        return Err(e.value);
      }
      var id := vehicleSeq + 1;
      var v := Vehicle(id, f.name.value, f.kind.value, f.brand.value, f.model.value, f.year.value,
                       f.plate, f.status, last, next);
      vehicles := vehicles + [v];
      vehicleSeq := id;
      vehicleIds := vehicleIds + {id};
      r := Ok(id);
    }

    /** `addVehicle`: binds seven columns; the two maintenance dates, which the
        statement does not name, are null. */
    method AddVehicle(f: VehicleFields) returns (r: Result<int>)
      requires Valid()
      modifies this
      ensures Valid()
      ensures r.Err? <==> VehicleInsertError(old(vehicles), f).Some?
      ensures r.Err? ==> r.error == VehicleInsertError(old(vehicles), f).value && unchanged(this)
      ensures r.Ok? ==>
                && VehicleAppended(old(vehicles), old(vehicleSeq), old(vehicleIds), r.value, f)
                && vehicles[|old(vehicles)|].lastMaintenance.None?
                && vehicles[|old(vehicles)|].nextMaintenance.None?
                && VehicleById(vehicles, r.value) == Some(vehicles[|old(vehicles)|])
      ensures unchanged(this`parts, this`partSeq, this`partIds)
      ensures unchanged(this`maintenance, this`maintenanceSeq, this`maintenanceIds)
    {
      ghost var before := vehicles;
      r := InsertVehicle(f, None, None);
      if r.Ok? {
        assert vehicles == before + [vehicles[|before|]];
        AppendedVehicleFound(before, vehicles[|before|]);
      }
    }

    /** `updateVehicle`: rewrites the seven bound columns of the row with that
        id and reports how many rows it matched; the maintenance dates stay. */
    method UpdateVehicle(id: int, f: VehicleFields) returns (r: Result<nat>)
      requires Valid()
      modifies this
      ensures Valid()
      ensures (r, vehicles) == VehiclesAfterUpdate(old(vehicles), id, f)
      ensures unchanged(this`vehicleSeq, this`vehicleIds)
      ensures unchanged(this`parts, this`partSeq, this`partIds)
      ensures unchanged(this`maintenance, this`maintenanceSeq, this`maintenanceIds)
    {
      var after := VehiclesAfterUpdate(vehicles, id, f);
      VehicleUpdateKeepsConstraints(vehicles, id, f, vehicleSeq);
      r, vehicles := after.0, after.1;
    }

    /** `deleteVehicle`: a hard delete.  Work orders that reference the vehicle
        stay in the maintenance table. */
    method DeleteVehicle(id: int) returns (changes: nat)
      requires Valid()
      modifies this
      ensures Valid()
      ensures changes == if HasVehicle(old(vehicles), id) then 1 else 0
      ensures vehicles == RemoveVehicle(old(vehicles), id)
      ensures |vehicles| == |old(vehicles)| - changes
      ensures VehicleById(vehicles, id).None?
      ensures unchanged(this`vehicleSeq, this`vehicleIds)
      ensures unchanged(this`parts, this`partSeq, this`partIds)
      ensures unchanged(this`maintenance, this`maintenanceSeq, this`maintenanceIds)
    {
      changes := if HasVehicle(vehicles, id) then 1 else 0;
      RemoveVehicleCount(vehicles, id, vehicleSeq);
      RemoveVehicleKeys(vehicles, id, vehicleSeq);
      vehicles := RemoveVehicle(vehicles, id);
    }

    // -------------------------------------------------------------------
    // Parts

    /** `addPart`: `INSERT INTO parts (name, code, category, stock, min_stock,
        price, supplier)`. */
    method AddPart(f: PartFields) returns (r: Result<int>)
      requires Valid()
      modifies this
      ensures Valid()
      ensures r.Err? <==> PartInsertError(old(parts), f).Some?
      ensures r.Err? ==> r.error == PartInsertError(old(parts), f).value && unchanged(this)
      ensures r.Ok? ==>
                && r.value == old(partSeq) + 1 == partSeq
                && (forall id :: id in old(partIds) ==> id < r.value)
                && partIds == old(partIds) + {r.value}
                && |parts| == |old(parts)| + 1 && parts[..|old(parts)|] == old(parts)
                && parts[|old(parts)|].id == r.value
                && PartBinds(parts[|old(parts)|], f)
      ensures (parts, partSeq) == PartsAfterInsert(old(parts), old(partSeq), f)
      ensures unchanged(this`vehicles, this`vehicleSeq, this`vehicleIds)
      ensures unchanged(this`maintenance, this`maintenanceSeq, this`maintenanceIds)
    {
      var e := PartInsertError(parts, f);
      if e.Some? {
        return Err(e.value);
      }
      var after := PartsAfterInsert(parts, partSeq, f);
      parts, partSeq := after.0, after.1;
      partIds := partIds + {partSeq};
      r := Ok(partSeq);
    }

    /** `updatePart`: rewrites all seven bound columns of the row with that id
        and reports how many rows it matched. */
    method UpdatePart(id: int, f: PartFields) returns (r: Result<nat>)
      requires Valid()
      modifies this
      ensures Valid()
      ensures (r, parts) == PartsAfterUpdate(old(parts), id, f)
      ensures unchanged(this`partSeq, this`partIds)
      ensures unchanged(this`vehicles, this`vehicleSeq, this`vehicleIds)
      ensures unchanged(this`maintenance, this`maintenanceSeq, this`maintenanceIds)
    {
      var after := PartsAfterUpdate(parts, id, f);
      PartUpdateKeepsConstraints(parts, id, f, partSeq);
      r, parts := after.0, after.1;
    }

    // -------------------------------------------------------------------
    // Maintenance

    /** `addMaintenance`: `INSERT INTO maintenance` of nine bound columns.  The
        referenced vehicle is not checked. */
    method AddMaintenance(f: MaintenanceFields) returns (r: Result<int>)
      requires Valid()
      modifies this
      ensures Valid()
      ensures r.Err? <==> MaintenanceNullError(f).Some?
      ensures r.Err? ==> r.error == MaintenanceNullError(f).value && unchanged(this)
      ensures r.Ok? ==>
                && r.value == old(maintenanceSeq) + 1 == maintenanceSeq
                && (forall id :: id in old(maintenanceIds) ==> id < r.value)
                && maintenanceIds == old(maintenanceIds) + {r.value}
                && |maintenance| == |old(maintenance)| + 1 && maintenance[..|old(maintenance)|] == old(maintenance)
                && maintenance[|old(maintenance)|].id == r.value
                && MaintenanceBinds(maintenance[|old(maintenance)|], f)
      ensures unchanged(this`vehicles, this`vehicleSeq, this`vehicleIds)
      ensures unchanged(this`parts, this`partSeq, this`partIds)
    {
      var e := MaintenanceNullError(f);
      if e.Some? {
        return Err(e.value);
      }
      var id := maintenanceSeq + 1;
      var m := Maintenance(id, f.vehicleId.value, f.kind.value, f.description, f.startDate.value, f.endDate,
                           f.status, f.technician, f.cost, f.priority);
      maintenance := maintenance + [m];
      maintenanceSeq := id;
      maintenanceIds := maintenanceIds + {id};
      r := Ok(id);
    }

    // -------------------------------------------------------------------
    // Sample data

    /** The sample work orders were appended after `before`, numbered on from `last`. */
    ghost predicate SampleMaintenanceAppended(before: seq<Maintenance>, last: int)
      reads this
    {
      && |maintenance| == |before| + |SampleMaintenance()|
      && maintenance[..|before|] == before
      && forall j :: |before| <= j < |maintenance| ==>
           && maintenance[j].id == last + (j - |before|) + 1
           && MaintenanceBinds(maintenance[j], SampleMaintenance()[j - |before|])
    }

    /** `insertSampleData`: only when the vehicles table is empty, load the
        sample vehicles, then the sample parts and work orders.  Every insert
        is attempted whatever became of the previous ones. */
    method InsertSampleData()
      requires Valid()
      modifies this
      ensures Valid()
      ensures |old(vehicles)| > 0 ==> unchanged(this)
      ensures |old(vehicles)| == 0 ==>
                && VehiclesBind(vehicles, old(vehicleSeq), SampleVehicles())
                && vehicleSeq == old(vehicleSeq) + |SampleVehicles()|
                && (parts, partSeq) == PartsAfterSeeding(old(parts), old(partSeq), SampleParts())
                && SamplePartsMerged(old(parts), parts)
                && SampleMaintenanceAppended(old(maintenance), old(maintenanceSeq))
                && maintenanceSeq == old(maintenanceSeq) + |SampleMaintenance()|
      ensures old(Empty()) ==>
                vehicles == SeededVehicles() && parts == SeededParts() && maintenance == SeededMaintenance()
      ensures old(Empty()) ==> vehicleSeq == |vehicles| && partSeq == |parts| && maintenanceSeq == |maintenance|
    {
      if |vehicles| > 0 {
        return;
      }
      SamplesComplete();
      SampleKeysDistinct();
      InsertVehicleRows(SampleVehicles());
      if old(Empty()) {
        SeededVehiclesLoaded(vehicles);
      }
      InsertParts();
    }

    /** The `forEach` of `insertSampleData` over its vehicle rows, on an empty
        table: every row goes in, each under the next id. */
    method InsertVehicleRows(samples: seq<SampleVehicle>)
      requires Valid() && vehicles == []
      requires forall k :: 0 <= k < |samples| ==> VehicleRequiredPresent(samples[k].fields)
      requires PlatesDistinct(samples)
      modifies this
      ensures Valid()
      ensures VehiclesBind(vehicles, old(vehicleSeq), samples) && vehicleSeq == old(vehicleSeq) + |samples|
      ensures unchanged(this`parts, this`partSeq, this`partIds)
      ensures unchanged(this`maintenance, this`maintenanceSeq, this`maintenanceIds)
    {
      var i := 0;
      while i < |samples|
        invariant 0 <= i <= |samples|
        invariant Valid()
        invariant VehiclesBind(vehicles, old(vehicleSeq), samples[..i]) && vehicleSeq == old(vehicleSeq) + i
        invariant unchanged(this`parts, this`partSeq, this`partIds)
        invariant unchanged(this`maintenance, this`maintenanceSeq, this`maintenanceIds)
      {
        var sample := samples[i];
        NextVehicleInsertable(vehicles, old(vehicleSeq), samples);
        ghost var before := vehicles;
        var r := InsertVehicle(sample.fields, Some(sample.lastMaintenance), Some(sample.nextMaintenance));
        VehiclesBindStep(before, vehicles, old(vehicleSeq), samples);
        i := i + 1;
      }
      assert samples[..i] == samples;
    }

    /** `insertParts`: each sample part is inserted or, when it breaks a
        constraint, skipped; then the work orders are loaded. */
    method InsertParts()
      requires Valid()
      modifies this
      ensures Valid()
      ensures (parts, partSeq) == PartsAfterSeeding(old(parts), old(partSeq), SampleParts())
      ensures SamplePartsMerged(old(parts), parts)
      ensures old(parts) == [] && old(partSeq) == 0 ==> (parts, partSeq) == (SeededParts(), |SeededParts()|)
      ensures SampleMaintenanceAppended(old(maintenance), old(maintenanceSeq))
      ensures maintenanceSeq == old(maintenanceSeq) + |SampleMaintenance()|
      ensures old(maintenance) == [] && old(maintenanceSeq) == 0 ==> maintenance == SeededMaintenance()
      ensures unchanged(this`vehicles, this`vehicleSeq, this`vehicleIds)
    {
      InsertPartRows(SampleParts());
      SeedingSampleParts(old(parts), old(partSeq));
      if old(parts) == [] && old(partSeq) == 0 {
        SeedingBlankParts();
      }
      InsertMaintenance();
    }

    /** The `forEach` of `insertParts` over its rows: each row goes through
        `addPart`, so the table ends as the fold of single inserts. */
    method InsertPartRows(samples: seq<PartFields>)
      requires Valid()
      modifies this
      ensures Valid()
      ensures (parts, partSeq) == PartsAfterSeeding(old(parts), old(partSeq), samples)
      ensures unchanged(this`vehicles, this`vehicleSeq, this`vehicleIds)
      ensures unchanged(this`maintenance, this`maintenanceSeq, this`maintenanceIds)
    {
      var i := 0;
      while i < |samples|
        invariant 0 <= i <= |samples|
        invariant Valid()
        invariant PartsAfterSeeding(parts, partSeq, samples[i..]) == PartsAfterSeeding(old(parts), old(partSeq), samples)
        invariant unchanged(this`vehicles, this`vehicleSeq, this`vehicleIds)
        invariant unchanged(this`maintenance, this`maintenanceSeq, this`maintenanceIds)
      {
        assert samples[i..][0] == samples[i] && samples[i..][1..] == samples[i + 1..];
        var r := AddPart(samples[i]);
        i := i + 1;
      }
      assert samples[i..] == [];
    }

    /** `insertMaintenance`: both sample work orders, which name vehicles 1
        and 3 by literal id. */
    method InsertMaintenance()
      requires Valid()
      modifies this
      ensures Valid()
      ensures SampleMaintenanceAppended(old(maintenance), old(maintenanceSeq))
      ensures maintenanceSeq == old(maintenanceSeq) + |SampleMaintenance()|
      ensures old(maintenance) == [] && old(maintenanceSeq) == 0 ==> maintenance == SeededMaintenance()
      ensures unchanged(this`vehicles, this`vehicleSeq, this`vehicleIds)
      ensures unchanged(this`parts, this`partSeq, this`partIds)
    {
      SamplesComplete();
      InsertMaintenanceRows(SampleMaintenance());
      if old(maintenance) == [] && old(maintenanceSeq) == 0 {
        SeededMaintenanceLoaded(maintenance);
      }
    }

    /** The `forEach` of `insertMaintenance` over its rows: with every NOT NULL
        column bound, each row is appended under the next id. */
    method InsertMaintenanceRows(samples: seq<MaintenanceFields>)
      requires Valid()
      requires forall k :: 0 <= k < |samples| ==> MaintenanceRequiredPresent(samples[k])
      modifies this
      ensures Valid()
      ensures |maintenance| == |old(maintenance)| + |samples| && maintenance[..|old(maintenance)|] == old(maintenance)
      ensures maintenanceSeq == old(maintenanceSeq) + |samples|
      ensures forall j :: |old(maintenance)| <= j < |maintenance| ==>
                && maintenance[j].id == old(maintenanceSeq) + (j - |old(maintenance)|) + 1
                && MaintenanceBinds(maintenance[j], samples[j - |old(maintenance)|])
      ensures unchanged(this`vehicles, this`vehicleSeq, this`vehicleIds)
      ensures unchanged(this`parts, this`partSeq, this`partIds)
    {
      var i := 0;
      while i < |samples|
        invariant 0 <= i <= |samples|
        invariant Valid()
        invariant |maintenance| == |old(maintenance)| + i && maintenance[..|old(maintenance)|] == old(maintenance)
        invariant maintenanceSeq == old(maintenanceSeq) + i
        invariant forall j :: |old(maintenance)| <= j < |maintenance| ==>
                    && maintenance[j].id == old(maintenanceSeq) + (j - |old(maintenance)|) + 1
                    && MaintenanceBinds(maintenance[j], samples[j - |old(maintenance)|])
        invariant unchanged(this`vehicles, this`vehicleSeq, this`vehicleIds)
        invariant unchanged(this`parts, this`partSeq, this`partIds)
      {
        ghost var before := maintenance;
        var r := AddMaintenance(samples[i]);
        assert forall k :: 0 <= k < |before| ==> maintenance[k] == before[k];
        i := i + 1;
      }
    }

    // -------------------------------------------------------------------
    // Dashboard

    /** `getDashboardStats`: four aggregates filled in one after the other;
        `monthStart` stands for `date('now', 'start of month')`. */
    method GetDashboardStats(monthStart: string) returns (stats: DashboardStats)
      ensures stats.totalVehicles == |vehicles|
      ensures stats.activeMaintenance == ActiveMaintenance(maintenance)
      ensures stats.pendingParts == PendingParts(parts)
      ensures stats.monthlyCost == MonthlyCost(maintenance, monthStart)
    {
      var totalVehicles := |vehicles|;
      var activeMaintenance := ActiveMaintenance(maintenance);
      var pendingParts := PendingParts(parts);
      var monthlyCost := MonthlyCost(maintenance, monthStart);
      stats := DashboardStats(totalVehicles, activeMaintenance, pendingParts, monthlyCost);
    }
  }
}
