# TallerDatabase: a verified model of the workshop store

The farm-machinery workshop application keeps its data in one SQLite file,
accessed through the class `TallerDatabase` (`src/database/database.js`). This
project models that class as an in-memory store and proves what its SQL
promises. The store holds three tables:

- `vehicles`: the fleet;
- `parts`: the spare-parts inventory;
- `maintenance`: the work orders.

The files, in dependency order:

- `sql.dfy` (module `Sql`): the SQLite semantics the store relies on.
  - `Option` values model nullable bound parameters.
  - `DbError` models constraint errors.
  - `TextLe` models the BINARY collation. It is a total order: reflexive,
    total, transitive and antisymmetric.
- `schema.dfy` (module `Schema`): the three tables, what `createTables`
  declares, and how each statement treats them.
  - Rows and bound field records.
  - NOT NULL columns, checked in column order.
  - The UNIQUE `plate` and `code` columns.
  - The AUTOINCREMENT key discipline.
  - Why an INSERT or UPDATE fails, and the table after an UPDATE or DELETE.
- `queries.dfy` (module `Queries`): the read queries.
  - `ORDER BY` as a sort that yields a permutation in key order.
  - The lookups by id.
  - The inner join of work orders with vehicles.
- `stats.dfy` (module `Stats`): the four aggregates of `getDashboardStats`.
  - The low-stock rule `stock <= min_stock` on two non-null numbers is
    written once, as `LowStock`. The dashboard count applies it through SQL,
    so a part with a null `stock` or `min_stock` is never counted.
- `seed.dfy` (module `Seed`): the sample data of `insertSampleData`,
  `insertParts` and `insertMaintenance`, and the tables a fresh store holds
  after seeding.
- `database.dfy` (module `Database`): the class `TallerDatabase`.
  - It holds one sequence of rows per table, in scan order.
  - It holds one AUTOINCREMENT counter per table: the largest id ever handed
    out, as in `sqlite_sequence`.
  - A ghost set records every id ever assigned.
  - `Valid()` is the schema's constraints plus that bookkeeping. Every method
    preserves it.

Semantics the model commits to:

- A statement that violates a constraint is rolled back. It changes nothing,
  and it does not consume an id.
- A column named in an INSERT takes the caller's value even when that value
  is null. Only columns the statement does not name take their default. For
  example, `addVehicle` names `status`, so a vehicle added without a status
  has a null status, not `'Activo'`.
- Foreign keys are declared but not enforced, since nothing enables them.
  - `addMaintenance` does not check the vehicle.
  - `deleteVehicle` leaves the vehicle's work orders in place.
  - The inner join then hides those work orders.
- A comparison with NULL is never true.
  - A part with a null `stock` or `min_stock` is never pending.
  - `SUM(cost)` skips null costs, and the caller reads a NULL sum as 0.
- The seed chain is sequential and best-effort.
  - A sample part whose INSERT fails is skipped, and the rest are still
    inserted.
  - The chain runs only when the vehicles table is empty.

## Model

| member | source | states |
|---|---|---|
| Database.TallerDatabase.constructor | src/database/database.js:19-115 | a new database file has three empty tables, zero counters and satisfies every schema constraint |
| Database.TallerDatabase.InsertVehicle | src/database/database.js:141-143 | the nine-column vehicle INSERT fails exactly on a null NOT NULL column or a taken non-null plate, changing nothing; otherwise it appends one row holding exactly the bound values under an id above every id ever assigned, and keeps the constraints |
| Database.TallerDatabase.AddVehicle | src/database/database.js:220-230 | errors exactly as the schema demands and changes nothing then; on success the new id exceeds every id ever assigned (deleted rows included), the new row holds the seven bound values with null maintenance dates, the lookup by the new id returns it, and the other tables are untouched |
| Database.TallerDatabase.UpdateVehicle | src/database/database.js:232-243 | the result and the new table are those of `VehiclesAfterUpdate`; counters, ids and the other tables are untouched; constraints hold afterwards |
| Database.TallerDatabase.DeleteVehicle | src/database/database.js:245-252 | changes is 1 when the id was present and 0 otherwise; the table is the old one without that row; the lookup by that id then finds nothing; counters, parts and every work order are untouched |
| Database.TallerDatabase.AddPart | src/database/database.js:273-283 | fails exactly on a null NOT NULL column or a taken code and changes nothing then; otherwise appends one row holding the bound values under an id above every id ever assigned; the new table and counter are `PartsAfterInsert` of the old ones |
| Database.TallerDatabase.UpdatePart | src/database/database.js:285-296 | the result and the new table are those of `PartsAfterUpdate`; counters, ids and the other tables are untouched; constraints hold afterwards |
| Database.TallerDatabase.AddMaintenance | src/database/database.js:327-347 | fails exactly on a null vehicle id, type or start date (the vehicle is not checked); otherwise appends one row with the nine bound values under an id above every id ever assigned |
| Database.TallerDatabase.InsertSampleData | src/database/database.js:117-154 | with any vehicle present nothing changes, so a second run after a seed is a no-op; otherwise the four sample vehicles are loaded in order under the next ids, the parts table and its counter are the best-effort fold of the sample INSERTs, both work orders are appended, and each counter moves on by the rows added; from an empty store the tables are exactly the seeded tables and each counter equals its table's size, so the next ids are 5, 6 and 3 |
| Database.TallerDatabase.InsertVehicleRows | src/database/database.js:139-151 | on an empty vehicles table, samples with every NOT NULL value and distinct plates are all inserted, in order, numbered on from the counter |
| Database.TallerDatabase.InsertParts | src/database/database.js:156-178 | the parts table and counter are the best-effort fold of the sample INSERTs: old parts stay first, each added row is a sample part, every sample code ends up in the table, and a blank table ends as the five seeded parts with the counter at 5; then the work orders are appended and their counter moves on by two |
| Database.TallerDatabase.InsertPartRows | src/database/database.js:165-177 | the parts table and counter after the loop are `PartsAfterSeeding` of the old ones: each INSERT in turn, a failing one skipped |
| Database.TallerDatabase.InsertMaintenance | src/database/database.js:180-199 | both sample work orders are appended, in order, under the next ids, and the counter moves on by two; on a blank table the result is exactly the seeded work orders |
| Database.TallerDatabase.InsertMaintenanceRows | src/database/database.js:186-198 | every row with its NOT NULL values bound is appended in order under consecutive ids, earlier rows unchanged |
| Database.TallerDatabase.GetDashboardStats | src/database/database.js:350-391 | the four fields are the vehicle count, the in-progress count, the low-stock count and the cost sum from the month start on |
| Schema.VehicleNullError | src/database/database.js:25-29 | no error exactly when name, type, brand, model and year are all bound; any error is a NOT NULL failure |
| Schema.PartNullError | src/database/database.js:45-50 | no error exactly when name, code, category and price are all bound; any error is a NOT NULL failure |
| Schema.MaintenanceNullError | src/database/database.js:63-66 | no error exactly when vehicle id, type and start date are all bound; any error is a NOT NULL failure |
| Schema.VehicleInsertError | src/database/database.js:23-30 | an INSERT passes exactly when every NOT NULL value is bound and the plate is null or held by no row; it fails UNIQUE exactly when the values are complete and the plate is taken |
| Schema.PartInsertError | src/database/database.js:43-50 | an INSERT passes exactly when every NOT NULL value is bound and the code is held by no row; it fails UNIQUE exactly when the values are complete and the code is taken |
| Schema.PartsAfterInsert | src/database/database.js:273-283 | a failing INSERT leaves table and counter as they were; otherwise one row binding the values is appended under the counter plus one |
| Schema.VehicleUpdateError | src/database/database.js:234-238 | with no row of that id nothing fails; otherwise the UPDATE passes exactly when the NOT NULL values are bound and no other row holds the new plate |
| Schema.PartUpdateError | src/database/database.js:287-291 | with no row of that id nothing fails; otherwise the UPDATE passes exactly when the NOT NULL values are bound and no other row holds the new code |
| Schema.UpdatedVehicle | src/database/database.js:236 | the rewritten row keeps its id and maintenance dates and holds the seven bound values |
| Schema.UpdatedPart | src/database/database.js:289 | the rewritten row keeps its id and holds the seven bound values |
| Schema.VehiclesAfterUpdate | src/database/database.js:232-243 | an error leaves the table as it was; otherwise changes is 1 or 0 as the id is present or not, only rows with that id are rewritten (id and dates kept, bound values taken) and the table keeps its length |
| Schema.PartsAfterUpdate | src/database/database.js:285-296 | an error leaves the table as it was; otherwise changes is 1 or 0 as the id is present or not, only rows with that id are rewritten and the table keeps its length |
| Schema.VehicleUpdateKeepsConstraints | src/database/database.js:24-30 | an UPDATE keeps increasing ids, ids within the counter and the UNIQUE plate, and changes no row's id |
| Schema.PartUpdateKeepsConstraints | src/database/database.js:44-46 | an UPDATE keeps increasing ids, ids within the counter and the UNIQUE code, and changes no row's id |
| Schema.RemoveVehicle | src/database/database.js:247 | the DELETE keeps exactly the rows with another id, and none with that id remains |
| Schema.RemoveVehicleCount | src/database/database.js:245-252 | with unique keys the DELETE removes exactly one row when the id is present and none otherwise |
| Schema.RemoveVehicleKeys | src/database/database.js:24 | after a DELETE the remaining ids are still increasing and within the counter |
| Queries.SortBy | src/database/database.js:204 | ORDER BY yields a permutation of the rows ordered by the key, ascending or descending |
| Queries.AllVehicles | src/database/database.js:202-209 | a permutation of the vehicles table in non-decreasing name order |
| Queries.AllParts | src/database/database.js:255-262 | a permutation of the parts table in non-decreasing name order |
| Queries.VehicleById | src/database/database.js:211-218 | finds a row exactly when the id is present, and the row found is in the table with that id |
| Queries.PartById | src/database/database.js:264-271 | finds a row exactly when the id is present, and the row found is in the table with that id |
| Queries.AppendedVehicleFound | src/database/database.js:211-230 | a vehicle added under a fresh id is what the lookup by that id returns |
| Queries.AppendedPartFound | src/database/database.js:264-283 | a part added under a fresh id is what the lookup by that id returns |
| Queries.JoinRow | src/database/database.js:302-304 | a work order joins exactly when its vehicle exists, and carries that vehicle's name |
| Queries.Referenced | src/database/database.js:301-304 | the work orders kept by the inner join on the vehicle's primary key: exactly those whose vehicle exists, never more rows than the table |
| Queries.Join | src/database/database.js:301-304 | the joined rows' work orders are exactly the work orders whose vehicle exists, once each and in scan order, and each row carries its vehicle's name |
| Queries.AllMaintenance | src/database/database.js:299-311 | a permutation of the join, in non-increasing start date order; it holds exactly the work orders whose vehicle exists, each with that vehicle's name, and has one row per such work order |
| Queries.MaintenanceById | src/database/database.js:313-325 | finds a row exactly when a work order with that id references an existing vehicle; the row found carries that vehicle's name |
| Queries.DeletedVehicleHidesWorkOrders | src/database/database.js:299-325 | after deleting a vehicle, its work orders stay in the table but neither the listing nor the lookup by id returns them |
| Sql.TextLeTotal | src/database/database.js:204 | any two texts are ordered one way or the other under the BINARY collation |
| Sql.TextLeTransitive | src/database/database.js:204 | the BINARY collation is transitive |
| Sql.TextLeReflexive | src/database/database.js:204 | every text sorts at or before itself |
| Sql.TextLeAntisymmetric | src/database/database.js:204 | two texts each at or before the other are equal |
| Stats.Pending | src/database/database.js:368 | the `stock <= min_stock` filter on one part; it holds only when both values are non-null, so a part with a null stock or threshold is never pending |
| Stats.InProgress | src/database/database.js:361 | the `status = 'En Proceso'` filter on one work order; a null status never matches |
| Stats.StartsFrom | src/database/database.js:375-378 | the `start_date >= monthStart` filter in the BINARY collation; the bound is inclusive, so a work order starting on the month start counts |
| Stats.Count | src/database/database.js:361-368 | `COUNT(*)` under a filter is at most the number of rows, and is 0 exactly when no row matches |
| Stats.ActiveMaintenance | src/database/database.js:361 | the in-progress count is at most the number of work orders, and is 0 exactly when none is in progress |
| Stats.PendingParts | src/database/database.js:368 | the pending count is at most the number of parts, and is 0 exactly when no part is pending |
| Stats.MonthlyCost | src/database/database.js:375-384 | `SUM(cost)` from the month start with a NULL sum read as 0; when no cost is negative the total is not negative |
| Stats.CountAppend | src/database/database.js:361 | COUNT over a table split in two is the sum of the two counts |
| Stats.CountIsCardinality | src/database/database.js:361-368 | over pairwise-distinct rows, COUNT is the number of distinct matching rows |
| Stats.CountsAreRowCounts | src/database/database.js:361-373 | the in-progress and pending counts are the numbers of distinct matching rows of the tables |
| Stats.AppendMaintenanceStats | src/database/database.js:361-384 | adding a work order raises the in-progress count by one exactly when it is in progress, and the monthly cost by its cost exactly when it starts on or after the month start |
| Stats.MonthlyCostAppend | src/database/database.js:375-384 | the cost sum over two tables is the sum of their sums |
| Stats.MonthlyCostAntitone | src/database/database.js:375-378 | with no negative costs, an earlier month start never gives a smaller sum, since there is no upper date bound |
| Seed.SampleVehicles | src/database/database.js:132-137 | the four sample vehicle rows, with their two maintenance dates |
| Seed.SampleParts | src/database/database.js:157-163 | the five sample part rows |
| Seed.SampleMaintenance | src/database/database.js:181-184 | the two sample work orders, naming vehicles 1 and 3, the second with a null end date |
| Seed.SeededVehicles | src/database/database.js:132-151 | the vehicles table after seeding a fresh store: four rows numbered 1 to 4 |
| Seed.SeededParts | src/database/database.js:157-177 | the parts table after seeding a fresh store: five rows numbered 1 to 5 |
| Seed.SeededMaintenance | src/database/database.js:181-198 | the maintenance table after seeding a fresh store: two rows numbered 1 and 2 |
| Seed.PartsAfterSeeding | src/database/database.js:165-177 | the parts table and counter after one INSERT per sample in turn, a failing one skipped; the counter moves on by exactly the number of rows added |
| Seed.SeededActiveMaintenance | src/database/database.js:361 | of the seeded work orders exactly one, the brake repair, is in progress |
| Seed.SeededPendingParts | src/database/database.js:368 | of the seeded parts exactly one, the brake pads at 8 against 15, is pending |
| Seed.SeededMonthlyCost | src/database/database.js:375-384 | both seeded work orders start on or after 2024-08-01, so that month's cost is 45000 + 85000 |
| Seed.NextVehicleInsertable | src/database/database.js:140-144 | with earlier samples loaded, the next sample vehicle passes every constraint |
| Seed.VehiclesBindStep | src/database/database.js:140-151 | loading the next sample extends the loaded prefix by one row |
| Seed.SeedingAppendsSamples | src/database/database.js:165-177 | seeding only appends, at most one row per sample, and every appended row binds a sample |
| Seed.SeedingCoversCodes | src/database/database.js:165-177 | after seeding, the code of every complete sample is in the table, inserted or already present |
| Seed.FreshCodesStep | src/database/database.js:166-170 | with fresh distinct codes, the first INSERT passes and the remaining codes stay fresh |
| Seed.SeedingFreshCodes | src/database/database.js:157-177 | with fresh distinct codes every INSERT passes: all samples appended in order under consecutive ids |
| Seed.SeedingSampleParts | src/database/database.js:156-178 | seeding the sample parts into any table keeps the old rows first, adds only sample parts, and leaves every sample code present |
| Seed.SeedingBlankParts | src/database/database.js:156-178 | seeding a blank parts table yields exactly the five seeded parts with the counter at five |
| Seed.SeedingIntoBlank | src/database/database.js:165-177 | seeding a blank table with fresh samples yields exactly the rows binding them, numbered from 1 |
| Seed.NumberedBindingsAgree | src/database/database.js:167-170 | two tables numbered from 1 that bind the same samples in order are equal |
| Seed.SampleCodesFresh | src/database/database.js:157-163 | the sample parts are complete, with distinct codes, none present in an empty table |
| Seed.SamplesComplete | src/database/database.js:132-184 | every sample row binds all NOT NULL columns of its table |
| Seed.SampleKeysDistinct | src/database/database.js:132-163 | the sample plates are distinct, as are the sample codes |
| Seed.SeededVehiclesBindSamples | src/database/database.js:132-137 | a row numbered k+1 binding sample vehicle k is seeded vehicle k |
| Seed.SeededPartsBindSamples | src/database/database.js:157-163 | seeded part k is numbered k+1 and binds sample part k |
| Seed.SeededVehiclesLoaded | src/database/database.js:132-151 | four rows numbered from 1 binding the sample vehicles in order are the seeded vehicles table |
| Seed.SeededMaintenanceBindsSamples | src/database/database.js:181-184 | a row numbered k+1 binding sample work order k is seeded work order k |
| Seed.SeededMaintenanceLoaded | src/database/database.js:181-198 | two rows numbered from 1 binding the sample work orders in order are the seeded maintenance table |
| Seed.SeededSizes | src/database/database.js:132-184 | the seed loads 4 vehicles, 5 parts and 2 work orders, so a fresh seeded store hands out ids 5, 6 and 3 next |
| Seed.SeededDashboard | src/database/database.js:132-184 | a freshly seeded store has 4 vehicles, 1 work order in progress, 1 part at or below its threshold (PF-003, 8 against 15) and a cost of 130000 from August 2024 on |

## Left out

- The `sqlite3` connection, the database path taken from the Electron app, and `close` are I/O and are not modelled.
- Asynchrony is not modelled. The model leaves out:
  - the promise and callback structure;
  - the double call of `init` (from the constructor and from `src/main/main.js`);
  - the `completed` counters of the `forEach` loops;
  - the promise of `insertSampleData` that never settles on the seeding path.

  Each chain is one sequential procedure that runs its inserts in array order.
- Driver errors other than constraint failures are not modelled: I/O errors, a locked database, a malformed statement.
- SQLite's dynamic typing is not modelled. Each column holds values of its declared type.
- `createTables` is reduced to the constraints it declares. The `maintenance_parts` and `suppliers` tables are never read or written, so they are not modelled.
- The `created_at` and `updated_at` timestamps are not modelled.
- Integer width is not modelled. SQLite `INTEGER` columns (ids, `year`, `stock`, `min_stock`) are 64-bit, AUTOINCREMENT fails with SQLITE_FULL once the largest rowid has been used, and JavaScript numbers lose precision above 2^53. The model uses unbounded integers, so its id counters never run out.
- The model gives each column one name, used both for the values a caller passes and for the rows a read returns. The JavaScript object keys differ for two tables. `addPart` and `updatePart` read `part.minStock` (`src/database/database.js:278`, `:291`), but `getAllParts` and `getPartById` return `SELECT *` rows keyed `min_stock` (`:257`, `:266`). `addMaintenance` reads `vehicleId`, `startDate` and `endDate` (`:333-337`), but the join returns `vehicle_id`, `start_date` and `end_date` (`:302`). So the part round trip `Queries.AppendedPartFound` holds column by column, not object by object, and so does the work order round trip through `Queries.MaintenanceById`. For example, `updatePart(id, row)` with a row read by `getPartById` binds undefined, that is NULL, to `min_stock`, and the part can then never be pending. Vehicle keys match their column names, so vehicles are not affected.
- The parts screen's own low-stock badge (`src/renderer/pages/Parts.js`) is not part of this model. It compares `part.stock <= part.minStock` in JavaScript over a list of rows written into the screen, not rows read from the store. JavaScript's comparison treats null and undefined operands differently from SQL's, so the badge's rule is not the dashboard's rule on such values.
- `date('now', 'start of month')` is a clock. `GetDashboardStats` takes the month start as a parameter instead.
- The REAL columns `price` and `cost` are integers. Floating-point rounding in `SUM(cost)` is not modelled.
- Queries.SortBy: SQL leaves the order of rows with equal keys unspecified. The contracts promise only a permutation in key order. The stable order the function picks is a model choice.
- Seeding a vehicle that violates a constraint cannot happen in the model. The guard requires an empty vehicles table, and the samples are complete with distinct plates. So the `reject` of a failed sample vehicle INSERT is never reached.
- Database.TallerDatabase.AddPart: its contract does not state the lookup round trip that `AddVehicle` states. That property is `Queries.AppendedPartFound`, about the table `AddPart` produces.
