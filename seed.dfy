/**
 * The sample rows the store loads into an empty vehicles table
 * (`insertSampleData`, `insertParts`, `insertMaintenance`), the rows a fresh
 * store holds afterwards, and what the read queries and the dashboard
 * report over them.
 */
module Seed {
  import opened Sql
  import opened Schema
  import opened Queries
  import opened Stats

  /** A sample vehicle: the seed INSERT also binds the two maintenance dates. */
  datatype SampleVehicle = SampleVehicle(fields: VehicleFields, lastMaintenance: string, nextMaintenance: string)

  function SampleVehicles(): (r: seq<SampleVehicle>)
    ensures |r| == 4
  {
    [ SampleVehicle(VehicleFields(Some("Tractor JD 5075E"), Some("Tractor"), Some("John Deere"), Some("5075E"),
                                  Some(2020), Some("ABC123"), Some("Activo")), "2024-08-15", "2024-09-15"),
      SampleVehicle(VehicleFields(Some("Cosechadora New Holland"), Some("Cosechadora"), Some("New Holland"), Some("CR 10.90"),
                                  Some(2019), Some("XYZ789"), Some("Mantenimiento")), "2024-08-10", "2024-08-25"),
      SampleVehicle(VehicleFields(Some("Camión Iveco Daily"), Some("Camión"), Some("Iveco"), Some("Daily 35S15"),
                                  Some(2021), Some("DEF456"), Some("Activo")), "2024-08-05", "2024-09-05"),
      SampleVehicle(VehicleFields(Some("Camioneta Ford Ranger"), Some("Camioneta"), Some("Ford"), Some("Ranger XLT"),
                                  Some(2022), Some("GHI789"), Some("Activo")), "2024-08-12", "2024-09-12") ]
  }

  function SampleParts(): (r: seq<PartFields>)
    ensures |r| == 5
  {
    [ PartFields(Some("Filtro de Aceite"), Some("FO-001"), Some("Filtros"), Some(25), Some(5), Some(1500), Some("AutoParts SA")),
      PartFields(Some("Aceite Motor 15W40"), Some("AM-002"), Some("Lubricantes"), Some(50), Some(10), Some(2500), Some("LubriMax")),
      PartFields(Some("Pastillas de Freno"), Some("PF-003"), Some("Frenos"), Some(8), Some(15), Some(8000), Some("FrenosPro")),
      PartFields(Some("Filtro de Aire"), Some("FA-004"), Some("Filtros"), Some(15), Some(8), Some(1200), Some("AutoParts SA")),
      PartFields(Some("Aceite Hidráulico"), Some("AH-005"), Some("Lubricantes"), Some(30), Some(12), Some(3500), Some("LubriMax")) ]
  }

  /** The sample work orders name vehicles 1 and 3 by literal id. */
  function SampleMaintenance(): (r: seq<MaintenanceFields>)
    ensures |r| == 2
  {
    [ MaintenanceFields(Some(1), Some("Mantenimiento Preventivo"), Some("Cambio de aceite y filtros"), Some("2024-08-20"),
                        Some("2024-08-21"), Some("Completado"), Some("Carlos Rodríguez"), Some(45000), Some("Normal")),
      MaintenanceFields(Some(3), Some("Reparación"), Some("Reparación del sistema de frenos"), Some("2024-08-19"),
                        None, Some("En Proceso"), Some("Miguel López"), Some(85000), Some("Alta")) ]
  }

  /** The vehicles table of a fresh store after seeding. */
  function SeededVehicles(): (r: seq<Vehicle>)
    ensures |r| == 4 && forall k :: 0 <= k < |r| ==> r[k].id == k + 1
  {
    [ Vehicle(1, "Tractor JD 5075E", "Tractor", "John Deere", "5075E", 2020, Some("ABC123"), Some("Activo"),
              Some("2024-08-15"), Some("2024-09-15")),
      Vehicle(2, "Cosechadora New Holland", "Cosechadora", "New Holland", "CR 10.90", 2019, Some("XYZ789"), Some("Mantenimiento"),
              Some("2024-08-10"), Some("2024-08-25")),
      Vehicle(3, "Camión Iveco Daily", "Camión", "Iveco", "Daily 35S15", 2021, Some("DEF456"), Some("Activo"),
              Some("2024-08-05"), Some("2024-09-05")),
      Vehicle(4, "Camioneta Ford Ranger", "Camioneta", "Ford", "Ranger XLT", 2022, Some("GHI789"), Some("Activo"),
              Some("2024-08-12"), Some("2024-09-12")) ]
  }

  /** The parts table of a fresh store after seeding. */
  function SeededParts(): (r: seq<Part>)
    ensures |r| == 5 && forall k :: 0 <= k < |r| ==> r[k].id == k + 1
  {
    [ Part(1, "Filtro de Aceite", "FO-001", "Filtros", Some(25), Some(5), 1500, Some("AutoParts SA")),
      Part(2, "Aceite Motor 15W40", "AM-002", "Lubricantes", Some(50), Some(10), 2500, Some("LubriMax")),
      Part(3, "Pastillas de Freno", "PF-003", "Frenos", Some(8), Some(15), 8000, Some("FrenosPro")),
      Part(4, "Filtro de Aire", "FA-004", "Filtros", Some(15), Some(8), 1200, Some("AutoParts SA")),
      Part(5, "Aceite Hidráulico", "AH-005", "Lubricantes", Some(30), Some(12), 3500, Some("LubriMax")) ]
  }

  /** The maintenance table of a fresh store after seeding. */
  function SeededMaintenance(): (r: seq<Maintenance>)
    ensures |r| == 2 && forall k :: 0 <= k < |r| ==> r[k].id == k + 1
  {
    [ Maintenance(1, 1, "Mantenimiento Preventivo", Some("Cambio de aceite y filtros"), "2024-08-20",
                  Some("2024-08-21"), Some("Completado"), Some("Carlos Rodríguez"), Some(45000), Some("Normal")),
      Maintenance(2, 3, "Reparación", Some("Reparación del sistema de frenos"), "2024-08-19",
                  None, Some("En Proceso"), Some("Miguel López"), Some(85000), Some("Alta")) ]
  }

  /** `v` is what the seed INSERT of `s` writes, id aside. */
  predicate BindsVehicleSample(v: Vehicle, s: SampleVehicle)
  {
    && VehicleBinds(v, s.fields)
    && v.lastMaintenance == Some(s.lastMaintenance)
    && v.nextMaintenance == Some(s.nextMaintenance)
  }

  /** `p` is what one of `samples` binds. */
  ghost predicate BindsSomePart(p: Part, samples: seq<PartFields>)
  {
    exists k :: 0 <= k < |samples| && PartBinds(p, samples[k])
  }

  /** `vs` holds exactly `samples`, in order, numbered on from `last`. */
  ghost predicate VehiclesBind(vs: seq<Vehicle>, last: int, samples: seq<SampleVehicle>)
  {
    && |vs| == |samples|
    && forall k :: 0 <= k < |samples| ==> vs[k].id == last + k + 1 && BindsVehicleSample(vs[k], samples[k])
  }

  /** With the first `|vs|` of distinct-plate samples loaded, the next sample's
      INSERT passes every constraint. */
  lemma NextVehicleInsertable(vs: seq<Vehicle>, last: int, samples: seq<SampleVehicle>)
    requires |vs| < |samples| && VehiclesBind(vs, last, samples[..|vs|]) && PlatesDistinct(samples)
    requires VehicleRequiredPresent(samples[|vs|].fields)
    ensures VehicleInsertError(vs, samples[|vs|].fields).None?
  {
    var next := samples[|vs|].fields;
    forall v | v in vs ensures v.plate != next.plate {
      var j :| 0 <= j < |vs| && vs[j] == v;
      assert samples[..|vs|][j] == samples[j];
    }
  }

  /** Loading one more sample extends the loaded prefix. */
  lemma VehiclesBindStep(vs: seq<Vehicle>, after: seq<Vehicle>, last: int, samples: seq<SampleVehicle>)
    requires |vs| < |samples| && VehiclesBind(vs, last, samples[..|vs|])
    requires |after| == |vs| + 1 && after[..|vs|] == vs
    requires after[|vs|].id == last + |vs| + 1 && BindsVehicleSample(after[|vs|], samples[|vs|])
    ensures VehiclesBind(after, last, samples[..|vs| + 1])
  {
    var n := |vs|;
    forall k | 0 <= k < n + 1
      ensures after[k].id == last + k + 1 && BindsVehicleSample(after[k], samples[..n + 1][k])
    {
      if k < n {
        assert after[k] == vs[k] && samples[..n][k] == samples[k];
      }
    }
  }

  predicate PlatesDistinct(samples: seq<SampleVehicle>)
  {
    forall a, b :: 0 <= a < b < |samples| ==> samples[a].fields.plate != samples[b].fields.plate
  }

  predicate CodesDistinct(samples: seq<PartFields>)
  {
    forall a, b :: 0 <= a < b < |samples| ==> samples[a].code != samples[b].code
  }

  /** The parts table and its counter after the INSERT of each of `samples`
      in turn, where a failing INSERT is skipped and the next one still runs. */
  function PartsAfterSeeding(ps: seq<Part>, last: nat, samples: seq<PartFields>): (r: (seq<Part>, nat))
    ensures last <= r.1 && r.1 - last == |r.0| - |ps|
    decreases |samples|
  {
    if samples == [] then (ps, last)
    else
      var next := PartsAfterInsert(ps, last, samples[0]);
      PartsAfterSeeding(next.0, next.1, samples[1..])
  }

  /** Seeding only appends, at most one row per sample, and every row it
      appends binds one of the samples. */
  lemma {:induction false} SeedingAppendsSamples(ps: seq<Part>, last: nat, samples: seq<PartFields>)
    ensures var r := PartsAfterSeeding(ps, last, samples).0;
            && |ps| <= |r| <= |ps| + |samples| && r[..|ps|] == ps
            && forall j :: |ps| <= j < |r| ==> BindsSomePart(r[j], samples)
    decreases |samples|
  {
    if samples != [] {
      var next := PartsAfterInsert(ps, last, samples[0]);
      var rest := samples[1..];
      SeedingAppendsSamples(next.0, next.1, rest);
      var r := PartsAfterSeeding(ps, last, samples).0;
      assert r == PartsAfterSeeding(next.0, next.1, rest).0;
      assert r[..|ps|] == ps by {
        assert r[..|ps|] == next.0[..|ps|];
      }
      forall j | |ps| <= j < |r| ensures BindsSomePart(r[j], samples) {
        if j < |next.0| {
          assert r[j] == next.0[j];
          assert PartBinds(r[j], samples[0]);
        } else {
          var k :| 0 <= k < |rest| && PartBinds(r[j], rest[k]);
          assert rest[k] == samples[k + 1];
        }
      }
    }
  }

  /** Best effort: afterwards every sample code that could be inserted is in
      the table, either inserted by its own INSERT or already there. */
  lemma {:induction false} SeedingCoversCodes(ps: seq<Part>, last: nat, samples: seq<PartFields>)
    ensures var r := PartsAfterSeeding(ps, last, samples).0;
            forall k :: 0 <= k < |samples| && PartRequiredPresent(samples[k]) ==> CodeInUse(r, samples[k].code.value)
    decreases |samples|
  {
    if samples != [] {
      var next := PartsAfterInsert(ps, last, samples[0]);
      var rest := samples[1..];
      SeedingCoversCodes(next.0, next.1, rest);
      SeedingAppendsSamples(next.0, next.1, rest);
      var r := PartsAfterSeeding(ps, last, samples).0;
      assert r == PartsAfterSeeding(next.0, next.1, rest).0;
      forall k | 0 <= k < |samples| && PartRequiredPresent(samples[k]) ensures CodeInUse(r, samples[k].code.value) {
        if k == 0 {
          var p: Part;
          if PartInsertError(ps, samples[0]).Some? {
            p :| p in ps && Some(p.code) == samples[0].code;
            var i :| 0 <= i < |ps| && ps[i] == p;
            assert next.0 == ps;
            assert r[i] == p;
          } else {
            p := next.0[|ps|];
            assert r[|ps|] == p;
          }
        } else {
          assert samples[k] == rest[k - 1];
        }
      }
    }
  }

  /** The codes of `samples` are all bound, pairwise different and absent from `ps`. */
  predicate FreshCodes(ps: seq<Part>, samples: seq<PartFields>)
  {
    && (forall k :: 0 <= k < |samples| ==> PartRequiredPresent(samples[k]) && !CodeInUse(ps, samples[k].code.value))
    && CodesDistinct(samples)
  }

  /** The first INSERT of fresh samples succeeds and leaves the rest fresh. */
  lemma FreshCodesStep(ps: seq<Part>, last: nat, samples: seq<PartFields>)
    requires samples != [] && FreshCodes(ps, samples)
    ensures PartInsertError(ps, samples[0]).None?
    ensures FreshCodes(PartsAfterInsert(ps, last, samples[0]).0, samples[1..])
  {
    var next := PartsAfterInsert(ps, last, samples[0]).0;
    var rest := samples[1..];
    var row := next[|ps|];
    assert next == ps + [row];
    forall k | 0 <= k < |rest| ensures !CodeInUse(next, rest[k].code.value) {
      assert samples[0].code != samples[k + 1].code;
      forall p | p in next ensures p.code != rest[k].code.value {
        assert p in ps || p == row;
      }
    }
  }

  /** When no sample code is in the table yet, the codes are distinct and
      every NOT NULL column is bound, every INSERT succeeds: the samples are
      appended in order, numbered on from `last`. */
  lemma {:induction false} SeedingFreshCodes(ps: seq<Part>, last: nat, samples: seq<PartFields>)
    requires FreshCodes(ps, samples)
    ensures |PartsAfterSeeding(ps, last, samples).0| == |ps| + |samples|
    ensures PartsAfterSeeding(ps, last, samples).1 == last + |samples|
    ensures var r := PartsAfterSeeding(ps, last, samples).0;
            forall j :: |ps| <= j < |r| ==> r[j].id == last + (j - |ps|) + 1 && PartBinds(r[j], samples[j - |ps|])
    decreases |samples|
  {
    if samples != [] {
      var next := PartsAfterInsert(ps, last, samples[0]);
      var rest := samples[1..];
      FreshCodesStep(ps, last, samples);
      SeedingFreshCodes(next.0, next.1, rest);
      SeedingAppendsSamples(next.0, next.1, rest);
      var r := PartsAfterSeeding(next.0, next.1, rest).0;
      assert PartsAfterSeeding(ps, last, samples).0 == r;
      forall j | |ps| <= j < |r|
        ensures r[j].id == last + (j - |ps|) + 1 && PartBinds(r[j], samples[j - |ps|])
      {
        if j == |ps| {
          assert r[j] == next.0[|ps|];
        } else {
          assert samples[j - |ps|] == rest[j - |next.0|];
        }
      }
    }
  }

  /** Best-effort part seeding on top of `before`: the old rows stay first,
      every added row is a sample part, and every sample code is in `ps`
      afterwards, either inserted or already there. */
  ghost predicate SamplePartsMerged(before: seq<Part>, ps: seq<Part>)
  {
    && |before| <= |ps| <= |before| + |SampleParts()|
    && ps[..|before|] == before
    && (forall j :: |before| <= j < |ps| ==> BindsSomePart(ps[j], SampleParts()))
    && (forall k :: 0 <= k < |SampleParts()| ==> CodeInUse(ps, SampleParts()[k].code.value))
  }

  /** What `insertParts` makes of any parts table. */
  lemma SeedingSampleParts(ps: seq<Part>, last: nat)
    ensures SamplePartsMerged(ps, PartsAfterSeeding(ps, last, SampleParts()).0)
  {
    SeedingAppendsSamples(ps, last, SampleParts());
    SeedingCoversCodes(ps, last, SampleParts());
    SamplesComplete();
  }

  /** On a blank parts table every sample part is inserted, in order. */
  lemma SeedingBlankParts()
    ensures PartsAfterSeeding([], 0, SampleParts()) == (SeededParts(), |SeededParts()|)
  {
    SampleCodesFresh();
    SeededPartsBindSamples(SampleParts());
    SeedingIntoBlank(SampleParts(), SeededParts());
  }

  /** Seeding a blank table with fresh samples yields exactly the rows that
      bind them in order, numbered from 1. */
  lemma SeedingIntoBlank(samples: seq<PartFields>, rows: seq<Part>)
    requires FreshCodes([], samples)
    requires |rows| == |samples|
    requires forall k :: 0 <= k < |rows| ==> rows[k].id == k + 1 && PartBinds(rows[k], samples[k])
    ensures PartsAfterSeeding([], 0, samples) == (rows, |rows|)
  {
    SeedingFreshCodes([], 0, samples);
    NumberedBindingsAgree(PartsAfterSeeding([], 0, samples).0, rows, samples);
  }

  /** Two tables numbered from 1 whose rows bind the same fields in the same
      order are the same table: a row is its id and its bound columns. */
  lemma NumberedBindingsAgree(a: seq<Part>, b: seq<Part>, samples: seq<PartFields>)
    requires |a| == |samples| && |b| == |samples|
    requires forall k :: 0 <= k < |a| ==> a[k].id == k + 1 && PartBinds(a[k], samples[k])
    requires forall k :: 0 <= k < |b| ==> b[k].id == k + 1 && PartBinds(b[k], samples[k])
    ensures a == b
  {
    forall k | 0 <= k < |a| ensures a[k] == b[k] {
      assert PartBinds(a[k], samples[k]) && PartBinds(b[k], samples[k]);
    }
  }

  /** No sample code is in use in an empty parts table. */
  lemma SampleCodesFresh()
    ensures FreshCodes([], SampleParts())
  {
    SampleKeysDistinct();
    SamplesComplete();
  }

  /** Every sample row binds all the columns its table declares NOT NULL. */
  lemma SamplesComplete()
    ensures forall k :: 0 <= k < |SampleVehicles()| ==> VehicleRequiredPresent(SampleVehicles()[k].fields)
    ensures forall k :: 0 <= k < |SampleParts()| ==> PartRequiredPresent(SampleParts()[k])
    ensures forall k :: 0 <= k < |SampleMaintenance()| ==> MaintenanceRequiredPresent(SampleMaintenance()[k])
  {
  }

  /** The sample vehicles carry four different plates, the sample parts
      five different codes. */
  lemma SampleKeysDistinct()
    ensures PlatesDistinct(SampleVehicles())
    ensures CodesDistinct(SampleParts())
  {
  }

  /** The seeded vehicles table is what the sample vehicles bind, numbered from 1. */
  lemma SeededVehiclesBindSamples(v: Vehicle, k: nat)
    requires k < |SampleVehicles()|
    requires v.id == k + 1 && BindsVehicleSample(v, SampleVehicles()[k])
    ensures |SeededVehicles()| == |SampleVehicles()| && v == SeededVehicles()[k]
  {
  }

  /** The seeded parts table is what the sample parts bind, numbered from 1. */
  lemma SeededPartsBindSamples(samples: seq<PartFields>)
    requires samples == SampleParts()
    ensures |SeededParts()| == |samples|
    ensures forall k :: 0 <= k < |SeededParts()| ==>
              SeededParts()[k].id == k + 1 && PartBinds(SeededParts()[k], samples[k])
  {
  }

  /** Four vehicles numbered from 1 that bind the samples in order are the
      seeded vehicles table. */
  lemma SeededVehiclesLoaded(vs: seq<Vehicle>)
    requires VehiclesBind(vs, 0, SampleVehicles())
    ensures vs == SeededVehicles()
  {
    forall k | 0 <= k < |vs| ensures vs[k] == SeededVehicles()[k] {
      SeededVehiclesBindSamples(vs[k], k);
    }
  }

  /** Two work orders numbered from 1 that bind the samples in order are the
      seeded maintenance table. */
  lemma SeededMaintenanceLoaded(ms: seq<Maintenance>)
    requires |ms| == |SampleMaintenance()|
    requires forall k :: 0 <= k < |ms| ==> ms[k].id == k + 1 && MaintenanceBinds(ms[k], SampleMaintenance()[k])
    ensures ms == SeededMaintenance()
  {
    forall k | 0 <= k < |ms| ensures ms[k] == SeededMaintenance()[k] {
      SeededMaintenanceBindsSamples(ms[k], k);
    }
  }

  /** The seeded maintenance table is what the sample work orders bind, numbered from 1. */
  lemma SeededMaintenanceBindsSamples(m: Maintenance, k: nat)
    requires k < |SampleMaintenance()|
    requires m.id == k + 1 && MaintenanceBinds(m, SampleMaintenance()[k])
    ensures |SeededMaintenance()| == |SampleMaintenance()| && m == SeededMaintenance()[k]
  {
  }

  /** The seeded tables' sizes, which are also the AUTOINCREMENT counters of
      a freshly seeded store: the next vehicle, part and work order get ids 5,
      6 and 3. */
  lemma SeededSizes()
    ensures |SeededVehicles()| == |SampleVehicles()| == 4
    ensures |SeededParts()| == |SampleParts()| == 5
    ensures |SeededMaintenance()| == |SampleMaintenance()| == 2
  {
  }

  /** Of the two seeded work orders only the brake repair is in progress. */
  lemma SeededActiveMaintenance()
    ensures ActiveMaintenance(SeededMaintenance()) == 1
  {
    var ms := SeededMaintenance();
    assert ms[1..][1..] == [];
  }

  /** Of the five seeded parts only the brake pads (8 against 15) are pending. */
  lemma SeededPendingParts()
    ensures PendingParts(SeededParts()) == 1
  {
    var ps := SeededParts();
    assert ps[3..][1..] == ps[4..];
    assert ps[4..][1..] == [];
    assert Count(ps[3..], Pending) == 0;
    assert ps[2..][1..] == ps[3..];
    assert ps[1..][1..] == ps[2..];
  }

  /** Both seeded work orders start in August 2024. */
  lemma SeededMonthlyCost()
    ensures MonthlyCost(SeededMaintenance(), "2024-08-01") == 130000
  {
    var ms := SeededMaintenance();
    assert ms[1..][1..] == [];
    assert "2024-08-01" == "2024-08-" + "01" && ms[0].startDate == "2024-08-" + "20" && ms[1].startDate == "2024-08-" + "19";
    TextLeCommonPrefix("2024-08-", "01", "20");
    TextLeCommonPrefix("2024-08-", "01", "19");
  }

  /** The dashboard of a freshly seeded store for August 2024: four vehicles,
      one work order in progress, one part at or below its threshold (the
      brake pads, 8 against 15), and both work orders' costs. */
  lemma SeededDashboard()
    ensures |SeededVehicles()| == 4
    ensures ActiveMaintenance(SeededMaintenance()) == 1
    ensures PendingParts(SeededParts()) == 1
    ensures MonthlyCost(SeededMaintenance(), "2024-08-01") == 130000
  {
    SeededActiveMaintenance();
    SeededPendingParts();
    SeededMonthlyCost();
  }
}
