/**
 * The four aggregates of `getDashboardStats`, and the low-stock rule
 * `stock <= min_stock` on two non-null numbers that the `pendingParts`
 * count applies.
 *
 * SQL comparisons with NULL are not true, so a part whose `stock` or
 * `min_stock` is null is never pending, and a maintenance row with a null
 * status is never in progress.  `SUM(cost)` skips null costs and is NULL
 * when nothing is summed, which the caller turns into 0.
 */
module Stats {
  import opened Sql
  import opened Schema

  /** The low-stock rule: stock at or below the reorder threshold. */
  predicate LowStock(stock: int, minStock: int)
  {
    stock <= minStock
  }

  /** `WHERE stock <= min_stock` on one row. */
  predicate Pending(p: Part)
    ensures Pending(p) ==> p.stock.Some? && p.minStock.Some?
  {
    p.stock.Some? && p.minStock.Some? && LowStock(p.stock.value, p.minStock.value)
  }

  /** `WHERE status = 'En Proceso'` on one row. */
  predicate InProgress(m: Maintenance)
    ensures InProgress(m) ==> m.status.Some?
  {
    m.status == Some("En Proceso")
  }

  /** `WHERE start_date >= monthStart` on one row; there is no upper bound. */
  predicate StartsFrom(m: Maintenance, monthStart: string)
    ensures m.startDate == monthStart ==> StartsFrom(m, monthStart)
  {
    TextLeReflexive(monthStart);
    TextLe(monthStart, m.startDate)
  }

  /** `COUNT(*)` of the rows of `s` that satisfy `p`. */
  function Count<T>(s: seq<T>, p: T -> bool): (r: nat)
    ensures r <= |s|
    ensures r == 0 <==> forall i :: 0 <= i < |s| ==> !p(s[i])
  {
    if s == [] then 0 else (if p(s[0]) then 1 else 0) + Count(s[1..], p)
  }

  /** COUNT distributes over a table split in two. */
  lemma {:induction false} CountAppend<T>(s: seq<T>, t: seq<T>, p: T -> bool)
    ensures Count(s + t, p) == Count(s, p) + Count(t, p)
  {
    if s == [] {
      assert s + t == t;
    } else {
      assert (s + t)[0] == s[0];
      assert (s + t)[1..] == s[1..] + t;
      CountAppend(s[1..], t, p);
    }
  }

  /** The set of distinct rows of `s` that satisfy `p`. */
  ghost function RowsWhere<T>(s: seq<T>, p: T -> bool): set<T>
  {
    set x | x in s && p(x)
  }

  /** Over rows that are pairwise distinct, COUNT is the number of distinct
      rows satisfying the predicate. */
  lemma {:induction false} CountIsCardinality<T>(s: seq<T>, p: T -> bool)
    requires forall i, j :: 0 <= i < j < |s| ==> s[i] != s[j]
    ensures Count(s, p) == |RowsWhere(s, p)|
  {
    if s != [] {
      CountIsCardinality(s[1..], p);
      var tail := RowsWhere(s[1..], p);
      var all := RowsWhere(s, p);
      assert s[0] !in s[1..] by {
        forall k | 0 <= k < |s[1..]| ensures s[1..][k] != s[0] {
          assert s[1..][k] == s[k + 1];
        }
      }
      assert s == [s[0]] + s[1..];
      if p(s[0]) {
        assert all == tail + {s[0]};
      } else {
        assert all == tail;
      }
    }
  }

  /** `SELECT COUNT(*) FROM maintenance WHERE status = 'En Proceso'`. */
  function ActiveMaintenance(ms: seq<Maintenance>): (r: nat)
    ensures r <= |ms|
    ensures r == 0 <==> forall i :: 0 <= i < |ms| ==> !InProgress(ms[i])
  {
    Count(ms, InProgress)
  }

  /** `SELECT COUNT(*) FROM parts WHERE stock <= min_stock`. */
  function PendingParts(ps: seq<Part>): (r: nat)
    ensures r <= |ps|
    ensures r == 0 <==> forall i :: 0 <= i < |ps| ==> !Pending(ps[i])
  {
    Count(ps, Pending)
  }

  /** `SELECT SUM(cost) FROM maintenance WHERE start_date >= monthStart`, with
      a NULL sum read as 0. */
  function MonthlyCost(ms: seq<Maintenance>, monthStart: string): (r: int)
    ensures (forall i :: 0 <= i < |ms| && ms[i].cost.Some? ==> ms[i].cost.value >= 0) ==> r >= 0
  {
    if ms == [] then 0
    else
      (if StartsFrom(ms[0], monthStart) && ms[0].cost.Some? then ms[0].cost.value else 0)
      + MonthlyCost(ms[1..], monthStart)
  }

  /** Both counts are the number of distinct table rows that match: rows of a
      table with AUTOINCREMENT keys are never counted twice. */
  lemma CountsAreRowCounts(ms: seq<Maintenance>, ps: seq<Part>, lastM: int, lastP: int)
    requires MaintenanceKeys(ms, lastM) && PartKeys(ps, lastP)
    ensures ActiveMaintenance(ms) == |RowsWhere(ms, InProgress)|
    ensures PendingParts(ps) == |RowsWhere(ps, Pending)|
  {
    assert forall i, j :: 0 <= i < j < |ms| ==> ms[i].id != ms[j].id;
    assert forall i, j :: 0 <= i < j < |ps| ==> ps[i].id != ps[j].id;
    CountIsCardinality(ms, InProgress);
    CountIsCardinality(ps, Pending);
  }

  /** Appending a maintenance row moves the in-progress count by one exactly
      when its status is 'En Proceso', and the monthly cost by its cost exactly
      when it starts on or after the month start. */
  lemma {:induction false} AppendMaintenanceStats(ms: seq<Maintenance>, m: Maintenance, monthStart: string)
    ensures ActiveMaintenance(ms + [m]) == ActiveMaintenance(ms) + (if InProgress(m) then 1 else 0)
    ensures MonthlyCost(ms + [m], monthStart)
            == MonthlyCost(ms, monthStart) + (if StartsFrom(m, monthStart) && m.cost.Some? then m.cost.value else 0)
  {
    CountAppend(ms, [m], InProgress);
    MonthlyCostAppend(ms, [m], monthStart);
  }

  lemma {:induction false} MonthlyCostAppend(ms: seq<Maintenance>, more: seq<Maintenance>, monthStart: string)
    ensures MonthlyCost(ms + more, monthStart) == MonthlyCost(ms, monthStart) + MonthlyCost(more, monthStart)
  {
    if ms != [] {
      assert (ms + more)[1..] == ms[1..] + more;
      MonthlyCostAppend(ms[1..], more, monthStart);
    } else {
      assert ms + more == more;
    }
  }

  /** With no negative costs, an earlier month start never yields a smaller
      total: every row counted from the later start is counted from the earlier. */
  lemma {:induction false} MonthlyCostAntitone(ms: seq<Maintenance>, earlier: string, later: string)
    requires TextLe(earlier, later)
    requires forall m :: m in ms && m.cost.Some? ==> m.cost.value >= 0
    ensures MonthlyCost(ms, later) <= MonthlyCost(ms, earlier)
  {
    if ms != [] {
      if StartsFrom(ms[0], later) {
        TextLeTransitive(earlier, later, ms[0].startDate);
      }
      assert forall m :: m in ms[1..] ==> m in ms;
      MonthlyCostAntitone(ms[1..], earlier, later);
    }
  }

  /** The stats record `getDashboardStats` resolves with. */
  datatype DashboardStats = DashboardStats(
    totalVehicles: nat,
    activeMaintenance: nat,
    pendingParts: nat,
    monthlyCost: int)
}
