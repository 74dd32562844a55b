/**
 * The administrators' dashboard: fetchStats counts the reports per status and
 * per category in one pass, lists the ten latest reports and counts the
 * users; the category bars show each count as a share of the total.
 */
module Dashboard {
  import opened Types
  import opened Query
  import opened Access
  import opened Store
  import opened ReportsView

  const RecentLimit: nat := 10

  datatype Stats = Stats(
    total: nat,
    pendiente: nat,
    enProceso: nat,
    resuelto: nat,
    rechazado: nat,
    categorias: map<Category, nat>,
    ultimosReportes: seq<Report>,
    totalUsuarios: nat)

  /** The state the dashboard starts with. */
  const InitialStats: Stats := Stats(0, 0, 0, 0, 0, map[], [], 0)

  // ---------------------------------------------------------------------
  // Counting, as definitions
  // ---------------------------------------------------------------------

  function CountStatus(reports: seq<Report>, status: Status): (r: nat)
    ensures r <= |reports|
  {
    if reports == [] then 0
    else CountStatus(reports[..|reports| - 1], status) + (if reports[|reports| - 1].status == status then 1 else 0)
  }

  function CountCategory(reports: seq<Report>, category: Category): (r: nat)
    ensures r <= |reports|
  {
    if reports == [] then 0
    else CountCategory(reports[..|reports| - 1], category) + (if reports[|reports| - 1].category == category then 1 else 0)
  }

  /** Every report has exactly one of the four statuses, so the status counts add up to the total. */
  lemma {:induction false} StatusCountsSumToTotal(reports: seq<Report>)
    ensures CountStatus(reports, Pendiente) + CountStatus(reports, EnProceso)
          + CountStatus(reports, Resuelto) + CountStatus(reports, Rechazado) == |reports|
  {
    if reports != [] {
      StatusCountsSumToTotal(reports[..|reports| - 1]);
    }
  }

  lemma {:induction false} CategoryCountsSumToTotal(reports: seq<Report>)
    ensures CountCategory(reports, Basura) + CountCategory(reports, Contaminacion)
          + CountCategory(reports, TalaIlegal) + CountCategory(reports, MalUsoEspacios) == |reports|
  {
    if reports != [] {
      CategoryCountsSumToTotal(reports[..|reports| - 1]);
    }
  }

  /** The loop's count of a status is the length of the list filtered by that status. */
  lemma {:induction false} CountStatusIsFilterLength(reports: seq<Report>, status: Status)
    ensures CountStatus(reports, status) == |Filter(reports, HasStatus(status))|
  {
    if reports != [] {
      var init := reports[..|reports| - 1];
      assert init + [reports[|reports| - 1]] == reports;
      FilterAppend(init, reports[|reports| - 1], HasStatus(status));
      CountStatusIsFilterLength(init, status);
    }
  }

  /** The loop's count of a category is the length of the list filtered by that category. */
  lemma {:induction false} CountCategoryIsFilterLength(reports: seq<Report>, category: Category)
    ensures CountCategory(reports, category) == |Filter(reports, HasCategory(category))|
  {
    if reports != [] {
      var init := reports[..|reports| - 1];
      assert init + [reports[|reports| - 1]] == reports;
      FilterAppend(init, reports[|reports| - 1], HasCategory(category));
      CountCategoryIsFilterLength(init, category);
    }
  }

  /** A category's count, read from the dictionary; an absent key counts as 0. */
  function CountIn(categorias: map<Category, nat>, category: Category): nat
  {
    if category in categorias then categorias[category] else 0
  }

  /** The total the category bars represent together. */
  function CategorySum(categorias: map<Category, nat>): nat
  {
    CountIn(categorias, Basura) + CountIn(categorias, Contaminacion)
      + CountIn(categorias, TalaIlegal) + CountIn(categorias, MalUsoEspacios)
  }

  /**
   * `categorias` after the loop: a key for each category that occurs, holding
   * its number of reports, and no other key.
   */
  ghost predicate CategoriesOf(reports: seq<Report>, categorias: map<Category, nat>)
  {
    && (forall c :: c in categorias <==> CountCategory(reports, c) > 0)
    && (forall c :: c in categorias ==> categorias[c] == CountCategory(reports, c))
  }

  /** The stats fetchStats writes from a list of reports. */
  ghost predicate Tallied(reports: seq<Report>, s: Stats)
  {
    && s.total == |reports|
    && s.pendiente == CountStatus(reports, Pendiente)
    && s.enProceso == CountStatus(reports, EnProceso)
    && s.resuelto == CountStatus(reports, Resuelto)
    && s.rechazado == CountStatus(reports, Rechazado)
    && CategoriesOf(reports, s.categorias)
  }

  /**
   * In tallied stats the four status figures add up to the total, and so do the
   * category bars; every bar stands for at least one and at most all reports,
   * and with no reports there is no bar at all.
   */
  lemma TalliedConsistent(reports: seq<Report>, s: Stats)
    requires Tallied(reports, s)
    ensures s.pendiente + s.enProceso + s.resuelto + s.rechazado == s.total
    ensures CategorySum(s.categorias) == s.total
    ensures forall c :: c in s.categorias ==> 1 <= s.categorias[c] <= s.total
    ensures s.total == 0 ==> s.categorias == map[]
  {
    StatusCountsSumToTotal(reports);
    CategoryCountsSumToTotal(reports);
    assert CountIn(s.categorias, Basura) == CountCategory(reports, Basura);
    assert CountIn(s.categorias, Contaminacion) == CountCategory(reports, Contaminacion);
    assert CountIn(s.categorias, TalaIlegal) == CountCategory(reports, TalaIlegal);
    assert CountIn(s.categorias, MalUsoEspacios) == CountCategory(reports, MalUsoEspacios);
    if s.total == 0 {
      assert forall c :: c !in s.categorias;
    }
  }

  // ---------------------------------------------------------------------
  // The loop
  // ---------------------------------------------------------------------

  /** The `forEach` over the reports: the dictionary update and the four-way switch on the status. */
  method Tally(reports: seq<Report>)
    returns (pendiente: nat, enProceso: nat, resuelto: nat, rechazado: nat, categorias: map<Category, nat>)
    ensures pendiente == CountStatus(reports, Pendiente)
    ensures enProceso == CountStatus(reports, EnProceso)
    ensures resuelto == CountStatus(reports, Resuelto)
    ensures rechazado == CountStatus(reports, Rechazado)
    ensures CategoriesOf(reports, categorias)
  {
    pendiente, enProceso, resuelto, rechazado := 0, 0, 0, 0;
    categorias := map[];
    for i := 0 to |reports|
      invariant pendiente == CountStatus(reports[..i], Pendiente)
      invariant enProceso == CountStatus(reports[..i], EnProceso)
      invariant resuelto == CountStatus(reports[..i], Resuelto)
      invariant rechazado == CountStatus(reports[..i], Rechazado)
      invariant CategoriesOf(reports[..i], categorias)
    {
      var report := reports[i];
      assert reports[..i + 1][..i] == reports[..i];
      categorias := categorias[report.category := (if report.category in categorias then categorias[report.category] else 0) + 1];
      match report.status
      case Pendiente => pendiente := pendiente + 1;
      case EnProceso => enProceso := enProceso + 1;
      case Resuelto => resuelto := resuelto + 1;
      case Rechazado => rechazado := rechazado + 1;
    }
    assert reports[..|reports|] == reports;
  }

  // ---------------------------------------------------------------------
  // The other two queries and the bars
  // ---------------------------------------------------------------------

  /** `reports ... .order('created_at', { ascending: false }).limit(10)` */
  function RecentReports(t: Tables): (r: seq<Report>)
    ensures |r| == if |t.reports| <= RecentLimit then |t.reports| else RecentLimit
    ensures SortedDesc(r, ReportCreatedAt)
    ensures forall x :: x in r ==> x in t.reports
    ensures multiset(r) <= multiset(t.reports)
  {
    var all := ReportsNewestFirst(t);
    var r := Limit(all, RecentLimit);
    SortedDescPrefix(all, ReportCreatedAt, |r|);
    assert forall x :: x in r ==> x in all by {
      forall x | x in r ensures x in all {
        var i :| 0 <= i < |r| && r[i] == x;
        assert all[i] == x;
      }
    }
    r
  }

  /** A report left out of the latest ten is no newer than any report listed. */
  lemma RecentReportsAreNewest(t: Tables, x: Report, y: Report)
    requires x in t.reports && x !in RecentReports(t) && y in RecentReports(t)
    ensures x.createdAt <= y.createdAt
  {
    LimitKeepsLargest(ReportsNewestFirst(t), ReportCreatedAt, RecentLimit, x, y);
  }

  /** `(cantidad / stats.total) * 100`, the width of a category bar in percent. */
  function BarPercent(cantidad: nat, total: nat): (r: real)
    requires total > 0
    ensures r * total as real == 100.0 * cantidad as real
  {
    (cantidad as real / total as real) * 100.0
  }

  /** A rendered bar is wider than 0 and at most full, and full exactly for the category of every report. */
  lemma BarWithinBounds(cantidad: nat, total: nat)
    requires 1 <= cantidad <= total
    ensures 0.0 < BarPercent(cantidad, total) <= 100.0
    ensures BarPercent(cantidad, total) == 100.0 <==> cantidad == total
  {
    var r := BarPercent(cantidad, total);
    var T := total as real;
    assert r * T == 100.0 * cantidad as real;
    assert r * T <= 100.0 * T;
    assert 0.0 < r * T;
    if r == 100.0 {
      assert 100.0 * T == 100.0 * cantidad as real;
    }
  }

  // ---------------------------------------------------------------------
  // The component
  // ---------------------------------------------------------------------

  datatype Screen = Restricted | Loading | Panel

  /** What the component renders: the restricted notice for non-administrators, then the spinner, then the panel. */
  function ScreenOf(profile: Option<Profile>, loading: bool): (r: Screen)
    ensures r == Restricted <==> !IsAdmin(profile)
    ensures r == Panel ==> IsAdmin(profile) && !loading
  {
    if !IsAdmin(profile) then Restricted else if loading then Loading else Panel
  }

  class View {
    var stats: Stats
    var loading: bool

    constructor ()
      ensures stats == InitialStats && loading
    {
      stats := InitialStats;
      loading := true;
    }

    /**
     * fetchStats. `reportsOk`, `usersOk` and `latestOk` say whether each of the
     * three queries returned data. Without the reports, the stats are left as
     * they were; otherwise they are replaced as a whole.
     */
    method FetchStats(db: Backend, reportsOk: bool, usersOk: bool, latestOk: bool)
      modifies this
      ensures !loading
      ensures !reportsOk ==> stats == old(stats)
      ensures reportsOk ==>
        && Tallied(db.reports, stats)
        && stats.ultimosReportes == (if latestOk then RecentReports(db.State()) else [])
        && stats.totalUsuarios == (if usersOk then |db.profiles| else 0)
    {
      loading := true;
      var users := if usersOk then |db.profiles| else 0;
      var latest := if latestOk then Limit(SortDesc(db.reports, ReportCreatedAt), RecentLimit) else [];
      if reportsOk {
        var pendiente, enProceso, resuelto, rechazado, categorias := Tally(db.reports);
        stats := Stats(|db.reports|, pendiente, enProceso, resuelto, rechazado, categorias, latest, users);
      }
      loading := false;
    }

    /** The effect on mount: only an administrator's dashboard fetches anything. */
    method OnMount(db: Backend, profile: Option<Profile>, reportsOk: bool, usersOk: bool, latestOk: bool)
      modifies this
      ensures !IsAdmin(profile) ==> stats == old(stats) && loading == old(loading)
      ensures IsAdmin(profile) ==> !loading
      ensures IsAdmin(profile) && reportsOk ==> Tallied(db.reports, stats)
    {
      if IsAdmin(profile) {
        FetchStats(db, reportsOk, usersOk, latestOk);
      }
    }
  }
}
