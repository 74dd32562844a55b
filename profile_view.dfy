/**
 * The profile page: the role label, the administrator's figures over the
 * reports assigned to them with the resolution rate, and the citizen's guide
 * to earning points.
 */
module ProfileView {
  import opened Types
  import opened Query
  import opened Access
  import opened Store
  import opened ReportsView
  import ReportForm
  import Education
  import Dashboard

  datatype AdminStats = AdminStats(totalAssigned: nat, resolved: nat, inProgress: nat)

  const InitialAdminStats: AdminStats := AdminStats(0, 0, 0)

  function AssignedToAdmin(adminId: Id): Report -> bool
  {
    (r: Report) => r.assignedTo == Some(adminId)
  }

  /** `reports ... .eq('assigned_to', profile.id)`: exactly the reports assigned to that administrator. */
  function Assigned(t: Tables, adminId: Id): (r: seq<Report>)
    ensures forall x :: x in r <==> x in t.reports && x.assignedTo == Some(adminId)
    ensures IsSubsequence(r, t.reports)
  {
    Filter(t.reports, AssignedToAdmin(adminId))
  }

  /**
   * The three figures, as `assigned.length` and two `filter(...).length` counts:
   * the number of assigned reports and how many of them are resuelto and
   * en_proceso, the same counts the dashboard's loop takes.
   */
  function ComputeAdminStats(assignedReports: seq<Report>): (s: AdminStats)
    ensures s.totalAssigned == |assignedReports|
    ensures s.resolved == Dashboard.CountStatus(assignedReports, Resuelto)
    ensures s.inProgress == Dashboard.CountStatus(assignedReports, EnProceso)
    ensures s.resolved <= s.totalAssigned && s.inProgress <= s.totalAssigned
  {
    Dashboard.CountStatusIsFilterLength(assignedReports, Resuelto);
    Dashboard.CountStatusIsFilterLength(assignedReports, EnProceso);
    AdminStats(|assignedReports|, |Filter(assignedReports, HasStatus(Resuelto))|, |Filter(assignedReports, HasStatus(EnProceso))|)
  }

  /** No report is both resolved and in progress, so the two figures never exceed the total together. */
  lemma ResolvedAndInProgressWithinTotal(assignedReports: seq<Report>)
    ensures var s := ComputeAdminStats(assignedReports);
      s.resolved + s.inProgress <= s.totalAssigned
  {
    FilterDisjointLength(assignedReports, HasStatus(Resuelto), HasStatus(EnProceso));
  }

  /**
   * `totalAssigned > 0 ? Math.round(resolved / totalAssigned * 100) : 0` over the
   * integers: rounding half up of 100·resolved/total is (200·resolved + total) div (2·total).
   */
  function ResolutionRate(s: AdminStats): int
  {
    if s.totalAssigned > 0 then (200 * s.resolved + s.totalAssigned) / (2 * s.totalAssigned) else 0
  }

  /** The rate is the whole percentage nearest to resolved/total, a half rounded up. */
  lemma RateIsNearestPercent(s: AdminStats)
    requires s.totalAssigned > 0
    ensures var rate := ResolutionRate(s);
      2 * s.totalAssigned * rate - s.totalAssigned <= 200 * s.resolved < 2 * s.totalAssigned * rate + s.totalAssigned
  {
    var d := 2 * s.totalAssigned;
    var n := 200 * s.resolved + s.totalAssigned;
    var rate := n / d;
    assert n == d * rate + n % d;
    assert 0 <= n % d < d;
  }

  /** A multiple of a positive number that lies strictly between its negation and itself is zero. */
  lemma MultipleInsideIsZero(d: int, k: int)
    requires d > 0 && -d < d * k < d
    ensures k == 0
  {
  }

  /** Euclidean division by a positive divisor is determined by any quotient and remainder that fit. */
  lemma DivisionUnique(n: int, d: int, q: int, m: int)
    requires d > 0 && 0 <= m < d && n == d * q + m
    ensures n / d == q
  {
    var k := n / d - q;
    assert d * k == n % d - m by {
      assert n == d * (n / d) + n % d;
      assert d * (n / d) == d * q + d * k;
    }
    MultipleInsideIsZero(d, k);
  }

  lemma DivisionBelow(n: int, d: int, q: int)
    requires d > 0 && 0 <= n < d * q
    ensures 0 <= n / d < q
  {
    assert n == d * (n / d) + n % d;
  }

  /**
   * Whenever no more reports are resolved than assigned, the rate is a
   * percentage; it is 0 with nothing assigned or nothing resolved, and 100 when
   * every assigned report is resolved.
   */
  lemma RateBounds(s: AdminStats)
    requires s.resolved <= s.totalAssigned
    ensures 0 <= ResolutionRate(s) <= 100
    ensures s.totalAssigned == 0 ==> ResolutionRate(s) == 0
    ensures s.totalAssigned > 0 && s.resolved == s.totalAssigned ==> ResolutionRate(s) == 100
    ensures s.resolved == 0 ==> ResolutionRate(s) == 0
  {
    var t := s.totalAssigned;
    if t > 0 {
      var n := 200 * s.resolved + t;
      DivisionBelow(n, 2 * t, 101);
      if s.resolved == t {
        DivisionUnique(n, 2 * t, 100, t);
      }
      if s.resolved == 0 {
        DivisionUnique(n, 2 * t, 0, t);
      }
    }
  }

  // ---------------------------------------------------------------------
  // Labels and the earning guide
  // ---------------------------------------------------------------------

  function RoleName(role: Role): (r: string)
    ensures r != ""
  {
    match role
    case Citizen => "Ciudadano"
    case MunicipalAdmin => "Administrador Municipal"
    case SuperAdmin => "Super Administrador"
  }

  /** `ROLE_LABELS[profile?.role || 'citizen']`: without a profile the citizen label is shown. */
  function RoleLabel(profile: Option<Profile>): (r: string)
    ensures profile.None? ==> r == RoleName(Citizen)
    ensures profile.Some? ==> r == RoleName(profile.value.role)
  {
    RoleName(if profile.None? then Citizen else profile.value.role)
  }

  /** Each role has its own label, so the label shown identifies the role. */
  lemma RoleNamesDistinct(a: Role, b: Role)
    requires a != b
    ensures RoleName(a) != RoleName(b)
  {
  }

  /** The points the guide advertises for each way of earning. */
  function AdvertisedPoints(kind: ActivityType): (r: int)
    ensures r > 0
  {
    match kind
    case ReporteValido => 10
    case Educacion => 5
    case Reciclaje => 15
    case Compartir => 3
  }

  /** The guide's +10 and +5 are the amounts report creation and a first view actually record. */
  lemma GuideMatchesCredits()
    ensures AdvertisedPoints(ReporteValido) == ReportForm.ReportPoints
    ensures AdvertisedPoints(Educacion) == Education.ViewPoints
  {
  }

  /** The guide is on the citizen branch of the page. */
  predicate ShowsEarningGuide(profile: Option<Profile>): (r: bool)
    ensures r <==> profile.None? || profile.value.role == Citizen
  {
    !IsAdmin(profile)
  }

  // ---------------------------------------------------------------------
  // The component
  // ---------------------------------------------------------------------

  class Page {
    var adminStats: AdminStats

    constructor ()
      ensures adminStats == InitialAdminStats
    {
      adminStats := InitialAdminStats;
    }

    /** fetchAdminStats; `ok` says whether the query returned data. */
    method FetchAdminStats(db: Backend, adminId: Id, ok: bool)
      modifies this
      ensures adminStats == if ok then ComputeAdminStats(Assigned(db.State(), adminId)) else old(adminStats)
    {
      if ok {
        var assignedReports := Filter(db.reports, AssignedToAdmin(adminId));
        adminStats := ComputeAdminStats(assignedReports);
      }
    }

    /** The effect on mount: the figures are fetched for an administrator only. */
    method OnMount(db: Backend, profile: Option<Profile>, ok: bool)
      modifies this
      ensures !IsAdmin(profile) || !ok ==> adminStats == old(adminStats)
      ensures IsAdmin(profile) && ok ==> adminStats == ComputeAdminStats(Assigned(db.State(), profile.value.id))
    {
      if IsAdmin(profile) {
        FetchAdminStats(db, profile.value.id, ok);
      }
    }
  }
}
