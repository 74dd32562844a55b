/**
 * The report list: all reports newest first, narrowed by the status and
 * category selectors.
 */
module ReportsView {
  import opened Types
  import opened Query
  import opened Store

  function ReportCreatedAt(r: Report): int { r.createdAt }

  /** `reports ... .order('created_at', { ascending: false })` */
  function ReportsNewestFirst(t: Tables): (r: seq<Report>)
    ensures SortedDesc(r, ReportCreatedAt)
    ensures multiset(r) == multiset(t.reports)
  {
    SortDesc(t.reports, ReportCreatedAt)
  }

  function HasStatus(status: Status): Report -> bool
  {
    (r: Report) => r.status == status
  }

  function HasCategory(category: Category): Report -> bool
  {
    (r: Report) => r.category == category
  }

  /** A report passes a selector when the selector is 'all' or names the report's value. */
  predicate PassesStatus(filter: Choice<Status>, r: Report)
  {
    filter.All? || r.status == filter.value
  }

  predicate PassesCategory(filter: Choice<Category>, r: Report)
  {
    filter.All? || r.category == filter.value
  }

  /** Both selectors as one row test: the independent reading of the two filter steps. */
  function Matches(statusFilter: Choice<Status>, categoryFilter: Choice<Category>): Report -> bool
  {
    (r: Report) => PassesStatus(statusFilter, r) && PassesCategory(categoryFilter, r)
  }

  /**
   * applyFilters: a copy of the list, narrowed by the status selector, then by
   * the category selector, each step skipped for 'all'.
   */
  function ApplyFilters(reports: seq<Report>, statusFilter: Choice<Status>, categoryFilter: Choice<Category>)
    : (r: seq<Report>)
    ensures IsSubsequence(r, reports)
    ensures statusFilter.All? && categoryFilter.All? ==> r == reports
    ensures statusFilter.Only? ==> forall i :: 0 <= i < |r| ==> r[i].status == statusFilter.value
    ensures categoryFilter.Only? ==> forall i :: 0 <= i < |r| ==> r[i].category == categoryFilter.value
    ensures forall x :: x in r <==> x in reports && PassesStatus(statusFilter, x) && PassesCategory(categoryFilter, x)
  {
    SubsequenceReflexive(reports);
    var byStatus := if statusFilter.Only? then Filter(reports, HasStatus(statusFilter.value)) else reports;
    SubsequenceReflexive(byStatus);
    var byCategory := if categoryFilter.Only? then Filter(byStatus, HasCategory(categoryFilter.value)) else byStatus;
    SubsequenceTransitive(byCategory, byStatus, reports);
    byCategory
  }

  /** The two filter steps select exactly what one filter by both selectors selects, in the same order. */
  lemma {:induction false} ApplyFiltersIsOneFilter(reports: seq<Report>, statusFilter: Choice<Status>,
                                                   categoryFilter: Choice<Category>)
    ensures ApplyFilters(reports, statusFilter, categoryFilter) == Filter(reports, Matches(statusFilter, categoryFilter))
    decreases |reports|
  {
    if reports != [] {
      ApplyFiltersIsOneFilter(reports[1..], statusFilter, categoryFilter);
    }
  }

  /** Filtering a filtered list again with the same selectors changes nothing. */
  lemma ApplyFiltersIdempotent(reports: seq<Report>, statusFilter: Choice<Status>, categoryFilter: Choice<Category>)
    ensures var once := ApplyFilters(reports, statusFilter, categoryFilter);
      ApplyFilters(once, statusFilter, categoryFilter) == once
  {
    var once := ApplyFilters(reports, statusFilter, categoryFilter);
    ApplyFiltersIsOneFilter(once, statusFilter, categoryFilter);
    assert forall i :: 0 <= i < |once| ==> Matches(statusFilter, categoryFilter)(once[i]) by {
      forall i | 0 <= i < |once| ensures Matches(statusFilter, categoryFilter)(once[i]) {
        assert once[i] in once;
      }
    }
    FilterAllPass(once, Matches(statusFilter, categoryFilter));
  }

  /** Filtering the newest-first list keeps it newest first. */
  lemma FilteredStaysNewestFirst(t: Tables, statusFilter: Choice<Status>, categoryFilter: Choice<Category>)
    ensures SortedDesc(ApplyFilters(ReportsNewestFirst(t), statusFilter, categoryFilter), ReportCreatedAt)
  {
    var all := ReportsNewestFirst(t);
    ApplyFiltersIsOneFilter(all, statusFilter, categoryFilter);
    FilterKeepsSortedDesc(all, Matches(statusFilter, categoryFilter), ReportCreatedAt);
  }
}
