/**
 * The report detail panel: who sees the update form and the status selector,
 * the audit trail listing, and handleAddUpdate, which writes the report row
 * (on an administrator's status change) before inserting the audit row.
 */
module ReportDetail {
  import opened Types
  import opened Query
  import opened Access
  import opened Store

  // ---------------------------------------------------------------------
  // String.prototype.trim
  // ---------------------------------------------------------------------

  /** The ECMAScript WhiteSpace and LineTerminator code points, which `trim` removes. */
  predicate IsWhitespace(c: char)
  {
    || c == '\t' || c == '\n' || c == '\U{000B}' || c == '\U{000C}' || c == '\r' || c == ' '
    || c == '\U{00A0}' || c == '\U{1680}' || ('\U{2000}' <= c <= '\U{200A}')
    || c == '\U{2028}' || c == '\U{2029}' || c == '\U{202F}' || c == '\U{205F}'
    || c == '\U{3000}' || c == '\U{FEFF}'
  }

  ghost predicate AllWhitespace(s: string)
  {
    forall i :: 0 <= i < |s| ==> IsWhitespace(s[i])
  }

  /** Drops the leading whitespace: a suffix of `s` that is empty or starts with a non-blank. */
  function TrimStart(s: string): (r: string)
    ensures |r| <= |s| && r == s[|s| - |r|..]
    ensures r != [] ==> !IsWhitespace(r[0])
    ensures AllWhitespace(s[..|s| - |r|])
  {
    if s != [] && IsWhitespace(s[0]) then
      var r := TrimStart(s[1..]);
      assert s[1..][..|s[1..]| - |r|] == s[1..|s| - |r|];
      r
    else s
  }

  /** Drops the trailing whitespace: a prefix of `s` that is empty or ends with a non-blank. */
  function TrimEnd(s: string): (r: string)
    ensures |r| <= |s| && r == s[..|r|]
    ensures r != [] ==> !IsWhitespace(r[|r| - 1])
    ensures AllWhitespace(s[|r|..])
  {
    if s != [] && IsWhitespace(s[|s| - 1]) then
      var r := TrimEnd(s[..|s| - 1]);
      assert s[..|s| - 1][|r|..] == s[|r|..|s| - 1];
      r
    else s
  }

  function Trim(s: string): string
  {
    TrimEnd(TrimStart(s))
  }

  /** `!s.trim()` holds exactly for the strings made only of whitespace, the empty one included. */
  lemma TrimEmptyIffBlank(s: string)
    ensures Trim(s) == "" <==> AllWhitespace(s)
  {
    var a := TrimStart(s);
    if Trim(s) == "" {
      assert a[0..] == a;
      assert s[..|s|] == s;
    }
  }

  // ---------------------------------------------------------------------
  // Visibility
  // ---------------------------------------------------------------------

  /** `(isAdmin || isOwner)`: the update form is shown. */
  predicate ShowUpdateForm(profile: Option<Profile>, report: Report)
  {
    IsAdmin(profile) || IsOwner(profile, report)
  }

  /** `isAdmin`: the status selector is shown inside the form. */
  predicate ShowStatusSelector(profile: Option<Profile>)
  {
    IsAdmin(profile)
  }

  /**
   * The form is shown to signed-in administrators and to the author only; the
   * status selector only ever appears inside it, and never for a citizen.
   */
  lemma VisibilityRules(profile: Option<Profile>, report: Report)
    ensures ShowUpdateForm(profile, report) <==>
      profile.Some? && (profile.value.role != Citizen || profile.value.id == report.userId)
    ensures ShowStatusSelector(profile) ==> ShowUpdateForm(profile, report)
    ensures ShowStatusSelector(profile) <==> profile.Some? && profile.value.role != Citizen
  {
  }

  /** `disabled={loading || !newComment.trim()}` */
  predicate SubmitDisabled(loading: bool, comment: string): (r: bool)
    ensures !r ==> !loading && !AllWhitespace(comment)
    ensures !loading && !AllWhitespace(comment) ==> !r
  {
    TrimEmptyIffBlank(comment);
    loading || Trim(comment) == ""
  }

  // ---------------------------------------------------------------------
  // fetchUpdates
  // ---------------------------------------------------------------------

  function UpdateCreatedAt(u: ReportUpdate): int { u.createdAt }

  function ForReport(reportId: Id): ReportUpdate -> bool
  {
    (u: ReportUpdate) => u.reportId == reportId
  }

  /** `select(...).eq('report_id', id).order('created_at', { ascending: false })` */
  function ListUpdates(t: Tables, reportId: Id): (r: seq<ReportUpdate>)
    ensures forall u :: u in r <==> u in t.reportUpdates && u.reportId == reportId
    ensures SortedDesc(r, UpdateCreatedAt)
    ensures multiset(r) == multiset(Filter(t.reportUpdates, ForReport(reportId)))
  {
    SortDesc(Filter(t.reportUpdates, ForReport(reportId)), UpdateCreatedAt)
  }

  // ---------------------------------------------------------------------
  // handleAddUpdate
  // ---------------------------------------------------------------------

  /** `isAdmin && newStatus !== report.status`: the submission changes the status. */
  predicate ChangesStatus(actor: Profile, report: Report, newStatus: Status)
  {
    IsAdmin(Some(actor)) && newStatus != report.status
  }

  /** The `updateData` object: the comment, and the status only on a change. */
  function AuditStatus(actor: Profile, report: Report, newStatus: Status): Option<Status>
  {
    if ChangesStatus(actor, report, newStatus) then Some(newStatus) else None
  }

  /**
   * handleAddUpdate on the store as a value. `report` is the record the panel
   * was opened with. `statusAccepted` says whether the report write took
   * effect; the code does not look at its error. `accepted` is the gateway's
   * answer to the audit insert.
   */
  function AddUpdate(t: Tables, actor: Profile, report: Report, comment: string, newStatus: Status,
                     statusAccepted: bool, accepted: bool): Tables
  {
    if Trim(comment) == "" then t
    else
      var t1 := if ChangesStatus(actor, report, newStatus) && statusAccepted
                then WithReportStatus(t, report.id, newStatus, newStatus == Resuelto)
                else t;
      if accepted then WithReportUpdate(t1, report.id, actor.id, AuditStatus(actor, report, newStatus), comment)
      else t1
  }

  /** A blank comment submits nothing, whatever the status selector holds. */
  lemma BlankCommentIsNoOp(t: Tables, actor: Profile, report: Report, comment: string, newStatus: Status,
                           statusAccepted: bool, accepted: bool)
    requires AllWhitespace(comment)
    ensures AddUpdate(t, actor, report, comment, newStatus, statusAccepted, accepted) == t
  {
    TrimEmptyIffBlank(comment);
  }

  /** A citizen's submission never writes the reports table, whatever status it carries. */
  lemma CitizenNeverChangesReport(t: Tables, actor: Profile, report: Report, comment: string,
                                  newStatus: Status, statusAccepted: bool, accepted: bool)
    requires actor.role == Citizen
    ensures AddUpdate(t, actor, report, comment, newStatus, statusAccepted, accepted).reports == t.reports
  {
  }

  /**
   * The reports table changes exactly on an administrator's status change with a
   * non-blank comment, when the report write takes effect. Then the report's rows get the new status and the write's
   * time; resolved_at is set to that time for `resuelto` and otherwise kept, so a
   * report moved away from `resuelto` keeps its old resolved_at. Other rows stay.
   */
  lemma StatusWrite(t: Tables, actor: Profile, report: Report, comment: string, newStatus: Status,
                    statusAccepted: bool, accepted: bool)
    ensures var t' := AddUpdate(t, actor, report, comment, newStatus, statusAccepted, accepted);
      && |t'.reports| == |t.reports|
      && (forall k :: 0 <= k < |t.reports| && t.reports[k].id != report.id ==> t'.reports[k] == t.reports[k])
      && (!ChangesStatus(actor, report, newStatus) || AllWhitespace(comment) || !statusAccepted ==>
            t'.reports == t.reports)
      && (ChangesStatus(actor, report, newStatus) && !AllWhitespace(comment) && statusAccepted ==>
            forall k :: 0 <= k < |t.reports| && t.reports[k].id == report.id ==>
              && t'.reports[k].status == newStatus
              && t'.reports[k].updatedAt == t.clock
              && t'.reports[k].resolvedAt == (if newStatus == Resuelto then Some(t.clock)
                                              else t.reports[k].resolvedAt)
              && t'.reports[k] == t.reports[k].(status := t'.reports[k].status,
                                                updatedAt := t'.reports[k].updatedAt,
                                                resolvedAt := t'.reports[k].resolvedAt))
  {
    TrimEmptyIffBlank(comment);
  }

  /**
   * A posted update appends exactly one audit row for this report and author,
   * with the comment verbatim; it carries a status exactly when the status
   * changed, and then it is the new status, whether or not the report write
   * took effect.
   */
  lemma AuditRowCarriesStatusIffChanged(t: Tables, actor: Profile, report: Report, comment: string,
                                        newStatus: Status, statusAccepted: bool)
    requires !AllWhitespace(comment)
    ensures var t' := AddUpdate(t, actor, report, comment, newStatus, statusAccepted, true);
      && |t'.reportUpdates| == |t.reportUpdates| + 1
      && t'.reportUpdates[..|t.reportUpdates|] == t.reportUpdates
      && (var u := t'.reportUpdates[|t.reportUpdates|];
          && u.reportId == report.id && u.userId == actor.id && u.comment == comment
          && (u.status.Some? <==> ChangesStatus(actor, report, newStatus))
          && (u.status.Some? ==> u.status.value == newStatus))
  {
    TrimEmptyIffBlank(comment);
  }

  /**
   * The report row is written before the audit row: on a status change the
   * audit row's time is later than the report's new updated_at.
   */
  lemma ReportWrittenBeforeAudit(t: Tables, actor: Profile, report: Report, comment: string,
                                 newStatus: Status, k: nat)
    requires !AllWhitespace(comment) && ChangesStatus(actor, report, newStatus)
    requires k < |t.reports| && t.reports[k].id == report.id
    ensures var t' := AddUpdate(t, actor, report, comment, newStatus, true, true);
      t'.reportUpdates[|t.reportUpdates|].createdAt > t'.reports[k].updatedAt
  {
    TrimEmptyIffBlank(comment);
  }

  /**
   * The two writes are not atomic: when the audit insert is refused after a
   * status change, the report keeps its new status and the trail has no entry for it.
   */
  lemma RefusedAuditKeepsStatusChange(t: Tables, actor: Profile, report: Report, comment: string,
                                      newStatus: Status, k: nat)
    requires !AllWhitespace(comment) && ChangesStatus(actor, report, newStatus)
    requires k < |t.reports| && t.reports[k].id == report.id
    ensures var t' := AddUpdate(t, actor, report, comment, newStatus, true, false);
      t'.reportUpdates == t.reportUpdates && t'.reports[k].status == newStatus
  {
    TrimEmptyIffBlank(comment);
  }

  /**
   * The other way round: when the report write fails and the audit insert
   * succeeds, the trail records a status change the report never got. The
   * reports table is unchanged, while the new audit row names a status that
   * differs from the report's.
   */
  lemma RefusedStatusWriteAuditClaimsChange(t: Tables, actor: Profile, report: Report, comment: string,
                                            newStatus: Status, k: nat)
    requires !AllWhitespace(comment) && ChangesStatus(actor, report, newStatus)
    requires k < |t.reports| && t.reports[k] == report
    ensures var t' := AddUpdate(t, actor, report, comment, newStatus, false, true);
      && t'.reports == t.reports
      && |t'.reportUpdates| == |t.reportUpdates| + 1
      && t'.reportUpdates[|t.reportUpdates|].status == Some(newStatus)
      && t'.reports[k].status != newStatus
  {
    TrimEmptyIffBlank(comment);
  }

  /** In a valid store, a posted update heads this report's listing, newest first. */
  lemma PostedUpdateListedFirst(t: Tables, actor: Profile, report: Report, comment: string,
                                newStatus: Status, statusAccepted: bool)
    requires UpdatesBeforeClock(t) && !AllWhitespace(comment)
    ensures var t' := AddUpdate(t, actor, report, comment, newStatus, statusAccepted, true);
      ListUpdates(t', report.id) != [] && ListUpdates(t', report.id)[0] == t'.reportUpdates[|t.reportUpdates|]
  {
    TrimEmptyIffBlank(comment);
    var t' := AddUpdate(t, actor, report, comment, newStatus, statusAccepted, true);
    var u := t'.reportUpdates[|t.reportUpdates|];
    assert t'.reportUpdates == t.reportUpdates + [u];
    assert u.createdAt >= t.clock;
    var listed := ListUpdates(t', report.id);
    assert u in listed;
    forall y | y in listed && y != u ensures UpdateCreatedAt(y) < UpdateCreatedAt(u) {
      assert y in t.reportUpdates;
    }
    UniqueMaximumFirst(listed, UpdateCreatedAt, u);
  }

  lemma AddUpdatePreservesValid(t: Tables, actor: Profile, report: Report, comment: string,
                                newStatus: Status, statusAccepted: bool, accepted: bool)
    requires Valid(t)
    ensures Valid(AddUpdate(t, actor, report, comment, newStatus, statusAccepted, accepted))
  {
    if Trim(comment) != "" {
      var t1 := if ChangesStatus(actor, report, newStatus) && statusAccepted
                then WithReportStatus(t, report.id, newStatus, newStatus == Resuelto)
                else t;
      assert t1 == t.(reports := t1.reports, clock := t1.clock) && t1.clock >= t.clock;
      assert Valid(t1);
      if accepted {
        var t2 := WithReportUpdate(t1, report.id, actor.id, AuditStatus(actor, report, newStatus), comment);
        assert t2.reportUpdates == t1.reportUpdates + [UpdateRow(t1.clock, report.id, actor.id,
                                                                 AuditStatus(actor, report, newStatus), comment)];
        assert t2 == t1.(reportUpdates := t2.reportUpdates, clock := t1.clock + 1);
      }
    }
  }

  /** The panel's state: the report it shows, the form inputs and the listed updates. */
  class Panel {
    const report: Report
    var newComment: string
    var newStatus: Status
    var loading: bool
    var updates: seq<ReportUpdate>

    /** The status selector starts at the report's current status. */
    constructor (report: Report)
      ensures this.report == report
      ensures newComment == "" && newStatus == report.status && !loading && updates == []
    {
      this.report := report;
      newComment := "";
      newStatus := report.status;
      loading := false;
      updates := [];
    }

    /** fetchUpdates: the listing is replaced only when the query succeeds. */
    method FetchUpdates(db: Backend, accepted: bool)
      modifies this
      ensures updates == if accepted then ListUpdates(db.State(), report.id) else old(updates)
      ensures newComment == old(newComment) && newStatus == old(newStatus) && loading == old(loading)
    {
      if accepted {
        updates := SortDesc(Filter(db.reportUpdates, ForReport(report.id)), UpdateCreatedAt);
      }
    }

    /**
     * handleAddUpdate by `actor`. `statusAccepted` says whether the report write
     * took effect (its error is not looked at), `insertAccepted` is the answer
     * to the audit insert and `refreshAccepted` the answer to the listing query
     * that follows.
     */
    method HandleAddUpdate(db: Backend, actor: Profile, statusAccepted: bool, insertAccepted: bool,
                           refreshAccepted: bool)
      returns (posted: bool)
      requires Valid(db.State())
      modifies this, db
      ensures db.State() == AddUpdate(old(db.State()), actor, report, old(newComment), newStatus,
                                      statusAccepted, insertAccepted)
      ensures Valid(db.State())
      ensures posted <==> !AllWhitespace(old(newComment)) && insertAccepted
      ensures newComment == if posted then "" else old(newComment)
      ensures updates == if posted && refreshAccepted then ListUpdates(db.State(), report.id) else old(updates)
      ensures loading == (old(loading) && AllWhitespace(old(newComment)))
      ensures newStatus == old(newStatus)
    {
      ghost var before := db.State();
      AddUpdatePreservesValid(before, actor, report, newComment, newStatus, statusAccepted, insertAccepted);
      TrimEmptyIffBlank(newComment);
      if Trim(newComment) == "" {
        return false;
      }
      loading := true;
      if ChangesStatus(actor, report, newStatus) {
        var _ := db.UpdateReportStatus(report.id, newStatus, newStatus == Resuelto, statusAccepted);
      }
      ghost var middle := db.State();
      assert middle == if ChangesStatus(actor, report, newStatus) && statusAccepted
                       then WithReportStatus(before, report.id, newStatus, newStatus == Resuelto)
                       else before;
      var error := db.InsertReportUpdate(report.id, actor.id, AuditStatus(actor, report, newStatus),
                                         newComment, insertAccepted);
      assert db.State() == AddUpdate(before, actor, report, newComment, newStatus, statusAccepted,
                                     insertAccepted);
      if error {
        posted := false;
      } else {
        newComment := "";
        FetchUpdates(db, refreshAccepted);
        posted := true;
      }
      loading := false;
    }
  }
}
