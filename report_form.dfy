/**
 * The new-report form: its fields and defaults, the location capture, and
 * handleSubmit, which inserts the report, records a `reporte_valido`
 * activity and credits the author through `increment`.
 */
module ReportForm {
  import opened Types
  import opened Store

  /** Points credited for a created report, on the activity row and on the balance. */
  const ReportPoints: int := 10

  const NoLocationMessage: string := "Por favor, obtén tu ubicación primero"
  const DefaultInsertMessage: string := "Error al crear el reporte"
  const NoGeolocationMessage: string := "Tu navegador no soporta geolocalización"
  const LocationDeniedMessage: string := "No se pudo obtener tu ubicación. Verifica los permisos."

  datatype Location = Location(lat: real, lng: real)

  /** The values the form's inputs hold when the user submits. */
  datatype Submission = Submission(
    title: string,
    description: string,
    category: Category,
    priority: Priority,
    address: string)

  /** `address || null`: the empty string is stored as null, anything else verbatim. */
  function StoredAddress(address: string): (r: Option<string>)
    ensures r.None? <==> address == ""
    ensures r.Some? ==> r.value == address
  {
    if address == "" then None else Some(address)
  }

  function ActivityDescription(title: string): string
  {
    "Reporte creado: " + title
  }

  /**
   * handleSubmit on the store as a value. Nothing is written without a
   * location or when the report insert is refused. After an accepted insert,
   * the activity insert and the increment follow. The code does not look at
   * their errors, so each happens or not independently
   * (`activityAccepted`, `creditAccepted`).
   */
  function Submit(t: Tables, userId: Id, s: Submission, location: Option<Location>, accepted: bool,
                  activityAccepted: bool, creditAccepted: bool): Tables
  {
    if location.None? || !accepted then t
    else
      var t1 := WithReport(t, userId, s.title, s.description, s.category, s.priority,
                           location.value.lat, location.value.lng, StoredAddress(s.address), Pendiente);
      var t2 := if activityAccepted
                then WithActivity(t1, userId, ReporteValido, ReportPoints, ActivityDescription(s.title))
                else t1;
      if creditAccepted then WithIncrement(t2, userId, ReportPoints) else t2
  }

  /** The message the form shows after a submit; `err.message || 'Error al crear el reporte'`. */
  function SubmitError(location: Option<Location>, accepted: bool, message: string): (r: string)
    ensures location.None? ==> r == NoLocationMessage
    ensures location.Some? && accepted ==> r == ""
    ensures location.Some? && !accepted ==> r != ""
  {
    if location.None? then NoLocationMessage
    else if accepted then ""
    else if message == "" then DefaultInsertMessage
    else message
  }

  /** Without a location, or with the insert refused, the store is untouched. */
  lemma SubmitFailureWritesNothing(t: Tables, userId: Id, s: Submission, location: Option<Location>,
                                   accepted: bool, activityAccepted: bool, creditAccepted: bool)
    requires location.None? || !accepted
    ensures Submit(t, userId, s, location, accepted, activityAccepted, creditAccepted) == t
  {
  }

  /**
   * A created report is the author's, `pendiente`, at the captured coordinates,
   * with the address as stored. When its insert is accepted, exactly one
   * `reporte_valido` activity worth 10 follows. When the increment is accepted,
   * the author's balance rises by 10. Every other balance stays as it was.
   */
  lemma SubmitCreatesPendingReport(t: Tables, userId: Id, s: Submission, location: Location,
                                   activityAccepted: bool, creditAccepted: bool)
    ensures var t' := Submit(t, userId, s, Some(location), true, activityAccepted, creditAccepted);
      && |t'.reports| == |t.reports| + 1
      && t'.reports[..|t.reports|] == t.reports
      && (var r := t'.reports[|t.reports|];
          && r.userId == userId && r.status == Pendiente && r.title == s.title
          && r.description == s.description && r.category == s.category && r.priority == s.priority
          && r.latitude == location.lat && r.longitude == location.lng
          && r.address == StoredAddress(s.address)
          && r.resolvedAt.None? && r.assignedTo.None?)
      && |t'.activities| == |t.activities| + (if activityAccepted then 1 else 0)
      && t'.activities[..|t.activities|] == t.activities
      && (activityAccepted ==>
            var a := t'.activities[|t.activities|];
            a.userId == userId && a.activityType == ReporteValido && a.pointsEarned == 10)
      && (userId in t.profiles ==> PointsOf(t', userId) == PointsOf(t, userId) + (if creditAccepted then 10 else 0))
      && (forall v :: v != userId ==> PointsOf(t', v) == PointsOf(t, v))
      && t'.reportUpdates == t.reportUpdates && t'.userRewards == t.userRewards
      && t'.contents == t.contents && t'.interactions == t.interactions
  {
  }

  /**
   * Report creation keeps the ledger balanced for every user when the activity
   * insert and the increment both happen or both fail. When only one of them
   * happens, the author's balance ends exactly 10 off the ledger: 10 below when
   * only the activity is recorded, 10 above when only the credit is applied.
   */
  lemma SubmitKeepsDrift(t: Tables, userId: Id, s: Submission, location: Option<Location>,
                         accepted: bool, activityAccepted: bool, creditAccepted: bool, v: Id)
    requires userId in t.profiles
    ensures var t' := Submit(t, userId, s, location, accepted, activityAccepted, creditAccepted);
      Drift(t', v) == Drift(t, v)
        + (if v == userId && location.Some? && accepted
           then (if creditAccepted then ReportPoints else 0) - (if activityAccepted then ReportPoints else 0)
           else 0)
    ensures activityAccepted == creditAccepted ==>
      Drift(Submit(t, userId, s, location, accepted, activityAccepted, creditAccepted), v) == Drift(t, v)
  {
    if location.Some? && accepted {
      var t' := Submit(t, userId, s, location, accepted, activityAccepted, creditAccepted);
      var a := ActivityRow(t.clock + 1, userId, ReporteValido, ReportPoints, ActivityDescription(s.title));
      if activityAccepted {
        assert t'.activities == t.activities + [a];
        CreditsAppend(t.activities, a, v);
      } else {
        assert t'.activities == t.activities;
      }
      assert t'.userRewards == t.userRewards && t'.rewards == t.rewards;
    }
  }

  lemma SubmitPreservesValid(t: Tables, userId: Id, s: Submission, location: Option<Location>,
                             accepted: bool, activityAccepted: bool, creditAccepted: bool)
    requires Valid(t)
    ensures Valid(Submit(t, userId, s, location, accepted, activityAccepted, creditAccepted))
  {
  }

  /** The form component: its inputs, the busy flag, the error banner and the captured location. */
  class Form {
    var title: string
    var description: string
    var category: Category
    var priority: Priority
    var address: string
    var loading: bool
    var error: string
    var location: Option<Location>
    var gettingLocation: bool

    function Data(): Submission
      reads this
    {
      Submission(title, description, category, priority, address)
    }

    /** A new form: empty texts, category `basura`, priority `media`, no location. */
    constructor ()
      ensures Data() == Submission("", "", Basura, Media, "")
      ensures !loading && error == "" && location.None? && !gettingLocation
    {
      title := "";
      description := "";
      category := Basura;
      priority := Media;
      address := "";
      loading := false;
      error := "";
      location := None;
      gettingLocation := false;
    }

    /** `disabled={loading || !location}`: an enabled button implies a captured location. */
    predicate SubmitDisabled(): (r: bool)
      reads this
      ensures !r ==> location.Some? && !loading
      ensures location.Some? && !loading ==> !r
    {
      loading || location.None?
    }

    /**
     * getCurrentLocation once the browser has answered: `supported` says whether
     * geolocation exists, `position` is what it reported (None when refused).
     */
    method CaptureLocation(supported: bool, position: Option<Location>)
      modifies this
      ensures !gettingLocation
      ensures location == if supported && position.Some? then position else old(location)
      ensures error == if !supported then NoGeolocationMessage
                       else if position.None? then LocationDeniedMessage
                       else ""
      ensures Data() == old(Data()) && loading == old(loading)
    {
      gettingLocation := true;
      error := "";
      if !supported {
        error := NoGeolocationMessage;
        gettingLocation := false;
        return;
      }
      if position.Some? {
        location := position;
      } else {
        error := LocationDeniedMessage;
      }
      gettingLocation := false;
    }

    /**
     * handleSubmit. `insertAccepted` and `insertMessage` are the gateway's answer
     * to the report insert. `activityAccepted` and `creditAccepted` say whether
     * the two following writes took effect; the code does not look at their
     * errors. `created` is true when onSuccess and onClose run.
     */
    method HandleSubmit(db: Backend, userId: Id, insertAccepted: bool, insertMessage: string,
                        activityAccepted: bool, creditAccepted: bool)
      returns (created: bool)
      requires Valid(db.State())
      modifies this, db
      ensures created <==> old(location).Some? && insertAccepted
      ensures db.State() == Submit(old(db.State()), userId, old(Data()), old(location), insertAccepted,
                                   activityAccepted, creditAccepted)
      ensures Valid(db.State())
      ensures error == SubmitError(old(location), insertAccepted, insertMessage)
      ensures loading == (old(loading) && old(location).None?)
      ensures Data() == old(Data()) && location == old(location)
    {
      ghost var before := db.State();
      SubmitPreservesValid(before, userId, Data(), location, insertAccepted, activityAccepted, creditAccepted);
      if location.None? {
        error := NoLocationMessage;
        return false;
      }
      error := "";
      loading := true;
      var loc := location.value;
      var insertError := db.InsertReport(userId, title, description, category, priority, loc.lat, loc.lng,
                                         StoredAddress(address), Pendiente, insertAccepted);
      if insertError {
        error := if insertMessage == "" then DefaultInsertMessage else insertMessage;
        created := false;
      } else {
        if activityAccepted {
          db.InsertActivity(userId, ReporteValido, ReportPoints, ActivityDescription(title));
        }
        if creditAccepted {
          db.Increment(userId, ReportPoints);
        }
        created := true;
      }
      loading := false;
    }
  }
}
