/**
 * The record types of the backend's tables and their enumerations.
 * Every string-literal union of the source becomes a datatype; each one also
 * has its stored literal and a parser back from it, so that the literal
 * encoding is one-to-one.
 */
module Types {

  /** Row identifiers. The backend uses UUID strings; here they are naturals. */
  type Id = nat

  /** Timestamps are only compared for ordering, so a natural is enough. */
  type Timestamp = nat

  datatype Option<+T> = None | Some(value: T)

  /** A filter selection: the literal 'all' or one value of the enumeration. */
  datatype Choice<+T> = All | Only(value: T)

  datatype Role = Citizen | MunicipalAdmin | SuperAdmin

  datatype Category = Basura | Contaminacion | TalaIlegal | MalUsoEspacios

  datatype Status = Pendiente | EnProceso | Resuelto | Rechazado

  datatype Priority = Baja | Media | Alta

  datatype RewardCategory = Descuento | Reconocimiento | Beneficio

  /** Status of a redemption row (user_rewards.status). */
  datatype RedemptionStatus = RedemptionPendiente | Entregado | Usado

  datatype ActivityType = ReporteValido | Reciclaje | Educacion | Compartir

  datatype ContentCategory = Campana | Consejo | Actividad

  datatype InteractionType = View | Like | Complete

  datatype Profile = Profile(
    id: Id,
    email: string,
    fullName: string,
    role: Role,
    points: int,
    avatarUrl: Option<string>,
    createdAt: Timestamp)

  datatype Report = Report(
    id: Id,
    userId: Id,
    title: string,
    description: string,
    category: Category,
    status: Status,
    latitude: real,
    longitude: real,
    address: Option<string>,
    imageUrl: Option<string>,
    priority: Priority,
    assignedTo: Option<Id>,
    resolvedAt: Option<Timestamp>,
    createdAt: Timestamp,
    updatedAt: Timestamp)

  /** An entry of a report's audit trail; `status` is present only on a status change. */
  datatype ReportUpdate = ReportUpdate(
    id: Id,
    reportId: Id,
    userId: Id,
    status: Option<Status>,
    comment: string,
    createdAt: Timestamp)

  datatype Reward = Reward(
    id: Id,
    title: string,
    description: string,
    pointsRequired: int,
    category: RewardCategory,
    imageUrl: Option<string>,
    availableQuantity: Option<int>,
    isActive: bool,
    createdAt: Timestamp)

  datatype UserReward = UserReward(
    id: Id,
    userId: Id,
    rewardId: Id,
    redeemedAt: Timestamp,
    status: RedemptionStatus)

  datatype Activity = Activity(
    id: Id,
    userId: Id,
    activityType: ActivityType,
    pointsEarned: int,
    description: string,
    createdAt: Timestamp)

  datatype EducationalContent = EducationalContent(
    id: Id,
    title: string,
    content: string,
    category: ContentCategory,
    imageUrl: Option<string>,
    authorId: Id,
    isPublished: bool,
    views: int,
    createdAt: Timestamp,
    updatedAt: Timestamp)

  datatype ContentInteraction = ContentInteraction(
    id: Id,
    userId: Id,
    contentId: Id,
    interactionType: InteractionType,
    createdAt: Timestamp)

  // ---------------------------------------------------------------------
  // Stored literals of the enumerations and their parsers
  // ---------------------------------------------------------------------

  function RoleLiteral(r: Role): string {
    match r
    case Citizen => "citizen"
    case MunicipalAdmin => "municipal_admin"
    case SuperAdmin => "super_admin"
  }

  /** Reads a stored role; anything but the three literals is rejected. */
  function ParseRole(s: string): (r: Option<Role>)
    ensures r.Some? ==> RoleLiteral(r.value) == s
    ensures r.None? ==> forall x: Role :: RoleLiteral(x) != s
  {
    if s == "citizen" then Some(Citizen)
    else if s == "municipal_admin" then Some(MunicipalAdmin)
    else if s == "super_admin" then Some(SuperAdmin)
    else None
  }

  function CategoryLiteral(c: Category): string {
    match c
    case Basura => "basura"
    case Contaminacion => "contaminacion"
    case TalaIlegal => "tala_ilegal"
    case MalUsoEspacios => "mal_uso_espacios"
  }

  function ParseCategory(s: string): (r: Option<Category>)
    ensures r.Some? ==> CategoryLiteral(r.value) == s
    ensures r.None? ==> forall x: Category :: CategoryLiteral(x) != s
  {
    if s == "basura" then Some(Basura)
    else if s == "contaminacion" then Some(Contaminacion)
    else if s == "tala_ilegal" then Some(TalaIlegal)
    else if s == "mal_uso_espacios" then Some(MalUsoEspacios)
    else None
  }

  function StatusLiteral(s: Status): string {
    match s
    case Pendiente => "pendiente"
    case EnProceso => "en_proceso"
    case Resuelto => "resuelto"
    case Rechazado => "rechazado"
  }

  /** Shared by reports.status and report_updates.status. */
  function ParseStatus(s: string): (r: Option<Status>)
    ensures r.Some? ==> StatusLiteral(r.value) == s
    ensures r.None? ==> forall x: Status :: StatusLiteral(x) != s
  {
    if s == "pendiente" then Some(Pendiente)
    else if s == "en_proceso" then Some(EnProceso)
    else if s == "resuelto" then Some(Resuelto)
    else if s == "rechazado" then Some(Rechazado)
    else None
  }

  function PriorityLiteral(p: Priority): string {
    match p
    case Baja => "baja"
    case Media => "media"
    case Alta => "alta"
  }

  function ParsePriority(s: string): (r: Option<Priority>)
    ensures r.Some? ==> PriorityLiteral(r.value) == s
    ensures r.None? ==> forall x: Priority :: PriorityLiteral(x) != s
  {
    if s == "baja" then Some(Baja)
    else if s == "media" then Some(Media)
    else if s == "alta" then Some(Alta)
    else None
  }

  function RewardCategoryLiteral(c: RewardCategory): string {
    match c
    case Descuento => "descuento"
    case Reconocimiento => "reconocimiento"
    case Beneficio => "beneficio"
  }

  function ParseRewardCategory(s: string): (r: Option<RewardCategory>)
    ensures r.Some? ==> RewardCategoryLiteral(r.value) == s
    ensures r.None? ==> forall x: RewardCategory :: RewardCategoryLiteral(x) != s
  {
    if s == "descuento" then Some(Descuento)
    else if s == "reconocimiento" then Some(Reconocimiento)
    else if s == "beneficio" then Some(Beneficio)
    else None
  }

  function RedemptionStatusLiteral(s: RedemptionStatus): string {
    match s
    case RedemptionPendiente => "pendiente"
    case Entregado => "entregado"
    case Usado => "usado"
  }

  function ParseRedemptionStatus(s: string): (r: Option<RedemptionStatus>)
    ensures r.Some? ==> RedemptionStatusLiteral(r.value) == s
    ensures r.None? ==> forall x: RedemptionStatus :: RedemptionStatusLiteral(x) != s
  {
    if s == "pendiente" then Some(RedemptionPendiente)
    else if s == "entregado" then Some(Entregado)
    else if s == "usado" then Some(Usado)
    else None
  }

  function ActivityTypeLiteral(a: ActivityType): string {
    match a
    case ReporteValido => "reporte_valido"
    case Reciclaje => "reciclaje"
    case Educacion => "educacion"
    case Compartir => "compartir"
  }

  function ParseActivityType(s: string): (r: Option<ActivityType>)
    ensures r.Some? ==> ActivityTypeLiteral(r.value) == s
    ensures r.None? ==> forall x: ActivityType :: ActivityTypeLiteral(x) != s
  {
    if s == "reporte_valido" then Some(ReporteValido)
    else if s == "reciclaje" then Some(Reciclaje)
    else if s == "educacion" then Some(Educacion)
    else if s == "compartir" then Some(Compartir)
    else None
  }

  function ContentCategoryLiteral(c: ContentCategory): string {
    match c
    case Campana => "campana"
    case Consejo => "consejo"
    case Actividad => "actividad"
  }

  function ParseContentCategory(s: string): (r: Option<ContentCategory>)
    ensures r.Some? ==> ContentCategoryLiteral(r.value) == s
    ensures r.None? ==> forall x: ContentCategory :: ContentCategoryLiteral(x) != s
  {
    if s == "campana" then Some(Campana)
    else if s == "consejo" then Some(Consejo)
    else if s == "actividad" then Some(Actividad)
    else None
  }

  function InteractionTypeLiteral(i: InteractionType): string {
    match i
    case View => "view"
    case Like => "like"
    case Complete => "complete"
  }

  function ParseInteractionType(s: string): (r: Option<InteractionType>)
    ensures r.Some? ==> InteractionTypeLiteral(r.value) == s
    ensures r.None? ==> forall x: InteractionType :: InteractionTypeLiteral(x) != s
  {
    if s == "view" then Some(View)
    else if s == "like" then Some(Like)
    else if s == "complete" then Some(Complete)
    else None
  }

  /** Every literal reads back as the value it was written from. */
  lemma LiteralsRoundTrip()
    ensures forall x: Role :: ParseRole(RoleLiteral(x)) == Some(x)
    ensures forall x: Category :: ParseCategory(CategoryLiteral(x)) == Some(x)
    ensures forall x: Status :: ParseStatus(StatusLiteral(x)) == Some(x)
    ensures forall x: Priority :: ParsePriority(PriorityLiteral(x)) == Some(x)
    ensures forall x: RewardCategory :: ParseRewardCategory(RewardCategoryLiteral(x)) == Some(x)
    ensures forall x: RedemptionStatus :: ParseRedemptionStatus(RedemptionStatusLiteral(x)) == Some(x)
    ensures forall x: ActivityType :: ParseActivityType(ActivityTypeLiteral(x)) == Some(x)
    ensures forall x: ContentCategory :: ParseContentCategory(ContentCategoryLiteral(x)) == Some(x)
    ensures forall x: InteractionType :: ParseInteractionType(InteractionTypeLiteral(x)) == Some(x)
  {
  }
}
