/**
 * A session of the app: any sequence of the handlers that write to the
 * store, in any order, by any users, with any gateway answers. The store
 * invariant, including that no balance is ever negative, holds after every
 * such sequence.
 */
module Session {
  import opened Types
  import opened Store
  import ReportForm
  import ReportDetail
  import Education
  import RewardsView

  /** One handler call and its inputs. */
  datatype Action =
    | CreateReport(author: Id, submission: ReportForm.Submission, location: Option<ReportForm.Location>,
                   insertAccepted: bool, activityAccepted: bool, creditAccepted: bool)
    | ViewItem(viewer: Id, viewed: EducationalContent)
    | LikeItem(liker: Id, liked: EducationalContent)
    | PostUpdate(actor: Profile, report: Report, comment: string, newStatus: Status, statusAccepted: bool,
                 auditAccepted: bool)
    | RedeemReward(holder: Option<Profile>, reward: Reward, redemptionAccepted: bool, debitAccepted: bool)

  /** The handler's effect on the store. */
  function Step(t: Tables, a: Action): Tables
  {
    match a
    case CreateReport(author, submission, location, accepted, activityAccepted, creditAccepted) =>
      ReportForm.Submit(t, author, submission, location, accepted, activityAccepted, creditAccepted)
    case ViewItem(viewer, viewed) => Education.ViewContent(t, viewer, viewed)
    case LikeItem(liker, liked) => Education.ToggleLike(t, liker, liked)
    case PostUpdate(actor, report, comment, newStatus, statusAccepted, accepted) =>
      ReportDetail.AddUpdate(t, actor, report, comment, newStatus, statusAccepted, accepted)
    case RedeemReward(holder, reward, redemptionAccepted, debitAccepted) =>
      RewardsView.Redeem(t, holder, reward, redemptionAccepted, debitAccepted)
  }

  /** The actions performed one after another. */
  function Run(t: Tables, actions: seq<Action>): Tables
    decreases |actions|
  {
    if actions == [] then t else Run(Step(t, actions[0]), actions[1..])
  }

  lemma StepPreservesValid(t: Tables, a: Action)
    requires Valid(t)
    ensures Valid(Step(t, a))
  {
    match a
    case CreateReport(author, submission, location, accepted, activityAccepted, creditAccepted) =>
      ReportForm.SubmitPreservesValid(t, author, submission, location, accepted, activityAccepted, creditAccepted);
    case ViewItem(viewer, viewed) => Education.ViewContentPreservesValid(t, viewer, viewed);
    case LikeItem(liker, liked) => Education.ToggleLikePreservesValid(t, liker, liked);
    case PostUpdate(actor, report, comment, newStatus, statusAccepted, accepted) =>
      ReportDetail.AddUpdatePreservesValid(t, actor, report, comment, newStatus, statusAccepted, accepted);
    case RedeemReward(holder, reward, redemptionAccepted, debitAccepted) =>
      RewardsView.RedeemPreservesValid(t, holder, reward, redemptionAccepted, debitAccepted);
  }

  /**
   * From a valid store, every session ends in a valid store: no balance is
   * negative, whatever was redeemed, and at most one view and one like row
   * exist per user and item.
   */
  lemma {:induction false} RunPreservesValid(t: Tables, actions: seq<Action>)
    requires Valid(t)
    ensures Valid(Run(t, actions))
    ensures forall id :: id in Run(t, actions).profiles ==> Run(t, actions).profiles[id].points >= 0
    decreases |actions|
  {
    if actions != [] {
      StepPreservesValid(t, actions[0]);
      RunPreservesValid(Step(t, actions[0]), actions[1..]);
    }
  }
}
