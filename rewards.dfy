/**
 * The rewards page: the catalogue, the user's activity and redemption
 * history, and handleRedeem, which checks the balance, inserts the
 * redemption and then writes the debited balance.
 */
module RewardsView {
  import opened Types
  import opened Query
  import opened Store
  import opened RewardCard

  // ---------------------------------------------------------------------
  // fetchData
  // ---------------------------------------------------------------------

  const HistoryLimit: nat := 20

  function IsActive(r: Reward): bool { r.isActive }
  function PointsRequired(r: Reward): int { r.pointsRequired }

  function ActivityOf(userId: Id): Activity -> bool
  {
    (a: Activity) => a.userId == userId
  }
  function ActivityCreatedAt(a: Activity): int { a.createdAt }

  function RedemptionOf(userId: Id): UserReward -> bool
  {
    (ur: UserReward) => ur.userId == userId
  }
  function RedeemedAt(ur: UserReward): int { ur.redeemedAt }

  /** `rewards ... .eq('is_active', true).order('points_required')` */
  function ActiveRewards(t: Tables): (r: seq<Reward>)
    ensures forall x :: x in r <==> x in t.rewards && x.isActive
    ensures SortedAsc(r, PointsRequired)
    ensures multiset(r) == multiset(Filter(t.rewards, IsActive))
  {
    SortAsc(Filter(t.rewards, IsActive), PointsRequired)
  }

  /** `activities ... .eq('user_id', id).order('created_at', { ascending: false }).limit(20)` */
  function ActivityHistory(t: Tables, userId: Id): (r: seq<Activity>)
    ensures |r| <= HistoryLimit
    ensures |r| == if |Filter(t.activities, ActivityOf(userId))| <= HistoryLimit
                   then |Filter(t.activities, ActivityOf(userId))| else HistoryLimit
    ensures forall x :: x in r ==> x in t.activities && x.userId == userId
    ensures SortedDesc(r, ActivityCreatedAt)
    ensures multiset(r) <= multiset(Filter(t.activities, ActivityOf(userId)))
  {
    var mine := Filter(t.activities, ActivityOf(userId));
    var all := SortDesc(mine, ActivityCreatedAt);
    var r := Limit(all, HistoryLimit);
    SortedDescPrefix(all, ActivityCreatedAt, |r|);
    assert multiset(r) <= multiset(mine);
    assert forall x :: x in r ==> x in mine by {
      forall x | x in r ensures x in mine {
        assert x in multiset(r);
      }
    }
    r
  }

  /** The history leaves out only activities of the user that are no newer than every listed one. */
  lemma HistoryKeepsNewest(t: Tables, userId: Id, x: Activity, y: Activity)
    requires x in t.activities && x.userId == userId
    requires x !in ActivityHistory(t, userId) && y in ActivityHistory(t, userId)
    ensures x.createdAt <= y.createdAt
  {
    var all := SortDesc(Filter(t.activities, ActivityOf(userId)), ActivityCreatedAt);
    LimitKeepsLargest(all, ActivityCreatedAt, HistoryLimit, x, y);
  }

  /** `user_rewards ... .eq('user_id', id).order('redeemed_at', { ascending: false })` */
  function Redemptions(t: Tables, userId: Id): (r: seq<UserReward>)
    ensures forall x :: x in r <==> x in t.userRewards && x.userId == userId
    ensures SortedDesc(r, RedeemedAt)
    ensures multiset(r) == multiset(Filter(t.userRewards, RedemptionOf(userId)))
  {
    SortDesc(Filter(t.userRewards, RedemptionOf(userId)), RedeemedAt)
  }

  /** `profile?.points || 0`: the balance the page and every card show. */
  function ShownPoints(profile: Option<Profile>): (r: int)
    ensures profile.None? ==> r == 0
    ensures profile.Some? ==> r == profile.value.points
  {
    if profile.None? then 0 else profile.value.points
  }

  // ---------------------------------------------------------------------
  // handleRedeem
  // ---------------------------------------------------------------------

  /** `!profile || profile.points < reward.points_required`: the early return. */
  predicate RedeemBlocked(profile: Option<Profile>, reward: Reward): (r: bool)
    ensures profile.None? ==> r
    ensures profile.Some? ==> (r <==> ShownPoints(profile) < reward.pointsRequired)
  {
    profile.None? || profile.value.points < reward.pointsRequired
  }

  /**
   * The card's enablement is the negation of the handler's guard for a
   * signed-in user. With no profile the card compares 0 with the price, so a
   * free reward shows an enabled button that the handler then ignores.
   */
  lemma CardAgreesWithGuard(profile: Option<Profile>, reward: Reward)
    ensures profile.Some? ==> (CanRedeem(ShownPoints(profile), reward) <==> !RedeemBlocked(profile, reward))
    ensures profile.None? ==> RedeemBlocked(profile, reward)
                              && (CanRedeem(ShownPoints(profile), reward) <==> reward.pointsRequired <= 0)
  {
  }

  datatype RedeemOutcome =
    | NotAllowed    // the early return
    | InsertFailed  // the "Error al canjear la recompensa" alert
    | DebitFailed   // the redemption is stored, the balance write was refused and nothing is said
    | Redeemed      // refreshProfile, fetchData and the success alert

  /**
   * handleRedeem on the store as a value. `profile` is the profile the page
   * holds, which may be older than the table; the debit writes its balance
   * minus the price. `insertAccepted` and `debitAccepted` are the gateway's answers.
   */
  function Redeem(t: Tables, profile: Option<Profile>, reward: Reward, insertAccepted: bool,
                  debitAccepted: bool): Tables
  {
    if RedeemBlocked(profile, reward) || !insertAccepted then t
    else
      var p := profile.value;
      var t1 := WithRedemption(t, p.id, reward.id, RedemptionPendiente);
      if debitAccepted then WithPoints(t1, p.id, p.points - reward.pointsRequired) else t1
  }

  /** Which branch of handleRedeem is taken. */
  function Outcome(profile: Option<Profile>, reward: Reward, insertAccepted: bool, debitAccepted: bool)
    : (r: RedeemOutcome)
    ensures r == NotAllowed <==> RedeemBlocked(profile, reward)
    ensures r == Redeemed <==> !RedeemBlocked(profile, reward) && insertAccepted && debitAccepted
  {
    if RedeemBlocked(profile, reward) then NotAllowed
    else if !insertAccepted then InsertFailed
    else if !debitAccepted then DebitFailed
    else Redeemed
  }

  /** Blocked, or with the insert refused, the store is untouched; the balance is never debited without a redemption. */
  lemma RedeemFailureWritesNothing(t: Tables, profile: Option<Profile>, reward: Reward,
                                   insertAccepted: bool, debitAccepted: bool)
    requires Outcome(profile, reward, insertAccepted, debitAccepted) in {NotAllowed, InsertFailed}
    ensures Redeem(t, profile, reward, insertAccepted, debitAccepted) == t
  {
  }

  /**
   * A redemption appends exactly one `pendiente` row for the (user, reward) pair;
   * on a full success the user's balance becomes the shown balance minus the
   * price, which the guard keeps at zero or above. Only that profile's points
   * field changes, and no other table is touched.
   */
  lemma RedeemDebits(t: Tables, p: Profile, reward: Reward, debitAccepted: bool)
    requires !RedeemBlocked(Some(p), reward) && p.id in t.profiles
    ensures var t' := Redeem(t, Some(p), reward, true, debitAccepted);
      && t'.userRewards == t.userRewards + [RedemptionRow(t.clock, p.id, reward.id, RedemptionPendiente)]
      && t'.profiles.Keys == t.profiles.Keys
      && (forall v :: v in t.profiles && v != p.id ==> t'.profiles[v] == t.profiles[v])
      && t'.profiles[p.id] == t.profiles[p.id].(points := t'.profiles[p.id].points)
      && (debitAccepted ==> PointsOf(t', p.id) == p.points - reward.pointsRequired >= 0)
      && (!debitAccepted ==> PointsOf(t', p.id) == PointsOf(t, p.id))
      && t'.reports == t.reports && t'.activities == t.activities && t'.rewards == t.rewards
      && t'.contents == t.contents && t'.interactions == t.interactions
  {
  }

  /**
   * With the profile refreshed from the table after a redemption, a second
   * redemption that the old balance could not cover twice is refused.
   */
  lemma RefreshedProfilePreventsDoubleSpend(t: Tables, p: Profile, reward: Reward)
    requires p.id in t.profiles && t.profiles[p.id] == p
    requires !RedeemBlocked(Some(p), reward) && p.points < 2 * reward.pointsRequired
    ensures var t' := Redeem(t, Some(p), reward, true, true);
      p.id in t'.profiles && RedeemBlocked(Some(t'.profiles[p.id]), reward)
  {
  }

  /**
   * With the page's profile left stale, a second click passes the guard again:
   * two redemptions are stored while the balance is debited only once, since the
   * second write repeats the first one's value.
   */
  lemma StaleProfileRedeemsTwice(t: Tables, p: Profile, reward: Reward)
    requires p.id in t.profiles && !RedeemBlocked(Some(p), reward)
    ensures var t2 := Redeem(Redeem(t, Some(p), reward, true, true), Some(p), reward, true, true);
      && |t2.userRewards| == |t.userRewards| + 2
      && PointsOf(t2, p.id) == p.points - reward.pointsRequired
  {
  }

  /**
   * Against the ledger (credits minus the prices of redeemed rewards), a
   * redemption from a profile read fresh from the table is balanced: the
   * stored row charges the price and the debit pays it. Only a redemption
   * whose debit was refused leaves its user's balance the price above the ledger.
   */
  lemma RedeemKeepsDrift(t: Tables, p: Profile, reward: Reward, insertAccepted: bool, debitAccepted: bool, v: Id)
    requires Valid(t) && p.id in t.profiles && t.profiles[p.id] == p && reward in t.rewards
    ensures var t' := Redeem(t, Some(p), reward, insertAccepted, debitAccepted);
      Drift(t', v) == Drift(t, v)
        + (if v == p.id && Outcome(Some(p), reward, insertAccepted, debitAccepted) == DebitFailed
           then reward.pointsRequired else 0)
  {
    if !RedeemBlocked(Some(p), reward) && insertAccepted {
      var row := RedemptionRow(t.clock, p.id, reward.id, RedemptionPendiente);
      var t1 := WithRedemption(t, p.id, reward.id, RedemptionPendiente);
      DebitsAppend(t.userRewards, t.rewards, row, v);
      PriceOfListed(t.rewards, reward);
      assert Debits(t1.userRewards, t1.rewards, v)
          == Debits(t.userRewards, t.rewards, v) + (if v == p.id then reward.pointsRequired else 0);
    }
  }

  /**
   * The stale-profile double redemption against the ledger: the second row
   * charges the price again while the second debit writes the same balance
   * as the first, so the user ends up the price above the ledger.
   */
  lemma StaleRedeemShiftsDrift(t: Tables, p: Profile, reward: Reward)
    requires Valid(t) && p.id in t.profiles && t.profiles[p.id] == p && reward in t.rewards
    requires !RedeemBlocked(Some(p), reward)
    ensures var t2 := Redeem(Redeem(t, Some(p), reward, true, true), Some(p), reward, true, true);
      Drift(t2, p.id) == Drift(t, p.id) + reward.pointsRequired
  {
    var t1 := Redeem(t, Some(p), reward, true, true);
    RedeemKeepsDrift(t, p, reward, true, true, p.id);
    var row := RedemptionRow(t1.clock, p.id, reward.id, RedemptionPendiente);
    DebitsAppend(t1.userRewards, t1.rewards, row, p.id);
    PriceOfListed(t1.rewards, reward);
    var t2 := Redeem(t1, Some(p), reward, true, true);
    assert PointsOf(t2, p.id) == PointsOf(t1, p.id);
    assert t2.activities == t1.activities;
  }

  /** Redemption records no activity, so it is not part of the credits ledger. */
  lemma RedeemRecordsNoActivity(t: Tables, profile: Option<Profile>, reward: Reward,
                                insertAccepted: bool, debitAccepted: bool)
    ensures Redeem(t, profile, reward, insertAccepted, debitAccepted).activities == t.activities
  {
  }

  /** A redemption keeps the store valid; in particular the debit never makes a balance negative, even from a stale profile. */
  lemma RedeemPreservesValid(t: Tables, profile: Option<Profile>, reward: Reward,
                             insertAccepted: bool, debitAccepted: bool)
    requires Valid(t)
    ensures Valid(Redeem(t, profile, reward, insertAccepted, debitAccepted))
  {
  }

  // ---------------------------------------------------------------------
  // The page as an object
  // ---------------------------------------------------------------------

  datatype Tab = AvailableTab | ActivityTab | RedeemedTab

  /** The page's lists as last fetched, the busy flag and the selected tab. */
  class Page {
    var rewards: seq<Reward>
    var activities: seq<Activity>
    var userRewards: seq<UserReward>
    var loading: bool
    var activeTab: Tab

    constructor ()
      ensures rewards == [] && activities == [] && userRewards == []
      ensures loading && activeTab == AvailableTab
    {
      rewards := [];
      activities := [];
      userRewards := [];
      loading := true;
      activeTab := AvailableTab;
    }

    /** fetchData: each of the three lists is replaced only when its own query succeeds. */
    method FetchData(db: Backend, userId: Id, rewardsOk: bool, activitiesOk: bool, redemptionsOk: bool)
      modifies this
      ensures rewards == if rewardsOk then ActiveRewards(db.State()) else old(rewards)
      ensures activities == if activitiesOk then ActivityHistory(db.State(), userId) else old(activities)
      ensures userRewards == if redemptionsOk then Redemptions(db.State(), userId) else old(userRewards)
      ensures !loading && activeTab == old(activeTab)
    {
      loading := true;
      if rewardsOk {
        rewards := SortAsc(Filter(db.rewards, IsActive), PointsRequired);
      }
      if activitiesOk {
        activities := Limit(SortDesc(Filter(db.activities, ActivityOf(userId)), ActivityCreatedAt), HistoryLimit);
      }
      if redemptionsOk {
        userRewards := SortDesc(Filter(db.userRewards, RedemptionOf(userId)), RedeemedAt);
      }
      loading := false;
    }

    /**
     * handleRedeem. After a full success the page refetches its lists for the
     * same user; `refreshOk` is the answer to those queries.
     */
    method HandleRedeem(db: Backend, profile: Option<Profile>, reward: Reward, insertAccepted: bool,
                        debitAccepted: bool, refreshOk: bool) returns (outcome: RedeemOutcome)
      requires Valid(db.State())
      modifies this, db
      ensures outcome == Outcome(profile, reward, insertAccepted, debitAccepted)
      ensures db.State() == Redeem(old(db.State()), profile, reward, insertAccepted, debitAccepted)
      ensures Valid(db.State())
      ensures outcome != Redeemed ==> rewards == old(rewards) && activities == old(activities)
                                      && userRewards == old(userRewards)
      ensures outcome == Redeemed && refreshOk ==>
        && rewards == ActiveRewards(db.State())
        && activities == ActivityHistory(db.State(), profile.value.id)
        && userRewards == Redemptions(db.State(), profile.value.id)
    {
      ghost var before := db.State();
      RedeemPreservesValid(before, profile, reward, insertAccepted, debitAccepted);
      if profile.None? || profile.value.points < reward.pointsRequired {
        return NotAllowed;
      }
      var p := profile.value;
      var error := db.InsertRedemption(p.id, reward.id, RedemptionPendiente, insertAccepted);
      if error {
        return InsertFailed;
      }
      var updateError := db.UpdatePoints(p.id, p.points - reward.pointsRequired, debitAccepted);
      if updateError {
        return DebitFailed;
      }
      FetchData(db, p.id, refreshOk, refreshOk, refreshOk);
      outcome := Redeemed;
    }
  }
}
