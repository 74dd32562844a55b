/**
 * The hosted backend, replaced by an in-memory store: one table per record
 * type and a logical clock. Every accepted write takes the clock's value as
 * the new row's id and as "now", then advances the clock, so ids are fresh
 * and timestamps follow the order of the writes.
 *
 * `Tables` is the store as a value; the functions `With...` are the single
 * writes on it. `Backend` is the store as an object whose methods perform
 * those writes in place. A write whose error the caller inspects takes an
 * `accepted` flag: the gateway's answer, which the model receives as input.
 */
module Store {
  import opened Types
  import opened Query

  datatype Tables = Tables(
    profiles: map<Id, Profile>,
    reports: seq<Report>,
    reportUpdates: seq<ReportUpdate>,
    rewards: seq<Reward>,
    userRewards: seq<UserReward>,
    activities: seq<Activity>,
    contents: seq<EducationalContent>,
    interactions: seq<ContentInteraction>,
    clock: nat)

  // ---------------------------------------------------------------------
  // Rows as the backend completes them (id, defaults, timestamps)
  // ---------------------------------------------------------------------

  function ReportRow(now: nat, userId: Id, title: string, description: string, category: Category,
                     priority: Priority, latitude: real, longitude: real, address: Option<string>,
                     status: Status): Report
  {
    Report(now, userId, title, description, category, status, latitude, longitude, address,
           None, priority, None, None, now, now)
  }

  function UpdateRow(now: nat, reportId: Id, userId: Id, status: Option<Status>, comment: string): ReportUpdate
  {
    ReportUpdate(now, reportId, userId, status, comment, now)
  }

  function RedemptionRow(now: nat, userId: Id, rewardId: Id, status: RedemptionStatus): UserReward
  {
    UserReward(now, userId, rewardId, now, status)
  }

  function ActivityRow(now: nat, userId: Id, kind: ActivityType, points: int, description: string): Activity
  {
    Activity(now, userId, kind, points, description, now)
  }

  function InteractionRow(now: nat, userId: Id, contentId: Id, kind: InteractionType): ContentInteraction
  {
    ContentInteraction(now, userId, contentId, kind, now)
  }

  /** `update({ status, updated_at, resolved_at? }).eq('id', id)` on the reports table. */
  function SetReportStatus(rows: seq<Report>, id: Id, status: Status, now: nat, resolve: bool): seq<Report>
  {
    seq(|rows|, k requires 0 <= k < |rows| =>
      if rows[k].id == id
      then rows[k].(status := status, updatedAt := now,
                    resolvedAt := if resolve then Some(now) else rows[k].resolvedAt)
      else rows[k])
  }

  /** `update({ views }).eq('id', id)` on the educational_content table. */
  function SetViews(rows: seq<EducationalContent>, id: Id, views: int): seq<EducationalContent>
  {
    seq(|rows|, k requires 0 <= k < |rows| =>
      if rows[k].id == id then rows[k].(views := views) else rows[k])
  }

  /** The row test of `.eq('user_id', u).eq('content_id', c).eq('interaction_type', kind)`. */
  function PairMatches(userId: Id, contentId: Id, kind: InteractionType): ContentInteraction -> bool
  {
    (ci: ContentInteraction) => ci.userId == userId && ci.contentId == contentId && ci.interactionType == kind
  }

  /** `select('*')` on content_interactions with the three equality filters. */
  function InteractionsOf(rows: seq<ContentInteraction>, userId: Id, contentId: Id,
                          kind: InteractionType): seq<ContentInteraction>
  {
    Filter(rows, PairMatches(userId, contentId, kind))
  }

  /** The row test of `.eq('id', id)`, negated: the rows a delete keeps. */
  function IdDiffers(id: Id): ContentInteraction -> bool
  {
    (ci: ContentInteraction) => ci.id != id
  }

  /** `delete().eq('id', id)` on the content_interactions table. */
  function InteractionsExcept(rows: seq<ContentInteraction>, id: Id): seq<ContentInteraction>
  {
    Filter(rows, IdDiffers(id))
  }

  /** A new row extends the matching rows of a pair exactly when it matches. */
  lemma InteractionsOfAppend(rows: seq<ContentInteraction>, x: ContentInteraction, userId: Id,
                             contentId: Id, kind: InteractionType)
    ensures InteractionsOf(rows + [x], userId, contentId, kind)
         == InteractionsOf(rows, userId, contentId, kind)
            + (if PairMatches(userId, contentId, kind)(x) then [x] else [])
  {
    FilterAppend(rows, x, PairMatches(userId, contentId, kind));
  }

  /** Deleting rows never adds matching rows for a pair. */
  lemma InteractionsOfExcept(rows: seq<ContentInteraction>, id: Id, userId: Id, contentId: Id,
                             kind: InteractionType)
    ensures |InteractionsOf(InteractionsExcept(rows, id), userId, contentId, kind)|
         <= |InteractionsOf(rows, userId, contentId, kind)|
  {
    FilterSubsequenceLength(InteractionsExcept(rows, id), rows, PairMatches(userId, contentId, kind));
  }

  // ---------------------------------------------------------------------
  // Single writes on the store as a value
  // ---------------------------------------------------------------------

  function WithReport(t: Tables, userId: Id, title: string, description: string, category: Category,
                      priority: Priority, latitude: real, longitude: real, address: Option<string>,
                      status: Status): Tables
  {
    t.(reports := t.reports + [ReportRow(t.clock, userId, title, description, category, priority,
                                         latitude, longitude, address, status)],
       clock := t.clock + 1)
  }

  function WithReportStatus(t: Tables, id: Id, status: Status, resolve: bool): Tables
  {
    t.(reports := SetReportStatus(t.reports, id, status, t.clock, resolve), clock := t.clock + 1)
  }

  function WithReportUpdate(t: Tables, reportId: Id, userId: Id, status: Option<Status>, comment: string): Tables
  {
    t.(reportUpdates := t.reportUpdates + [UpdateRow(t.clock, reportId, userId, status, comment)],
       clock := t.clock + 1)
  }

  function WithRedemption(t: Tables, userId: Id, rewardId: Id, status: RedemptionStatus): Tables
  {
    t.(userRewards := t.userRewards + [RedemptionRow(t.clock, userId, rewardId, status)],
       clock := t.clock + 1)
  }

  /** `update({ points }).eq('id', id)` on the profiles table. */
  function WithPoints(t: Tables, id: Id, points: int): Tables
  {
    if id in t.profiles
    then t.(profiles := t.profiles[id := t.profiles[id].(points := points)], clock := t.clock + 1)
    else t.(clock := t.clock + 1)
  }

  /** The server-side `increment(row_id, x)` procedure: points += x on that profile. */
  function WithIncrement(t: Tables, id: Id, x: int): Tables
  {
    if id in t.profiles
    then t.(profiles := t.profiles[id := t.profiles[id].(points := t.profiles[id].points + x)],
            clock := t.clock + 1)
    else t.(clock := t.clock + 1)
  }

  function WithActivity(t: Tables, userId: Id, kind: ActivityType, points: int, description: string): Tables
  {
    t.(activities := t.activities + [ActivityRow(t.clock, userId, kind, points, description)],
       clock := t.clock + 1)
  }

  function WithViews(t: Tables, contentId: Id, views: int): Tables
  {
    t.(contents := SetViews(t.contents, contentId, views), clock := t.clock + 1)
  }

  function WithInteraction(t: Tables, userId: Id, contentId: Id, kind: InteractionType): Tables
  {
    t.(interactions := t.interactions + [InteractionRow(t.clock, userId, contentId, kind)],
       clock := t.clock + 1)
  }

  function WithoutInteraction(t: Tables, id: Id): Tables
  {
    t.(interactions := InteractionsExcept(t.interactions, id), clock := t.clock + 1)
  }

  // ---------------------------------------------------------------------
  // Invariant of the store
  // ---------------------------------------------------------------------

  /** At most one row of this kind for any (user, content) pair. */
  ghost predicate AtMostOnePerPair(rows: seq<ContentInteraction>, kind: InteractionType)
  {
    forall u: Id, c: Id :: |InteractionsOf(rows, u, c, kind)| <= 1
  }

  /** No profile holds a negative balance. */
  ghost predicate BalancesNonNegative(t: Tables)
  {
    forall id :: id in t.profiles ==> t.profiles[id].points >= 0
  }

  /** The rewards table's primary key: no two rewards share an id. */
  ghost predicate DistinctRewardIds(rewards: seq<Reward>)
  {
    forall i, j :: 0 <= i < j < |rewards| ==> rewards[i].id != rewards[j].id
  }

  /** Every audit row was written before the clock's present value. */
  ghost predicate UpdatesBeforeClock(t: Tables)
  {
    forall k :: 0 <= k < |t.reportUpdates| ==> t.reportUpdates[k].createdAt < t.clock
  }

  /** The content_interactions table's primary key: no two rows share an id. */
  ghost predicate DistinctInteractionIds(rows: seq<ContentInteraction>)
  {
    forall i, j :: 0 <= i < j < |rows| ==> rows[i].id != rows[j].id
  }

  /** A selection of rows with distinct ids has distinct ids. */
  lemma {:induction false} FilterKeepsDistinctIds(rows: seq<ContentInteraction>, p: ContentInteraction -> bool)
    requires DistinctInteractionIds(rows)
    ensures DistinctInteractionIds(Filter(rows, p))
  {
    if rows != [] {
      FilterKeepsDistinctIds(rows[1..], p);
      var rest := Filter(rows[1..], p);
      assert forall x :: x in rest ==> x.id != rows[0].id by {
        forall x | x in rest ensures x.id != rows[0].id {
          var j :| 0 <= j < |rows[1..]| && rows[1..][j] == x;
          assert rows[j + 1] == x;
        }
      }
      if p(rows[0]) {
        var r := [rows[0]] + rest;
        forall i, j | 0 <= i < j < |r| ensures r[i].id != r[j].id {
          assert r[j] == rest[j - 1] && r[j] in rest;
          if i > 0 {
            assert r[i] == rest[i - 1];
          }
        }
      }
    }
  }

  /**
   * Deleting by an id that only rows failing `q` carry leaves the rows that
   * pass `q` as they were.
   */
  lemma {:induction false} ExceptKeepsOthers(rows: seq<ContentInteraction>, id: Id, q: ContentInteraction -> bool)
    requires forall x :: x in rows && x.id == id ==> !q(x)
    ensures Filter(InteractionsExcept(rows, id), q) == Filter(rows, q)
  {
    if rows != [] {
      assert forall x :: x in rows[1..] ==> x in rows;
      ExceptKeepsOthers(rows[1..], id, q);
    }
  }

  /**
   * Generated ids and timestamps lie before the clock, interaction ids are
   * keys, a user has at most one `view` and at most one `like` row per content
   * item, no balance is negative, and reward ids are keys.
   */
  ghost predicate Valid(t: Tables)
  {
    && UpdatesBeforeClock(t)
    && (forall k :: 0 <= k < |t.interactions| ==> t.interactions[k].id < t.clock)
    && DistinctInteractionIds(t.interactions)
    && AtMostOnePerPair(t.interactions, View)
    && AtMostOnePerPair(t.interactions, Like)
    && BalancesNonNegative(t)
    && DistinctRewardIds(t.rewards)
  }

  // ---------------------------------------------------------------------
  // The points ledger as recorded in the tables
  // ---------------------------------------------------------------------

  /** The balance stored on a profile; an absent profile has none. */
  function PointsOf(t: Tables, userId: Id): int
  {
    if userId in t.profiles then t.profiles[userId].points else 0
  }

  /** The sum of the points credited to a user by activity rows. */
  function Credits(rows: seq<Activity>, userId: Id): int
  {
    if rows == [] then 0
    else
      var last := rows[|rows| - 1];
      Credits(rows[..|rows| - 1], userId) + (if last.userId == userId then last.pointsEarned else 0)
  }

  lemma CreditsAppend(rows: seq<Activity>, a: Activity, userId: Id)
    ensures Credits(rows + [a], userId)
         == Credits(rows, userId) + (if a.userId == userId then a.pointsEarned else 0)
  {
    assert (rows + [a])[..|rows + [a]| - 1] == rows;
  }

  /** The price of the first reward with that id; 0 when there is none. */
  function PriceOf(rewards: seq<Reward>, rewardId: Id): int
  {
    if rewards == [] then 0
    else if rewards[0].id == rewardId then rewards[0].pointsRequired
    else PriceOf(rewards[1..], rewardId)
  }

  /** With reward ids as keys, the lookup finds the listed reward's own price. */
  lemma {:induction false} PriceOfListed(rewards: seq<Reward>, reward: Reward)
    requires reward in rewards && DistinctRewardIds(rewards)
    ensures PriceOf(rewards, reward.id) == reward.pointsRequired
    decreases |rewards|
  {
    if rewards[0] != reward {
      assert reward in rewards[1..];
      var j :| 1 <= j < |rewards| && rewards[j] == reward;
      assert rewards[0].id != rewards[j].id;
      PriceOfListed(rewards[1..], reward);
    }
  }

  /** The sum of the prices of the rewards a user has redeemed. */
  function Debits(rows: seq<UserReward>, rewards: seq<Reward>, userId: Id): int
  {
    if rows == [] then 0
    else
      var last := rows[|rows| - 1];
      Debits(rows[..|rows| - 1], rewards, userId) + (if last.userId == userId then PriceOf(rewards, last.rewardId) else 0)
  }

  lemma DebitsAppend(rows: seq<UserReward>, rewards: seq<Reward>, ur: UserReward, userId: Id)
    ensures Debits(rows + [ur], rewards, userId)
         == Debits(rows, rewards, userId) + (if ur.userId == userId then PriceOf(rewards, ur.rewardId) else 0)
  {
    assert (rows + [ur])[..|rows + [ur]| - 1] == rows;
  }

  /**
   * How far a user's stored balance is from the ledger: the credits recorded
   * by activity rows minus the prices of the rewards redeemed. An earning path
   * that records a credit and applies it, and a redemption that charges its
   * price, leave this unchanged.
   */
  function Drift(t: Tables, userId: Id): int
  {
    PointsOf(t, userId) - (Credits(t.activities, userId) - Debits(t.userRewards, t.rewards, userId))
  }

  // ---------------------------------------------------------------------
  // The store as an object
  // ---------------------------------------------------------------------

  class Backend {
    var profiles: map<Id, Profile>
    var reports: seq<Report>
    var reportUpdates: seq<ReportUpdate>
    var rewards: seq<Reward>
    var userRewards: seq<UserReward>
    var activities: seq<Activity>
    var contents: seq<EducationalContent>
    var interactions: seq<ContentInteraction>
    var clock: nat

    /** The whole store as a value. */
    function State(): Tables
      reads this
    {
      Tables(profiles, reports, reportUpdates, rewards, userRewards, activities, contents,
             interactions, clock)
    }

    constructor (initial: Tables)
      ensures State() == initial
    {
      profiles := initial.profiles;
      reports := initial.reports;
      reportUpdates := initial.reportUpdates;
      rewards := initial.rewards;
      userRewards := initial.userRewards;
      activities := initial.activities;
      contents := initial.contents;
      interactions := initial.interactions;
      clock := initial.clock;
    }

    method InsertReport(userId: Id, title: string, description: string, category: Category,
                        priority: Priority, latitude: real, longitude: real, address: Option<string>,
                        status: Status, accepted: bool) returns (error: bool)
      modifies this
      ensures error == !accepted
      ensures State() == if accepted
        then WithReport(old(State()), userId, title, description, category, priority, latitude,
                        longitude, address, status)
        else old(State())
    {
      error := !accepted;
      if accepted {
        reports := reports + [ReportRow(clock, userId, title, description, category, priority,
                                        latitude, longitude, address, status)];
        clock := clock + 1;
      }
    }

    method UpdateReportStatus(id: Id, status: Status, resolve: bool, accepted: bool) returns (error: bool)
      modifies this
      ensures error == !accepted
      ensures State() == if accepted then WithReportStatus(old(State()), id, status, resolve) else old(State())
    {
      error := !accepted;
      if accepted {
        reports := SetReportStatus(reports, id, status, clock, resolve);
        clock := clock + 1;
      }
    }

    method InsertReportUpdate(reportId: Id, userId: Id, status: Option<Status>, comment: string,
                              accepted: bool) returns (error: bool)
      modifies this
      ensures error == !accepted
      ensures State() == if accepted
        then WithReportUpdate(old(State()), reportId, userId, status, comment)
        else old(State())
    {
      error := !accepted;
      if accepted {
        reportUpdates := reportUpdates + [UpdateRow(clock, reportId, userId, status, comment)];
        clock := clock + 1;
      }
    }

    method InsertRedemption(userId: Id, rewardId: Id, status: RedemptionStatus, accepted: bool)
      returns (error: bool)
      modifies this
      ensures error == !accepted
      ensures State() == if accepted then WithRedemption(old(State()), userId, rewardId, status) else old(State())
    {
      error := !accepted;
      if accepted {
        userRewards := userRewards + [RedemptionRow(clock, userId, rewardId, status)];
        clock := clock + 1;
      }
    }

    method UpdatePoints(id: Id, points: int, accepted: bool) returns (error: bool)
      modifies this
      ensures error == !accepted
      ensures State() == if accepted then WithPoints(old(State()), id, points) else old(State())
    {
      error := !accepted;
      if accepted {
        if id in profiles {
          profiles := profiles[id := profiles[id].(points := points)];
        }
        clock := clock + 1;
      }
    }

    method Increment(id: Id, x: int)
      modifies this
      ensures State() == WithIncrement(old(State()), id, x)
    {
      if id in profiles {
        profiles := profiles[id := profiles[id].(points := profiles[id].points + x)];
      }
      clock := clock + 1;
    }

    method InsertActivity(userId: Id, kind: ActivityType, points: int, description: string)
      modifies this
      ensures State() == WithActivity(old(State()), userId, kind, points, description)
    {
      activities := activities + [ActivityRow(clock, userId, kind, points, description)];
      clock := clock + 1;
    }

    method UpdateViews(contentId: Id, views: int)
      modifies this
      ensures State() == WithViews(old(State()), contentId, views)
    {
      contents := SetViews(contents, contentId, views);
      clock := clock + 1;
    }

    method InsertInteraction(userId: Id, contentId: Id, kind: InteractionType)
      modifies this
      ensures State() == WithInteraction(old(State()), userId, contentId, kind)
    {
      interactions := interactions + [InteractionRow(clock, userId, contentId, kind)];
      clock := clock + 1;
    }

    method DeleteInteraction(id: Id)
      modifies this
      ensures State() == WithoutInteraction(old(State()), id)
    {
      interactions := InteractionsExcept(interactions, id);
      clock := clock + 1;
    }
  }
}
