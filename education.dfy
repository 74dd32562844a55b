/**
 * The educational-content page: the published listing, the category filter,
 * the first-view credit and the like toggle.
 */
module Education {
  import opened Types
  import opened Query
  import opened Store

  /** Points written on the `educacion` activity of a first view. */
  const ViewPoints: int := 5

  function ContentCreatedAt(c: EducationalContent): int { c.createdAt }

  function IsPublished(c: EducationalContent): bool { c.isPublished }

  /** `select('*').eq('is_published', true).order('created_at', { ascending: false })` */
  function PublishedNewestFirst(t: Tables): (r: seq<EducationalContent>)
    ensures forall c :: c in r <==> c in t.contents && c.isPublished
    ensures SortedDesc(r, ContentCreatedAt)
    ensures multiset(r) == multiset(Filter(t.contents, IsPublished))
  {
    SortDesc(Filter(t.contents, IsPublished), ContentCreatedAt)
  }

  function InCategory(category: ContentCategory): EducationalContent -> bool
  {
    (c: EducationalContent) => c.category == category
  }

  /** `filteredContents`: every item for 'all', otherwise the items of that category in list order. */
  function FilteredContents(contents: seq<EducationalContent>, filter: Choice<ContentCategory>)
    : (r: seq<EducationalContent>)
    ensures filter.All? ==> r == contents
    ensures filter.Only? ==> forall c :: c in r <==> c in contents && c.category == filter.value
    ensures IsSubsequence(r, contents)
  {
    SubsequenceReflexive(contents);
    if filter.All? then contents else Filter(contents, InCategory(filter.value))
  }

  // ---------------------------------------------------------------------
  // handleViewContent
  // ---------------------------------------------------------------------

  /** The description the activity of a first view carries: `Leyó: ${content.title}`. */
  function ViewDescription(content: EducationalContent): string
  {
    "Leyó: " + content.title
  }

  /** The user has a `view` row for this content item. */
  predicate HasViewed(t: Tables, userId: Id, contentId: Id)
  {
    |InteractionsOf(t.interactions, userId, contentId, View)| > 0
  }

  /**
   * handleViewContent on the store as a value. `content` is the record the
   * list passed in, so the new view count is that record's count plus one,
   * whatever the table holds by then.
   */
  function ViewContent(t: Tables, userId: Id, content: EducationalContent): Tables
  {
    if MaybeSingle(InteractionsOf(t.interactions, userId, content.id, View)).Some? then t
    else
      var t1 := WithInteraction(t, userId, content.id, View);
      var t2 := WithViews(t1, content.id, content.views + 1);
      WithActivity(t2, userId, Educacion, ViewPoints, ViewDescription(content))
  }

  /**
   * A first view writes exactly one `view` row, sets the views of that content
   * item to the passed record's views plus one, appends exactly one `educacion`
   * activity worth 5, and touches nothing else.
   */
  lemma FirstViewCredits(t: Tables, userId: Id, content: EducationalContent)
    requires !HasViewed(t, userId, content.id)
    ensures var t' := ViewContent(t, userId, content);
      && t'.interactions == t.interactions + [InteractionRow(t.clock, userId, content.id, View)]
      && |InteractionsOf(t'.interactions, userId, content.id, View)| == 1
      && |t'.contents| == |t.contents|
      && (forall k :: 0 <= k < |t.contents| ==>
            t'.contents[k] == if t.contents[k].id == content.id
                              then t.contents[k].(views := content.views + 1)
                              else t.contents[k])
      && t'.activities == t.activities + [ActivityRow(t.clock + 2, userId, Educacion, 5, ViewDescription(content))]
      && t'.profiles == t.profiles && t'.reports == t.reports && t'.reportUpdates == t.reportUpdates
      && t'.rewards == t.rewards && t'.userRewards == t.userRewards
  {
    InteractionsOfAppend(t.interactions, InteractionRow(t.clock, userId, content.id, View), userId, content.id, View);
  }

  /** In a valid store, a view writes nothing exactly when the user has viewed the item before. */
  lemma ViewIsNoOpIffViewed(t: Tables, userId: Id, content: EducationalContent)
    requires Valid(t)
    ensures ViewContent(t, userId, content) == t <==> HasViewed(t, userId, content.id)
  {
    assert |InteractionsOf(t.interactions, userId, content.id, View)| <= 1;
    if !HasViewed(t, userId, content.id) {
      assert ViewContent(t, userId, content).clock == t.clock + 3;
    }
  }

  /** Viewing twice is viewing once: views rise by one and one activity is added, in total. */
  lemma ViewTwiceIsViewOnce(t: Tables, userId: Id, content: EducationalContent)
    requires Valid(t)
    ensures ViewContent(ViewContent(t, userId, content), userId, content) == ViewContent(t, userId, content)
  {
    if !HasViewed(t, userId, content.id) {
      FirstViewCredits(t, userId, content);
    } else {
      assert |InteractionsOf(t.interactions, userId, content.id, View)| <= 1;
    }
  }

  /**
   * The count written comes from the record the page holds, not from the
   * table: a record older than the table lowers the stored count.
   */
  lemma StaleRecordLowersViews(t: Tables, userId: Id, content: EducationalContent, k: nat)
    requires !HasViewed(t, userId, content.id)
    requires k < |t.contents| && t.contents[k].id == content.id
    requires content.views + 1 < t.contents[k].views
    ensures ViewContent(t, userId, content).contents[k].views < t.contents[k].views
  {
    FirstViewCredits(t, userId, content);
  }

  /**
   * Two users who open the item from the same listed record both get a view
   * row, but the second write repeats the first one's count: two first views
   * raise the stored count by one.
   */
  lemma TwoViewersFromOneRecordCountOnce(t: Tables, u1: Id, u2: Id, content: EducationalContent, k: nat)
    requires u1 != u2 && !HasViewed(t, u1, content.id) && !HasViewed(t, u2, content.id)
    requires k < |t.contents| && t.contents[k] == content
    ensures var t2 := ViewContent(ViewContent(t, u1, content), u2, content);
      && HasViewed(t2, u1, content.id) && HasViewed(t2, u2, content.id)
      && t2.contents[k].views == t.contents[k].views + 1
  {
    var t1 := ViewContent(t, u1, content);
    FirstViewCredits(t, u1, content);
    InteractionsOfAppend(t.interactions, InteractionRow(t.clock, u1, content.id, View), u2, content.id, View);
    FirstViewCredits(t1, u2, content);
    InteractionsOfAppend(t1.interactions, InteractionRow(t1.clock, u2, content.id, View), u1, content.id, View);
  }

  lemma ViewContentPreservesValid(t: Tables, userId: Id, content: EducationalContent)
    requires Valid(t)
    ensures Valid(ViewContent(t, userId, content))
  {
    if !HasViewed(t, userId, content.id) {
      var row := InteractionRow(t.clock, userId, content.id, View);
      var t' := ViewContent(t, userId, content);
      assert t'.interactions == t.interactions + [row];
      forall u: Id, c: Id ensures |InteractionsOf(t'.interactions, u, c, View)| <= 1 {
        InteractionsOfAppend(t.interactions, row, u, c, View);
      }
      forall u: Id, c: Id ensures |InteractionsOf(t'.interactions, u, c, Like)| <= 1 {
        InteractionsOfAppend(t.interactions, row, u, c, Like);
      }
    }
  }

  // ---------------------------------------------------------------------
  // handleLike
  // ---------------------------------------------------------------------

  predicate Liked(t: Tables, userId: Id, contentId: Id)
  {
    |InteractionsOf(t.interactions, userId, contentId, Like)| > 0
  }

  /** handleLike on the store as a value: delete the like row found, or insert one. */
  function ToggleLike(t: Tables, userId: Id, content: EducationalContent): Tables
  {
    var existing := MaybeSingle(InteractionsOf(t.interactions, userId, content.id, Like));
    if existing.Some? then WithoutInteraction(t, existing.value.id)
    else WithInteraction(t, userId, content.id, Like)
  }

  /** Removing the only like row of a pair leaves the pair without likes. */
  lemma DeleteOnlyLike(rows: seq<ContentInteraction>, userId: Id, contentId: Id)
    requires |InteractionsOf(rows, userId, contentId, Like)| == 1
    ensures var e := InteractionsOf(rows, userId, contentId, Like)[0];
      |InteractionsOf(InteractionsExcept(rows, e.id), userId, contentId, Like)| == 0
  {
    var likes := InteractionsOf(rows, userId, contentId, Like);
    var e := likes[0];
    var left := InteractionsOf(InteractionsExcept(rows, e.id), userId, contentId, Like);
    assert likes == [e];
    assert forall x :: x in left ==> x in likes && x.id != e.id;
  }

  /** In a valid store a like toggles: liked afterwards exactly when not liked before. */
  lemma LikeToggles(t: Tables, userId: Id, content: EducationalContent)
    requires Valid(t)
    ensures Liked(ToggleLike(t, userId, content), userId, content.id) == !Liked(t, userId, content.id)
  {
    assert |InteractionsOf(t.interactions, userId, content.id, Like)| <= 1;
    if Liked(t, userId, content.id) {
      DeleteOnlyLike(t.interactions, userId, content.id);
    } else {
      InteractionsOfAppend(t.interactions, InteractionRow(t.clock, userId, content.id, Like),
                           userId, content.id, Like);
    }
  }

  lemma ToggleLikePreservesValid(t: Tables, userId: Id, content: EducationalContent)
    requires Valid(t)
    ensures Valid(ToggleLike(t, userId, content))
  {
    var t' := ToggleLike(t, userId, content);
    assert |InteractionsOf(t.interactions, userId, content.id, Like)| <= 1;
    if Liked(t, userId, content.id) {
      var e := InteractionsOf(t.interactions, userId, content.id, Like)[0];
      assert t'.interactions == InteractionsExcept(t.interactions, e.id);
      FilterKeepsDistinctIds(t.interactions, IdDiffers(e.id));
      forall k | 0 <= k < |t'.interactions| ensures t'.interactions[k].id < t'.clock {
        assert t'.interactions[k] in t.interactions;
      }
      forall u: Id, c: Id ensures |InteractionsOf(t'.interactions, u, c, View)| <= 1 {
        InteractionsOfExcept(t.interactions, e.id, u, c, View);
      }
      forall u: Id, c: Id ensures |InteractionsOf(t'.interactions, u, c, Like)| <= 1 {
        InteractionsOfExcept(t.interactions, e.id, u, c, Like);
      }
    } else {
      var row := InteractionRow(t.clock, userId, content.id, Like);
      assert t'.interactions == t.interactions + [row];
      forall u: Id, c: Id ensures |InteractionsOf(t'.interactions, u, c, View)| <= 1 {
        InteractionsOfAppend(t.interactions, row, u, c, View);
      }
      forall u: Id, c: Id ensures |InteractionsOf(t'.interactions, u, c, Like)| <= 1 {
        InteractionsOfAppend(t.interactions, row, u, c, Like);
        if u == userId && c == content.id {
          assert |InteractionsOf(t.interactions, u, c, Like)| == 0;
        }
      }
    }
  }

  /**
   * Two toggles in a row restore the like state; when there was no like, they
   * restore the interactions table itself.
   */
  lemma LikeTwiceRestores(t: Tables, userId: Id, content: EducationalContent)
    requires Valid(t)
    ensures var t'' := ToggleLike(ToggleLike(t, userId, content), userId, content);
      && Liked(t'', userId, content.id) == Liked(t, userId, content.id)
      && (!Liked(t, userId, content.id) ==> t''.interactions == t.interactions)
  {
    var t' := ToggleLike(t, userId, content);
    LikeToggles(t, userId, content);
    ToggleLikePreservesValid(t, userId, content);
    LikeToggles(t', userId, content);
    if !Liked(t, userId, content.id) {
      var row := InteractionRow(t.clock, userId, content.id, Like);
      assert t'.interactions == t.interactions + [row];
      InteractionsOfAppend(t.interactions, row, userId, content.id, Like);
      assert InteractionsOf(t'.interactions, userId, content.id, Like) == [row];
      FilterAppend(t.interactions, row, IdDiffers(t.clock));
      FilterAllPass(t.interactions, IdDiffers(t.clock));
    }
  }

  /** Liking never changes view counts, activities, balances or any other table. */
  lemma LikeTouchesOnlyInteractions(t: Tables, userId: Id, content: EducationalContent)
    ensures var t' := ToggleLike(t, userId, content);
      t' == t.(interactions := t'.interactions, clock := t.clock + 1)
  {
  }

  /**
   * In a valid store a like never touches view rows: the like it deletes is the
   * only row with that id. So nobody's viewed state changes, and no first-view
   * credit can be earned a second time.
   */
  lemma LikeKeepsViews(t: Tables, userId: Id, content: EducationalContent, u: Id, c: Id)
    requires Valid(t)
    ensures InteractionsOf(ToggleLike(t, userId, content).interactions, u, c, View)
         == InteractionsOf(t.interactions, u, c, View)
  {
    var likes := InteractionsOf(t.interactions, userId, content.id, Like);
    assert |likes| <= 1;
    if Liked(t, userId, content.id) {
      var e := likes[0];
      assert e in t.interactions && e.interactionType == Like;
      forall x | x in t.interactions && x.id == e.id ensures !PairMatches(u, c, View)(x) {
        var i :| 0 <= i < |t.interactions| && t.interactions[i] == x;
        var j :| 0 <= j < |t.interactions| && t.interactions[j] == e;
        assert i == j;
      }
      ExceptKeepsOthers(t.interactions, e.id, PairMatches(u, c, View));
    } else {
      InteractionsOfAppend(t.interactions, InteractionRow(t.clock, userId, content.id, Like), u, c, View);
    }
  }

  // ---------------------------------------------------------------------
  // The ledger on the first view
  // ---------------------------------------------------------------------

  /**
   * As written, a first view records an activity worth 5 but never changes the
   * stored balance, so balance minus recorded credits falls by 5.
   */
  lemma FirstViewLeavesBalanceBehind(t: Tables, userId: Id, content: EducationalContent)
    requires !HasViewed(t, userId, content.id)
    ensures Drift(ViewContent(t, userId, content), userId) == Drift(t, userId) - ViewPoints
  {
    FirstViewCredits(t, userId, content);
    CreditsAppend(t.activities, ActivityRow(t.clock + 2, userId, Educacion, 5, ViewDescription(content)), userId);
  }

  /** The first view with the credit also applied to the balance, as report creation does. */
  function ViewContentCredited(t: Tables, userId: Id, content: EducationalContent): Tables
  {
    if MaybeSingle(InteractionsOf(t.interactions, userId, content.id, View)).Some? then t
    else WithIncrement(ViewContent(t, userId, content), userId, ViewPoints)
  }

  /** With the credit applied, the ledger stays balanced and a first view pays exactly 5. */
  lemma ViewContentCreditedKeepsDrift(t: Tables, userId: Id, content: EducationalContent)
    requires Valid(t) && userId in t.profiles
    ensures Drift(ViewContentCredited(t, userId, content), userId) == Drift(t, userId)
    ensures PointsOf(ViewContentCredited(t, userId, content), userId)
         == PointsOf(t, userId) + (if HasViewed(t, userId, content.id) then 0 else ViewPoints)
  {
    assert |InteractionsOf(t.interactions, userId, content.id, View)| <= 1;
    if !HasViewed(t, userId, content.id) {
      var t1 := ViewContent(t, userId, content);
      FirstViewLeavesBalanceBehind(t, userId, content);
      FirstViewCredits(t, userId, content);
      var t2 := WithIncrement(t1, userId, ViewPoints);
      assert t2.activities == t1.activities && t2.userRewards == t1.userRewards && t2.rewards == t1.rewards;
      assert PointsOf(t2, userId) == PointsOf(t1, userId) + ViewPoints;
    }
  }

  lemma ViewContentCreditedPreservesValid(t: Tables, userId: Id, content: EducationalContent)
    requires Valid(t)
    ensures Valid(ViewContentCredited(t, userId, content))
  {
    ViewContentPreservesValid(t, userId, content);
  }

  // ---------------------------------------------------------------------
  // The page as an object
  // ---------------------------------------------------------------------

  /** The page's state: the listed contents, the busy flag, the open item and the category selector. */
  class Page {
    var contents: seq<EducationalContent>
    var loading: bool
    var selected: Option<EducationalContent>
    var categoryFilter: Choice<ContentCategory>

    constructor ()
      ensures contents == [] && loading && selected.None? && categoryFilter.All?
    {
      contents := [];
      loading := true;
      selected := None;
      categoryFilter := All;
    }

    /** The cards on screen. */
    function Shown(): seq<EducationalContent>
      reads this
    {
      FilteredContents(contents, categoryFilter)
    }

    /** fetchContents: the list is replaced only when the query succeeds. */
    method FetchContents(db: Backend, ok: bool)
      modifies this
      ensures contents == if ok then PublishedNewestFirst(db.State()) else old(contents)
      ensures !loading && selected == old(selected) && categoryFilter == old(categoryFilter)
    {
      loading := true;
      if ok {
        contents := SortDesc(Filter(db.contents, IsPublished), ContentCreatedAt);
      }
      loading := false;
    }

    /**
     * handleViewContent by `userId`: the item opens at once; the writes follow
     * and, after a first view, the list is fetched again (`refreshOk`).
     */
    method HandleViewContent(db: Backend, userId: Id, content: EducationalContent, refreshOk: bool)
      requires Valid(db.State())
      modifies this, db
      ensures db.State() == ViewContent(old(db.State()), userId, content)
      ensures Valid(db.State())
      ensures selected == Some(content) && categoryFilter == old(categoryFilter)
      ensures contents == if !HasViewed(old(db.State()), userId, content.id) && refreshOk
                          then PublishedNewestFirst(db.State()) else old(contents)
      ensures loading == if HasViewed(old(db.State()), userId, content.id) then old(loading) else false
    {
      ghost var before := db.State();
      ViewContentPreservesValid(before, userId, content);
      assert |InteractionsOf(before.interactions, userId, content.id, View)| <= 1;
      selected := Some(content);
      var existing := MaybeSingle(InteractionsOf(db.interactions, userId, content.id, View));
      if existing.None? {
        db.InsertInteraction(userId, content.id, View);
        db.UpdateViews(content.id, content.views + 1);
        db.InsertActivity(userId, Educacion, ViewPoints, ViewDescription(content));
        FetchContents(db, refreshOk);
      }
    }

    /** handleLike by `userId`, followed by fetching the list again (`refreshOk`). */
    method HandleLike(db: Backend, userId: Id, content: EducationalContent, refreshOk: bool)
      requires Valid(db.State())
      modifies this, db
      ensures db.State() == ToggleLike(old(db.State()), userId, content)
      ensures Valid(db.State())
      ensures Liked(db.State(), userId, content.id) == !Liked(old(db.State()), userId, content.id)
      ensures contents == if refreshOk then PublishedNewestFirst(db.State()) else old(contents)
      ensures !loading
      ensures selected == old(selected) && categoryFilter == old(categoryFilter)
    {
      ghost var before := db.State();
      ToggleLikePreservesValid(before, userId, content);
      LikeToggles(before, userId, content);
      var existing := MaybeSingle(InteractionsOf(db.interactions, userId, content.id, Like));
      if existing.Some? {
        db.DeleteInteraction(existing.value.id);
      } else {
        db.InsertInteraction(userId, content.id, Like);
      }
      FetchContents(db, refreshOk);
    }

    /** handleViewContent with the balance credited through `increment`, as handleSubmit does. */
    method HandleViewContentCredited(db: Backend, userId: Id, content: EducationalContent, refreshOk: bool)
      requires Valid(db.State())
      modifies this, db
      ensures db.State() == ViewContentCredited(old(db.State()), userId, content)
      ensures Valid(db.State())
      ensures selected == Some(content) && categoryFilter == old(categoryFilter)
      ensures contents == if !HasViewed(old(db.State()), userId, content.id) && refreshOk
                          then PublishedNewestFirst(db.State()) else old(contents)
      ensures loading == if HasViewed(old(db.State()), userId, content.id) then old(loading) else false
    {
      ghost var before := db.State();
      ViewContentCreditedPreservesValid(before, userId, content);
      assert |InteractionsOf(before.interactions, userId, content.id, View)| <= 1;
      selected := Some(content);
      var existing := MaybeSingle(InteractionsOf(db.interactions, userId, content.id, View));
      if existing.None? {
        db.InsertInteraction(userId, content.id, View);
        db.UpdateViews(content.id, content.views + 1);
        db.InsertActivity(userId, Educacion, ViewPoints, ViewDescription(content));
        db.Increment(userId, ViewPoints);
        FetchContents(db, refreshOk);
      }
    }
  }
}
