/**
 * The `RECALCPOST` command of `SuperCommand`: recount every user's post
 * statistics from the post table, page by page, and store the ones that
 * changed.
 */
module PostRecount {
  import opened Domain

  /** The columns of a post row that the recalculation counts by. */
  datatype PostRow = PostRow(posterUid: int, reviewerUid: int, status: PostStatus)

  /** The five statistics, each a predicate on a post row and a user id. */
  datatype CountKind = Posted | AcceptedPosts | RejectedPosts | ExpiredPosts | Reviewed

  predicate Matches(p: PostRow, kind: CountKind, uid: int) {
    match kind
    case Posted => p.posterUid == uid
    case AcceptedPosts => p.posterUid == uid && (p.status == Accepted || p.status == AcceptedSecond)
    case RejectedPosts => p.posterUid == uid && p.status == Rejected
    case ExpiredPosts => p.posterUid == uid && p.status.Negative()
    case Reviewed => p.reviewerUid == uid && p.posterUid != uid
  }

  /** How many rows match: `CountAsync` of the predicate. */
  function Count(rows: seq<PostRow>, kind: CountKind, uid: int): (c: nat)
    ensures c <= |rows|
  {
    if |rows| == 0 then 0
    else (if Matches(rows[0], kind, uid) then 1 else 0) + Count(rows[1..], kind, uid)
  }

  /** A count is zero exactly when no row matches. */
  lemma {:induction false} CountZero(rows: seq<PostRow>, kind: CountKind, uid: int)
    ensures Count(rows, kind, uid) == 0 <==> forall i :: 0 <= i < |rows| ==> !Matches(rows[i], kind, uid)
    decreases |rows|
  {
    if |rows| > 0 {
      CountZero(rows[1..], kind, uid);
      assert forall i :: 1 <= i < |rows| ==> rows[i] == rows[1..][i - 1];
    }
  }

  /** A count is the number of rows exactly when every row matches. */
  lemma {:induction false} CountAll(rows: seq<PostRow>, kind: CountKind, uid: int)
    ensures Count(rows, kind, uid) == |rows| <==> forall i :: 0 <= i < |rows| ==> Matches(rows[i], kind, uid)
    decreases |rows|
  {
    if |rows| > 0 {
      CountAll(rows[1..], kind, uid);
      assert forall i :: 1 <= i < |rows| ==> rows[i] == rows[1..][i - 1];
    }
  }

  lemma {:induction false} CountConcat(a: seq<PostRow>, b: seq<PostRow>, kind: CountKind, uid: int)
    ensures Count(a + b, kind, uid) == Count(a, kind, uid) + Count(b, kind, uid)
    decreases |a|
  {
    if |a| == 0 {
      assert a + b == b;
    } else {
      assert (a + b)[0] == a[0];
      assert (a + b)[1..] == a[1..] + b;
      CountConcat(a[1..], b, kind, uid);
    }
  }

  /** Accepted, rejected and expired posts are disjoint parts of a user's posts. */
  lemma {:induction false} OutcomesWithinPosts(rows: seq<PostRow>, uid: int)
    ensures Count(rows, AcceptedPosts, uid) + Count(rows, RejectedPosts, uid) + Count(rows, ExpiredPosts, uid)
      <= Count(rows, Posted, uid)
    decreases |rows|
  {
    if |rows| > 0 {
      OutcomesWithinPosts(rows[1..], uid);
    }
  }

  /** A user's own posts never count as reviewed by them. */
  lemma {:induction false} ReviewsExcludeOwnPosts(rows: seq<PostRow>, uid: int)
    ensures Count(rows, Reviewed, uid) + Count(rows, Posted, uid) <= |rows|
    decreases |rows|
  {
    if |rows| > 0 {
      ReviewsExcludeOwnPosts(rows[1..], uid);
    }
  }

  /** The statistics the recalculation stores for a user. */
  function Counted(rows: seq<PostRow>, uid: int): (t: Tally)
    ensures t.accepted + t.rejected + t.expired <= t.posts
    ensures t.reviewed + t.posts <= |rows|
    ensures 0 <= t.accepted && 0 <= t.rejected && 0 <= t.expired && 0 <= t.reviewed
  {
    OutcomesWithinPosts(rows, uid);
    ReviewsExcludeOwnPosts(rows, uid);
    Tally(Count(rows, Posted, uid), Count(rows, AcceptedPosts, uid), Count(rows, RejectedPosts, uid),
      Count(rows, ExpiredPosts, uid), Count(rows, Reviewed, uid))
  }

  /** A row of the user table as the database holds it. */
  datatype UserRecord = UserRecord(id: int, userId: int, stats: Tally)

  function Ids(records: seq<UserRecord>): (ids: seq<int>)
    ensures |ids| == |records|
    ensures forall k :: 0 <= k < |records| ==> ids[k] == records[k].id
  {
    seq(|records|, k requires 0 <= k < |records| => records[k].id)
  }

  /** The user table behind `IUserService`. */
  class UserTable {
    var records: seq<UserRecord>

    constructor (records: seq<UserRecord>)
      ensures this.records == records
    {
      this.records := records;
    }

    /** `CountUser`. */
    function CountUser(): nat
      reads this
    {
      |records|
    }

    /** `UpdateUserPostCount(user)`: write the user's five statistics back to its row. */
    method UpdateUserPostCount(k: nat, user: User)
      requires k < |records| && user.Id == records[k].id
      modifies this
      ensures records == old(records)[k := old(records)[k].(stats := user.Stats())]
    {
      records := records[k := records[k].(stats := user.Stats())];
    }
  }

  /** The `threads` constant: users per page. */
  const PageSize: nat := 10

  /**
   * `GetUserListAfterId(startId, n)`: the positions of the first `n` rows, in
   * table order from position `from`, whose id is at least `startId`.
   */
  function PageFrom(ids: seq<int>, startId: int, n: nat, from: nat): (r: seq<nat>)
    ensures |r| <= n
    ensures forall j :: 0 <= j < |r| ==> from <= r[j] < |ids| && ids[r[j]] >= startId
    decreases |ids| - from
  {
    if n == 0 || from >= |ids| then []
    else if ids[from] >= startId then [from] + PageFrom(ids, startId, n - 1, from + 1)
    else PageFrom(ids, startId, n, from + 1)
  }

  function Page(ids: seq<int>, startId: int): seq<nat> {
    PageFrom(ids, startId, PageSize, 0)
  }

  /** `mask` with every position `page` lists set. */
  function Mark(mask: seq<bool>, page: seq<nat>): (r: seq<bool>)
    ensures |r| == |mask|
    ensures forall k :: 0 <= k < |mask| ==> r[k] == (mask[k] || k in page)
  {
    seq(|mask|, k requires 0 <= k < |mask| => mask[k] || k in page)
  }

  /** The positions the pages starting at `1, 1 + PageSize, …` below `startId` list. */
  function Covered(ids: seq<int>, startId: int): (r: seq<bool>)
    ensures |r| == |ids|
    decreases startId
  {
    if startId <= 1 then seq(|ids|, _ => false)
    else Mark(Covered(ids, startId - PageSize), Page(ids, startId - PageSize))
  }

  lemma CoveredStep(ids: seq<int>, s: int)
    requires s >= 1
    ensures Covered(ids, s + PageSize) == Mark(Covered(ids, s), Page(ids, s))
  {
    assert s + PageSize - PageSize == s;
  }

  /** The table after the rows at the marked positions have been recounted from `posts`. */
  function Recounted(records: seq<UserRecord>, posts: seq<PostRow>, mask: seq<bool>): (r: seq<UserRecord>)
    requires |mask| == |records|
    ensures |r| == |records| && Ids(r) == Ids(records)
  {
    seq(|records|, k requires 0 <= k < |records| =>
      if mask[k] then records[k].(stats := Counted(posts, records[k].userId)) else records[k])
  }

  /** A row whose stored statistics differ from the recount. */
  predicate IsStale(record: UserRecord, posts: seq<PostRow>) {
    record.stats != Counted(posts, record.userId)
  }

  /** How many marked positions hold stale statistics. */
  function StaleCount(records: seq<UserRecord>, posts: seq<PostRow>, mask: seq<bool>): (c: nat)
    requires |mask| == |records|
    ensures c <= |records|
    decreases |records|
  {
    if |records| == 0 then 0
    else
      var n := |records| - 1;
      StaleCount(records[..n], posts, mask[..n]) + (if mask[n] && IsStale(records[n], posts) then 1 else 0)
  }

  /** Marking one more position adds one to the count exactly when that row was unmarked and stale. */
  lemma {:induction false} StaleCountMark(records: seq<UserRecord>, posts: seq<PostRow>, mask: seq<bool>, k: nat)
    requires |mask| == |records| && k < |records|
    ensures StaleCount(records, posts, mask[k := true])
      == StaleCount(records, posts, mask) + (if !mask[k] && IsStale(records[k], posts) then 1 else 0)
    decreases |records|
  {
    var n := |records| - 1;
    if k < n {
      assert mask[k := true][..n] == mask[..n][k := true];
      StaleCountMark(records[..n], posts, mask[..n], k);
    } else {
      assert mask[k := true][..n] == mask[..n];
    }
  }

  /** Listing one more position of a page marks that position. */
  lemma MarkNext(mask: seq<bool>, page: seq<nat>, i: nat)
    requires i < |page| && page[i] < |mask|
    ensures Mark(mask, page[..i + 1]) == Mark(mask, page[..i])[page[i] := true]
  {
    assert page[..i + 1] == page[..i] + [page[i]];
  }

  /** One user of a page: the table and the count after the user is recounted. */
  lemma RecountStep(start: seq<UserRecord>, posts: seq<PostRow>, done: seq<bool>, k: nat, differs: bool)
    requires |done| == |start| && k < |start|
    requires differs <==> IsStale(Recounted(start, posts, done)[k], posts)
    ensures Recounted(start, posts, done[k := true])
      == Recounted(start, posts, done)[k := start[k].(stats := Counted(posts, start[k].userId))]
    ensures !differs ==> Recounted(start, posts, done[k := true]) == Recounted(start, posts, done)
    ensures StaleCount(start, posts, done[k := true]) == StaleCount(start, posts, done) + (if differs then 1 else 0)
  {
    StaleCountMark(start, posts, done, k);
  }

  /**
   * One page: load each listed user, refresh its statistics in memory and
   * write it back when any of the five differs; `count` is the number of
   * users written.
   */
  method RefreshPage(db: UserTable, posts: seq<PostRow>, page: seq<nat>, ghost start: seq<UserRecord>, ghost mask: seq<bool>)
    returns (count: nat)
    requires |mask| == |start|
    requires forall j :: 0 <= j < |page| ==> page[j] < |start|
    requires db.records == Recounted(start, posts, mask)
    modifies db
    ensures db.records == Recounted(start, posts, Mark(mask, page))
    ensures StaleCount(start, posts, Mark(mask, page)) == StaleCount(start, posts, mask) + count
  {
    count := 0;
    var i := 0;
    ghost var done := mask;
    assert Mark(mask, page[..0]) == mask;
    while i < |page|
      invariant 0 <= i <= |page|
      invariant done == Mark(mask, page[..i])
      invariant db.records == Recounted(start, posts, done)
      invariant StaleCount(start, posts, done) == StaleCount(start, posts, mask) + count
    {
      var k := page[i];
      var record := db.records[k];
      var user := new User(record.id, record.userId, {}, record.stats);
      var differs := user.Refresh(Counted(posts, user.UserID));
      RecountStep(start, posts, done, k, differs);
      if differs {
        db.UpdateUserPostCount(k, user);
        count := count + 1;
      }
      MarkNext(mask, page, i);
      done := done[k := true];
      i := i + 1;
    }
    assert page[..i] == page;
  }

  /**
   * `RECALCPOST`, one user at a time: page through the user table ten rows
   * at a time, recount each listed user's statistics from `posts` and store
   * the ones that changed. The table ends up recounted at exactly the
   * positions the pages listed, and `effectCount` is the number of those
   * whose stored statistics were stale. `pages` is the number of pages
   * fetched; the loop ends when the next page would start past the user count
   * or came back empty.
   */
  method ReCalcPost(db: UserTable, posts: seq<PostRow>)
    returns (effectCount: nat, ghost visited: seq<bool>, ghost pages: nat)
    modifies db
    ensures visited == Covered(Ids(old(db.records)), 1 + PageSize * pages)
    ensures 1 + PageSize * pages > |db.records| || Page(Ids(db.records), 1 + PageSize * pages) == []
    ensures db.records == Recounted(old(db.records), posts, visited)
    ensures effectCount == StaleCount(old(db.records), posts, visited)
  {
    ghost var start := db.records;
    ghost var ids := Ids(start);
    var startId := 1;
    effectCount := 0;
    var totalUsers := db.CountUser();
    visited, pages := Covered(ids, 1), 0;
    NothingMarked(start, posts);
    while startId <= totalUsers
      invariant startId == 1 + PageSize * pages
      invariant totalUsers == |start|
      invariant visited == Covered(ids, startId)
      invariant db.records == Recounted(start, posts, visited)
      invariant effectCount == StaleCount(start, posts, visited)
      decreases totalUsers - startId
    {
      var users := Page(Ids(db.records), startId);
      if |users| == 0 {
        break;
      }
      CoveredStep(ids, startId);
      var count := RefreshPage(db, posts, users, start, visited);
      visited := Mark(visited, users);
      effectCount := effectCount + count;
      startId := startId + PageSize;
      pages := pages + 1;
    }
  }

  /** Before the first page nothing is marked: the table is as it was and nothing counts. */
  lemma NothingMarked(records: seq<UserRecord>, posts: seq<PostRow>)
    ensures Recounted(records, posts, Covered(Ids(records), 1)) == records
    ensures StaleCount(records, posts, Covered(Ids(records), 1)) == 0
  {
    assert Covered(Ids(records), 1) == seq(|records|, _ => false);
    NothingStaleUnmarked(records, posts);
  }

  lemma {:induction false} NothingStaleUnmarked(records: seq<UserRecord>, posts: seq<PostRow>)
    ensures StaleCount(records, posts, seq(|records|, _ => false)) == 0
    decreases |records|
  {
    if |records| > 0 {
      var n := |records| - 1;
      assert seq(|records|, _ => false)[..n] == seq(n, _ => false);
      NothingStaleUnmarked(records[..n], posts);
    }
  }

  /** Recounting twice is recounting once. */
  lemma RecountIdempotent(records: seq<UserRecord>, posts: seq<PostRow>, mask: seq<bool>)
    requires |mask| == |records|
    ensures Recounted(Recounted(records, posts, mask), posts, mask) == Recounted(records, posts, mask)
  {
  }

  /** After a recount no marked row is stale, so a second run stores nothing. */
  lemma {:induction false} RecountLeavesNothingStale(records: seq<UserRecord>, posts: seq<PostRow>, mask: seq<bool>)
    requires |mask| == |records|
    ensures StaleCount(Recounted(records, posts, mask), posts, mask) == 0
    decreases |records|
  {
    if |records| > 0 {
      var n := |records| - 1;
      assert Recounted(records, posts, mask)[..n] == Recounted(records[..n], posts, mask[..n]);
      RecountLeavesNothingStale(records[..n], posts, mask[..n]);
    }
  }

  /** Row ids ascend strictly in table order, as the paging assumes. */
  predicate Ascending(ids: seq<int>) {
    forall i, j :: 0 <= i < j < |ids| ==> ids[i] < ids[j]
  }

  /** With all ids from `from` on at least `low`, a page from any start at or below `low` is the page from `low`. */
  lemma {:induction false} PageFromBelow(ids: seq<int>, s: int, low: int, n: nat, from: nat)
    requires s <= low
    requires forall k :: from <= k < |ids| ==> ids[k] >= low
    ensures PageFrom(ids, s, n, from) == PageFrom(ids, low, n, from)
    decreases |ids| - from
  {
    if n > 0 && from < |ids| {
      PageFromBelow(ids, s, low, if ids[from] >= s then n - 1 else n, from + 1);
    }
  }

  /** In an ascending table a page of `n` from `s` holds every position whose id is in `[s, s + n)`. */
  lemma {:induction false} PageHoldsRange(ids: seq<int>, s: int, n: nat, from: nat, k: nat)
    requires Ascending(ids)
    requires from <= k < |ids| && s <= ids[k] < s + n
    ensures k in PageFrom(ids, s, n, from)
    decreases k - from
  {
    if from < k {
      if ids[from] >= s {
        PageFromBelow(ids, s, ids[from] + 1, n - 1, from + 1);
        PageHoldsRange(ids, ids[from] + 1, n - 1, from + 1, k);
      } else {
        PageHoldsRange(ids, s, n, from + 1, k);
      }
    }
  }

  /** The first `p` pages hold every position whose id is in `[1, 1 + PageSize * p)`. */
  lemma {:induction false} CoveredRange(ids: seq<int>, p: nat, k: nat)
    requires Ascending(ids)
    requires k < |ids| && 1 <= ids[k] < 1 + PageSize * p
    ensures Covered(ids, 1 + PageSize * p)[k]
  {
    var s := 1 + PageSize * (p - 1);
    assert 1 + PageSize * p - PageSize == s;
    if ids[k] < s {
      CoveredRange(ids, p - 1, k);
    } else {
      PageHoldsRange(ids, s, PageSize, 0, k);
    }
  }

  /** A page from `s` comes back empty only when no row from `from` on has an id at or above `s`. */
  lemma {:induction false} EmptyPageNoneAbove(ids: seq<int>, s: int, n: nat, from: nat)
    requires n > 0 && PageFrom(ids, s, n, from) == []
    ensures forall k :: from <= k < |ids| ==> ids[k] < s
    decreases |ids| - from
  {
    if from < |ids| {
      EmptyPageNoneAbove(ids, s, n, from + 1);
    }
  }

  /**
   * When the recalculation ends, every user whose id lies between 1 and the
   * number of users has been recounted (ids beyond that exist only when the
   * id sequence has gaps, and may be missed).
   */
  lemma RecalcReachesEveryUser(ids: seq<int>, pages: nat)
    requires Ascending(ids)
    requires 1 + PageSize * pages > |ids| || Page(ids, 1 + PageSize * pages) == []
    ensures forall k :: 0 <= k < |ids| && 1 <= ids[k] <= |ids| ==> Covered(ids, 1 + PageSize * pages)[k]
  {
    forall k | 0 <= k < |ids| && 1 <= ids[k] <= |ids|
      ensures Covered(ids, 1 + PageSize * pages)[k]
    {
      if 1 + PageSize * pages <= |ids| {
        EmptyPageNoneAbove(ids, 1 + PageSize * pages, PageSize, 0);
      }
      CoveredRange(ids, pages, k);
    }
  }
}
