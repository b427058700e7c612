/**
 * The records the review core reads: post status, built-in tags, user rights,
 * reject reasons and the user row whose statistics are recalculated.
 */
module Domain {
  import opened Wrappers

  /**
   * `EPostStatus`. Only `Reviewing` accepts further moderation. The numeric
   * codes of the enum are not part of this model; `Expired` is the one status
   * whose code is negative.
   */
  datatype PostStatus =
    | Reviewing
    | Accepted
    | AcceptedSecond
    | Rejected
    | ReviewTimeout
    | ConfirmTimeout
    | Cancel
    | Expired
  {
    /** `status < 0` in a database query. */
    predicate Negative() {
      Expired?
    }
  }

  /** The `BuildInTags` flags the review keyboards toggle. */
  datatype Tag = NSFW | Friend | WanAn

  /** The `EUserRights` flags that the modelled commands test. */
  datatype UserRight = ReviewPost | SuperCmd | OtherRight(name: string)

  /**
   * `RejectReasons`: a catalogue entry carries its callback payload; a reason
   * typed with the `NO` command has none.
   */
  datatype RejectReason = RejectReason(payload: Option<string>, name: string, fullText: string)

  /** The five statistics kept on a user row. */
  datatype Tally = Tally(posts: int, accepted: int, rejected: int, expired: int, reviewed: int)

  /** A row of the user table (`Users`). */
  class User {
    /** Row id, the key `GetUserListAfterId` pages by. */
    const Id: int
    /** Platform user id, the key posts refer to. */
    const UserID: int
    const Right: set<UserRight>
    var PostCount: int
    var AcceptCount: int
    var RejectCount: int
    var ExpiredPostCount: int
    var ReviewCount: int

    constructor (id: int, userId: int, right: set<UserRight>, stats: Tally)
      ensures Id == id && UserID == userId && Right == right && Stats() == stats
    {
      Id, UserID, Right := id, userId, right;
      PostCount, AcceptCount, RejectCount := stats.posts, stats.accepted, stats.rejected;
      ExpiredPostCount, ReviewCount := stats.expired, stats.reviewed;
    }

    function Stats(): Tally
      reads this
    {
      Tally(PostCount, AcceptCount, RejectCount, ExpiredPostCount, ReviewCount)
    }

    /**
     * The per-user body of the recalculation: store `counted` when any of the
     * five stored counts differs from it, and report whether it did.
     */
    method Refresh(counted: Tally) returns (changed: bool)
      modifies this
      ensures Stats() == counted
      ensures changed <==> old(Stats()) != counted
    {
      changed := PostCount != counted.posts || AcceptCount != counted.accepted
        || RejectCount != counted.rejected || ExpiredPostCount != counted.expired
        || ReviewCount != counted.reviewed;
      if changed {
        PostCount := counted.posts;
        AcceptCount := counted.accepted;
        RejectCount := counted.rejected;
        ExpiredPostCount := counted.expired;
        ReviewCount := counted.reviewed;
      }
    }
  }
}
