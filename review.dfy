/**
 * `ReviewCommand`: the callback handler behind the review keyboards and the
 * `NO` and `EDIT` moderator commands.
 *
 * Telegram calls become `Effect` values, in the order the handler issues
 * them. Calls into the post service, whose bodies are not part of this model,
 * are recorded as `Effect.Call` with their arguments; the two flag setters
 * are taken to store the new flag in the post object as well.
 */
module ReviewCommand {
  import opened Wrappers
  import opened Strings
  import opened Domain

  // ------------------------------------------------------------ the protocol

  /** How an accept button routes the post. */
  datatype AcceptMode = ToPlan | Publish | PublishSecond

  /** The `(inPlan, second)` arguments `AcceptPost` receives for a mode. */
  function AcceptArgs(mode: AcceptMode): (bool, bool) {
    match mode
    case ToPlan => (true, false)
    case Publish => (false, false)
    case PublishSecond => (false, true)
  }

  /** What a callback token asks for. */
  datatype Action =
    | ShowReasons
    | BackToReview
    | ToggleSpoiler
    | Accept(mode: AcceptMode)
    | ToggleAnonymous
    | CancelSubmission
    | SetTag(tagPayload: string)
    | RejectFor(reasonPayload: string)

  /**
   * The outcome of decoding: an action, a token the handler ignores, or the
   * token `"review tag"` itself, on which `data[11..]` is out of range.
   */
  datatype Decoded = Known(action: Action) | Ignored | SliceOutOfRange

  /** The tokens the `switch` matches exactly. */
  const ExactTokens: set<string> := {
    "review reject", "reject back", "review reject back", "review spoiler", "review inplan",
    "review accept", "review accept second", "review anymouse", "review cancel"
  }

  /**
   * Decode callback data: exact tokens first, then the `"review tag"` prefix
   * (payload from index 11) and the `"reject "` prefix (payload from index 7).
   */
  function Decode(data: string): (d: Decoded)
    ensures data in ExactTokens ==> d.Known?
    ensures d.Ignored? <==> data !in ExactTokens && !("review tag" <= data) && !("reject " <= data)
    ensures d.SliceOutOfRange? <==> data == "review tag"
  {
    if data == "review reject" then Known(ShowReasons)
    else if data == "reject back" || data == "review reject back" then Known(BackToReview)
    else if data == "review spoiler" then Known(ToggleSpoiler)
    else if data == "review inplan" then Known(Accept(ToPlan))
    else if data == "review accept" then Known(Accept(Publish))
    else if data == "review accept second" then Known(Accept(PublishSecond))
    else if data == "review anymouse" then Known(ToggleAnonymous)
    else if data == "review cancel" then Known(CancelSubmission)
    else if "review tag" <= data then
      if |data| < 11 then
        assert data == "review tag";
        SliceOutOfRange
      else if data[11..] != "spoiler" then Known(SetTag(data[11..]))
      else Known(ToggleSpoiler)
    else if "reject " <= data then Known(RejectFor(data[7..]))
    else Ignored
  }

  /**
   * The token a current keyboard sends for an action (the legacy
   * `"reject back"` also decodes to `BackToReview`).
   */
  function Token(a: Action): string {
    match a
    case ShowReasons => "review reject"
    case BackToReview => "review reject back"
    case ToggleSpoiler => "review spoiler"
    case Accept(ToPlan) => "review inplan"
    case Accept(Publish) => "review accept"
    case Accept(PublishSecond) => "review accept second"
    case ToggleAnonymous => "review anymouse"
    case CancelSubmission => "review cancel"
    case SetTag(p) => "review tag " + p
    case RejectFor(p) => "reject " + p
  }

  /**
   * Actions a token can carry: the tag payload `spoiler` is taken by the
   * spoiler toggle and the reason payload `back` by the back button.
   */
  predicate Canonical(a: Action) {
    && (a.SetTag? ==> a.tagPayload != "spoiler")
    && (a.RejectFor? ==> a.reasonPayload != "back")
  }

  // ------------------------------------------------------------- the effects

  /** A message text: a literal, or the `Langs.PostCanceled` resource. */
  datatype Text = Lit(s: string) | PostCanceledText

  /** A keyboard asked of the markup service (which also draws the spoiler toggle). */
  datatype KeyboardRequest =
    | DirectPostKb(anonymous: bool, tags: set<Tag>, hasSpoiler: Option<bool>)
    | ReviewMainKb(tags: set<Tag>, hasSpoiler: Option<bool>)
    | RejectReasonKb

  /** A call into the post service, with its arguments (the post is implicit). */
  datatype ServiceCall =
    | AcceptPost(reviewer: int, inPlan: bool, second: bool)
    | RejectPost(reviewer: int, reason: RejectReason, htmlText: Option<string>)
    | SetPostTag(payload: string)
    | CancelPost
    | SetPostAnonymous(anonymous: bool)
    | SetPostSpoiler(hasSpoiler: bool)
    | EditPostText(text: string)

  datatype Effect =
    /** `AutoReplyAsync(text, query, alert)`: a toast, or an alert box. */
    | Reply(text: Text, alert: bool)
    /** `EditMessageReplyMarkupAsync`; `None` strips the keyboard. */
    | EditMarkup(keyboard: Option<KeyboardRequest>)
    /** `EditMessageTextAsync(message, text, null)`: new text, no keyboard. */
    | EditText(text: Text)
    | Call(call: ServiceCall)
    /** The handler stops with an `ArgumentOutOfRangeException`. */
    | Threw

  predicate NoCalls(effects: seq<Effect>) {
    forall i :: 0 <= i < |effects| ==> !effects[i].Call?
  }

  predicate Calls(effects: seq<Effect>, c: ServiceCall) {
    exists i :: 0 <= i < |effects| && effects[i] == Call(c)
  }

  // --------------------------------------------------------- the post record

  /** The fields of a post (`NewPosts`) the handlers read or write. */
  datatype PostView = PostView(
    posterUid: int,
    status: PostStatus,
    anonymous: bool,
    canSpoiler: bool,
    hasSpoiler: bool,
    tags: set<Tag>,
    isDirectPost: bool,
    rejectReason: string)

  /** A spoiler can only be on for a post whose media can carry one. */
  predicate SpoilerConsistent(v: PostView) {
    v.hasSpoiler ==> v.canSpoiler
  }

  /** `post.CanSpoiler ? post.HasSpoiler : null`. */
  function SpoilerArg(v: PostView): (r: Option<bool>)
    ensures r.None? <==> !v.canSpoiler
    ensures r.Some? ==> r.value == v.hasSpoiler
  {
    if v.canSpoiler then Some(v.hasSpoiler) else None
  }

  predicate TimedOut(s: PostStatus) {
    s == ReviewTimeout || s == ConfirmTimeout
  }

  // ------------------------------------------------------ the guard of a query

  const NotFoundText := "未找到稿件"
  const ExpiredText := "该稿件已过期, 无法操作"
  const RepeatedText := "请不要重复操作"
  const ForbiddenText := "无权操作"
  const InternalErrorText := "内部错误"

  datatype Gate = Halt(effects: seq<Effect>) | Proceed(data: string)

  /**
   * The checks `HandleQuery` makes before decoding, in order: post found, not
   * timed out, still under review, reviewer right held, data present.
   */
  function Screen(status: Option<PostStatus>, canReview: bool, data: Option<string>): (g: Gate)
    ensures g.Proceed? <==> status == Some(Reviewing) && canReview && data.Some? && data.value != ""
    ensures g.Proceed? ==> g.data == data.value
    ensures g.Halt? ==> NoCalls(g.effects) && |g.effects| > 0 && g.effects[0].Reply?
    ensures g.Halt? ==>
      (EditMarkup(None) in g.effects <==> status.None? || (status.value != Reviewing && !TimedOut(status.value)))
    ensures g.Halt? ==> (EditText(Lit(ExpiredText)) in g.effects <==> status.Some? && TimedOut(status.value))
  {
    if status.None? then Halt([Reply(Lit(NotFoundText), true), EditMarkup(None)])
    else if TimedOut(status.value) then Halt([Reply(Lit(ExpiredText), false), EditText(Lit(ExpiredText))])
    else if status.value != Reviewing then Halt([Reply(Lit(RepeatedText), true), EditMarkup(None)])
    else if !canReview then Halt([Reply(Lit(ForbiddenText), true)])
    else if data.None? || data.value == "" then Halt([Reply(Lit(InternalErrorText), true)])
    else Proceed(data.value)
  }

  // ------------------------------------------------------- the action helpers

  /** A post after a step, and what the step did. */
  datatype Step = Step(view: PostView, effects: seq<Effect>)

  const AnonymousHintText := "可以使用命令 /anonymous 切换默认匿名投稿"
  const SpoilerUnsupportedText := "当前稿件类型无法设置遮罩"
  const ChooseReasonText := "请选择拒稿原因"

  /** `SetAnonymous`: flip the anonymous flag and redraw the direct-post keyboard. */
  function AnonymityToggled(v: PostView): Step {
    var anonymous := !v.anonymous;
    Step(v.(anonymous := anonymous), [
      Reply(Lit(AnonymousHintText), false),
      Call(SetPostAnonymous(anonymous)),
      EditMarkup(Some(DirectPostKb(anonymous, v.tags, SpoilerArg(v))))
    ])
  }

  /**
   * `SetSpoiler`: on media that cannot carry a spoiler only alert; otherwise
   * flip the flag and redraw the keyboard of the post's kind.
   */
  function SpoilerToggled(v: PostView): Step {
    if !v.canSpoiler then Step(v, [Reply(Lit(SpoilerUnsupportedText), true)])
    else
      var hasSpoiler := !v.hasSpoiler;
      var keyboard :=
        if v.isDirectPost then DirectPostKb(v.anonymous, v.tags, Some(hasSpoiler))
        else ReviewMainKb(v.tags, Some(hasSpoiler));
      Step(v.(hasSpoiler := hasSpoiler), [
        Call(SetPostSpoiler(hasSpoiler)),
        Reply(Lit(if hasSpoiler then "启用遮罩" else "禁用遮罩"), false),
        EditMarkup(Some(keyboard))
      ])
  }

  /** `CancelPost`: cancel through the service, then say so in the message and a toast. */
  function Canceled(): (r: seq<Effect>)
    ensures |r| > 0 && r[0] == Call(CancelPost) && NoCalls(r[1..])
    ensures EditText(PostCanceledText) in r && Reply(PostCanceledText, false) in r
  {
    [Call(CancelPost), EditText(PostCanceledText), Reply(PostCanceledText, false)]
  }

  /** `RejectPostHelper`: reject with the catalogue reason for `payload`, or alert that there is none. */
  function RejectedByPayload(reviewer: int, catalog: map<string, RejectReason>, payload: string): (r: seq<Effect>)
    ensures |r| == 1
    ensures NoCalls(r) <==> payload !in catalog
    ensures NoCalls(r) ==> r[0].Reply? && r[0].alert
  {
    if payload !in catalog then [Reply(Lit("找不到 " + payload + " 对应的拒绝理由"), true)]
    else
      var r := [Call(RejectPost(reviewer, catalog[payload], None))];
      assert r[0].Call?;
      r
  }

  /** `SwitchKeyboard`: the reason picker in reject mode, else the main review keyboard. */
  function KeyboardSwitched(v: PostView, rejectMode: bool): (r: seq<Effect>)
    ensures |r| > 0 && NoCalls(r)
    ensures r[|r| - 1] == EditMarkup(Some(if rejectMode then RejectReasonKb else ReviewMainKb(v.tags, SpoilerArg(v))))
    ensures r[0].Reply? <==> rejectMode
  {
    if rejectMode then [Reply(Lit(ChooseReasonText), false), EditMarkup(Some(RejectReasonKb))]
    else [EditMarkup(Some(ReviewMainKb(v.tags, SpoilerArg(v))))]
  }

  /** The `switch` of `HandleQuery`, run on a post that passed the guard. */
  function Dispatched(v: PostView, reviewer: int, catalog: map<string, RejectReason>, d: Decoded): (s: Step)
    ensures !d.Known? ==> s.view == v && NoCalls(s.effects)
    ensures Calls(s.effects, CancelPost) <==> d == Known(CancelSubmission)
  {
    match d
    case Ignored => Step(v, [])
    case SliceOutOfRange => Step(v, [Threw])
    case Known(a) =>
      match a
      case ShowReasons => Step(v, KeyboardSwitched(v, true))
      case BackToReview => Step(v, KeyboardSwitched(v, false))
      case ToggleSpoiler => SpoilerToggled(v)
      case Accept(mode) => Step(v, [Call(AcceptPost(reviewer, AcceptArgs(mode).0, AcceptArgs(mode).1))])
      case ToggleAnonymous => AnonymityToggled(v)
      case CancelSubmission => Step(v, Canceled())
      case SetTag(p) => Step(v, [Call(SetPostTag(p))])
      case RejectFor(p) => Step(v, RejectedByPayload(reviewer, catalog, p))
  }

  /** The post (if found) after a callback query, and what the handler did. */
  datatype Response = Response(post: Option<PostView>, effects: seq<Effect>)

  /** `HandleQuery` as a function of the post found, the user and the callback data. */
  function QueryResponse(
    post: Option<PostView>, canReview: bool, reviewer: int, data: Option<string>,
    catalog: map<string, RejectReason>): Response
  {
    var status := if post.Some? then Some(post.value.status) else None;
    match Screen(status, canReview, data)
    case Halt(effects) => Response(post, effects)
    case Proceed(d) =>
      var step := Dispatched(post.value, reviewer, catalog, Decode(d));
      Response(Some(step.view), step.effects)
  }

  // ---------------------------------------------------- the stateful handlers

  /** A post under moderation, updated in place by the handlers. */
  class Post {
    const PosterUID: int
    var Status: PostStatus
    var Anonymous: bool
    const CanSpoiler: bool
    var HasSpoiler: bool
    var Tags: set<Tag>
    const IsDirectPost: bool
    var RejectReason: string

    constructor (v: PostView)
      ensures View() == v
    {
      PosterUID, Status, Anonymous := v.posterUid, v.status, v.anonymous;
      CanSpoiler, HasSpoiler, Tags := v.canSpoiler, v.hasSpoiler, v.tags;
      IsDirectPost, RejectReason := v.isDirectPost, v.rejectReason;
    }

    function View(): PostView
      reads this
    {
      PostView(PosterUID, Status, Anonymous, CanSpoiler, HasSpoiler, Tags, IsDirectPost, RejectReason)
    }

    method SetAnonymous() returns (effects: seq<Effect>)
      modifies this
      ensures Step(View(), effects) == AnonymityToggled(old(View()))
    {
      effects := [Reply(Lit(AnonymousHintText), false)];
      var anonymous := !Anonymous;
      Anonymous := anonymous;
      effects := effects + [Call(SetPostAnonymous(anonymous))];
      var hasSpoiler := if CanSpoiler then Some(HasSpoiler) else None;
      effects := effects + [EditMarkup(Some(DirectPostKb(anonymous, Tags, hasSpoiler)))];
    }

    method SetSpoiler() returns (effects: seq<Effect>)
      modifies this
      ensures Step(View(), effects) == SpoilerToggled(old(View()))
    {
      if !CanSpoiler {
        return [Reply(Lit(SpoilerUnsupportedText), true)];
      }
      var hasSpoiler := !HasSpoiler;
      HasSpoiler := hasSpoiler;
      effects := [Call(SetPostSpoiler(hasSpoiler))];
      effects := effects + [Reply(Lit(if hasSpoiler then "启用遮罩" else "禁用遮罩"), false)];
      var keyboard :=
        if IsDirectPost then DirectPostKb(Anonymous, Tags, Some(hasSpoiler))
        else ReviewMainKb(Tags, Some(hasSpoiler));
      effects := effects + [EditMarkup(Some(keyboard))];
    }
  }

  /** The post a query resolves to, as a view. */
  function ViewOf(post: Post?): Option<PostView>
    reads post
  {
    if post == null then None else Some(post.View())
  }

  /** Handle a press on a review keyboard button. */
  method HandleQuery(dbUser: User, post: Post?, data: Option<string>, catalog: map<string, RejectReason>)
    returns (effects: seq<Effect>)
    modifies post
    ensures Response(ViewOf(post), effects)
      == QueryResponse(old(ViewOf(post)), ReviewPost in dbUser.Right, dbUser.UserID, data, catalog)
  {
    if post == null {
      return [Reply(Lit(NotFoundText), true), EditMarkup(None)];
    }
    if post.Status == ReviewTimeout || post.Status == ConfirmTimeout {
      return [Reply(Lit(ExpiredText), false), EditText(Lit(ExpiredText))];
    }
    if post.Status != Reviewing {
      return [Reply(Lit(RepeatedText), true), EditMarkup(None)];
    }
    if ReviewPost !in dbUser.Right {
      return [Reply(Lit(ForbiddenText), true)];
    }
    if data.None? || data.value == "" {
      return [Reply(Lit(InternalErrorText), true)];
    }
    match Decode(data.value)
    case Ignored =>
      effects := [];
    case SliceOutOfRange =>
      effects := [Threw];
    case Known(a) =>
      match a
      case ShowReasons =>
        effects := KeyboardSwitched(post.View(), true);
      case BackToReview =>
        effects := KeyboardSwitched(post.View(), false);
      case ToggleSpoiler =>
        effects := post.SetSpoiler();
      case Accept(mode) =>
        var (inPlan, second) := AcceptArgs(mode);
        effects := [Call(AcceptPost(dbUser.UserID, inPlan, second))];
      case ToggleAnonymous =>
        effects := post.SetAnonymous();
      case CancelSubmission =>
        effects := Canceled();
      case SetTag(p) =>
        effects := [Call(SetPostTag(p))];
      case RejectFor(p) =>
        effects := RejectedByPayload(dbUser.UserID, catalog, p);
  }

  // ------------------------------------------------------ the text commands

  /** A command's checks: stop with a reply, or go on with the argument text. */
  datatype Checked = Stop(reply: string) | Pass(text: string)

  const ReviewGroupOnlyText := "该命令仅限审核群内使用"
  const ReviewingOnlyText := "仅能编辑状态为审核中的稿件"

  /**
   * The checks of `NO`, in order: issued in the review group, as a reply, to
   * a known post, that is under review, with a reason that is not blank.
   */
  function NoChecks(inReviewGroup: bool, isReply: bool, post: Option<PostStatus>, args: seq<string>): (r: Checked)
    ensures r.Pass? <==>
      inReviewGroup && isReply && post == Some(Reviewing) && !AllBlank(args)
    ensures r.Pass? ==> r.text == Trim(JoinWithSpace(args)) && r.text != []
    ensures r.Pass? ==> !IsWhiteSpace(r.text[0]) && !IsWhiteSpace(r.text[|r.text| - 1])
  {
    if !inReviewGroup then Stop(ReviewGroupOnlyText)
    else if !isReply then Stop("请回复审核消息并输入拒绝理由")
    else if post.None? then Stop(NotFoundText)
    else if post.value != Reviewing then Stop(ReviewingOnlyText)
    else
      var reason := Trim(JoinWithSpace(args));
      JoinedTrimEmpty(args);
      if reason == "" then Stop("请输入拒绝理由") else Pass(reason)
  }

  /** The reason a moderator types: no payload, and the same text as name and full text. */
  function TypedReason(reason: string): (r: RejectReason)
    ensures r.payload.None? && r.name == reason && r.fullText == reason
  {
    RejectReason(None, reason, reason)
  }

  /**
   * The `NO <reason>` command. `htmlText` is the command message itself
   * rendered to HTML, without its first four characters (the rendering is not
   * part of this model).
   */
  method ResponseNo(dbUser: User, inReviewGroup: bool, isReply: bool, post: Post?, args: seq<string>, htmlText: string)
    returns (reply: string, effects: seq<Effect>)
    modifies post
    ensures var checked := NoChecks(inReviewGroup, isReply, if post == null then None else Some(old(post.Status)), args);
      && (checked.Stop? ==> reply == checked.reply && effects == [] && ViewOf(post) == old(ViewOf(post)))
      && (checked.Pass? ==>
            && post != null
            && post.View() == old(post.View()).(rejectReason := checked.text)
            && effects == [Call(RejectPost(dbUser.UserID, TypedReason(checked.text), Some(htmlText)))]
            && reply == "已拒绝该稿件, 理由: " + htmlText)
  {
    effects := [];
    if !inReviewGroup {
      return ReviewGroupOnlyText, effects;
    }
    if !isReply {
      return "请回复审核消息并输入拒绝理由", effects;
    }
    if post == null {
      return NotFoundText, effects;
    }
    if post.Status != Reviewing {
      return ReviewingOnlyText, effects;
    }
    var reason := Trim(JoinWithSpace(args));
    if reason == "" {
      return "请输入拒绝理由", effects;
    }
    post.RejectReason := reason;
    var rejectReason := RejectReason(None, reason, reason);
    effects := [Call(RejectPost(dbUser.UserID, rejectReason, Some(htmlText)))];
    reply := "已拒绝该稿件, 理由: " + htmlText;
  }

  /** What `EDIT` replies, and the service call it makes if it gets that far. */
  datatype CommandResult = CommandResult(reply: string, call: Option<ServiceCall>)

  /**
   * The `EDIT <text>` command: in a private chat or the review group, as a
   * reply to a post under review whose poster is a known user, the trimmed
   * arguments replace the post text; blank text is not refused.
   */
  function ResponseEditPost(
    isPrivateChat: bool, inReviewGroup: bool, isReply: bool, post: Option<PostView>,
    knownUsers: set<int>, args: seq<string>): (r: CommandResult)
    ensures r.call.Some? <==>
      (isPrivateChat || inReviewGroup) && isReply && post.Some? && post.value.status == Reviewing
      && post.value.posterUid in knownUsers
    ensures r.call.Some? ==> r.call == Some(EditPostText(Trim(JoinWithSpace(args)))) && r.reply == "稿件描述已更新"
    ensures r.call.None? ==> r.reply != "稿件描述已更新"
  {
    if !isPrivateChat && !inReviewGroup then CommandResult(ReviewGroupOnlyText, None)
    else if !isReply then CommandResult("请回复审核消息并输入需要替换的描述", None)
    else if post.None? then CommandResult(NotFoundText, None)
    else if post.value.status != Reviewing then CommandResult(ReviewingOnlyText, None)
    else if post.value.posterUid !in knownUsers then CommandResult("未找到投稿用户", None)
    else CommandResult("稿件描述已更新", Some(EditPostText(Trim(JoinWithSpace(args)))))
  }
}
