/**
 * The inline keyboards of `MarkupHelper`: pure functions from the anonymous
 * flag and the tag set to rows of (label, callback token) buttons. Labels
 * depend on the arguments; callback tokens never do.
 */
module MarkupHelper {
  import opened Wrappers
  import opened Domain

  /** The `Emojis` constants a label may start with (their glyphs are not modelled). */
  datatype Emoji = NoEmoji | Ghost | Thinking | No | Yes | Back

  /** A button caption: an emoji prefix followed by text. */
  datatype Label = Label(emoji: Emoji, text: string)

  /** `InlineKeyboardButton.WithCallbackData(label, token)`. */
  datatype Button = Button(caption: Label, token: string)

  /** `InlineKeyboardMarkup`: rows of buttons, top to bottom. */
  type Markup = seq<seq<Button>>

  const AnymouseOn := Label(Ghost, "匿名投稿")
  const AnymouseOff := Label(Thinking, "保留来源")
  const PostCancel := Label(No, "取消")
  const PostConfirm := Label(Yes, "投稿")
  const ReviewReject := Label(No, "拒绝")
  const ReviewAccept := Label(Yes, "采用")
  const RejectCancel := Label(Back, "返回")

  /** The on and off captions of a tag toggle. */
  function TagLabel(t: Tag, on: bool): Label {
    match t
    case NSFW => Label(NoEmoji, if on then "#NSFW" else "#N___")
    case Friend => Label(NoEmoji, if on then "#我有一个朋友" else "#我_____")
    case WanAn => Label(NoEmoji, if on then "#晚安" else "#晚_")
  }

  /** The payload a tag toggle sends after `review tag `. */
  function TagName(t: Tag): string {
    match t
    case NSFW => "nsfw"
    case Friend => "friend"
    case WanAn => "wanan"
  }

  function TagToken(t: Tag): string {
    "review tag " + TagName(t)
  }

  lemma TagTokenValues()
    ensures TagToken(NSFW) == "review tag nsfw"
    ensures TagToken(Friend) == "review tag friend"
    ensures TagToken(WanAn) == "review tag wanan"
    ensures forall t :: |TagToken(t)| > 10 && TagToken(t)[7] == 't'
  {
  }

  /** The three tag tokens differ (they differ in length). */
  lemma TagTokensDistinct()
    ensures TagToken(NSFW) != TagToken(WanAn)
    ensures TagToken(NSFW) != TagToken(Friend)
    ensures TagToken(WanAn) != TagToken(Friend)
  {
    assert |TagToken(NSFW)| == 15 && |TagToken(WanAn)| == 16 && |TagToken(Friend)| == 17;
  }

  /** `tag.HasFlag(t) ? <on> : <off>` with the tag's own token. */
  function TagButton(t: Tag, tags: set<Tag>): Button {
    Button(TagLabel(t, t in tags), TagToken(t))
  }

  function AnymouseLabel(anymouse: bool): Label {
    if anymouse then AnymouseOn else AnymouseOff
  }

  /** All buttons, row by row, left to right. */
  function Buttons(kb: Markup): seq<Button>
    decreases |kb|
  {
    if kb == [] then [] else kb[0] + Buttons(kb[1..])
  }

  function Tokens(kb: Markup): seq<string> {
    var bs := Buttons(kb);
    seq(|bs|, i requires 0 <= i < |bs| => bs[i].token)
  }

  /** The label of the first button that sends `token`, if any. */
  function FirstLabel(bs: seq<Button>, token: string): Option<Label>
    decreases |bs|
  {
    if bs == [] then None
    else if bs[0].token == token then Some(bs[0].caption)
    else FirstLabel(bs[1..], token)
  }

  function LabelOf(kb: Markup, token: string): Option<Label> {
    FirstLabel(Buttons(kb), token)
  }

  lemma ButtonsOfRows(a: seq<Button>, b: seq<Button>, c: seq<Button>, d: seq<Button>)
    ensures Buttons([a, b]) == a + b
    ensures Buttons([a, b, c]) == a + b + c
    ensures Buttons([a, b, c, d]) == a + b + c + d
  {
    assert Buttons([d]) == d by { assert [d][1..] == []; }
    assert Buttons([c]) == c by { assert [c][1..] == []; }
    assert Buttons([b]) == b by { assert [b][1..] == []; }
    assert Buttons([c, d]) == c + d by { assert [c, d][1..] == [d]; }
    assert Buttons([b, c]) == b + c by { assert [b, c][1..] == [c]; }
    assert Buttons([b, c, d]) == b + (c + d) by { assert [b, c, d][1..] == [c, d]; }
    assert [a, b][1..] == [b];
    assert [a, b, c][1..] == [b, c];
    assert [a, b, c, d][1..] == [b, c, d];
  }

  /** The tokens of the keyboards that do not depend on any argument. */
  const PostTokens: seq<string> := ["post anymouse", "post cancel", "post confirm"]
  const DirectPostTokens: seq<string> :=
    ["review tag nsfw", "review tag wanan", "review tag friend", "review anymouse", "review cancel", "review accept"]
  const ReviewTokensA: seq<string> :=
    ["review tag nsfw", "review tag wanan", "review tag friend", "review reject", "review accept"]
  const RejectReasonPayloads: seq<string> :=
    ["fuzzy", "duplicate", "boring", "confusing", "deny", "qrcode", "other"]
  const ReviewTokensB: seq<string> :=
    ["reject fuzzy", "reject duplicate", "reject boring", "reject confusing",
     "reject deny", "reject qrcode", "reject other", "reject back"]

  /** The keyboard shown to a submitter before confirming a post. */
  function PostKeyboard(anymouse: bool): (kb: Markup)
    ensures |kb| == 2
  {
    [
      [Button(AnymouseLabel(anymouse), "post anymouse")],
      [Button(PostCancel, "post cancel"), Button(PostConfirm, "post confirm")]
    ]
  }

  /** The keyboard of a post that skips review: tag toggles, anonymity, cancel and accept. */
  function DirectPostKeyboard(anymouse: bool, tag: set<Tag>): (kb: Markup)
    ensures |kb| == 4
  {
    [
      [TagButton(NSFW, tag), TagButton(WanAn, tag)],
      [TagButton(Friend, tag)],
      [Button(AnymouseLabel(anymouse), "review anymouse")],
      [Button(PostCancel, "review cancel"), Button(ReviewAccept, "review accept")]
    ]
  }

  /** The main review keyboard: tag toggles, then reject and accept. */
  function ReviewKeyboardA(tag: set<Tag>): (kb: Markup)
    ensures |kb| == 3
  {
    [
      [TagButton(NSFW, tag), TagButton(WanAn, tag)],
      [TagButton(Friend, tag)],
      [Button(ReviewReject, "review reject"), Button(ReviewAccept, "review accept")]
    ]
  }

  /** The reject-reason picker: seven catalogue reasons, then back. */
  function ReviewKeyboardB(): (kb: Markup)
    ensures |kb| == 3
  {
    [
      [Button(Label(NoEmoji, "模糊"), "reject fuzzy"), Button(Label(NoEmoji, "重复"), "reject duplicate"),
       Button(Label(NoEmoji, "无趣"), "reject boring"), Button(Label(NoEmoji, "没懂"), "reject confusing")],
      [Button(Label(NoEmoji, "内容不合适"), "reject deny"), Button(Label(NoEmoji, "二维码"), "reject qrcode"),
       Button(Label(NoEmoji, "其他原因"), "reject other")],
      [Button(RejectCancel, "reject back")]
    ]
  }

  /** The user-group picker. Its tokens are not part of the review protocol. */
  function SetUserGroupKeyboard(): (kb: Markup)
    ensures |kb| == 4
  {
    [
      [Button(Label(NoEmoji, "普通用户"), "usergroup user")],
      [Button(Label(NoEmoji, "审核员"), "setusergroup reviewer"), Button(Label(NoEmoji, "发布员"), "setgroup poster")],
      [Button(Label(NoEmoji, "狗管理"), "setgroup admin")],
      [Button(Label(NoEmoji, "超级狗管理"), "setgroup super")]
    ]
  }

  /** The first button sending `token` sits at index `i`. */
  lemma {:induction false} FirstLabelAt(bs: seq<Button>, token: string, i: nat)
    requires i < |bs| && bs[i].token == token
    requires forall j :: 0 <= j < i ==> bs[j].token != token
    ensures FirstLabel(bs, token) == Some(bs[i].caption)
    decreases i
  {
    if i > 0 {
      FirstLabelAt(bs[1..], token, i - 1);
    }
  }

  /** Each tag toggle of `bs` shows the caption for that tag's own flag. */
  lemma TagButtonsLabels(bs: seq<Button>, tag: set<Tag>)
    requires |bs| >= 3
    requires bs[0] == TagButton(NSFW, tag) && bs[1] == TagButton(WanAn, tag) && bs[2] == TagButton(Friend, tag)
    ensures forall t :: FirstLabel(bs, TagToken(t)) == Some(TagLabel(t, t in tag))
  {
    forall t ensures FirstLabel(bs, TagToken(t)) == Some(TagLabel(t, t in tag)) {
      TagButtonLabel(bs, tag, t);
    }
  }

  lemma TagButtonLabel(bs: seq<Button>, tag: set<Tag>, t: Tag)
    requires |bs| >= 3
    requires bs[0] == TagButton(NSFW, tag) && bs[1] == TagButton(WanAn, tag) && bs[2] == TagButton(Friend, tag)
    ensures FirstLabel(bs, TagToken(t)) == Some(TagLabel(t, t in tag))
  {
    TagTokensDistinct();
    match t
    case NSFW => FirstLabelAt(bs, TagToken(t), 0);
    case WanAn => FirstLabelAt(bs, TagToken(t), 1);
    case Friend => FirstLabelAt(bs, TagToken(t), 2);
  }

  /** The buttons of the direct-post keyboard, row after row. */
  lemma DirectPostButtons(anymouse: bool, tag: set<Tag>)
    ensures Buttons(DirectPostKeyboard(anymouse, tag)) ==
      [TagButton(NSFW, tag), TagButton(WanAn, tag), TagButton(Friend, tag),
       Button(AnymouseLabel(anymouse), "review anymouse"),
       Button(PostCancel, "review cancel"), Button(ReviewAccept, "review accept")]
  {
    var kb := DirectPostKeyboard(anymouse, tag);
    ButtonsOfRows(kb[0], kb[1], kb[2], kb[3]);
  }

  /** The buttons of the main review keyboard, row after row. */
  lemma ReviewAButtons(tag: set<Tag>)
    ensures Buttons(ReviewKeyboardA(tag)) ==
      [TagButton(NSFW, tag), TagButton(WanAn, tag), TagButton(Friend, tag),
       Button(ReviewReject, "review reject"), Button(ReviewAccept, "review accept")]
  {
    var kb := ReviewKeyboardA(tag);
    ButtonsOfRows(kb[0], kb[1], kb[2], []);
  }

  /**
   * The submitter keyboard: its tokens are fixed, the anonymity button shows
   * the "anonymous" caption exactly when `anymouse` is set, and the last row
   * is cancel then confirm.
   */
  lemma PostKeyboardShape(anymouse: bool)
    ensures Tokens(PostKeyboard(anymouse)) == PostTokens
    ensures LabelOf(PostKeyboard(anymouse), "post anymouse") == Some(AnymouseOn) <==> anymouse
    ensures PostKeyboard(anymouse)[1] == [Button(PostCancel, "post cancel"), Button(PostConfirm, "post confirm")]
  {
    var kb := PostKeyboard(anymouse);
    ButtonsOfRows(kb[0], kb[1], [], []);
    var bs := Buttons(kb);
    assert bs == [kb[0][0], kb[1][0], kb[1][1]];
    FirstLabelAt(bs, "post anymouse", 0);
  }

  /**
   * The direct-post keyboard has four rows; its tokens are fixed; each tag
   * toggle shows the caption for that tag's own flag; the anonymity toggle
   * follows `anymouse`; the last row is cancel then accept.
   */
  lemma DirectPostKeyboardShape(anymouse: bool, tag: set<Tag>)
    ensures Tokens(DirectPostKeyboard(anymouse, tag)) == DirectPostTokens
    ensures forall t :: LabelOf(DirectPostKeyboard(anymouse, tag), TagToken(t)) == Some(TagLabel(t, t in tag))
    ensures LabelOf(DirectPostKeyboard(anymouse, tag), "review anymouse") == Some(AnymouseOn) <==> anymouse
    ensures DirectPostKeyboard(anymouse, tag)[3] == [Button(PostCancel, "review cancel"), Button(ReviewAccept, "review accept")]
  {
    var bs := Buttons(DirectPostKeyboard(anymouse, tag));
    DirectPostButtons(anymouse, tag);
    TagTokenValues();
    TagButtonsLabels(bs, tag);
    assert "review anymouse"[7] == 'a';
    FirstLabelAt(bs, "review anymouse", 3);
  }

  /**
   * The main review keyboard has three rows; its tokens are fixed; each tag
   * toggle follows its own flag; the last row is exactly reject then accept.
   */
  lemma ReviewKeyboardAShape(tag: set<Tag>)
    ensures Tokens(ReviewKeyboardA(tag)) == ReviewTokensA
    ensures forall t :: LabelOf(ReviewKeyboardA(tag), TagToken(t)) == Some(TagLabel(t, t in tag))
    ensures ReviewKeyboardA(tag)[2] == [Button(ReviewReject, "review reject"), Button(ReviewAccept, "review accept")]
  {
    ReviewAButtons(tag);
    TagTokenValues();
    TagButtonsLabels(Buttons(ReviewKeyboardA(tag)), tag);
  }

  /** The reason picker is constant: seven `reject <reason>` tokens, then `reject back`. */
  lemma ReviewKeyboardBShape()
    ensures Tokens(ReviewKeyboardB()) == ReviewTokensB
    ensures ReviewKeyboardB()[2] == [Button(RejectCancel, "reject back")]
  {
    var kb := ReviewKeyboardB();
    ButtonsOfRows(kb[0], kb[1], kb[2], []);
    assert Buttons(kb) == kb[0] + kb[1] + kb[2];
  }

  /**
   * The caption of a tag toggle depends on that tag's flag alone: two tag sets
   * that agree on `t` render the same button for `t`, whatever the other tags.
   */
  lemma TagLabelIsLocal(anymouse: bool, t: Tag, tags1: set<Tag>, tags2: set<Tag>)
    requires t in tags1 <==> t in tags2
    ensures LabelOf(DirectPostKeyboard(anymouse, tags1), TagToken(t)) == LabelOf(DirectPostKeyboard(anymouse, tags2), TagToken(t))
    ensures LabelOf(ReviewKeyboardA(tags1), TagToken(t)) == LabelOf(ReviewKeyboardA(tags2), TagToken(t))
  {
    DirectPostKeyboardShape(anymouse, tags1);
    DirectPostKeyboardShape(anymouse, tags2);
    ReviewKeyboardAShape(tags1);
    ReviewKeyboardAShape(tags2);
  }

  /** Callback tokens do not depend on the state a keyboard is drawn from. */
  lemma TokensIgnoreState(a1: bool, a2: bool, tags1: set<Tag>, tags2: set<Tag>)
    ensures Tokens(PostKeyboard(a1)) == Tokens(PostKeyboard(a2))
    ensures Tokens(DirectPostKeyboard(a1, tags1)) == Tokens(DirectPostKeyboard(a2, tags2))
    ensures Tokens(ReviewKeyboardA(tags1)) == Tokens(ReviewKeyboardA(tags2))
  {
    PostKeyboardShape(a1);
    PostKeyboardShape(a2);
    DirectPostKeyboardShape(a1, tags1);
    DirectPostKeyboardShape(a2, tags2);
    ReviewKeyboardAShape(tags1);
    ReviewKeyboardAShape(tags2);
  }
}
