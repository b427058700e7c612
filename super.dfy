/**
 * The super-admin commands of `SuperCommand` that carry logic: the per-channel
 * option a source channel's posts are handled with, and the recalculation of
 * every user's post statistics.
 */
module SuperCommand {
  import opened Wrappers
  import opened Strings
  import opened Domain

  // ------------------------------------------------------ channel options

  /**
   * `EChannelOption`. A stored value outside the three named options is
   * possible (the display switches have a fallback arm); `Unnamed` carries
   * its code.
   */
  datatype ChannelOption = Normal | PurgeOrigin | AutoReject | Unnamed(code: int)

  /** A row of the source-channel table. */
  datatype Channel = Channel(channelId: int, title: string, option: ChannelOption)

  const UnknownOptionText := "未知的值"

  /** How the text command displays a stored option. */
  function OptionText(o: ChannelOption): (s: string)
    ensures s == UnknownOptionText <==> o.Unnamed?
  {
    match o
    case Normal => "不做特殊处理"
    case PurgeOrigin => "抹除频道来源"
    case AutoReject => "拒绝此频道的投稿"
    case Unnamed(_) => UnknownOptionText
  }

  /** How the callback displays a parsed option, `null` included. */
  function ParsedOptionText(o: Option<ChannelOption>): (s: string)
    ensures s == UnknownOptionText <==> o.None? || o.value.Unnamed?
  {
    match o
    case Some(Normal) => "不做特殊处理"
    case Some(PurgeOrigin) => "抹除频道来源"
    case Some(AutoReject) => "拒绝此频道的投稿"
    case _ => UnknownOptionText
  }

  /** The two display tables agree wherever both are defined. */
  lemma DisplayTablesAgree(o: ChannelOption)
    ensures ParsedOptionText(Some(o)) == OptionText(o)
  {
  }

  /** The option a callback argument names; only the three lower-case names are recognised. */
  function ParseOption(s: string): (o: Option<ChannelOption>)
    ensures o.Some? <==> s == "normal" || s == "purgeorigin" || s == "autoreject"
    ensures o.Some? ==> !o.value.Unnamed?
  {
    if s == "normal" then Some(Normal)
    else if s == "purgeorigin" then Some(PurgeOrigin)
    else if s == "autoreject" then Some(AutoReject)
    else None
  }

  /** The argument that names a named option. */
  function OptionToken(o: ChannelOption): string
    requires !o.Unnamed?
  {
    match o
    case Normal => "normal"
    case PurgeOrigin => "purgeorigin"
    case AutoReject => "autoreject"
  }

  lemma ParseOptionToken(o: ChannelOption)
    requires !o.Unnamed?
    ensures ParseOption(OptionToken(o)) == Some(o)
  {
  }

  lemma OptionTokenOfParse(s: string)
    requires ParseOption(s).Some?
    ensures OptionToken(ParseOption(s).value) == s
  {
  }

  /** The one service call the callback may make: `UpdateChannelOptionById`. */
  datatype UpdateCall = UpdateChannelOption(channelId: int, option: ChannelOption)

  /** The callback's reply text, the call it made, and the channel table afterwards. */
  datatype OptionUpdate = OptionUpdate(text: string, call: Option<UpdateCall>, channels: map<int, Channel>)

  const BadArgumentsText := "参数有误"

  /**
   * `UpdateChannelOptionById`: store the option on the channel with that id
   * and return the row, or `null` when there is none.
   */
  function UpdateChannel(channels: map<int, Channel>, id: int, o: ChannelOption): (r: (Option<Channel>, map<int, Channel>))
    ensures r.0.Some? <==> id in channels
    ensures r.0.Some? ==> r.0.value == channels[id].(option := o) && r.1 == channels[id := r.0.value]
    ensures r.0.None? ==> r.1 == channels
  {
    if id in channels then
      var c := channels[id].(option := o);
      (Some(c), channels[id := c])
    else (None, channels)
  }

  /**
   * The `CHANNELOPTION` callback, `args` being the words of the callback data:
   * `args[1]` is the channel id, `args[2]` the option name.
   */
  function QueryChannelOption(args: seq<string>, channels: map<int, Channel>): (r: OptionUpdate)
    ensures r.call.Some? <==> |args| >= 3 && ParseLong(args[1]).Some? && ParseOption(args[2]).Some?
    ensures r.call.None? ==> r.channels == channels
    ensures |args| < 3 || ParseLong(args[1]).None? ==> r.text == BadArgumentsText
  {
    if |args| < 3 then OptionUpdate(BadArgumentsText, None, channels)
    else
      match ParseLong(args[1])
      case None => OptionUpdate(BadArgumentsText, None, channels)
      case Some(id) =>
        var option := ParseOption(args[2]);
        var optionStr := ParsedOptionText(option);
        if option.None? then OptionUpdate("未知的频道选项 " + args[2], None, channels)
        else
          var (found, after) := UpdateChannel(channels, id, option.value);
          var call := Some(UpdateChannelOption(id, option.value));
          match found
          case None => OptionUpdate("找不到频道 " + DecimalString(id), call, after)
          case Some(c) => OptionUpdate("来自 " + c.title + " 频道的稿件今后将被 " + optionStr, call, after)
  }

  /**
   * A well-formed callback for an existing channel stores the option on that
   * channel only and reports it by the channel's title.
   */
  lemma QueryStoresOption(id: int, o: ChannelOption, channels: map<int, Channel>, cmd: string)
    requires MinLong <= id <= MaxLong && !o.Unnamed? && id in channels
    ensures var r := QueryChannelOption([cmd, DecimalString(id), OptionToken(o)], channels);
      && r.call == Some(UpdateChannelOption(id, o))
      && r.channels == channels[id := channels[id].(option := o)]
      && r.text == "来自 " + channels[id].title + " 频道的稿件今后将被 " + OptionText(o)
  {
    var args := [cmd, DecimalString(id), OptionToken(o)];
    ParseLongDecimalString(id);
    ParseOptionToken(o);
    QueryParsed(args, id, o, channels);
  }

  /** A callback whose id and option name parse stores the option on an existing channel. */
  lemma QueryParsed(args: seq<string>, id: int, o: ChannelOption, channels: map<int, Channel>)
    requires |args| >= 3 && ParseLong(args[1]) == Some(id) && ParseOption(args[2]) == Some(o)
    requires !o.Unnamed? && id in channels
    ensures var r := QueryChannelOption(args, channels);
      && r.call == Some(UpdateChannelOption(id, o))
      && r.channels == channels[id := channels[id].(option := o)]
      && r.text == "来自 " + channels[id].title + " 频道的稿件今后将被 " + OptionText(o)
  {
  }

  /** An option name outside the three is reported back and nothing is updated. */
  lemma UnknownOptionNotStored(args: seq<string>, channels: map<int, Channel>)
    requires |args| >= 3 && ParseLong(args[1]).Some? && ParseOption(args[2]).None?
    ensures QueryChannelOption(args, channels) == OptionUpdate("未知的频道选项 " + args[2], None, channels)
  {
  }

  /** A post as the text command sees it: whether it was forwarded from a channel, and which. */
  datatype ChannelPost = ChannelPost(isFromChannel: bool, channelId: int)

  /** `SetChannelOptionKeyboard(dbUser, channelId)` (its layout is not part of this model). */
  datatype ChannelKeyboard = ChannelOptionKeyboard(userId: int, channelId: int)

  datatype ChannelOptionReply = ChannelOptionReply(text: string, keyboard: Option<ChannelKeyboard>)

  const ReviewGroupOnlyText := "该命令仅限审核群内使用"
  const ReplyRequiredText := "请回复审核消息"
  const PostNotFoundText := "未找到稿件"
  const NotFromChannelText := "不是来自其他频道的投稿, 无法设置频道选项"
  const ChannelNotFoundText := "未找到对应频道"

  function OptionPrompt(c: Channel): string {
    "请选择针对来自 " + c.title + " 的稿件的处理方式\n当前设置: " + OptionText(c.option)
  }

  /**
   * The `CHANNELOPTION` text command: five checks in order, and the option
   * keyboard only when all of them pass. `post` is what the replied-to
   * message resolves to; it is consulted only when there is a reply.
   */
  function ChannelOptionCommand(
    inReviewGroup: bool, hasReply: bool, post: Option<ChannelPost>, userId: int, channels: map<int, Channel>)
    : (r: ChannelOptionReply)
    ensures r.keyboard.Some? <==>
      inReviewGroup && hasReply && post.Some? && post.value.isFromChannel && post.value.channelId in channels
    ensures !inReviewGroup ==> r.text == ReviewGroupOnlyText
    ensures inReviewGroup && !hasReply ==> r.text == ReplyRequiredText
    ensures inReviewGroup && hasReply && post.None? ==> r.text == PostNotFoundText
    ensures inReviewGroup && hasReply && post.Some? && !post.value.isFromChannel ==> r.text == NotFromChannelText
    ensures inReviewGroup && hasReply && post.Some? && post.value.isFromChannel && post.value.channelId !in channels ==>
      r.text == ChannelNotFoundText
    ensures r.keyboard.Some? ==>
      && r.keyboard.value == ChannelOptionKeyboard(userId, channels[post.value.channelId].channelId)
      && r.text == OptionPrompt(channels[post.value.channelId])
  {
    if !inReviewGroup then ChannelOptionReply(ReviewGroupOnlyText, None)
    else if !hasReply then ChannelOptionReply(ReplyRequiredText, None)
    else if post.None? then ChannelOptionReply(PostNotFoundText, None)
    else if !post.value.isFromChannel then ChannelOptionReply(NotFromChannelText, None)
    else if post.value.channelId !in channels then ChannelOptionReply(ChannelNotFoundText, None)
    else
      var channel := channels[post.value.channelId];
      ChannelOptionReply(OptionPrompt(channel), Some(ChannelOptionKeyboard(userId, channel.channelId)))
  }

  /**
   * After the callback stores an option, the text command shows that option
   * as the current setting of the channel.
   */
  lemma CommandShowsStoredOption(
    id: int, o: ChannelOption, channels: map<int, Channel>, cmd: string, userId: int)
    requires MinLong <= id <= MaxLong && !o.Unnamed? && id in channels && channels[id].channelId == id
    ensures var after := QueryChannelOption([cmd, DecimalString(id), OptionToken(o)], channels).channels;
      var r := ChannelOptionCommand(true, true, Some(ChannelPost(true, id)), userId, after);
      && r.keyboard == Some(ChannelOptionKeyboard(userId, id))
      && r.text == "请选择针对来自 " + channels[id].title + " 的稿件的处理方式\n当前设置: " + OptionText(o)
  {
    QueryStoresOption(id, o, channels, cmd);
  }
}
