# XinjingdailyBot review core in Dafny

This project models the decision logic of the XinjingdailyBot Telegram
submission bot and proves properties of it. It covers four pieces.

- **The review callback handler** (`ReviewCommand.HandleQuery`). A moderator
  presses a button under a submitted post. The handler checks five guards in
  order: the post exists, it has not timed out, it is still under review, the
  user holds the review right, and the callback data is not empty. It then
  decodes the button's token and runs one action: open the reject-reason
  picker, go back, toggle the spoiler, accept in one of three ways, toggle
  anonymity, cancel, set a tag, or reject with a catalogue reason. The `NO`
  (reject with a typed reason) and `EDIT` (replace the post text) commands
  have guard chains of their own.
- **The inline keyboards** of `MarkupHelper`, and the agreement between the
  tokens they send and the tokens the handler decodes.
- **The attachment normaliser** `AttachmentService.GenerateAttachment`. It
  turns one inbound media message into an attachment record.
- **Two super-admin commands** of `SuperCommand`. `CHANNELOPTION` shows and
  sets how posts forwarded from a source channel are handled. `RECALCPOST`
  recounts every user's five post statistics, ten users per page.

Telegram calls become `Effect` values in the order the handler issues them.
Calls into the post service, whose bodies are not visible, are recorded as
`Effect.Call` values with their arguments. The post under review is a class
(`ReviewCommand.Post`). Its toggle methods and `ResponseNo` update its fields
in place. Each of these methods is proved equal to a pure function
(`AnonymityToggled`, `SpoilerToggled`, `QueryResponse`, `NoChecks`), and the
properties are proved about those functions. The recount is a `while` loop
over pages of a `UserTable`. It creates a fresh `Domain.User` object per
listed user and writes changed users back. It is proved against the spec
functions `Recounted` and `StaleCount`.

Files: `wrappers.dfy` (Option), `strings.dfy` (.NET `Trim`, `string.Join`,
`long.ToString`, `long.TryParse`), `domain.dfy` (post status, tags, rights,
reject reasons, the user row), `review.dfy` and `review_props.dfy` (the
handler and its properties), `markup.dfy` (the keyboards), `protocol.dfy`
(keyboard tokens against the decoder), `attachment.dfy`, `super.dfy`
(channel options) and `recalc.dfy` (the recount).

Three behaviours of the source that a reader might not expect, modelled as written:
- Audio attachments take the MIME type the file declares, with `""` as the default (XinjingdailyBot.Service/Data/AttachmentService.cs:35-46).
- A photo attachment is built from the photo size listed last, `Photo.Last()` (XinjingdailyBot.Service/Data/AttachmentService.cs:23-34).
- The token `review tag` with nothing after it makes the handler throw an out-of-range exception: `data[11..]` on a 10-character string (XinjingdailyBot.Command/ReviewCommand.cs:216-218).

## Model

| member | source | states |
|---|---|---|
| ReviewCommand.Decode | XinjingdailyBot.Command/ReviewCommand.cs:179-233 | an exact token always names an action; data is ignored exactly when it is neither an exact token nor starts with `review tag` or `reject `; decoding fails on exactly the data `review tag` |
| ReviewCommand.Screen | XinjingdailyBot.Command/ReviewCommand.cs:143-177 | the handler goes on exactly when the post exists, is Reviewing, the user may review and the data is non-empty; every stop starts with a reply and calls no service; the keyboard is stripped exactly for a missing post or a finished post that did not time out; the message text is replaced exactly for a timed-out post |
| ReviewCommand.SpoilerArg | XinjingdailyBot.Command/ReviewCommand.cs:251 | the spoiler argument is `null` exactly when the media cannot carry a spoiler, else the current flag |
| ReviewCommand.Canceled | XinjingdailyBot.Command/ReviewCommand.cs:289-296 | the cancel call comes first and is the only service call; the message text is replaced by the cancel notice, which is also shown as a toast; `ReviewProperties.CancelRouting` says when it runs |
| ReviewCommand.RejectedByPayload | XinjingdailyBot.Command/ReviewCommand.cs:306-315 | one effect: a service call exactly when the payload is in the catalogue, otherwise an alert; `ReviewProperties.UnknownReasonNeverRejects` and `RejectUsesCatalogue` name the call |
| ReviewCommand.KeyboardSwitched | XinjingdailyBot.Command/ReviewCommand.cs:324-338 | no service call; the last effect redraws the reason picker in reject mode and otherwise the main review keyboard with the post's tags and spoiler argument; a reply comes first exactly in reject mode |
| ReviewCommand.Dispatched | XinjingdailyBot.Command/ReviewCommand.cs:179-235 | ignored or throwing data changes nothing and calls no service; `CancelPost` is called exactly for the cancel action; `ReviewProperties.DispatchKeepsIdentity` and `DispatchAccept` give the rest |
| ReviewCommand.Post.SetAnonymous | XinjingdailyBot.Command/ReviewCommand.cs:244-255 | the post's new state and the effects are those of `AnonymityToggled` on the old state |
| ReviewCommand.Post.SetSpoiler | XinjingdailyBot.Command/ReviewCommand.cs:263-281 | the post's new state and the effects are those of `SpoilerToggled` on the old state |
| ReviewCommand.HandleQuery | XinjingdailyBot.Command/ReviewCommand.cs:140-236 | the post's new state and the effects equal `QueryResponse` of the old state, the user's right and the data |
| ReviewCommand.NoChecks | XinjingdailyBot.Command/ReviewCommand.cs:42-68 | `NO` passes exactly when it is in the review group, a reply, on a Reviewing post, with arguments that are not all blank; the reason is the trimmed space-joined arguments, non-empty and without white space at either end |
| ReviewCommand.TypedReason | XinjingdailyBot.Command/ReviewCommand.cs:72-75 | a typed reason has no payload, and its name and full text are both the reason |
| ReviewCommand.ResponseNo | XinjingdailyBot.Command/ReviewCommand.cs:38-83 | when a check fails: its reply, no effect, the post unchanged; when all pass: the handler itself writes only the post's reject reason, makes one `RejectPost` call with the typed reason and the HTML text, and sends the confirmation reply |
| ReviewCommand.ResponseEditPost | XinjingdailyBot.Command/ReviewCommand.cs:94-127 | `EditPostText` is called exactly when the chat is private or the review group, the message is a reply, the post is Reviewing and its poster is a known user; the text is the trimmed space-joined arguments |
| ReviewProperties.ExactTokensWin | XinjingdailyBot.Command/ReviewCommand.cs:179-226 | `reject back` and `review reject back` go back, `review reject` opens the picker, and both `review spoiler` and `review tag spoiler` toggle the spoiler |
| ReviewProperties.AcceptRouting | XinjingdailyBot.Command/ReviewCommand.cs:195-205 | the three accept tokens lead to `(inPlan, second)` = `(true,false)`, `(false,false)` and `(false,true)` |
| ReviewProperties.AcceptEndToEnd | XinjingdailyBot.Command/ReviewCommand.cs:195-205 | on a post under review, an accept token makes exactly one `AcceptPost` call, for the pressing reviewer with that token's arguments, and nothing else |
| ReviewProperties.AcceptOnlyFromAcceptTokens | XinjingdailyBot.Command/ReviewCommand.cs:143-205 | every `AcceptPost` call needs the open gate and one of the three accept tokens, and carries the pressing reviewer and `inPlan`/`second` set exactly for `review inplan`/`review accept second` |
| ReviewProperties.DispatchAccept | XinjingdailyBot.Command/ReviewCommand.cs:195-205 | a decoded action calls `AcceptPost` only when it is an accept, with the reviewer and the mode's arguments |
| ReviewProperties.DecodeAccept | XinjingdailyBot.Command/ReviewCommand.cs:195-205 | only the accept token of a mode decodes to that accept |
| ReviewProperties.DecodeToken | XinjingdailyBot.Command/ReviewCommand.cs:179-233 | every action a token can carry decodes back from its token |
| ReviewProperties.DecodedIsCanonical | XinjingdailyBot.Command/ReviewCommand.cs:179-233 | decoding never yields a tag payload `spoiler` or a reason payload `back`, so every decoded action has a token of its own |
| ReviewProperties.DecodeRejectIff | XinjingdailyBot.Command/ReviewCommand.cs:228-231 | data rejects with payload `p` exactly when it is `reject ` + `p` and `p` is not `back` |
| ReviewProperties.DecodeTagIff | XinjingdailyBot.Command/ReviewCommand.cs:216-226 | data sets tag `p` exactly when it starts with `review tag`, is at least 11 long, has `p` from index 11 and `p` is not `spoiler`; the character at index 10 is skipped whatever it is |
| ReviewProperties.MissingPostOnlyReports | XinjingdailyBot.Command/ReviewCommand.cs:143-149 | no post: exactly the not-found alert and a stripped keyboard |
| ReviewProperties.FinishedPostUntouched | XinjingdailyBot.Command/ReviewCommand.cs:151-164 | a post that is not Reviewing is unchanged and no service is called; a timed-out post gets the expired reply and text, any other the repeated-operation alert and a stripped keyboard |
| ReviewProperties.RightAndDataCheckedAfterStatus | XinjingdailyBot.Command/ReviewCommand.cs:166-177 | on a Reviewing post, a missing right or empty data gives exactly one alert and nothing else |
| ReviewProperties.EffectsNeedOpenGate | XinjingdailyBot.Command/ReviewCommand.cs:143-177 | any service call or change to the post implies all five guards passed |
| ReviewProperties.QueryKeepsPostIdentity | XinjingdailyBot.Command/ReviewCommand.cs:179-236 | the handler itself writes no field of the post except the anonymous and spoiler flags, and never turns a spoiler on for media that cannot carry one; what the recorded service calls do to the post is not part of this claim |
| ReviewProperties.DispatchKeepsIdentity | XinjingdailyBot.Command/ReviewCommand.cs:179-233 | each decoded action itself writes at most the anonymous and spoiler flags of the post and keeps the spoiler consistent |
| ReviewProperties.RejectButtonOnlySwitchesKeyboard | XinjingdailyBot.Command/ReviewCommand.cs:181-183 | `review reject` asks for a reason, shows the reason picker, and leaves the post unchanged |
| ReviewProperties.BackRestoresReviewKeyboard | XinjingdailyBot.Command/ReviewCommand.cs:186-189 | both back tokens only redraw the main review keyboard with the post's tags and spoiler argument |
| ReviewProperties.UnknownTokenIsNoOp | XinjingdailyBot.Command/ReviewCommand.cs:215-233 | a token that is not exact and has neither prefix has no effect at all |
| ReviewProperties.RejectUsesCatalogue | XinjingdailyBot.Command/ReviewCommand.cs:228-231 | `reject p` rejects with the catalogue reason for `p`, or only alerts when `p` has no entry; the post is unchanged |
| ReviewProperties.CancelRouting | XinjingdailyBot.Command/ReviewCommand.cs:211-213 | `CancelPost` is called exactly when all five guards pass and the data is `review cancel`; the effects are then the call, the message text replaced by the cancel notice and the notice as a toast (`CancelPost`, lines 289-296), with the post unchanged |
| ReviewProperties.UnknownReasonNeverRejects | XinjingdailyBot.Command/ReviewCommand.cs:306-315 | every service call of `RejectPostHelper` is `RejectPost` with the catalogue reason of a payload that is in the catalogue |
| ReviewProperties.TagTokenRouting | XinjingdailyBot.Command/ReviewCommand.cs:216-226 | `review tag p` calls `SetPostTag(p)` alone, except `spoiler`, which toggles the spoiler |
| ReviewProperties.BareTagTokenThrows | XinjingdailyBot.Command/ReviewCommand.cs:216-218 | the data `review tag` makes the handler throw before any effect |
| ReviewProperties.SpoilerToggleSpec | XinjingdailyBot.Command/ReviewCommand.cs:263-281 | media without spoiler support only get an alert; otherwise the flag flips, the service stores it, and the keyboard of the post's kind is redrawn with the new flag |
| ReviewProperties.SpoilerToggleTwice | XinjingdailyBot.Command/ReviewCommand.cs:263-271 | toggling the spoiler twice restores the post |
| ReviewProperties.AnonymityToggleSpec | XinjingdailyBot.Command/ReviewCommand.cs:244-255 | the flag flips, the service stores it, and the direct-post keyboard is redrawn with a `null` spoiler argument exactly when the media cannot carry one |
| ReviewProperties.AnonymityToggleTwice | XinjingdailyBot.Command/ReviewCommand.cs:244-249 | toggling anonymity twice restores the post |
| ReviewProperties.NoRejectsOnlyWhenAllChecksPass | XinjingdailyBot.Command/ReviewCommand.cs:42-76 | `NO` rejects exactly when all five checks pass, and the reason it builds has name = full text = the trimmed joined arguments |
| ReviewProperties.EditAcceptsBlankText | XinjingdailyBot.Command/ReviewCommand.cs:123-124 | `EDIT` with blank arguments replaces the text with `""` |
| Strings.Trim | XinjingdailyBot.Command/ReviewCommand.cs:63 | the trim is empty exactly for all-white input, and otherwise starts and ends with a non-white character |
| Strings.TrimIsSlice | XinjingdailyBot.Command/ReviewCommand.cs:63 | the trim is the slice `[a, b)` of the input with `a` the number of leading white characters and only white space before `a` and from `b` on |
| Strings.TrimPadded | XinjingdailyBot.Command/ReviewCommand.cs:63 | a core with non-white ends between white padding trims to exactly that core |
| Strings.TrimIdempotent | XinjingdailyBot.Command/ReviewCommand.cs:63 | trimming twice is trimming once |
| Strings.JoinWithSpace | XinjingdailyBot.Command/ReviewCommand.cs:63 | the join is all white space exactly when every part is |
| Strings.JoinedTrimEmpty | XinjingdailyBot.Command/ReviewCommand.cs:63-68 | the trimmed joined arguments are empty exactly when every argument is blank |
| Strings.ParseLong | XinjingdailyBot.Command/SuperCommand.cs:145 | a parsed value lies in the 64-bit range; trailing NUL characters are accepted after the number and its white space |
| Strings.ParseLongRejectsForeign | XinjingdailyBot.Command/SuperCommand.cs:145 | a character that is neither a digit, a sign, number white space nor a NUL makes the parse fail |
| Strings.ParseLongRejectsInnerNul | XinjingdailyBot.Command/SuperCommand.cs:145 | a NUL followed by any other character makes the parse fail |
| Strings.ParseLongTrailingNul | XinjingdailyBot.Command/SuperCommand.cs:145 | `7` followed by a NUL parses to 7 |
| Strings.ParseLongWhiteThenNul | XinjingdailyBot.Command/SuperCommand.cs:145 | `7`, a space and two NULs parse to 7 |
| Strings.ParseLongNulThenWhite | XinjingdailyBot.Command/SuperCommand.cs:145 | `7`, a NUL and a space do not parse |
| Strings.ParseLongRejectsLateSign | XinjingdailyBot.Command/SuperCommand.cs:145 | a sign after the first non-white character makes the parse fail |
| Strings.ParseLongRejectsInnerWhite | XinjingdailyBot.Command/SuperCommand.cs:145 | white space between two non-white characters, the second not a NUL, makes the parse fail |
| Strings.ParseLongNeedsDigit | XinjingdailyBot.Command/SuperCommand.cs:145 | a string without a digit does not parse |
| Strings.ParseLongPadded | XinjingdailyBot.Command/SuperCommand.cs:145 | the decimal form of a 64-bit value, with number white space on either side and any run of NULs after that, parses to the value |
| Strings.DecimalStringCanonical | XinjingdailyBot.Command/SuperCommand.cs:145 | the decimal form of a value has shortest digits, with `-` only before a non-zero value |
| Strings.ParseLongCanonical | XinjingdailyBot.Command/SuperCommand.cs:145 | a canonical decimal string that parses is the decimal form of the value it parses to |
| Strings.ParseLongDecimalString | XinjingdailyBot.Command/SuperCommand.cs:145-173 | parsing the decimal form of a 64-bit value gives the value back |
| MarkupHelper.PostKeyboard | XinjingdailyBot/Helpers/MarkupHelper.cs:35-50 | two rows; the tokens, captions and last row are stated by `PostKeyboardShape`, and the decoding of its tokens by `Protocol.PostKeyboardIgnored` |
| MarkupHelper.DirectPostKeyboard | XinjingdailyBot/Helpers/MarkupHelper.cs:52-77 | four rows; the tokens, captions and last row are stated by `DirectPostKeyboardShape`, and the decoding of its buttons by `Protocol.DirectPostKeyboardDecodes` |
| MarkupHelper.ReviewKeyboardA | XinjingdailyBot/Helpers/MarkupHelper.cs:79-99 | three rows; the tokens, captions and last row are stated by `ReviewKeyboardAShape`, and the decoding of its buttons by `Protocol.ReviewKeyboardADecodes` |
| MarkupHelper.ReviewKeyboardB | XinjingdailyBot/Helpers/MarkupHelper.cs:101-124 | three rows; the tokens and last row are stated by `ReviewKeyboardBShape`, and the decoding of its buttons by `Protocol.ReviewKeyboardBDecodes` |
| MarkupHelper.SetUserGroupKeyboard | XinjingdailyBot/Helpers/MarkupHelper.cs:126-149 | the table only: four rows; nothing is claimed about its tokens |
| MarkupHelper.PostKeyboardShape | XinjingdailyBot/Helpers/MarkupHelper.cs:35-50 | fixed tokens; the anonymity button shows the anonymous caption exactly when `anymouse`; the last row is cancel then confirm |
| MarkupHelper.DirectPostKeyboardShape | XinjingdailyBot/Helpers/MarkupHelper.cs:52-77 | four rows of fixed tokens; each tag button shows the caption for that tag's own flag; the anonymity caption follows `anymouse`; the last row is cancel then accept |
| MarkupHelper.DirectPostButtons | XinjingdailyBot/Helpers/MarkupHelper.cs:52-77 | the buttons row after row: three tag toggles, anonymity, cancel, accept |
| MarkupHelper.ReviewKeyboardAShape | XinjingdailyBot/Helpers/MarkupHelper.cs:79-99 | three rows of fixed tokens; each tag caption follows its own flag; the last row is exactly reject then accept |
| MarkupHelper.ReviewAButtons | XinjingdailyBot/Helpers/MarkupHelper.cs:79-99 | the buttons row after row: three tag toggles, reject, accept |
| MarkupHelper.ReviewKeyboardBShape | XinjingdailyBot/Helpers/MarkupHelper.cs:101-124 | the reason picker is constant: seven `reject <reason>` tokens, then `reject back` alone in the last row |
| MarkupHelper.TagButtonsLabels | XinjingdailyBot/Helpers/MarkupHelper.cs:58-63 | the first button sending a tag's token shows the caption for that tag's flag |
| MarkupHelper.TagLabelIsLocal | XinjingdailyBot/Helpers/MarkupHelper.cs:58-90 | two tag sets that agree on a tag draw the same caption for it, whatever the other tags |
| MarkupHelper.TokensIgnoreState | XinjingdailyBot/Helpers/MarkupHelper.cs:41-95 | the tokens of all three state-dependent keyboards are the same for every flag and tag set |
| Protocol.PostKeyboardIgnored | XinjingdailyBot/Helpers/MarkupHelper.cs:35-50 | the review handler ignores every token of the submitter's keyboard |
| Protocol.TagTokensDecode | XinjingdailyBot/Helpers/MarkupHelper.cs:58-63 | each tag button asks the handler to set that tag |
| Protocol.DirectPostKeyboardDecodes | XinjingdailyBot/Helpers/MarkupHelper.cs:52-77 | the direct-post keyboard decodes, button by button, to three tags, anonymity, cancel and accept |
| Protocol.ReviewKeyboardADecodes | XinjingdailyBot/Helpers/MarkupHelper.cs:79-99 | the main review keyboard decodes to three tags, the reason picker and accept |
| Protocol.ReviewKeyboardBDecodes | XinjingdailyBot/Helpers/MarkupHelper.cs:101-124 | each reason button rejects with its own payload and the last button goes back |
| AttachmentService.GenerateAttachment | XinjingdailyBot.Service/Data/AttachmentService.cs:15-113 | there is no record exactly for the kinds outside the six media kinds; a record carries the post id, the message kind, the source file's id and unique id, and the declared size or 0 |
| AttachmentService.Dimensions | XinjingdailyBot.Service/Data/AttachmentService.cs:21-95 | audio, voice and document get -1 for both dimensions; photo (its last size), video and animation copy theirs |
| AttachmentService.SentinelExactlyWithoutDimensions | XinjingdailyBot.Service/Data/AttachmentService.cs:21-95 | with non-negative platform dimensions, -1 appears exactly on the kinds without dimensions |
| AttachmentService.FileNames | XinjingdailyBot.Service/Data/AttachmentService.cs:21-95 | audio: title, else file name, else `""`; photo and voice: `""`; the other three: file name, else `""` |
| AttachmentService.MimeTypes | XinjingdailyBot.Service/Data/AttachmentService.cs:21-95 | photo and voice: `""`; the other four kinds, audio included: the declared type, else `""` |
| SuperCommand.OptionText | XinjingdailyBot.Command/SuperCommand.cs:113-118 | the display is the unknown-value text exactly for a stored code outside the three options |
| SuperCommand.ParsedOptionText | XinjingdailyBot.Command/SuperCommand.cs:157-162 | the display is the unknown-value text exactly when nothing was parsed |
| SuperCommand.DisplayTablesAgree | XinjingdailyBot.Command/SuperCommand.cs:113-162 | the command's and the callback's display tables agree on every option |
| SuperCommand.ParseOption | XinjingdailyBot.Command/SuperCommand.cs:150-155 | exactly `normal`, `purgeorigin` and `autoreject` parse, and only to named options |
| SuperCommand.ParseOptionToken | XinjingdailyBot.Command/SuperCommand.cs:150-155 | each named option parses back from its name |
| SuperCommand.OptionTokenOfParse | XinjingdailyBot.Command/SuperCommand.cs:150-155 | a parsed name is the name of the option it parses to |
| SuperCommand.UpdateChannel | XinjingdailyBot.Command/SuperCommand.cs:169-174 | a channel with that id gets the option and is returned; otherwise nothing is returned and the table is unchanged |
| SuperCommand.QueryChannelOption | XinjingdailyBot.Command/SuperCommand.cs:138-177 | the update is attempted exactly when there are at least three arguments, the id parses and the option name is known; otherwise the table is unchanged; too few arguments or a bad id give the bad-arguments reply |
| SuperCommand.QueryStoresOption | XinjingdailyBot.Command/SuperCommand.cs:145-176 | a well-formed callback for an existing channel stores the option on that channel only and reports it by title |
| SuperCommand.UnknownOptionNotStored | XinjingdailyBot.Command/SuperCommand.cs:164-167 | an unknown option name is reported back and nothing is updated |
| SuperCommand.ChannelOptionCommand | XinjingdailyBot.Command/SuperCommand.cs:82-123 | the option keyboard comes exactly when all five checks pass, for the found channel, with its current option in the prompt; otherwise the reply is that of the first failing check: not the review group, no reply, post not found, post not from a channel, channel not found |
| SuperCommand.CommandShowsStoredOption | XinjingdailyBot.Command/SuperCommand.cs:113-122 | after the callback stores an option, the command shows it as the channel's current setting |
| PostRecount.Count | XinjingdailyBot.Command/SuperCommand.cs:228-232 | a count never exceeds the number of posts |
| PostRecount.CountZero | XinjingdailyBot.Command/SuperCommand.cs:228-232 | a count is zero exactly when no post matches its predicate |
| PostRecount.CountAll | XinjingdailyBot.Command/SuperCommand.cs:228-232 | a count equals the number of posts exactly when every post matches |
| PostRecount.CountConcat | XinjingdailyBot.Command/SuperCommand.cs:228-232 | counting two post tables together adds their counts |
| PostRecount.OutcomesWithinPosts | XinjingdailyBot.Command/SuperCommand.cs:228-231 | accepted (either accept status), rejected and expired (negative status) posts together are at most the user's posts |
| PostRecount.ReviewsExcludeOwnPosts | XinjingdailyBot.Command/SuperCommand.cs:232 | reviews exclude the user's own posts, so reviewed + posted never exceeds the post table |
| PostRecount.Counted | XinjingdailyBot.Command/SuperCommand.cs:228-232 | the five recounted statistics are non-negative, the three outcomes fit within the posts, and reviews plus posts fit within the table |
| Domain.User.Refresh | XinjingdailyBot.Command/SuperCommand.cs:234-245 | the user ends up holding the recount, and reports a change exactly when one of the five stored counts differed |
| PostRecount.UserTable.UpdateUserPostCount | XinjingdailyBot.Command/SuperCommand.cs:244 | only that user's row changes, to the user's five statistics |
| PostRecount.PageFrom | XinjingdailyBot.Command/SuperCommand.cs:221 | a page holds at most `n` positions, each of a row whose id is at least the start id |
| PostRecount.Mark | XinjingdailyBot.Command/SuperCommand.cs:227 | a position is marked after a page exactly when it was marked before or the page lists it |
| PostRecount.Recounted | XinjingdailyBot.Command/SuperCommand.cs:234-245 | recounting keeps the table's length and ids |
| PostRecount.StaleCountMark | XinjingdailyBot.Command/SuperCommand.cs:234-242 | marking one more user adds one to the stale count exactly when that user was unmarked and stale |
| PostRecount.RecountStep | XinjingdailyBot.Command/SuperCommand.cs:234-245 | one user: the table gains that user's recount, is unchanged when nothing differed, and the count grows by one exactly when something differed |
| PostRecount.RefreshPage | XinjingdailyBot.Command/SuperCommand.cs:227-248 | after a page the table is recounted at the page's positions too, and the returned count is the number of those that were stale |
| PostRecount.ReCalcPost | XinjingdailyBot.Command/SuperCommand.cs:210-250 | the loop stops when the next start id passes the user count or a page came back empty; the table is then recounted at exactly the positions the pages listed, and `effectCount` is the number of those that were stale |
| PostRecount.NothingMarked | XinjingdailyBot.Command/SuperCommand.cs:212-215 | before the first page the table is as it was and nothing is counted |
| PostRecount.RecountIdempotent | XinjingdailyBot.Command/SuperCommand.cs:234-245 | recounting twice is recounting once |
| PostRecount.RecountLeavesNothingStale | XinjingdailyBot.Command/SuperCommand.cs:234-245 | after a recount no recounted user is stale, so a second run over the same posts stores nothing |
| PostRecount.PageHoldsRange | XinjingdailyBot.Command/SuperCommand.cs:221 | with ascending ids, a page of `n` from `s` lists every row whose id is in `[s, s + n)` |
| PostRecount.EmptyPageNoneAbove | XinjingdailyBot.Command/SuperCommand.cs:221-225 | a page comes back empty only when no row has an id at or above the start |
| PostRecount.CoveredRange | XinjingdailyBot.Command/SuperCommand.cs:219-250 | with ascending ids, the first `p` pages list every row whose id is in `[1, 1 + 10p)` |
| PostRecount.RecalcReachesEveryUser | XinjingdailyBot.Command/SuperCommand.cs:219-250 | with ascending ids, when the loop stops every user whose id is between 1 and the user count has been recounted |

## Left out

- Telegram I/O (`AutoReplyAsync`, `EditMessageTextAsync`, `EditMessageReplyMarkupAsync`, `SendCommandReply`, logging): modelled only as the `Effect` values and reply texts the handlers produce.
- The bodies of the post-service calls (`AcceptPost`, `RejectPost`, `SetPostTag`, `CancelPost`, `EditPostText`), the reject-reason repository, and the HTML rendering of the command message (the `NO` reply and `RejectPost` carry it without its first four characters): these are not visible. They are recorded calls, a catalogue map and a parameter. Toggling a tag twice is therefore not claimed, because what `SetPostTag` does is not visible.
- `SetPostAnonymous` and `SetPostSpoiler` are taken to store the new flag in the post object, which the later keyboard redraw reads.
- The keyboards the handler redraws come from the markup service interface, whose implementation is not visible. The handler model records a keyboard request (kind, anonymity, tags, spoiler argument) rather than a rendered layout. `MarkupHelper.cs` is the older keyboard builder without a spoiler button.
- MarkupHelper.SetUserGroupKeyboard: only its table is modelled; nothing is claimed about its tokens, which no visible handler decodes and which use three different prefixes.
- The emoji glyphs at the start of some captions are abstract values, and `Langs.PostCanceled` is an abstract text.
- `string.StartsWith` and `long.TryParse` are culture-sensitive in .NET. The model uses ordinal prefixes, ASCII digits and the invariant culture.
- The numeric `EPostStatus` codes are not visible. Only `Expired` is taken to be negative (the `status < 0` query of the recount). The handler also calls the two timeout statuses expired (XinjingdailyBot.Command/ReviewCommand.cs:150-156); counting them as negative too would change the expired statistic but no proof, since the proofs only use that no accept or reject status is negative.
- ReviewProperties.QueryKeepsPostIdentity, ReviewProperties.DispatchKeepsIdentity, ReviewCommand.ResponseNo: `AcceptPost`, `RejectPost`, `CancelPost` and `SetPostTag` are recorded calls. The change they make to the post (its status, its tags) is not modelled, so these contracts speak only of the fields the handler itself writes.
- ReviewProperties.DecodeTagIff: strings are sequences of Unicode scalar values, while .NET strings are sequences of UTF-16 code units. The slices `data[11..]` and `data[7..]` agree with .NET only when no character before the cut lies outside the Basic Multilingual Plane. On `review tag😀x`, .NET keeps a lone low surrogate before `x`, while the model sets the tag `x`.
- AttachmentService.GenerateAttachment: the model requires that the field the message kind names is present and that a photo lists at least one size. Telegram sets `Message.Type` from the field that is present, so the source relies on the same thing.
- Concurrency: the recount runs the users of a page with `Task.WhenAll` and increments `effectCount` without synchronisation. The model runs them one at a time, so the lost increments a race could cause are not modelled. No atomicity of the status check in `HandleQuery` is claimed.
- PostRecount.Page: `GetUserListAfterId` is not visible. It is taken to return the first ten rows, in table order, whose row id is at least the start id. PostRecount.RecalcReachesEveryUser therefore only claims users with ids between 1 and the user count; when the ids have gaps, users with larger ids can be missed.
- SuperCommand.UpdateChannel: `UpdateChannelOptionById` is not visible. It is taken to store the option on the channel with that id and return it, or return `null` when there is none.
- `CountUser`, `CountAsync` and the other database calls are functions of the modelled tables. 32-bit overflow of the counts is not modelled: counts are unbounded naturals.
- The restart, exit and self-update commands, the command-menu commands and advert creation in `SuperCommand.cs`, and the database methods of `AttachmentService`: these are process, network and database plumbing.
- `SetChannelOptionKeyboard` is an opaque keyboard value holding the user and the channel id. Its layout is not visible.
