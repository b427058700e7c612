/**
 * What the review callback handler promises: the order of its guards, that
 * exact tokens win over prefixes, which service call each token leads to,
 * and how the two toggles change a post.
 */
module ReviewProperties {
  import opened Wrappers
  import opened Strings
  import opened Domain
  import opened ReviewCommand

  // ------------------------------------------------------------ decoding

  /** Exact matches are tried before the prefixes. */
  lemma ExactTokensWin()
    ensures Decode("reject back") == Known(BackToReview)
    ensures Decode("review reject back") == Known(BackToReview)
    ensures Decode("review reject") == Known(ShowReasons)
    ensures Decode("review spoiler") == Known(ToggleSpoiler)
    ensures Decode("review tag spoiler") == Known(ToggleSpoiler)
  {
    assert "review tag" <= "review tag spoiler";
    assert "review tag spoiler"[11..] == "spoiler";
  }

  /** The three accept tokens and the `(inPlan, second)` pairs they lead to. */
  lemma AcceptRouting()
    ensures Decode("review inplan") == Known(Accept(ToPlan)) && AcceptArgs(ToPlan) == (true, false)
    ensures Decode("review accept") == Known(Accept(Publish)) && AcceptArgs(Publish) == (false, false)
    ensures Decode("review accept second") == Known(Accept(PublishSecond)) && AcceptArgs(PublishSecond) == (false, true)
  {
  }

  /** An accept token on a post under review calls `AcceptPost` with its arguments, and does nothing else. */
  lemma AcceptEndToEnd(v: PostView, reviewer: int, mode: AcceptMode, catalog: map<string, RejectReason>)
    requires v.status == Reviewing
    ensures QueryResponse(Some(v), true, reviewer, Some(Token(Accept(mode))), catalog)
      == Response(Some(v), [Call(AcceptPost(reviewer, AcceptArgs(mode).0, AcceptArgs(mode).1))])
  {
  }

  /**
   * `AcceptPost` is only ever called behind an open gate, for the pressing
   * reviewer, on one of the three accept tokens, with the arguments that
   * token names.
   */
  lemma AcceptOnlyFromAcceptTokens(
    post: Option<PostView>, canReview: bool, reviewer: int, data: Option<string>,
    catalog: map<string, RejectReason>, c: ServiceCall)
    requires c.AcceptPost? && Calls(QueryResponse(post, canReview, reviewer, data, catalog).effects, c)
    ensures post.Some? && post.value.status == Reviewing && canReview && c.reviewer == reviewer
    ensures data.Some? && data.value in {"review inplan", "review accept", "review accept second"}
    ensures c.inPlan == (data.value == "review inplan") && c.second == (data.value == "review accept second")
  {
    var status := if post.Some? then Some(post.value.status) else None;
    match Screen(status, canReview, data)
    case Halt(_) =>
    case Proceed(d) =>
      DispatchAccept(post.value, reviewer, catalog, Decode(d), c);
      DecodeAccept(d, Decode(d).action.mode);
  }

  /** A decoded action calls `AcceptPost` only when it is an accept, with the reviewer and the mode's arguments. */
  lemma DispatchAccept(v: PostView, reviewer: int, catalog: map<string, RejectReason>, d: Decoded, c: ServiceCall)
    requires c.AcceptPost? && Calls(Dispatched(v, reviewer, catalog, d).effects, c)
    ensures d.Known? && d.action.Accept?
    ensures c == AcceptPost(reviewer, AcceptArgs(d.action.mode).0, AcceptArgs(d.action.mode).1)
  {
    var s := Dispatched(v, reviewer, catalog, d);
    var i :| 0 <= i < |s.effects| && s.effects[i] == Call(c);
  }

  /** Only the accept token of a mode decodes to that accept. */
  lemma DecodeAccept(data: string, mode: AcceptMode)
    requires Decode(data) == Known(Accept(mode))
    ensures data == Token(Accept(mode))
  {
  }

  lemma TagTokenNotExact(p: string)
    ensures "review tag " + p !in ExactTokens
    ensures "review tag" <= "review tag " + p
    ensures ("review tag " + p)[11..] == p
  {
    var d := "review tag " + p;
    assert d[7] == 't';
    assert d[..10] == "review tag";
  }

  lemma RejectTokenNotExact(p: string)
    requires p != "back"
    ensures "reject " + p !in ExactTokens
    ensures !("review tag" <= "reject " + p)
    ensures "reject " <= "reject " + p
    ensures ("reject " + p)[7..] == p
  {
    var d := "reject " + p;
    assert d[2] == 'j';
    assert d[..7] == "reject ";
  }

  /** Every action a token can carry survives the round trip through its token. */
  lemma DecodeToken(a: Action)
    requires Canonical(a)
    ensures Decode(Token(a)) == Known(a)
  {
    match a
    case SetTag(p) => TagTokenNotExact(p);
    case RejectFor(p) => RejectTokenNotExact(p);
    case _ =>
  }

  /** Decoding only ever yields actions that have a token of their own. */
  lemma DecodedIsCanonical(data: string)
    requires Decode(data).Known?
    ensures Canonical(Decode(data).action)
  {
    var d := data;
    if Decode(d).action.RejectFor? {
      assert d == d[..7] + d[7..];
    }
  }

  /** A reason is looked up for exactly the tokens `reject <payload>` other than `reject back`. */
  lemma DecodeRejectIff(data: string, p: string)
    ensures Decode(data) == Known(RejectFor(p)) <==> data == "reject " + p && p != "back"
  {
    if Decode(data) == Known(RejectFor(p)) {
      assert "reject " <= data && data[7..] == p;
      assert data == data[..7] + data[7..];
    }
    if data == "reject " + p && p != "back" {
      RejectTokenNotExact(p);
    }
  }

  /**
   * A tag is set for exactly the data that start with `review tag`, run past
   * index 11 and do not carry `spoiler` there; the character at index 10 is
   * skipped whatever it is.
   */
  lemma DecodeTagIff(data: string, p: string)
    ensures Decode(data) == Known(SetTag(p)) <==>
      |data| >= 11 && data[..10] == "review tag" && data[11..] == p && p != "spoiler"
  {
    if |data| >= 11 && data[..10] == "review tag" {
      assert "review tag" <= data;
      assert data[7] == 't';
    }
  }

  // ------------------------------------------------------ the guard chain

  /** No post: an alert, the keyboard stripped, and nothing else. */
  lemma MissingPostOnlyReports(canReview: bool, reviewer: int, data: Option<string>, catalog: map<string, RejectReason>)
    ensures QueryResponse(None, canReview, reviewer, data, catalog)
      == Response(None, [Reply(Lit(NotFoundText), true), EditMarkup(None)])
  {
  }

  /**
   * A post that is no longer under review is left as it is and no service is
   * called: a timed-out post has its message text replaced, any other
   * finished post gets an alert and loses its keyboard.
   */
  lemma FinishedPostUntouched(
    v: PostView, canReview: bool, reviewer: int, data: Option<string>, catalog: map<string, RejectReason>)
    requires v.status != Reviewing
    ensures var r := QueryResponse(Some(v), canReview, reviewer, data, catalog);
      && r.post == Some(v)
      && NoCalls(r.effects)
      && (TimedOut(v.status) ==> r.effects == [Reply(Lit(ExpiredText), false), EditText(Lit(ExpiredText))])
      && (!TimedOut(v.status) ==> r.effects == [Reply(Lit(RepeatedText), true), EditMarkup(None)])
  {
  }

  /**
   * On a post under review, a user without the review right, or a query
   * without data, gets one alert: nothing is called, edited or changed.
   */
  lemma RightAndDataCheckedAfterStatus(
    v: PostView, canReview: bool, reviewer: int, data: Option<string>, catalog: map<string, RejectReason>)
    requires v.status == Reviewing
    requires !canReview || data.None? || data.value == ""
    ensures var r := QueryResponse(Some(v), canReview, reviewer, data, catalog);
      && r.post == Some(v)
      && |r.effects| == 1
      && r.effects[0] == Reply(Lit(if !canReview then ForbiddenText else InternalErrorText), true)
  {
  }

  /** Any service call, and any change to the post, needs every guard to have passed. */
  lemma EffectsNeedOpenGate(
    post: Option<PostView>, canReview: bool, reviewer: int, data: Option<string>, catalog: map<string, RejectReason>)
    requires var r := QueryResponse(post, canReview, reviewer, data, catalog);
      !NoCalls(r.effects) || r.post != post
    ensures post.Some? && post.value.status == Reviewing && canReview && data.Some? && data.value != ""
  {
  }

  /**
   * The handler never changes a post's status, tags, poster or reject
   * reason itself; only the anonymous and spoiler flags move, and a spoiler
   * stays off on media that cannot carry one.
   */
  lemma QueryKeepsPostIdentity(
    v: PostView, canReview: bool, reviewer: int, data: Option<string>, catalog: map<string, RejectReason>)
    ensures var r := QueryResponse(Some(v), canReview, reviewer, data, catalog);
      && r.post.Some?
      && r.post.value == v.(anonymous := r.post.value.anonymous, hasSpoiler := r.post.value.hasSpoiler)
      && (SpoilerConsistent(v) ==> SpoilerConsistent(r.post.value))
  {
    match Screen(Some(v.status), canReview, data)
    case Proceed(d) => DispatchKeepsIdentity(v, reviewer, catalog, Decode(d));
    case Halt(_) =>
  }

  lemma DispatchKeepsIdentity(v: PostView, reviewer: int, catalog: map<string, RejectReason>, d: Decoded)
    ensures var s := Dispatched(v, reviewer, catalog, d);
      && s.view == v.(anonymous := s.view.anonymous, hasSpoiler := s.view.hasSpoiler)
      && (SpoilerConsistent(v) ==> SpoilerConsistent(s.view))
  {
    match d
    case Known(ToggleSpoiler) =>
    case Known(ToggleAnonymous) =>
    case _ =>
  }

  // ------------------------------------------------------- single actions

  /** Opening the reason picker asks for a reason and changes nothing else. */
  lemma RejectButtonOnlySwitchesKeyboard(v: PostView, reviewer: int, catalog: map<string, RejectReason>)
    requires v.status == Reviewing
    ensures QueryResponse(Some(v), true, reviewer, Some("review reject"), catalog)
      == Response(Some(v), [Reply(Lit(ChooseReasonText), false), EditMarkup(Some(RejectReasonKb))])
  {
  }

  /** Both back tokens redraw the main review keyboard and reject nothing. */
  lemma BackRestoresReviewKeyboard(v: PostView, reviewer: int, data: string, catalog: map<string, RejectReason>)
    requires v.status == Reviewing
    requires data == "reject back" || data == "review reject back"
    ensures QueryResponse(Some(v), true, reviewer, Some(data), catalog)
      == Response(Some(v), [EditMarkup(Some(ReviewMainKb(v.tags, SpoilerArg(v))))])
  {
  }

  /** A token nobody decodes is a silent no-op. */
  lemma UnknownTokenIsNoOp(v: PostView, reviewer: int, data: string, catalog: map<string, RejectReason>)
    requires v.status == Reviewing && data != ""
    requires data !in ExactTokens && !("review tag" <= data) && !("reject " <= data)
    ensures QueryResponse(Some(v), true, reviewer, Some(data), catalog) == Response(Some(v), [])
  {
  }

  /**
   * `reject <payload>` rejects with the catalogue entry for the payload, so
   * the reason's name is the catalogue's; a payload with no entry only alerts.
   */
  lemma RejectUsesCatalogue(v: PostView, reviewer: int, p: string, catalog: map<string, RejectReason>)
    requires v.status == Reviewing && p != "back"
    ensures var r := QueryResponse(Some(v), true, reviewer, Some("reject " + p), catalog);
      && r.post == Some(v)
      && (p in catalog ==> r.effects == [Call(RejectPost(reviewer, catalog[p], None))])
      && (p !in catalog ==> |r.effects| == 1 && r.effects[0].Reply? && r.effects[0].alert)
  {
    RejectTokenNotExact(p);
  }

  /** Only the data `review cancel` decodes to a cancel. */
  lemma DecodeCancelIff(data: string)
    ensures Decode(data) == Known(CancelSubmission) <==> data == "review cancel"
  {
  }

  /**
   * The post is cancelled exactly when every guard passes and the data is
   * `review cancel`; then the handler cancels, replaces the message text
   * with the cancel notice and shows it as a toast, and the post is
   * otherwise untouched.
   */
  lemma CancelRouting(
    post: Option<PostView>, canReview: bool, reviewer: int, data: Option<string>, catalog: map<string, RejectReason>)
    ensures var r := QueryResponse(post, canReview, reviewer, data, catalog);
      && (Calls(r.effects, CancelPost) <==>
            post.Some? && post.value.status == Reviewing && canReview && data == Some("review cancel"))
      && (Calls(r.effects, CancelPost) ==>
            r == Response(post, [Call(CancelPost), EditText(PostCanceledText), Reply(PostCanceledText, false)]))
  {
    var r := QueryResponse(post, canReview, reviewer, data, catalog);
    var status := if post.Some? then Some(post.value.status) else None;
    match Screen(status, canReview, data)
    case Halt(_) =>
    case Proceed(d) =>
      DecodeCancelIff(d);
      if Decode(d) == Known(CancelSubmission) {
        assert r.effects[0] == Call(CancelPost);
      }
  }

  /** `RejectPostHelper` calls `RejectPost` only with a reason found in the catalogue. */
  lemma UnknownReasonNeverRejects(reviewer: int, catalog: map<string, RejectReason>, payload: string, c: ServiceCall)
    requires Calls(RejectedByPayload(reviewer, catalog, payload), c)
    ensures payload in catalog && c == RejectPost(reviewer, catalog[payload], None)
  {
  }

  /** A tag token hands its payload to `SetPostTag`, except `spoiler`, which toggles the spoiler. */
  lemma TagTokenRouting(v: PostView, reviewer: int, p: string, catalog: map<string, RejectReason>)
    requires v.status == Reviewing
    ensures var r := QueryResponse(Some(v), true, reviewer, Some("review tag " + p), catalog);
      && (p != "spoiler" ==> r == Response(Some(v), [Call(SetPostTag(p))]))
      && (p == "spoiler" ==> r == Response(Some(SpoilerToggled(v).view), SpoilerToggled(v).effects))
  {
    TagTokenNotExact(p);
  }

  /** The token `review tag` itself makes the handler throw before it does anything. */
  lemma BareTagTokenThrows(v: PostView, reviewer: int, catalog: map<string, RejectReason>)
    requires v.status == Reviewing
    ensures QueryResponse(Some(v), true, reviewer, Some("review tag"), catalog) == Response(Some(v), [Threw])
  {
  }

  /**
   * The spoiler toggle: media that cannot carry a spoiler only get an alert;
   * otherwise the flag flips, the service stores it, and the keyboard of the
   * post's kind is redrawn with the new flag.
   */
  lemma SpoilerToggleSpec(v: PostView)
    ensures var s := SpoilerToggled(v);
      && (!v.canSpoiler ==> s.view == v && s.effects == [Reply(Lit(SpoilerUnsupportedText), true)])
      && (v.canSpoiler ==>
            && s.view == v.(hasSpoiler := !v.hasSpoiler)
            && Calls(s.effects, SetPostSpoiler(!v.hasSpoiler))
            && s.effects[|s.effects| - 1] == EditMarkup(Some(
                 if v.isDirectPost then DirectPostKb(v.anonymous, v.tags, Some(!v.hasSpoiler))
                 else ReviewMainKb(v.tags, Some(!v.hasSpoiler)))))
  {
    if v.canSpoiler {
      assert SpoilerToggled(v).effects[0] == Call(SetPostSpoiler(!v.hasSpoiler));
    }
  }

  /** Pressing the spoiler toggle twice restores the post. */
  lemma SpoilerToggleTwice(v: PostView)
    ensures SpoilerToggled(SpoilerToggled(v).view).view == v
  {
  }

  /**
   * The anonymity toggle flips the flag, stores it, and always redraws the
   * direct-post keyboard, passing no spoiler state exactly when the media
   * cannot carry one.
   */
  lemma AnonymityToggleSpec(v: PostView)
    ensures var s := AnonymityToggled(v);
      && s.view == v.(anonymous := !v.anonymous)
      && Calls(s.effects, SetPostAnonymous(!v.anonymous))
      && s.effects[|s.effects| - 1].EditMarkup?
      && s.effects[|s.effects| - 1].keyboard.Some?
      && s.effects[|s.effects| - 1].keyboard.value.DirectPostKb?
      && s.effects[|s.effects| - 1].keyboard.value.anonymous == !v.anonymous
      && (s.effects[|s.effects| - 1].keyboard.value.hasSpoiler.None? <==> !v.canSpoiler)
  {
    assert AnonymityToggled(v).effects[1] == Call(SetPostAnonymous(!v.anonymous));
  }

  /** Pressing the anonymity toggle twice restores the post. */
  lemma AnonymityToggleTwice(v: PostView)
    ensures AnonymityToggled(AnonymityToggled(v).view).view == v
  {
  }

  // ----------------------------------------------------------- commands

  /**
   * `NO` rejects with a typed reason exactly when all five checks pass; the
   * reason is the trimmed, space-joined arguments.
   */
  lemma NoRejectsOnlyWhenAllChecksPass(inReviewGroup: bool, isReply: bool, post: Option<PostStatus>, args: seq<string>)
    ensures var c := NoChecks(inReviewGroup, isReply, post, args);
      && (c.Pass? <==> inReviewGroup && isReply && post == Some(Reviewing) && Trim(JoinWithSpace(args)) != "")
      && (c.Pass? ==> TypedReason(c.text).name == TypedReason(c.text).fullText == Trim(JoinWithSpace(args)))
  {
    JoinedTrimEmpty(args);
  }

  /** Unlike `NO`, `EDIT` accepts blank text and replaces the description with `""`. */
  lemma EditAcceptsBlankText(isPrivateChat: bool, v: PostView, knownUsers: set<int>, args: seq<string>)
    requires v.status == Reviewing && v.posterUid in knownUsers && AllBlank(args)
    ensures ResponseEditPost(isPrivateChat, true, true, Some(v), knownUsers, args).call == Some(EditPostText(""))
  {
    JoinedTrimEmpty(args);
  }
}
