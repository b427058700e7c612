/**
 * The keyboards of `MarkupHelper` and the decoder of `ReviewCommand` agree:
 * every button of a review keyboard sends a token the review handler
 * understands, and the submitter's keyboard sends none that it does.
 */
module Protocol {
  import opened Domain
  import opened MarkupHelper
  import opened ReviewCommand
  import ReviewProperties

  /** The decoding of each token of a keyboard, in order. */
  function DecodeAll(tokens: seq<string>): seq<Decoded> {
    seq(|tokens|, i requires 0 <= i < |tokens| => Decode(tokens[i]))
  }

  /** What each tag button asks the review handler to do. */
  lemma TagTokensDecode(t: Tag)
    ensures Decode(TagToken(t)) == Known(SetTag(TagName(t)))
  {
    ReviewProperties.TagTokenNotExact(TagName(t));
    TagTokenValues();
  }

  /** The keyboard tokens that name an action outright. */
  lemma ExactTokensDecode()
    ensures Decode("review anymouse") == Known(ToggleAnonymous)
    ensures Decode("review cancel") == Known(CancelSubmission)
    ensures Decode("review accept") == Known(Accept(Publish))
    ensures Decode("review reject") == Known(ShowReasons)
  {
  }

  /** `DecodeAll` is the pointwise decoding. */
  lemma DecodeAllIs(tokens: seq<string>, expected: seq<Decoded>)
    requires |tokens| == |expected|
    requires forall i :: 0 <= i < |tokens| ==> Decode(tokens[i]) == expected[i]
    ensures DecodeAll(tokens) == expected
  {
  }

  /** The submitter's keyboard belongs to another handler: the review decoder ignores all of it. */
  lemma PostKeyboardIgnored(anymouse: bool)
    ensures forall tk :: tk in Tokens(PostKeyboard(anymouse)) ==> Decode(tk) == Ignored
  {
    PostKeyboardShape(anymouse);
    assert "post anymouse"[0] == 'p';
    assert "post cancel"[0] == 'p';
    assert "post confirm"[0] == 'p';
  }

  /** The tag tokens the keyboards send, written out. */
  lemma TagLiteralsDecode()
    ensures Decode("review tag nsfw") == Known(SetTag("nsfw"))
    ensures Decode("review tag wanan") == Known(SetTag("wanan"))
    ensures Decode("review tag friend") == Known(SetTag("friend"))
  {
    TagTokenValues();
    TagTokensDecode(NSFW);
    TagTokensDecode(WanAn);
    TagTokensDecode(Friend);
  }

  lemma DirectPostTokensDecode()
    ensures DecodeAll(DirectPostTokens) ==
      [Known(SetTag("nsfw")), Known(SetTag("wanan")), Known(SetTag("friend")),
       Known(ToggleAnonymous), Known(CancelSubmission), Known(Accept(Publish))]
  {
    TagLiteralsDecode();
    ExactTokensDecode();
    DecodeAllIs(DirectPostTokens,
      [Known(SetTag("nsfw")), Known(SetTag("wanan")), Known(SetTag("friend")),
       Known(ToggleAnonymous), Known(CancelSubmission), Known(Accept(Publish))]);
  }

  lemma ReviewTokensADecode()
    ensures DecodeAll(ReviewTokensA) ==
      [Known(SetTag("nsfw")), Known(SetTag("wanan")), Known(SetTag("friend")),
       Known(ShowReasons), Known(Accept(Publish))]
  {
    TagLiteralsDecode();
    ExactTokensDecode();
    DecodeAllIs(ReviewTokensA,
      [Known(SetTag("nsfw")), Known(SetTag("wanan")), Known(SetTag("friend")),
       Known(ShowReasons), Known(Accept(Publish))]);
  }

  /** The reviewer's keyboard on a direct post: three tags, anonymity, cancel and accept. */
  lemma DirectPostKeyboardDecodes(anymouse: bool, tag: set<Tag>)
    ensures DecodeAll(Tokens(DirectPostKeyboard(anymouse, tag))) ==
      [Known(SetTag("nsfw")), Known(SetTag("wanan")), Known(SetTag("friend")),
       Known(ToggleAnonymous), Known(CancelSubmission), Known(Accept(Publish))]
  {
    DirectPostKeyboardShape(anymouse, tag);
    DirectPostTokensDecode();
  }

  /** The first review keyboard: three tags, open the reason picker, accept. */
  lemma ReviewKeyboardADecodes(tag: set<Tag>)
    ensures DecodeAll(Tokens(ReviewKeyboardA(tag))) ==
      [Known(SetTag("nsfw")), Known(SetTag("wanan")), Known(SetTag("friend")),
       Known(ShowReasons), Known(Accept(Publish))]
  {
    ReviewKeyboardAShape(tag);
    ReviewTokensADecode();
  }

  /** Each reason button sends `reject ` followed by its payload. */
  lemma RejectTokenAt(i: nat)
    requires i < |RejectReasonPayloads|
    ensures ReviewTokensB[i] == "reject " + RejectReasonPayloads[i]
  {
  }

  /**
   * The reason picker: each of the seven reason buttons rejects with its own
   * payload, and the last button goes back to the review keyboard.
   */
  lemma ReviewKeyboardBDecodes()
    ensures |Tokens(ReviewKeyboardB())| == |RejectReasonPayloads| + 1
    ensures forall i :: 0 <= i < |RejectReasonPayloads| ==>
      Decode(Tokens(ReviewKeyboardB())[i]) == Known(RejectFor(RejectReasonPayloads[i]))
    ensures Decode(Tokens(ReviewKeyboardB())[|RejectReasonPayloads|]) == Known(BackToReview)
  {
    ReviewKeyboardBShape();
    forall i | 0 <= i < |RejectReasonPayloads|
      ensures Decode(ReviewTokensB[i]) == Known(RejectFor(RejectReasonPayloads[i]))
    {
      RejectTokenAt(i);
      ReviewProperties.RejectTokenNotExact(RejectReasonPayloads[i]);
    }
  }
}
