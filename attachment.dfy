/**
 * `AttachmentService.GenerateAttachment`: one inbound message of a media kind
 * becomes one attachment record, with `""`, `0` and `-1` where the kind has
 * no name, MIME type, size or dimensions.
 */
module AttachmentService {
  import opened Wrappers

  /** `MessageType`: the six media kinds, and every other kind of message. */
  datatype MessageType =
    | Photo | Audio | Video | Voice | Document | Animation
    | OtherType(name: string)

  predicate IsMedia(t: MessageType) {
    !t.OtherType?
  }

  /** Kinds whose records carry pixel dimensions. */
  predicate HasDimensions(t: MessageType) {
    t == Photo || t == Video || t == Animation
  }

  datatype PhotoSize = PhotoSize(
    fileId: string, fileUniqueId: string, fileSize: Option<int>, width: int, height: int)
  datatype AudioFile = AudioFile(
    fileId: string, fileUniqueId: string, fileSize: Option<int>,
    title: Option<string>, fileName: Option<string>, mimeType: Option<string>)
  datatype VideoFile = VideoFile(
    fileId: string, fileUniqueId: string, fileSize: Option<int>,
    fileName: Option<string>, mimeType: Option<string>, width: int, height: int)
  datatype VoiceFile = VoiceFile(
    fileId: string, fileUniqueId: string, fileSize: Option<int>, mimeType: Option<string>)
  datatype DocumentFile = DocumentFile(
    fileId: string, fileUniqueId: string, fileSize: Option<int>,
    fileName: Option<string>, mimeType: Option<string>)
  datatype AnimationFile = AnimationFile(
    fileId: string, fileUniqueId: string, fileSize: Option<int>,
    fileName: Option<string>, mimeType: Option<string>, width: int, height: int)

  /** The parts of a `Message` the normaliser reads. */
  datatype Message = Message(
    msgType: MessageType,
    photo: Option<seq<PhotoSize>>,
    audio: Option<AudioFile>,
    video: Option<VideoFile>,
    voice: Option<VoiceFile>,
    document: Option<DocumentFile>,
    animation: Option<AnimationFile>)

  /**
   * What the `!` dereferences demand: a message of a media kind carries that
   * kind's object, and a photo message at least one size.
   */
  predicate Carries(m: Message) {
    && (m.msgType == Photo ==> m.photo.Some? && |m.photo.value| > 0)
    && (m.msgType == Audio ==> m.audio.Some?)
    && (m.msgType == Video ==> m.video.Some?)
    && (m.msgType == Voice ==> m.voice.Some?)
    && (m.msgType == Document ==> m.document.Some?)
    && (m.msgType == Animation ==> m.animation.Some?)
  }

  /** `Attachments`. */
  datatype Attachment = Attachment(
    postId: int,
    fileId: string,
    fileName: string,
    fileUniqueId: string,
    mimeType: string,
    size: int,
    height: int,
    width: int,
    attachmentType: MessageType)

  /** `message.Photo!.Last()`: the size listed last. */
  function LastSize(sizes: seq<PhotoSize>): PhotoSize
    requires |sizes| > 0
  {
    sizes[|sizes| - 1]
  }

  /** The declared size of the file the attachment is built from, if any. */
  function SourceFileSize(m: Message): Option<int>
    requires Carries(m) && IsMedia(m.msgType)
  {
    match m.msgType
    case Photo => LastSize(m.photo.value).fileSize
    case Audio => m.audio.value.fileSize
    case Video => m.video.value.fileSize
    case Voice => m.voice.value.fileSize
    case Document => m.document.value.fileSize
    case Animation => m.animation.value.fileSize
  }

  /** The file id of the file the attachment is built from. */
  function SourceFileId(m: Message): string
    requires Carries(m) && IsMedia(m.msgType)
  {
    match m.msgType
    case Photo => LastSize(m.photo.value).fileId
    case Audio => m.audio.value.fileId
    case Video => m.video.value.fileId
    case Voice => m.voice.value.fileId
    case Document => m.document.value.fileId
    case Animation => m.animation.value.fileId
  }

  /** The unique id of the file the attachment is built from. */
  function SourceFileUniqueId(m: Message): string
    requires Carries(m) && IsMedia(m.msgType)
  {
    match m.msgType
    case Photo => LastSize(m.photo.value).fileUniqueId
    case Audio => m.audio.value.fileUniqueId
    case Video => m.video.value.fileUniqueId
    case Voice => m.voice.value.fileUniqueId
    case Document => m.document.value.fileUniqueId
    case Animation => m.animation.value.fileUniqueId
  }

  /**
   * Normalise `m` into the attachment of post `postId`; `None` (the source's
   * `null`) for every kind that is not one of the six media kinds.
   */
  function GenerateAttachment(m: Message, postId: int): (r: Option<Attachment>)
    requires Carries(m)
    ensures r.None? <==> !IsMedia(m.msgType)
    ensures r.Some? ==> r.value.postId == postId && r.value.attachmentType == m.msgType
    ensures r.Some? ==> r.value.fileId == SourceFileId(m) && r.value.fileUniqueId == SourceFileUniqueId(m)
    ensures r.Some? ==> r.value.size == SourceFileSize(m).GetOr(0)
  {
    match m.msgType
    case Photo =>
      var x := LastSize(m.photo.value);
      Some(Attachment(postId, x.fileId, "", x.fileUniqueId, "", x.fileSize.GetOr(0), x.height, x.width, m.msgType))
    case Audio =>
      var x := m.audio.value;
      Some(Attachment(postId, x.fileId, x.title.GetOr(x.fileName.GetOr("")), x.fileUniqueId,
        x.mimeType.GetOr(""), x.fileSize.GetOr(0), -1, -1, m.msgType))
    case Video =>
      var x := m.video.value;
      Some(Attachment(postId, x.fileId, x.fileName.GetOr(""), x.fileUniqueId,
        x.mimeType.GetOr(""), x.fileSize.GetOr(0), x.height, x.width, m.msgType))
    case Voice =>
      var x := m.voice.value;
      Some(Attachment(postId, x.fileId, "", x.fileUniqueId, "", x.fileSize.GetOr(0), -1, -1, m.msgType))
    case Document =>
      var x := m.document.value;
      Some(Attachment(postId, x.fileId, x.fileName.GetOr(""), x.fileUniqueId,
        x.mimeType.GetOr(""), x.fileSize.GetOr(0), -1, -1, m.msgType))
    case Animation =>
      var x := m.animation.value;
      Some(Attachment(postId, x.fileId, x.fileName.GetOr(""), x.fileUniqueId,
        x.mimeType.GetOr(""), x.fileSize.GetOr(0), x.height, x.width, m.msgType))
    case OtherType(_) => None
  }

  /**
   * Audio, voice and document attachments get `-1` for both dimensions;
   * photo, video and animation attachments copy the source's dimensions, and
   * for a photo those are the dimensions of the last listed size.
   */
  lemma Dimensions(m: Message, postId: int)
    requires Carries(m) && IsMedia(m.msgType)
    ensures var a := GenerateAttachment(m, postId).value;
      && (!HasDimensions(m.msgType) ==> a.height == -1 && a.width == -1)
      && (m.msgType == Photo ==> a.height == LastSize(m.photo.value).height && a.width == LastSize(m.photo.value).width)
      && (m.msgType == Video ==> a.height == m.video.value.height && a.width == m.video.value.width)
      && (m.msgType == Animation ==> a.height == m.animation.value.height && a.width == m.animation.value.width)
  {
  }

  /**
   * With the non-negative dimensions the platform reports, the `-1` sentinel
   * appears exactly on the kinds without dimensions.
   */
  lemma SentinelExactlyWithoutDimensions(m: Message, postId: int)
    requires Carries(m) && IsMedia(m.msgType)
    requires m.msgType == Photo ==> LastSize(m.photo.value).height >= 0 && LastSize(m.photo.value).width >= 0
    requires m.msgType == Video ==> m.video.value.height >= 0 && m.video.value.width >= 0
    requires m.msgType == Animation ==> m.animation.value.height >= 0 && m.animation.value.width >= 0
    ensures var a := GenerateAttachment(m, postId).value;
      && (a.height == -1 <==> !HasDimensions(m.msgType))
      && (a.width == -1 <==> !HasDimensions(m.msgType))
  {
  }

  /**
   * The display name: an audio's title, else its file name, else `""`;
   * nothing for photos and voice notes; the file name, else `""`, for the
   * other three kinds.
   */
  lemma FileNames(m: Message, postId: int)
    requires Carries(m) && IsMedia(m.msgType)
    ensures var a := GenerateAttachment(m, postId).value;
      && (m.msgType == Photo || m.msgType == Voice ==> a.fileName == "")
      && (m.msgType == Audio ==> a.fileName == m.audio.value.title.GetOr(m.audio.value.fileName.GetOr("")))
      && (m.msgType == Video ==> a.fileName == m.video.value.fileName.GetOr(""))
      && (m.msgType == Document ==> a.fileName == m.document.value.fileName.GetOr(""))
      && (m.msgType == Animation ==> a.fileName == m.animation.value.fileName.GetOr(""))
  {
  }

  /** The MIME type: `""` for photos and voice notes, the declared one or `""` for the other four kinds. */
  lemma MimeTypes(m: Message, postId: int)
    requires Carries(m) && IsMedia(m.msgType)
    ensures var a := GenerateAttachment(m, postId).value;
      && (m.msgType == Photo || m.msgType == Voice ==> a.mimeType == "")
      && (m.msgType == Audio ==> a.mimeType == m.audio.value.mimeType.GetOr(""))
      && (m.msgType == Video ==> a.mimeType == m.video.value.mimeType.GetOr(""))
      && (m.msgType == Document ==> a.mimeType == m.document.value.mimeType.GetOr(""))
      && (m.msgType == Animation ==> a.mimeType == m.animation.value.mimeType.GetOr(""))
  {
  }
}
