/** `downloadMedia`: the media file name and the outcome of one download. */
module Media {
  import opened Wrappers
  import opened Text
  import opened Records

  /**
   * `mimetype.split('/')[1]` as it ends up inside a template literal: the
   * second `/`-separated piece, or the text "undefined" when the mimetype
   * has no `/` at all.
   */
  function MimeSubtype(mimetype: string): string
  {
    var parts := Split(mimetype, '/');
    if |parts| >= 2 then parts[1] else "undefined"
  }

  /** `${message.id.id}.${media.mimetype.split('/')[1]}` */
  function MediaFilename(messageId: string, mimetype: string): string
  {
    messageId + "." + MimeSubtype(mimetype)
  }

  /**
   * For a mimetype with a `/`, the file name is the message id, a dot and
   * the text between the first `/` and the next `/` (or the end); it is not
   * the text after the last `/`.
   */
  lemma MediaFilenameWithSlash(messageId: string, topType: string, subtype: string, rest: string)
    requires '/' !in topType && '/' !in subtype
    requires rest == [] || rest[0] == '/'
    ensures MediaFilename(messageId, topType + "/" + subtype + rest) == messageId + "." + subtype
  {
    SecondPiece(topType, subtype, rest, '/');
  }

  /** Without a `/` the file name ends in ".undefined". */
  lemma MediaFilenameWithoutSlash(messageId: string, mimetype: string)
    requires '/' !in mimetype
    ensures MediaFilename(messageId, mimetype) == messageId + ".undefined"
  {
    SplitSingle(mimetype, '/');
  }

  /**
   * Every mimetype with a `/` falls under `MediaFilenameWithSlash`: the
   * subtype used is a `/`-free piece that the mimetype spells out right
   * after its first `/`, and the subtype ends the mimetype or is followed
   * by another `/`.
   */
  lemma MimeSubtypeLocated(mimetype: string)
    requires '/' in mimetype
    ensures var first := Split(mimetype, '/')[0];
      var sub := MimeSubtype(mimetype);
      var k := |first| + 1 + |sub|;
      && '/' !in first && '/' !in sub
      && k <= |mimetype|
      && mimetype[..k] == first + "/" + sub
      && (k == |mimetype| || mimetype[k] == '/')
  {
    SplitSingle(mimetype, '/');
    SecondPieceShape(mimetype, '/');
  }

  /** `"ABC123"` with `"image/jpeg"` is saved as `"ABC123.jpeg"`. */
  lemma ExampleImage(messageId: string, mimetype: string)
    requires messageId == "ABC123" && mimetype == "image/jpeg"
    ensures MediaFilename(messageId, mimetype) == "ABC123.jpeg"
  {
    var topType, subtype := mimetype[..5], mimetype[6..];
    assert mimetype == topType + "/" + subtype + "";
    MediaFilenameWithSlash(messageId, topType, subtype, "");
  }

  /** The file written for one downloaded payload. */
  datatype SavedMedia = SavedMedia(filename: string, data: string)

  /** How a call to `downloadMedia` ends: it throws, or it returns (a file name or `null`). */
  datatype DownloadResult = Raised | Returned(saved: Option<SavedMedia>)

  /**
   * `downloadMedia(message)`: a message without media, or whose download
   * yields no payload, returns `null`; a payload is written under its derived
   * file name, which is returned; a throw from the download is not caught
   * and reaches the caller.
   */
  function DownloadMedia(message: Message): (r: DownloadResult)
    ensures r.Raised? <==> message.hasMedia && message.download.Throws?
    ensures r.Returned? && r.saved.Some? <==> message.hasMedia && message.download.Payload?
    ensures r.Returned? && r.saved.Some? ==>
      r.saved.value == SavedMedia(
        MediaFilename(message.id.id, message.download.mimetype), message.download.data)
  {
    if !message.hasMedia then Returned(None)
    else
      match message.download
      case Throws => Raised
      case NoPayload => Returned(None)
      case Payload(mimetype, data) =>
        Returned(Some(SavedMedia(MediaFilename(message.id.id, mimetype), data)))
  }
}
