/**
 * The messages the WhatsApp client hands to the exporter, and the records
 * the exporter writes for them.
 */
module Records {
  import opened Wrappers

  /** The client's message key; the exporter uses only its inner `id`. */
  datatype MessageId = MessageId(fromMe: bool, remote: string, id: string, serialized: string)

  /**
   * What `message.downloadMedia()` does when it is called: resolve to a
   * payload with its declared mimetype and base64 data, resolve to no
   * payload (`null`/`undefined`), or throw. A throw from writing the payload
   * to disk has the same effect on the export and is folded into `Throws`.
   */
  datatype Download = Payload(mimetype: string, data: string) | NoPayload | Throws

  /** A message as fetched from the chat, with the outcome its download would have. */
  datatype Message = Message(
    id: MessageId,
    timestamp: int,
    from: string,
    body: string,
    messageType: string,
    hasMedia: bool,
    download: Download)

  /** One entry of the exported `messages` array. */
  datatype ExportRecord = ExportRecord(
    id: string,
    timestamp: int,
    from: string,
    body: string,
    messageType: string,
    hasMedia: bool,
    mediaFilename: Option<string>)

  /**
   * `formatMessage`: the record copies the message's fields verbatim, taking
   * the inner id of the message key, and has no media filename yet.
   */
  function FormatMessage(message: Message): (r: ExportRecord)
    ensures r.id == message.id.id
    ensures r.timestamp == message.timestamp
    ensures r.from == message.from
    ensures r.body == message.body
    ensures r.messageType == message.messageType
    ensures r.hasMedia == message.hasMedia
    ensures r.mediaFilename == None
  {
    ExportRecord(
      id := message.id.id,
      timestamp := message.timestamp,
      from := message.from,
      body := message.body,
      messageType := message.messageType,
      hasMedia := message.hasMedia,
      mediaFilename := None)
  }
}
