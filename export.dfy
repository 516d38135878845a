/**
 * `scrapeChat`: fetch a chat's messages, format each one, download its
 * media, collect the records in order with a progress line every hundred
 * messages, and write the collected chat to its JSON file. Everything the
 * WhatsApp client and the file system do is an input (`Fetch`, each
 * message's `Download`) or a recorded effect (`Effect`).
 */
module Export {
  import opened Wrappers
  import opened Records
  import opened Media
  import opened OutputName

  /** What `getChatById` and `fetchMessages` do for the requested chat id. */
  datatype Fetch =
    | ChatNotFound
    | FetchFailed
    | Fetched(chatName: string, messages: seq<Message>)

  /** The object given to `writeJson`. */
  datatype ChatData = ChatData(chatId: string, chatName: string, messages: seq<ExportRecord>)

  /** The effects of an export visible outside it, in the order they happen. */
  datatype Effect =
    | MediaWritten(file: SavedMedia)
    | ProgressLogged(processed: nat)
    | JsonWritten(path: string, data: ChatData)
    | ErrorLogged

  /** Whether processing this message throws (its download throws). */
  predicate Raises(message: Message)
  {
    message.hasMedia && message.download.Throws?
  }

  /** The loop body for one message: it throws, or yields a record and the media it wrote. */
  datatype Processed = Aborted | Recorded(record: ExportRecord, written: seq<Effect>)

  /**
   * One message through the loop body: the record is the formatted message
   * with the downloaded file's name filled in, which is there exactly when
   * the message has media and its download gave a payload; that file is the
   * only one written; a throwing download aborts.
   */
  function ProcessMessage(message: Message): (p: Processed)
    ensures p.Aborted? <==> Raises(message)
    ensures p.Recorded? ==> p.record.(mediaFilename := None) == FormatMessage(message)
    ensures p.Recorded? ==>
      (p.record.mediaFilename.Some? <==> message.hasMedia && message.download.Payload?)
    ensures p.Recorded? && p.record.mediaFilename.Some? ==>
      && p.record.mediaFilename.value == MediaFilename(message.id.id, message.download.mimetype)
      && p.written == [MediaWritten(SavedMedia(p.record.mediaFilename.value, message.download.data))]
    ensures p.Recorded? && p.record.mediaFilename.None? ==> p.written == []
  {
    var messageData := FormatMessage(message);
    if !message.hasMedia then Recorded(messageData, [])
    else
      match DownloadMedia(message)
      case Raised => Aborted
      case Returned(None) => Recorded(messageData, [])
      case Returned(Some(saved)) =>
        Recorded(messageData.(mediaFilename := Some(saved.filename)), [MediaWritten(saved)])
  }

  /** The exporter's state after some messages: records pushed, effects so far, and whether it threw. */
  datatype LoopState = LoopState(records: seq<ExportRecord>, effects: seq<Effect>, threw: bool)

  /** The due progress line, if any. */
  function Tick(n: nat): seq<Effect>
  {
    if n % 100 == 0 then [ProgressLogged(n)] else []
  }

  /** Push a record; the new length is logged when it is a multiple of 100. */
  function Push(s: LoopState, record: ExportRecord, written: seq<Effect>): LoopState
  {
    LoopState(s.records + [record], s.effects + written + Tick(|s.records| + 1), false)
  }

  /** One iteration of the loop; after a throw nothing more happens. */
  function Step(s: LoopState, message: Message): LoopState
  {
    if s.threw then s
    else
      match ProcessMessage(message)
      case Aborted => s.(threw := true)
      case Recorded(record, written) => Push(s, record, written)
  }

  /** The loop over a prefix of the fetched messages. */
  function Run(messages: seq<Message>): LoopState
    decreases |messages|
  {
    if messages == [] then LoopState([], [], false)
    else Step(Run(messages[..|messages| - 1]), messages[|messages| - 1])
  }

  lemma RunSnoc(messages: seq<Message>, i: nat)
    requires i < |messages|
    ensures Run(messages[..i + 1]) == Step(Run(messages[..i]), messages[i])
  {
    assert messages[..i + 1][..i] == messages[..i];
  }

  /** The whole invocation: what `scrapeChat(chatId)` does, as the sequence of its effects. */
  function ScrapeTrace(chatId: string, fetch: Fetch): seq<Effect>
  {
    match fetch
    case ChatNotFound => [ErrorLogged]
    case FetchFailed => [ErrorLogged]
    case Fetched(chatName, messages) =>
      var s := Run(messages);
      if s.threw then s.effects + [ErrorLogged]
      else s.effects + [JsonWritten(OutputFileName(chatId), ChatData(chatId, chatName, s.records))]
  }

  /**
   * `scrapeChat` as the source writes it: one loop over the fetched
   * messages, a push per message and a progress line whenever the number of
   * records is a multiple of 100; a throw leaves the loop for the `catch`.
   */
  method ScrapeChat(chatId: string, fetch: Fetch) returns (trace: seq<Effect>)
    ensures trace == ScrapeTrace(chatId, fetch)
  {
    if !fetch.Fetched? {
      trace := [ErrorLogged];
      return;
    }
    var allMessages := fetch.messages;
    var messages: seq<ExportRecord> := [];
    trace := [];
    var i := 0;
    while i < |allMessages|
      invariant 0 <= i <= |allMessages|
      invariant Run(allMessages[..i]) == LoopState(messages, trace, false)
    {
      var message := allMessages[i];
      var processed := ProcessMessage(message);
      if processed.Aborted? {
        assert allMessages == allMessages[..i] + [message] + allMessages[i + 1..];
        RunAbortsAt(allMessages[..i], message, allMessages[i + 1..]);
        trace := trace + [ErrorLogged];
        return;
      }
      trace := trace + processed.written;
      messages := messages + [processed.record];
      if |messages| % 100 == 0 {
        trace := trace + [ProgressLogged(|messages|)];
      }
      RunSnoc(allMessages, i);
      i := i + 1;
    }
    assert allMessages[..i] == allMessages;
    trace := trace + [JsonWritten(OutputFileName(chatId), ChatData(chatId, fetch.chatName, messages))];
  }

  /** A throw at a message leaves the state reached before it, marked as thrown. */
  lemma RunAbortsAt(done: seq<Message>, message: Message, later: seq<Message>)
    requires !Run(done).threw && Raises(message)
    ensures Run(done + [message] + later) == Run(done).(threw := true)
  {
    var upTo := done + [message];
    assert upTo[..|upTo| - 1] == done;
    assert Run(upTo) == Step(Run(done), message);
    RunAbsorbs(upTo, later);
  }

  /** Once the loop has thrown, later messages change nothing. */
  lemma {:induction false} RunAbsorbs(done: seq<Message>, later: seq<Message>)
    requires Run(done).threw
    ensures Run(done + later) == Run(done)
    decreases |later|
  {
    if later != [] {
      var init := later[..|later| - 1];
      RunAbsorbs(done, init);
      assert (done + later)[..|done + later| - 1] == done + init;
    } else {
      assert done + later == done;
    }
  }

  /**
   * The records are the processed messages, in fetch order, up to the first
   * message that throws; without a throw there is one record per message.
   */
  lemma {:induction false} RunShape(messages: seq<Message>)
    ensures var s := Run(messages);
      && |s.records| <= |messages|
      && (forall i :: 0 <= i < |s.records| ==>
            ProcessMessage(messages[i]).Recorded? && ProcessMessage(messages[i]).record == s.records[i])
      && (s.threw ==> |s.records| < |messages| && Raises(messages[|s.records|]))
      && (!s.threw ==> |s.records| == |messages|)
    decreases |messages|
  {
    if messages != [] {
      var init := messages[..|messages| - 1];
      var last := messages[|messages| - 1];
      RunShape(init);
      var s := Run(init);
      assert Run(messages) == Step(s, last);
      assert forall i :: 0 <= i < |init| ==> init[i] == messages[i];
      if !s.threw && ProcessMessage(last).Recorded? {
        assert Run(messages).records == s.records + [ProcessMessage(last).record];
      }
    }
  }

  /** The loop's own effects are media writes and progress lines only. */
  lemma {:induction false} RunEffectKinds(messages: seq<Message>)
    ensures forall i :: 0 <= i < |Run(messages).effects| ==>
      Run(messages).effects[i].MediaWritten? || Run(messages).effects[i].ProgressLogged?
    decreases |messages|
  {
    if messages != [] {
      RunEffectKinds(messages[..|messages| - 1]);
    }
  }

  /** The loop runs to the end exactly when no download throws. */
  lemma RunCompletes(messages: seq<Message>)
    ensures !Run(messages).threw <==> forall i :: 0 <= i < |messages| ==> !Raises(messages[i])
  {
    RunShape(messages);
    var s := Run(messages);
    if !s.threw {
      forall i | 0 <= i < |messages| ensures !Raises(messages[i]) {
        assert ProcessMessage(messages[i]).Recorded?;
      }
    }
  }

  /** The counts carried by the progress lines, in order. */
  function ProgressOf(effects: seq<Effect>): seq<nat>
    decreases |effects|
  {
    if effects == [] then []
    else
      var last := effects[|effects| - 1];
      ProgressOf(effects[..|effects| - 1]) + (if last.ProgressLogged? then [last.processed] else [])
  }

  /** The names of the media files written, in order. */
  function WrittenFiles(effects: seq<Effect>): seq<string>
    decreases |effects|
  {
    if effects == [] then []
    else
      var last := effects[|effects| - 1];
      WrittenFiles(effects[..|effects| - 1]) + (if last.MediaWritten? then [last.file.filename] else [])
  }

  /** The media file names the records carry, in order. */
  function SavedNames(records: seq<ExportRecord>): seq<string>
    decreases |records|
  {
    if records == [] then []
    else
      var last := records[|records| - 1];
      SavedNames(records[..|records| - 1]) + (if last.mediaFilename.Some? then [last.mediaFilename.value] else [])
  }

  /** The processed counts, between 1 and `n`, at which a progress line is due. */
  function ProgressPoints(n: nat): seq<nat>
  {
    if n == 0 then [] else ProgressPoints(n - 1) + (if n % 100 == 0 then [n] else [])
  }

  /** The progress points are 100, 200, ...: `n / 100` of them. */
  lemma {:induction false} ProgressPointsAreMultiples(n: nat)
    ensures |ProgressPoints(n)| == n / 100
    ensures forall j :: 0 <= j < |ProgressPoints(n)| ==> ProgressPoints(n)[j] == 100 * (j + 1)
  {
    if n > 0 {
      ProgressPointsAreMultiples(n - 1);
      if n % 100 == 0 {
        assert n / 100 == (n - 1) / 100 + 1;
        assert n == 100 * ((n - 1) / 100 + 1);
      } else {
        assert n / 100 == (n - 1) / 100;
      }
    }
  }

  lemma {:induction false} ProgressOfAppend(a: seq<Effect>, b: seq<Effect>)
    ensures ProgressOf(a + b) == ProgressOf(a) + ProgressOf(b)
    decreases |b|
  {
    if b == [] {
      assert a + b == a;
    } else {
      var init := b[..|b| - 1];
      ProgressOfAppend(a, init);
      assert (a + b)[..|a + b| - 1] == a + init;
    }
  }

  lemma {:induction false} WrittenFilesAppend(a: seq<Effect>, b: seq<Effect>)
    ensures WrittenFiles(a + b) == WrittenFiles(a) + WrittenFiles(b)
    decreases |b|
  {
    if b == [] {
      assert a + b == a;
    } else {
      var init := b[..|b| - 1];
      WrittenFilesAppend(a, init);
      assert (a + b)[..|a + b| - 1] == a + init;
    }
  }

  lemma TickEffects(n: nat)
    ensures ProgressOf(Tick(n)) == (if n % 100 == 0 then [n] else [])
    ensures WrittenFiles(Tick(n)) == []
  {
    if n % 100 == 0 {
      assert Tick(n)[..0] == [];
    }
  }

  /** A push adds the due progress line and no other. */
  lemma PushProgress(s: LoopState, record: ExportRecord, written: seq<Effect>)
    requires forall i :: 0 <= i < |written| ==> written[i].MediaWritten?
    ensures var n := |s.records| + 1;
      ProgressOf(Push(s, record, written).effects) ==
        ProgressOf(s.effects) + (if n % 100 == 0 then [n] else [])
  {
    var n := |s.records| + 1;
    assert Push(s, record, written).effects == (s.effects + written) + Tick(n);
    ProgressOfAppend(s.effects + written, Tick(n));
    ProgressOfAppend(s.effects, written);
    NoProgressIn(written);
    TickEffects(n);
  }

  /** A push writes the media of its message and no other. */
  lemma PushWrites(s: LoopState, record: ExportRecord, written: seq<Effect>)
    ensures WrittenFiles(Push(s, record, written).effects) == WrittenFiles(s.effects) + WrittenFiles(written)
  {
    var n := |s.records| + 1;
    assert Push(s, record, written).effects == (s.effects + written) + Tick(n);
    WrittenFilesAppend(s.effects + written, Tick(n));
    WrittenFilesAppend(s.effects, written);
    TickEffects(n);
  }

  lemma {:induction false} NoProgressIn(written: seq<Effect>)
    requires forall i :: 0 <= i < |written| ==> written[i].MediaWritten?
    ensures ProgressOf(written) == []
    decreases |written|
  {
    if written != [] {
      NoProgressIn(written[..|written| - 1]);
    }
  }

  /** One progress line is logged per positive multiple of 100 reached, carrying that count. */
  lemma {:induction false} RunProgress(messages: seq<Message>)
    ensures ProgressOf(Run(messages).effects) == ProgressPoints(|Run(messages).records|)
    decreases |messages|
  {
    if messages != [] {
      var init := messages[..|messages| - 1];
      RunProgress(init);
      var s := Run(init);
      if !s.threw {
        var p := ProcessMessage(messages[|messages| - 1]);
        if p.Recorded? {
          assert Run(messages) == Push(s, p.record, p.written);
          PushProgress(s, p.record, p.written);
        }
      }
    }
  }

  /** Without a throw, `n` messages give `n / 100` progress lines: 100, 200, ... */
  lemma ProgressLineCount(messages: seq<Message>)
    requires forall i :: 0 <= i < |messages| ==> !Raises(messages[i])
    ensures |ProgressOf(Run(messages).effects)| == |messages| / 100
    ensures forall j :: 0 <= j < |messages| / 100 ==> ProgressOf(Run(messages).effects)[j] == 100 * (j + 1)
  {
    RunCompletes(messages);
    RunShape(messages);
    RunProgress(messages);
    ProgressPointsAreMultiples(|messages|);
  }

  /** The media files written are exactly the file names recorded, in the same order. */
  lemma {:induction false} RunMediaWrites(messages: seq<Message>)
    ensures WrittenFiles(Run(messages).effects) == SavedNames(Run(messages).records)
    decreases |messages|
  {
    if messages != [] {
      var init := messages[..|messages| - 1];
      RunMediaWrites(init);
      var s := Run(init);
      if !s.threw {
        var p := ProcessMessage(messages[|messages| - 1]);
        if p.Recorded? {
          assert Run(messages) == Push(s, p.record, p.written);
          PushWrites(s, p.record, p.written);
          if p.written != [] {
            assert p.written[..0] == [];
            assert WrittenFiles(p.written) == WrittenFiles([]) + [p.record.mediaFilename.value];
          }
          var records := s.records + [p.record];
          assert records[..|records| - 1] == s.records;
        }
      }
    }
  }

  /**
   * Every invocation ends in exactly one terminal effect, the JSON write or
   * the logged error, and the JSON write goes to the sanitised file name.
   */
  lemma ScrapeEnds(chatId: string, fetch: Fetch)
    ensures var trace := ScrapeTrace(chatId, fetch);
      && |trace| >= 1
      && (forall i :: 0 <= i < |trace| - 1 ==> !trace[i].JsonWritten? && !trace[i].ErrorLogged?)
      && (trace[|trace| - 1].JsonWritten? || trace[|trace| - 1] == ErrorLogged)
      && (trace[|trace| - 1].JsonWritten? ==>
            trace[|trace| - 1].path == OutputFileName(chatId) &&
            trace[|trace| - 1].data.chatId == chatId)
  {
    if fetch.Fetched? {
      RunEffectKinds(fetch.messages);
    }
  }

  /** The JSON file is written exactly when the chat was fetched and no download threw. */
  lemma ScrapeWritesJsonIff(chatId: string, fetch: Fetch)
    ensures (exists i :: 0 <= i < |ScrapeTrace(chatId, fetch)| && ScrapeTrace(chatId, fetch)[i].JsonWritten?) <==>
      fetch.Fetched? && forall i :: 0 <= i < |fetch.messages| ==> !Raises(fetch.messages[i])
  {
    var trace := ScrapeTrace(chatId, fetch);
    ScrapeEnds(chatId, fetch);
    if fetch.Fetched? {
      RunCompletes(fetch.messages);
      if !Run(fetch.messages).threw {
        assert trace[|trace| - 1].JsonWritten?;
      }
    }
  }

  /**
   * A completed export holds the chat's name and one record per fetched
   * message, in fetch order, each the processed message.
   */
  lemma ScrapeExportContents(chatId: string, chatName: string, messages: seq<Message>)
    requires forall i :: 0 <= i < |messages| ==> !Raises(messages[i])
    ensures var trace := ScrapeTrace(chatId, Fetched(chatName, messages));
      && trace[|trace| - 1].JsonWritten?
      && trace[|trace| - 1].data.chatName == chatName
      && |trace[|trace| - 1].data.messages| == |messages|
      && forall i :: 0 <= i < |messages| ==>
           ProcessMessage(messages[i]).Recorded? &&
           trace[|trace| - 1].data.messages[i] == ProcessMessage(messages[i]).record
  {
    RunCompletes(messages);
    RunShape(messages);
  }

  /** A fetch failure ends the export at once: an error line and no file of any kind. */
  lemma FetchFailureWritesNothing(chatId: string, fetch: Fetch)
    requires !fetch.Fetched?
    ensures ScrapeTrace(chatId, fetch) == [ErrorLogged]
  {
  }

  /**
   * A message with media whose download yields no payload keeps a null file
   * name, and the export still completes with every message.
   */
  lemma NullPayloadContinues(chatId: string, chatName: string, messages: seq<Message>, k: nat)
    requires k < |messages| && messages[k].hasMedia && messages[k].download.NoPayload?
    requires forall i :: 0 <= i < |messages| ==> !Raises(messages[i])
    ensures var trace := ScrapeTrace(chatId, Fetched(chatName, messages));
      && trace[|trace| - 1].JsonWritten?
      && |trace[|trace| - 1].data.messages| == |messages|
      && trace[|trace| - 1].data.messages[k].hasMedia
      && trace[|trace| - 1].data.messages[k].mediaFilename == None
  {
    ScrapeExportContents(chatId, chatName, messages);
  }

  /**
   * A message whose download throws is not absorbed: the export ends in the
   * logged error and the JSON file is never written.
   */
  lemma ThrowAborts(chatId: string, chatName: string, messages: seq<Message>, k: nat)
    requires k < |messages| && messages[k].hasMedia && messages[k].download.Throws?
    ensures var trace := ScrapeTrace(chatId, Fetched(chatName, messages));
      && trace[|trace| - 1] == ErrorLogged
      && forall i :: 0 <= i < |trace| ==> !trace[i].JsonWritten?
  {
    assert Raises(messages[k]);
    ScrapeWritesJsonIff(chatId, Fetched(chatName, messages));
    ScrapeEnds(chatId, Fetched(chatName, messages));
  }
}
