# WhatsApp chat exporter: a Dafny model of the export pipeline

The exporter is a bot built on a WhatsApp Web client. When it receives a message
`!scrape <chat-id>`, it fetches that chat's whole history. It turns each message
into a JSON record and downloads the attachments into `output/media/`. Every hundred
records it logs a progress line. At the end it writes the chat as one pretty-printed
JSON file, `output/<sanitised chat id>.json`.

This project models that pipeline. The WhatsApp client and the file system become
inputs and recorded effects:

- `Records`: the fetched `Message` (with the outcome its `downloadMedia()` call
  would have) and the exported `ExportRecord`, with `FormatMessage`.
- `Media`: the media file name `<id>.<mimetype.split('/')[1]>` and `DownloadMedia`.
- `OutputName`: chat-id sanitisation and the export file's name.
- `Export`: the `scrapeChat` loop. `ScrapeChat` is a method with a loop that pushes
  records and logs progress. It is proved against the specification function
  `ScrapeTrace`. That function is built from `Run`, the loop over a prefix of the
  messages, and `Step`, one iteration. The lemmas about `Run` and `ScrapeTrace`
  cover order and count, the media-file invariant, progress lines, which files are
  written, and when the JSON write happens.
- `Command`: the `!scrape` parser (`ParseCommand`) and the message handler.
- `Text`: JavaScript's `split` / `join` / `startsWith` for a one-character
  separator, with the split–join round trips.

An invocation's observable behaviour is its trace: a `seq<Effect>` of media-file
writes, progress lines, the JSON write and the logged error.

Behaviour of the code worth noting:

- `downloadMedia` has no `try`/`catch`. A throw from `message.downloadMedia()`
  therefore reaches the single `catch` of `scrapeChat`, and the JSON file is never
  written (`ThrowAborts`, `ScrapeWritesJsonIff`). Only a `null` payload is handled
  per message (`NullPayloadContinues`). A throwing download is not absorbed per
  message: it aborts the whole export.
- The code keeps no counter of media files and prints no summary at the end. The
  final lines give only the output file and the media directory.
- `split('/')[1]` takes the text between the first and second `/`, not the subtype
  after the last `/`. A mimetype without `/` gives the file name `<id>.undefined`
  (`MediaFilenameWithSlash`, `MediaFilenameWithoutSlash`). A voice note typed
  `audio/ogg; codecs=opus` is saved as `<id>.ogg; codecs=opus`.
- The trigger is a prefix test. So `!scrapeall 123@c.us` also exports chat
  `123@c.us` (`ExampleLongerTrigger`). `!scrape  x`, with two spaces, gets the
  usage reply (`ExampleDoubleSpace`).
- Different chat ids can map to the same export file, e.g. `a@b` and `a.b`
  (`ExampleCollision`).

## Model

| member | source | states |
|---|---|---|
| `Text.Split` | scraper.js:38 | `split` with one separator gives at least one piece, and no piece contains the separator |
| `Text.JoinSplit` | scraper.js:38 | joining the pieces of a split with the separator gives back the string |
| `Text.SplitJoin` | scraper.js:38 | splitting a join of separator-free pieces gives back the pieces |
| `Text.SplitSingle` | scraper.js:38 | there is exactly one piece iff the separator does not occur (so `[1]` is `undefined` exactly then) |
| `Text.SecondPiece` | scraper.js:109 | piece `[1]` is the text between the first separator and the next separator or the end |
| `Text.SecondPieceShape` | scraper.js:109 | conversely, piece `[1]` is spelled out right after the first separator and ends at a separator or the end |
| `OutputName.Sanitize` | scraper.js:95 | same length as the chat id; each position keeps its character iff it is in `[a-zA-Z0-9]`, otherwise holds `_` |
| `OutputName.OutputFileName` | scraper.js:95 | the file name is the sanitised id followed by `.json`, and it contains no `/`, so it stays in the output directory |
| `OutputName.SanitizeFixpoint` | scraper.js:95 | sanitisation leaves a string unchanged iff the string uses only `[a-zA-Z0-9_]` |
| `OutputName.SanitizeIdempotent` | scraper.js:95 | sanitising twice is the same as sanitising once |
| `OutputName.ExampleIndividualChat` | scraper.js:95 | `123456789@c.us` is exported to `123456789_c_us.json` |
| `OutputName.ExampleCollision` | scraper.js:95 | the distinct ids `a@b` and `a.b` share the file `a_b.json` |
| `Records.FormatMessage` | scraper.js:48-58 | `id` (the key's inner id), `timestamp`, `from`, `body`, `type` and `hasMedia` are copied verbatim, and `mediaFilename` is null |
| `Media.MediaFilenameWithSlash` | scraper.js:38 | for a mimetype `a/b…` with `b` ending at `/` or at the end, the file name is `<id>.b` |
| `Media.MediaFilenameWithoutSlash` | scraper.js:38 | for a mimetype without `/`, the file name is `<id>.undefined` |
| `Media.MimeSubtypeLocated` | scraper.js:38 | every mimetype with a `/` has the shape `MediaFilenameWithSlash` expects, with the subtype used as `b` |
| `Media.ExampleImage` | scraper.js:38 | `ABC123` with `image/jpeg` is saved as `ABC123.jpeg` |
| `Media.DownloadMedia` | scraper.js:34-45 | throws iff the message has media and its download throws; a file is written and named iff there is media and a payload; the name is the derived media file name |
| `Export.ProcessMessage` | scraper.js:79-84 | aborts iff the download throws; otherwise the record is the formatted message, whose `mediaFilename` is set iff there is media and a payload, and that file is the only one written |
| `Export.ScrapeChat` | scraper.js:61-104 | the loop's trace (media writes, progress lines, then the JSON write or the logged error) equals `ScrapeTrace` |
| `Export.RunAbortsAt` | scraper.js:83 | a throw at a message leaves the records and effects reached before it, marked as thrown |
| `Export.RunAbsorbs` | scraper.js:101-103 | after a throw, later messages add nothing |
| `Export.RunShape` | scraper.js:78-92 | record *i* is the processed message *i*, in fetch order, up to the first throwing message; with no throw there is one record per message |
| `Export.RunEffectKinds` | scraper.js:78-92 | inside the loop the only effects are media writes and progress lines |
| `Export.RunCompletes` | scraper.js:78-92 | the loop runs to the end iff no message's download throws |
| `Export.ProgressPointsAreMultiples` | scraper.js:89-91 | the counts at which progress is due up to *n* are 100, 200, …, and there are *n*/100 of them |
| `Export.RunProgress` | scraper.js:89-91 | the progress lines logged carry exactly the due counts up to the number of records, in order |
| `Export.ProgressLineCount` | scraper.js:89-91 | without a throw, *n* messages give floor(*n*/100) progress lines, the *j*-th carrying 100·(*j*+1) |
| `Export.RunMediaWrites` | scraper.js:38-41 | the media files written are exactly the file names the records carry, in the same order |
| `Export.ScrapeEnds` | scraper.js:94-103 | a trace ends in exactly one terminal effect, the JSON write or the logged error; the JSON file gets the sanitised name and the chat id |
| `Export.ScrapeWritesJsonIff` | scraper.js:64-103 | the JSON file is written iff the chat was fetched and no download threw |
| `Export.ScrapeExportContents` | scraper.js:69-96 | a completed export holds the chat name and one record per fetched message, in order, each the processed message |
| `Export.FetchFailureWritesNothing` | scraper.js:64-67 | a failed chat lookup or fetch gives only the logged error: no media file and no JSON file |
| `Export.NullPayloadContinues` | scraper.js:35-44 | a null payload leaves `mediaFilename` null on a `hasMedia` record, and the export still completes with every message |
| `Export.ThrowAborts` | scraper.js:36 | a throwing download ends the export in the logged error, and no JSON file is written |
| `Command.IgnoredIff` | scraper.js:108 | a body is ignored iff it does not start with `!scrape` |
| `Command.ScrapeRequestFromTokens` | scraper.js:108-111 | a body starting with `!scrape` whose second space-separated token is non-empty requests that token as the chat id |
| `Command.ScrapeRequestShape` | scraper.js:108-111 | conversely, a requested chat id is non-empty, has no space and is the token right after the body's first space |
| `Command.ExampleBareTrigger` | scraper.js:109-113 | a bare `!scrape` gets the usage reply |
| `Command.ExampleDoubleSpace` | scraper.js:109-113 | `!scrape  123@c.us` with two spaces gets the usage reply, since its second token is empty |
| `Command.ExampleRequest` | scraper.js:108-111 | `!scrape 123@c.us` requests chat `123@c.us` |
| `Command.ExampleLongerTrigger` | scraper.js:108-111 | `!scrapeall 123@c.us` also requests chat `123@c.us` |
| `Command.OnMessage` | scraper.js:107-116 | an export runs iff the body is a scrape request, on the chat it names; otherwise a usage reply or nothing |
| `Command.OnlyRequestsExport` | scraper.js:107-116 | any JSON file the handler writes comes from a body starting with `!scrape` and is the export file of the chat id the body names |

## Left out

- Client construction, `LocalAuth`, the Puppeteer flags, the QR code and the `ready` handler (scraper.js:15-31, 119): these are setup of an external library and terminal output.
- Creating the output and media directories (scraper.js:8, 12): a file-system call at start-up, with nothing to compute.
- The contents of files: the base64 decoding in `writeFile` and the JSON pretty-printing in `writeJson`. A write is recorded as an effect with its name and data; the serialised text and its parse-back belong to the libraries.
- A throw from `writeJson` itself: the trace ends at the JSON write, and the `catch` that such a throw would reach is not modelled after it.
- A throw from `writeFile` for a media payload: it reaches the same `catch` as a throw from `downloadMedia()` and is folded into the `Throws` download outcome. The model then records no write for that file.
- The final state of the media directory, where a later write under the same name replaces an earlier one: only the sequence of writes is modelled.
- `getChatById` and `fetchMessages({limit: 1000000})`: their result is the `Fetch` parameter. It is either a chat name with its ordered messages, or a failure that reaches the `catch`. The limit itself is not modelled.
- `message.reply` for the usage text is the `RepliedUsage` reaction; its wording is not modelled.
- Console wording and the informational log lines ("Starting to scrape…", "Found N messages…", the completion lines). Only the progress lines, with their counts, and the logged error are in the trace.
- `async`/`await`: one invocation is sequential, since the handler awaits every step in order. Concurrent invocations started by separate messages are not modelled. The event emitter does not await the handler (scraper.js:107), so two `!scrape` messages can run two exports at once, interleaving their media writes and overwriting each other's files.
- `OutputName.Sanitize`: JavaScript strings are sequences of UTF-16 code units, and the regular expression (no `u` flag) replaces each code unit. A Dafny `char` is a Unicode scalar value, so a character outside the Basic Multilingual Plane is one `char` here. The model gives one `_` for it where the program gives two, and `Sanitize`'s length counts scalar values, not JavaScript's `.length`. The same applies to `split` and `startsWith` in `Text`.
- Field values the client might leave `undefined` (such as a missing `mimetype`, which would make `split` throw) are modelled as present strings.
- scroll.js is not part of this model: it is browser automation that clicks through the web interface.
