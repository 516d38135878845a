/**
 * The `message` handler: a body starting with `!scrape` names a chat to
 * export in its second space-separated token; without one the sender gets
 * a usage reply.
 */
module Command {
  import opened Text
  import opened Export
  import opened OutputName

  const Trigger: string := "!scrape"

  /** What the handler decides to do with an incoming message body. */
  datatype Request = Ignored | UsageReply | ScrapeRequest(chatId: string)

  /**
   * `body.startsWith('!scrape')`, then `body.split(' ')[1]`, used only when
   * it is truthy: present and not empty.
   */
  function ParseCommand(body: string): Request
  {
    if !StartsWith(body, Trigger) then Ignored
    else
      var parts := Split(body, ' ');
      if |parts| >= 2 && parts[1] != [] then ScrapeRequest(parts[1]) else UsageReply
  }

  /** A body is ignored exactly when it does not start with `!scrape`. */
  lemma IgnoredIff(body: string)
    ensures ParseCommand(body) == Ignored <==> !StartsWith(body, Trigger)
  {
  }

  /**
   * A body that starts with `!scrape`, has a space after its first word and
   * then a non-empty space-free token ending at a space or at the end,
   * requests an export of that token.
   */
  lemma ScrapeRequestFromTokens(first: string, chatId: string, rest: string)
    requires StartsWith(first, Trigger) && ' ' !in first
    requires chatId != [] && ' ' !in chatId
    requires rest == [] || rest[0] == ' '
    ensures ParseCommand(first + " " + chatId + rest) == ScrapeRequest(chatId)
  {
    var body := first + " " + chatId + rest;
    SecondPiece(first, chatId, rest, ' ');
    assert body[..|Trigger|] == first[..|Trigger|];
  }

  /**
   * Conversely, a requested chat id is that token: non-empty and space-free,
   * right after the first space of a body starting with `!scrape`, and
   * followed by the end or by a space.
   */
  lemma ScrapeRequestShape(body: string)
    requires ParseCommand(body).ScrapeRequest?
    ensures var chatId := ParseCommand(body).chatId;
      var k := |Split(body, ' ')[0]|;
      && StartsWith(body, Trigger)
      && chatId != [] && ' ' !in chatId
      && k + 1 + |chatId| <= |body|
      && ' ' !in body[..k] && body[k] == ' '
      && body[k + 1..k + 1 + |chatId|] == chatId
      && (k + 1 + |chatId| == |body| || body[k + 1 + |chatId|] == ' ')
  {
    var parts := Split(body, ' ');
    SecondPieceShape(body, ' ');
    var k := |parts[0]|;
    var j := k + 1 + |parts[1]|;
    assert body[..j] == parts[0] + [' '] + parts[1];
    assert body[..k] == body[..j][..k];
    assert body[k] == body[..j][k];
    assert body[k + 1..j] == body[..j][k + 1..];
  }

  /** A bare `!scrape` gets the usage reply. */
  lemma ExampleBareTrigger(body: string)
    requires body == "!scrape"
    ensures ParseCommand(body) == UsageReply
  {
    assert StartsWith(body, Trigger);
    SplitSingle(body, ' ');
  }

  /** With two spaces after `!scrape` the second token is empty: usage reply, no export. */
  lemma ExampleDoubleSpace(body: string)
    requires body == "!scrape  123@c.us"
    ensures ParseCommand(body) == UsageReply
  {
    assert StartsWith(body, Trigger);
    var first, rest := body[..7], body[8..];
    assert body == first + " " + "" + rest;
    SecondPiece(first, "", rest, ' ');
  }

  /** `!scrape 123@c.us` requests the export of `123@c.us`. */
  lemma ExampleRequest(body: string)
    requires body == "!scrape 123@c.us"
    ensures ParseCommand(body) == ScrapeRequest("123@c.us")
  {
    var first, chatId := body[..7], body[8..];
    assert body == first + " " + chatId + "";
    ScrapeRequestFromTokens(first, chatId, "");
  }

  /** The trigger is a prefix test, so `!scrapeall 123@c.us` exports too. */
  lemma ExampleLongerTrigger(body: string)
    requires body == "!scrapeall 123@c.us"
    ensures ParseCommand(body) == ScrapeRequest("123@c.us")
  {
    var first, chatId := body[..10], body[11..];
    assert body == first + " " + chatId + "";
    assert first[..7] == Trigger;
    ScrapeRequestFromTokens(first, chatId, "");
  }

  /** How the handler reacts to one incoming message. */
  datatype Reaction = NoReaction | RepliedUsage | Scraped(trace: seq<Effect>)

  /**
   * The handler: an export runs only for a scrape request, on the chat the
   * request names (`lookup` is what the client returns for a chat id);
   * otherwise the sender is told the usage or nothing happens.
   */
  function OnMessage(body: string, lookup: string -> Fetch): (r: Reaction)
    ensures r.Scraped? <==> ParseCommand(body).ScrapeRequest?
    ensures r.RepliedUsage? <==> ParseCommand(body) == UsageReply
    ensures r.Scraped? ==>
      var chatId := ParseCommand(body).chatId;
      r.trace == ScrapeTrace(chatId, lookup(chatId))
  {
    match ParseCommand(body)
    case Ignored => NoReaction
    case UsageReply => RepliedUsage
    case ScrapeRequest(chatId) => Scraped(ScrapeTrace(chatId, lookup(chatId)))
  }

  /**
   * Any JSON file the handler writes is the export file of the chat id the
   * body names, and the body starts with `!scrape`.
   */
  lemma OnlyRequestsExport(body: string, lookup: string -> Fetch, i: nat)
    requires OnMessage(body, lookup).Scraped?
    requires i < |OnMessage(body, lookup).trace| && OnMessage(body, lookup).trace[i].JsonWritten?
    ensures StartsWith(body, Trigger)
    ensures OnMessage(body, lookup).trace[i].path == OutputFileName(ParseCommand(body).chatId)
  {
    var chatId := ParseCommand(body).chatId;
    ScrapeEnds(chatId, lookup(chatId));
  }
}
