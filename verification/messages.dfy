/** Message blocks and the argument checks and routing of `send_message`. */
module Messages {
  import opened Wrappers
  import opened Errors
  import opened Texts

  /** The decoded `block_id` of an approval prompt. */
  datatype BlockId = BlockId(event: string, userId: string, vacationId: string)

  datatype Button = Button(actionId: string, value: string)

  datatype Block =
    | Section(text: Text)
    | Divider
    | Actions(blockId: BlockId, buttons: seq<Button>)

  /** A message as it leaves: posted to a channel, or to a webhook URL. */
  datatype Delivery =
    | ToChannel(channel: string, blocks: seq<Block>)
    | ToWebhook(url: string, blocks: seq<Block>)

  const NO_CONTENT: string := "text or blocks must be passed."
  const TEXT_AND_BLOCKS: string := "text and blocks cannot be passed together."
  const NO_DESTINATION: string := "channel or webhook_url must be passed."
  const CHANNEL_AND_WEBHOOK: string := "channel and webhook_url cannot be passed together."

  /** A mrkdwn section holding the text. */
  function GenerateBlockWithText(text: Text): Block
  {
    Section(text)
  }

  /**
   * Text, when given, replaces the blocks; the channel, when given, wins over the webhook.
   * An empty string or list stands for an argument not passed (the checks test truthiness).
   */
  function Route(text: Option<Text>, blocks: seq<Block>, channel: string, webhookUrl: string): Delivery
  {
    var content := if text.Some? then [GenerateBlockWithText(text.value)] else blocks;
    if channel != "" then ToChannel(channel, content) else ToWebhook(webhookUrl, content)
  }

  /** The argument checks exactly as they stand: the second one tests the destinations again. */
  function SendMessageAsWritten(text: Option<Text>, blocks: seq<Block>, channel: string, webhookUrl: string)
    : (r: Result<Delivery, Exception>)
    ensures r.Success? <==> (text.Some? || blocks != []) && ((channel != "") != (webhookUrl != ""))
    ensures r.Success? && text.Some? ==> r.value.blocks == [Section(text.value)]
    ensures r.Success? && text.None? ==> r.value.blocks == blocks
    ensures r.Success? && channel != "" ==> r.value.ToChannel? && r.value.channel == channel
    ensures r.Success? && channel == "" ==> r.value.ToWebhook? && r.value.url == webhookUrl
    ensures r.Failure? ==> r.error.ArgumentsError? && r.error.message != CHANNEL_AND_WEBHOOK
  {
    if text.None? && blocks == [] then Failure(ArgumentsError(NO_CONTENT))
    else if channel != "" && webhookUrl != "" then Failure(ArgumentsError(TEXT_AND_BLOCKS))
    else if channel == "" && webhookUrl == "" then Failure(ArgumentsError(NO_DESTINATION))
    else if channel != "" && webhookUrl != "" then Failure(ArgumentsError(CHANNEL_AND_WEBHOOK))
    else Success(Route(text, blocks, channel, webhookUrl))
  }

  /** As written, both destinations are reported with the text-and-blocks message, and text plus blocks is accepted. */
  lemma SendMessageAsWrittenMislabels(t: Text, b: Block)
    ensures SendMessageAsWritten(Some(t), [], "C1", "https://hook") == Failure(ArgumentsError(TEXT_AND_BLOCKS))
    ensures SendMessageAsWritten(Some(t), [b], "C1", "") == Success(ToChannel("C1", [Section(t)]))
  {
  }

  /** The checks as their messages describe them: one kind of content and one destination. */
  function SendMessage(text: Option<Text>, blocks: seq<Block>, channel: string, webhookUrl: string)
    : (r: Result<Delivery, Exception>)
    ensures r.Success? <==> (text.Some? != (blocks != [])) && ((channel != "") != (webhookUrl != ""))
    ensures text.None? && blocks == [] ==> r == Failure(ArgumentsError(NO_CONTENT))
    ensures (text.Some? != (blocks != [])) && channel == "" && webhookUrl == "" ==>
      r == Failure(ArgumentsError(NO_DESTINATION))
    ensures r == Failure(ArgumentsError(TEXT_AND_BLOCKS)) <==> text.Some? && blocks != []
    ensures r == Failure(ArgumentsError(CHANNEL_AND_WEBHOOK)) <==>
      (text.Some? != (blocks != [])) && channel != "" && webhookUrl != ""
    ensures r.Success? && text.Some? ==> r.value.blocks == [Section(text.value)]
    ensures r.Success? && text.None? ==> r.value.blocks == blocks
    ensures r.Success? && channel != "" ==> r.value.ToChannel? && r.value.channel == channel
    ensures r.Success? && channel == "" ==> r.value.ToWebhook? && r.value.url == webhookUrl
    ensures r.Failure? ==> r.error.ArgumentsError?
  {
    if text.None? && blocks == [] then Failure(ArgumentsError(NO_CONTENT))
    else if text.Some? && blocks != [] then Failure(ArgumentsError(TEXT_AND_BLOCKS))
    else if channel == "" && webhookUrl == "" then Failure(ArgumentsError(NO_DESTINATION))
    else if channel != "" && webhookUrl != "" then Failure(ArgumentsError(CHANNEL_AND_WEBHOOK))
    else Success(Route(text, blocks, channel, webhookUrl))
  }

  /** Where at most one kind of content and one destination is passed, the two agree. */
  lemma SendMessageAgreesWithAsWritten(text: Option<Text>, blocks: seq<Block>, channel: string, webhookUrl: string)
    requires !(text.Some? && blocks != [])
    requires !(channel != "" && webhookUrl != "")
    ensures SendMessage(text, blocks, channel, webhookUrl) == SendMessageAsWritten(text, blocks, channel, webhookUrl)
  {
  }

  /**
   * A handler's `send_message(text, channel=c)` against the current signature: the text
   * fills the leading workspace parameter, so the call carries neither text nor blocks.
   */
  function PositionalTextCallAsWritten(text: Text, channel: string, webhookUrl: string): (r: Result<Delivery, Exception>)
    ensures r == Failure(ArgumentsError(NO_CONTENT))
  {
    SendMessageAsWritten(None, [], channel, webhookUrl)
  }

  /** Passing the text by name instead delivers it: the call the handlers evidently mean. */
  lemma PositionalTextIsLost(text: Text, channel: string)
    requires channel != ""
    ensures PositionalTextCallAsWritten(text, channel, "").Failure?
    ensures SendMessage(Some(text), [], channel, "") == Success(ToChannel(channel, [Section(text)]))
  {
  }

  /** A text message to a non-empty channel is always accepted, as one section. */
  lemma TextToChannel(text: Text, channel: string)
    requires channel != ""
    ensures SendMessage(Some(text), [], channel, "") == Success(ToChannel(channel, [Section(text)]))
  {
  }
}
