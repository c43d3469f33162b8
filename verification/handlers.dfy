/** The decisions of the two gateway callbacks, `MessageReceivedAsync` and
    `ReactionAddedAsync`, taken as pure functions of the event and of the
    outcomes of the Discord and HTTP calls they make. Their effects (adding
    a reaction, sending a direct message) are returned as values. */
module Handlers {
  import opened Wrappers
  import opened Channels
  import opened Attachments
  import opened MetadataExtraction

  /** The magnifying-glass emoji the bot adds and listens for. */
  const MarkerEmoji: string := "\U{1F50D}"

  // ---------------------------------------------------------------------
  // Message received

  /** The channel a message arrived in: a guild text channel with its id, or
      any other kind of channel. */
  datatype MessageChannel = TextChannel(id: u64) | OtherChannel

  /** What `MessageReceivedAsync` reads of a message. `isUserMessage` is the
      `message is IUserMessage` test (system messages fail it). */
  datatype IncomingMessage = IncomingMessage(
    isUserMessage: bool,
    authorIsBot: bool,
    channel: MessageChannel,
    attachments: seq<Attachment>)

  /** The handler's effect: nothing, or `AddReactionAsync` with an emoji. */
  datatype MessageAction = NoAction | AddReaction(emoji: string)

  /** `MessageReceivedAsync`: early returns for non-user messages, bot
      authors, non-text channels and channels off the allow-list; then the
      marker is added when the first attachment is an image. */
  function OnMessageReceived(m: IncomingMessage): (r: MessageAction)
    ensures r.AddReaction? ==> r.emoji == MarkerEmoji
  {
    if !m.isUserMessage || m.authorIsBot || !m.channel.TextChannel? then NoAction
    else if !IsAllowed(m.channel.id) then NoAction
    else if |m.attachments| > 0 then
      var attachment := m.attachments[0];
      if IsImage(attachment) then AddReaction(MarkerEmoji) else NoAction
    else NoAction
  }

  /** The marker is never added to a system message, to a bot's message, or
      outside a text channel. */
  lemma MarkerNeedsHumanTextMessage(m: IncomingMessage)
    requires !m.isUserMessage || m.authorIsBot || m.channel.OtherChannel?
    ensures OnMessageReceived(m) == NoAction
  {
  }

  /** The marker is never added in a channel outside the allow-list. */
  lemma MarkerNeedsAllowedChannel(m: IncomingMessage)
    requires m.channel.TextChannel? && !IsAllowed(m.channel.id)
    ensures OnMessageReceived(m) == NoAction
  {
  }

  /** The marker is added exactly when every gate passes and the first
      attachment is an image. */
  lemma MarkerIff(m: IncomingMessage)
    ensures OnMessageReceived(m) == AddReaction(MarkerEmoji) <==>
      && m.isUserMessage && !m.authorIsBot
      && m.channel.TextChannel? && IsAllowed(m.channel.id)
      && |m.attachments| > 0 && IsImage(m.attachments[0])
    ensures OnMessageReceived(m) != AddReaction(MarkerEmoji) ==> OnMessageReceived(m) == NoAction
  {
  }

  /** Attachments after the first are never inspected. */
  lemma MarkerReadsFirstAttachmentOnly(m: IncomingMessage, first: Attachment, rest: seq<Attachment>, rest': seq<Attachment>)
    ensures OnMessageReceived(m.(attachments := [first] + rest)) ==
            OnMessageReceived(m.(attachments := [first] + rest'))
  {
  }

  /** A message whose first attachment is an image does not get the marker
      in a text channel the allow-list does not hold, such as channel 1. */
  lemma MarkerChannelExamples(first: Attachment, rest: seq<Attachment>)
    requires IsImage(first)
    ensures OnMessageReceived(IncomingMessage(true, false, TextChannel(1), [first] + rest)) == NoAction
    ensures OnMessageReceived(IncomingMessage(true, false, TextChannel(678077350231015437), [first] + rest))
            == AddReaction(MarkerEmoji)
  {
  }

  // ---------------------------------------------------------------------
  // Reaction added

  /** The user who reacted, when Discord supplied one. */
  datatype ReactingUser = ReactingUser(isBot: bool)

  /** What `ReactionAddedAsync` reads of the event. */
  datatype ReactionEvent = ReactionEvent(user: Option<ReactingUser>, emoteName: string, channelId: u64)

  /** Discord.Net's `Color.Blue`, the embed colour. */
  const EmbedBlue: nat := 0x3498DB

  /** The fields of the embed the bot builds. */
  datatype Embed = Embed(title: string, description: string, color: nat)

  /** A direct message: an embed, or plain text. */
  datatype DirectMessage = EmbedDm(embed: Embed) | TextDm(text: string)

  /** What one reaction leads to. `Ignored`: the event failed a gate.
      `RecipientUnknown`: `GetUserAsync` returned null. `Aborted`: a fault
      inside the `try` (an empty attachment list) was caught and logged, and
      no message was sent. `SendDm`: the direct message the bot sends. */
  datatype ReactionOutcome =
    | Ignored
    | RecipientUnknown
    | Aborted
    | SendDm(dm: DirectMessage)

  const CodeFenceOpen: string := "```json\n"
  const CodeFenceClose: string := "```"

  /** `$"```json\n{response}```"`: a null response renders as nothing. */
  function JsonCodeBlock(response: Option<string>): string
  {
    CodeFenceOpen + response.GetOr("") + CodeFenceClose
  }

  /** Reads the text back out of a json code block, if it is one. */
  function CodeBlockBody(description: string): Option<string>
  {
    if |description| >= |CodeFenceOpen| + |CodeFenceClose|
       && description[..|CodeFenceOpen|] == CodeFenceOpen
       && description[|description| - |CodeFenceClose|..] == CodeFenceClose
    then Some(description[|CodeFenceOpen|..|description| - |CodeFenceClose|])
    else None
  }

  /** The code block gives back exactly the text placed in it. */
  lemma CodeBlockRoundTrip(response: Option<string>)
    ensures CodeBlockBody(JsonCodeBlock(response)) == Some(response.GetOr(""))
  {
    var text := response.GetOr("");
    var d := JsonCodeBlock(response);
    assert d[..|CodeFenceOpen|] == CodeFenceOpen;
    assert d[|d| - |CodeFenceClose|..] == CodeFenceClose;
    assert d[|CodeFenceOpen|..|d| - |CodeFenceClose|] == text;
  }

  /** The embed built from the extractor's response. */
  function MetadataEmbed(response: Option<string>): Embed
  {
    Embed("Metadata", JsonCodeBlock(response), EmbedBlue)
  }

  /** Discord.Net's limits on an embed: `EmbedBuilder.Description` rejects
      text longer than 4096, and `Build()` rejects an embed whose total
      length is over 6000, both with an exception. */
  const MaxDescriptionLength: nat := 4096
  const MaxEmbedLength: nat := 6000

  /** The length of a string as C# counts it, in UTF-16 code units: two for
      a character outside the Basic Multilingual Plane, one otherwise. */
  function Utf16Length(s: string): nat
  {
    if s == [] then 0 else (if s[0] as int >= 0x10000 then 2 else 1) + Utf16Length(s[1..])
  }

  lemma {:induction false} Utf16LengthAppend(a: string, b: string)
    ensures Utf16Length(a + b) == Utf16Length(a) + Utf16Length(b)
    decreases |a|
  {
    if a != [] {
      assert (a + b)[1..] == a[1..] + b;
      Utf16LengthAppend(a[1..], b);
    } else {
      assert a + b == b;
    }
  }

  /** A string takes between one and two code units per character. */
  lemma {:induction false} Utf16LengthBounds(s: string)
    ensures |s| <= Utf16Length(s) <= 2 * |s|
    decreases |s|
  {
    if s != [] {
      Utf16LengthBounds(s[1..]);
    }
  }

  /** `Embed.Length` for the fields the bot sets: title and description. */
  function EmbedLength(e: Embed): nat
  {
    Utf16Length(e.title) + Utf16Length(e.description)
  }

  /** `WithDescription` (Program.cs line 53) and `Build()` (line 56) both
      accept the embed built from `response`. */
  predicate EmbedBuilds(response: Option<string>)
  {
    && Utf16Length(JsonCodeBlock(response)) <= MaxDescriptionLength
    && EmbedLength(MetadataEmbed(response)) <= MaxEmbedLength
  }

  /** The code block adds exactly 11 code units to the response. */
  lemma JsonCodeBlockLength(response: Option<string>)
    ensures Utf16Length(JsonCodeBlock(response)) == 11 + Utf16Length(response.GetOr(""))
  {
    Utf16LengthAppend(CodeFenceOpen, response.GetOr(""));
    Utf16LengthAppend(CodeFenceOpen + response.GetOr(""), CodeFenceClose);
  }

  /** Only the description limit matters: with the 8-character title, an
      embed whose description fits always passes `Build()`. */
  lemma EmbedBuildsIff(response: Option<string>)
    ensures EmbedBuilds(response) <==> Utf16Length(JsonCodeBlock(response)) <= MaxDescriptionLength
  {
    assert Utf16Length("Metadata") == 8;
  }

  /** A null response and any response of at most 2042 characters fit; a
      response of more than 4085 characters never does. */
  lemma EmbedBuildsBySize(response: Option<string>)
    ensures response.None? ==> EmbedBuilds(response)
    ensures |response.GetOr("")| <= 2042 ==> EmbedBuilds(response)
    ensures |response.GetOr("")| > 4085 ==> !EmbedBuilds(response)
  {
    EmbedBuildsIff(response);
    JsonCodeBlockLength(response);
    Utf16LengthBounds(response.GetOr(""));
  }

  /** `ReactionAddedAsync`. `recipientFound` is whether `GetUserAsync`
      returned a user; `target` the attachments of the resolved message;
      `fetched` the outcome of downloading `target[0].url` and parsing the
      bytes, which is only used when `target` is not empty. A fault inside
      the `try` (an empty `target`, or an embed Discord.Net refuses to
      build) is logged and ends the handler without a DM. */
  function OnReactionAdded(e: ReactionEvent, recipientFound: bool, target: seq<Attachment>,
                           fetched: Option<seq<Directory>>): (r: ReactionOutcome)
    ensures r.SendDm? ==> |target| > 0
  {
    if !(e.user.Some? && !e.user.value.isBot && e.emoteName == MarkerEmoji) then Ignored
    else if !IsAllowed(e.channelId) then Ignored
    else if !recipientFound then RecipientUnknown
    else if |target| == 0 then Aborted
    else
      var response := ExtractionOf(fetched);
      if response != Some("") then
        if EmbedBuilds(response) then SendDm(EmbedDm(MetadataEmbed(response))) else Aborted
      else SendDm(TextDm(NoExifMessage))
  }

  /** A reaction is acted on only when a non-bot user reacted with the
      marker in an allow-listed channel; otherwise it is ignored and no
      direct message is sent. */
  lemma ReactionGate(e: ReactionEvent, recipientFound: bool, target: seq<Attachment>,
                     fetched: Option<seq<Directory>>)
    ensures OnReactionAdded(e, recipientFound, target, fetched) != Ignored <==>
      e.user.Some? && !e.user.value.isBot && e.emoteName == MarkerEmoji && IsAllowed(e.channelId)
  {
  }

  /** A direct message is sent exactly when the reaction passes the gate,
      the reacting user resolves, the message has an attachment and the
      embed for the extractor's result is within Discord.Net's limits. */
  lemma ReactionDmIff(e: ReactionEvent, recipientFound: bool, target: seq<Attachment>,
                      fetched: Option<seq<Directory>>)
    ensures OnReactionAdded(e, recipientFound, target, fetched).SendDm? <==>
      && e.user.Some? && !e.user.value.isBot && e.emoteName == MarkerEmoji
      && IsAllowed(e.channelId) && recipientFound && |target| > 0
      && EmbedBuilds(ExtractionOf(fetched))
  {
  }

  /** A failed extraction is always reported: for a reaction that passes the
      gate on a message with an attachment, a null result always yields the
      embed with an empty code block. */
  lemma FailureAlwaysReported(e: ReactionEvent, target: seq<Attachment>, fetched: Option<seq<Directory>>)
    requires e.user.Some? && !e.user.value.isBot && e.emoteName == MarkerEmoji && IsAllowed(e.channelId)
    requires |target| > 0 && ExtractionOf(fetched).None?
    ensures OnReactionAdded(e, true, target, fetched) == SendDm(EmbedDm(MetadataEmbed(None)))
  {
    EmbedBuildsBySize(None);
  }

  /** A result too long for an embed description sends nothing. */
  lemma OversizedResultAborted(e: ReactionEvent, target: seq<Attachment>, fetched: Option<seq<Directory>>)
    requires e.user.Some? && !e.user.value.isBot && e.emoteName == MarkerEmoji && IsAllowed(e.channelId)
    requires |target| > 0 && |ExtractionOf(fetched).GetOr("")| > 4085
    ensures OnReactionAdded(e, true, target, fetched) == Aborted
  {
    EmbedBuildsBySize(ExtractionOf(fetched));
  }

  /** Every direct message is the "Metadata" embed whose description is the
      extractor's result in a json code block, with null shown as an empty
      block; the plain-text "No EXIF data found." message is never sent. */
  lemma EveryDmIsMetadataEmbed(e: ReactionEvent, recipientFound: bool, target: seq<Attachment>,
                               fetched: Option<seq<Directory>>)
    ensures var r := OnReactionAdded(e, recipientFound, target, fetched);
      r.SendDm? ==>
        && r.dm.EmbedDm?
        && r.dm.embed.title == "Metadata"
        && r.dm.embed.color == EmbedBlue
        && r.dm.embed.description == "```json\n" + ExtractionOf(fetched).GetOr("") + "```"
    ensures !OnReactionAdded(e, recipientFound, target, fetched).SendDm?
         || !OnReactionAdded(e, recipientFound, target, fetched).dm.TextDm?
  {
  }

  /** Because the extractor never returns the empty string, a failed
      extraction is recognisable in the embed: its code block is empty
      exactly when the extractor returned null. */
  lemma EmptyBlockMeansFailure(e: ReactionEvent, recipientFound: bool, target: seq<Attachment>,
                               fetched: Option<seq<Directory>>)
    requires OnReactionAdded(e, recipientFound, target, fetched).SendDm?
    ensures var r := OnReactionAdded(e, recipientFound, target, fetched);
      r.dm.EmbedDm? &&
      (CodeBlockBody(r.dm.embed.description) == Some("") <==> ExtractionOf(fetched).None?)
  {
    CodeBlockRoundTrip(ExtractionOf(fetched));
  }

  /** The bot's own marker reaction, added by a bot user, never starts an
      extraction. */
  lemma OwnMarkerIgnored(channelId: u64, recipientFound: bool, target: seq<Attachment>,
                         fetched: Option<seq<Directory>>)
    ensures OnReactionAdded(ReactionEvent(Some(ReactingUser(true)), MarkerEmoji, channelId),
                            recipientFound, target, fetched) == Ignored
  {
  }

  /** Only the first attachment is used: the outcome depends on the rest of
      the attachment list only through whether it is empty. */
  lemma ReactionReadsFirstAttachmentOnly(e: ReactionEvent, recipientFound: bool,
                                         target: seq<Attachment>, target': seq<Attachment>,
                                         fetched: Option<seq<Directory>>)
    requires (|target| == 0) == (|target'| == 0)
    ensures OnReactionAdded(e, recipientFound, target, fetched) ==
            OnReactionAdded(e, recipientFound, target', fetched)
  {
  }
}
