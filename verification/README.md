# FezMetadataBot decision rules in Dafny

FezMetadataBot is a Discord bot. It watches three hard-coded channels. When a
person posts a message whose first attachment is an image, the bot adds a
🔍 reaction. When a person adds 🔍 to a message in one of those channels,
the bot downloads the message's first attachment, reads the PNG text chunks
from the second PNG directory, and sends the user a direct message. That
message is a "Metadata" embed holding the tags in a json code block.

This project models the decisions in `Program.cs` that sit between the
gateway events and the Discord, HTTP and parser calls:

- `channels.dfy` (`Channels`): the allow-list of channel ids (C# `ulong`, modelled as `u64`).
- `ascii_text.dfy` (`AsciiText`): ordinal, case-insensitive substring search, as used by `IsImage`.
- `attachments.dfy` (`Attachments`): attachments and the `IsImage` rule.
- `metadata_extraction.dfy` (`MetadataExtraction`): the part of `ExtractEXIFDataFromAttachment` after the download.
  It selects the second PNG directory, renders its tags, substitutes the
  "No EXIF data found." sentinel, and turns every failure into null. The
  tag loop is a method, `ExtractExifData`. It is proved equal to the
  function `ExtractionOf`, which the handlers use.
- `handlers.dfy` (`Handlers`): `MessageReceivedAsync` and `ReactionAddedAsync` as functions.
  Each takes the event and the results of the calls it makes, and returns
  the effect it would have (add a reaction, send a direct message, or
  nothing).
- `wrappers.dfy` (`Wrappers`): `Option`, standing for C#'s nullable references.

Facts about the error paths that the model follows:

- `ToArray()[1]` (Program.cs:79) is inside the `try`, so fewer than two
  PNG directories gives null rather than an unhandled fault.
- `Attachments.First()` (Program.cs:49) is inside the `try` at
  Program.cs:48-64, so a reaction on a message without attachments is
  logged and sends no DM (`Aborted`).
- Building the embed (Program.cs:51-54) is inside the same `try`.
  Discord.Net rejects a description longer than 4096 UTF-16 code units
  and an embed longer than 6000, so a long extraction result is logged
  and sends no DM (`Aborted`).
- A failed download gives null, and null is not `""`, so the user gets
  the embed with an empty code block. The plain-text branch
  (Program.cs:58-59) can never be reached, because the extractor never
  returns `""`.
- The message gate skips every bot author and every non-user message
  (Program.cs:102), not only the bot's own messages.

## Model

| member | source | states |
|---|---|---|
| `Channels.AllowListExact` | Program.cs:16 | The allow-list holds exactly three distinct ids, and a channel is allowed iff its id is one of those three numbers |
| `AsciiText.ContainsIgnoreCaseSpec` | Program.cs:125 | The left-to-right scan reports a match iff the needle occurs at some offset, character by character ignoring case |
| `AsciiText.ContainsIgnoreCaseLength` | Program.cs:125 | A match implies the content type is at least as long as the needle |
| `AsciiText.ContainsIgnoreCaseUpper` | Program.cs:125 | Upper-casing the content type never changes whether a needle is found |
| `AsciiText.ContainsIgnoreCaseUpperNeedle` | Program.cs:125 | Upper-casing the needle never changes whether it is found |
| `AsciiText.ContainsIgnoreCaseInfix` | Program.cs:125 | The test is a substring test: a needle surrounded by any text is found |
| `Attachments.IsImageIff` | Program.cs:122-126 | An attachment is an image iff its content type contains, ignoring case, "image/png", "image/jpg", "image/jpeg", "image/gif" or "image/bmp" |
| `Attachments.IsImageSpec` | Program.cs:122-126 | Equivalently, some image MIME string matches the content type at some offset |
| `Attachments.IsImageMinLength` | Program.cs:124-125 | An image content type has at least 9 characters, the length of the shortest MIME string |
| `Attachments.IsImageIgnoresCase` | Program.cs:125 | Upper-casing the content type leaves the classification unchanged |
| `Attachments.IsImageWithParameters` | Program.cs:125 | An image MIME string followed by any text (parameters) is still an image |
| `Attachments.IsImageExamples` | Program.cs:124-125 | "IMAGE/PNG" is an image; "image/webp" is not |
| `MetadataExtraction.PngDirectories` | Program.cs:79 | `OfType<PngDirectory>()` keeps exactly the PNG directories and never more elements than it is given |
| `MetadataExtraction.PngDirectoriesAppend` | Program.cs:79 | The filter distributes over concatenation, so PNG directories keep their parser order |
| `MetadataExtraction.FormatTagsAppend` | Program.cs:81-85 | Rendering concatenated tag lists concatenates the renderings (tags are rendered in order) |
| `MetadataExtraction.FormatTagsEmptyIff` | Program.cs:81-87 | The rendering is empty iff there are no tags, and otherwise ends with a newline |
| `MetadataExtraction.FormatTagsLineCount` | Program.cs:83-85 | With no line breaks inside tag text, the rendering has exactly one line per tag |
| `MetadataExtraction.ExtractionOf` | Program.cs:70-97 | The extractor's result is never the empty string |
| `MetadataExtraction.ExtractExifData` | Program.cs:72-96 | The `foreach` append loop with the sentinel and null paths computes exactly `ExtractionOf` and never returns `""` |
| `MetadataExtraction.ExtractionNoneIff` | Program.cs:72-95 | The result is null iff the fetch or parse failed or fewer than two PNG directories exist |
| `MetadataExtraction.ExtractionSentinelIff` | Program.cs:81-90 | The result is "No EXIF data found." iff the second PNG directory has no tags; no real rendering equals the sentinel |
| `MetadataExtraction.ExtractionSuccess` | Program.cs:81-90 | With tags present, the result is the in-order `Name: Description\n` rendering, one line per single-line tag |
| `MetadataExtraction.ExtractionIgnoresOtherKinds` | Program.cs:79 | Inserting a non-PNG directory anywhere does not change the result |
| `MetadataExtraction.ExtractionReadsSecondOnly` | Program.cs:79 | Only the second PNG directory is read; the first and any after the second do not matter |
| `MetadataExtraction.ExtractionExample` | Program.cs:79-90 | Tags Title=Sunset, Author=Jane in the second PNG directory give "Title: Sunset\nAuthor: Jane\n" |
| `Handlers.OnMessageReceived` | Program.cs:100-120 | The only reaction the handler ever adds is 🔍 |
| `Handlers.MarkerNeedsHumanTextMessage` | Program.cs:102-103 | No marker for a non-user message, a bot author or a non-text channel |
| `Handlers.MarkerNeedsAllowedChannel` | Program.cs:106-107 | No marker in a text channel outside the allow-list |
| `Handlers.MarkerIff` | Program.cs:100-117 | The marker is added iff every gate passes, there is an attachment and the first one is an image; otherwise nothing happens |
| `Handlers.MarkerReadsFirstAttachmentOnly` | Program.cs:110-116 | Attachments after the first never affect the decision |
| `Handlers.MarkerChannelExamples` | Program.cs:16 | An image message gets the marker in an allow-listed channel and not in channel 1 |
| `Handlers.CodeBlockRoundTrip` | Program.cs:53 | The text placed in the json code block can be read back unchanged (null reads back as empty) |
| `Handlers.OnReactionAdded` | Program.cs:39-68 | A direct message is only sent for a message that has an attachment |
| `Handlers.JsonCodeBlockLength` | Program.cs:53 | The json code fence adds exactly 11 UTF-16 code units to the result |
| `Handlers.EmbedBuildsIff` | Program.cs:51-56 | With the 8-character "Metadata" title, the embed builds iff its description is within the 4096 limit; the 6000 total limit never decides on its own |
| `Handlers.EmbedBuildsBySize` | Program.cs:51-56 | A null result and any result of at most 2042 characters fit in the embed; one of more than 4085 characters never does |
| `Handlers.ReactionGate` | Program.cs:40-43 | A reaction is acted on iff a specified non-bot user reacted with 🔍 in an allow-listed channel |
| `Handlers.ReactionDmIff` | Program.cs:40-65 | A DM is sent iff the gate passes, the user resolves, the message has an attachment and the embed for the result is within Discord.Net's limits |
| `Handlers.FailureAlwaysReported` | Program.cs:49-56 | For a reaction that passes the gate on a message with an attachment, a null result always sends the embed with an empty code block |
| `Handlers.OversizedResultAborted` | Program.cs:48-64 | A result of more than 4085 characters makes the embed builder throw, and no DM is sent |
| `Handlers.EveryDmIsMetadataEmbed` | Program.cs:50-59 | Every DM is the blue "Metadata" embed with description "```json\n" + result + "```" (null as empty); the plain-text DM is unreachable |
| `Handlers.EmptyBlockMeansFailure` | Program.cs:50-53 | The embed's code block is empty iff the extractor returned null |
| `Handlers.OwnMarkerIgnored` | Program.cs:40 | The bot's own 🔍 reaction (a bot user) never starts an extraction |
| `Handlers.ReactionReadsFirstAttachmentOnly` | Program.cs:49 | The outcome depends on the attachment list only through whether it is empty |

## Left out

- `Main`, `LogAsync`, client construction, login, start and the endless delay: gateway setup, async plumbing and console output.
- `EnsureConfigExists` and `ConfigUtil/Configuration.cs`: file-system and console I/O, and JSON (de)serialisation by an external library, with no logic of their own.
- The HTTP GET, `EnsureSuccessStatusCode` and `ImageMetadataReader.ReadMetadata`: network I/O and a foreign binary parser. Their combined outcome is the input `fetched`. `None` means one of them threw; `Some` holds the parsed directory list.
- `GetOrDownloadAsync`: the resolved message's attachments are an input. A fault during resolution, which happens outside the `try`, is not modelled.
- `GetUserAsync`: its outcome is the input `recipientFound`.
- `AddReactionAsync` and `SendMessageAsync`: these are returned as effect values rather than performed. A delivery failure (for example DMs disabled) is caught and logged by the source and changes nothing else, so the model stops at the message the bot sends.
- The console lines written on extraction and delivery failures.
- The Discord.Net embed limits (4096 for a description, 6000 for a whole embed) are library constants. They are not part of this repository's source.
- Concurrency between handler invocations: they share no mutable state.
- `AsciiText.ContainsIgnoreCase`: case folding covers ASCII letters only, not the full Unicode simple case mapping of `OrdinalIgnoreCase`. This is exact for the ASCII MIME strings searched for, and only differs for non-ASCII content types.
- `Attachments.IsImage`: a null content type (which would throw in the source) is outside the model; content types are always strings.
