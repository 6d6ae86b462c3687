# QuotaRadar: verified models of its core protocols

QuotaRadar watches X accounts, writes up quota changes and news, and publishes them in Telegram, with paid
recommendations appended to some posts. This project models, in Dafny, the parts of it where a mistake would be visible
or costly, and proves what those parts promise. Verify it with `dafny verify dfyconfig.toml`.

## How it is organised

**Markup.** `Text` (strings of Unicode scalar values and their UTF-16 units, section 2.1 of RFC 2781), `Sorting` (a stable
sort), `MarkupResult` (the builder shared by both parsers, the entity order and the nesting check), `MarkupPreview` and
`MarkupFinish` (the browser preview as a stack machine, and finishing a builder), `PreviewReading` (a reader of that HTML,
written without looking at how it is made, that gives the text and the open elements back), `MarkupMarkdown` (the MarkdownV2
parser as functions), `MarkdownParser` (its loops and its class), `PrintedMarkdown`, `PrintedScans`, `MarkdownRoundTrip`,
`MarkdownDepth`, `MarkdownBlocks` and `MarkdownSteps` (printing documents and parsing them back, and one step of the parser
for every other construct), `MarkupHtml` (the HTML tag-stack parser), `HtmlDocuments` (the same input as a tree),
`MarkupShortcuts` (addresses, custom emoji, shortcuts and the order of entities), `Formatting` (advertising appended to a
post, and the room posts must leave for it).

**Advertising delivery.** `AdDelivery` (the rows and every transaction as a function), `AdStore` (the same transactions as
the code performs them), `Requests` (requests really made), `AdMoves` (one delivery and its worker, move by move),
`AdProtocol` (the state machine of all deliveries with crashes, retries, operators, campaign edits and the real channel),
`AdMessages` (what those runs send is legible), `AdWorker` (the delivery task, a walk of those moves), `AdPreparation` and
`AdOutcomes` (exactly when each transaction and the task act, and what they leave).

**News.** `NewsReceipts` (how an answer of Telegram is classified), `NewsSending`, `NewsProtocol` and `NewsOutcomes` (the
publication protocol with the daily cap and the release of a historical fill, and exactly when and how a delivery ends),
`NewsBudget` (the weekly and the fill ledger), `NewsFill`, `NewsFillRun` and `FillOutcomes` (which events a fill takes, wave
by wave, and when each step of a run is made), `NewsPreparation` and `PreparationOutcomes` (numbered attempts and the one
paid cover), `NewsCollection` and `CollectionOutcomes` (search windows and page chains).

**Ingestion.** `XTimeline` (reading a timeline page by page), `Ingestion` and `IngestionRows` (polling and backfilling one
source, and the rows that leaves), `Coverage` (which part of a timeline is stored without a hole) and `IngestionRuns` (polls,
backfills and failures in any order).

Where the code changes state step by step there are two forms: a class or a loop that does what the code does, and a
function on values that its contract equates with the new state; the promises are lemmas about the function and about
all runs of the state machine built from it. Each database transaction is one step, a worker may crash between any two
steps, and what the network or a user does is a parameter. Members whose name ends in `Exactly` say when an operation
acts and what it leaves in terms of the rows, texts and numbers it finds, not of the functions that compute it. Three
assumptions are made throughout: a lock is exclusive while its holder lives, an operator resolves an uncertain send
truthfully and not while a request is in flight, and only an explicit refusal proves that a request published nothing.

**A property the code does not keep.** A backfill asks X for posts up to `until_id`, and passes its cursor less one. X
documents `until_id` as exclusive, so the post whose id is exactly one below the cursor is never asked for.
`IngestionRuns.AdjacentIdsLeaveAHole` shows an input that leaves a hole. How X reads `until_id` is therefore a parameter:
`IngestionRuns.NeverAHole` states exactly when a run leaves no hole under either reading, and
`IngestionRuns.SpreadNeverAHole` that none is left as long as no two ids of a timeline follow each other directly.

Every record that carries a Telegram date, a counter or an amount is unbounded; amounts of money are exact reals, as the
code's decimals are. Times are integer seconds.

## Model

| member | source | states |
|---|---|---|
| MarkupResult.MarkupBuilder.Add | apps/advertising/markup_result.py:67-69 | adding text appends it, and the running offset stays the UTF-16 length of all text |
| Text.UnitsExactly | apps/advertising/markup_result.py:21-22 | the UTF-16 units of a character are its number or a surrogate pair that gives it back |
| MarkupResult.MarkupBuilder.AddEntity | apps/advertising/markup_result.py:71-74 | an entity covers what was added since its start and is dropped when nothing was |
| MarkupResult.MarkupBuilder.Emoji | apps/advertising/markup_result.py:76-85 | a custom emoji shows the first fallback there is, is marked and remembered; a bad id or fallback is an error that changes nothing |
| MarkupResult.LinkEntity | apps/advertising/markup_result.py:25-48 | an ordinary link keeps its address, an image link is a custom emoji or a date |
| MarkupShortcuts.LinkExactly | apps/advertising/markup_result.py:25-48 | exactly which addresses are accepted as links, custom emoji and dates |
| MarkupShortcuts.EmojiExactly | apps/advertising/markup_result.py:76-85 | exactly which custom emoji are accepted, and what adding one leaves |
| MarkupResult.SortCorrect | apps/advertising/markup_result.py:97-97 | entities are sorted by offset, longest first, links first, stably, and none is lost |
| MarkupShortcuts.OrderExactly | apps/advertising/markup_result.py:97-97 | the order of entities, spelled out |
| MarkupShortcuts.NestingExactly | apps/advertising/markup_result.py:111-114 | which kinds may not nest, spelled out |
| MarkupResult.ValidateEntities | apps/advertising/markup_result.py:102-114 | on sorted entities there is no objection exactly when every later one that starts inside an earlier one ends inside it in a supported combination; an objection names such a pair |
| MarkupResult.LaminarNeverCrosses | apps/advertising/markup_result.py:108-109 | sorted entities that are nested or disjoint never raise the crossing error |
| MarkupFinish.CollectTags | apps/advertising/markup_result.py:124-136 | the loop fills the two tables so that each offset has its opening tags in order and its closing tags in reverse |
| MarkupFinish.PreviewHtml | apps/advertising/markup_result.py:117-144 | the preview is the text, character by character, with the closing and opening tags of its offset before each |
| MarkupPreview.PreviewBalanced | apps/advertising/markup_result.py:117-144 | for accepted, sorted entities on characters the tags of the preview balance |
| MarkupPreview.StackCovers | apps/advertising/markup_result.py:138-142 | at every character the open tags are the entities that cover it, outermost first |
| PreviewReading.ContentsRead | apps/advertising/markup_result.py:137-144 | read as HTML, the contents of the preview are the text: no character of it is taken for a tag or a reference, and each reference and line break gives its character back |
| PreviewReading.HtmlReads | apps/advertising/markup_result.py:117-144 | read as HTML, the preview opens and closes elements that match each other and has at each character exactly the elements of the entities that cover it |
| PreviewReading.ElementsTellKinds | apps/advertising/markup_result.py:118-135 | the elements of the preview tell the kinds of entities apart, with their addresses, numbers and dates |
| MarkupFinish.NothingCrosses | apps/advertising/markup_result.py:95-99 | what a well-formed builder holds, once sorted, never meets the crossing objection |
| MarkupFinish.Finish | apps/advertising/markup_result.py:95-99 | finishing accepts exactly the accepted entities, never reports a crossing for a well-formed builder, and then the HTML, read as HTML, shows the text with its entities |
| MarkupMarkdown.ReadLink | apps/advertising/markup_markdown.py:44-69 | a link that is read ends in range after its start at a closing parenthesis with a shorter caption; the only error is an unclosed address |
| MarkupMarkdown.Balance | apps/advertising/markup_markdown.py:50-66 | a scan that balances ends right after a closing bracket in range, although escapes are skipped two at a time |
| MarkupMarkdown.ClosingPosition | apps/advertising/markup_markdown.py:18-41 | the closing position is -1 or a position at or after the start where the marker stands; code markers never fail |
| MarkupMarkdown.SkipConstruct | apps/advertising/markup_markdown.py:29-40 | skipping a link, code or a character always goes forward |
| MarkupMarkdown.QuoteToken | apps/advertising/markup_markdown.py:164-188 | a quote goes forward, at most one past the end, and its contents are shorter than the text |
| MarkupMarkdown.NextToken | apps/advertising/markup_markdown.py:80-144 | every branch goes forward and every nested text is shorter, so parsing ends on every input |
| MarkupMarkdown.ParseGrows | apps/advertising/markup_markdown.py:76-188 | a parse only adds text and entities, the new entities lie on characters of the new text with positive length, nested or disjoint |
| MarkupMarkdown.ParseWellFormed | apps/advertising/markup_markdown.py:76-188 | for every input the parser leaves well-formed entities |
| MarkdownParser.FindClosing | apps/advertising/markup_markdown.py:18-41 | the scanning loop finds the closing position |
| MarkdownParser.ScanLink | apps/advertising/markup_markdown.py:44-69 | the two balancing loops read the link |
| MarkdownParser.CollectQuote | apps/advertising/markup_markdown.py:164-176 | the loop collects the lines of a quote and where it ends |
| MarkdownParser.TelegramMarkdownParser.Parse | apps/advertising/markup_markdown.py:76-144 | the class writes into its builder exactly what the parse function says, and fails exactly when it does |
| MarkdownParser.TelegramMarkdownParser.CodeBlock | apps/advertising/markup_markdown.py:146-162 | code is written unescaped with its language and marked, or nothing happens |
| MarkdownParser.TelegramMarkdownParser.Quote | apps/advertising/markup_markdown.py:164-188 | a quote is written with its contents parsed, as expandable or not, or nothing happens |
| MarkdownParser.RenderMarkdown | apps/advertising/markup.py:17-27 | parsing and finishing Markdown fails only as the parser does or for unsupported nesting; otherwise the preview is faithful |
| MarkdownRoundTrip.RoundTrip | apps/advertising/markup_markdown.py:76-144 | a document of plain text, all seven formats and links, nested at will, printed with every character from 1 to 126 escaped or as ordinary bare text with addresses, parses back to exactly its text and its entities |
| MarkdownRoundTrip.EscapedTextIsItself | apps/advertising/markup_markdown.py:81-84 | fully escaped text parses to itself without entities |
| MarkdownRoundTrip.BareTextIsItself | apps/advertising/markup_markdown.py:136-144 | text without backslash, backtick, bracket, format symbol or a `>` at the start of a line parses to itself without entities, addresses included |
| MarkdownDepth.DepthExactly | apps/advertising/markup_markdown.py:76-78 | a printed document is parsed back exactly when it is nested at most 64 deep, and otherwise refused as too deep |
| MarkdownRoundTrip.WrittenIs | apps/advertising/markup_markdown.py:122-136 | writing a document adds its text and one entity per part, inner ones first |
| MarkdownBlocks.CodeRoundTrip | apps/advertising/markup_markdown.py:146-162 | any non-empty text printed as inline code parses back to that text and one code entity over it |
| MarkdownBlocks.QuoteStep | apps/advertising/markup_markdown.py:164-188 | at the start of a line a quoted document adds itself with one quote around it and, if a line that does not belong to it follows, a new line before the parse goes on there |
| MarkdownBlocks.QuoteRoundTrip | apps/advertising/markup_markdown.py:164-188 | a printed document of any number of lines, quoted line by line, plain or expandable, parses to the document with one quote around it |
| MarkdownSteps.NumberStep | apps/advertising/markup_markdown.py:118-122 | a number in brackets with no parenthesis after it is a custom emoji |
| MarkdownSteps.EmojiStep | apps/advertising/markup_markdown.py:97-101 | an emoji before a number in brackets shows that custom emoji |
| MarkdownSteps.ImageStep | apps/advertising/markup_markdown.py:102-110 | the image of a custom emoji is that emoji, shown by the text in its brackets |
| MarkdownSteps.DateStep | apps/advertising/markup_markdown.py:102-117 | the image of a date marks its parsed contents with the date |
| MarkdownSteps.SeparatorStep | apps/advertising/markup_markdown.py:123-127 | two stars before an underline, or before a quote mark where no quote begins, add nothing |
| MarkdownSteps.CodeStep | apps/advertising/markup_markdown.py:146-162 | escaped code between backticks is added unescaped and marked, at any position |
| MarkdownSteps.FenceStep | apps/advertising/markup_markdown.py:146-162 | a fenced block loses its first line, which names its language, and is marked with it |
| MarkdownSteps.UnnamedFenceStep | apps/advertising/markup_markdown.py:146-162 | a fenced block whose first line names no language is kept whole |
| MarkdownSteps.AddressStep | apps/advertising/markup_markdown.py:136-140 | an address, up to white space or an angle bracket, is kept whole whatever symbols it holds |
| MarkdownSteps.LoneStep | apps/advertising/markup_markdown.py:128-144 | a format symbol, a bracket, a backtick or a backslash that nothing closes stands for itself |
| MarkdownSteps.BadLinkStep | apps/advertising/markup_markdown.py:102-106 | a link whose address is not accepted ends the parse with the reason |
| MarkdownSteps.UnclosedStep | apps/advertising/markup_markdown.py:57-68 | a caption with a parenthesis that is never closed ends the parse with that error |
| MarkupHtml.FeedTidy | apps/advertising/markup_html.py:22-77 | along every event sequence no entity straddles the start of an open tag |
| MarkupHtml.ParseWellFormed | apps/advertising/markup_html.py:22-74 | every event sequence accepted with an empty stack leaves well-formed entities |
| MarkupHtml.TextFromIsAdded | apps/advertising/markup_html.py:61-66 | the text checked inside a custom emoji tag is exactly what was added since it opened |
| MarkupHtml.FeedDocument | apps/advertising/markup_html.py:28-74 | feeding the tags of a document writes the document and leaves the stack as it was |
| MarkupHtml.StylesAgree | apps/advertising/markup.py:17-27 | a document written in HTML and in MarkdownV2 gives the same text and the same entities |
| HtmlDocuments.HtmlExactly | apps/advertising/markup_html.py:22-77 | exactly the tags of well-nested trees of known elements, at most 65 deep, with usable addresses and emoji are accepted, and they make the text and entities that the tree shows: literal text in code, the language handed to its block, nothing marked by code in a block |
| HtmlDocuments.FeedShows | apps/advertising/markup_html.py:28-74 | the parser with its stack shows a tree whatever is open around it |
| MarkupShortcuts.TextIsAdded | apps/advertising/markup_result.py:87-93 | text is added with each number in brackets, with or without an emoji before it, replaced by its custom emoji |
| MarkupHtml.TelegramHTMLParser.HandleStartTag | apps/advertising/markup_html.py:28-55 | a start tag is pushed with its kind and offset, refused, or a line break is added |
| MarkupHtml.TelegramHTMLParser.HandleEndTag | apps/advertising/markup_html.py:57-68 | an end tag closes the innermost open tag only, checks a custom emoji and marks its kind |
| MarkupHtml.TelegramHTMLParser.HandleData | apps/advertising/markup_html.py:70-74 | data is literal inside code and emoji tags and resolves emoji shortcuts elsewhere |
| MarkupHtml.TelegramHTMLParser.AddText | apps/advertising/markup_result.py:87-93 | text between shortcuts is kept and each shortcut becomes its emoji, from left to right |
| MarkupHtml.TelegramHTMLParser.Parse | apps/advertising/markup_html.py:22-26 | the whole event loop, ending in an error when a tag is left open |
| MarkupHtml.RenderHtml | apps/advertising/markup.py:17-27 | parsing and finishing HTML fails only as the parser does or for unsupported nesting; otherwise the preview is faithful |
| Formatting.AppendAdvertising | apps/advertising/formatting.py:45-58 | a message over 4096 units is refused and never cut; otherwise it is post, separator and block with the source entity and the shifted ones |
| Formatting.AdvertisementReads | apps/advertising/formatting.py:13-23 | the advertisement reads as the prefix, the stripped message, a space and the stripped label that is linked, or as the heading and the body |
| Formatting.StripExact | apps/advertising/formatting.py:14-14 | stripping removes exactly the white space at both ends |
| Formatting.SourceExactly | apps/advertising/formatting.py:50-54 | the source entity is there exactly when the address occurs in the post, and lies over its last occurrence |
| Formatting.AdvertisingKeepsMeaning | apps/advertising/formatting.py:45-58 | every entity of the advertisement covers in the message exactly the units it covered in the advertisement |
| Formatting.RenderedKeepsMeaning | apps/advertising/formatting.py:17-58 | from rendering to the message: every entity of a rendered campaign body covers in the message what it covered in the body, and all entities of the message are nested or disjoint |
| Formatting.SourceCovers | apps/advertising/formatting.py:51-54 | the source entity covers exactly the address |
| Formatting.RFind | apps/advertising/formatting.py:51-51 | the address is found at its last occurrence |
| Formatting.AdvertisingWellNested | apps/advertising/formatting.py:45-58 | all entities of the message lie on its characters and are nested or disjoint |
| Formatting.QuotaLimitExact | apps/advertising/budget.py:7-13 | a non-empty post is within the limit exactly when it and every counted campaign fit together in a message |
| Formatting.EmptyPostFits | apps/advertising/budget.py:7-13 | the empty post is always within the limit, and fits exactly when no block fills the message by itself |
| Formatting.ValidateCopy | apps/advertising/formatting.py:26-42 | copy is accepted exactly when both lines are not blank, of one line and without an address, the address is valid and the block fits |
| AdDelivery.TakenIsPublishedAndWaiting | apps/advertising/models.py:47-53 | published and reserved placements together are the placements not released |
| AdDelivery.PrepareSane | apps/advertising/services.py:16-37 | preparing a delivery keeps the database in order: no campaign over its total, statuses coupled, one active campaign per target |
| AdDelivery.MarkSentSane | apps/advertising/services.py:90-98 | confirming a post keeps it in order, the campaign being switched off at its total |
| AdDelivery.ResolveSane | apps/advertising/services.py:101-116 | so does the operator's resolution |
| AdDelivery.SaveSane | apps/advertising/models.py:59-87 | so does saving a campaign |
| AdPreparation.PreparedExactly | apps/advertising/services.py:16-37 | a delivery without a frozen message gets a reserved placement of a campaign exactly when that is enabled for its quota channel and fewer placements than its total are not released; the message is then post, separator and advertisement, and otherwise the post; it is refused exactly when that would be too long |
| AdPreparation.PreparedAgain | apps/advertising/services.py:20-28 | a frozen message never changes, and is refused exactly when its placement was released and the campaign has no post left |
| AdPreparation.SavedExactly | apps/advertising/models.py:59-87 | exactly when a campaign is saved, counted on its placements |
| AdPreparation.ResolvedExactly | apps/advertising/services.py:101-116 | exactly when an operator's verdict is accepted and what it leaves |
| AdPreparation.ClaimedExactly | apps/telegram/services.py:126-138 | a claim resets exactly a failed delivery and keeps its frozen message |
| AdPreparation.RestoredExactly | apps/telegram/services.py:145-154 | a claim is taken back exactly while no attempt was made |
| AdStore.Store.PrepareDelivery | apps/advertising/services.py:16-37 | a released placement takes a post again if one is free, a frozen message is returned as it is, and otherwise the message is frozen with the active campaign's advertisement; a refusal changes nothing |
| AdStore.Store.BeginSend | apps/advertising/services.py:40-53 | sending may begin without a placement or from a reserved one only; an unconfirmed one becomes uncertain |
| AdStore.Store.MarkUncertain | apps/advertising/services.py:56-68 | a held placement and a delivery that is not sent become uncertain |
| AdStore.Store.UnconfirmedSend | apps/advertising/services.py:75-79 | an attempt left sending or uncertain is reported and marked |
| AdStore.Store.Release | apps/advertising/services.py:82-83 | only a held placement is released |
| AdStore.Store.ConfirmPlacement | apps/advertising/services.py:90-98 | the placement is sent, and a campaign with nothing left is disabled |
| AdStore.Store.ResolvePlacement | apps/advertising/services.py:101-116 | only an uncertain placement with a note is resolved, as sent with a message id or as failed |
| AdStore.Store.IncrementAttempts | apps/telegram/delivery_state.py:13-30 | only a pending delivery counts an attempt |
| AdStore.Store.MarkSent | apps/telegram/delivery_state.py:33-41 | delivery and placement become sent together; a sent delivery keeps its message id |
| AdStore.Store.MarkRetryScheduled | apps/telegram/delivery_state.py:44-55 | a sending placement is reserved again, and then a pending delivery gets its next time |
| AdStore.Store.MarkFailed | apps/telegram/delivery_state.py:58-68 | a delivery that is not sent fails, and a held placement is released |
| AdStore.Store.MarkPermanentChatFailure | apps/telegram/delivery_state.py:71-92 | the same unless it is sent, and a private chat is switched off |
| AdStore.Store.SaveCampaign | apps/advertising/models.py:59-87 | a campaign is saved, with its copy cleaned, exactly when its copy is approved and its total, target and activity agree with what is already published, reserved or active |
| AdStore.Store.RequeueFailed | apps/telegram/services.py:94-175 | exactly the failed deliveries whose task could be queued are reset, all others end as they were, and every requested one is counted once |
| AdProtocol.StepKeeps | apps/telegram/tasks.py:86-204 | every step of workers, operators, editors and crashes keeps the invariant |
| AdProtocol.PostsNeverExceedTotal | apps/advertising/services.py:16-116 | in every run neither the posts in the channel that carry a campaign's advertisement nor its placements exceed its total, and an enabled campaign has posts left |
| AdProtocol.StatusesAgree | apps/telegram/delivery_state.py:33-92 | in every reachable state placement and delivery are sent together and uncertain together, and a sent one is in the channel |
| AdProtocol.RequestsCarryFrozenMessage | apps/advertising/services.py:27-37 | every request ever made for a delivery carried the same frozen text and entities |
| AdProtocol.NoRequestAfterDoubt | apps/advertising/services.py:40-53 | a request for an advertised delivery is made only from sending and only when every earlier one was refused or found absent |
| AdProtocol.DoubtBlocksSending | apps/advertising/services.py:40-79 | while a request may have been published the placement is sending, uncertain or sent, and no new one can begin |
| AdProtocol.RunIsFaithful | apps/telegram/delivery_state.py:33-92 | along every run what is sent stays sent and what is frozen stays frozen |
| AdMessages.RequestsAreLegible | apps/telegram/tasks.py:86-204 | in every run, whatever campaigns were saved, each request carries entities that lie on the characters of its text and are nested or disjoint, and one with advertising is within 4096 units |
| AdWorker.DeliveryTask.CheckStatus | apps/telegram/tasks.py:92-97 | sent, uncertain, unconfirmed and failed deliveries stop the task in that order |
| AdWorker.DeliveryTask.CheckCircumstances | apps/telegram/tasks.py:98-123 | a retry not due, a target switched off and a stale event stop it, the last two by failing the delivery |
| AdWorker.DeliveryTask.PrepareMessage | apps/telegram/tasks.py:125-140 | the message is frozen and the attempt counted, or the delivery fails |
| AdWorker.DeliveryTask.Record | apps/telegram/tasks.py:149-204 | each answer is recorded as the code does: retried, failed, uncertain when advertised, or sent |
| AdWorker.DeliveryTask.RetryOrFail | apps/telegram/task_support.py:15-72 | a temporary error is rescheduled while retries are left and fails otherwise |
| AdWorker.DeliveryTask.DeliverLocked | apps/telegram/tasks.py:86-204 | the task ends with the expected outcome and rows, calls the bot at most once and exactly when it should, and its effect is a walk of the protocol |
| AdOutcomes.AsksExactly | apps/telegram/tasks.py:86-148 | Telegram is asked exactly for a pending delivery with a free or no placement that is due, whose target is on and takes quota posts, whose event is fresh and whose message fits, by a configured bot |
| AdOutcomes.AskedLeaves | apps/telegram/tasks.py:140-204 | what each answer leaves: status, error, next time, message id and placement, with one attempt more |
| AdOutcomes.NotAskedLeaves | apps/telegram/tasks.py:92-138 | what is left when nothing was asked |
| AdOutcomes.ReportedWhenAsked | apps/telegram/tasks.py:149-204 | what the task reports for each answer |
| AdOutcomes.ReportedWhenNot | apps/telegram/tasks.py:92-138 | what it reports when nothing was asked, the first reason in order |
| NewsReceipts.DeliveredExactly | apps/news/receipts.py:38-46 | an answer counts as delivered exactly on a success that names as many messages as were sent, each with its id, in order |
| NewsReceipts.RefusalsExactly | apps/news/receipts.py:23-37 | exactly when an answer is a limit, with the pause it asks for brought into 1 to 86400 seconds and 60 when absent, a failed download of remote media, or another refusal |
| NewsSending.Office.ReserveDay | apps/news/scheduling.py:13-26 | a regular publication is dated when the day has a slot among all active ones; a fill never needs one |
| NewsSending.Office.StartSend | apps/news/sending.py:37-58 | the last transaction before the request rechecks everything and then marks sending, dates and counts the attempt |
| NewsSending.Office.FinishSend | apps/news/sending.py:106-115 | only a publication still marked as sending is finished |
| NewsSending.Office.RecordReply | apps/news/sending.py:59-83 | each reply is recorded as ready, blocked, uncertain or sent |
| NewsSending.Office.DeliverLocked | apps/news/sending.py:20-103 | the whole delivery ends as the stated outcome, and the bot is asked exactly when all checks pass |
| NewsSending.Office.ResolveSend | apps/news/sending.py:118-138 | only an uncertain publication is resolved, with a note and, if sent, with message ids |
| NewsSending.Office.Tick | apps/news/tasks.py:23-32 | sends whose lease ran out become uncertain, and what is out of date is blocked |
| NewsOutcomes.AsksExactly | apps/news/sending.py:20-58 | Telegram is asked exactly when nothing stops the delivery, before the starting transaction or in it |
| NewsOutcomes.AskedLeaves | apps/news/sending.py:54-83 | what each reply leaves of the publication and its receipt, or that it is still sending when that was not recorded |
| NewsOutcomes.NotAskedLeaves | apps/news/sending.py:20-53 | what is left when nothing was asked: out of date, a failed download or a failed preparation |
| NewsOutcomes.RateLimitPutsOff | apps/news/sending.py:64-67 | a limit leaves the publication ready again after exactly the pause that Telegram asked for |
| NewsOutcomes.TickExactly | apps/news/tasks.py:23-32 | what a tick does to each publication |
| NewsOutcomes.ResolvedExactly | apps/news/sending.py:118-138 | exactly when an operator's decision is accepted and what it leaves |
| NewsOutcomes.SelectedExactly | apps/news/scheduling.py:13-26 | a regular publication joins its day exactly when the channel has a slot |
| NewsProtocol.StepKeeps | apps/news/sending.py:20-138 | every step, crash, tick, resolution and passing of time keeps the invariant |
| NewsProtocol.DeliveryIsAWalk | apps/news/sending.py:20-104 | every delivery, stopped, discarded, not begun, unrecorded or recorded, is a walk of the protocol from idle to idle that ends in its rows and its log; only a request that was not refused can leave a publication newly released |
| NewsProtocol.MaybePublishedIsMarked | apps/news/sending.py:71-91 | what may be in the channel is marked sending, uncertain or sent |
| NewsProtocol.NewsAtMostOnce | apps/news/sending.py:37-91 | a request is made only when every earlier one was refused or found absent |
| NewsProtocol.OnlyDeniedIsRepeated | apps/news/receipts.py:23-37 | a request is repeated only where every earlier one was found absent by an operator or explicitly denied by Telegram with a code below 500 |
| NewsProtocol.AtMostOnePost | apps/news/sending.py:20-138 | a publication is never in the channel twice |
| NewsProtocol.DailyCap | apps/news/scheduling.py:13-26 | on every local day each channel has at most the limit of regular publications that may be in it, and fills are not dated |
| NewsProtocol.FillReleasedInOrder | apps/news/fill_delivery.py:22-32 | a fill releases the oldest open publication: all those started before are older and over, none is in doubt, and the last recorded post is at least 30 s back |
| NewsProtocol.OneDoubtPerFill | apps/news/fill_delivery.py:27-30 | at most one publication of a fill is sending or uncertain at a time |
| NewsBudget.Budget.Reserve | apps/news/budget.py:15-38 | a grant is booked on the week, the fill and a new usage; a refusal changes nothing |
| NewsBudget.Budget.Settle | apps/news/budget.py:40-60 | a reserved usage is counted at its size or left uncertain at full charge; an impossible size is refused |
| NewsBudget.Budget.FetchPage | apps/news/x_client.py:37-58 | a page is reserved before the request and settled after it, at its size only when it is in order |
| NewsBudget.GrantedExactly | apps/news/budget.py:15-38 | a grant is given exactly when the week has room, all of it for what is urgent or a fill and 80 % otherwise, at most 10.000, and the fill has room up to 2.000; what it adds |
| NewsBudget.SettledExactly | apps/news/budget.py:40-60 | what settling leaves for each size, at half a cent for a resource |
| NewsBudget.ReserveBalances | apps/news/budget.py:15-38 | after a grant the books balance, the week is within the current limit and 10.000, and 80 % of the limit unless urgent or for a fill |
| NewsBudget.SettleBalances | apps/news/budget.py:40-60 | settling keeps the books, never raises a total, and the second time changes nothing |
| NewsBudget.LedgersConserve | apps/news/budget.py:15-60 | after any operations each week and each fill committed exactly what its usages weigh, at most 10.000 and 2.000 |
| NewsFill.KeyIgnoresSpacing | apps/news/initial_fill.py:59-60 | two product names have the same key, however case is folded, exactly when they have the same words |
| NewsFill.WordsExactly | apps/news/initial_fill.py:59-60 | the words of a name are what stands between white space |
| NewsFill.BestExact | apps/news/initial_fill.py:62-71 | one event remains for every product still open, and none for a closed one |
| NewsFill.BestIsBest | apps/news/initial_fill.py:67-70 | the event kept is the best of its product |
| NewsFill.RankExact | apps/news/initial_fill.py:77-80 | a wave takes as many as fit, the highest scores with ties to the older, oldest first |
| NewsFillRun.OpenIsBest | apps/news/initial_fill.py:62-71 | an open event beats every eligible event of its product by score, urgency and last sight |
| NewsFillRun.WaveExact | apps/news/initial_fill.py:87-104 | a wave never passes 20 publications that are not blocked and repeats no product |
| NewsFillRun.WaveShrinks | apps/news/fill_collection.py:44-54 | what a wave takes closes its products, so a wave that takes anything leaves strictly fewer open |
| FillOutcomes.OpenExactly | apps/news/initial_fill.py:49-71 | open is one event for each product with an assessed event worth 50, no incident, never published and unused by the run: a best of these by score, urgency and last sight |
| FillOutcomes.WaveExactly | apps/news/initial_fill.py:77-104 | a wave has as many open events as 20 less the publications not blocked, those with the highest scores, the older on a tie, oldest first |
| FillOutcomes.AdvanceExactly | apps/news/fill_collection.py:17-56 | to which state each step leads, from which state and under which circumstances |
| FillOutcomes.FrozenExactly | apps/news/fill_delivery.py:12-19 | exactly when no publication can join a run any more |
| NewsFillRun.NoProductTwice | apps/news/initial_fill.py:87-104 | over all waves no two publications of a fill share a product |
| NewsFillRun.FrozenAddsNothing | apps/news/fill_delivery.py:12-19 | while a run is frozen no publication joins it |
| NewsFillRun.TurnIsLongestWaiting | apps/news/fill_collection.py:59-60 | the source read next is one that waits longest, the first of several |
| NewsFillRun.NextRow | apps/news/fill_collection.py:59-60 | the choice of the next source finds it |
| NewsFillRun.ReadsAreBounded | apps/news/fill_collection.py:75-100 | no source is tried more than three times in a row, and a saved page never leaves the cursor where it was |
| FillOutcomes.RowsExactly | apps/news/fill_collection.py:58-100 | what reading a page does to the row whose turn it is, and to no other |
| FillOutcomes.SomeRowIsChosen | apps/news/fill_collection.py:59-62 | a row is read exactly when one waits |
| FillOutcomes.StatusExactly | apps/news/fill_collection.py:58-93 | reading ends when every row is done or the budget is exhausted |
| NewsFillRun.FillRun.FindRemaining | apps/news/initial_fill.py:62-71 | the pass over the candidates keeps the best event per open product |
| NewsFillRun.FillRun.Select | apps/news/initial_fill.py:87-104 | the wave is created in order, and the run goes on publishing or ends |
| NewsFillRun.FillRun.ReadPage | apps/news/fill_collection.py:58-100 | one source is read, skipped or counted as failed; an exhausted budget ends the reading |
| NewsFillRun.FillRun.AdvanceRun | apps/news/fill_collection.py:17-56 | one advance under the lease takes the run one state on |
| NewsPreparation.OneCoverBoundedAttempts | apps/news/covers.py:15-28 | for any interleaving the paid cover is generated at most once, and attempts never pass 3, or 6 for history |
| NewsPreparation.NumbersAreExclusive | apps/news/preparation.py:18-34 | no two workers ever hold one attempt number |
| NewsPreparation.OnlyCurrentAttemptDecides | apps/news/preparation.py:57-69 | a publication leaves preparing only by the holder of the current number, by used-up attempts or by a tick |
| NewsPreparation.NeverBack | apps/news/preparation.py:16-69 | along every run what left preparing never returns to it, attempt numbers only grow, and a requested cover and stored media stay |
| NewsPreparation.Preparation.ClaimAttempt | apps/news/preparation.py:16-34 | an attempt is claimed under its conditions with the next number, and used-up attempts block |
| NewsPreparation.Preparation.ClaimGeneration | apps/news/covers.py:15-28 | the cover may be requested once, by the current attempt |
| NewsPreparation.Preparation.EnsureCover | apps/news/covers.py:36-66 | an old cover is checked, a new one is paid for once and stored |
| NewsPreparation.Preparation.Prepare | apps/news/preparation.py:16-69 | an attempt keeps the original attachments, pays for a cover exactly without media, attachments and an earlier request, ends ready exactly when all went well, and else blocked exactly on a cover failure or the last attempt |
| PreparationOutcomes.AttemptIsAWalk | apps/news/preparation.py:16-69 | what one attempt leaves, and whether it paid, is what the actions of one worker among many leave |
| PreparationOutcomes.ActsRun | apps/news/preparation.py:16-69 | actions of one worker that follow one another are a run of all workers that leaves the others where they were |
| PreparationOutcomes.ClaimedExactly | apps/news/preparation.py:16-34 | exactly when an attempt is claimed, and the lease and number it gets |
| PreparationOutcomes.CoverExactly | apps/news/covers.py:15-28 | exactly when the paid cover is asked for |
| PreparationOutcomes.WritesExactly | apps/news/preparation.py:57-69 | what the last write of an attempt leaves, if it is still the current one |
| PreparationOutcomes.OutsideExactly | apps/news/tasks.py:30-32 | how a publication starts, and what a tick and sending do to one that is prepared |
| NewsCollection.Collector.CollectSource | apps/news/collection.py:31-96 | one call opens a window or goes on with one, and its new checkpoint is the stated one |
| CollectionOutcomes.CollectExactly | apps/news/collection.py:31-96 | the new checkpoint of a call for each of its ends: untouched, window read on, closed, paused or started again, with window, cursor and pause |
| NewsCollection.NoInstantSkipped | apps/news/collection.py:38-96 | with an unchanged filter every instant from the activation to the end of the completed time was read through a whole page chain whose posts are all archived (every post of its window, from a server that serves the window in order), or lay beyond 6 days and 23 hours when its window was opened |
| NewsCollection.CompletedMovesOnlyWithLastPage | apps/news/collection.py:72-81 | the completed time moves only to the end of the open window with its last page stored |
| NewsCollection.CollectTracked | apps/news/collection.py:31-96 | every call, paused, limited, failed or restarted, keeps the history of pieces without a gap |
| NewsCollection.ChainReadsAll | apps/news/collection.py:64-81 | the stored pages of a complete chain are all posts of its window, from a server that serves them in order |
| XTimeline.PageReader.ReadPage | apps/monitoring/x_api.py:172-240 | from any server no token is requested twice and no bound is passed; each page is what was taken of the answer to its request, reading goes on as long as the answers allow, and a served list is read from its beginning |
| XTimeline.IterUserPosts | apps/monitoring/x_api.py:172-240 | the list of all pages keeps the promises of the generator, ends, and is a served list from its beginning, complete unless a bound ended the run |
| XTimeline.AsksForTheRest | apps/monitoring/x_api.py:177-183 | how many results a page is asked for |
| XTimeline.NeverBreaksOff | apps/monitoring/x_api.py:198-240 | reading a server that never fails and advances with every page never breaks off |
| Ingestion.PrepareSourcePosts | apps/monitoring/services.py:217-251 | the posts that are not retweets come out by date and id, with the newest id of all; one malformed post refuses everything |
| Ingestion.PersistSourcePosts | apps/monitoring/services.py:181-214 | storing creates exactly the unknown posts and counts created and existing ones |
| Ingestion.PersistExact | apps/monitoring/services.py:181-214 | storing keeps every row and adds exactly the given ids |
| Ingestion.AtMostIsOrder | apps/monitoring/services.py:254-258 | ids are totally ordered, numbers after everything else |
| IngestionRows.OrderExactly | apps/monitoring/services.py:254-258 | numbers by value after all other ids, which go by their characters |
| IngestionRows.StoredExactly | apps/monitoring/services.py:181-251 | rows that were there stay, and there is one for each other post, dated by the earliest with its id |
| IngestionRows.CursorExactly | apps/monitoring/services.py:119-127 | the saved cursor after a poll is the highest of the one before and all fetched ids |
| IngestionRows.RetweetsExactly | apps/monitoring/services.py:217-251 | the posts counted as ignored are the retweets |
| IngestionRows.CursorsExactly | apps/monitoring/services.py:152-162 | from which post a poll and a backfill start |
| Ingestion.Feed.ResolvePollCursor | apps/monitoring/services.py:152-162 | the poll cursor is the saved one or the last stored post by date and id |
| Ingestion.Feed.ResolveHistoryCursor | apps/monitoring/backfill.py:76-88 | the history cursor is the first stored post by date and id or the saved cursor |
| Ingestion.Feed.IngestSourcePosts | apps/monitoring/services.py:83-149 | a poll stores everything after its cursor, or the first page at first, and fails only when the reading broke off or brought an unusable post; then nothing changes |
| Ingestion.Feed.IngestSourceHistory | apps/monitoring/backfill.py:33-73 | a backfill stores all that X serves below its cursor, or exactly its limit of it, leaves the saved cursor alone, and fails only without a usable cursor or when the reading failed |
| Ingestion.ServedNeverFails | apps/monitoring/services.py:83-149 | a reading of usable posts from a server that never fails does not fail |
| Coverage.PollCovers | apps/monitoring/services.py:83-149 | a poll extends the covered range upwards to the newest post |
| Coverage.BackfillCovers | apps/monitoring/backfill.py:33-97 | a backfill extends it downwards, without a hole exactly when it does not pass over the post right below its cursor |
| Coverage.BackfillReachesTheOldest | apps/monitoring/backfill.py:33-73 | one successful backfill of at most its limit of older posts leaves no older post unstored, exactly unless X reads its bound as exclusive and the post right below the cursor is missing |
| IngestionRuns.NoHoleKept | apps/monitoring/services.py:83-149 | growth, polls and failures leave no hole, and a backfill leaves none exactly when it passes nothing over |
| IngestionRuns.NeverAHole | apps/monitoring/backfill.py:33-97 | for either reading of `until_id`: along any sequence of polls, backfills, failures and growth there is never a hole exactly when no backfill passes anything over |
| IngestionRuns.SpreadNeverAHole | apps/monitoring/backfill.py:91-97 | for either reading there is never a hole as long as no wanted post has the id right below another one |
| IngestionRuns.InclusiveNeverAHole | apps/monitoring/backfill.py:33-97 | if X served the post whose id equals `until_id`, there would never be a hole |
| IngestionRuns.AdjacentIdsLeaveAHole | apps/monitoring/backfill.py:91-97 | an input on which a backfill leaves a hole, as X documents `until_id` |
| IngestionRuns.CursorNeverLower | apps/monitoring/services.py:83-149 | along every run the saved cursor never decreases and no stored post is lost |
| IngestionRuns.BetweenIsStored | apps/monitoring/services.py:83-162 | every post that is not a retweet between the smallest id fetched and the saved cursor is stored |

## Left out

- HTTP clients, Redis, Celery, the admin site, the dashboard, logging, secrets and migrations.
- Python's regular expressions, `HTMLParser`, `urlsplit`, the emoji tables and case folding are functions passed in; tests for digits beyond ASCII are part of them. HTML attributes without a value are modelled only for `expandable`.
- The choice between HTML and MarkdownV2 and the blank-text check of `render_markup`; both parsers are modelled.
- Code, shortcuts, images, separators and quotes inside printed documents: they are proved one step at a time at any position, not nested in the round trip.
- MarkdownBlocks.QuoteRoundTrip: an expandable quote must not print a backslash before its bars, and a plain one must not end in an unescaped `||`, because the code reads these as the other kind.
- MarkdownRoundTrip.RoundTrip: needs non-empty parts, no format inside or right after one with the same symbol outside a link caption, and no `**` that opens on `__`, because the code reads those as other markers. Bare text in a document has no digit first and no exclamation mark last, and an address in it ends with it, at a space or with the document, because the code would read on into what follows.
- MarkupFinish.Finish: the preview is read faithfully as long as what the digit test accepts holds no character that HTML reads as its own.
- MarkdownSteps.EmojiStep: an emoji that begins with a backslash or a backtick is none of the emoji tables.
- MarkupShortcuts.TextIsAdded: stated for text whose brackets belong to numbers and whose emoji do not run together with the text before them.
- AdStore.Store.SaveCampaign: reports one objection where the code may report several at once; a body stands for what rendering it gave.
- The fan-out of an analysis to its targets beyond the creation of a delivery, and monitoring events.
- The choice of the event and of the time window in `select_publication`; only its day slot is modelled, and one publication per date and window minute is not promised by the code.
- Oldest first across the waves of a fill: a blocked post reopens the selection after sending began, so the order is proved while the publications of a fill stay fixed.
- `blocked` as a final news status: a failed upload writes the status from the worker's copy.
- NewsProtocol.DailyCap: the limit is fixed during a run.
- NewsProtocol.FillReleasedInOrder: evidence dates are fixed, and whether a run can still grow is an input.
- NewsBudget.Budget.FetchPage: a crash between reservation and settlement leaves the usage reserved at full charge.
- NewsCollection.NoInstantSkipped: a failed save of the checkpoint after its posts were stored is not modelled; the code changes the object in memory first.
- XTimeline.IterUserPosts: needs a server with finitely many page tokens, without which the loop does not end; XTimeline.PageReader.ReadPage makes the promises of one page for any server.
- IngestionRuns.NoHoleKept: posts that appear in the timeline later are newer than all before, and ids that read as numbers in more than one way are taken as numbers.
- Locks that expire under a live worker, and operators who resolve a send in flight.
- Prompts, reset signals, quality checks, cover composition, hashing and encryption.
