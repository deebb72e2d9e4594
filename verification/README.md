# Verified model of the Telegram support gateway

A Dafny model of the gateway's three hard components and of two smaller ones, with proofs about all
of their inputs, runs and reachable states.

- **Rendering** (`Html`, `Tokens`, `Inline`, `Emphasis`, `Document`, `Entities`). Markdown becomes
  Telegram HTML: a tokenizer, a stack machine of emphasis frames, fences and headings. `Html` is a language of its own,
  a lexer and a strict reader with Telegram's entity rules, and knows nothing of the renderer. Reading
  the output with it gives the typed text back; that one theorem carries well-formedness, escaping and
  losslessness.
- **The message store** (`Tables`, `Queries`, `Buffer`, `Latest`, `Triage`, `History`, `Thread`,
  `Store`). Every SQL statement of a transaction may be accepted, refused for its row, or hit an
  outage; the answers are a parameter, so each theorem covers a failure at any statement. The class
  `Store.Store` holds the tables and the cache; the pure modules specify its methods.
- **The ingest loop** (`Ingest`). Telegram is a queue with a confirmed mark. A world of tables, loop
  variables and a ledger steps through polls, redeliveries, refusals, outages, sweeps and restarts; the
  classes `Service` and `Telegram` are proved against that transition system.
- **Search queries** (`Search`): LIKE escaping, term splitting and the tiers of a search.
- **The chat map** (`ChatMap`): the validator, and why the address printed for a chat leads back to it.

Characters are code points and times whole seconds. The classes of characters the program asks the
Unicode tables for (space, punctuation, letter, digit), case folding, the full-text engine, the clock
and the database's answers are parameters: the theorems hold for all of them, and what is assumed of
one is a `requires` of the lemma that needs it. Where a method follows a loop of the program, a
function beside it specifies it and the lemmas are about that function.

Three places where the code does less than one might read into it. A replay of several chats that fails
at one returns no report at all, so drops already committed for the chats before it are never logged
(`pkg/store/pending.go:145-149`, `cmd/tg-mcp/main.go:188-191`), although the comment at
`pkg/store/pending.go:130-132` has the caller log them: `Buffer.DropsCanGoUnreported` is the input,
`Buffer.ReportedIff` and `Ingest.RecordsAreCompleteIff` are exact about one drain and one run whose
answers are known. Before the call, `Buffer.SureToReportIff` is exact: a drain is sure to report if and
only if nothing is buffered for any chat but the last of its list; `Ingest.SureToReport` carries it to
runs. Bold can nest inside bold through link text, because link text starts on an empty stack
(`pkg/tghtml/tghtml.go:255-259`): `Emphasis.EmphasisNestsThroughLink` gives the lines,
`Entities.EmphasisRepeatsOnlyThroughLinks` proves it happens no other way. A thread that is not flagged
as truncated need not hold every reply to its core when exactly 500 messages were collected
(`pkg/store/thread.go:60-63`, `pkg/store/thread.go:105`): `Thread.FullCoreCanLackAReply` is the input,
`Thread.UnflaggedIsClosed` says it takes exactly 500.

`dafny verify dfyconfig.toml` checks the project.

## Model

| member | source | states |
|---|---|---|
| Html.LexShown | pkg/tghtml/tghtml.go:28-29 | Escaping is unambiguous: lexing the spelling of any pieces gives those pieces back, so no text, url or language can be mistaken for markup and no stray `<`, `>` or `&` is left |
| Html.ReadConcat | pkg/tghtml/tghtml.go:355-361 | Reading two fragments one after the other is reading the first and continuing with the elements it left open |
| Html.ReadUnder | pkg/tghtml/tghtml.go:250-259 | A fragment that reads correctly alone reads the same inside any open elements that may hold its parts |
| Html.WholeWrap | pkg/tghtml/tghtml.go:344-347 | Wrapping a complete fragment in a tag pair keeps it complete and adds exactly the two markers to the markdown it stands for |
| Html.OpensAreAllowed | pkg/tghtml/tghtml.go:250-254 | Whatever the strict reader accepts opens an entity only where the entities already open allow one |
| Html.IsLangIff | pkg/tghtml/tghtml.go:22-23 | A language name is made of Latin letters, digits and the signs + # . _ -, and nothing else |
| Tokens.UrlEnd | pkg/tghtml/tghtml.go:183-200 | The result is the first closing parenthesis at depth zero, and -1 only when there is none |
| Tokens.UrlEndsWhereBalanced | pkg/tghtml/tghtml.go:183-200 | A url ends at an offset if and only if a closing parenthesis stands there and every parenthesis before it is matched before it |
| Tokens.DepthCounts | pkg/tghtml/tghtml.go:183-200 | The depth is the number of opening parentheses so far less that of closing ones |
| Tokens.ParseLink | pkg/tghtml/tghtml.go:164-181 | The method returns what the link specification gives, including every way of not being a link |
| Tokens.LinkIsItsSource | pkg/tghtml/tghtml.go:167-181 | A parsed link spells exactly the text it was parsed from; its text holds no `]`, its url is balanced, has no space and an accepted scheme |
| Tokens.LinkIffSpelled | pkg/tghtml/tghtml.go:164-181 | A link is parsed if and only if some text without `]` and some linkable url are spelled at the start of the input |
| Tokens.LinkableIff | pkg/tghtml/tghtml.go:167-209 | A url is taken exactly when it goes on after https://, http://, tg://, mailto: or tel: in letters of either case, holds no space, and has its parentheses in pairs |
| Tokens.MarkupRoundTrip | pkg/tghtml/tghtml.go:131-146 | Spelling a code span or a link and tokenizing gives that token and its length back, whatever stands before and after it |
| Tokens.StarRunIsMaximal | pkg/tghtml/tghtml.go:147-151 | An asterisk run takes every asterisk there is and nothing else |
| Tokens.NextToken | pkg/tghtml/tghtml.go:130-158 | The loop that measures a run and the lookahead for spans and links agree with the token specification at every offset |
| Tokens.Tokenize | pkg/tghtml/tghtml.go:121-162 | The scanning loop with its pending literal returns the tokens of the specification |
| Tokens.TokenizeIsLossless | pkg/tghtml/tghtml.go:118-162 | Spelling the tokens of a line one after the other gives the line back |
| Tokens.TokensAreSound | pkg/tghtml/tghtml.go:118-162 | Every token is non-empty, code holds no backtick, link text holds no `]`, and a line without `]` yields no link |
| Inline.RenderingIsLossless | pkg/tghtml/tghtml.go:244-297 | For every line the rendered pieces are a well nested fragment under Telegram's entity rules, read back they are exactly the line, and inside a link they are nothing but emphasis around text |
| Inline.ReachableStacks | pkg/tghtml/tghtml.go:284-342 | After any number of tokens of any line the open runs, outermost first, are none, 1, 2, 3, 1 2 or 2 1 |
| Inline.EntitiesNest | pkg/tghtml/tghtml.go:250-254 | No tag of a rendered line opens inside a code span, and no link or code span opens inside a link |
| Inline.KeptStars | pkg/tghtml/tghtml.go:284-297 | Whatever an asterisk run does (fused close, close, open, literal), every buffer stays a complete fragment and the markdown consumed grows by exactly that run |
| Inline.KeptFused | pkg/tghtml/tghtml.go:288-290 | A run of three that closes two contexts accounts for exactly three asterisks |
| Inline.NeverThree | pkg/tghtml/tghtml.go:330-342 | With two contexts open, every run is already covered, so a third never opens |
| Inline.KeptFinished | pkg/tghtml/tghtml.go:278-281 | Spilling unmatched openers keeps the fragment complete and loses no text |
| Inline.Renderer.Write | pkg/tghtml/tghtml.go:355-361 | Writing html appends it to the innermost open buffer, or to the root, in step with the piece state |
| Inline.Renderer.CloseTop | pkg/tghtml/tghtml.go:344-347 | The string stack after closing the top is the spelling of the piece stack after closing it |
| Inline.Renderer.Stars | pkg/tghtml/tghtml.go:284-297 | The renderer takes the specified branch on an asterisk run, decided on its own stack of strings |
| Inline.Renderer.Render | pkg/tghtml/tghtml.go:261-282 | Rendering tokens leaves no frame open and the root spelling the specified pieces |
| Inline.RenderInline | pkg/tghtml/tghtml.go:244-248 | The html of a line is the spelling of its rendered pieces |
| Inline.RenderLinkText | pkg/tghtml/tghtml.go:250-259 | The html of link text is the spelling of the pieces rendered with code spans left literal |
| Emphasis.MatchedRunIsEmphasis | pkg/tghtml/tghtml.go:284-318 | For every run of one, two or three around text it may wrap, the line, or the link text, is rendered as that emphasis and nothing else |
| Emphasis.PairIsEmphasisIff | pkg/tghtml/tghtml.go:299-318 | In any ordinary text around and between two runs of n stars, the pair becomes emphasis if and only if, by the characters next to the runs, the first may open and the second may close there; otherwise the whole line stays as typed, `(**a) and (**b)` among them |
| Emphasis.PairHtml | pkg/tghtml/tghtml.go:344-347 | The html of such a pair to the letter: the escaped text with <i>, <b> or both around the middle |
| Emphasis.NestedPairIsEmphasis | pkg/tghtml/tghtml.go:284-297 | `**u *v* w**` and `*u **v** w*`: the inner pair closes and leaves the outer one open, for all texts they may wrap |
| Emphasis.MarkupSurvives | pkg/tghtml/tghtml.go:261-277 | Whatever emphasis opens, closes or fails around it, every code span of a line is code in the html and every link is a link around its rendered text |
| Emphasis.EmphasisNestsThroughLink | pkg/tghtml/tghtml.go:255-259 | A run around a link and the same run inside its text both become emphasis, one nested in the other, for every such run, text and url: `**[**a**](https://b)**` is one |
| Emphasis.FusedCloseClosesBoth | pkg/tghtml/tghtml.go:284-297 | For all texts, `**u *v***` and `*u **v***` alike: one run of three closes the inner emphasis and then the one around it |
| Emphasis.LongRunsAreLiteral | pkg/tghtml/tghtml.go:15-18 | Runs of four or more around any ordinary text stay as typed |
| Emphasis.InertIffShape | pkg/tghtml/tghtml.go:307-318 | A run cannot open if and only if it is too long, faces a space or the end, is a single star against punctuation, stands inside a word, or is glued to a call: the spelled-out reading of the guards |
| Emphasis.CommandLineStaysLiteral | pkg/tghtml/tghtml.go:389-405 | A line without links on which no run can open (globs, paths, varargs, stars inside words) keeps all of its asterisks |
| Emphasis.MarkupIsRendered | pkg/tghtml/tghtml.go:261-277 | A code span alone renders as code, inside link text as literal text; a link alone renders as a link around its rendered text |
| Emphasis.MarkupInText | pkg/tghtml/tghtml.go:121-146 | A code span or link anywhere in ordinary text is rendered as that markup between the text before and after it |
| Document.BlocksCoverTheMessage | pkg/tghtml/tghtml.go:41-61 | Every line of a message belongs to exactly one fence, heading or paragraph, in order |
| Document.NormalizedMeans | pkg/tghtml/tghtml.go:42 | Text up to the first CRLF stays as it is, the CRLF becomes a newline, and so on |
| Document.LinesAreLines | pkg/tghtml/tghtml.go:42 | No line holds a newline |
| Document.BodyEndsAtFirstFence | pkg/tghtml/tghtml.go:46-48 | The body of a fence ends at the first line that closes it and holds no such line |
| Document.FenceEndIff | pkg/tghtml/tghtml.go:84-90 | A line closes a fence if and only if, trimmed, it is a bare run of at least as many backticks |
| Document.FenceStartIff | pkg/tghtml/tghtml.go:63-82 | A line opens a fence of n if and only if, trimmed, it is n backticks, at least three, and an info string without any; its language is that string trimmed when usable, else none |
| Document.FencedCodeIsVerbatim | pkg/tghtml/tghtml.go:41-52 | For every line that opens a fence, every body without a line that closes it and every line that does, the block is exactly that body, shorter fences in it included, and the rest is read afresh |
| Document.UnclosedFenceTakesTheRest | pkg/tghtml/tghtml.go:45-51 | However it is opened, a fence that nothing closes takes every remaining line |
| Document.SpelledFence | pkg/tghtml/tghtml.go:63-90 | In particular n >= 3 backticks with a language or none and m >= n backticks fence every body whose lines do not close it |
| Document.HeadingLevels | pkg/tghtml/tghtml.go:24-26 | Hashes, a space and text are a heading if and only if there are one to six hashes and some text, which loses the blanks and tabs at its end and nothing else; hashes glued to a word never are |
| Document.HeadingIff | pkg/tghtml/tghtml.go:24-26 | A line that opens no fence is a heading if and only if it is one to six hashes, a space and some text, from its first character on |
| Document.DropBoldShown | pkg/tghtml/tghtml.go:30-32 | Deleting the bold tags from the html string is deleting the bold tags from the pieces: typed ones cannot match |
| Document.ReadUnbolded | pkg/tghtml/tghtml.go:53-56 | Deleting every bold tag from a well nested fragment leaves it well nested, and cuts from the text it reads as one pair of asterisks per tag and nothing else |
| Document.OnlyStarsCut | pkg/tghtml/tghtml.go:53-56 | Cutting n pairs of asterisks loses nothing but asterisks, and exactly 2n of them |
| Document.HeadingKept | pkg/tghtml/tghtml.go:53-56 | The inner markup of a heading stays a complete fragment without bold, and stands for the heading's text with one pair of asterisks cut out per deleted tag, everything else in place |
| Document.RenderingIsValidHtml | pkg/tghtml/tghtml.go:38-61 | For every message the html lexes without a stray character, closes everything it opens under the entity rules, and reads back block by block: code and paragraphs to the letter, a heading in bold as its text but for the bold inside it |
| Document.ProseIsLossless | pkg/tghtml/tghtml.go:38-61 | A message without fences and headings reads back exactly as typed, up to CRLF |
| Document.RenderFence | pkg/tghtml/tghtml.go:92-98 | The html of a fence is the spelling of its body as text inside pre, and inside a language tag when there is one |
| Document.RenderBlock | pkg/tghtml/tghtml.go:44-58 | One turn of the loop yields the html of the first block and consumes exactly its lines |
| Document.Render | pkg/tghtml/tghtml.go:41-61 | The html of a message is the spelling of its pieces, lexes back to them, is accepted by the strict reader and reads back as the message in the sense above |
| Entities.RenderedFits | pkg/tghtml/tghtml.go:244-297 | Every entity of a rendered line, or of link text, may nest where it stands: links go to accepted targets and no emphasis repeats since the last link |
| Entities.EmphasisRepeatsOnlyThroughLinks | pkg/tghtml/tghtml.go:255-259 | In every rendered line bold opens inside bold, and italic inside italic, only with a link opened in between |
| Entities.EveryTargetIsAccepted | pkg/tghtml/tghtml.go:33-36 | Every href in the rendering of any message has a scheme Telegram accepts, no space and balanced parentheses |
| Tables.UpsertRowKeeps | pkg/store/store.go:164-183 | An upsert keeps ids gapless and keys unique, never changes a stored id, key or sent, and leaves the key stored |
| Tables.UpsertTxKeeps | pkg/store/store.go:215-236 | A message whose three statements succeed leaves exactly one index row per message with its current text |
| Tables.RefusedUpsertBreaksIndex | pkg/store/pending.go:206-212 | Counterexample that motivates the savepoint: an upsert refused at its last statement leaves a row out of the index |
| Tables.BatchKeepsTables | pkg/store/store.go:190-213 | Whichever statement fails, a batch lands whole or changes nothing, and the index agrees with the table either way |
| Tables.BatchOutcome | pkg/store/store.go:190-236 | A batch commits exactly when every statement is accepted, and is rejected for its own sake exactly when the first statement not accepted is some message's and is refused |
| Tables.ApplyKeeps | pkg/store/store.go:164-213 | A batch only adds rows at the end, freezes every identity and stores every key it mentions |
| Tables.ApplyBodies | pkg/store/store.go:169-182 | After a batch a mentioned key carries the last body the batch has for it, any other row is untouched |
| Tables.ApplySents | pkg/store/store.go:164-183 | A key first stored by a batch carries the first sent the batch has for it |
| Tables.RedeliveryIsAbsorbed | pkg/ingest/ingest.go:114-167 | Committing a batch and then the same batch with a longer tail leaves table and index as one commit of the longer batch would |
| Queries.SelectMeans | pkg/store/store.go:403-439 | A query result is ordered by (sent, id) without repeats and holds exactly the rows the condition keeps |
| Queries.ChronologicalMeans | pkg/store/store.go:403-439 | Chronological is by the time sent and, within a second, by the surrogate id |
| Queries.ChronologicalUnique | pkg/store/thread.go:173-178 | An ordering by (sent, id) is determined by its elements |
| Queries.NewestIsLast | pkg/store/store.go:430-437 | Reading newest first under a limit and reversing is the last part of the chronological result |
| Buffer.PendingBatchKeepsTables | pkg/store/pending.go:52-82 | A buffered batch lands whole or changes nothing, and touches no other table |
| Buffer.PendingBatchOutcome | pkg/store/pending.go:52-82 | A batch is buffered exactly when every statement is accepted, and rejected for its own sake exactly when the first statement not accepted is a row's and is refused |
| Buffer.HoldFirsts | pkg/store/pending.go:29-50 | A row first buffered carries the chat, message id, time sent, title, type and time received of the first mention of its message |
| Buffer.HoldKeeps | pkg/store/pending.go:29-50 | Buffering again keeps the sent, received, title and type a row was first given |
| Buffer.HoldBodies | pkg/store/pending.go:34-50 | A buffered key ends with the last body of the batch, every other row is untouched |
| Buffer.BufferedRedeliveryIsAbsorbed | pkg/store/pending.go:29-82 | Buffering a batch and then its redelivery, stamped later and with a longer tail, is buffering the first and then the tail |
| Buffer.ReplayOneKeeps | pkg/store/pending.go:208-228 | A message replayed inside its savepoint is written with its index row, or leaves no trace |
| Buffer.ReplayIsConserving | pkg/store/pending.go:158-202 | Atomic move: on success the chat has nothing buffered, moved plus dropped are exactly the rows it had, only moved messages were written, other chats are untouched and the index agrees; on an outage nothing changes |
| Buffer.ReplayAccountsForEach | pkg/store/pending.go:130-202 | After a replay each former row of the chat is in messages or named in dropped |
| Buffer.ReplaySplits | pkg/store/pending.go:183-202 | A replayed row is moved or named as dropped, and never both |
| Buffer.ReplayOutcome | pkg/store/pending.go:158-228 | By the answers and the times of the rows alone: a replay succeeds exactly when the statements around the rows are accepted and every row whose times read back settles, taken or refused and undone; then those not refused are moved, in the order they were sent |
| Buffer.ReplayDropsIff | pkg/store/pending.go:116-126 | A successful replay drops a row exactly when its time received, sent or edited lies outside the years 0 to 9999 or one of its own statements is refused; with everything accepted every other row is moved |
| Buffer.DropsCanGoUnreported | pkg/store/pending.go:143-149 | Counterexample: one chat's only row is dropped and committed, the next chat fails, and the message is in neither table and in no report |
| Buffer.ReportedIff | pkg/store/pending.go:143-156 | Given the database's answers, every row that left the buffer was moved or is named in the returned report if and only if all chats succeed, or none before the first to fail dropped anything |
| Buffer.SureToReportIff | pkg/store/pending.go:143-156 | On the buffer and the chat list alone, known before the call: whatever the database answers, every row a drain takes from the buffer is moved or named in its report, if and only if nothing is buffered for any chat but the last |
| Buffer.LoopKeepsCurrent | pkg/store/pending.go:143-202 | Across a drain of many chats, failing or not, the latest version held of each message stays as it is unless its buffered row is dropped |
| Buffer.ReportAddsUp | pkg/store/pending.go:140-156 | The counts of a drain add up to the messages it moved, and no chat is reported for nothing |
| Buffer.SweptIff | pkg/store/pending.go:257-278 | A sweep takes exactly the rows received before the cutoff, 14 days ago when no ttl is given |
| Store.WriteMessage | pkg/store/store.go:215-236 | The three statements, stopping at the first to fail, in the state each leaves behind |
| Store.ReplayMessage | pkg/store/pending.go:208-228 | The savepoint is rolled back on any failure and released, and the failure is reported |
| Store.ReplayMessages | pkg/store/pending.go:183-194 | The loop drops refused messages, moves the others and ends at the first other failure |
| Store.Store.UpsertBatch | pkg/store/store.go:190-213 | The database is that of the batch specification, the cache is noted exactly when it commits, and tables, index and cache stay in agreement |
| Store.Store.NoteLatest | pkg/store/latest.go:40-58 | The loop folds every message of the batch into the cache as specified |
| Store.Store.UpsertPendingBatch | pkg/store/pending.go:52-82 | The database is that of the buffer specification and every table invariant stays |
| Store.Store.ReplayChat | pkg/store/pending.go:158-202 | Tables, moved and dropped are those of the replay specification, whichever statement fails; a failure leaves the tables as they were |
| Store.Store.ReplayPending | pkg/store/pending.go:140-156 | Chat by chat until the first failure, which returns no report and keeps what was committed before it |
| Store.Store.SweepPending | pkg/store/pending.go:262-278 | Exactly the rows received before the cutoff go and their number is reported; a failed sweep removes nothing |
| Store.Store.TrackLatest | pkg/store/latest.go:8-29 | The chat is tracked even when the load fails; when it succeeds the cache holds its newest row; no other chat's cached message changes |
| Store.Store.GetLatest | pkg/store/latest.go:31-38 | For a loaded chat the answer agrees with the stored row of highest message id |
| Store.Store.SetCursor | pkg/store/store.go:338-351 | The cursor never falls, and the returned position is where it ended up |
| Store.ReplayAgreesIff | cmd/tg-mcp/main.go:99-103 | Replaying into a chat the cache answers for keeps the answer right if and only if every moved message is older than the cached one, or is the cached one and leaves it its body |
| Latest.NoteMeans | pkg/store/latest.go:40-58 | After noting a batch the cache covers every message of it, and its answer is the batch's last body with the sent first recorded, or what it was |
| Latest.NoteSkipsUntracked | pkg/store/latest.go:40-58 | Noting a batch leaves what is cached of a chat nobody tracks as it was |
| Latest.CommitKeeps | pkg/store/store.go:208-211 | Committing a batch that shares no message with those in flight keeps the cache invariant |
| Latest.NotedKeeps | pkg/store/latest.go:40-58 | Noting any committed batch, in any order, keeps the cache invariant |
| Latest.CacheEqualsTable | pkg/store/latest.go:8-58 | Over every interleaving of commits and notes, whenever nothing is un-noted a loaded chat's cached message is, but for the surrogate id, the stored row with the highest message id |
| Latest.BatchKeepsStored | pkg/store/store.go:208-211 | Committing and noting a batch keeps every cached chat, loaded or not, one with a stored row |
| Triage.CountsMatchLists | pkg/store/store.go:353-401 | The unread count of a chat is the length of its unlimited list |
| Triage.LimitKeepsTheOldest | pkg/store/store.go:390-401 | A limited list is the oldest part of the unlimited one, as long as the limit or the whole list allows, and that holds exactly what others sent above the cursor of the chats asked for |
| Triage.CursorIsGreatestMark | pkg/store/store.go:338-351 | Over any run of marks, messages, edits and redeliveries the cursor is the greatest mark, and was given |
| Triage.HandledStaysHandled | pkg/store/store.go:338-401 | Once marked, nothing at or below the mark is ever listed again, whatever follows |
| History.History | pkg/store/store.go:411-439 | A page is the newest part, in chronological order, of the messages in range older than the cursor |
| History.GetHistory | pkg/server/tools.go:441-476 | The newest messages of the chats, within bounds and before the cursor, by their fields: 200 unless asked for, never more than 1000, the last 24 hours only without bounds and cursor, and a next cursor exactly when the page is full |
| History.PageMeans | pkg/store/store.go:411-439 | A page is chronological, within the limit, holds only messages in range older than the cursor and all of those not older than its first |
| History.PageIs | pkg/store/store.go:411-439 | A page is in order, within its size, in range and before the cursor by the fields of its messages, and whatever else is so is older than a full page |
| History.HistoryWalkIsExactlyOnce | pkg/server/tools.go:463-475 | For any interleaving of commits and fetches, each of its own page size, nothing is handed out twice or out of range, and when a short page ends the walk every message in range stored at its start was handed out |
| History.FullPageProgresses | pkg/store/store.go:403-414 | Every full page moves the cursor strictly back, within one second too |
| Thread.MergeMessages | pkg/store/thread.go:160-180 | Whatever it is given, each id once, as first seen, in chronological order; of one table exactly the union |
| Thread.Assemble | pkg/store/thread.go:54-64 | Whatever states of the table the queries saw, the result holds the message asked about as first read, each id once, in order and within the cap, and is flagged exactly when more ids were collected |
| Thread.AnchorSurvives | pkg/store/thread.go:66-73 | Capping never cuts the message asked about and never exceeds the cap |
| Thread.CappedMeans | pkg/store/thread.go:59-73 | Up to 500 messages go uncut and unflagged; of more, 500 in a row are kept |
| Thread.CappedIsCentred | pkg/store/thread.go:66-73 | Of more than 500, the message asked about has 250 kept before it unless it is nearer to an end |
| Thread.BoundedFillIsExact | pkg/store/thread.go:54-64 | Capping the union with the limited fills gives the messages and the flag that capping the union with the unlimited fills gives |
| Thread.ReplyChain | pkg/store/thread.go:75-93 | The walk up follows replies without repeating a message and stops only at the root, a cycle or a message not stored, on cyclic data too |
| Thread.ReplyRound | pkg/store/thread.go:105-125 | One query adds only descendants, leaves no unsettled reply behind below the cap, and makes progress when it adds anything |
| Thread.RoundTakesTheOldest | pkg/store/thread.go:105-116 | A reply that a round leaves out is newer than 500 replies that it took |
| Thread.FullQueryFillsTheCap | pkg/store/thread.go:105-108 | A query that hits its limit leaves at least the cap collected |
| Thread.AppendReplies | pkg/store/thread.go:95-127 | What is collected is what the rounds of queries give up to the first that adds nothing or reaches the cap; it descends from the chain, and below the cap it is closed under replies, so it is exactly the closure |
| Thread.SpanSplits | pkg/store/thread.go:129-158 | The two queries split the anchor's span at the anchor: their union with the core is the unlimited span |
| Thread.BoundedThread | pkg/store/thread.go:44-64 | On one snapshot the merged and capped thread equals the one built from unlimited queries |
| Thread.ThreadHolds | pkg/store/thread.go:129-158 | Every message of a thread outside the core is of the anchor's chat, was sent no more than 300 seconds before the core's first or after its last, and is in the anchor's topic if that has one; an unflagged thread holds every stored message of that kind |
| Thread.Thread | pkg/store/thread.go:25-64 | Nothing exactly when the message is not stored; otherwise, around a core that is the reply chain and its replies, messages of the anchor's chat and topic sent within five minutes of the core, all of them unless there are more than 500 |
| Thread.UnflaggedIsClosed | pkg/store/thread.go:59-63 | A thread not flagged as cut holds its whole core, and every reply to a message of it unless the core is exactly 500 messages |
| Thread.FullCoreCanLackAReply | pkg/store/thread.go:105-127 | Counterexample at 500: a thread of a message and 499 replies is not flagged and lacks a stored reply to one of them |
| Ingest.Service.Collect | pkg/ingest/ingest.go:240-273 | Exactly the updates that hold something to store are kept, in order, each with its message as it was sent and its chat marked when it is not allowed; every chat outside the allowlist heard from is announced |
| Ingest.RecordIff | pkg/ingest/ingest.go:240-273 | An update gives no record if and only if it carries no message, comes from a migrated chat, is a service message, or its chat is outside the allowlist and neither a group nor a supergroup; a record carries the chat, message id, time and body of its update |
| Ingest.CollectedIff | pkg/ingest/ingest.go:240-273 | A delivery yields a record for exactly the updates with something to store, in order |
| Ingest.Service.Persist | pkg/ingest/ingest.go:171-202 | Buffered messages first, then known ones, in two transactions, stopping at the first failure |
| Ingest.Service.SkipPoison | pkg/ingest/ingest.go:213-238 | Message by message: refused ones are recorded, any other failure ends it and reports so |
| Ingest.Service.Deliver | pkg/ingest/ingest.go:137-166 | One turn of the loop leaves tables, offset, retry key, retry count and refused ids of the specification |
| Ingest.Service.Run | pkg/ingest/ingest.go:104-168 | A run of polls and failed polls leaves the tables, Telegram's confirmed mark and the loop's variables the transition system gives |
| Ingest.Telegram.GetUpdates | pkg/telegram/client.go:98-112 | A positive offset confirms everything below it, and what is still pending comes back from its first update on |
| Ingest.PersistedWrites | pkg/ingest/ingest.go:171-189 | After a persisted delivery every message is as its last record says; a failed one changes nothing but to what some record says |
| Ingest.PersistedPlaces | pkg/ingest/ingest.go:170-210 | A persisted delivery puts the messages of allowed chats into messages and the others into the buffer, where a new one is stamped with the delivery's time and its chat's title and type |
| Ingest.SkippedWrites | pkg/ingest/ingest.go:213-238 | When the per-message replay ends, each record is logged as refused or its message is as it or a later record of the delivery says |
| Ingest.SingleOutcome | pkg/ingest/ingest.go:216-225 | A record's own write is done exactly when its statements are accepted, and rejected exactly when its row is refused |
| Ingest.RefusedIff | pkg/ingest/ingest.go:213-238 | The per-message replay ends exactly when every own write is done or its row refused, and then logs as refused exactly those |
| Ingest.PolledKeeps | pkg/ingest/ingest.go:120-167 | A poll, whatever the database answers, keeps every update below the offset accounted for, its message never put back to an older version |
| Ingest.RestartKeeps | cmd/tg-mcp/main.go:95-101 | A restart with its drain and sweep, even one that fails to boot, keeps the latest version of every message held or departed; a drop whose report is lost counts as lost, not as on record |
| Ingest.NothingConfirmedIsLost | pkg/ingest/ingest.go:104-168 | Over every run of polls, redeliveries, refusals, outages, sweeps and restarts each update below the offset or the confirmed mark had nothing to store, by its own fields, under an allowlist of the run, was refused on its own write, or its message is held as this update or a later one left it, or departed in such a version; the index agrees throughout |
| Ingest.FilteredInForce | pkg/ingest/ingest.go:120-124 | Whatever collect passed over in a run it passed over under the allowlist of the start or of a restart of that run |
| Ingest.RecordsAreCompleteIff | cmd/tg-mcp/main.go:187-199 | No drop goes unreported in exactly the runs in which no drain fails after one of its chats dropped something; in those every update below the offset is filtered, refused, held no older, reported as dropped or expired |
| Ingest.SureToReport | cmd/tg-mcp/main.go:187-199 | A run whose every restart finds nothing buffered for any chat of its list but the last loses no report, whatever is answered at any step, and accounts on record for every update below the offset |
| Ingest.BufferLeavesARecord | pkg/store/pending.go:140-278 | A row that leaves the buffer in a step was received before that step's cutoff, or was moved into messages or dropped by that step's drain |
| Ingest.BacklogBeatsTtl | cmd/tg-mcp/main.go:183-186 | Adding a chat wins over the ttl: a restart whose drain succeeds leaves every row of an added chat, however old, in messages or named as dropped |
| Ingest.OffsetDiscipline | pkg/ingest/ingest.go:144-167 | The offset never falls, and stays in every iteration that meets a failure other than a rejected row |
| Ingest.OffsetMovesIff | pkg/ingest/ingest.go:139-167 | A delivery moves the offset past its last update exactly when it is persisted, or rejected for a row's sake for the third time and then replayed one by one to the end; otherwise the offset stays |
| Ingest.SkippingIsALastResort | pkg/ingest/ingest.go:144-165 | In every run, messages are skipped one by one only after three failed deliveries in a row that all started at the same update |
| Ingest.TailsDoNotReset | pkg/ingest/ingest.go:145-150 | A redelivery that starts at the same update adds to the count however its tail has grown |
| Ingest.PoisonCannotStall | pkg/ingest/ingest.go:213-215 | While the database is up, any run with three or more deliveries moves the offset past the update it starts at, however long each delivery is, whatever rows are refused, and with any failed polls, empty polls and sweeps in between |
| Search.EscapeLike | pkg/store/search.go:222-232 | The loop returns the specified escaping |
| Search.LikeIsLiteral | pkg/store/search.go:73-90 | Under LIKE with ESCAPE a text matches the pattern if and only if the query occurs in it up to case folding, for queries made of `%`, `_` and `\` too |
| Search.SplitTerms | pkg/store/search.go:171-198 | The loop with its quote flag and pending term returns the specified terms |
| Search.TermsOfTyped | pkg/store/search.go:171-198 | The terms of a query are its words, each run without spaces or quotes, and its quoted phrases, each whole, in order; a quote never closed takes the rest |
| Search.AnythingIsTyped | pkg/store/search.go:171-198 | Every text is words, phrases and spaces with at most one unclosed quote, so that description covers every query |
| Search.TermsAreClean | pkg/store/search.go:171-173 | No term is empty and none carries a quote |
| Search.QueryRoundTrip | pkg/store/search.go:157-198 | Splitting the built expression gives exactly the terms with a word character, in order |
| Search.LiteralsAre | pkg/store/search.go:200-220 | The terms checked literally are those with a letter or digit and with a character that is no letter, digit or space |
| Search.NeedleMeans | pkg/store/search.go:50-53 | The text searched for literally is the query without quotes and without the spaces around it |
| Search.LiteralsLeaveAMatch | pkg/store/search.go:60-62 | A non-empty list of punctuated terms implies a non-empty expression |
| Search.Search | pkg/store/search.go:26-63 | Strict hits answer when there are any, then messages carrying the query literally, and only then loose ones, which do answer when there are any; hits are in scope, newest first and within the limit, and a match left out is older than every hit of a full page; the search errors exactly when the loose query is reached and the engine errors on it |
| ChatMap.CountOfOne | pkg/config/config.go:77-80 | The tally exceeds one if and only if another chat of the same customer exists |
| ChatMap.Validate | pkg/config/config.go:71-122 | No problem is reported if and only if the map meets the rules, and a reported problem is really there |
| ChatMap.IsAliasIff | pkg/config/config.go:18-22 | A public alias is made of small letters, digits and dashes and does not start with a dash |
| ChatMap.IsUsernameIff | pkg/config/config.go:18-22 | A username has 4 to 32 letters, digits and underscores and starts with a letter |
| ChatMap.ByCustomer | pkg/config/config.go:143-158 | The scan and the sort return the specified listing of the customer's chats |
| ChatMap.OfCustomerMeans | pkg/config/config.go:143-158 | The listing holds exactly the customer's chats, as many as were counted, strictly ordered by label and then id |
| ChatMap.LessIff | pkg/config/config.go:152-156 | Labels are ordered by their first difference, a label before its extensions |
| ChatMap.SingleChat | pkg/server/server.go:290-309 | The resolution specified: unknown customer, ambiguous, unknown label, or the chat |
| ChatMap.ResolvesIff | pkg/server/server.go:290-309 | Under the label rules a customer and label resolve to a chat if and only if it is that customer's chat and carries that label or, without a label, is the only one: never another customer's |
| ChatMap.ErrorsIff | pkg/server/server.go:290-309 | The error of an address that finds nothing: no chat of the customer, several and no label given, or no chat with the label |
| ChatMap.ChatName | pkg/server/tools.go:578-595 | The customer of the chat, and its label exactly when the customer has another chat; empty outside the allowlist |
| ChatMap.AddressingInvertible | pkg/server/server.go:290-309 | Every chat is what its printed customer and label resolve to, if and only if no customer with several chats leaves one unlabeled or repeats a label |
| ChatMap.AddressesAreUnique | pkg/server/tools.go:578-595 | No two chats of an accepted map print the same address |
| ChatMap.ByPublic | pkg/config/config.go:130-141 | An alias finds a chat carrying it if there is one, never for the empty name, and in an accepted map exactly that chat |

## Left out

- Text that is not valid UTF-8: lengths and offsets are counted in code points, not bytes.
- Integer widths: ids, offsets and times are unbounded; nothing in the modelled code wraps.
- Timestamps as text: times are compared as seconds, which is what the stored RFC 3339 text gives for years 0 to 9999; the decode failure outside them is modelled in `Buffer.Decodable`.
- Unmarshalling and field mapping: `convert`, media, sender and mention columns are one opaque field of a message.
- The database engine: tokenization, `snippet()`, MATCH and its ranking are the parameter `engine`; a failed commit is taken to have written nothing.
- Failing reads: history, thread, list and search queries succeed, except that MATCH may error out.
- Thread.Thread: is exact on one snapshot; `Thread.Assemble` states what is left of that when rows are written between its queries.
- Database errors of cursor writes: `Store.Store.SetCursor` covers the write that succeeds.
- The page token: base64 and RFC 3339 are an injective encoding, so a cursor is a (sent, id) pair; malformed tokens are not modelled.
- Ingest plumbing: the webhook call, backoff, cancellation and the errors that end the loop; a process that ends is a `Restart` event whenever it starts again.
- Sweeps inside a delivery: a sweep is a step between two polls, while the program may also run one between the two transactions of a delivery.
- The chats table, the startup summary of waiting chats and the wording of log lines. The ledger is a history of what became of each update and message; it keeps drops named in a returned report apart from drops whose report was lost.
- Lock order: the mutex of the cache appears as commit and note steps; a reader sees the cache between steps.
- HTTP, MCP registration, auth, signed links, attachments and the Telegram client.
- ChatMap.SingleChat: names the kind of failure without the list of available labels in the error text.
- Store.Store.ReplayChat: promises the cache's agreement afterwards only while no chat is loaded, because the program drains before it tracks any chat; `Store.ReplayAgreesIff` says exactly when the agreement survives otherwise.
- History.HistoryWalkIsExactlyOnce: is about fixed bounds; without bounds the 24 hour default applies to the first page only, and such a walk is not confined to it.
- Triage.LimitKeepsTheOldest: lists by sent while the cursor compares message ids, so marking the list front to back needs both orders to agree, which nothing in the program guarantees.
- Document.HeadingKept: says how many pairs of asterisks were cut from a heading's text, not where; the deleted markers are not recoverable from the html.
