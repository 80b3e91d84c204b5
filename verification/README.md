# Together: verified models of the hard parts

Together is a chat platform: a Rust server over Postgres with a WebSocket gateway, and a TypeScript
client with small stores. This project models the parts of it whose correctness is not visible from
one function body: protocols whose steps interleave, algorithms written twice that must agree, and
runs of any length. Every theorem is about all inputs and all runs of the model.

Layout, one module per file:

- `MarkdownScan`, `Markdown`, `MarkdownLossless`, `MarkdownSpelling`, `MarkdownOpaque`, `MarkdownParser`,
  `MarkdownRules`, `MarkdownCode`: the message parser. `Markdown` is the parser as functions and the way back to source
  text; `MarkdownLossless`, `MarkdownSpelling` and `MarkdownOpaque` prove what it promises of the tree and
  of the segments; `MarkdownParser` is the parser with its counter, placeholder list and loops, proved to
  compute the same segments; `MarkdownRules` says which pattern is taken and what it
  yields, `MarkdownCode` what becomes of the text around code.
- `MessageStore`, `Pagination`, `PagingRuns`, `PagingOrder`, `PagingCost`: the client's message store with
  reply counting, the server's page query, whole runs of a client paging back while others write, what the
  order of announcements does to its list, and how many requests it needs.
- `Powers`, `Permissions`, `Maxima`, `Roles`, `RoleRequests`, `RoleRuns`: role handlers, what each request
  needs and changes, and what a coalition of non-owners can do.
- `ChannelPermissions`, `OverrideSync`, `OverrideRequests`: channel permissions as both sides compute them,
  the override table, its events and the client's copy, and what a request comes to for a user.
- `DmChannels`, `Invites`, `RefreshRotation`, `RefreshLimits`: three concurrent database protocols.
- `RateLimiter`, `ConnectionManager`, `VoiceStates`: the gateway server.
- `GatewayClient`, `GatewayRules`, `TypingStore`: the gateway client and the typing indicators.
- `Polls`: votes and tallies.

State that the original changes in place is a class whose methods are proved to compute a step
function on its abstract value; the theorems are lemmas about runs of that step function. Concurrent
handlers are cut into the statements Postgres executes one after the other, under READ COMMITTED, and
a run is any sequence of such steps by any number of handlers. Ids are numbers, permissions are sets
of bit numbers, time is an integer that does not go back. Where a promise of the code does not hold
for every input, the theorem states the exact condition, and a lemma shows an input that breaks it.

## What turned out not to hold

- `list_messages` documents an empty answer for a cursor of another channel; the query looks the
  cursor up by id alone (`Pagination.CursorChannelIsIgnored`, `Pagination.ForeignCursorReturnsRows`).
  The model follows the query.
- Markdown without the private-use sentinel loses text exactly when an inline code span encloses a
  fenced block (`EnclosureLosesText`); text that spells a placeholder with the sentinel disappears
  (`SpelledPlaceholderIsDropped`).
- A block quote can start inside a line, between two inline codes (`QuoteInsideALine`); in text without
  code it cannot (`QuotesStartLines`).
- A message is committed first and announced afterwards, and the client appends announcements without
  sorting. Two that cross stay swapped (`CrossingAnnouncementsSwap`). A message announced while it is
  older than everything loaded is listed a second time exactly when a page received later holds it
  (`ListIsDistinctIff`, `LateAnnouncementExists`, `LateAnnouncementIsListedTwice`).
- Refresh tokens carry whole seconds and no identifier (sections 4.1.6 and 4.1.7 of RFC 7519). A token
  refreshed within the second it was issued in is not used up (`ReplayWithinOneSecond`), and two logins
  of one user in one second share a token that both sessions can spend (`TwoLoginsShareAToken`).
- `compute_channel_permissions` documents the plain role permissions for a channel without overrides; it
  adds what everybody has, so the two agree only for members whose roles grant that already
  (`WithoutOverrides`).
- A role created without a position lands above all others unless one already has the largest 32-bit
  position; the addition then wraps in a release build (`DefaultPositionWraps`).
- The READY payload has no entry for a channel without overrides and is merged over the old copy, so
  overrides deleted while the client was away survive a reconnect (`DeletedOverrideStays`). Two updates
  of one override whose events cross leave the copy wrong (`TwoUpdates`, `CrossingUpdatesDisagree`).
- When a voice user moves between two servers, a client that is a member of both sees the join and
  then the leave of the old server, which its participant list takes for a leave of the new channel
  (`MoverVanishes`).
- A late disconnect cleanup spares a newer voice row, but its leave event still hides that row from
  clients when the new channel is in the same server (`LateCleanupHidesTheUser`).
- A `disconnected` listener of the gateway client that connects again leaks a reconnect timer at the
  next close (`ListenerCanRenew`, `RenewingListenerLeaks`); one that throws ends the retries
  (`ListenerCanGiveUp`).

## Model

| member | source | states |
|---|---|---|
| MarkdownScan.Find | clients/web/src/utils/markdown.ts:32 | the leftmost occurrence of a literal, and none only if there is none |
| MarkdownScan.RunEnd | clients/web/src/utils/markdown.ts:32 | a greedy character class stops at the first character outside it |
| MarkdownScan.MatchLazy | clients/web/src/utils/markdown.ts:71-84 | leftmost match of a doubled delimiter with a lazy, non-empty body that may span lines: no earlier start and no earlier end exists |
| MarkdownScan.MatchRun | clients/web/src/utils/markdown.ts:37-78 | leftmost match of a single-character delimiter whose body holds neither the delimiter nor a newline |
| MarkdownScan.MatchFence | clients/web/src/utils/markdown.ts:32 | leftmost fence, language greedy, optional newline, body lazy; no match is missed by backtracking into the language |
| MarkdownScan.NoFenceInLanguageLine | clients/web/src/utils/markdown.ts:32 | a closing fence never starts inside the language line |
| MarkdownScan.MatchPlaceholder | clients/web/src/utils/markdown.ts:90 | the leftmost placeholder text with its digits |
| Markdown.FirstPatternWins | clients/web/src/utils/markdown.ts:70-109 | the first pattern in the fixed order that matches anywhere wins: earlier patterns match nowhere, and its match is the leftmost one with the nearest close |
| Markdown.MarkIsLeftmost | clients/web/src/utils/markdown.ts:70-101 | one pattern's search gives the leftmost match with the nearest close, or shows that there is none |
| MarkdownLossless.IdInjective | clients/web/src/utils/markdown.ts:25-29 | different counters give different placeholder texts |
| MarkdownLossless.FindOwnId | clients/web/src/utils/markdown.ts:94-95 | looking up a placeholder gives back the code span it was made for |
| MarkdownLossless.FenceTokens | clients/web/src/utils/markdown.ts:32-34 | after the fence pass every character is there once, a fence standing for its raw source |
| MarkdownLossless.InlineTokens | clients/web/src/utils/markdown.ts:37-39 | the same for the inline pass, unless a span swallowed a placeholder, which destroys text |
| MarkdownLossless.QuoteTokens | clients/web/src/utils/markdown.ts:46-67 | splitting a quote keeps every line, the "> " prefixes and the newline before the rest |
| MarkdownLossless.InnerLossless | clients/web/src/utils/markdown.ts:42-117 | unparsing the tree of any placeholder-well-formed text gives that text back |
| MarkdownLossless.BodiesHoldPlaceholders | clients/web/src/utils/markdown.ts:37-39 | an inline body with a sentinel in it holds the whole placeholder of a fenced block |
| MarkdownLossless.Lossless | clients/web/src/utils/markdown.ts:16-120 | for text without U+E000, unparse(parse(text)) = text if and only if no inline span holds the placeholder of a fenced block; no code span appears twice |
| MarkdownLossless.EnclosureLosesText | clients/web/src/utils/markdown.ts:32-39 | a concrete text whose inline span encloses a fence, and which is lost |
| MarkdownLossless.SpelledPlaceholderIsDropped | clients/web/src/utils/markdown.ts:90-97 | text spelling a placeholder that was never made parses to nothing |
| MarkdownSpelling.ParsedTextIsWritten | clients/web/src/utils/markdown.ts:16-120 | the returned segments, each written with its own delimiters (bold as `**` or `__`, italic as `*` or `_`, and so on), fence, language, backticks or quote marks, give the text back |
| MarkdownRules.MarkupRules | clients/web/src/utils/markdown.ts:70-114 | for text without code: the first of the delimiters double bar, `***`, `**`, `__`, `*`, `_`, `~~` that encloses anything is taken at its leftmost place with its nearest close and yields the segment of that delimiter around its parsed inside, after the plain text before it; with none the text is one leaf |
| MarkdownRules.QuoteRule | clients/web/src/utils/markdown.ts:46-67 | a text that starts with "> " is one block quote of its leading marked lines, without their marks, and then what the other lines parse to |
| MarkdownRules.QuotesStartLines | clients/web/src/utils/markdown.ts:46-47 | a text that does not start with "> " yields no block quote at its top level |
| MarkdownRules.FenceRule | clients/web/src/utils/markdown.ts:31-34 | after simple text a fenced block is a code block with exactly its body and language, and the text before parses as if it stood alone |
| MarkdownRules.InlineRule | clients/web/src/utils/markdown.ts:36-39 | the same for inline code |
| MarkdownCode.InlineParts | clients/web/src/utils/markdown.ts:36-114 | any number of inline codes in simple text: each code verbatim, and each text between two of them parsed as if it stood alone, so no markup reaches across code |
| MarkdownCode.FenceThenParts | clients/web/src/utils/markdown.ts:31-114 | the same for a fenced block followed by such a sequence |
| MarkdownCode.QuoteInsideALine | clients/web/src/utils/markdown.ts:89-97 | a quote mark between two codes of one line starts a block quote |
| MarkdownRules.InlineCodeIsOpaque | clients/web/src/utils/markdown.ts:36-117 | replacing inline code leaves the tree as it is and changes that one code span |
| MarkdownOpaque.FirstFence | clients/web/src/utils/markdown.ts:31-34 | where the first fence is matched in a text whose prefix has no backtick |
| MarkdownOpaque.ExtractFenced | clients/web/src/utils/markdown.ts:31-34 | what is left after the fence pass does not depend on the body of the fence |
| MarkdownOpaque.FencedCodeIsOpaque | clients/web/src/utils/markdown.ts:31-117 | replacing the body by another one without a backtick leaves the tree as it is and changes that one leaf |
| MarkdownParser.QuoteByLines | clients/web/src/utils/markdown.ts:46-67 | splitting into lines, sorting them into quote and rest and joining is the recursive split |
| MarkdownParser.Parser.AddPlaceholder | clients/web/src/utils/markdown.ts:25-29 | the returned id is new and stands for the stored segment |
| MarkdownParser.Parser.ExtractFences | clients/web/src/utils/markdown.ts:32-34 | the global replace stores exactly the segments of the fence pass |
| MarkdownParser.Parser.ExtractInline | clients/web/src/utils/markdown.ts:37-39 | the same for inline code, numbering on |
| MarkdownParser.Parser.SplitQuoteLines | clients/web/src/utils/markdown.ts:47-58 | the line loop yields the leading quote lines without prefix and all other lines |
| MarkdownParser.Parser.FindPlaceholder | clients/web/src/utils/markdown.ts:94-95 | the first stored entry with the id, or none |
| MarkdownParser.Parser.ParseInner | clients/web/src/utils/markdown.ts:42-117 | the loop over the remaining text yields the resolved tree; it terminates on every input |
| MarkdownParser.Parser.ParseTurn | clients/web/src/utils/markdown.ts:88-114 | one turn emits what the recursive parser emits and continues with a shorter text |
| MarkdownParser.Parser.ParseQuote | clients/web/src/utils/markdown.ts:46-67 | quote, then rest only if a line remains |
| MarkdownParser.ParseMarkdown | clients/web/src/utils/markdown.ts:16-120 | the whole parser computes the function the theorems are about; the segments it returns write the text they were read from |
| MessageStore.Store.FinishFetch | clients/web/src/stores/messageStore.ts:86-110 | a page is reversed and put before the loaded messages, or replaces them; more is expected only after a full page |
| MessageStore.Store.AddMessage | clients/web/src/stores/messageStore.ts:191-197 | appended unless its id is loaded |
| MessageStore.Store.RemoveMessage | clients/web/src/stores/messageStore.ts:212-219 | a tombstone in place, nothing removed |
| MessageStore.Store.SendThreadReply | clients/web/src/stores/messageStore.ts:289-323 | the REST answer to a reply: cache and count move together, or not at all |
| MessageStore.Store.AddThreadMessage | clients/web/src/stores/messageStore.ts:325-358 | the gateway event: nothing if cached, otherwise count and existing cache grow |
| MessageStore.StepCounts | clients/web/src/stores/messageStore.ts:289-358 | one step keeps count minus cache length and adds exactly the delivered ids |
| MessageStore.RepliesCountedOnce | clients/web/src/stores/messageStore.ts:289-358 | over every interleaving and duplication of answers and events, the count rises by the number of distinct new replies and the cache has no duplicate |
| MessageStore.RedeliveryIsHarmlessIffCached | clients/web/src/stores/messageStore.ts:325-358 | delivering a reply again leaves the count alone if and only if the thread is cached with it |
| Pagination.Clamp | server/src/handlers/messages.rs:397 | the limit is 50 by default and within 1 to 100 |
| Pagination.Newest | server/src/handlers/messages.rs:399-449 | the page holds the k newest selected rows, newest first: every row left out is older than every row in it |
| Pagination.PageIsUnique | server/src/handlers/messages.rs:399-449 | that description leaves one possible page |
| Pagination.PageContents | server/src/handlers/messages.rs:397-449 | in row fields: every message of a page is a row of the channel outside threads, not deleted, before the cursor if there is one, shown with its own fields and the number of undeleted rows of its thread, newest first, at most as many as asked for; a row with these properties that is missing is older than the whole, full page |
| Pagination.CursorChannelIsIgnored | server/src/handlers/messages.rs:82-83 | against its documentation, for every limit the page is empty exactly when no root of the requested channel is older than the cursor, whatever the cursor's channel or deleted flag |
| Pagination.ForeignCursorReturnsRows | server/src/handlers/messages.rs:399-425 | a concrete table on which a foreign cursor returns a row (for an unknown cursor the documentation is right: `UnknownCursorReturnsNothing`) |
| PagingRuns.ServedPage | server/src/handlers/messages.rs:399-449 | a page served for the oldest loaded id misses only surviving rows older than a full page, even if the cursor row is deleted |
| PagingRuns.ReceivedPage | clients/web/src/stores/messageStore.ts:92-110 | prepending it keeps the list strictly increasing and complete from its oldest message on |
| PagingRuns.StepKeeps | clients/web/src/stores/messageStore.ts:86-128 | every step of the world keeps the invariant, requests in flight, failed requests and announcements in any order included |
| PagingRuns.PagingLoadsEverything | clients/web/src/stores/messageStore.ts:86-110 | in every run with concurrent commits, announcements in any order and deletes, what the requests brought is strictly increasing in (created_at, id) without duplicates, and after a short page it holds every root live at opening and not deleted since |
| PagingRuns.OlderPageArrives | clients/web/src/stores/messageStore.ts:86-110 | in every reachable world that expects more, asking brings the page before the first message in front of the list |
| PagingRuns.OtherActions | clients/web/src/stores/messageStore.ts:191-219 | what posts, deletions and announcements do to table and list |
| PagingOrder.ListAscendsIffInOrder | clients/web/src/stores/messageStore.ts:191-197 | the whole list is strictly increasing if and only if every announced message was already loaded or newer than the last loaded one |
| PagingOrder.OrderedRunLoadsEverything | server/src/handlers/messages.rs:300-345 | with announcements in order the whole list is increasing, duplicate-free and complete |
| PagingOrder.CrossingAnnouncementsSwap | server/src/handlers/messages.rs:300-345 | a run of two messages whose announcements cross: they stay swapped |
| PagingOrder.ListIsDistinctIff | clients/web/src/stores/messageStore.ts:92-99 | in every run the list is free of duplicates if and only if no message announced while older than everything loaded is on a page received later |
| PagingOrder.DistinctStepIff | clients/web/src/stores/messageStore.ts:191-197 | the same for one step: nothing but receiving such a page repeats a message |
| PagingOrder.NoDuplicates | clients/web/src/stores/messageStore.ts:191-197 | so a run in which nothing older than everything loaded is announced lists no message twice |
| PagingOrder.LateAnnouncementIsListedTwice | clients/web/src/stores/messageStore.ts:92-99 | the failing case: such an announcement followed by the page that holds the message |
| PagingOrder.LateAnnouncementExists | clients/web/src/stores/messageStore.ts:92-99 | a channel of 51 messages where that can happen |
| PagingCost.PagingEnds | clients/web/src/stores/messageStore.ts:86-110 | when arrivals are newer, at most n/50 + 1 answered requests, and the last one knows it is the last |
| Maxima.MaxOr | server/src/handlers/shared.rs:352-369 | COALESCE(MAX(..), default): a maximum of the set, or the default for the empty set |
| Roles.Tables.Require | server/src/handlers/shared.rs:251-296 | server, membership and permission are refused in this order, ADMINISTRATOR and ownership pass (on the table fields: `RoleRequests`) |
| Roles.Tables.Highest | server/src/handlers/shared.rs:352-369 | the highest position among the user's roles in the server, 0 without one |
| Roles.Tables.Create | server/src/handlers/roles.rs:54-160 | hierarchy and grant checks, then the row at the requested position or one above the maximum |
| Roles.Tables.Edit | server/src/handlers/roles.rs:212-340 | refuses targets and positions at or above the actor and bits the actor lacks; absent fields stay |
| Roles.Tables.Remove | server/src/handlers/roles.rs:358-430 | deletes a role below the actor and its memberships |
| Roles.Tables.Assign | server/src/handlers/roles.rs:442-525 | grants a role below the actor to a member |
| Roles.Tables.Unassign | server/src/handlers/roles.rs:538-606 | revokes a role below the actor, never from the owner by somebody else |
| RoleRequests.CreateRule | server/src/handlers/roles.rs:54-133 | accepted if and only if the actor is a member of an existing server who owns it or holds a role with bit 11 or 13, name and permissions are valid, a requested position is below one of the actor's roles, and the actor has every granted bit; then exactly one row is added, by default one above the highest; 404 and 400 under exact conditions too |
| RoleRequests.UpdateRule | server/src/handlers/roles.rs:212-311 | the same for an update: the role is of this server and below the actor, and so is its new position; given fields change, absent ones and all other rows stay |
| RoleRequests.DeleteRule | server/src/handlers/roles.rs:358-403 | accepted if and only if the actor manages roles and outranks the role; then the role and its memberships are gone and nothing else |
| RoleRequests.AssignRule | server/src/handlers/roles.rs:442-492 | accepted if and only if actor and target are members, the actor manages roles and outranks the role; then exactly this membership is added |
| RoleRequests.RemoveRule | server/src/handlers/roles.rs:538-596 | the same for a removal, and roles of the owner only by the owner; then exactly this membership is gone |
| RoleRequests.BitsOfIntegerOf | server/src/handlers/roles.rs:33-34 | the set that stands for a permission integer holds exactly its bits 0 to 14 |
| RoleRequests.ManagingMasks | server/src/handlers/shared.rs:141-142 | the masks 2048 and 8192 are bits 11 and 13 |
| RoleRequests.NameBytes | server/src/handlers/roles.rs:71-72 | names are measured in UTF-8 bytes |
| RoleRequests.UninterruptedRun | server/src/handlers/roles.rs:54-606 | the two steps of a handler, one after the other, are the request at once |
| RoleRuns.Ceiling | server/src/handlers/shared.rs:352-369 | the largest highest-position of a coalition, floored at 0 |
| RoleRuns.HighestBounded | server/src/handlers/shared.rs:352-369 | under the invariant nobody of the coalition outranks the ceiling |
| RoleRuns.BeginKeeps | server/src/handlers/roles.rs:85-121 | a request that passes its checks is harmless to every role at or above the ceiling, now and when it is written later |
| RoleRuns.FinishKeeps | server/src/handlers/roles.rs:260-311 | a write checked long ago still keeps the invariant |
| RoleRuns.CoalitionStaysBelow | server/src/handlers/roles.rs:54-606 | whatever a coalition of non-owners does, interleaved in any way, every role at or above its highest position keeps its row and its holders, and no member of it rises above |
| RoleRuns.PermissionsNeverGrow | server/src/handlers/roles.rs:99-107 | without ADMINISTRATOR on any role, no role ever gets it and the union of all permission bits never grows |
| RoleRuns.DefaultPositionTops | server/src/handlers/roles.rs:109-121 | a role created without a position is above all others if and only if none sits at the largest 32-bit position |
| RoleRuns.DefaultPositionWraps | server/src/handlers/roles.rs:119 | next to a role at the largest position the new one gets the smallest |
| ChannelPermissions.ComputeOnServer | server/src/handlers/shared.rs:404-490 | the Rust loop with its early returns computes ServerBits on any row order |
| ChannelPermissions.ComputePermissions | clients/web/src/stores/roleStore.ts:67-75 | the base permissions are the union over the own roles |
| ChannelPermissions.ComputeOnClient | clients/web/src/stores/roleStore.ts:257-306 | the TypeScript resolution computes ClientBits |
| OverrideSync.OverrideStore.SetFromReady | clients/web/src/stores/roleStore.ts:220-224 | READY is merged over the copy |
| OverrideSync.OverrideStore.HandleUpdate | clients/web/src/stores/roleStore.ts:226-241 | an update replaces the row with its id or is appended |
| OverrideSync.OverrideStore.HandleDelete | clients/web/src/stores/roleStore.ts:243-255 | a delete drops the row with its id |
| OverrideSync.ServeValid | server/src/handlers/channel_overrides.rs:101-149 | validation and upsert keep one target per row and one row per target (what is stored: `OverrideRequests.SetRule`) |
| OverrideSync.ServeLists | server/src/handlers/channel_overrides.rs:101-244 | one request and the handling of its event keep the copy a listing of the table |
| OverrideSync.CopyFollowsTable | clients/web/src/stores/roleStore.ts:226-255 | over every history of upserts and deletes whose events arrive in the order of the commits, the copy lists exactly the rows of the channel |
| OverrideSync.CopyIsRightIff | server/src/handlers/channel_overrides.rs:135-165 | with events handled late, repeatedly, in any order or not at all, the copy lists the channel if and only if for every row the last event handled leaves what the last committed one does |
| OverrideSync.TwoUpdates | server/src/handlers/channel_overrides.rs:135-149 | two requests for one target announce two updates of one row |
| OverrideSync.CrossingUpdatesDisagree | clients/web/src/stores/roleStore.ts:226-241 | handled in the other order they leave the copy wrong |
| OverrideSync.ReadyListsIff | server/src/websocket/handler.rs:757-788 | after READY the copy of a channel is right if and only if the channel has overrides now or had none in the copy; with the empty payload of a failed read, if and only if it was right before |
| OverrideSync.DeletedOverrideStays | clients/web/src/stores/roleStore.ts:220-224 | the failing case: an override deleted while the client was away |
| OverrideSync.BaseAgrees | clients/web/src/stores/roleStore.ts:67-75 | both sides start from the same union of role permissions |
| OverrideSync.MergeMeaning | server/src/handlers/shared.rs:466-479 | the Rust accumulators hold the union over the own roles' overrides and the user's own override |
| OverrideSync.RoleMergeMeaning | clients/web/src/stores/roleStore.ts:287-296 | the TypeScript accumulators hold the same unions |
| OverrideSync.PrecedenceDecides | server/src/handlers/shared.rs:448-490 | stated on the table: the user's override decides first, allowing before denying, then the overrides of all the user's roles together, then the base permissions |
| OverrideSync.ResolutionsAgree | server/src/handlers/shared.rs:404-490 | on the same rows in any two orders, both sides compute the same bits 0 to 14 |
| OverrideSync.ServerAndClientAgree | clients/web/src/stores/roleStore.ts:257-306 | and they do after every history of override requests whose events arrive in the order of the commits |
| OverrideSync.AgreementWithLateEvents | clients/web/src/stores/roleStore.ts:257-306 | and with events in any order, under the condition of `CopyIsRightIff` |
| OverrideRequests.SetRule | server/src/handlers/channel_overrides.rs:83-149 | accepted if and only if the sender may, there is exactly one target, and the masks are within 15 bits and share none; then the target has one row in the channel, with exactly the requested masks, every other row is as before, and the event is that row |
| OverrideRequests.DropRule | server/src/handlers/channel_overrides.rs:206-248 | accepted if and only if the sender may and the row is there in this channel; then exactly that row is gone |
| OverrideRequests.EffectivePermission | server/src/handlers/shared.rs:387-490 | on the table fields, for everybody: owner and ADMINISTRATOR have bits 0 to 14, then the precedence of overrides, then role bits and bits 0, 1, 3, 4, 5, 6 |
| OverrideRequests.WithoutOverrides | server/src/handlers/shared.rs:402-457 | against its documentation the result for a channel without overrides is the role permissions if and only if these contain what everybody has |
| OverrideRequests.UserOverrideDecides | clients/web/src/stores/roleStore.ts:226-306 | from request to effect: a bit that a request allows a user is in the permissions the server computes and in those of a client that handled the event, a denied one is in neither |
| OverrideRequests.RoleOverrideDecides | server/src/handlers/shared.rs:462-490 | what a request for a role comes to for a holder, in terms of the overrides there were before |
| OverrideRequests.RunIsServed | clients/web/src/stores/roleStore.ts:226-255 | hearing every event in order is handling all announced events |
| DmChannels.KeySymmetric | server/src/handlers/dm.rs:190-204 | the lock key does not depend on who opens |
| DmChannels.BuildKey | server/src/handlers/dm.rs:190-204 | sorting the pair and xor-ing its first eight bytes gives that key |
| DmChannels.Database.BeginOpen | server/src/handlers/dm.rs:168-187 | opening a channel with oneself or with nobody fails |
| DmChannels.Database.AcquireLock | server/src/handlers/dm.rs:204-208 | the lock is granted only when free |
| DmChannels.Database.LookAgain | server/src/handlers/dm.rs:210-230 | under the lock an existing channel of the pair is returned if there is one |
| DmChannels.Database.InsertChannel | server/src/handlers/dm.rs:232-245 | a new channel with exactly the two users, not yet visible |
| DmChannels.Database.CommitOpen | server/src/handlers/dm.rs:247 | commit publishes the channel and releases the lock |
| DmChannels.HoldersDiffer | server/src/handlers/dm.rs:204-208 | two lock holders never work on the same pair |
| DmChannels.OneChannelPerPair | server/src/handlers/dm.rs:163-247 | in every interleaving, rollbacks and colliding keys included: channels have two distinct members, no pair has two channels, all successful openers of a pair get the same one |
| DmChannels.OpeningRule | server/src/handlers/dm.rs:163-247 | from every reachable state: with oneself or an unknown user nothing happens; otherwise the pair's channel is returned, or a new one that joins exactly the two |
| DmChannels.HolderCanStep | server/src/handlers/dm.rs:187-247 | the holder of a lock can always take its next step |
| DmChannels.WaitersWaitForTheLive | server/src/handlers/dm.rs:187-247 | a waiting opener can lock or waits for one that can step: no deadlock |
| RefreshRotation.SameTokenIffSameSecond | server/src/auth/mod.rs:39-56 | two refresh tokens of a user are equal exactly when minted in the same second |
| RefreshRotation.AuthTables.BeginRefresh | server/src/handlers/auth.rs:323-361 | accepted if and only if the token is a refresh token at most 60 s past its expiry and the stored hash of an unexpired session of a known user who is not disabled; then a token of this second and a week is minted |
| RefreshRotation.AuthTables.LogIn | server/src/handlers/auth.rs:258-279 | a user who is not disabled gets a session of seven days with the hash of the new token |
| RefreshRotation.AuthTables.FinishRefresh | server/src/handlers/auth.rs:365-387 | succeeds if and only if the session still has the hash that was read; then its hash changes and nothing else, its expiry included |
| RefreshRotation.AuthTables.Reset | server/src/handlers/auth.rs:533-552 | a reset removes all sessions of the user |
| RefreshRotation.RotationIsAChain | server/src/handlers/auth.rs:334-387 | in every interleaving the successful exchanges of a session form a chain from the login token to the stored hash |
| RefreshRotation.SpentOnceIffSecondsApart | server/src/handlers/auth.rs:363-387 | over all sessions and every interleaving, no token is exchanged twice or stored after it was exchanged, if and only if every exchanged token was minted in another second than every other token of its user, by login or refresh, that is exchanged or stored |
| RefreshRotation.TwoLoginsShareAToken | server/src/handlers/auth.rs:258-279 | the failing case across sessions: two logins in one second, both spending the token later |
| RefreshRotation.SingleUseIffLaterSecond | server/src/handlers/auth.rs:365-387 | within one session, every token is exchanged at most once if and only if every exchange happens in a later second than the issue of its token |
| RefreshRotation.ReplayWithinOneSecond | server/src/auth/mod.rs:39-56 | two requests in the second of issue both spend the same token |
| RefreshRotation.GoneForGood | server/src/handlers/auth.rs:533-552 | a deleted session never comes back and is never exchanged again |
| RefreshRotation.ResetStopsReaders | server/src/handlers/auth.rs:533-552 | no refresh that read a session before the reset committed can succeed afterwards |
| RefreshLimits.DisabledUsersDoNotRefresh | server/src/handlers/auth.rs:350-361 | over every run: from the disabling of a user on, and until an enabling, no refresh of the user's sessions succeeds unless it had read the tables before, and no session is opened |
| RefreshLimits.ExpiredSessionsDoNotRefresh | server/src/handlers/auth.rs:336-346 | the same, without end, for a session past its expiry |
| RefreshLimits.ExpiredTokensDoNotRefresh | server/src/auth/mod.rs:95-110 | and for a token more than a minute past its expiry, in every session |
| RefreshLimits.SessionsLastAWeek | server/src/handlers/auth.rs:370-385 | refreshing never prolongs a session: a week after its login no new refresh of it succeeds, in any run |
| Invites.CreateInvite | server/src/handlers/invites.rs:64-120 | limits are validated, and the first free code of three draws is used or the request fails |
| Invites.InviteTables.CheckAccept | server/src/handlers/invites.rs:339-391 | accepted if and only if the invite is there, not expired, below its limit, and the user is neither banned nor a member |
| Invites.InviteTables.AcceptInTransaction | server/src/handlers/invites.rs:393-425 | succeeds if and only if the user is not yet a member and the invite is still live; then exactly this member and this use are added, otherwise neither |
| Invites.InviteTables.CountRegistration | server/src/handlers/auth.rs:127-136 | a registration increments under the same condition |
| Invites.UsesAreConserved | server/src/handlers/invites.rs:339-425 | in every interleaving uses = committed accepts + counted registrations, and never above the limit |
| Invites.IncrementRule | server/src/handlers/invites.rs:404-420 | however long it waited, the increment judges expiry by the start of its transaction and the limit by the row as it is now |
| Invites.MembershipComesFromCommits | server/src/handlers/invites.rs:393-425 | every member that came through the invite has a committed accept; by `RolledBackIsFinal` an accept that was rolled back never gets one |
| RateLimiter.Connection.OnText | server/src/websocket/handler.rs:195-204 | one text frame: drop what is a second old, then accept below 20 or reject |
| RateLimiter.Connection.Receive | server/src/websocket/handler.rs:169-225 | the loop hands on exactly the accepted text frames before the first message that is not a data or control frame of at most 16 KiB |
| RateLimiter.RecentIsExact | server/src/websocket/handler.rs:195-204 | after each frame the list is exactly the accepted arrivals of the last second, at most 20 |
| RateLimiter.AcceptedIff | server/src/websocket/handler.rs:195-204 | each frame is accepted if and only if fewer than 20 frames were accepted less than a second before it |
| RateLimiter.NoWindowOverflows | server/src/websocket/handler.rs:195-204 | no half-open second, wherever it starts, holds more than 20 accepted frames |
| RateLimiter.GreedyIsOptimal | server/src/websocket/handler.rs:195-204 | on every prefix no choice of frames that respects the limit accepts more |
| RateLimiter.RejectedCatchesUp | server/src/websocket/handler.rs:198-201 | when a frame is rejected that another choice takes, that choice had no more before it |
| ConnectionManager.Manager.Connect | server/src/websocket/connection_manager.rs:37-44 | the user's entry is replaced |
| ConnectionManager.Manager.Disconnect | server/src/websocket/connection_manager.rs:51-58 | the entry goes only if it is this connection's |
| ConnectionManager.Manager.SendToUser | server/src/websocket/connection_manager.rs:64-69 | queued to the registered connection, dropped if there is none or its receiver is gone |
| ConnectionManager.Manager.BroadcastToUsers | server/src/websocket/connection_manager.rs:74-81 | the same for each listed user in order |
| ConnectionManager.CurrentAfter | server/src/websocket/connection_manager.rs:37-58 | how each step changes what the history says is the current connection |
| ConnectionManager.LatestConnectionWins | server/src/websocket/connection_manager.rs:37-58 | a user is registered exactly with the most recently added connection, unless that one has been removed |
| ConnectionManager.StaleRemoveIsNoOp | server/src/websocket/handler.rs:235-236 | the cleanup of a connection that is not the latest changes nothing |
| ConnectionManager.QueuesHoldWhatIsDue | server/src/websocket/connection_manager.rs:64-81 | each channel holds exactly the messages sent while it was current and open, in order |
| ConnectionManager.ReplacedHearsNothing | server/src/websocket/handler.rs:153-155 | a replaced or removed connection never receives anything more |
| VoiceStates.VoiceTables.JoinVoiceChannel | server/src/handlers/voice.rs:163-236 | 404 for an unknown channel or a non-member, 400 for a text channel, 403 without permission; then an upsert that resets the self flags and keeps the server flags (over whole runs: `ServerFlagsSurvive`), the update event, and the leave for a different old server |
| VoiceStates.VoiceTables.LeaveVoiceChannel | server/src/handlers/voice.rs:254-276 | removes the row of this very channel and announces it; 400 for a text channel, 404 in every other case |
| VoiceStates.VoiceTables.UpdateVoiceState | server/src/handlers/voice.rs:298-342 | given flags change, absent ones stay; 400 for an empty request or a text channel, 404 for everything else that is refused |
| VoiceStates.VoiceTables.CleanupVoiceOnDisconnect | server/src/websocket/handler.rs:317-391 | announces a leave for the channel it read, even if the delete failed |
| VoiceStates.VoiceTables.RemoveFromVoice | server/src/handlers/moderation.rs:72-91 | a kick deletes the row of any server and tells the moderated one |
| VoiceStates.StaysUpToDateIff | server/src/handlers/voice.rs:184-233 | a client of any set of servers that is up to date stays so if and only if the step is harmless for it, stale or failed reads included |
| VoiceStates.EventsRebuildTheTable | server/src/handlers/voice.rs:63-102 | over every run of harmless steps the events rebuild the rows, flags included |
| VoiceStates.AtomicIsHarmlessIff | server/src/handlers/voice.rs:224-231 | with fresh reads only a move between two watched servers does harm |
| VoiceStates.EveryServerIsRebuilt | server/src/handlers/voice.rs:163-342 | for every server and every run of atomic requests, folding its events gives exactly its rows |
| VoiceStates.MoverVanishes | clients/web/src/components/voice/VoiceChannel.tsx:180-229 | a client of both servers loses the mover although the row is there |
| VoiceStates.LateCleanupSparesOtherChannels | server/src/websocket/handler.rs:346-390 | a cleanup with a stale channel leaves every other row as it is, and the server's clients stay right if and only if the user is in no channel of the server or in the one read and deleted from it |
| VoiceStates.LateCleanupHidesTheUser | server/src/websocket/handler.rs:346-390 | the failing case: the newer row is unchanged, and the clients no longer see it |
| VoiceStates.PanelShowsTheView | clients/web/src/components/voice/VoiceChannel.tsx:180-229 | the participant list, edited in place by the events, shows each user of the channel once with the right flags |
| VoiceStates.PanelShowsTheChannel | clients/web/src/components/voice/VoiceChannel.tsx:180-229 | for a client of one server the list is the table's, after every run of atomic requests |
| GatewayClient.WebSocketClient.Cleanup | clients/web/src/api/websocket.ts:286-305 | heartbeat and reconnect stopped, callbacks detached, socket closed if it was in use |
| GatewayClient.WebSocketClient.DoConnect | clients/web/src/api/websocket.ts:190-202 | without token or address nothing happens, otherwise the old socket is replaced |
| GatewayClient.WebSocketClient.ScheduleReconnect | clients/web/src/api/websocket.ts:275-284 | one more timeout with the back-off of the attempts so far |
| GatewayClient.WebSocketClient.Connect | clients/web/src/api/websocket.ts:139-143 | sets the token and resets the attempts before connecting |
| GatewayClient.WebSocketClient.Disconnect | clients/web/src/api/websocket.ts:145-148 | forgets the token and cleans up |
| GatewayClient.WebSocketClient.SetServerUrl | clients/web/src/api/websocket.ts:129-137 | a new address reconnects a client with a token |
| GatewayClient.WebSocketClient.Handle | clients/web/src/api/websocket.ts:204-233 | every browser event, the start of a closing handshake included, with listeners that call the client back from inside it, is one step of the model |
| GatewayClient.StepKeeps | clients/web/src/api/websocket.ts:190-306 | each event keeps the invariant of the next row |
| GatewayClient.AlwaysSteady | clients/web/src/api/websocket.ts:96-306 | in every run, whatever listeners do: at most one socket has callbacks and it is the held one, of the current account and address; the running heartbeats are the held one; connected exactly while the heartbeat runs, which is from the opening of the socket until its close is announced, the closing handshake of the other side included; without a token no socket |
| GatewayClient.OneReconnectStaysIff | clients/web/src/api/websocket.ts:226-231 | pending reconnects stay the held one, and only over a closed socket, if and only if no listener of a close reconnects before it returns |
| GatewayClient.NoTimerLeaks | clients/web/src/api/websocket.ts:275-306 | so in every run without such a listener no timer leaks, and a null token means nothing is pending |
| GatewayClient.RenewingListenerLeaks | clients/web/src/api/websocket.ts:226-231 | after such a listener a plain close leaves a second timer pending that the client does not hold and disconnecting does not stop |
| GatewayClient.ListenerCanRenew | clients/web/src/api/websocket.ts:226-231 | signing in again from the listener is a concrete case |
| GatewayClient.NeverGivesUp | clients/web/src/api/websocket.ts:226-284 | in every run in which no listener of a close throws, a client with token and address is connected, connecting or about to reconnect |
| GatewayClient.ThrowingListenerGivesUpIff | clients/web/src/api/websocket.ts:226-231 | a throwing listener stops the retries exactly when the client is still signed in on the closed socket |
| GatewayClient.ListenerCanGiveUp | clients/web/src/api/websocket.ts:226-231 | a listener that throws at the first close is a concrete case |
| GatewayClient.DelaysDouble | clients/web/src/api/websocket.ts:275-284 | in every run the k-th scheduled reconnect in a row since the last open or connect waits min(1000 * 2^k, 30000) ms |
| GatewayClient.BackoffCeiling | clients/web/src/api/websocket.ts:278 | the delays are 1000, 2000, 4000, 8000 and 16000 ms, then 30000 from the fifth on |
| GatewayRules.ConnectRule | clients/web/src/api/websocket.ts:139-202 | signing in dials one new socket for the token and the address, with every older socket detached and every timer stopped |
| GatewayRules.DisconnectRule | clients/web/src/api/websocket.ts:145-148 | leaves no socket, heartbeat, retry or token |
| GatewayRules.SetServerUrlRule | clients/web/src/api/websocket.ts:129-137 | wss for https and ws otherwise, host and /ws; dialed at once when signed in |
| GatewayRules.OpenRule | clients/web/src/api/websocket.ts:204-209 | an open socket means connected, one new heartbeat and a fresh count |
| GatewayRules.CloseRule | clients/web/src/api/websocket.ts:226-284 | a close stops the heartbeat and schedules one retry when signed in |
| GatewayRules.FirstRetry | clients/web/src/api/websocket.ts:275-284 | the first retry after an open socket is lost waits 1000 ms |
| GatewayRules.RetryRule | clients/web/src/api/websocket.ts:280-284 | a retry dials the same address with the same token and keeps the count |
| TypingStore.Store.AddTypingUser | clients/web/src/stores/typingStore.ts:36-64 | a repeated start renews the time in place, a new one is appended |
| TypingStore.Store.RemoveTypingUser | clients/web/src/stores/typingStore.ts:66-82 | the user's entry goes |
| TypingStore.Store.ClearChannelTyping | clients/web/src/stores/typingStore.ts:84-93 | the channel's list goes |
| TypingStore.Store.CleanupExpired | clients/web/src/stores/typingStore.ts:104-119 | the sweep keeps what is under ten seconds old and drops empty channels |
| TypingStore.Store.GetTypingUsers | clients/web/src/stores/typingStore.ts:95-102 | the current entries without the own user |
| TypingStore.CurrentInOrder | clients/web/src/stores/typingStore.ts:95-102 | readers and sweeps keep the order: a list is filtered entry by entry |
| TypingStore.StepRefines | clients/web/src/stores/typingStore.ts:36-119 | every action keeps the lists a record of the last typing times |
| TypingStore.ShowsRecentStarts | clients/web/src/stores/typingStore.ts:36-119 | for a monotone clock and every run, the users shown are exactly those whose last start in the channel is under ten seconds old and not removed since, each once |
| TypingStore.SweepsAreInvisible | clients/web/src/stores/typingStore.ts:104-119 | adding or dropping sweeps anywhere never changes who is shown |
| Polls.Sum | server/src/handlers/polls.rs:71-78 | the sum of the grouped counts is the number of votes |
| Polls.Poll.FetchPoll | server/src/handlers/polls.rs:43-98 | each option with its number of votes, the total and the caller's vote |
| Polls.Poll.CastVote | server/src/handlers/polls.rs:245-290 | a vote for an unknown option is refused with 400 and a non-member with 404, otherwise it replaces the voter's last one and the answer shows every option with its votes after it |
| Polls.CountsAddUpIff | server/src/handlers/polls.rs:71-98 | the counts shown add up to the total if and only if every vote is for a listed option |
| Polls.CountsAddUp | server/src/handlers/polls.rs:245-290 | over every run of votes they do |
| Polls.RevoteMovesOne | server/src/handlers/polls.rs:266-276 | a re-vote moves exactly one unit between options |

## Left out

- MarkdownLossless.Lossless: claimed for text without U+E000, which the parser does not escape; for other text only `SpelledPlaceholderIsDropped` is shown.
- Lone UTF-16 surrogates: text is a sequence of Unicode characters, so a JavaScript string that is not valid Unicode is outside the model.
- `list_thread_replies` and forward paging of threads: its documentation speaks of older replies while its query returns newer ones in ascending order; no client code pages through it.
- Direct message paging and the DM store: the query and the reverse-and-prepend step are those of `Pagination` and `PagingRuns`; the re-sort of the channel list is not modelled.
- MessageStore.RepliesCountedOnce: counts are only claimed once the thread is cached and its root loaded; before that a repeated event is counted again, as `RedeliveryIsHarmlessIffCached` says.
- PagingCost.PagingEnds: assumes that commits are newer than everything in the table; rows committed into the past can make it take longer.
- Messages announced while the very first page is on its way: the page replaces them, and nothing is claimed about them.
- Hard deletion of messages, attachments, polls and events attached to messages, edits and pins.
- Role checks read the tables at one moment; a change between two SELECTs of the same handler is not modelled, a change between checks and write is.
- Kicking or banning a member while a role request is in flight, beyond the foreign key that refuses the grant.
- Membership and permission checks of the override endpoints are a parameter, and so are those of the voice and poll endpoints.
- Overrides that a role deletion leaves in the client's copy, and the client's mirror of its own permissions.
- A login mints its token and stores it in one step; the expiry purge and the cap on sessions are deletions like any other.
- RefreshLimits.DisabledUsersDoNotRefresh: a refresh that had read the user before the disabling can still succeed, as in the code.
- MarkdownRules.MarkupRules: for text without code; `InlineParts` and `FenceThenParts` extend it to text with inline codes and with one fenced block before them; for any other arrangement `FenceRule`, `InlineRule` and the opacity results hold.
- Signing and hashing are taken as injective, so a token is its claims; access tokens and bots are not modelled.
- GatewayClient.NoTimerLeaks: claimed only for listeners that do not reconnect while a close is announced, which `RenewingListenerLeaks` shows to be needed.
- A WebSocket constructor that throws, and what is sent over the socket.
- VoiceStates.EveryServerIsRebuilt: a statement and the broadcast that follows it are one step, and every client receives the events of its servers in order; failed member lookups of a broadcast are not modelled.
- The join time in a participant list: an existing entry keeps the one it came with, so lists are compared without it.
- Deletion of channels, users and servers with the rows that depend on them.
- Presence: a late cleanup still writes `offline` after a remove that changed nothing.
- Message channels of connections are queues by connection id; when a receiver drains its queue is not modelled.
- The name shown beside a typing user: a sweep can change which of two names is shown.
- Polls: malformed option entries are skipped by the server and absent here, and the statements of a tally read one snapshot.
- Accounts created per invite: the registration ignores whether its increment matched, so only counted registrations are claimed.
- Search and audit-log paging, moderation, administration, uploads, link previews, WebRTC, React components and the desktop and mobile shells.
