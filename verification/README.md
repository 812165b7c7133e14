# Verified model of the bot

aestival is a chat bot: a C++ core that talks to a language model on behalf of several agents, a
QQ gateway client, and a web management backend and frontend. This project models the parts of it
that hold state over time, and proves what they keep over every input, every interleaving and every
run. `dafny verify dfyconfig.toml` checks everything.

| file | what it models |
|---|---|
| Options, Sequences, ChatMessages | shared vocabulary |
| RowStore | the SQLite message table: stamps, ids, CHECK rules, NUL-terminated text |
| ChatContext | the conversation manager: appends, snapshot, success commit, fallback commit |
| Conversation | all interleavings of those steps on one conversation |
| ConversationRows | calls of the manager on the table as a refinement of those interleavings |
| ToolPairs | tool calls and their results through a summarisation |
| WorkerPool | one thread, queue and condition variable per conversation, as a transition system |
| AccountTables, Accounts | users, identities and passwords under the rules of the schema |
| OAuthState | one-time state tokens whose nonces are purged |
| RateLimiter, WebRateLimit | the two window limiters and their garbage collection |
| LogTail, LevelTail | the backward chunked log tail against the forward one, and its level filter |
| Crc32, Png | table-driven CRC-32 against the shift register; PNG writer against a reader |
| Utf8 | truncation at a character boundary, and one that misses it |
| BotConfig | the configuration loader and the redacting printer |
| PluginCache, PluginOrder | per-agent plugin switches behind a cache; registration and dispatch |
| QqTransport, TokenRefresh | the gateway connection and reconnect loop; token refresh generations |

Code that updates fields in place is a class whose methods are proved against functions of the old
state; loops are loops with invariants; the parts that interleave (Conversation, WorkerPool, TokenRefresh)
are transition systems whose steps are the critical sections of the code. Clocks, generated ids, the
model's answer, the compressor and what plugins do with a message are parameters.

Where the code falls short of what one might expect of it, the model follows the code, and the
lemmas named give the exact condition or an input that fails:

- An append lands inside the batch of a save made less than n milliseconds before it
  (`RowStore.AppendLandsLastIff`, `RowStore.AppendSoonAfterSave`). If that happens during a model call the
  message can be dropped, although a comment says that arrivals never are
  (core/src/chat_context_manager.cpp:138-139): `Conversation.SuccessSurvivesIff` and
  `Conversation.FallbackSurvivesIff` say which messages each commit keeps, and
  `ConversationRows.ArrivalCanBeLost` gives the runs that lose one.
- A clear during the model call is noticed by size only (`Conversation.ClearWinsIff`).
- An enqueue that races stop can lose its message (`WorkerPool.RacingEnqueueCanLose`,
  `WorkerPool.StopDeliversAllButLate`).
- The replay guard of state tokens relies on the purge reading the clock no later than the next whole
  second after the signature check (`OAuthState.PromptIsExact`).
- Both limiters admit up to twice their limit less one within one window length
  (`RateLimiter.BelowTwiceTheLimit`, `WebRateLimit.BelowTwiceTheLimit`, both reached); the core limiter
  admits exactly twice its limit only in intervals that begin within the first 60 s of its clock
  (`RateLimiter.TwiceTheLimitIff`).
- A level-filtered log tail of more than one chunk can miss matches further back than 2 * limit lines
  (`LogTail.ExactIffAtStop` for each chunk size, `LevelTail.ExactIffEnoughInView` for all together,
  `LevelTail.EveryChunkSizeMisses`).
- A failed token refresh is not retried before the run loop logs in again (`TokenRefresh.RefreshAliveIff`,
  `TokenRefresh.RefreshCanDie`).
- A summarisation can keep a tool result whose call it dropped (`ToolPairs.FoldKeepsPairsIff`,
  `ToolPairs.SummaryCanSplitPair`).
- The truncation of the MCP client can keep a lone lead byte (`Utf8.McpCutIsValidIff`,
  `Utf8.McpCutCanBreak`).
- Agent ids with colons can share cache keys (`PluginCache.KeysInjectiveIff`).
- A saved configuration loses secrets, timeouts and unusable entries (`BotConfig.SaveKeepsIff`); a
  comment in bot_config.cpp says a redacted value is kept, but the loader reads it as empty
  (core/config/bot_config.cpp:14-25).
- The comments of the reconnect loop speak of a 60 s maximum; the code never waits more than 48 s, and
  40 s between logins (platform/src/qq/run.cpp:22, platform/src/qq/run.cpp:54-56).
- The unlink documentation speaks of the only linked account; the code counts a password as a login
  method too (webui/backend/src/accounts.ts:319-338).

## Model

| member | source | states |
|---|---|---|
| RowStore.StorableMeansNulFree | core/include/chat_storage_sqlite.h:141-150 | The table keeps a message unchanged if and only if its role is one of the four the CHECK allows and its texts hold no NUL byte. |
| RowStore.StoredIsIdentity | core/include/chat_storage_sqlite.h:140-151 | A batch is read back as written if and only if every message of it is storable. |
| RowStore.StoredPointwise | core/include/chat_storage_sqlite.h:140-151 | A save keeps a batch message by message, in order: every text cut at its first NUL byte, and a message dropped when the role that leaves is none of the four. |
| RowStore.SortRowsSorts | core/include/chat_storage_sqlite.h:76-102 | ORDER BY created_at, id gives a permutation of the rows in strictly increasing (stamp, id) order. |
| RowStore.SaveThenQuery | core/include/chat_storage_sqlite.h:107-156 | Load after save is exactly the stored form of the batch, in order; no other conversation changes. The batch stamps now, now + 1, ... are what keeps the order. |
| RowStore.AppendThenQuery | core/include/chat_storage_sqlite.h:161-193 | A single-row append is inserted after exactly the messages of its conversation stamped no later than it; no other conversation changes. |
| RowStore.AppendLandsLastIff | core/include/chat_storage_sqlite.h:161-193 | The appended message is read back last if and only if no row of the conversation is stamped in the future of the append. |
| RowStore.AppendSoonAfterSave | core/include/chat_storage_sqlite.h:149-189 | The exact place of an append that follows a save of n messages within n - 1 milliseconds: between the messages of that batch, not after them. |
| RowStore.QueryIsStorable | core/include/chat_storage_sqlite.h:76-102 | What a load returns from a table built by these operations can be saved and loaded again unchanged. |
| RowStore.SqliteBackend.Load | core/include/chat_storage_sqlite.h:76-102 | The cursor loop returns the conversation in (stamp, id) order. |
| RowStore.SqliteBackend.Save | core/include/chat_storage_sqlite.h:107-156 | Replaces one conversation by the stored form of the batch, keeps the table invariant and every other conversation. |
| RowStore.SqliteBackend.InsertBatch | core/include/chat_storage_sqlite.h:140-151 | The insert loop: a message whose role fails the CHECK is skipped and uses up no id but its stamp. |
| RowStore.SqliteBackend.AppendMessage | core/include/chat_storage_sqlite.h:161-193 | Adds one row with the role, the sanitised nick and content, and the tool fields in their own columns, each cut at its first NUL byte, or nothing when the role fails the CHECK; a storable message the sanitiser leaves alone is stored as it is, and read back last when no row is stamped ahead. |
| RowStore.SqliteBackend.ClearMessages | core/include/chat_storage_sqlite.h:197-208 | Empties exactly one conversation. |
| RowStore.SqliteBackend.Count | core/include/chat_storage_sqlite.h:212-227 | The count is the length of what a load returns. |
| ChatContext.AbsorbsPrefix | core/src/chat_context_manager.cpp:210-217 | The accumulation loop consumes a prefix, its text is the carried text plus the joined contents of that prefix, and it stops exactly at the first message that would exceed the byte budget. |
| ChatContext.FallbackLosesNothing | core/src/chat_context_manager.cpp:195-234 | Every non-system message survives in order or its content is inside the new summary, the previous summary text leads it, the text is at most max(previous + 1, 1201) bytes, and the message count never grows. |
| ChatContext.FallbackKeepsSummaryText | core/src/chat_context_manager.cpp:203-226 | Whenever the fallback folds a list with a summary, the new summary is the text of the latest one, a newline, and the contents absorbed. |
| ChatContext.FallbackStartsSummary | core/src/chat_context_manager.cpp:203-226 | Without a summary in the list the new one is the contents absorbed and nothing else. |
| ChatContext.CommitKeepsSummaryText | core/src/chat_context_manager.cpp:165-182 | The same for the fallback commit, about the range it folds: the snapshot, or everything when no more is left than it counted. |
| ChatContext.CommitStartsSummary | core/src/chat_context_manager.cpp:165-182 | And for a range without a summary. |
| ChatContext.JoinedAppend | core/src/chat_context_manager.cpp:210-217 | The contents absorbed are joined with one space behind each, in order. |
| ChatContext.TotalBytesAdds | core/src/chat_context_manager.cpp:195-199 | The size of a list is the sum of its content sizes. |
| ChatContext.FallbackCount | core/src/chat_context_manager.cpp:221-232 | The counting behind that: the new summary replaces an old one or an absorbed message. |
| ChatContext.MeasureTotal | core/src/chat_context_manager.cpp:98-100 | The loop sums the content sizes. |
| ChatContext.FindCarried | core/src/chat_context_manager.cpp:204-209 | The backward search returns the carried text, which LatestIsCarried identifies. |
| ChatContext.LatestIsCarried | core/src/chat_context_manager.cpp:204-209 | The carried text is what the latest summary of the list summarises to, and a newline. |
| ChatContext.Absorb | core/src/chat_context_manager.cpp:210-217 | The accumulation loop returns its stopping index and text. |
| ChatContext.SummarizeIfNeeded | core/src/chat_context_manager.cpp:195-234 | The in-memory fallback computes the folded list, and leaves the list alone when it is small or nothing can be absorbed. |
| ChatContext.BuildReduced | core/src/chat_context_manager.cpp:140-162 | The three loops of the success path build prompts, new summary, recent non-system messages of the original range, and everything that arrived since. |
| ChatContext.FallbackIsStored | core/src/chat_context_manager.cpp:165-182 | The list a fallback commit builds from loaded messages passes the table unchanged: its summary text holds no NUL byte because what it was joined from holds none. |
| ChatContext.SuccessIsStored | core/src/chat_context_manager.cpp:132-164 | So does the list of a success commit, unless the summary itself holds a NUL byte. |
| ChatContext.ChatContextManager.Append | core/src/chat_context_manager.cpp:40-69 | Adds the message to the table field by field, sanitised and cut at NUL bytes, and as it is when it is storable and the sanitiser leaves it alone: the append ConversationRows takes; extends the conversation at its end when no row is stamped ahead. |
| ChatContext.ChatContextManager.AppendUser | core/src/chat_context_manager.cpp:40-44 | Stores a message of role user with that nick and content. |
| ChatContext.ChatContextManager.AppendAssistant | core/src/chat_context_manager.cpp:48-51 | Stores a message of role assistant with that content. |
| ChatContext.ChatContextManager.AppendTool | core/src/chat_context_manager.cpp:55-60 | Stores a tool result under the id of its call. |
| ChatContext.ChatContextManager.AppendAssistantWithToolCalls | core/src/chat_context_manager.cpp:64-69 | Stores an assistant message with its tool calls. |
| ChatContext.ChatContextManager.GetMessages | core/src/chat_context_manager.cpp:73-76 | Loads the conversation. |
| ChatContext.ChatContextManager.Snapshot | core/src/chat_context_manager.cpp:94-102 | The first critical section gives up at or under the byte limit and otherwise remembers the message count. |
| ChatContext.ChatContextManager.CommitSummary | core/src/chat_context_manager.cpp:127-164 | The second critical section on success, over the reloaded list: nothing on an empty summary or a shrunken list, else the reduced list (as stored, if the summary holds a NUL byte). |
| ChatContext.ChatContextManager.CommitFallback | core/src/chat_context_manager.cpp:165-182 | The second critical section after an exception: the loaded list is then exactly the fallback commit of the old one, which folds only the original range when the list has grown. |
| ChatContext.ChatContextManager.Clear | core/src/chat_context_manager.cpp:187-190 | Clears exactly one conversation. |
| Conversation.FoldFacts | core/src/chat_context_manager.cpp:140-162 | Folding a range keeps every user prompt in order, leaves one summary before the untouched tail, and keeps a suffix of the non-system messages. |
| ChatMessages.SummaryIff | core/src/chat_context_manager.cpp:25-29 | A system message is a summary if and only if it begins with the prefix, and a user prompt otherwise. |
| Conversation.PromptsAreKept | core/src/chat_context_manager.cpp:140-162 | A system message that is no summary outlives every append, snapshot and commit. |
| Conversation.FallbackFoldsIff | core/src/chat_context_manager.cpp:195-220 | The fallback changes a list if and only if it is larger than 65536 bytes and has a summary to carry on or a first non-system message of at most 1200 bytes. |
| Conversation.StepKeepsOnlySummaries | core/src/chat_context_manager.cpp:90-190 | Every append, wherever it lands, clear, snapshot and commit keeps: the only system message is a summary, and it stands first. |
| Conversation.AtMostOneSummary | core/src/chat_context_manager.cpp:90-190 | In every interleaving from an empty conversation, with one summarisation in flight and appends landing early or last, at most one summary and no other system message is ever held. |
| Conversation.NothingReappears | core/src/chat_context_manager.cpp:90-190 | In every interleaving the non-system messages held were all appended since the last clear, none more often than it was appended: what was dropped or cleared never comes back. |
| Conversation.StoreIsRecentSuffix | core/src/chat_context_manager.cpp:90-190 | While every append lands last, the non-system messages held are exactly the most recent ones appended since the last clear, in order and without gaps. |
| Conversation.WindowSurvives | core/src/chat_context_manager.cpp:90-183 | Messages that land last between snapshot and commit survive verbatim at the end on both paths; the success path puts prompts, the new summary and the non-system messages among the last ten of the snapshot before them. |
| Conversation.ClearWinsIff | core/src/chat_context_manager.cpp:132-135 | A clear during the model call makes the commit a no-op if and only if fewer messages than the snapshot count arrived since: the code compares sizes only. |
| Conversation.SuccessSurvivesIff | core/src/chat_context_manager.cpp:132-164 | Whatever was there at the snapshot and whatever has arrived since, early or last: a success commit keeps a message if and only if the summary is empty, the list has shrunk, or the message stands at or after ten before the snapshot count. So an arrival that lands early enough is dropped, against the comment at lines 138-139. |
| Conversation.FallbackSurvivesIff | core/src/chat_context_manager.cpp:165-182 | A fallback commit keeps a message verbatim if and only if it folds nothing or its accumulation stopped at or before the message, arrivals included. |
| Conversation.ArrivalSurvivesIff | core/src/chat_context_manager.cpp:132-164 | Hence a new message that arrives during the model call, whatever arrived before it, survives a success commit if and only if it lands at or after ten before the snapshot count. |
| ConversationRows.CallRefines | core/src/chat_context_manager.cpp:40-190 | Under a clock that never runs backwards, every call of the manager on the table, and anything done to other conversations, is a legal step of the conversation machine or none. |
| ConversationRows.RunRefines | core/src/chat_context_manager.cpp:40-190 | Hence after any calls the list loaded is the store of the machine after the steps seen. |
| ConversationRows.AtMostOneSummaryStored | core/src/chat_context_manager.cpp:40-190 | So no run of calls, however its stamps fall, leaves two summaries in a conversation that started empty. |
| ConversationRows.NothingReappearsInTable | core/src/chat_context_manager.cpp:40-190 | Over any run of calls, however its stamps fall, the non-system messages loaded were all appended since the last clear, none more often than it was appended. |
| ConversationRows.LoadedIsRecentSuffix | core/src/chat_context_manager.cpp:40-190 | Over any run of calls in which no append finds a row of the conversation stamped ahead of its clock, they are exactly the most recent ones, in order and without gaps. |
| ConversationRows.TimelyIsSeen | core/include/chat_storage_sqlite.h:186-189 | No append of a run finds a row stamped ahead if and only if the machine sees every append land last. |
| ConversationRows.EarlyArrivalIsLost | core/src/chat_context_manager.cpp:127-183 | From any conversation of n messages over the byte limit with nothing a fallback can absorb, a failed model call re-saves them stamped ahead, and a message that arrives during the next model call, at most n - 12 milliseconds later, is dropped by the summary. |
| ConversationRows.ArrivalCanBeLost | core/src/chat_context_manager.cpp:127-183 | Such a run exists, call by call and legal, from every empty conversation and for every such delay. |
| ConversationRows.NeverFirst | core/include/chat_storage_sqlite.h:137-150 | An append never lands before the first message, because a save stamps its first row with the time of the save. |
| ConversationRows.TimelyIff | core/include/chat_storage_sqlite.h:186-189 | An append is seen to land last if and only if no row of the conversation is stamped ahead. |
| ToolPairs.FoldKeepsPairsIff | core/src/chat_context_manager.cpp:140-162 | A folding commit keeps every tool result after its call if and only if no result at or after the cut answers a call made only before it. |
| ToolPairs.SuccessKeepsPairsIff | core/src/chat_context_manager.cpp:153-158 | For the success path the cut is ten messages before the end of the snapshot. |
| ToolPairs.FallbackKeepsPairsIff | core/src/chat_context_manager.cpp:210-232 | For the fallback the cut is where the accumulation stopped. |
| ToolPairs.SummaryCanSplitPair | core/src/chat_context_manager.cpp:153-158 | A conversation of eleven messages whose summary takes a call and leaves its result. |
| WorkerPool.StepKeepsInv | core/src/worker_pool.cpp:21-78 | Every critical section of enqueue, worker loop and stop keeps the invariant (FIFO conservation per slot, owed notifications, table and caller consistency). |
| WorkerPool.RunKeepsInv | core/src/worker_pool.cpp:21-78 | Hence every reachable state of every interleaving satisfies it. |
| WorkerPool.SerialPerConversation | core/src/worker_pool.cpp:37-78 | Per slot: pushed = processed ++ in flight ++ queued, in order; every event in it has the actor the slot is keyed by, or none and the key is global; at most one event per key is in flight. |
| WorkerPool.OneSlotPerActor | core/src/worker_pool.cpp:37-54 | In every reachable state two slots of the table that were given events of one actor are one slot, and no two events of one actor are in flight together. |
| WorkerPool.EventsArrive | core/src/worker_pool.cpp:37-60 | Over every run, what was pushed to a slot is what the enqueues that pushed to it were called with, in the order they pushed. |
| WorkerPool.NoLostWakeup | core/src/worker_pool.cpp:55-72 | In every reachable state a sleeping worker that should run is owed a notification by an enqueue or by stop. |
| WorkerPool.QueuedIsNotStuck | core/src/worker_pool.cpp:55-72 | A queued event of a live worker always leaves some step of its worker or a pending notification enabled. |
| WorkerPool.QueuedAdvances | core/src/worker_pool.cpp:62-78 | And it gets on: a step takes a ready worker to the first event of its queue, finishes the one it is at, or wakes it. |
| WorkerPool.StopDeliversAllButLate | core/src/worker_pool.cpp:21-35 | When stop may return, a slot has processed everything if and only if nothing was pushed to it after its worker exited. |
| WorkerPool.UnracedStopDrains | core/src/worker_pool.cpp:21-60 | If no enqueue is mid-way when stop starts and none begins later, stop returns only after everything pushed was processed, and no caller still holds a slot about to be destroyed. |
| WorkerPool.StopDrains | core/src/worker_pool.cpp:21-60 | In terms of the run alone: when every enqueue has returned before stop is called and none is called after, everything pushed is processed once stop can return. |
| WorkerPool.AllAreMarked | core/src/worker_pool.cpp:24-30 | When stop begins to join, every slot of the table has been told to stop. |
| WorkerPool.RacingEnqueueCanLose | core/src/worker_pool.cpp:42-59 | Without that condition delivery fails: a concrete reachable state in which stop returns with an undelivered event and a caller still holding the slot. |
| WorkerPool.JoiningProgress | core/src/worker_pool.cpp:31-34 | While stop joins, it can return or some worker can move. |
| WorkerPool.StoppingProgress | core/src/worker_pool.cpp:21-78 | From the first mark of stop to its return, some step of a worker or of stop itself is possible: stop never waits for an enqueue. |
| WorkerPool.StoppingStepUses | core/src/worker_pool.cpp:23-34 | From the first mark of stop on, every step of a worker, of stop or of an enqueue in progress uses up remaining work, and no enqueue can begin. |
| WorkerPool.StoppingTerminates | core/src/worker_pool.cpp:23-34 | Hence whatever workers and racing enqueues do, while stop marks, notifies and joins, a bounded number of steps is left before it can only return. |
| AccountTables.OpKeepsInv | webui/backend/src/accounts.ts:114-346 | Login, link, refresh, register, set-password, unlink and merge keep: unique usernames, unique identities, valid foreign keys, and at least one login method for every user. |
| AccountTables.OwnershipMoves | webui/backend/src/accounts.ts:114-346 | For every operation, exactly which identities each user owns afterwards. |
| AccountTables.RefreshStores | webui/backend/src/accounts.ts:133-163 | A known identity that logs in leaves its row with the new tokens, expiry and provider name under its old owner, identity and creation time, and its owner with the new avatar if there is one; nothing else changes. |
| AccountTables.SignUpStores | webui/backend/src/accounts.ts:180-206 | A sign-up adds one user and one row, with every field of the profile in its place. |
| AccountTables.LinkStores | webui/backend/src/accounts.ts:216-228 | A link adds one row of the current user, with every field of the profile in its place, and touches no user. |
| AccountTables.MergeStores | webui/backend/src/accounts.ts:255-317 | A merge changes the owner of the source rows and nothing else of them, removes the source and its password, and keeps name, password and avatar of the target, which takes the avatar of the source only when it has none. |
| AccountTables.UnlinkStores | webui/backend/src/accounts.ts:325-346 | An unlink removes one row and changes nothing else. |
| AccountTables.PasswordStores | webui/backend/src/credentials.ts:78-108 | Registration and password change store the given hash for that user alone. |
| AccountTables.OneOwner | webui/backend/src/db.ts:43-54 | An identity has at most one owner, and that owner exists. |
| AccountTables.Run | webui/backend/src/accounts.ts:114-346 | The invariant holds after any legal sequence of operations. |
| AccountTables.OwnerIsFollowed | webui/backend/src/accounts.ts:255-317 | Over any later history an identity stays with its owner, through merges, until that very identity is unlinked. |
| AccountTables.DecimalInjective | webui/backend/src/accounts.ts:75-80 | Different counters print differently. |
| AccountTables.DecimalReadsBack | webui/backend/src/accounts.ts:75-80 | A printed counter is a numeral without leading zeros that reads back as the counter. |
| AccountTables.AssignedNameIs | webui/backend/src/accounts.ts:62-83 | The assigned name is the base when it is free, and base-2 when only that is. |
| AccountTables.AssignedNumber | webui/backend/src/accounts.ts:75-83 | Otherwise it is the base, a dash and the numeral of the least number from 2 on that is free. |
| AccountTables.NumberedInjective | webui/backend/src/accounts.ts:75-80 | Different counters give different candidate names. |
| Accounts.IdentityKeyInjective | webui/backend/src/accounts.ts:279-286 | The provider:id key of the merge loop tells all identities apart. |
| Accounts.AuthDb.InsertUser | webui/backend/src/db.ts:36-41 | The insert fails exactly on a duplicate id or username. |
| Accounts.AuthDb.InsertOAuth | webui/backend/src/db.ts:43-54 | The insert fails exactly on a duplicate id or identity, or a missing user. |
| Accounts.AuthDb.DeleteUser | webui/backend/src/accounts.ts:308 | Deleting a user cascades to its identities and its password and to nothing else. |
| Accounts.AuthDb.UniqueUsername | webui/backend/src/accounts.ts:62-83 | The search terminates (every refused candidate is a different existing name) with the base if it is free, else the least free numbered name. |
| Accounts.AuthDb.FindOrCreateUser | webui/backend/src/accounts.ts:114-228 | For a known identity, a new one and a link, with or without a current user: the exact result with the user as the table has it, the row written field by field, and which table effect takes place. |
| Accounts.AuthDb.LogInKnown | webui/backend/src/accounts.ts:133-176 | The branch of a known identity: tokens and avatar, and the conflict with the current user. |
| Accounts.AuthDb.MergeAccounts | webui/backend/src/accounts.ts:255-317 | Fails exactly on a self-merge or a missing user, changing nothing; otherwise the target owns the union, the source is gone, and every source row was moved, none deleted as a duplicate. |
| Accounts.AuthDb.MoveIdentities | webui/backend/src/accounts.ts:283-297 | The merge loop, in any row order: rows are moved or, if their identity is already among the keys, removed; what is removed always has a twin. |
| Accounts.NothingRemoved | webui/backend/src/accounts.ts:286-288 | Under UNIQUE(provider, provider_user_id) no row has a twin, so the duplicate branch is never taken. |
| Accounts.MergeResolvesConflict | webui/backend/src/accounts.ts:133-183 | After a reported link conflict, merging the other account into the current one gives the identity to the current user. |
| Accounts.AuthDb.UnlinkAccount | webui/backend/src/accounts.ts:325-346 | Refuses exactly when it would remove the only login method; otherwise removes the oldest row of the provider, or fails when there is none, changing nothing. |
| Accounts.AuthDb.FindOldest | webui/backend/src/accounts.ts:340 | The search picks an oldest linked row of the provider. |
| Accounts.AuthDb.RegisterWithPassword | webui/backend/src/credentials.ts:78-108 | Fails exactly when the name is taken, changing nothing; otherwise creates the user with a password. |
| Accounts.AuthDb.StorePassword | webui/backend/src/credentials.ts:191-200 | Upserts the password, and fails exactly when the user is missing. |
| OAuthState.NonceTable.PurgeExpiredNonces | webui/backend/src/oauth.ts:35-40 | The loop removes exactly the nonces past their expiry. |
| OAuthState.NonceTable.VerifyState | webui/backend/src/oauth.ts:62-82 | Accepts exactly an authentic, unexpired token whose nonce is not remembered after the purge, and remembers it. |
| OAuthState.PurgingIsInvisible | webui/backend/src/oauth.ts:32-82 | With prompt purges, every decision equals that of a table that never forgets. |
| OAuthState.AcceptedAtMostOnce | webui/backend/src/oauth.ts:57-82 | Then no token is accepted twice in any run. |
| OAuthState.PromptIsExact | webui/backend/src/oauth.ts:35-40 | The condition on the clock reads of a call is exact: a replay can be accepted for some issue time if and only if the purge reads the clock past the next whole second after the signature check. |
| RateLimiter.PolicyEngine.CheckLlmCall | core/src/policy_engine.cpp:139-187 | The decision and the new table of a check, and that the collection never evicts the entry of the caller. |
| RateLimiter.DecisionIs | core/src/policy_engine.cpp:149-170 | Decision and entry of the caller in plain numbers: a window of 60 s counts up to the limit, and a new one begins when it is over or the clock is a second or more behind its start. |
| RateLimiter.CollectionIs | core/src/policy_engine.cpp:173-181 | Past 1000 actors an admitted call drops exactly the others idle for 120 s. |
| RateLimiter.PolicyEngine.CollectStale | core/src/policy_engine.cpp:173-182 | The erase-while-iterating loop removes exactly the entries older than 120 s. |
| RateLimiter.CollectingIsInvisible | core/src/policy_engine.cpp:154-184 | For every run with a monotone clock, the decisions equal those of a limiter that never collects. |
| RateLimiter.AtMostTwiceTheLimit | core/src/policy_engine.cpp:154-172 | Any half-open interval of 60 s admits at most twice the limit per actor, collection included. |
| RateLimiter.BelowTwiceTheLimit | core/src/policy_engine.cpp:154-172 | An interval with no check in the first 60 s of the clock admits at most 2 * max - 1: the check that opened the earlier window is not in it. |
| RateLimiter.TwiceTheLimitIff | core/src/policy_engine.cpp:154-172 | Some run admits exactly 2 * max in the interval that begins at a given time if and only if it begins within the first 60 s of the clock, after its start: there the default entry lends a window nobody opened. |
| RateLimiter.BelowTwiceIsReached | core/src/policy_engine.cpp:154-172 | For every limit and every interval that begins later, some run admits exactly 2 * max - 1. |
| WebRateLimit.Limiter.Handle | webui/backend/src/index.ts:60-73 | The answer to a request and the new table. |
| WebRateLimit.Limiter.PurgeStale | webui/backend/src/index.ts:51-56 | The timer loop removes exactly the entries past their reset time. |
| WebRateLimit.PurgingIsInvisible | webui/backend/src/index.ts:47-73 | Purging at any times changes no answer. |
| WebRateLimit.BelowTwiceTheLimit | webui/backend/src/index.ts:47-73 | Any half-open interval one window long lets at most 2 * maxRequests - 1 requests of a key through, whenever the purges run. |
| WebRateLimit.BelowTwiceIsReached | webui/backend/src/index.ts:60-73 | For every limit and every window of at least two milliseconds some run reaches that bound. |
| LogTail.SplitConcat | webui/backend/src/logs.ts:63-68 | Splitting a concatenation joins the last piece of one with the first piece of the other. |
| LogTail.UnsplitUndoesSplit | webui/backend/src/logs.ts:63-64 | Splitting at newlines loses nothing. |
| LogTail.TrimIs | webui/backend/src/logs.ts:70-71 | Trimming takes blanks off both ends and leaves none there. |
| LogTail.KeptOne | webui/backend/src/logs.ts:69-75 | A piece is listed, trimmed, unless it is blank throughout. |
| LogTail.ScanStep | webui/backend/src/logs.ts:60-76 | One backward step: splitting chunk + leftover extends the listing in front, exactly as splitting the longer tail would. |
| LogTail.TailIsExact | webui/backend/src/logs.ts:77-90 | Whether the scan stopped early or reached the start, the last lines listed are the last lines of the file. |
| LogTail.ScanBackward | webui/backend/src/logs.ts:54-85 | The chunk loop lists exactly what the scan is defined to list. |
| LogTail.ScanStops | webui/backend/src/logs.ts:54-85 | Every scan stops at the first chunk edge from the end with 2 * limit whole lines behind it, or at the beginning of the file, and lists what stands there. |
| LogTail.PlainTailIsExact | webui/backend/src/logs.ts:44-90 | Without a level the tail is the last limit lines of the file, for every chunk size. |
| LogTail.EnoughIsExact | webui/backend/src/logs.ts:46-52 | With enough in view a filtered tail is exact wherever the scan stops: a match in the fragment it stopped in would be a match in a whole line further back. |
| LogTail.LevelTailIsExact | webui/backend/src/logs.ts:32-93 | With a level the tail is exact for every chunk size when the last 2 * limit lines hold as many matches as asked for, or all there are. |
| LogTail.ManyMatchesAreExact | webui/backend/src/logs.ts:46-52 | More matches listed than asked for are the last matches of the whole file, although the oldest line listed may be a fragment. |
| LogTail.ShortFileIsListed | webui/backend/src/logs.ts:44-90 | A file of fewer than 2 * limit lines is listed whole. |
| LogTail.ExactIffAtStop | webui/backend/src/logs.ts:32-93 | For every single chunk size, 65536 included: the filtered tail is exact if and only if, where the scan stops, the whole lines hold as many matches as asked for, or the fragment adds to them exactly the matches that the lines in front would. |
| LogTail.OneChunkIsListed | webui/backend/src/logs.ts:40-60 | A file of at most one chunk is listed whole, however many lines it has. |
| LevelTail.ExactIffEnoughInView | webui/backend/src/logs.ts:76-82 | The filtered tail is exact for every chunk size if and only if the last 2 * limit lines of the file hold as many matches as asked for, or all there are. |
| LevelTail.EveryChunkSizeMisses | webui/backend/src/logs.ts:76-82 | For every chunk size, 65536 included, and every limit there is a log with a matching line of which the reader returns nothing. |
| LogTail.ReadLogTail | webui/backend/src/logs.ts:32-93 | The reader: exact without a level for every file, limit and chunk size; with a level exact if and only if it is so where the scan stops, in particular for every file of one chunk, when the last 2 * limit lines hold as many matches as asked for or all there are, or when more matches than the limit are reported. |
| LogTail.ReadLogLines | core/src/management_api.cpp:447-468 | The forward reader returns the last limit matching lines. |
| LogTail.ReadersAgreeIff | webui/backend/src/logs.ts:32-93 | The two readers list the same lines of a file if and only if no line is empty and none after the first has surrounding whitespace. |
| Crc32.LowByteDecides | webui/frontend/scripts/generate-icons.mjs:39 | Eight register steps are the table entry of the low byte xor the register shifted by a byte. |
| Crc32.FeedIsShift | webui/frontend/scripts/generate-icons.mjs:39 | Feeding message bits one at a time is xoring them in and shifting. |
| Crc32.BuildTable | webui/frontend/scripts/generate-icons.mjs:24-34 | The table holds, for every byte, eight register steps from it. |
| Crc32.ComputeCrc | webui/frontend/scripts/generate-icons.mjs:36-42 | For every byte sequence the table-driven loop computes the bit-serial CRC of section 5.5 of the PNG specification. |
| Crc32.SingleByteChangeDetected | webui/frontend/scripts/generate-icons.mjs:36-42 | Changing any one byte of any message changes its CRC. |
| Crc32.CrcOfEnd | webui/frontend/scripts/generate-icons.mjs:24-42 | The CRC of the letters IEND is AE426082, which fixes polynomial, bit order and complements. |
| Png.ReadBack | webui/frontend/scripts/generate-icons.mjs:46 | Reading a big-endian number back gives the number, for every width. |
| Png.ParseUndoesChunk | webui/frontend/scripts/generate-icons.mjs:44-51 | A chunk reader recovers type and data of every chunk, whatever follows it. |
| Png.DamageIsDetected | webui/frontend/scripts/generate-icons.mjs:44-51 | One wrong byte anywhere after the length field makes the reader refuse the chunk. |
| Png.MakeChunk | webui/frontend/scripts/generate-icons.mjs:44-51 | Builds the chunk, or fails exactly when the length does not fit 32 bits. |
| Png.Copy | webui/frontend/scripts/generate-icons.mjs:65 | A buffer copy is refused exactly when it starts past its source, and cut when it ends past it. |
| Png.FillRows | webui/frontend/scripts/generate-icons.mjs:62-66 | The row loop fills the zeroed buffer with the scanlines of the image, zero where the pixels run out, and fails exactly when a row starts past the pixels. |
| Png.BuildRaw | webui/frontend/scripts/generate-icons.mjs:60-66 | The buffer of the right size, so filled. |
| Png.UnfilterUndoesScanlines | webui/frontend/scripts/generate-icons.mjs:62-66 | Reading filter-0 scanlines recovers the pixels. |
| Png.ParseUndoesCompose | webui/frontend/scripts/generate-icons.mjs:68-73 | A file reader recovers header and compressed data from the signature and the three chunks. |
| Png.EncodePng | webui/frontend/scripts/generate-icons.mjs:53-73 | The encoder writes exactly that file, and fails exactly when a dimension or the compressed size does not fit its field or the pixels end before the last row. |
| Png.DecodeUndoesEncode | webui/frontend/scripts/generate-icons.mjs:53-73 | With any compressor that its decompressor undoes, decoding an encoded file gives width, height and every pixel byte if and only if no dimension is zero. |
| Png.FileLayout | webui/frontend/scripts/generate-icons.mjs:44-73 | The bytes of a file: signature, length 13 and IHDR with dimensions and format, length and IDAT with the compressed rows, and the twelve bytes of the end chunk. |
| Png.Be32Bytes | webui/frontend/scripts/generate-icons.mjs:46 | Numbers are written most significant byte first. |
| Png.RawImageAt | webui/frontend/scripts/generate-icons.mjs:60-66 | Row y of the raw image is a zero and the 4 * width bytes of the pixel buffer from 4 * width * y on, zeros where it has ended. |
| Png.FullBufferComesBack | webui/frontend/scripts/generate-icons.mjs:53-73 | In particular a full RGBA buffer comes back byte for byte. |
| Utf8.BoundaryIff | core/src/agent_controller.cpp:24-35 | In valid UTF-8 the valid prefixes are exactly those that end before a byte that is no continuation byte, and the whole. |
| Utf8.BoundaryIsNear | core/src/agent_controller.cpp:24-35 | No four consecutive bytes of valid UTF-8 are all continuation bytes. |
| Utf8.SafeTruncate | core/src/agent_controller.cpp:24-35 | For every valid text and bound the kept prefix is valid, within the bound, the longest such prefix, and at most three bytes short when it cuts; for any bytes, where the loop stops. |
| Utf8.ValidConcat | core/src/agent_controller.cpp:273-276 | Valid texts concatenate to valid text, so the truncation marker may follow. |
| Utf8.CutIsValid | core/src/agent_controller.cpp:273-276 | In particular a kept prefix followed by the ASCII marker is valid. |
| Utf8.CapToolContent | core/src/agent_controller.cpp:271-277 | The stored tool output is valid whenever the output was, unchanged within the bound, and at most bound plus marker long. |
| Utf8.McpTruncate | core/src/mcp_client.cpp:26-43 | The truncation of the MCP client: at the last newline past the middle, else back to the last byte that is no continuation byte, which is kept. |
| Utf8.McpCutAtNewline | core/src/mcp_client.cpp:26-43 | A text too long is cut at the last newline past the middle of what fits. |
| Utf8.McpCutAtByte | core/src/mcp_client.cpp:26-43 | Without one it is cut behind the last byte of what fits that is no continuation byte. |
| Utf8.McpCutIsValidIff | core/src/mcp_client.cpp:26-43 | Cutting valid text this way gives valid text if and only if it is cut at a newline, cut to nothing, or the last byte kept is ASCII. |
| Utf8.McpCutCanBreak | core/src/mcp_client.cpp:35-42 | A character whole within the bound can lose its last byte. |
| BotConfig.AgentReadsBack | core/config/bot_config.cpp:48-127 | Parsing a printed agent object gives the normal form of the agent. |
| BotConfig.ServerReadsBack | core/config/bot_config.cpp:97-124 | Parsing a printed server object gives the server with default timeouts. |
| BotConfig.LoadUndoesToJson | core/config/bot_config.cpp:164-329 | For every configuration, load after print is the stated normal form if some agent has an id, and the error for no agents otherwise. |
| BotConfig.SaveKeepsIff | core/config/bot_config.cpp:164-329 | A configuration comes back unchanged if and only if it has agents, all with ids, no secrets, no "***" app id, only usable servers with default timeouts, and is not legacy. |
| BotConfig.SaveLoadIsIdempotent | core/config/bot_config.cpp:164-336 | The normal form is a fixpoint of save and load. |
| BotConfig.PrintHidesSecrets | core/config/bot_config.cpp:228-247 | The printed text does not depend on what the secrets are, only on which are empty. |
| BotConfig.LoadIsWellFormed | core/config/bot_config.cpp:164-211 | Whatever the file, an accepted one yields at least one agent, all with ids, all servers usable, and saving it gives a file that loads again. |
| BotConfig.AgentLoadsIff | core/config/bot_config.cpp:48-128 | An agent object loads if and only if its members, where present, have the right types. |
| BotConfig.AgentMembersAre | core/config/bot_config.cpp:51-89 | Every plain member of a loaded agent is the one of that name in the file, or its default. |
| BotConfig.AgentSectionsAre | core/config/bot_config.cpp:57-82 | So are the members of its sections, where a redacted secret reads as empty. |
| BotConfig.SelfIterationIs | core/config/bot_config.cpp:92-97 | And those of the self-iteration section. |
| BotConfig.ServerMembersAre | core/config/bot_config.cpp:103-123 | A loaded server has the members of the file, its timeouts included when they are numbers, and 30 s and 60 s otherwise. |
| BotConfig.GlobalMembersAre | core/config/bot_config.cpp:131-150 | The global settings come from their own object or, in older files, from the top. |
| BotConfig.CollectsIff | core/config/bot_config.cpp:178-187 | A list loads if and only if every item does, and fails with the error of the first that does not. |
| BotConfig.ListLoads | core/config/bot_config.cpp:176-203 | A file with a list of agents gives those with an id, in order, and is refused when there is none. |
| BotConfig.FlatLoads | core/config/bot_config.cpp:189-198 | A flat file is one agent, named default where it says nothing. |
| BotConfig.NormalKeeps | core/config/bot_config.cpp:213-304 | What a save and a load keep of an agent, member by member: everything but secrets and timeouts of its usable servers. |
| BotConfig.ParseStringArray | core/config/bot_config.cpp:35-44 | The loop keeps the strings of an array and skips the rest. |
| BotConfig.ParseServers | core/config/bot_config.cpp:97-124 | The loop keeps the usable servers, skips other items, and fails on the first ill-typed one. |
| BotConfig.ParseAgents | core/config/bot_config.cpp:175-190 | The loop keeps the agents that have an id, skips other items, and fails on the first ill-typed one. |
| BotConfig.PrintAgents | core/config/bot_config.cpp:220-304 | The loop prints every agent in order. |
| PluginCache.AgentTable.Upsert | core/include/plugin_config_sqlite.h:245-273 | Sets the switch of one row; the configuration changes only when one is given. |
| PluginCache.AgentTable.SetConfig | core/include/plugin_config_sqlite.h:86-92 | Sets the configuration of one row under its current switch. |
| PluginCache.AgentTable.QueryEnabled | core/include/plugin_config_sqlite.h:171-192 | The stored switch, or the fallback without a row. |
| PluginCache.AgentTable.QueryConfig | core/include/plugin_config_sqlite.h:217-243 | The stored object, or an empty one. |
| PluginCache.PluginManager.IsPluginEnabled | core/include/plugin_manager.h:54-67 | The answer and the cache after it. |
| PluginCache.PluginManager.EnablePlugin | core/include/plugin_manager.h:76-82 | Cache and stored row after enabling. |
| PluginCache.PluginManager.DisablePlugin | core/include/plugin_manager.h:84-90 | Cache and stored row after disabling. |
| PluginCache.CoherentIffConflictFree | core/include/plugin_manager.h:54-90 | Over any sequence of enables, disables, questions and configuration writes, with or without a backend and from any stored rows, every answer is the last setting of exactly that agent and plugin (else the stored one, else on) if and only if no two names in use share a cache key or a row. |
| PluginCache.SwitchIsLast | core/include/plugin_manager.h:54-90 | The meaning in plain terms: the last enable or disable of exactly that plugin decides, and without one the stored switch, or on. |
| PluginCache.ConfigIsLast | core/include/plugin_config_sqlite.h:78-92 | The configuration shown is the last one set for exactly that plugin, if it is an object. |
| PluginCache.KeysInjectiveIff | core/include/plugin_manager.h:164-171 | Cache keys tell all plugins of a set of agents apart if and only if no agent id is another followed by a colon or begins with another followed by two colons. |
| PluginCache.PlainNamesAreCoherent | core/include/plugin_manager.h:54-90 | Colon-free agent ids and NUL-free names are always coherent. |
| PluginCache.SwitchAndConfigAreIndependent | core/include/plugin_config_sqlite.h:72-92 | Setting a switch never changes a stored configuration, and setting a configuration never changes a switch, whatever the names. |
| PluginCache.ConfigIsItsOwn | core/include/plugin_config_sqlite.h:78-92 | Over any run a stored configuration is the last one set for exactly that agent and plugin. |
| PluginCache.AskKeepsAnswers | core/include/plugin_manager.h:54-67 | Asking about one plugin of an agent changes no answer about that agent, although it fills the cache. |
| PluginCache.PluginManager.RegisterPlugin | core/include/plugin_manager.h:26-43 | Refuses a duplicate name, otherwise sorts the plugin in. |
| PluginCache.PluginManager.DispatchMessage | core/include/plugin_manager.h:119-154 | Calls exactly the willing plugins in list order down to the first that stops the message, and reports whether any handled it. |
| PluginCache.StopEndsDispatch | core/include/plugin_manager.h:136-148 | Whatever plugins follow the one that stops a message, none of them is called. |
| PluginCache.DispatchFollowsSwitches | core/include/plugin_manager.h:119-134 | After any run, the plugins a dispatch considers are those last switched on for that agent. |
| PluginOrder.StableSortIsStable | core/include/plugin_manager.h:39-41 | The sort keeps the order within every priority. |
| PluginOrder.RegistrationOrder | core/include/plugin_manager.h:26-43 | Whatever is registered in whatever order, the list holds the first request for each name, in falling priority, ties in registration order. |
| PluginOrder.CallsEndAtStop | core/include/plugin_manager.h:144-147 | The calls are a prefix of the willing plugins that ends with the first stop. |
| QqTransport.AtMostOneSent | platform/src/qq/transport.cpp:69-88 | A connection sends at most one identify or resume, and one exactly when a Hello came. |
| QqTransport.FirstHelloIsAnswered | platform/src/qq/transport.cpp:69-88 | A connection answers its first Hello: a resume of the session id it began with at the number of the last numbered frame up to that Hello, or an identify when it began without an id. |
| QqTransport.SidIsTheLatest | platform/src/qq/transport.cpp:97-115 | The session id is what the last READY with an id or invalid session made it. |
| QqTransport.SeqIsTheLatest | platform/src/qq/transport.cpp:65-67 | After any frames the sequence number is that of the last frame that counts and has one, or the starting number when none has. |
| QqTransport.ResumesIffLatest | platform/src/qq/transport.cpp:33-140 | After any connections, the next one resumes session id at number v if and only if a Hello comes, the last frame of the whole history to set or clear the id was the READY that set it to id, and v is the number of the last numbered frame of the history and of the connection up to its first Hello. |
| QqTransport.IdentifiesIff | platform/src/qq/transport.cpp:33-140 | It identifies if and only if a Hello comes and no READY of the history is still in force. |
| QqTransport.ActedIsUpToEnd | platform/src/qq/transport.cpp:50-144 | A connection acts on its frames up to and including the first broken one, invalid session or request to reconnect. |
| QqTransport.IdentifiesAfterInvalid | platform/src/qq/transport.cpp:97-100 | After an invalid session every connection identifies until a READY brings a new id. |
| QqTransport.Session.RunWebsocket | platform/src/qq/transport.cpp:33-166 | The frame loop: what is sent, and session id and sequence number afterwards, for every frame sequence. |
| QqTransport.Session.Run | platform/src/qq/run.cpp:12-70 | The reconnect loop over any outcomes: delays from consecutive login failures and connections made, and every connection in the state its predecessors left. |
| QqTransport.RunIsRoundByRound | platform/src/qq/run.cpp:12-70 | What a run does, round by round: the wait after a failed login goes by the failures in a row, a failed gateway request waits 5 s, a connection is followed by a wait that goes by the connections made. |
| QqTransport.DelaysDouble | platform/src/qq/run.cpp:22 | Delays double up to 40 s for logins and 48 s for reconnects. |
| TokenRefresh.StepKeepsInv | platform/src/qq/auth.cpp:57-141 | Every step of logins, timer loops, stop and start keeps: loops and refresh logins of distinct generations, none newer than the counter, and every refresh login started in flight, failed or in the past. |
| TokenRefresh.AtMostOneNewest | platform/src/qq/auth.cpp:84-94 | In every reachable state at most one loop is of the newest generation. |
| TokenRefresh.StaleNeverLogsIn | platform/src/qq/auth.cpp:136-141 | A generation overtaken before it refreshed never refreshes, whatever happens next. |
| TokenRefresh.StopSilences | platform/src/qq/auth.cpp:57-141 | After a stop no login starts, of the run loop or of a refresh, until the session is started again. |
| TokenRefresh.OneRefreshPerGeneration | platform/src/qq/auth.cpp:84-141 | Each generation starts at most one refresh login, so there are never more of them than successful logins. |
| TokenRefresh.RefreshAliveIff | platform/src/qq/auth.cpp:84-141 | While the session keeps running after a successful login, a live loop of the newest generation or its refresh login in flight exists if and only if that refresh login has not failed. |
| TokenRefresh.RefreshCanDie | platform/src/qq/auth.cpp:136-141 | A run without a stop after which no loop and no login is left: the result of the refresh login is ignored and nothing re-arms the timer. |

## Left out

- Accounts.AuthDb.FindOrCreateUser: generated UUIDs are assumed not to be in use; access tokens are opaque, and the created_at column of a new user is not modelled.
- Accounts.AuthDb.RegisterWithPassword: the name arrives trimmed and the password hashed; the generated UUID is assumed not to be in use.
- Accounts.AuthDb.UnlinkAccount: among rows of one provider with equal creation time any may be the oldest.
- Conversation, WorkerPool and TokenRefresh are transition systems, not objects with threads: what runs inside one critical section, or between two suspensions of a coroutine, is one step.
- ConversationRows: appended messages are storable and already sanitised, and summaries hold no NUL byte; RowStore and ChatContext say what happens otherwise.
- WorkerPool: one call of stop at a time; how long other enqueues keep stop from taking the map mutex (its first mark is always possible); the model call inside a worker ends; a push or notification on a slot that stop has already destroyed is not modelled (the step is not enabled); slot count and queue depth are read-only sums.
- ChatContext: the text of the summary prompt and its 8192-byte cut, the token statistics, and failing SQLite statements, transactions and schema migration.
- RowStore: the UTF-8 sanitiser of a single-row insert is an arbitrary function; a save does not use it, as in the code.
- OAuthState: signatures; a token is known by its nonce and issue time, and session tokens signed with the same secret are not modelled.
- RateLimiter: the daily token counters and their reset are one flag of a check; manual resets, clocks that run backwards (the code restarts the window), and the other checks of the policy engine.
- LogTail: reading of bytes as UTF-8 across chunk edges; files are sequences of single-byte characters. File errors and the path guard.
- Png: memory limits of a buffer; the decoder accepts only the subset the encoder writes (one data chunk, filter 0, no interlace). The icon drawing itself.
- BotConfig: JSON text; a configuration is the value its text denotes, strings are assumed printable as UTF-8, member names are those the program looks for or any other, and numbers with a fraction or exponent are not modelled. File errors and warnings.
- PluginCache: the per-user switch table (a parameter of dispatch), replacing the backend while in use, failing SQLite statements, capabilities and receipts of plugins, and the plugin listing.
- QqTransport: heartbeats, payload fields other than session id and sequence, writes that fail (the frames end there), and stopping and restarting a session.
- TokenRefresh: the value of the token, the refresh delay, and overflow of the generation counter.
- ToolPairs: the JSON of a tool call list; which ids a text lists is a parameter.
- Sockets, TLS, HTTP, subprocesses, cryptography, regular expressions, React pages, route wiring, QQ REST wrappers, system monitor and deploy scripts.
