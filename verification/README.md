# Copilot-Bridge gateway: a verified model of its state

The gateway keeps conversations alive across many upstream accounts. This project models the parts of it
that hold state and decide things, and proves what they keep over every input, every step and every run:

- **The response-session forest** (`Forest`, `Pruning`, `PrunePhases`, `SessionStore`, `CommitCases`,
  `ResponseSession`, `ResponseThread`, `LegacyStore`). Each stored response is a full transcript or a link "parent,
  drop, delta"; a stable head names the latest one. Committing, binding, pruning, deleting, rebasing, compacting and
  rolling back all rewrite this forest. The proofs show that the compressed forest agrees with the simple map from
  ids to histories: a commit settles what its target (and an advanced head) reads, and no operation changes what
  any other surviving record reads.
- **Trimming that stays inside the tool protocol** (`Chat`, `ToolProtocol`, `Compaction`, `Portable`,
  `PortableCases`, `SanitizedProtocol`, `PromptBudget`, `PromptCases`). The recogniser of tool conversations accepts
  exactly a declarative grammar; the proofs say for each way of sanitising and trimming when it preserves that
  grammar.
- **The Responses event stream** (`ResponseStream`, `StreamEnds`). A transducer from upstream input to numbered
  events, checked against a strict client that replays the whole log.
- **Account routing and health** (`AccountHealth`, `AccountRouter`, `BindingSafety`). A compare-and-swap
  pointer with a generation, health deadlines as a join of signals, and bindings that are read and written in
  two separate steps.
- **Single-flight token refresh** (`TokenRefresh`, `TokenStore`, `OneTimeTokens`), an interleaving protocol over
  one-time refresh tokens (section 6 of RFC 6749).
- **Two guards**: the ref-counted keyed lock (`KeyedLock`) and the placeholder guard of streams
  (`PlaceholderGuard`).

Code that updates fields is modelled as classes and methods with loops; each method is tied to a function or a
predicate on values, about which the lemmas speak. Protocols between threads are modelled as step relations on
worlds with program counters; the classes of `BindingSafety`, `TokenStore` and `KeyedLock` take exactly those
steps, one atomic action per method, so the results over all runs hold of every interleaving of their calls.
The functions that specify a step are in turn pinned down by statements that do not mention them, on raw times,
sizes, ids and messages (`CommitCases`, `PrunePhases`, `PortableCases`, `PromptCases`, `StreamEnds`, and the clauses of the methods).
What the environment decides is a parameter: the outcome of each file write, the clock, serialised message
sizes, token counts, upstream answers. Text is a sequence of Unicode characters with its length in UTF-8 bytes,
and its compaction to a number of bytes is part of the model (`Compaction`).

Seven places where the code does not meet what one would expect of it, with the exact condition and an input:

- Advancing a stable head that is itself a response alias ties a two-record cycle (`Forest.CommitSoundIff`).
  Loading an old store can make a thread's head such an alias, and then one turn makes all of the thread
  unreadable (`LegacyStore.LegacyHeadCycles`).
- Without a user message the history trimmer cuts between messages: it keeps the longest suffix that fits, or
  the last message, and that is an accepted tool conversation exactly when it does not begin with a tool result
  (`Portable.BoundWithoutUser`, `Portable.ResultOrphaned`).
- Calls that still wait for their results are lost in trimming exactly when the unit that makes them does not
  fit beside the last user message (`Portable.BoundKeepsOpenCalls`, `Portable.OpenCallLost`).
- Sanitising cuts an assistant message to 64 calls, drops calls without a name, shortens ids and respells roles,
  but keeps every tool result. If all who make calls spell their role as the protocol does, an accepted
  conversation stays accepted exactly when no call is lost, the shortened ids stay distinct and no result hides
  behind another spelling of its role (`SanitizedProtocol.SanitizeKeepsProtocolIff`,
  `SanitizedProtocol.UnnamedCallBreaks`, `SanitizedProtocol.HiddenResultBreaks`).
- A failed token redemption writes back the copy it began with, so a login that lands meanwhile is lost
  (`TokenRefresh.FailureKeepsCredentialsIff`, `TokenRefresh.LoginLost`).
- A one-time refresh token is redeemed again by the next redemption exactly when this one has not filed a new
  one for the account; when a grant cannot be saved that happens at once (`OneTimeTokens.RedeemedAgainIff`,
  `OneTimeTokens.GrantLost`).
- An ordinary write caps the aliases of every group except those whose name is spaces only, which can only come
  from a store file (`SessionStore.AliasCapIff`).

Two more limits are stated beside the results they bound: a binding is only protected while its key stays
stored (`BindingSafety.EvictionForgets`), and one call moves a dangling account pointer twice when the failed
account heads the list (`AccountRouter.AccountRouter.AdvanceActive`).

## Model

| member | source | states |
|---|---|---|
| ToolProtocol.AcceptedIsGrammar | internal/web/tool_state.go:8-53 | the checking loop accepts exactly the transcripts made of plain messages and complete exchanges with globally distinct call ids |
| ToolProtocol.ValidateToolConversation | internal/web/tool_state.go:8-53 | no error exactly on the grammar; otherwise the error names the first offending message and what is wrong with it, be it a repeated call id, a stray result or a call without result |
| ToolProtocol.ChosenUnitsAccepted | internal/web/prompt_budget.go:101-123 | any in-order subset of the units of an accepted conversation is accepted, for every grouping that keeps an exchange together |
| ToolProtocol.CutAccepted | internal/web/portable_history.go:196-213 | a suffix of an accepted conversation is accepted exactly when it does not begin with a tool result |
| Chat.GroupUnits | internal/web/prompt_budget.go:101-123 | the grouping loop yields the units of the transcript |
| Compaction.CompactPortableUTF8 | internal/web/portable_history.go:32-73 | the statements and the shrinking loop compute the compacted text |
| Compaction.CompactStable | internal/web/portable_history.go:32-73 | from 76 bytes on, compaction stays within its limit, trims, empties no text that is not blank and leaves its own results alone |
| Compaction.CompactShortens | internal/web/portable_history.go:32-73 | a text that is too long becomes the longest head and the longest tail that fit a third and two thirds of the limit less 64, around the number of bytes between them; any other is only trimmed |
| Compaction.CompactUnstable | internal/web/portable_history.go:61-63 | at a limit of two bytes a compacted text is compacted further |
| Portable.SanitizeIdempotent | internal/web/portable_history.go:90-136 | sanitising a sanitised message changes nothing |
| PortableCases.SanitizeMeans | internal/web/portable_history.go:90-136 | a message survives exactly when it has one of the five roles and something to say: text, calls that are named, or for a tool an id; what survives has its role in lower case, its texts in short form, its first 64 calls less the nameless ones |
| PortableCases.SanitizeFixedIff | internal/web/portable_history.go:90-136 | a message is left alone exactly when it is clean already |
| PortableCases.SanitizeAllMeans | internal/web/portable_history.go:90-136 | the sanitised transcript is, in order, the messages that survive |
| Portable.BoundedPortableMessages | internal/web/portable_history.go:146-214 | the loops compute the bounded history; what that is the next rows say |
| PortableCases.FittingStays | internal/web/portable_history.go:156-158 | a sanitised history of at most 1537 messages and 8 MiB is kept in full |
| PortableCases.LargeIsTrimmed | internal/web/portable_history.go:159-214 | any other history of more than one message gets shorter |
| PortableCases.NoUserKeepsSuffix | internal/web/portable_history.go:196-213 | without a user message the longest suffix that fits is kept |
| Portable.BoundIdempotent | internal/web/portable_history.go:146-214 | bounding twice is bounding once, and the result is sanitised |
| Portable.BoundWithinCaps | internal/web/portable_history.go:146-214 | the result meets the message and byte caps when single messages fit |
| Portable.TrimShape | internal/web/portable_history.go:146-195 | a history that has to be trimmed and holds a user message is bounded to its last user message and a contiguous suffix of the whole units after it; every unit kept fits and the next older one does not |
| Portable.BoundKeepsProtocol | internal/web/portable_history.go:163-195 | bounding an accepted sanitised history with a user message leaves it accepted |
| Portable.BoundKeepsOpenCalls | internal/web/portable_history.go:163-195 | a history with a user message that runs through the protocol still does so after bounding, and its open calls stay the same exactly when there are none, nothing has to be trimmed, or the last unit fits beside the last user message |
| Portable.OpenCallLost | internal/web/portable_history.go:163-195 | a question and a call that waits for its result, of which only the question is kept |
| SanitizedProtocol.SanitizeKeepsProtocolIff | internal/web/portable_history.go:90-136 | if whoever makes calls spells the role of an assistant as the protocol does, sanitising leaves an accepted conversation accepted exactly when it drops and cuts no call, the shortened ids of all calls are distinct, and no message is a tool result in another spelling |
| SanitizedProtocol.BoundKeepsRawProtocol | internal/web/portable_history.go:146-195 | under that condition bounding keeps a conversation with a user message accepted as well |
| SanitizedProtocol.UnnamedCallBreaks | internal/web/portable_history.go:124-126 | an accepted conversation whose call has no name: sanitising drops the call and keeps its result |
| SanitizedProtocol.HiddenResultBreaks | internal/web/portable_history.go:91-96 | a message of the role "Tool" is accepted as a plain one, and sanitising makes it a result that answers nothing |
| Portable.BoundWithoutUser | internal/web/portable_history.go:196-213 | without a user message the longest suffix that fits, or the last message, is kept, and the result is accepted exactly when that suffix does not begin with a tool result |
| Portable.ResultOrphaned | internal/web/portable_history.go:196-213 | a call, its result and an answer of which the trimmer keeps the last two: the result has lost its call |
| Portable.FindOverlap | internal/web/portable_history.go:230-249 | the search finds the longest suffix of one transcript that is a prefix of the other |
| Portable.PortableTransition | internal/web/portable_history.go:226-250 | the transition rebuilds the bounded target from the bounded parent |
| Portable.TransitionRebuilds | internal/web/portable_history.go:226-250 | parent from the drop on plus delta is the target, and no such encoding has a shorter delta |
| Portable.MergePortableMessages | internal/web/portable_history.go:252-275 | the loops compute the merge |
| Portable.MergedShortest | internal/web/portable_history.go:252-275 | the merge is the shortest transcript with the history as prefix and the incoming messages as suffix |
| PortableCases.MergeIsShortest | internal/web/portable_history.go:252-275 | the merge is the bound of the one shortest transcript that begins with the bounded history and ends with the bounded incoming messages, and that transcript itself while it fits |
| PortableCases.NewIsAppended | internal/web/portable_history.go:252-275 | messages of which none is in the history are appended to it while all fits |
| Portable.MergeResent | internal/web/portable_history.go:252-275 | resending a transcript with new items appends just the new items |
| PromptBudget.SelectPromptMessages | internal/web/prompt_budget.go:155-288 | rejected exactly when the budget is below the minimum or the required units exceed it; otherwise whole units in order, within the budget, with all instructions and the active turn, the anchors that fit and a maximal window, and still accepted if the request was |
| PromptCases.SelectionFits | internal/web/prompt_budget.go:155-175 | tools, attachments, 2048 tokens and the selected messages together fit the budget, and a selection is refused exactly when less than 8192 tokens are left of it or the required messages cost more |
| PromptCases.RequiredMeans | internal/web/prompt_budget.go:179-221 | required are the units that cost something and begin with an instruction or belong to the turn of the last user message |
| PromptCases.HistoryShared | internal/web/prompt_budget.go:155-276 | older history that is no anchor is only there as far as the continuing share of what is left allows |
| PromptCases.TurnIsKept | internal/web/prompt_budget.go:195-221 | when every message costs something, a selection ends with everything from the last user message on |
| PromptCases.InstructionsAreKept | internal/web/prompt_budget.go:179-194 | and it has every instruction that opens a unit |
| PromptCases.AnchorMeans | internal/web/prompt_budget.go:125-153 | an anchor is a lone user or assistant message without calls whose text is durable |
| PromptBudget.KeepActiveTurn | internal/web/prompt_budget.go:195-221 | the units from the last user turn on are kept, or the request is too long |
| PromptBudget.PickAnchors | internal/web/prompt_budget.go:231-244 | at most four task anchors: the earliest and the newest ones |
| PromptBudget.KeepAnchors | internal/web/prompt_budget.go:245-254 | the anchors kept cost at most their own budget, and one is skipped exactly when it costs nothing or does not fit behind those kept before it |
| PromptBudget.KeepWindow | internal/web/prompt_budget.go:263-276 | apart from anchors the older history kept is a window ending at the current turn, as wide as the limit allows |
| Forest.ReadIsUnfold | internal/web/sessions.go:312-334 | the reader with its guard against cycles returns a history exactly when unfolding the links finds it |
| Forest.ReadableIffForest | internal/web/sessions.go:312-334 | all records are readable exactly when parents exist, a rank falls along every link and drops are in range |
| Forest.LinkReads | internal/web/sessions.go:312-334 | a link reads as the rest of its parent's history followed by its delta |
| Forest.RebaseReads | internal/web/sessions.go:273-293 | a record that stays, or becomes a root with its old history, reads what it read before |
| Forest.WithoutReads | internal/web/sessions.go:273-293 | removing any set of records keeps the forest sound and every survivor's reading |
| Forest.HalfRebasedReads | internal/web/sessions.go:273-293 | on any map, while a rebase is under way, readable records stay readable and read the same |
| Forest.CompactReads | internal/web/sessions.go:132-187 | relinking a legacy group to one of its aliases changes no reading |
| Forest.TargetReads | internal/web/sessions.go:657-725 | the committed target unfolds to the committed transcript, which CommitCases.CommitText spells out |
| CommitCases.CommitText | internal/web/sessions.go:657-681 | in every case the committed transcript is what source and target read, merged, with the request merged in and the answer appended |
| CommitCases.SameKeyReads | internal/web/sessions.go:657-725 | a turn whose source is its own target: the key reads what it read before, if anything, with the request and the answer |
| CommitCases.OtherKeyReads | internal/web/sessions.go:657-725 | a turn that goes on from another record, under a target with or without a history of its own |
| CommitCases.TurnAppends | internal/web/sessions.go:657-725 | while all fits and nothing repeats, the target reads exactly the old history, the request and the answer |
| CommitCases.RefusalMeans | internal/web/sessions.go:630-655 | a commit is refused exactly for a blank or over-long target and where a record that it needs is missing |
| CommitCases.CommitCarries | internal/web/sessions.go:640-700 | which account, conversation, session, generation, title and age a committed response carries, and that it is not stale at its commit |
| CommitCases.CommitLinks | internal/web/sessions.go:682-725 | what a committed response is linked to, when it is stored in full, and which group it joins |
| CommitCases.HeadCarries | internal/web/sessions.go:727-740 | an advanced head takes over the identity of the response, stays a stable record as old as it was, and is not stale |
| CommitCases.RebaseCarries | internal/web/sessions.go:273-293 | a survivor of an eviction or deletion keeps its identity, age, group and alias mark |
| Forest.HeadReads | internal/web/sessions.go:727-740 | an advanced head reads what its target reads |
| Forest.OthersRead | internal/web/sessions.go:630-754 | a commit leaves every other record reading the same |
| Forest.CommitReads | internal/web/sessions.go:630-754 | for a target nobody links to and no alias advanced: commit round trip, immutability of the other records and soundness in one |
| Forest.CommitSoundIff | internal/web/sessions.go:701-739 | for a target nobody links to, a commit keeps the forest sound exactly when it does not advance a response alias |
| Forest.TargetReadsIff | internal/web/sessions.go:630-754 | in every sound store, for every commit that is not refused: the target reads the committed transcript (CommitCases.CommitText) if it becomes a root or its parent does not depend on what is overwritten, and cannot be read otherwise |
| Forest.HeadReadsIff | internal/web/sessions.go:727-740 | likewise an advanced head, which shares the fate of the target |
| Forest.ApartReads | internal/web/sessions.go:630-754 | in any store a commit changes no reading of a record that does not depend on what is overwritten |
| LegacyStore.ClassifiedReads | internal/web/sessions.go:71-101 | sorting the ungrouped records of an old store into roots and aliases changes no reading |
| LegacyStore.LegacyHeadCycles | internal/web/sessions.go:71-187 | two records of one upstream conversation of which the later is a thread's head: loading classifies and compacts them around the head, and then the next turn leaves head and response linked to each other and all three records unreadable |
| Pruning.PrunedProtects | internal/web/sessions.go:245-268 | pruning leaves the protected set as it was |
| Pruning.PrunedTransitive | internal/web/sessions.go:349-399 | pruning phases compose |
| Pruning.ProtectedClosed | internal/web/sessions.go:245-268 | the parent of a protected record is protected |
| Pruning.ProtectedMeans | internal/web/sessions.go:245-268 | protected are exactly the pinned records and what is any number of links above one |
| Pruning.EvictPrunes | internal/web/sessions.go:349-399 | giving up one unprotected record is a legal pruning step |
| Pruning.SortRecords | internal/web/sessions.go:372-391 | the records in the order in which they are given up |
| SessionStore.SessionStore.PinnedDependency | internal/web/sessions.go:245-268 | the walk finds exactly the records that a pinned history depends on |
| SessionStore.SessionStore.Pin | internal/web/sessions.go:447-459 | pins a readable record and returns it materialised, otherwise changes nothing |
| SessionStore.SessionStore.Unpin | internal/web/sessions.go:461-472 | takes one pin back |
| SessionStore.SessionStore.Get | internal/web/sessions.go:486-493 | a readable record under a valid key, with its materialised history; a blank or over-long key finds nothing |
| SessionStore.SessionStore.Materialized | internal/web/sessions.go:336-347 | a record is found exactly when it is stored and readable, with its history in full |
| SessionStore.SessionStore.DeleteWithRebase | internal/web/sessions.go:273-293 | fails exactly when a child cannot be read, and then nothing is gone; else the record is out and its children are roots |
| SessionStore.SessionStore.Evict | internal/web/sessions.go:349-399 | gives a record up unless a pin protects it |
| SessionStore.SessionStore.DropStale | internal/web/sessions.go:349-356 | exactly the unprotected records go that have a blank or over-long key, were never written, or were not touched for thirty days |
| SessionStore.SessionStore.CapAliases | internal/web/sessions.go:357-378 | at most 128 unprotected aliases stay in a group; one that goes has 128 others of its group that are at least as new, and no unprotected alias of its group that stays is older |
| SessionStore.SessionStore.CapCount | internal/web/sessions.go:379-397 | at most 5000 records or only protected ones stay, and no fewer than 5000 if any went; what goes is an alias where a stable record stays, and else no newer than what stays |
| SessionStore.SessionStore.CapBytes | internal/web/sessions.go:400-442 | the file fits sixteen MiB or only protected records are left, in the same order, and nothing goes once the running estimate and the measure fit |
| SessionStore.SessionStore.Prune | internal/web/sessions.go:349-442 | all caps at once by the four phases in order, survivors read the same, and no live unpinned stable record goes while an unpinned alias remains |
| SessionStore.TidyWithoutPins | internal/web/sessions.go:349-442 | without pins the caps and the expiry hold outright |
| SessionStore.SessionStore.NeedsStructuralPrune | internal/web/sessions.go:205-227 | decides exactly whether an ordinary write has to prune |
| SessionStore.NeedsPruneIs | internal/web/sessions.go:205-227 | where groups are named by words, a write has to prune exactly when there are more than 5000 records, one has expired, or a group has more than 128 aliases |
| SessionStore.NoPruneIsTidy | internal/web/sessions.go:205-235 | when it does not, the caps hold already |
| SessionStore.AliasCapIff | internal/web/sessions.go:205-227 | a store that ordinary writes leave unpruned has at most 128 aliases in a group, for every such store, exactly when the group is not named by spaces only; requests name their groups by hashed keys, so such a name can only come from a store file |
| SessionStore.SessionStore.PreparePersist | internal/web/sessions.go:228-235 | nothing changes when no prune is needed, and otherwise the phases of a pruning; what the map was before is kept |
| SessionStore.SessionStore.Persist | internal/web/sessions.go:228-243 | memory equals the file after a success, pruned only if that was needed, and nothing has changed after a failure |
| SessionStore.BindingReads | internal/web/sessions.go:547-597 | filing a binding changes no reading, and a new binding reads as empty |
| SessionStore.BindingSoundIff | internal/web/sessions.go:547-597 | it keeps the forest sound exactly when it does not take the alias mark off a parent |
| SessionStore.UpsertSoundIff | internal/web/sessions.go:547-597 | a record that nobody links to may be filed, whatever its portable state, exactly when its own link reads: it is a root, or its parent is another readable record with a drop in range |
| SessionStore.SessionStore.UpsertLocked | internal/web/sessions.go:547-597 | a binding, a full copy or a link is filed with its identity and the time of its filing, pruned if needed and written, or there is an error and everything is as before |
| SessionStore.SessionStore.UpsertBinding | internal/web/sessions.go:534-545 | applied exactly when it is not stale by the bound account and generation, with a legal key and a successful write; then it carries its account, conversation, session, generation and time, and otherwise nothing has changed |
| CommitCases.BindingCarries | internal/web/sessions.go:547-597 | what a filed binding carries, how old it is, and that it is not stale when it is filed |
| CommitCases.FiledTranscript | internal/web/sessions.go:562-575 | a record without portable state takes over the transcript stored under its id; else a link is filed with its sanitised delta and anything else as a bounded copy |
| CommitCases.BareKeepsReading | internal/web/sessions.go:547-597 | so it leaves every reading as it was, or starts an empty transcript |
| SessionStore.SessionStore.CommitResponse | internal/web/sessions.go:630-754 | the error cases, all-or-nothing persistence, pruning only if needed, and what every surviving record reads afterwards |
| SessionStore.SessionStore.BuildTarget | internal/web/sessions.go:657-725 | the target record that the commit files |
| SessionStore.SessionStore.Delete | internal/web/sessions.go:756-776 | all or nothing, and the survivors' readings are unchanged |
| SessionStore.SessionStore.DeleteByAccount | internal/web/sessions.go:778-817 | the same for all records of an account |
| SessionStore.SessionStore.CompactLegacyPortableCopies | internal/web/sessions.go:132-187 | every group of two or more full copies with an alias is rebuilt around its earliest alias, of equally old ones the first by name, to which all others become links with nothing else changed; any other group is left alone, and no reading changes |
| SessionStore.SessionStore.PruneNow | internal/web/session_admin.go:54-68 | explicit pruning, all or nothing |
| ResponseSession.ResponseSession.PrepareResponseTarget | internal/web/response_session.go:160-198 | refused exactly when the lock is taken or a required source is missing, leaving nothing behind; otherwise the source's whole chain is protected |
| ResponseSession.ResponseSession.Release | internal/web/response_session.go:187-198 | gives exactly one pin back and removes an uncommitted target without changing other readings; pins always equal the requests under way |
| ResponseSession.ResponseSession.CommitResponsePortableHistory | internal/web/response_session.go:200-216 | a target bound to an account that is no longer active keeps its answer but does not move the stable head; all or nothing, pruned only if needed |
| ResponseThread.ThreadKeepsSnapshots | internal/web/sessions.go:630-754 | over every run in which bindings are filed, turns are committed, records are pruned or removed and other threads write, in any order, each stored response id reads the transcript of its own round, the head reads the latest, an id whose turn is not committed yet reads as empty, and what nobody wrote reads as at first |
| ResponseThread.ThreadLinks | internal/web/sessions.go:701-739 | when nothing is pruned or removed nothing is lost, and each committed id is linked to the one committed before it, however rounds overlap |
| ResponseThread.RoundReads | internal/web/protocol_handlers.go:102-153 | binding a new response id and committing under it settles that id and the head only |
| ResponseThread.AnswerReads | internal/web/sessions.go:630-754 | the same of the commit alone, whether or not the binding is still stored |
| ResponseThread.CommitIsElsewhere | internal/web/sessions.go:630-754 | every commit of another thread, and every one that does not move the head, is a write that such a run allows |
| ResponseThread.BindingIsElsewhere | internal/web/sessions.go:547-597 | likewise every binding that another thread files |
| ResponseStream.StreamResponses | internal/web/protocol_handlers.go:162-514 | a strict client accepts the whole log and sees the one end the inputs call for, with its error code and all complaints of the upstream as its message; it has received exactly the text that was sent and for each call its last id, its name and its arguments put together, announced under the first of them; item ids are distinct if they are made so; the commit happens exactly when there is something to deliver; a progress event goes out for each heartbeat that is due; on a completed or incomplete end the items, the output slots and the persisted answer agree |
| ResponseStream.NumbersAreDense | internal/web/protocol_handlers.go:162-514 | the sequence numbers of an accepted log are 0, 1, 2 and so on |
| ResponseStream.TerminalIsLast | internal/web/protocol_handlers.go:162-514 | a terminal event is the last entry of an accepted log |
| ResponseStream.DoneAfterCommit | internal/web/protocol_handlers.go:431-510 | no done event precedes a successful commit |
| StreamEnds.EndGivesItems | internal/web/protocol_handlers.go:482-514 | an end that did not fail lists every item; at a completed end each was given as done exactly once and as listed, at an incomplete end the message was and nothing of a call was closed |
| StreamEnds.FailedEndIsEmpty | internal/web/protocol_handlers.go:386-410 | a failed end lists nothing, and no done event was sent |
| StreamEnds.CommittedIsShown | internal/web/protocol_handlers.go:431-514 | what is committed for the next turn is the text of the message, if there is one, and just the calls that were given as done |
| ResponseStream.Transducer.HandleText | internal/web/protocol_handlers.go:327-343 | a text delta is shown and recorded, behind the announcement of the message |
| ResponseStream.Transducer.HandleCall | internal/web/protocol_handlers.go:344-375 | a call delta begins, renames or grows exactly its call: the id is the last one sent, name and arguments are joined |
| ResponseStream.Transducer.Persist | internal/web/protocol_handlers.go:431-469 | a progress event for each heartbeat that falls due while the answer is written, then the commit |
| ResponseStream.Transducer.FailOrDeliver | internal/web/protocol_handlers.go:386-410 | the failed end, with its code and message, exactly when the upstream failed or there is nothing to deliver; otherwise commit and delivery |
| ResponseStream.Transducer.Close | internal/web/protocol_handlers.go:482-514 | done events for what may be executed, then the terminal event |
| AccountHealth.SelectableIsJoin | internal/web/account_health.go:174-189 | after every sequence of signals under a monotone clock, an account is selectable exactly when no mark is outstanding and now is at or past every deadline ever signalled for it |
| AccountHealth.AccountHealth.Available | internal/web/account_health.go:174-189 | the same of the object, and what has elapsed is forgotten |
| AccountHealth.AccountHealth.MarkRateLimited | internal/web/account_health.go:114-123 | the account, and no other, rests until the given time or for 120 seconds, unless it rests longer anyway |
| AccountHealth.AccountHealth.MarkQuotaExhausted | internal/web/account_health.go:125-132 | likewise until the given time or for six hours |
| AccountHealth.AccountHealth.MarkTransient | internal/web/account_health.go:134-138 | likewise for 30 seconds |
| AccountHealth.AccountHealth.MarkDisengaged | internal/web/account_health.go:302-307 | likewise for 720 seconds |
| AccountHealth.AccountHealth.MarkAuthFail | internal/web/account_health.go:142-146 | the account, and no other, is selectable at no later time until its mark is cleared |
| AccountHealth.AccountHealth.ClearAuthFailure | internal/web/account_health.go:167-172 | the account is selectable again at any later time at which it does not rest |
| AccountHealth.AccountHealth.MarkSuccess | internal/web/account_health.go:150-163 | a late success makes no account more or less selectable |
| AccountHealth.RestartKeepsHealth | internal/web/account_health.go:40-89 | saving and restoring keeps a named account's selectability at all later times |
| AccountHealth.AccountHealth.Restore | internal/web/account_health.go:67-89 | a restart goes on as if it had received the earlier signals, and every named account is as selectable as before |
| AccountRouter.AccountRouter.ActivateAccount | internal/web/account_router.go:199-217 | one generation on and written with the health of all accounts, or nothing has changed |
| AccountRouter.AccountRouter.EnsureActive | internal/web/account_router.go:178-190 | the pointer is on the list, moving only if it dangled |
| AccountRouter.AccountRouter.AdvanceActive | internal/web/account_router.go:222-242 | only a failure of the active account moves the pointer, to the first selectable successor in cyclic order |
| AccountRouter.AccountRouter.ObserveSharedFailure | internal/web/account_router.go:134-155 | the circuit opens, for twenty seconds, exactly when another account failed alike within the last twelve |
| AccountRouter.AccountRouter.MarkAccountResult | internal/web/server.go:2459-2520 | true exactly when the pointer moved one generation out of the failing active account; one health signal is sent, after which the account rests for good, until the given time or for the default of its kind of failure; pointer and health are written once, and a success or a local failure changes nobody's selectability |
| AccountRouter.AccountRouter.HandleFailure | internal/web/server.go:2491-2505 | the failures that may move the pointer: not under an open circuit, and then to the first selectable successor |
| AccountRouter.AccountRouter.RouteVersion | internal/web/account_router.go:258-266 | an authoritative writer owns the generation it is told, for good |
| AccountRouter.AccountRouter.BeginRequest | internal/web/account_router.go:582-614 | a turn of the active account gets a lease that stays true for good |
| AccountRouter.AccountRouter.BeginCall | internal/web/account_router.go:546-580 | every admitted call is of an account that is active or was when its turn began |
| AccountRouter.AccountRouter.DeleteAccount | internal/web/account_router.go:336-358 | deleting the active account selects its next neighbour; deleting another moves nothing |
| AccountRouter.NextNeighbour | internal/web/account_router.go:336-358 | after an account is taken out, its old position holds its next neighbour |
| AccountRouter.AccountRouter.Restart | internal/web/account_router.go:48-79 | a restart keeps every generation and its owner as long as the file or the sessions remember the newest, and selects what the file names or else the first account |
| AccountRouter.SuccessorDiffers | internal/web/account_router.go:222-242 | stepping round the list by less than its length leads to another account |
| BindingSafety.WriteSecures | internal/web/server.go:1343-1368 | an authoritative write that lands secures its key for the owner of its generation |
| BindingSafety.SecuredKept | internal/web/sessions.go:534-545 | no step of any writer undoes that while the key stays stored |
| BindingSafety.RunAdvances | internal/web/account_router.go:199-217 | over every run the generation never falls and each generation keeps its one owner |
| BindingSafety.BindingStays | internal/web/server.go:1343-1368 | over every run in which the key stays stored, the binding is the owner's or of a later generation |
| BindingSafety.EvictionForgets | internal/web/sessions.go:534-545 | after an eviction a late writer of an earlier generation is filed |
| BindingSafety.Bridge.ReadVersion | internal/web/server.go:1358-1358 | the first step of a write, by the router |
| BindingSafety.Bridge.WriteBinding | internal/web/server.go:1359-1367 | the second step of a write, by the store |
| TokenRefresh.StepKeeps | internal/auth/cache.go:331-429 | every step of every thread keeps the invariant of the protocol |
| TokenRefresh.SingleFlight | internal/auth/cache.go:331-429 | at no time are two redemptions for one account under way |
| TokenRefresh.HistoryIsOrderly | internal/auth/cache.go:331-429 | redemptions for an account never overlap, none begins within five minutes of a failure, and none while the stored copy is fresh |
| TokenRefresh.JoinersAgree | internal/auth/cache.go:358-362 | whoever joined a flight returns what its pilot published, whenever it returns |
| TokenRefresh.NobodyStranded | internal/auth/cache.go:358-428 | a waiter can wake, or the pilot of its flight can take a step |
| TokenRefresh.FailureKeepsCredentialsIff | internal/auth/cache.go:378-404 | over every run in which a redemption begins and later fails, what is stored for its account is the copy it began with, marked expired; so the stored credentials survive exactly when they are still those of that copy, an account deleted meanwhile stays gone, and the others are untouched |
| TokenRefresh.LoginLost | internal/auth/cache.go:378-404 | a run in which a login that lands meanwhile is lost |
| OneTimeTokens.RedeemedAgainIff | internal/auth/cache.go:366-428 | if nobody else writes the account's refresh token, the next redemption takes the same one again exactly when this one failed, its grant could not be saved or names another account |
| OneTimeTokens.GrantLost | internal/auth/cache.go:417-422 | a run in which a grant cannot be saved and the token it used up is redeemed again at the same moment |
| TokenRefresh.UpsertedAt | internal/auth/cache.go:190-243 | an upsert changes one account at most, the first that matches by id or email |
| TokenStore.UpsertFiles | internal/auth/cache.go:190-243 | the first account of the same person is replaced, and its refresh token, oid and proxy are kept where the new token brings none; without one the token is added |
| TokenStore.GrantCompletes | internal/auth/cache.go:405-417 | which identity a granted token is filed under |
| TokenStore.TokenStore.EnsureValid | internal/auth/cache.go:299-330 | unknown exactly when no account goes by the name; otherwise the first that does decides: its copy if it is valid for thirty seconds more, a refresh if it has a refresh token, and expired if not |
| TokenStore.TokenStore.Enter | internal/auth/cache.go:336-365 | takes exactly the step of the protocol: the caller is told to wait out a rest, is handed a fresh stored copy, joins the flight or begins one |
| TokenStore.TokenStore.RecordFailure | internal/auth/cache.go:378-404 | likewise the recording of a failure: the account rests for 300 seconds, and the copy the redemption began with is written back offline |
| TokenStore.TokenStore.RecordGrant | internal/auth/cache.go:405-417 | likewise the filing of a granted token in the place of the first account of the same person |
| TokenStore.TokenStore.Upsert | internal/auth/cache.go:190-243 | the loop files the token over the first account of the same person, or not at all |
| TokenStore.TokenStore.Publish | internal/auth/cache.go:423-423 | closing the flight hands its outcome to all waiters |
| TokenStore.TokenStore.Remove | internal/auth/cache.go:424-426 | the flight leaves the index |
| TokenStore.TokenStore.Login | internal/auth/cache.go:190-243 | a login in the middle of a flight keeps the protocol's invariant |
| TokenStore.TokenStore.Delete | internal/auth/cache.go:245-260 | likewise a deletion, which keeps the other accounts in order |
| KeyedLock.OneHolder | internal/web/response_session.go:58-95 | at most one thread holds a key, whatever the interleaving |
| KeyedLock.TableIsCounted | internal/web/response_session.go:58-95 | the table lists a key exactly while threads are counted in for it, with their number as its count |
| KeyedLock.EntryListedIffCounted | internal/web/response_session.go:58-95 | an entry has its one place in the table exactly while it is counted, and a held entry is never dropped |
| KeyedLock.RefusedIffHeld | internal/web/response_session.go:77-85 | a try is refused exactly when another thread holds the key at that moment |
| KeyedLock.NobodyWaits | internal/web/response_session.go:72-95 | a thread that is counted in can always take its next step |
| KeyedLock.KeyedLock.CountIn | internal/web/response_session.go:62-71 | counting in takes exactly the step of the protocol |
| KeyedLock.KeyedLock.TryLock | internal/web/response_session.go:77-77 | likewise the try |
| KeyedLock.KeyedLock.CountOut | internal/web/response_session.go:78-94 | likewise counting out |
| PlaceholderGuard.NormalizedSnoc | internal/web/upstream_placeholder.go:10-12 | how one more character changes the normal form |
| PlaceholderGuard.NormalizedPrefix | internal/web/upstream_placeholder.go:10-12 | normalising maps prefixes to prefixes |
| PlaceholderGuard.FieldsAreWords | internal/web/upstream_placeholder.go:10-12 | the fields are words, and together the text without its spaces |
| PlaceholderGuard.PlaceholderMayBecome | internal/web/upstream_placeholder.go:18-29 | every prefix of a known placeholder is withheld |
| PlaceholderGuard.OtherTextPasses | internal/web/upstream_placeholder.go:18-57 | a text that begins with another letter than the placeholders is let through at once |
| PlaceholderGuard.StreamPlaceholderGuard.Feed | internal/web/upstream_placeholder.go:39-57 | what is out is nothing while the input may become a placeholder, and all of it as soon as it may not |
| PlaceholderGuard.StreamPlaceholderGuard.Finish | internal/web/upstream_placeholder.go:59-70 | what is withheld goes out, or is dropped as a placeholder |
| PlaceholderGuard.GuardStream | internal/web/upstream_placeholder.go:39-70 | for every chunking all of the input comes out in the end, and after every chunk exactly what has been released by then |

## Left out

- SessionStore.SessionStore.Prune: sorting is modelled by its result, ties in either order; the sizes of files and records are parameters.
- SessionStore.SessionStore.UpsertLocked: for a record with which the forest is sound; `SessionStore.UpsertSoundIff` and `SessionStore.BindingSoundIff` say which ones those are.
- SessionStore.SessionStore.UpsertBinding: for bindings that do not take the alias mark off a parent; `SessionStore.BindingSoundIff` says what others do.
- SessionStore.SessionStore.CommitResponse: its callers' duties are preconditions, a target nobody links to and no response alias to advance; `Forest.TargetReadsIff`, `Forest.ApartReads`, `Forest.CommitSoundIff` and `LegacyStore.LegacyHeadCycles` say what happens otherwise.
- OneTimeTokens.RedeemedAgainIff: for grants that bring a new refresh token, and accounts with distinct ids.
- SessionStore.TidyWithoutPins: groups named by spaces only are not among those it promises the alias cap for; `SessionStore.AliasCapIff` shows that ordinary writes do not keep it for them.
- ResponseSession.ResponseSession.PrepareResponseTarget: the outcome of the lock is an argument; the lock itself is `KeyedLock`.
- AccountRouter.AccountRouter.Restart: restores the pointer; the health part of the file is read by `AccountHealth.AccountHealth.Restore`, and what it leaves out of elapsed deadlines when it is written is `AccountHealth.RestartKeepsHealth`.
- AccountRouter.AccountRouter.MarkAccountResult: the class of a failure is an argument; its classification from error texts, the logging and the policy-refusal cache are not modelled.
- BindingSafety.BindingStays: the steps are binding writes, router moves, deletions and evictions; what a commit files for the account of its target is not among them.
- TokenRefresh.SingleFlight: time stands still within one critical section; logins, deletions and proxy changes are arbitrary rewrites of the accounts between steps.
- PlaceholderGuard.GuardStream: chunks are whole characters, and lower case is modelled as far as it yields ASCII letters.
- ResponseStream.StreamResponses: every write to the client succeeds; the text of a read error is an argument; the parsing of stream lines into inputs is not modelled.
- PromptBudget.SelectPromptMessages: the tokenizer, the configured budgets and the recognition of durable tasks are parameters; the statistics are left out.
- Portable.BoundedPortableMessages: serialised sizes are a parameter.
- Compaction.CompactShortens: for limits of 76 bytes or more, as all callers have, and texts of less than 2^63 bytes.
- Compaction.CompactPortableUTF8: texts are valid UTF-8, and byte counts are 64-bit integers.
- SanitizedProtocol.SanitizeKeepsProtocolIff: an assistant in another spelling that makes calls is left out; the protocol checks none of its calls.
- KeyedLock.KeyedLock.CountIn: the empty key takes no lock and is not modelled.
- `shouldFailoverAccount`: a condition settled by reading.
- `resolveActiveAccount`, `refreshActiveAccount` and `resolveRequestAccount`: compositions of the modelled router and token steps with I/O in between.
- `aliasResponseSession`, `persistResponsePortableHistory` and `updatePortable`: not reached by the request paths modelled here.
- `openSessionStore`, key derivation, a blank route path and file formats: set-up and encoding.
- HTTP handlers, WebSocket transport, OAuth, the admin pages, prompt rendering, tool schemas and the agent ledger: input and output around the modelled state.
