# A verified model of the sales assistant's core

Dafny models, with proofs, of the algorithms and protocols at the heart of a backend that answers customers in chat,
reads an inventory system through an MCP bridge and prepares actions for the account owner.

| module | what it models |
|---|---|
| `TurnQueue`, `TurnCoordinator`, `TextFragments` | the per-chat queues of `sales-turn-coordinator.ts`: promise chains with map entries that delete themselves, receipt reservation and generations, the buffer of typing fragments |
| `PagedRead`, `RowIdentity`, `PagedServers` | automatic expansion of paginated reads: cursor, page and offset pagers, merging by identity, the page and record caps, first against any server, then against servers of one fixed list |
| `AgentActions` | confirming, cancelling, expiring and superseding prepared actions by any number of processes over one table |
| `SalesState`, `SalesRuns`, `SalesFacts`, `StoredState` | the sales conversation: selection, facts, prices and offers through customer turns and catalogue reads |
| `EditDistance`, `KnowledgeMatch` | the one-row edit distance and the fuzzy match built on it |
| `JsonScanner`, `SseReader` | embedded JSON in prose, and server-sent events cut into arbitrary chunks |
| `FolderForest`, `RefreshTokens` | folders with re-parenting, refresh-token rotation |
| `ToolLoop`, `ToolEndings` | the rounds of tool calls, their transcript, and how a turn ends |
| `AmountNormalizer`, `UzbekNumerals`, `ZonedMidnight` | exact amounts, spoken numbers, the bounds of a calendar day in a time zone |
| `Common`, `Decimals` | shared vocabulary: options, white space, digit strings |

Code that works step by step is a method or a class proved equal to a function of the old state; the functions carry
the theorems. Concurrent protocols are step systems: a world, the steps any party can take next, and theorems about
every run. What the code gets from outside is a parameter of arbitrary behaviour: servers, the database's answers
within what its constraints permit, the model's replies, `JSON.parse`, time zone offsets, `toLowerCase`, the language
rules of the sales dialogue.

## What does not hold

Some natural claims fail; the code is modelled as it is, and the exact condition is proved.

- An offset server that reports no total, or a page-numbered one that reports neither a total nor a page count, is read
  only to its first page when that page is smaller than the size the pager assumes, even if it says `hasMore: true` (`PagedServers.PageNumbersReadWhole`,
  `PagedServers.TailIsLostDespiteHasMore`).
- A read that meets exactly 20,000 rows or 200 pages succeeds only if its last page does not lead on
  (`PagedRead.WalkReadsList`).
- A row's identity is its id and its warehouse written one behind the other, so an id that contains the separator can
  run over into the warehouse and two rows be taken for one (`RowIdentity.SameIdentityIff`,
  `RowIdentity.IdsCanRunOver`).
- Calls are remembered by the name and arguments the model wrote, but executed as what these resolve to, and the
  all-time finance read made before the tool rounds is not remembered at all. So one operation can be executed twice in
  a turn: the finance read asked for again, another finance read that the message turns into it, two finance reads by
  different names, or one input spelled two ways (`ToolLoop.TurnRunsOnceIff` for the exact condition,
  `ToolLoop.FinanceReadCanRunTwice`, `ToolLoop.TodayReadRunsTheFinanceReadAgain`, `ToolLoop.TwoNamesRunOneOperation`,
  `ToolLoop.SpellingRunsTheInventoryReadAgain`).
- A page count below the number of the last page makes the read of a page-numbered server stop there, and a read that
  starts late never succeeds against a server that reports the total of its whole list
  (`PagedServers.PageNumbersReadWhole`, `PagedServers.OffsetsReadWhole`).
- The check of a new parent folder and the write are separate database calls, so two interleaved re-parentings can
  form a cycle (`FolderForest.LinkKeepsForestIff`, `FolderForest.InterleavedReparentsCanCycle`).
- A bar inside an attribute value can hide a change of selection from the price check
  (`SalesRuns.TurnDropsPriceIff`, `SalesRuns.BarHidesAMove`, `SalesRuns.BarWitness`).
- A catalogue read that rejects the selection or finds several prices drops the price from the reconciled state, but
  the chat merges that state into its own and so keeps the price (`SalesRuns.ReadsNeverTakePriceAway`).
- A catalogue read re-reads the stored state with a limit of 300 characters where a turn allows 500, so it can shorten
  a slot (`SalesRuns.ReadsKeepSelectionIff`, `SalesRuns.LongNameIsCut`).
- Normalising a zero with a unit twice differs from normalising it once (`AmountNormalizer.TwiceIsOnceIff`,
  `AmountNormalizer.ZeroMillionShrinks`).
- A clock put forward at midnight gives the right start of the day at or east of Greenwich and a wrong one west of it;
  a clock put back to midnight the other way round (`ZonedMidnight.DayBeginsIff`,
  `ZonedMidnight.ForwardAtMidnightWestAndEast`).
- One bracket that is never closed hides every JSON document behind it (`JsonScanner.UnclosedGroupHidesTheRest`).
- The fragment buffer drops text silently at its limits: a piece is cut at 1,200 characters, a ninth pending piece
  pushes the first one out, and a joined text is cut at 4,000 characters (`TextFragments.NothingLostIffWithinLimits`).

## Model

| member | source | states |
|---|---|---|
| TurnQueue.StepKeepsInvariant | src/ai-agent/sales-turn-coordinator.ts:143-163 | enqueueing, waking, releasing, settling, the microtask and each self-deletion callback all keep the queue invariant: map entries name the newest link of their chat, a chat without an entry is settled, links settle and tasks start in call order |
| TurnQueue.StrictlySequential | src/ai-agent/sales-turn-coordinator.ts:142-163 | in every interleaving a task starts only after all earlier tasks of its chat have ended, also when tasks throw and map entries delete themselves |
| TurnQueue.AtMostOneRunning | src/ai-agent/sales-turn-coordinator.ts:142-163 | never two tasks of one chat at the same time |
| TurnQueue.InternalStepsShrinkBacklog | src/ai-agent/sales-turn-coordinator.ts:147-162 | every step other than a new call uses up a finite backlog |
| TurnQueue.RunsWithoutArrivalsEnd | src/ai-agent/sales-turn-coordinator.ts:147-162 | without new calls, at most that many steps are left whatever the scheduler does |
| TurnQueue.BusyCanMove | src/ai-agent/sales-turn-coordinator.ts:147-162 | as long as a task is unfinished or a map entry is left, some step other than a new call can be taken: no deadlock |
| TurnQueue.QuiescentMeansDrained | src/ai-agent/sales-turn-coordinator.ts:156-161 | when only new calls are possible every task has ended and the map is empty: no leaked entry |
| TurnCoordinator.SalesTurnCoordinator.ConcludeReservation | src/ai-agent/sales-turn-coordinator.ts:66-84 | a new receipt gives a handle with the chat's next generation, a duplicate one nothing; without a receipt table the receipts in memory decide; other chats are untouched |
| TurnCoordinator.ReservationIsAnswered | src/ai-agent/sales-turn-coordinator.ts:66-76 | under every step of anyone a reservation is answered at most once, while it runs, with what the table and its rows call for or a failure |
| TurnCoordinator.ReservationReturns | src/ai-agent/sales-turn-coordinator.ts:66-91 | and it returns once, after its answer, with a handle of the next generation exactly if the receipt is new |
| TurnCoordinator.ReservationCanGoOn | src/ai-agent/sales-turn-coordinator.ts:60-91 | a running reservation can always be answered, and an answered one return: which answers are possible is exactly as the table and its rows say |
| TurnCoordinator.SameChatIff | src/ai-agent/sales-turn-coordinator.ts:50-60 | two requests queue behind each other exactly if channel, user and peer agree |
| TurnCoordinator.SameReceiptIff | src/ai-agent/sales-turn-coordinator.ts:66-70 | they share a receipt row exactly if channel, user and the first 200 characters of peer and message agree |
| TurnCoordinator.SalesTurnCoordinator.BufferSalesTextFragment | src/ai-agent/sales-turn-coordinator.ts:109-115 | one chat's bucket gets the cleaned piece and keeps its last eight; other chats are untouched |
| TurnCoordinator.SalesTurnCoordinator.ConsumeSalesTextFragments | src/ai-agent/sales-turn-coordinator.ts:129-136 | the bucket of the chat is emptied into one text; an empty one gives nothing; other chats are untouched |
| TurnCoordinator.StepKeepsInvariant | src/ai-agent/sales-turn-coordinator.ts:60-91 | every step of concurrent reservations, with the database answering in any permitted way and other processes storing receipts, keeps the reservation invariant |
| TurnCoordinator.ReservationsAreSerial | src/ai-agent/sales-turn-coordinator.ts:60-91 | in every run a reservation starts only after all earlier ones of its chat have returned, so at most one of a chat is between start and release, in call order |
| TurnCoordinator.OneHandlePerMessage | src/ai-agent/sales-turn-coordinator.ts:66-76 | whatever the interleaving, no two handles are granted for the same delivered message, with the receipt table present or missing throughout |
| TurnCoordinator.GenerationsFollowCallOrder | src/ai-agent/sales-turn-coordinator.ts:60-79 | within a chat the order of calls, of grants and of generation numbers is one and the same |
| TurnCoordinator.OnlyNewestIsCurrent | src/ai-agent/sales-turn-coordinator.ts:138-140 | a granted turn is current if and only if no newer turn of its chat has been granted |
| TextFragments.RunIsAccounted | src/ai-agent/sales-turn-coordinator.ts:109-136 | over any run of one chat's buffer: at most eight pieces pending, what was received and is pending is never longer than what was typed, and equals it in order when no limit was hit |
| TextFragments.NothingLostIffWithinLimits | src/ai-agent/sales-turn-coordinator.ts:109-136 | every typed piece is received exactly once in order or still pending, if and only if no piece passed 1,200 characters, no buffering met eight pending pieces and no joined text passed 4,000 characters |
| TextFragments.LinesOfJoin | src/ai-agent/sales-turn-coordinator.ts:135 | cleaned pieces hold no line break, so splitting the joined text gives them back |
| TextFragments.NewestArePending | src/ai-agent/sales-turn-coordinator.ts:109-115 | after any number of buffered pieces the newest eight are pending, in order |
| TextFragments.SqueezeMeans | src/ai-agent/sales-turn-coordinator.ts:109-112 | cleaning a piece keeps every character that is not white space, in order, with single blanks between words |
| TextFragments.HandoverMeans | src/ai-agent/sales-turn-coordinator.ts:129-136 | handing over gives the first 4,000 characters of the pending pieces and the current text, joined by lines, and empties the bucket |
| PagedRead.ReadToolFully | src/bito/bito-tool-bridge.service.ts:232-298 | the loop with its merged list, seen set and request set computes the recursive specification of the expanded read, for any server |
| PagedRead.ExpandPages | src/bito/bito-tool-bridge.service.ts:251-297 | the page loop equals its specification round by round, including every failure exit |
| PagedRead.AddUniqueRecords | src/bito/bito-tool-bridge.service.ts:522-530 | appends exactly the rows of new identity, keeps the seen set in step, fails when the cap is passed |
| PagedRead.CompleteReadIsSound | src/bito/bito-tool-bridge.service.ts:232-298 | against an arbitrary server a result marked complete comes from at most 200 pairwise distinct requests, holds each identity of each fetched page exactly once in order of first appearance, has at most 20,000 rows and no fewer than the last reported total; every page but an empty last one added a row |
| PagedRead.RoundKeepsCoherent | src/bito/bito-tool-bridge.service.ts:256-291 | one round of the loop keeps requests distinct, pages accounted for, and only the last page empty |
| PagedRead.LoopIsCoherent | src/bito/bito-tool-bridge.service.ts:256-291 | so does the whole loop, which ends within 200 pages |
| PagedRead.WalkReadsList | src/bito/bito-tool-bridge.service.ts:251-297 | when the pages of a list of any length lead on to its last slice, the expanded read returns exactly that list in order or nothing, and succeeds if and only if the list stays within 20,000 rows and 200 pages, strictly if the last page leads on, and is all that a reported total announces |
| RowIdentity.SameIdentityIff | src/bito/bito-tool-bridge.service.ts:513-520 | two rows are taken for the same if and only if they carry one own id, else one product id, in one warehouse, else one content, or an id runs over into the warehouse behind it |
| RowIdentity.RowIsAddedIff | src/bito/bito-tool-bridge.service.ts:522-530 | a row is appended if and only if none kept is such a row, and the read fails if that passes 20,000 rows |
| RowIdentity.OwnIdDecides | src/bito/bito-tool-bridge.service.ts:513-520 | an own id tells rows apart whatever their products; one id in one warehouse is kept once |
| RowIdentity.WarehousesAreReadWhole | src/bito/bito-tool-bridge.service.ts:513-530 | a walk over rows of one id, or of one product, in different warehouses is read whole and in order within the caps |
| RowIdentity.IdsCanRunOver | src/bito/bito-tool-bridge.service.ts:513-520 | two products in two warehouses that are taken for one row |
| PagedServers.PageNumbersReadWhole | src/bito/bito-tool-bridge.service.ts:539-602 | a page-numbered server of one fixed list of any length is followed if the list fits one page, a total or a page count is reported, or pages are at least the assumed size: then the list, up to the page a low page count stops at, is returned if and only if it keeps the caps and is all that a reported total announces; in every other case only the first page comes back |
| PagedServers.TailIsLostDespiteHasMore | src/bito/bito-tool-bridge.service.ts:565-573 | a server of two rows whose second row is lost although its first page says that there is more |
| PagedServers.OffsetsReadWhole | src/bito/bito-tool-bridge.service.ts:539-602 | the same for offsets, where a page count does not matter; a read that starts late at a server reporting the total of its whole list never succeeds |
| PagedServers.CursorsReadWhole | src/bito/bito-tool-bridge.service.ts:539-602 | a cursor server of one fixed list of any length is returned whole, in order, if and only if the list keeps the caps and is all that a reported total announces, and otherwise not at all |
| PagedServers.FirstRequestAsks | src/bito/bito-tool-bridge.service.ts:709-719 | the first request keeps every paging argument given, adds none the tool does not declare, and asks for the first page, offset 0 and the most rows allowed |
| PagedServers.NextRequestAsks | src/bito/bito-tool-bridge.service.ts:539-598 | a following request differs from the first in the cursor, page or offset alone, which is the one received, the next one or the rows received further on, and in a row limit the caller left open |
| PagedServers.UnpagedIsReadIff | src/bito/bito-tool-bridge.service.ts:232-250 | a tool that declares no paging is believed if and only if its reply announces no more than it carries |
| PagedServers.EmptyFirstPageIff | src/bito/bito-tool-bridge.service.ts:232-250 | an empty first page is an answer if and only if it announces nothing |
| AgentActions.AgentActionService.Confirm | src/ai-agent/ai-agent.service.ts:658-706 | an uninterrupted confirmation is a run of the protocol by a new caller with this owner, action and decision; its answer, the action's status and the items executed are those the row, the clock and the outcomes of the items call for, and nothing else moves |
| AgentActions.AgentActionService.Resolve | src/ai-agent/ai-agent.service.ts:663-669 | executed, cancelled, conflicting and expired actions are answered in this order of precedence, before anything is taken |
| AgentActions.AgentActionService.TakeAction | src/ai-agent/ai-agent.service.ts:671-677 | the compare-and-set shared by confirming and cancelling: only a pending action before its deadline is taken, anything else is a conflict and stays as it is |
| AgentActions.AgentActionService.ExecuteItems | src/ai-agent/ai-agent.service.ts:678-705 | the batch ends EXECUTED if it is admitted, not empty and every item succeeds, and otherwise FAILED with the number of items before the first that did not |
| AgentActions.AgentActionService.RunItems | src/ai-agent/ai-agent.service.ts:681-691 | items are begun in order up to and including the first that does not succeed, and exactly those before it are executed |
| AgentActions.AgentActionService.ExpireStale | src/ai-agent/ai-agent.service.ts:130-136 | every row pending with its deadline behind becomes EXPIRED, every other row stays as it is, and the number of the former is returned |
| AgentActions.AgentActionService.Propose | src/ai-agent/ai-agent.service.ts:617-626 | the pending rows of this owner and conversation, and no others, become CANCELLED before a new pending row with its deadline half an hour ahead is added |
| AgentActions.SweepExpires | src/ai-agent/ai-agent.service.ts:130-136 | the step of the protocol does the same to the rows, and leaves callers, winners, executed items and the clock as they are |
| AgentActions.SupersedeCancels | src/ai-agent/ai-agent.service.ts:617-626 | so does the superseding step: pending rows of that owner and conversation, nothing else |
| AgentActions.CallersMove | src/ai-agent/ai-agent.service.ts:658-706 | under every step of anyone a caller stands still, crashes before its answer, or makes the one move that its row, its snapshot and the clock call for: a foreign or missing action is not found, an executed one answered as such, a pending one taken only before its deadline, items in turn |
| AgentActions.CallersCanMove | src/ai-agent/ai-agent.service.ts:658-706 | a caller that has not answered is never stuck |
| AgentActions.RowsMove | src/ai-agent/ai-agent.service.ts:658-706 | under every step a row keeps all but its status, which changes only by superseding, sweeping or the caller that takes it |
| AgentActions.AnswerIff | src/ai-agent/ai-agent.service.ts:663-705 | which answer a confirmation gets, if and only if: EXECUTED exactly of an executed action, CANCELLED of a cancelled one not confirmed, expired of a pending one at or past its deadline, success exactly if taken in time, admitted, not empty and every item succeeds |
| AgentActions.StepKeeps | src/ai-agent/ai-agent.service.ts:617-626 | every step by any process keeps the invariant tying status, winner, executed items and each caller's position together, and moves a status forward at most |
| AgentActions.StatusesMoveForward | src/ai-agent/ai-agent.service.ts:658-706 | over whole runs a status changes only PENDING to EXECUTING, CANCELLED or EXPIRED and EXECUTING to EXECUTED or FAILED; a winner is never replaced |
| AgentActions.AtMostOneTakesAnAction | src/ai-agent/ai-agent.service.ts:671-672 | of all confirms and cancels racing on an action, at most one takes it |
| AgentActions.ItemsRunOnceInOrder | src/ai-agent/ai-agent.service.ts:678-702 | the execution of each batch item is begun at most once and in order, whether it succeeds, throws or is cut short by a crash; EXECUTED means all succeeded, FAILED a proper prefix or an empty batch, PENDING, CANCELLED and EXPIRED that none was begun |
| AgentActions.AnswersStayTrue | src/ai-agent/ai-agent.service.ts:658-706 | every answer about an existing action still holds after any further steps: executed, cancelled and failed stay so with the items as told, an expired action is never pending again, and one in conflict can no longer be taken |
| SalesRuns.SalesConversation.ApplyTurn | src/ai-agent/universal-sales-context.ts:445-612 | the edits of a customer turn, in the order of the code, add up to the specified new state |
| SalesRuns.SalesConversation.Reconciled | src/ai-agent/universal-sales-context.ts:687-771 | the edits of a catalogue read add up to the specified reconciled state |
| SalesRuns.SalesConversation.ApplyRead | src/ai-agent/ai-agent.service.ts:463-464 | the chat assigns the reconciled state over its own, so fields the read dropped stay |
| SalesRuns.TurnKeeps | src/ai-agent/universal-sales-context.ts:445-612 | a customer turn keeps the ledger: a total exactly beside unit price and quantity and equal to their rounded product, prices known, facts sourced |
| SalesRuns.ReconcileKeeps | src/ai-agent/universal-sales-context.ts:687-771 | a catalogue read keeps the ledger, its own rows' prices becoming known |
| SalesRuns.ReadKeeps | src/ai-agent/ai-agent.service.ts:463-464 | so does the merge of the reconciled state into the conversation |
| SalesRuns.EveryConversationKeepsTheLedger | src/ai-agent/universal-sales-context.ts:445-771 | after any conversation from the empty state a total exists exactly beside a unit price and a quantity and is their rounded product, every price held stood in some catalogue row, and facts are proposed by the customer or decided by the catalogue |
| SalesRuns.MovedSelectionDropsPrice | src/ai-agent/universal-sales-context.ts:459-612 | with a product selected, no offer accepted and no bar in what is held, named or found, a turn keeps the selection or leaves no price; a price held is dropped if and only if the turn starts afresh or wants other attributes |
| SalesRuns.TurnDropsPriceIff | src/ai-agent/universal-sales-context.ts:459-567 | for any values: a price held is dropped if and only if the turn switches topic, clears an unavailable selection, names another product or family, or wants attributes that are written down differently |
| SalesRuns.BarHidesAMove | src/ai-agent/universal-sales-context.ts:517-567 | a turn from model a|b without storage to model a with storage b is such a move written down alike: it keeps the old price |
| SalesRuns.BarWitness | src/ai-agent/universal-sales-context.ts:517-567 | a stored state and an understanding that make such a turn, with its price |
| SalesRuns.JoinIsInjective | src/ai-agent/universal-sales-context.ts:517-567 | bar-free attribute lists written down alike are equal |
| SalesRuns.TurnNeverInventsPrice | src/ai-agent/universal-sales-context.ts:445-612 | the unit price after a turn is the one before it or the accepted offer's |
| StoredState.TextsAreReread | src/ai-agent/universal-sales-context.ts:211-289 | a stored slot, fact or accepted name is read back exactly if its text is not blank, trimmed and cut at 300 characters; facts keep status and source |
| StoredState.NumbersAreReread | src/ai-agent/universal-sales-context.ts:221-241 | negative prices and quantities not above zero are dropped, and a quantity is at most a million |
| StoredState.OffersAreReread | src/ai-agent/universal-sales-context.ts:242-272 | the first five offers and ten names that can be read are kept; the single offer is the stored one, else the first of the list, and makes up the list if there is none |
| StoredState.NamedIff | src/ai-agent/universal-sales-context.ts:473-480 | a turn names a slot if and only if its text is not blank, cut at 500 characters |
| StoredState.OffersAfterAcceptance | src/ai-agent/universal-sales-context.ts:1158-1186 | accepting an offer keeps the list it was chosen from, whatever else the turn names |
| StoredState.RoundedIff | src/ai-agent/universal-sales-context.ts:1259-1261 | money is rounded to the nearest hundredth, halves upwards |
| SalesFacts.FactsAfterFinding | src/ai-agent/universal-sales-context.ts:510-515 | a product found in the text when none is held or named is the customer's proposal, with its family |
| SalesFacts.AcceptedOfferIsSelected | src/ai-agent/universal-sales-context.ts:1158-1186 | a turn that accepts an offer and names nothing selects exactly the offer: its product, else family, else name, its attributes, the variant or else the model, each verified by the catalogue, and nothing of the selection before |
| SalesFacts.SelectionAfterTurn | src/ai-agent/universal-sales-context.ts:445-567 | the whole selection after any turn, key by key: what is named, else found anew in the text, else what the model implies, else what was chosen |
| SalesFacts.FactsAfterTurn | src/ai-agent/universal-sales-context.ts:517-564 | storage, color or size newly named or found in the text is the customer's proposal of that value, and otherwise its fact stays |
| SalesFacts.QuantityAfterTurn | src/ai-agent/universal-sales-context.ts:569-572 | the quantity understood, else a new one found in the text, at most a million, else the one held |
| SalesFacts.QuotesAfterTurn | src/ai-agent/universal-sales-context.ts:598-601 | a price held after a turn is the quoted one, and another price quoted before becomes the previous quote |
| SalesFacts.OffersAfterTurn | src/ai-agent/universal-sales-context.ts:453-488 | offers survive a turn without acceptance, unless it switches topic or names something that none of them matches |
| SalesFacts.TopicSwitchForgets | src/ai-agent/universal-sales-context.ts:453-459 | a topic switch leaves nothing but the intent |
| SalesFacts.UnavailableIsCleared | src/ai-agent/universal-sales-context.ts:460-466 | clearing an unavailable selection drops exactly the attributes found unavailable, and the price |
| SalesFacts.FactsAfterRead | src/ai-agent/universal-sales-context.ts:687-771 | after a catalogue read, key by key: the slots of the scope verified if in stock, those alike to the most specific slot unavailable if not, the product itself if there is none such, and no other fact changed |
| SalesFacts.FactsAfterMerge | src/ai-agent/ai-agent.service.ts:463-464 | the conversation takes the facts over, unless the read leaves none |
| SalesFacts.OffersAfterRead | src/ai-agent/universal-sales-context.ts:1034-1062 | a read with rows to offer puts the five best ranked of the first twenty-five in place of the offers; without any, nothing changes |
| SalesFacts.RankedKeepsTies | src/ai-agent/universal-sales-context.ts:1034-1062 | offers of one rank keep the order of their rows |
| SalesFacts.PublicPricesAre | src/ai-agent/universal-sales-context.ts:710-714 | the public prices of a read are the prices of its rows that are not negative, each once |
| SalesFacts.WhenOffersAreTaken | src/ai-agent/universal-sales-context.ts:716-770 | which reads replace the offers, and with which rows |
| SalesRuns.ReadsLeaveSelection | src/ai-agent/universal-sales-context.ts:687-771 | a catalogue read changes neither slots, quantity nor accepted offer, beyond re-reading the stored state |
| SalesRuns.ReadsKeepSelectionIff | src/ai-agent/universal-sales-context.ts:211-289 | that re-reading changes nothing if and only if the slots are trimmed, not empty and at most 300 characters long |
| SalesRuns.LongNameIsCut | src/ai-agent/universal-sales-context.ts:221-223 | a turn stores a product name of 301 letters and any read that follows cuts it to 300 |
| SalesRuns.ReconciledPrice | src/ai-agent/universal-sales-context.ts:716-770 | the reconciled state has the one public price, no price after an ambiguous or rejecting read, and the old price otherwise |
| SalesRuns.ReadsNeverTakePriceAway | src/ai-agent/ai-agent.service.ts:463-464 | the conversation keeps a price that the read dropped: after a rejected or ambiguous read it has none if and only if it had none before |
| SalesRuns.RankedIsPermutation | src/ai-agent/universal-sales-context.ts:1034-1062 | ranking offers loses and invents none |
| SalesRuns.RankedIsDescending | src/ai-agent/universal-sales-context.ts:1034-1062 | and puts the best ranked first |
| EditDistance.Levenshtein | src/ai-agent/sales-product-knowledge-match.ts:132-145 | the loop over one row returns the edit distance of any two strings |
| EditDistance.NextRow | src/ai-agent/sales-product-knowledge-match.ts:136-142 | one pass turns row i - 1 of the distance matrix into row i in place |
| EditDistance.DistanceIsMinimal | src/ai-agent/sales-product-knowledge-match.ts:132-145 | the distance is the least number of single-character insertions, removals and replacements: such a chain exists and none is shorter |
| EditDistance.Symmetric | src/bito/bito-tool-bridge.service.ts:886-899 | the distance does not depend on the order of its arguments |
| EditDistance.Triangle | src/bito/bito-tool-bridge.service.ts:886-899 | triangle inequality |
| EditDistance.Bounds | src/bito/bito-tool-bridge.service.ts:886-899 | between the difference of the lengths and the longer length |
| EditDistance.ZeroOnlyOnEqual | src/bito/bito-tool-bridge.service.ts:886-899 | zero exactly on equal strings |
| EditDistance.ChainIsNoShorter | src/ai-agent/sales-product-knowledge-match.ts:132-145 | any chain of edits is at least as long as the distance |
| KnowledgeMatch.TokenSimilarity | src/ai-agent/sales-product-knowledge-match.ts:122-130 | the shortcuts for equal, empty and prefix tokens give the general formula |
| KnowledgeMatch.ShortcutAgrees | src/bito/bito-tool-bridge.service.ts:876-884 | the prefix shortcut is the ratio of lengths, which is one minus distance over longer length |
| KnowledgeMatch.ThresholdIsDistance | src/ai-agent/sales-product-knowledge-match.ts:91-96 | passing the 0.84 threshold is a bound on the edit distance |
| KnowledgeMatch.ShortWordsAreExact | src/ai-agent/sales-product-knowledge-match.ts:91-96 | up to six characters the fuzzy comparison accepts equal words only |
| KnowledgeMatch.FuzzyPartnersAreClose | src/ai-agent/sales-product-knowledge-match.ts:91-96 | accepted words differ in length by less than a fifth of the shorter |
| KnowledgeMatch.OtherModelNeverAuthorises | src/ai-agent/sales-product-knowledge-match.ts:62-96 | a saved row that lacks a numeric token of the query never authorises it, unless the whole text is equal |
| KnowledgeMatch.AuthorisesIff | src/ai-agent/sales-product-knowledge-match.ts:62-96 | a row authorises a query if and only if one of its texts is the query, or one and the same text holds every token of it that counts, numeric ones exactly and words within the edit bound, and some token does count |
| JsonScanner.JsonDocuments | src/bito/bito-mcp-payload.ts:12-42 | the scanner loop returns the parsed balanced slices of the text, none over the length cap |
| JsonScanner.ScanText | src/bito/bito-mcp-payload.ts:16-41 | one pass over the characters equals the recursive description of the slices |
| JsonScanner.Advance | src/bito/bito-mcp-payload.ts:19-39 | one character: a slice comes out exactly when the outermost bracket closes, nothing pending is lost |
| JsonScanner.AddDocument | src/bito/bito-mcp-payload.ts:36 | a slice that does not parse is skipped and nothing else changes |
| JsonScanner.SlicesAreGroups | src/bito/bito-mcp-payload.ts:12-42 | on any text every slice returned is one well-nested object or array with its strings and escapes |
| JsonScanner.PiecesAreSkipped | src/bito/bito-mcp-payload.ts:24-39 | well-nested content with string literals is passed over without touching the bracket stack |
| JsonScanner.PiecesFound | src/bito/bito-mcp-payload.ts:24-39 | conversely, what was passed over before a bracket closed is well-nested content |
| JsonScanner.EmbeddedDocumentsAreFound | src/bito/bito-mcp-payload.ts:12-42 | documents embedded in text without opening brackets are found, all of them, in order, and nothing else |
| JsonScanner.PrintedDocumentsRoundTrip | src/bito/bito-mcp-payload.ts:12-42 | objects and arrays printed with legal escapes (section 7 of RFC 8259) into such text and scanned come back as the same list |
| JsonScanner.BrokenGroupIsSkipped | src/bito/bito-mcp-payload.ts:24-39 | a group closed by the wrong bracket is skipped up to that bracket |
| JsonScanner.UnclosedGroupHidesTheRest | src/bito/bito-mcp-payload.ts:16-41 | behind a bracket that is never closed nothing is found |
| JsonScanner.ParsedMeans | src/bito/bito-mcp-payload.ts:36 | slices that do not parse are left out and the others keep their order |
| SseReader.ReadRpcBody | src/bito/bito-mcp.client.ts:263-290 | the chunk loop answers what a reader of the whole body would: split once, first event with the expected id; over the cap it fails at the read that passes it |
| SseReader.ReadTail | src/bito/bito-mcp.client.ts:271-285 | at the end of the stream the unfinished tail counts as an event |
| SseReader.InspectEvents | src/bito/bito-mcp.client.ts:277-283 | first event whose data parses and carries the id |
| SseReader.SplitIsOnline | src/bito/bito-mcp.client.ts:273-275 | splitting the kept tail with the next chunk gives the events of the whole text, also when a chunk ends inside a separator |
| SseReader.EarlyMatchStands | src/bito/bito-mcp.client.ts:277-283 | an answer given before the body ended is the answer of the whole body |
| SseReader.SentFramesAreRead | src/bito/bito-mcp.client.ts:273-283 | of the frames a server sent, the first one with the expected id is returned, however the network cuts them |
| SseReader.TakenIsUnique | src/bito/bito-mcp.client.ts:271-272 | the read at which the size cap strikes is determined by the bytes alone |
| SseReader.OversizedIsRefusedIff | src/bito/bito-mcp.client.ts:271-272 | a body over four million bytes is refused if and only if no event closed before the cap matched |
| SseReader.EventDataIsJoined | src/bito/bito-mcp.client.ts:273-283 | the data of an event are those of its data lines, without the white space before them, joined by line feeds |
| FolderForest.FolderService.AssertParentAllowed | src/files/files.service.ts:265-275 | the ancestor walk with its moving cursor equals the specified walk, with its refusals |
| FolderForest.FolderService.CreateFolder | src/files/files.service.ts:215-222 | creates the row or reports the refusal and changes nothing; the forest is kept |
| FolderForest.FolderService.UpdateFolder | src/files/files.service.ts:224-233 | renames and re-parents in one write, or refuses and changes nothing; the forest is kept |
| FolderForest.FolderService.DeleteFolder | src/files/files.service.ts:235-245 | deletes a folder without children and unfiles its files, or refuses; the forest is kept |
| FolderForest.WalkAllowsIff | src/files/files.service.ts:265-275 | the walk cut at 100 steps allows a parent if and only if it is not below the folder and at most a hundred levels deep |
| FolderForest.LinkKeepsForestIff | src/files/files.service.ts:224-233 | writing a parent link keeps the forest if and only if at that moment the folder is not the parent or above it |
| FolderForest.ForestHasNoCycle | src/files/files.service.ts:215-275 | in a forest every ancestor is a folder of the same owner and no folder is its own ancestor |
| FolderForest.OpKeeps | src/files/files.service.ts:200-245 | each operation keeps folders a forest and files in folders of their owner |
| FolderForest.AnySequenceKeepsForest | src/files/files.service.ts:200-275 | so does any sequence of creates, updates, deletes and filings |
| FolderForest.CreatedIff | src/files/files.service.ts:215-222 | a folder is created if and only if its parent, if any, is the owner's and no sibling has the name; nothing else changes |
| FolderForest.UpdatedIff | src/files/files.service.ts:224-233 | a folder is renamed and moved if and only if it is the owner's, the new parent is another own folder, not below it and at most a hundred levels deep, and no sibling has the name; nothing else changes |
| FolderForest.WalkRefuses | src/files/files.service.ts:265-275 | why a parent is refused, in a forest: the folder is met within a hundred steps, else the parent is not the owner's, else it is too deep |
| FolderForest.DeletedIff | src/files/files.service.ts:235-245 | a folder is removed if and only if it is the owner's and has no children; its files, and no others, are unfiled |
| FolderForest.FiledIff | src/files/files.service.ts:200-213 | a file is filed if and only if it and the folder are the owner's |
| FolderForest.AnySequenceKeepsNames | prisma/schema.prisma:319-333 | siblings keep different names through any sequence of operations |
| FolderForest.RemovalKeepsForest | prisma/schema.prisma:319-333 | the foreign key's SET NULL keeps the forest even if a child appeared after the children were counted |
| FolderForest.InterleavedReparentsCanCycle | src/files/files.service.ts:228-233 | check and write are separate calls: two re-parentings checked before either writes form a cycle |
| RefreshTokens.TokenTable.RotateToken | src/auth/auth.service.ts:172-190 | the rotation transaction revokes and replaces an unrevoked token, and changes nothing otherwise |
| RefreshTokens.StepKeepsInvariant | src/auth/auth.service.ts:122-204 | every step keeps secrets unique and each exchanged token revoked and credited to one call |
| RefreshTokens.EachTokenIsExchangedOnce | src/auth/auth.service.ts:165-196 | however many refreshes race with one token, at most one gets a new token |
| RefreshTokens.RotationTradesOneForOne | src/auth/auth.service.ts:172-196 | a rotation step leaves the number of unrevoked tokens as it was |
| RefreshTokens.OnlySignInAddsTokens | src/auth/auth.service.ts:172-196 | no step but a sign-in raises the number of unrevoked tokens |
| RefreshTokens.TokensWithinSignIns | src/auth/auth.service.ts:122-287 | over every run, tokens in force never outnumber the sign-ins so far |
| RefreshTokens.RevocationIsFinal | src/auth/auth.service.ts:265-276 | after a password change, reset or block has committed, no refresh of that user begun earlier and not finished ever issues a token |
| RefreshTokens.DoomedForever | src/admin/admin.service.ts:110-118 | a call whose token's rows are all revoked stays without success through every further step, unblocking included |
| RefreshTokens.CallsAdvance | src/auth/auth.service.ts:122-196 | under every step of anyone a call stays where it is, or checks its user, then looks its token up, then exchanges it, in this order and each decided by the rows and blocks of that moment |
| RefreshTokens.RefreshSucceedsIff | src/auth/auth.service.ts:122-204 | a refresh that nothing interrupts exchanges its token if and only if the user is not blocked and the token is live and has not run out; then that token is revoked and the new one stored, and otherwise no token changes |
| ToolLoop.RunRounds | src/ai-agent/ai-agent.service.ts:524-642 | the bounded loop over rounds equals its specification and returns how the turn ended |
| ToolLoop.RunCalls | src/ai-agent/ai-agent.service.ts:571-616 | the calls of a round are handled in order, those needing confirmation collected |
| ToolLoop.RunCall | src/ai-agent/ai-agent.service.ts:574-615 | a call is answered from memory, refused, held back, or executed as the operation that the finance override makes of it, and remembered by the name and arguments asked |
| ToolLoop.EverySentTranscriptIsPaired | src/ai-agent/ai-agent.service.ts:524-642 | every input sent to the model in a turn, at most six, pairs each function call with one output, given fresh call ids |
| ToolLoop.PairedCallHasOneOutput | src/ai-agent/ai-provider.service.ts:131-148 | pairing read by position: one output, later than its call, and the id is not called again |
| ToolLoop.AnsweredRoundSettles | src/ai-agent/ai-provider.service.ts:131-170 | a paired transcript with the model's items and the outputs of its calls is paired again |
| ToolLoop.TurnRunsOnceIff | src/ai-agent/ai-agent.service.ts:416-616 | over the whole turn no operation is executed twice, if and only if among the first let-through calls of the rounds played no two stand for one operation and none for a read made before the rounds |
| ToolLoop.RepeatsIff | src/ai-tools/ai-input-normalizer.ts:72-80 | the same for any calls and any operations executed before |
| ToolLoop.PlainTurnRunsOnce | src/ai-agent/ai-agent.service.ts:524-616 | so nothing runs twice without a finance read before the rounds, for a message that does not trigger the override and a model that spells each input one way |
| ToolEndings.TurnEndsIff | src/ai-agent/ai-agent.service.ts:524-642 | how a turn ends, from the model's replies and the executions alone: answered, failed, handed over for confirmation or given up after six rounds, in the first round that does not ask for tools with nothing waiting |
| ToolEndings.RoundHandsOver | src/ai-agent/ai-agent.service.ts:592-640 | a round hands over exactly its first, let-through calls whose executions ask for confirmation, in order |
| ToolEndings.AnsweredIff | src/ai-agent/ai-agent.service.ts:571-616 | a call of a round gets an output if and only if it does not wait for confirmation |
| ToolEndings.ReasoningIsSentBack | src/ai-agent/ai-provider.service.ts:131-170 | an answer with reasoning goes back item by item, any other as its calls alone |
| ToolLoop.RoundsRunFirstAsks | src/ai-agent/ai-agent.service.ts:524-616 | what the rounds run are the first asks, not remembered and let through, of the calls in the rounds they play, in order, and what they execute are the operations these stand for |
| ToolLoop.EachAskRunsOnce | src/ai-agent/ai-agent.service.ts:574-580 | each name-and-arguments fingerprint the model asks for runs at most once in a turn, and that of the inventory read made before not at all |
| ToolLoop.FinanceReadCanRunTwice | src/ai-agent/ai-agent.service.ts:509-522 | the finance read made before the rounds is not remembered: a model that asks for it gets it executed again |
| ToolLoop.TodayReadRunsTheFinanceReadAgain | src/ai-agent/ai-agent.service.ts:584-590 | so does a model that asks for the figures of today, which the override turns into the same read |
| ToolLoop.TwoNamesRunOneOperation | src/ai-tools/ai-input-normalizer.ts:72-80 | two differently named finance reads in one reply execute the same operation twice |
| ToolLoop.SpellingRunsTheInventoryReadAgain | src/ai-agent/ai-agent.service.ts:490-496 | the inventory read made before the rounds runs again for arguments spelled with a blank |
| AmountNormalizer.AmountIsExact | src/ai-tools/ai-input-normalizer.ts:4-23 | every amount understood is written as exactly the numeral times 1, 1,000 or 1,000,000, read by an independent character-by-character meaning; nothing is rounded |
| AmountNormalizer.ReadingIsExact | src/ai-tools/ai-input-normalizer.ts:9-16 | dropping blanks, ungrouping commas or turning a comma into a point leaves the meaning of the numeral as it was |
| AmountNormalizer.WritingIsExact | src/ai-tools/ai-input-normalizer.ts:17-22 | stripping zeros, shifting and padding give a numeral of exactly the scaled value |
| AmountNormalizer.TwiceIsOnceIff | src/ai-tools/ai-input-normalizer.ts:4-23 | normalising again changes nothing, if and only if the amount is not a zero with a unit and fewer decimals than the unit has zeros |
| AmountNormalizer.ZeroMillionShrinks | src/ai-tools/ai-input-normalizer.ts:4-20 | the exception: the text 0 mln is normalised to seven zeros, and seven zeros to one |
| AmountNormalizer.UnderstoodIff | src/ai-tools/ai-input-normalizer.ts:4-23 | text is understood if and only if it starts with a numeral, a unit or nothing follows, and without blanks the numeral is grouped in thousands or has at most one decimal mark; the amount then is the numeral times its unit |
| AmountNormalizer.GroupsAreJoined | src/ai-tools/ai-input-normalizer.ts:12-13 | one to three digits and then groups of three, each behind a comma, are read as their digits without the commas |
| AmountNormalizer.GroupedIsInGroups | src/ai-tools/ai-input-normalizer.ts:12-13 | and no other numeral is read so |
| AmountNormalizer.PlainWithUnitIsRead | src/ai-tools/ai-input-normalizer.ts:9-20 | any plain numeral with a unit, a blank between them or not, is read as that numeral with that unit |
| AmountNormalizer.CurrencyIsDropped | src/ai-tools/ai-input-normalizer.ts:7 | an amount is read the same with the currency behind it |
| UzbekNumerals.SpelledNumbersAreReadBack | src/ai-agent/ai-voice.service.ts:129-138 | for every whole number the spoken text, cut at blanks and summed word by word from left to right, gives the number back |
| UzbekNumerals.WordsAddUp | src/ai-agent/ai-voice.service.ts:131-136 | the words below a thousand million add up group by group to the number |
| UzbekNumerals.SpellingIsInjective | src/ai-agent/ai-voice.service.ts:130-138 | no two numbers are spoken alike |
| ZonedMidnight.MidnightIsFoundIff | src/common/date.utils.ts:71-78 | with offsets within 15 hours and at most one change of offset nearby, the two passes return an instant showing that midnight if and only if one exists |
| ZonedMidnight.DayBeginsIff | src/common/date.utils.ts:71-78 | the instant returned separates the times before that midnight from those after it if and only if the change of offset is clear of that midnight, boundaries decided exactly |
| ZonedMidnight.ForwardAtMidnightWestAndEast | src/common/date.utils.ts:71-78 | a clock put forward at midnight: five hours behind UTC the day is made to begin at eleven the evening before, two hours ahead it begins right |
| ZonedMidnight.RangeIsTheDay | src/common/date.utils.ts:80-86 | the day range then holds the instants of that calendar day and no others |

## Left out

- Eviction of idle generations, receipts and fragment buckets after their time to live: runs are modelled without it.
- Generations across several processes: the maps are per process, and so is the model; only receipts are shared.
- The moment between the end of a reservation and the start of its queued turn: the two queues are modelled separately.
- A receipt table that appears or disappears in the middle of a run.
- Floating point: prices, quantities and similarities are reals, page numbers and counts are integers; fractional or
  non-finite numbers in paging metadata are not modelled.
- Regular expressions and word lists of the sales dialogue, product parsing, family inference, offer resolution and
  rank weights: arbitrary functions in `SalesState`. Contact, delivery, payment and stage fields are not modelled.
- Choosing the record array inside a payload, unwrapping and combining MCP results, redaction of text: pages arrive
  with their records and metadata.
- The tool listing loop and the schema cache of the MCP bridge.
- `JSON.parse`, `TextDecoder` and the id comparison: `JsonScanner` and `SseReader` take them as functions or as decoded
  chunks. Replies that are not event streams are not modelled.
- Password checks, JWT signatures, bcrypt comparison of older tokens and the lookup by fingerprint: a refresh presents
  a secret, and only issued secrets get past the signature.
- Abort signals, streaming events, usage limits and saved messages in the tool loop; the texts of tool results.
- Deleting a conversation or a user together with its rows; activity records and notifications.
- AgentActions.ItemsRunOnceInOrder: an item cut short by a crash counts as begun; whether its write took place is not
  modelled.
- AgentActions.AnswersStayTrue: nothing is said of an action that was not found, since it may be created later.
- PagedServers.PageNumbersReadWhole: a total or a page count that changes from page to page is not covered.
- ToolLoop.TurnRunsOnceIff: an argument object is its currency and its other fields in canonical form; the patterns that
  recognise a message about all time are one flag, and what execution makes of its input is not modelled.
- AmountNormalizer.AmountIsExact: speaks of text only; JavaScript numbers are passed through `String` by the code.
- UzbekNumerals.SpelledNumbersAreReadBack: from a thousand million on the text is the decimal digits, which matches
  JavaScript up to 10^21; the model builds the list of words first and then puts blanks between them.
- ZonedMidnight.MidnightIsFoundIff: a second change of offset within 15 hours of the same midnight is not covered.
- RefreshTokens.TokenTable.RotateToken: the class holds the table only; the awaits around the transaction are steps
  of the protocol.
- Relative dates, file upload, search, finance sums, controllers and configuration: no algorithm of this kind.
