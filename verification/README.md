# Scout unit site: calendar feeds, ledger and approvals

A Dafny model of the parts of the Scout unit website that must not go wrong quietly: the iCalendar feed it
publishes and the external feeds it copies in, the double-entry ledger with its approvals, corrections, bank
reconciliation and fundraiser credits, the month view, and the two kinds of attempt counter.

`dafny verify dfyconfig.toml` checks the whole project.

## How the model is laid out

- **Feeds.** `Text`, `CivilTime`, `TimeFormat`, `Escaping`, `Folding`, `Properties` and `Recurrence` model the pieces of
  the iCalendar writer and reader; `ICalendar` and `FeedReader` put them together, loops and mutable state included;
  `FeedRoundTrip` proves that the reader undoes the writer, and `FeedUrls` for exactly which URLs; `RuleText` and
  `RecurringFeeds` prove what the reader makes of a written rule and of the dates taken out of it. A string is a sequence
  of octets and an instant a number of seconds since 0001-01-01, so the zero instant is the zero time of the program. The
  format is that of sections 3.1, 3.3.5, 3.3.10, 3.3.11, 3.6.1 and 3.8.5 of RFC 5545.
- **Copying a feed in.** `FeedSync` says what one refresh and one decision do to the calendar tables; `FeedSyncLaws`,
  `FeedSyncStability`, `FeedSyncDecisions` and `FeedSyncDuplicates` prove what holds over any sequence of refreshes,
  decisions and edits, and `FeedSyncContents` what is shown of an offer; `FeedStore` runs the statements one after
  another on mutable tables.
- **Ledger.** `Ledger` defines the tables and every operation; `LedgerInvariants` and `LedgerTheorems` prove what every
  run keeps, `LedgerTransfers` and `LedgerEvents` what becomes of a request; `Reports`, `BankReconciliation` and
  `Storefront`/`StorefrontTheorems`/`StorefrontOnce` build on it;
  `LedgerStore` and `StorefrontStore` are the imperative forms. Amounts are 64-bit and every sum the program forms in 64 bits
  wraps here too, while sums formed by the database are exact and must fit when they are read back.
- **Concurrent approvals.** `Approval` models any number of database transactions deciding requests at once, one SQL
  statement a step, with row locks, waiting, refusal, and a cut-off at any point; `ApprovalLocking`, `ApprovalSafety` and
  `ApprovalAlone` prove what locking gives, what it does to the money, and that a transaction on its own is `Decide`;
  `ApprovalRaces` shows interleavings that need either half of the range `ApprovalSafety` asks for.
- **Month view and counters.** `MonthGrid`, `RateLimit` and `Lockout`.

Whatever is not the program's to decide is a parameter: the clock, which password is right, which of two equally early
events the database names first (`Offer.tie`), and the order in which transactions take their turns.

Five findings are stated as lemmas with the input or run that shows them, beside the theorem that holds instead:

- An approval compares a balance and its debits in 64 bits, so an account overdrawn to the very edge of that range can be
  debited once more (`LedgerTheorems.WrappedComparisonOverdraws`); `ApprovalGoesThroughIff` is the exact rule. A
  concurrent approval can then commit although in commit order it would have been refused
  (`ApprovalRaces.WrappedCheckIsNotSerial`).
- A bank statement completed after one with a later date makes the newest closing balance miss what it cleared
  (`BankReconciliation.BackdatedStatementDrifts`); `StatementsTelescopeIff` is the exact condition.
- A fundraiser order of exactly 100,000,000 items is accepted, but its allocation does not fit the quantity column, so its
  credit is posted and not recorded, and posted again the next time (`StorefrontTheorems.FullOrderIsCreditedTwice`);
  no other accepted size is affected (`StorefrontOnce.CreditedOnceIff`).
- A feed that lists one UID with two contents can import on the next refresh what it held on the last one
  (`FeedSyncDuplicates.DuplicateUidsAreNotStable`); `StableIffOneContent` is the exact condition.
- The writer neither escapes nor checks a URL. `FeedUrls.RoundTripIffUrlsKept` is the exact condition under which one
  survives, and `BrokenUrlReadsCancelled` a URL whose event comes back canceled. This is a fact about the library function
  alone: its one caller (`internal/calendar/render.go:13-33`) passes the site's address and a fixed path, without a line
  break, and such a URL survives (`PlainUrlIsKept`).

Where a comment in the program says more than its code does, the model follows the code: the recurrence reader stops by
week and not by candidate (`Recurrence.LastMondayIsLost`), one recurring event can expand to 501 occurrences rather than
500, and a continuation line is 76 octets long with its leading space.

## Model

| member | source | states |
|---|---|---|
| Escaping.UnescapeText | internal/icalendar/parse.go:437-460 | the index loop computes the recursive meaning of an escaped value, for every input, dangling backslashes included |
| Escaping.EscapeTextIsOnePass | internal/icalendar/render.go:109-121 | the six replacements in sequence never act on each other's output: they equal one pass over the value |
| Escaping.UnescapeEscape | internal/icalendar/render.go:109-121 | reading an escaped value gives the value back with its line breaks as LF |
| Escaping.EscapeIsInjective | internal/icalendar/render.go:109-121 | two values without CR are never written alike |
| Escaping.EscapeIsSingleLine | internal/icalendar/render.go:109-121 | an escaped value holds no line break, whatever the text |
| Folding.Builder.Line | internal/icalendar/render.go:128-143 | the loop that shrinks the value and moves the cut appends exactly the folded line to the output |
| Folding.FoldPiecesLaws | internal/icalendar/render.go:128-143 | the pieces join to the value, none is empty and none has more than 75 octets |
| Folding.CutIsBoundary | internal/icalendar/render.go:128-143 | in well-formed UTF-8 the cut falls between two characters |
| Folding.FoldKeepsCharactersWhole | internal/icalendar/render.go:128-143 | every physical line of a folded well-formed value is well formed |
| Folding.Unfold | internal/icalendar/parse.go:342-364 | the scanning loop that appends to the last line in place returns the rejoined lines, or the error for an overlong line |
| Folding.ReadBackIff | internal/icalendar/parse.go:350-352 | a folded value is read back unchanged exactly when no physical line ends in a CR of its own |
| Folding.UnfoldFolded | internal/icalendar/parse.go:342-364 | unfolding a folded list of content lines returns as many lines, and those same lines exactly when no physical line ends in a CR of its own |
| Properties.SplitUnquoted | internal/icalendar/parse.go:417-431 | the loop returns the pieces between separators outside quotes |
| Properties.JoinUnquotedPieces | internal/icalendar/parse.go:417-431 | with the separators put back, splitting loses nothing |
| Properties.SplitProperty | internal/icalendar/parse.go:381-415 | the quote-aware loop splits a line into name, parameters and value |
| Properties.SplitPlain | internal/icalendar/parse.go:381-415 | after a plain name everything else is the value, whatever it contains |
| Properties.SplitWithParam | internal/icalendar/parse.go:381-415 | parameters without quotes do not leak into name or value |
| Text.TrimPadded | internal/icalendar/parse.go:319 | trimming takes off all blanks around a text and nothing else |
| Text.UpperCapitalizes | internal/icalendar/parse.go:55 | upper-casing turns each of the 26 small letters into its capital and leaves everything else |
| TimeFormat.ParseFormatUTC | internal/icalendar/parse.go:318-337 | a printed instant with a four-digit year reads back as itself |
| TimeFormat.ParseFormatDate | internal/icalendar/parse.go:318-337 | a printed date reads back as midnight of that day, all-day |
| TimeFormat.ParseFloating | internal/icalendar/parse.go:318-337 | a time without the Z reads as the same instant |
| TimeFormat.FormatUTCIsInjective | internal/icalendar/render.go:102-104 | two instants that print alike are the same, for any year |
| ICalendar.Render | internal/icalendar/render.go:21-53 | the writer's calls on the shared builder produce the folded lines of the whole document, in order |
| ICalendar.RenderEvent | internal/icalendar/render.go:55-100 | one event appends its property lines, those that are empty left out, and an exclusive all-day DTEND |
| FeedReader.ParsedEvent.Set | internal/icalendar/parse.go:88-137 | each property updates the event under construction as specified, and nothing else |
| FeedReader.ParsedEvent.Expand | internal/icalendar/parse.go:140-189 | the loop yields the occurrences in the window that are not excepted, up to the cap |
| FeedReader.Parse | internal/icalendar/parse.go:40-78 | threading one mutable event through the lines yields the recursive reading of the document |
| FeedReader.ExpandIsCapped | internal/icalendar/parse.go:140-189 | one VEVENT yields at most 501 events |
| FeedReader.CapIsReached | internal/icalendar/parse.go:168-187 | and an unlimited evenly spaced rule over a long window yields exactly 501 |
| FeedReader.ExpansionHasDistinctUids | internal/icalendar/parse.go:168-187 | occurrences of one event carry pairwise distinct UIDs, unless its rule is weekly and repeats a weekday |
| RecurringFeeds.ExdateAdds | internal/icalendar/parse.go:124-136 | an EXDATE line adds exactly the dates it lists |
| RecurringFeeds.ExpandedAreTheRest | internal/icalendar/parse.go:140-189 | a recurring event yields, in order, its occurrences in the window up to the cap less the excepted ones, with the length and texts of the first |
| RecurringFeeds.RecurringEventIsRead | internal/icalendar/parse.go:60-189 | from its lines, the rule's parts in any order and any number of EXDATE lines: exactly those occurrences of that rule that no line names |
| RecurringFeeds.IncompleteEventIsDropped | internal/icalendar/parse.go:141-146 | an event without a start or without a UID adds nothing, whatever else it says |
| RecurringFeeds.ReadIffCalendar | internal/icalendar/parse.go:366-373 | a document without an overlong line is read at all exactly when one of its lines begins a calendar |
| FeedRoundTrip.DocumentUnfolds | internal/icalendar/render.go:21-143 | a rendered document unfolds into one line per property, and each is the line written exactly when every URL survives |
| FeedRoundTrip.ParseReadsBack | internal/icalendar/parse.go:40-137 | parsing a rendered feed returns its events that start in the window and have a UID, in order, each URL less the CRs at the ends of its physical lines |
| FeedRoundTrip.ParseUndoesRender | internal/icalendar/parse.go:40-137 | and exactly those events when their URLs survive |
| FeedRoundTrip.PlainEventsSurvive | internal/icalendar/parse.go:40-137 | events that are their own normal form and lie in the window come back unchanged |
| FeedRoundTrip.PlainIsNormal | internal/icalendar/render.go:55-121 | text without CR and whole days for all-day events suffice for that |
| FeedUrls.ParsedUrlsHoldNoLF | internal/icalendar/parse.go:40-137 | no event read from any document has an LF in its URL |
| FeedUrls.RoundTripIffUrlsKept | internal/icalendar/render.go:88-92 | events in the window come back if and only if no URL holds an LF or ends a physical line with a CR of its own |
| FeedUrls.PlainUrlIsKept | internal/calendar/render.go:13-33 | a URL without line breaks survives |
| FeedUrls.BrokenUrlReadsCancelled | internal/icalendar/render.go:88-92 | a short URL followed by a line break and a cancellation is written exactly like the canceled event, and read as it |
| Recurrence.ParseRRule | internal/icalendar/parse.go:201-241 | the loop over the rule's parts computes the rule they describe, bad parts ignored |
| RuleText.RuleIsRead | internal/icalendar/parse.go:201-241 | frequency, interval, count, end and days, written in any order, read back as that rule, and what is left out as its default |
| RuleText.ParseDayName | internal/icalendar/parse.go:227-236 | a two-letter day reads as that day, with or without an ordinal |
| RuleText.PartNamesFold | internal/icalendar/parse.go:208 | the names of the parts are read in either case |
| Recurrence.Occurrences | internal/icalendar/parse.go:250-289 | the walk with its early return is the per-step candidates flattened, clipped to the series, cut off at COUNT and then restricted to the window |
| Recurrence.WindowOnlyHides | internal/icalendar/parse.go:250-289 | a later window returns the occurrences of the full series from there on: COUNT is spent from the series start |
| Recurrence.OccurrencesAreDistinct | internal/icalendar/parse.go:250-305 | no instant occurs twice, unless a weekly rule repeats a weekday |
| Recurrence.OccurrencesAscend | internal/icalendar/parse.go:250-305 | the occurrences come in time order, unless a weekly rule names its weekdays out of week order |
| Recurrence.CompleteUnlessLastWeek | internal/icalendar/parse.go:261-287 | up to the step limit the reader returns all of the rule in the window but the days of the week in which it stops, as far as COUNT allowed them: nothing is missed if and only if none of those is in the window |
| Recurrence.LastMondayIsLost | internal/icalendar/parse.go:261-287 | a concrete weekly rule whose one occurrence, on the day it ends, is not returned |
| Recurrence.EvenSeries | internal/icalendar/parse.go:291-305 | a daily or plain weekly rule is an arithmetic progression that fills the step limit |
| Recurrence.StepKeepsDay | internal/icalendar/parse.go:291-305 | a monthly or yearly step keeps the day of the month and the time of day the given number of months ahead, and runs over when that month is shorter |
| FeedSync.FindConflict | internal/calendar/feedconflict.go:262-283 | the result is the earliest event that clashes and is not taken by another UID of the feed, and none only if there is no such event |
| FeedSyncContents.ClashesIffOverlapping | internal/calendar/feedconflict.go:262-283 | two events clash exactly when some instant lies in the one and within half an hour of the other |
| FeedSyncLaws.NewOfferIsHeldOrImported | internal/calendar/feedimport.go:279-305 | one step: a new UID is held exactly when something clashes, and otherwise imported with the offered content and the feed's visibility |
| FeedSyncLaws.CountsAddUp | internal/calendar/feedimport.go:239-305 | created, updated, held and ignored together count each offer that is not cancelled once |
| FeedSyncLaws.ReconcileIsOk | internal/calendar/feedimport.go:208-353 | a refresh keeps imports unique, conflicts about other people's events of the unit, holding one to one per feed, and ignored UIDs unheld |
| FeedSyncLaws.RefreshLosesNothing | internal/calendar/feedimport.go:244-340 | every offered UID ends up imported, held or ignored, and every event or conflict the feed keeps was offered |
| FeedSyncLaws.RefreshTouchesOnlyItsOwn | internal/calendar/feedimport.go:244-340 | events of others and the visibility of imports are unchanged, and another feed's conflict goes only with its event |
| FeedSyncStability.StillClashes | internal/calendar/feedconflict.go:262-315 | the event a UID is held against cannot be taken by another UID, so a held event is held again |
| FeedSyncStability.RefreshSettles | internal/calendar/feedimport.go:208-353 | after a refresh that lists each UID with one content, each offered event is ignored, on the calendar as offered, or held against a clash |
| FeedSyncContents.RefreshShowsOffers | internal/calendar/feedimport.go:262-313 | and what is imported or held shows the offered description, location, title or "(untitled)", start, and end if one was given |
| FeedSyncContents.CountsMean | internal/calendar/feedimport.go:239-340 | ignored, updated and removed each count what they are named after |
| FeedSyncStability.RefreshIsStable | internal/calendar/feedimport.go:208-353 | refreshing again from the same events, in any order and with any tie-breaking, creates and removes nothing and keeps all events and what is held, if each UID is listed with one content |
| FeedSyncDuplicates.DuplicateUidsAreNotStable | internal/calendar/feedimport.go:238-305 | with one UID listed with two contents a second refresh can import what the first held: a concrete calendar and feed |
| FeedSyncDuplicates.StableIffOneContent | internal/calendar/feedimport.go:208-353 | a feed refreshes to the same rows again, on every calendar and in every order, if and only if it lists each UID with one content |
| FeedSyncDecisions.KeepBothEffect | internal/calendar/feedconflict.go:217-227 | keeping both adds the held event and clears that conflict only |
| FeedSyncDecisions.ReplaceEffect | internal/calendar/feedconflict.go:206-235 | replacing deletes the old event with whatever was held against it, imports the incoming one and clears the conflict, everything else untouched |
| FeedSyncDecisions.SkipRulesOut | internal/calendar/feedconflict.go:196-204 | one step: skipping records the refusal, clears the conflict and changes nothing else |
| FeedSyncDecisions.EveryCalendarIsOk | internal/calendar/feedconflict.go:171-250 | the invariant holds after any sequence of refreshes, decisions and edits |
| FeedSyncDecisions.RefusalsStick | internal/calendar/feedimport.go:254-260 | over any later sequence a refused event that is not on the calendar is never held and never imported |
| FeedStore.Store.LoadExisting | internal/calendar/feedimport.go:213-234 | reading the feed's rows one by one builds the map of its imports by UID |
| FeedStore.Store.Reconcile | internal/calendar/feedimport.go:208-353 | the loops over offers and withdrawn imports make exactly the specified change and counts |
| FeedStore.Store.DeleteWithdrawn | internal/calendar/feedimport.go:318-327 | deleting one by one with cascades equals deleting all withdrawn imports at once |
| FeedStore.Store.ResolveConflict | internal/calendar/feedconflict.go:171-235 | the statements of a decision make exactly the specified change |
| Ledger.SortedKeys | internal/approval/approval.go:81-88 | the same keys, each once, in ascending order |
| Ledger.AccountProblem | internal/ledger/ledger.go:523-549 | no problem exactly when every posting is on an open account of the unit |
| LedgerStore.CheckPostings | internal/ledger/ledger.go:501-521 | the loop with its wrapping sum finds the first objection, or the accounts in order of first use |
| LedgerStore.DistinctProblem | internal/ledger/ledger.go:505-549 | checking each account once, where it first occurs, finds the same first problem as checking every posting |
| LedgerStore.CheckDebits | internal/approval/approval.go:170-223 | reading the debits and then checking account by account in ascending order finds the specified problem |
| LedgerStore.Store.InsertTransaction | internal/ledger/ledger.go:501-596 | a transaction is written whole or not at all, with the specified refusal, the database's own balance check included |
| LedgerStore.Store.RequestTripFundTransfer | internal/ledger/ledger.go:729-763 | a covered positive transfer is left pending with its request, and anything else refused |
| LedgerTransfers.TransferAcceptedIff | internal/ledger/ledger.go:729-763 | a transfer can be requested exactly when it is positive, covered, and between open accounts of the unit |
| LedgerTransfers.TransferRefusals | internal/ledger/ledger.go:730-748 | and which refusal it gets otherwise |
| LedgerTransfers.TransferMovesMoney | internal/ledger/ledger.go:742-745 | asked for it moves nothing; approved, whatever happened in between, the Scout has exactly its amount less and the fund that much more, and nobody else is touched |
| LedgerTransfers.DecidedAsAsked | internal/ledger/ledger.go:610-629 | any entry put up for approval moves nothing until it is approved, and then exactly what was asked |
| LedgerStore.Store.Decide | internal/approval/approval.go:107-251 | claim, checks, flip and roll-back change the tables exactly as the decision says |
| LedgerEvents.EveryEventShowsItsOutcome | internal/approval/approval.go:134-146 | on every run an event that one request is about is waiting, published or not published exactly as that request is pending, approved or declined |
| LedgerEvents.OthersLeaveEvent | internal/approval/approval.go:134-146 | and nothing but its own submissions and decisions changes an event |
| LedgerEvents.EventDecision | internal/approval/approval.go:107-146 | deciding about an event always succeeds and touches only that event and its request |
| LedgerEvents.SubmittedEvent | internal/approval/approval.go:33-54 | one step: a submitted event waits for a new pending request of its unit |
| LedgerEvents.ConcurrentEventsShowOutcomes | internal/approval/approval.go:107-251 | in every interleaving the events show what their requests became, and what each committed transaction decided |
| LedgerStore.Store.ReverseTransaction | internal/ledger/ledger.go:657-712 | the loop posts the opposite of an eligible entry and links it |
| LedgerStore.Store.CloseTripFund | internal/ledger/ledger.go:388-427 | closing changes the one account, or refuses with the reason |
| LedgerStore.Store.StartReconciliation | internal/ledger/reconciliation.go:146-204 | opens from the newest completed closing balance unless one is open |
| BankReconciliation.StartedAsAsked | internal/ledger/reconciliation.go:146-190 | it starts exactly when the account is the unit's and has none open, with the date and closing balance given |
| LedgerStore.Store.SetPostingCleared | internal/ledger/reconciliation.go:315-347 | moves a stamp only between none and this reconciliation |
| BankReconciliation.TickMovesCleared | internal/ledger/reconciliation.go:315-347 | ticking adds a posting to what is cleared, once however often, unticking takes it out, and no balance moves |
| BankReconciliation.TickAcceptedIff | internal/ledger/reconciliation.go:315-347 | and is possible exactly for a posting in force on the account of an open reconciliation of the unit, not cleared elsewhere |
| LedgerStore.Store.CompleteReconciliation | internal/ledger/reconciliation.go:352-397 | signs off exactly when the 64-bit difference is zero |
| LedgerStore.Store.DeleteReconciliation | internal/ledger/reconciliation.go:404-438 | removes an open reconciliation and releases its stamps |
| LedgerInvariants.EntryChecks | internal/approval/approval.go:195-223 | the ordered check passes exactly when no debited account has a problem |
| LedgerInvariants.ApplyIsSound | internal/ledger/ledger.go:355-763 | every operation, accepted or refused, keeps the books sound, undoes nothing recorded, and never debits or lowers a closed account |
| LedgerInvariants.RunIsSound | internal/ledger/ledger.go:355-763 | so does any run: posted entries stay posted with the same postings, closed accounts stay closed |
| LedgerInvariants.EveryRunIsSound | internal/ledger/ledger.go:501-596 | every reachable entry has two or more nonzero postings inside its unit summing to zero, and requests agree with their entries |
| LedgerTheorems.MoneyIsConserved | internal/ledger/ledger.go:476-596 | in every reachable state each unit's totals, over all time or any period, add up to zero |
| LedgerTheorems.AcceptedIff | internal/ledger/ledger.go:501-549 | an entry is accepted exactly when it is balanced without wrapping, has no zero and stays on the unit's open accounts |
| LedgerTheorems.PostMovesExactly | internal/ledger/ledger.go:494-496 | an accepted entry moves each balance by its postings there, and a refused or pending one moves nothing |
| LedgerTheorems.RecordedAsAsked | internal/ledger/ledger.go:501-600 | one step: an accepted entry is recorded with the unit, kind, moment and postings asked for, stamped by nobody |
| LedgerTheorems.OpenedOnce | internal/ledger/ledger.go:177-287 | an account of a kind is opened on first use and is the same one ever after |
| LedgerTheorems.TripFundCreatedIff | internal/ledger/ledger.go:355-383 | a trip fund is created open exactly when the unit has none for the event |
| LedgerTheorems.ReversalsCancelExactly | internal/ledger/ledger.go:657-712 | on every run each entry has at most one reversal, none of a reversal, and every balance counts only entries that still stand |
| LedgerTheorems.ReversalTakesBack | internal/ledger/ledger.go:692-711 | an accepted reversal takes from each account what the entry had put there |
| LedgerTheorems.ReversalAcceptedIff | internal/ledger/ledger.go:670-711 | an eligible entry can be reversed exactly when its accounts are open and no amount is the smallest 64-bit value, which the database refuses at commit |
| LedgerTheorems.ClosesIff | internal/ledger/ledger.go:388-427 | one step: a trip fund closes exactly when it is the unit's, open, and at zero |
| LedgerTheorems.ClosedFundKeepsItsMoney | internal/ledger/ledger.go:388-427 | a fund closes at zero, stays closed, is never debited again and never falls below zero on any later run |
| LedgerTheorems.ApprovalGoesThroughIff | internal/approval/approval.go:148-231 | an approval goes through exactly when every debited account may be debited in the 64-bit comparison |
| LedgerTheorems.ApprovalNeverOverdraws | internal/approval/approval.go:195-231 | it posts the entry's cents everywhere, and leaves an account it debits at zero or more unless balance and debits together are below the 64-bit range, which takes an overdrawn account |
| LedgerTheorems.WrappedComparisonOverdraws | internal/approval/approval.go:218-222 | a concrete run in which the wrapped comparison lets an account below the 64-bit range |
| LedgerTheorems.DecidedAtMostOnce | internal/approval/approval.go:119-131 | a decided request is not found again, whatever happens in between |
| Reports.NetIsOwnChange | internal/ledger/reports.go:33-67 | a period's net is the total change over it of all the unit's balances but the external one |
| Reports.EntryCounts | internal/ledger/reports.go:54-62 | an entry in the period counts as income what it takes from the external account, as expense what it gives it, and never as both |
| Reports.AmountForAccount | internal/ledger/ledger.go:899-907 | the loop sums one account's postings of a transaction in 64 bits |
| Reports.StatementSection | internal/web/treasury.go:769-803 | one row per posted transaction in order, each carrying the balance on; for the range's own list the rows and the closing figure show the account's balances |
| Reports.StatementCloses | internal/ledger/ledger.go:869-907 | opening balance plus the posted lines of the range is the balance just after it |
| Reports.RunningBalanceIsBalance | internal/ledger/ledger.go:869-907 | opening balance plus the entries up to the last one of a moment is the account's balance at that moment |
| Reports.RowShowsBalance | internal/web/treasury.go:769-803 | so the 64-bit running field printed on the last row of a moment is that balance as 64 bits hold it, and the balance itself when it fits |
| BankReconciliation.EveryRunIsReconciled | internal/ledger/reconciliation.go:146-438 | on every run stamps, openings, sign-offs and the one open reconciliation per account stay consistent |
| BankReconciliation.CompletedStaysBalanced | internal/ledger/reconciliation.go:315-438 | a completed reconciliation keeps its record and its cleared total, and opening plus cleared equals closing modulo 2^64, and exactly when the sum fits, on any later run |
| BankReconciliation.BalanceIsAccountedFor | internal/ledger/reconciliation.go:146-438 | on every run a balance is newest closing plus ticked plus uncleared plus the drift of statements completed out of date order |
| BankReconciliation.StatementsTelescopeIff | internal/ledger/reconciliation.go:162-171 | newest closing plus ticked plus uncleared is the balance if and only if that drift is zero |
| BankReconciliation.StatementsTelescope | internal/ledger/reconciliation.go:146-397 | which holds whenever each reconciliation is started no earlier than those completed before it |
| BankReconciliation.OpenStatementAccountsForBalance | internal/ledger/reconciliation.go:162-171 | then the open statement's opening balance, what is ticked on it and what is uncleared are exactly the balance, when both sides fit in 64 bits |
| BankReconciliation.BackdatedStatementDrifts | internal/ledger/reconciliation.go:162-171 | a concrete run of two statements in the wrong order for which it fails |
| Approval.SameTablesSameRows | internal/approval/approval.go:148-223 | which rows a decision needs does not depend on anything another decision changes |
| ApprovalLocking.RunSysIsOk | internal/approval/approval.go:107-251 | in every interleaving no row is locked twice, an undecided request stays claimed by one transaction, and each commit is logged once |
| ApprovalLocking.EachRequestDecidedOnce | internal/approval/approval.go:119-131 | two committed transactions never decided the same request |
| ApprovalLocking.OnlyCommitsChangeBooks | internal/approval/approval.go:107-251 | one step: the books change only by a commit, and then by exactly that decision |
| ApprovalLocking.FailureLeavesPending | internal/approval/approval.go:195-231 | one step: a transaction that fails or is cut off after its claim leaves the request pending |
| ApprovalLocking.HoldsBeforeNeeds | internal/approval/approval.go:81-88 | one step: a transaction waits only for rows that come after all it holds: request, accounts ascending, then the row to flip |
| ApprovalLocking.NeverDeadlocked | internal/approval/approval.go:195-231 | while any transaction is unfinished one can run |
| ApprovalLocking.EverythingFinishes | internal/approval/approval.go:107-251 | no schedule keeps working longer than the work at the start, and one that cannot go on leaves everything finished |
| ApprovalSafety.LockedKeepsMoney | internal/approval/approval.go:195-223 | an account one transaction has locked loses nothing when another commits |
| ApprovalSafety.ConcurrentApprovalsNeverOverdraw | internal/approval/approval.go:148-231 | in every interleaving an approval leaves an account it debits at zero or more when it commits, if no decision's comparison with that account's balance at the start wraps below the range |
| ApprovalSafety.ConcurrentAccountsStayPositive | internal/approval/approval.go:148-231 | an account at zero or more at the start is at zero or more at every point of every interleaving, whatever the amounts |
| ApprovalSafety.ConcurrentDecisionsAreSerial | internal/approval/approval.go:107-251 | if the debited accounts neither wrap at the start nor can be credited beyond the range, then in every interleaving the committed decisions succeed one after another in commit order and end in the same books |
| ApprovalRaces.RaceOutcome | internal/approval/approval.go:195-231 | an expense is checked, a credit of its account commits, then the expense: in commit order both succeed exactly when the balance with the credit fits and covers the expense |
| ApprovalRaces.WrappedCheckIsNotSerial | internal/approval/approval.go:218-222 | so it fails for an account that wraps at the start, although credits keep it in range |
| ApprovalRaces.OverfullCheckIsNotSerial | internal/approval/approval.go:206-222 | and for one that does not wrap, but that the credit lifts past the range |
| ApprovalAlone.AloneIsDecide | internal/approval/approval.go:107-251 | statement by statement, a transaction on its own ends as the decision says, refusals included |
| Storefront.OrderTotal | internal/ledger/fundraiser_storefront.go:238-253 | the 64-bit loop accepts exactly the orders whose lines and exact total are in range, and its total is the exact one |
| Storefront.GoodByQuantityAndTotal | internal/ledger/fundraiser_storefront.go:238-253 | the limit on single prices shuts nothing out: items are accepted exactly when prices are positive, quantities from 1 to 10,000 and the total at most 100,000,000 cents |
| Storefront.RoundsToNearest | internal/ledger/ledger.go:1062-1068 | a percentage share is the nearest cent, halves away from zero |
| Storefront.CreditFor | internal/ledger/ledger.go:1061-1084 | a credit is positive and at most the gross amount |
| Storefront.PercentageCredit | internal/ledger/ledger.go:1061-1084 | a percentage is credited to the nearest cent, half a cent upwards, exactly when that is at least a cent and at most the gross |
| Storefront.FixedCredit | internal/ledger/ledger.go:1061-1084 | a fixed amount is credited for each item, exactly when that is positive and at most the gross |
| StorefrontTheorems.RecordOutcome | internal/ledger/ledger.go:1051-1122 | an allocation posts exactly when the rule yields a credit, is recorded exactly when its quantity also fits, and is backed by that entry |
| StorefrontTheorems.CreditOutcome | internal/ledger/fundraiser_storefront.go:402-434 | an order that is ready is credited its own fresh allocation exactly when that goes through, and otherwise stays as it is |
| StorefrontTheorems.EveryShopRunIsOk | internal/ledger/fundraiser_storefront.go:402-478 | in every reachable state an order has an allocation exactly when it is credited, its own, for its total, backed by its own posted entry |
| StorefrontTheorems.SettledForGood | internal/ledger/fundraiser_storefront.go:402-478 | a canceled order is never credited and a credited one keeps its allocation |
| StorefrontTheorems.CreditedExactlyWhenReady | internal/ledger/fundraiser_storefront.go:402-461 | an order becomes credited exactly by the second of being paid and being matched |
| StorefrontTheorems.OrderAfter | internal/ledger/fundraiser_storefront.go:402-478 | what any operation does to an order: which status it ends in, whose match it has, the fresh allocation it gets, and nothing else; only an order neither credited nor canceled can be canceled |
| StorefrontTheorems.PostsOncePerCredit | internal/ledger/fundraiser_storefront.go:402-478 | on every run an order of recordable quantity posts one entry if credited and none otherwise |
| StorefrontOnce.CreditedOnceIff | internal/ledger/fundraiser_storefront.go:402-478 | from any point of any run on, an order posts once per credit if and only if its quantity can be recorded or it was canceled before anything was posted; the only accepted quantity that cannot is 100,000,000 |
| StorefrontTheorems.FullOrderIsCreditedTwice | internal/ledger/ledger.go:1101-1117 | the one other accepted quantity is posted as often as it is marked paid: a concrete run |
| StorefrontTheorems.CreditsWithinTotals | internal/ledger/fundraiser_storefront.go:402-434 | total credits of orders never exceed the totals of credited orders |
| StorefrontStore.Desk.CreateFundraiserOrder | internal/ledger/fundraiser_storefront.go:220-297 | an order is recorded with its exact total or refused |
| Storefront.OrderedAsAsked | internal/ledger/fundraiser_storefront.go:220-297 | an order is accepted exactly when its names, items and fundraiser are good, and is then as asked for, at its exact total, waiting for payment |
| StorefrontStore.Desk.RecordFundraiserAllocation | internal/ledger/ledger.go:1051-1122 | the statements, of which a later one may fail after the posting, make the specified change |
| StorefrontStore.Desk.CreditOrderIfReady | internal/ledger/fundraiser_storefront.go:402-434 | counting the items and recording the allocation make the specified change |
| StorefrontStore.Desk.MarkFundraiserOrderPaid | internal/ledger/fundraiser_storefront.go:441-447 | a pending order becomes paid before the attempt to credit it |
| StorefrontStore.Desk.ResolveFundraiserOrderScout | internal/ledger/fundraiser_storefront.go:452-461 | the match is stored, on a credited order too, before the attempt to credit it |
| StorefrontStore.Desk.CancelFundraiserOrder | internal/ledger/fundraiser_storefront.go:468-478 | only a pending or paid order is canceled |
| MonthGrid.BuildMonthGrid | internal/calendar/calendar.go:492-550 | the nested loops over days and events build the specified weeks and the neighbouring months |
| MonthGrid.GridRange | internal/calendar/calendar.go:557-563 | the window is from the grid's first midnight to the midnight after its last day |
| MonthGrid.RowsAreWeeks | internal/calendar/calendar.go:492-550 | rows are whole weeks from Sunday to Saturday that follow each other day by day |
| MonthGrid.EachDayOnce | internal/calendar/calendar.go:508-516 | each day of the month has exactly one cell, marked as in the month |
| MonthGrid.InMonthIff | internal/calendar/calendar.go:511-516 | comparing the month alone marks exactly the days of this month |
| MonthGrid.ShownExactlyBetween | internal/calendar/calendar.go:518-534 | an event is on exactly the days between its start and end dates, flagged first and last only there |
| MonthGrid.WindowIsEnough | internal/calendar/calendar.go:188-196 | a grid built from the events the window fetches is the grid built from all events |
| MonthGrid.FetchedIsShown | internal/calendar/calendar.go:188-196 | and what it fetches is shown on some day, unless it ends before the day it starts |
| RateLimit.Limiter.Sweep | internal/ratelimit/ratelimit.go:119-125 | the deleting loop leaves exactly the windows that have not run out |
| RateLimit.Limiter.AllowRequest | internal/ratelimit/ratelimit.go:63-77 | counts in a running window, or sweeps and opens a new one |
| RateLimit.Limiter.IsBlocked | internal/ratelimit/ratelimit.go:88-97 | whether a running window is full, without counting |
| RateLimit.Limiter.Wait | internal/ratelimit/ratelimit.go:101-113 | the time until the key's window runs out, or zero |
| RateLimit.WaitIsExact | internal/ratelimit/ratelimit.go:88-113 | a key is blocked exactly when its next request would be refused, and then until the end of the wait; a request just after it opens a new window |
| RateLimit.SweepingIsInvisible | internal/ratelimit/ratelimit.go:63-125 | under a forward clock every answer is that of a limiter that never sweeps |
| RateLimit.SlidingBound | internal/ratelimit/ratelimit.go:63-77 | any closed stretch as long as the window sees at most twice the limit less one allowed for a key |
| RateLimit.SlidingBoundIsReached | internal/ratelimit/ratelimit.go:63-77 | and for every limit and window length a run in which one does |
| RateLimit.RefusedOnlyWhenBusy | internal/ratelimit/ratelimit.go:63-77 | a refusal means more than the limit came in within a window's length |
| Lockout.Guard.Authenticate | internal/auth/auth.go:234-274 | lockout check, password check, then recording or clearing |
| Lockout.Guard.CheckLockout | internal/auth/auth.go:289-313 | locked exactly when a live burst has reached the maximum |
| Lockout.Guard.RecordLoginFailure | internal/auth/auth.go:321-340 | a failure joins a live burst or starts a new one |
| Lockout.Guard.RecordAndCheckPasswordResetRequest | internal/auth/auth.go:370-395 | every request is counted, and allowed while the count is within the cap |
| Lockout.GuessingIsBounded | internal/auth/auth.go:234-340 | any closed 15 minutes without a login see at most 8 failed password checks for an address, although the count restarts by gap |
| Lockout.LockedOnlyAfterFailures | internal/auth/auth.go:289-340 | an address is locked out only after 8 failed checks since its burst began |
| Lockout.LockoutEnds | internal/auth/auth.go:289-313 | a lockout ends exactly when the window has passed since the last failure |
| Lockout.AttemptOutcome | internal/auth/auth.go:234-340 | an attempt is barred exactly after eight failed checks without a login or a gap of more than 15 minutes, the last of them no longer ago than that, and otherwise let in exactly with the right password |
| Lockout.ResetMailIsBounded | internal/auth/auth.go:370-395 | any closed hour sees at most 3 reset mails for an address |
| Lockout.MailedIff | internal/auth/auth.go:370-395 | a reset request is mailed exactly when it is at most the third since the last gap of more than an hour |

## Left out

- FeedRoundTrip.ParseUndoesRender: asks for times that print with four-digit years and a document within the reader's size limit, and says nothing about other feeds.
- FeedUrls.RoundTripIffUrlsKept: leaves out feeds in which an event outside the window has an LF in its URL, because what follows it could be read as any property.
- FeedReader.ParsedEvent.Set: leaves property parameters out, so a time with a TZID is read as UTC, and fractional seconds are not read.
- FeedReader.Parse: likewise reads a TZID as UTC and no fractional seconds.
- ApprovalSafety.ConcurrentDecisionsAreSerial: asks that each debited account neither wraps at the start nor can be credited beyond the 64-bit range by the entries pending; ApprovalRaces has a run that needs either half. The converse is not claimed: whether a pending entry can come in at all depends on what it debits itself and on what is decided before it.
- ApprovalSafety.ConcurrentApprovalsNeverOverdraw: only decisions take turns: an ordinary posting or a closing takes no row lock, so one that commits between a check and its commit is not covered.
- Approval.Needs: a transaction waits for the request row even when it is of another unit or already decided, where the original's update matches no row and does not wait; it is refused either way.
- BankReconciliation.BalanceIsAccountedFor: is an equality between values that may differ by a multiple of 2^64, because statement arithmetic wraps; where both sides fit that is equality, as BankReconciliation.OpenStatementAccountsForBalance says.
- Reports.NetIsOwnChange: says nothing when income or expense does not fit in 64 bits, which the original reports as an error.
- MonthGrid.BuildMonthGrid: has one time zone without daylight saving, and no printed label for the month.
- Text outside ASCII: upper-casing and white space are those of ASCII; octets above 127 are carried but not interpreted except for UTF-8 boundaries in folding.
- The arithmetic of an RRULE interval so large that a date computation overflows.
- Storefront.RoundsToNearest: rounds the product of amount and percentage exactly, where the original goes through floating point; percentages are hundredths of a percent, as the column stores them.
- Fractional item quantities of manual allocations.
- Races between statements of one function other than Decide: each other function is one step. A process that dies between two of the separate statements that submit a request, reverse an entry or credit an order.
- A decision other than the three valid ones, which the web layer refuses before ResolveConflict is called; deleting a feed, which takes its events with it.
- Addresses in the attempt counters are taken as already normalised, the application and the database share one clock, and a database error while an attempt is recorded or cleared, which the original logs and ignores, does not occur.
- Narrowing the month's events to what one viewer may see.
- Requests of users about accounts they may not see, sessions, roles, mail, audit log, fetching a feed over the network, file storage, and the web pages.
- Newsletters and campaigns, rosters, resources and saved report presets: single queries, or dependent on the network.
- Names and descriptions of accounts, orders and entries, and who created them.
