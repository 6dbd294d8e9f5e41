# Dafny model of deck-remote

deck-remote lets an operator drive coding agents from a phone. Behind its HTTP handlers sit state
machines, incremental indexes and caches whose correctness is not visible from any single function.
This project models them in Dafny 4.11, in the form the Go (and JavaScript) source gives them, and
proves what they keep over every input, run or interleaving. `dafny verify dfyconfig.toml` checks it.

| file | models |
|---|---|
| `Text.dfy` | whitespace fields and the normal forms built on them |
| `AskMenu.dfy`, `AskMulti.dfy`, `AskReview.dfy`, `AskWalk.dfy` | answering a live question menu: page recognition, the multi-select planner, the review matcher, the guarded walk with a trace of every capture and key |
| `Lines.dfy`, `PiParser.dfy`, `History.dfy` | readers of files that grow under them, torn last lines included |
| `CodexRollout.dfy`, `CodexReader.dfy` | rollout records with mirror deduplication, and the reader with offsets, tails and checkpoints |
| `CodexRequests.dfy`, `PhoneLog.dfy` | correlating requests with replies, and sends with their echoes |
| `RecallRows.dfy`, `RecallFollow.dfy` | cached rows edited by responses and streams, and the pool of stream followers |
| `TmuxBudget.dfy`, `Pairing.dfy`, `Passkeys.dfy`, `SendTracker.dfy` | budgets and one-shot resources as steps over time |
| `Stall.dfy`, `Markdown.dfy` | stall detection with its notification latch, and the list and prose renderer |
| `Messages.dfy` | the thread message and the option type |

## How to read it

- A section that the source runs under one lock, or one atomic access, is one step. Where several
  goroutines interleave, a function `Do` gives the effect of each step, `Run` folds any sequence of
  them, and the theorems quantify over all sequences. The class methods beside it perform the same
  steps on fields, and their contracts tie the new state to that function.
- The live terminal is an arbitrary oracle: what each capture shows, whether a key lands, how long a
  wait polls and when a request is cut off are functions nothing is assumed about.
- JSON decoding, regular expressions, case folding, clocks and randomness are parameters. Where a proof
  needs a fact about one of them it is a named predicate in its `requires` (for example
  `Lines.JsonRules`: the four blanks JSON allows around a value do not matter, and a record with anything
  else around it is none).

## What turned out not to hold

The code is modelled as it is; each of these has its exact condition or a concrete witness.

- The multi-select plan does not predict the menu when the cursor is on the chat row, which a capture
  shows as the row above it, or when Other literally holds `Type something`
  (`AskMulti.PlanSimulatesMenu`). The walk then stops at the mismatch. Where it does predict the menu, Other
  ends up holding the wanted text unless that text is `Type something` and Other is empty: the plan takes
  the placeholder for the text and types nothing (`AskMulti.PlanLeavesTextIff`).
- Review lines of different picks can read the same once a label holds a comma and a space
  (`AskReview.CommaLabelsCollide`); while none does they cannot (`AskReview.ReviewTellsPicksApart`).
- A line of a pi file with a record and anything around it but JSON's own blanks, junk or a form feed, is
  read differently by incremental reads, and only such a line is (`PiParser.JunkIsTheOnlyTrouble`). The
  test for an empty line trims more characters than JSON allows around a value.
- The cached transcript shows two rows where the file has one when a read fell between a shell input
  and its output (`History.CacheIsFullParseIff`). The comment on `parsedEntry.off` speaks of complete
  lines; the code also consumes an unterminated line that is already valid JSON, and the model does so.
- An earlier rollout segment that grows late has its records applied after those of the next one
  (`CodexReader.LateGrowthReorders`, `CodexReader.LateGrowthExample`). Path order survives exactly when the
  records gained and those behind them are repetitions of one sequence (`CodexReader.PathOrderIff`).
- A request bound to a user event without a turn id moves on (`CodexRequests.BindingMovesOn`), exactly
  when another free event fits it that no earlier request takes (`CodexRequests.BindingIsFinalIff`).
- Echo claiming is optimal while the sends and the rows of each text are in time order
  (`PhoneLog.ClaimsAreMaximum`); out of order it need not be (`PhoneLog.OrderMatters`).
- The reaction to a resync does not check that the follower is still current, so it can drop rows that
  were just read afresh (`RecallFollow.LateClear`); nothing else a retired follower does reaches the cache
  (`RecallFollow.RetiredTouchesIff`). And the thirty-second restart ceiling is out of reach,
  no wait exceeds four seconds (`RecallFollow.WaitsStayShort`).
- A tmux slot can lie inside a backoff (`TmuxBudget.SlotInsideBackoff`), exactly when it was granted before
  the fault (`TmuxBudget.ReservedSlotsOutliveFaults`).
- The cap of four live pairing offers is not kept by putting one back (`Pairing.PutBackExceedsCap`). It holds
  throughout a run exactly when none is put back while four are live (`Pairing.CapHoldsIff`); what bounds
  them otherwise is `Pairing.OffersOut`, and that bound is reached (`Pairing.BoundIsReached`).
- The state of a send last published need not be its final one. The call that tracks a send looks at it
  once, outside the section that registers it, and publishes outside the lock; the poller can look and
  publish in between, so that the phone shows a delivered message as queued (`SendTracker.LateFirstLook`,
  `SendTracker.HeldFirstLook`). At most one state is published behind a final one
  (`SendTracker.AnyStepsFollow`), and one is exactly when a final state is published while the other
  observer still holds a change, or the send, no longer tracked, is looked at after that and shows
  something else (`SendTracker.BehindFinalIff`, `SendTracker.LastWordIff`).
- A list item can lose its own marker (`Markdown.InnerSwitchMovesOut`), exactly when the innermost open list
  that takes it has a smaller indent and the other marker (`Markdown.MarkersIff`).

## Model

| member | source | states |
|---|---|---|
| Text.JoinedFieldsDropSpaces | codex_requests.go:91-96 | joining the whitespace fields of a text drops its whitespace and nothing else |
| Text.FieldsOfJoin | phonelog.go:148-149 | words joined by single spaces come back as the same fields |
| Text.NormKeepsWords | phonelog.go:148-149 | two texts have the same normal form exactly when they have the same words |
| AskMenu.FindFocus | askmenu.go:382-401 | the page found is the only question shown, the review screen, or -1 when none or several fit |
| AskMenu.ValidateMultiPick | askmenu_multi.go:10-25 | a pick is accepted exactly when it is non-empty, its rows exist and are distinct and its text is one short line |
| AskMulti.PlanSimulatesMenu | askmenu_multi.go:42-117 | folding the planned keys over the menu's own key effects gives every predicted screen, if and only if the menu is not one of the two misleading ones |
| AskMulti.PlanReachesPick | askmenu_multi.go:42-117 | the last predicted screen has an option checked exactly when the pick lists its row, Other exactly when there is a text, and shows that text in Other |
| AskMulti.MenuHoldsPick | askmenu_multi.go:42-117 | played on the menu the plan leaves exactly those boxes checked |
| AskMulti.PlanLeavesLast | askmenu_multi.go:114-116 | Right is the last planned key and only the last; no Left and no Enter is planned |
| AskMulti.PlanLeavesTextIff | askmenu_multi.go:42-117 | played on the menu the plan leaves the text in Other, except exactly when it is the placeholder and Other is empty |
| AskMulti.PlanLength | askmenu_multi.go:42-117 | exact number of keys: one per differing box, the way to Other, one erasure per held character, the text, the way out |
| AskMulti.OneDigitPerRow | askmenu_multi.go:69-78 | the digits pressed are those of the rows whose boxes differ, one each and top to bottom, Other skipped when it is retyped |
| AskMulti.PlanKeepsPage | askmenu_multi.go:42-117 | every predicted screen is still the same question's page, with every row but Other showing the same text |
| AskMulti.ToggleRows | askmenu_multi.go:69-78 | the toggling loop appends the specified digits and leaves the menu they lead to |
| AskMulti.MoveToOther | askmenu_multi.go:87-98 | the cursor loop appends the moves to Other |
| AskMulti.EraseOther | askmenu_multi.go:99-106 | the erasing loop appends one key per character Other holds |
| AskMulti.RetypeOther | askmenu_multi.go:79-113 | moving, erasing, typing and leaving, in this order |
| AskMulti.MultiSelectKeys | askmenu_multi.go:42-117 | refuses exactly the stale or unsupported menus and over-long old text, else returns the plan |
| AskReview.Match | askmenu_multi.go:168-182 | backtracking is exact: found if and only if the rest is the joined labels of some permutation of the remaining ones |
| AskReview.MultiReviewMatches | askmenu_multi.go:155-184 | a review line is accepted exactly when it lists the chosen labels, each once, in some order |
| AskReview.ReviewTellsPicksApart | askmenu_multi.go:152-184 | while no label holds a comma and a space an accepted line belongs to one set of labels only |
| AskReview.CommaLabelsCollide | askmenu_multi.go:152-184 | a label that holds a comma and a space reads like the two labels around them, whatever stands behind it |
| AskReview.PlanIsReviewed | askmenu_multi.go:42-184 | the labels of the boxes a plan leaves checked, with the text in Other, are as a multiset those its review line has to list |
| AskWalk.ReviewIsRespected | askmenu.go:713-738 | once the latest capture is a review screen, the only key besides Left is the submitting "1", and only when that screen agrees with every pick; nothing follows it |
| AskWalk.KeysGoToTheirQuestion | askmenu.go:669-712 | every other key is pressed on a capture focused on its question, inside the one answer step of that question |
| AskWalk.StepStaysOnPage | askmenu.go:785-837 | within an answer step every key follows a capture of that question's page |
| AskWalk.StepOpensOnItsPage | askmenu.go:667-695 | every answer step opens on a page captured twice in a row: its question's headers, text, kind and option labels, nobody typing; one picked option is one digit |
| AskWalk.TypedAnswer | askmenu.go:785-837 | a typed answer ends in its text and Enter; Enter is pressed only right after a capture whose free-text row has the cursor and shows the text, an erasure only while that row has it |
| AskWalk.SubmittedAnswers | askmenu.go:713-734 | the review submitted was captured twice in a row and shows, question by question, the chosen label, the typed text, or the chosen labels and the text in some order |
| AskWalk.NothingAfterSubmit | askmenu.go:733-738 | after the submitting key the walk only looks |
| AskWalk.SafeStep | askmenu.go:669-712 | adding a completed or broken-off answer step keeps the whole trace safe: one step per question, in increasing order |
| AskWalk.SafeSubmit | askmenu.go:713-738 | submitting on an agreeing review keeps the trace safe |
| AskWalk.Terminal.Read | askmenu.go:548-561 | one capture: this question set's menu and nothing else is passed on, a lost pane is told from a missing or changed menu |
| AskWalk.Terminal.Until | askmenu.go:564-593 | polls until the condition holds and presses nothing; a wait ends early only on its condition, a menu gone when that is allowed, a lost pane, a cut-off or changed tabs, and says which |
| AskWalk.Terminal.SendPlan | askmenu_multi.go:119-150 | sends a prefix of the plan, each key right after a capture equal to the predicted screen |
| AskWalk.Terminal.MultiSelect | askmenu_multi.go:119-150 | the whole plan on success, a prefix of it on error |
| AskWalk.Terminal.FreeText | askmenu.go:785-837 | opens or empties the free-text row, types, and confirms only when the row shows the text |
| AskWalk.Terminal.AnswerOne | askmenu.go:684-695 | one question is answered by its digit, its plan or its text, and by nothing else |
| AskWalk.Terminal.CheckReview | askmenu.go:721-732 | accepts exactly the review screens with n answers that each match their pick |
| AskWalk.Terminal.Begin | askmenu.go:617-642 | stops exactly when the first capture is not the card's menu, is being typed into, or shows no known page; the first question is that of the first unanswered tab exactly when only the tabs before it are answered |
| AskWalk.Terminal.AnswerNext | askmenu.go:669-701 | a question is answered exactly when the next capture equals the one before and is its page |
| AskWalk.Terminal.Submit | askmenu.go:713-738 | the review is submitted exactly when the next capture equals the one before and every answer agrees |
| AskWalk.Terminal.Walk | askmenu.go:598-739 | for every terminal: the trace is safe; it goes past the first capture exactly when that is the menu on the card, known and not being typed into; it starts behind the answered tabs exactly when an earlier walk was cut off there, else on the first tab, each step back after two equal captures; done counts the resumed and the completed steps; cleared says exactly that the last capture showed no menu; and every error has its reason in the trace |
| AskWalk.AnswerAsk | askmenu.go:598-739 | picks that do not fit press nothing; for all others what Walk states, and a key is pressed only if the first capture is the menu on the card |
| AskWalk.CheckPicks | askmenu.go:599-616 | the picks are let through exactly when each fits its question |
| Lines.ReadPrefix | harness_pi.go:493-510 | reading a part of a clean text and then the rest from the offset reached finds the same records |
| Lines.AnyGrowthReadsTheSame | harness_pi.go:352-397 | for every growth schedule incremental reads find exactly the records of one read |
| Lines.GrowthIndependentIff | harness_pi.go:493-541 | for a JSON decoder that holds for all schedules exactly of the files whose records have only JSON's blanks around them on their lines |
| Lines.UntidyIsMisread | harness_pi.go:493-541 | where a file without that must be cut for its reads to find more records than one read |
| PiParser.NextSeq | harness_pi.go:690-696 | the next key is above the previous one, at least the timestamp, and one of the two |
| PiParser.ParsingKeepsNumbers | harness_pi.go:543-589 | nodes have different sequence numbers, the last entry the highest, over any entries |
| PiParser.ParsingRecords | harness_pi.go:543-589 | the tree holds for each id what its last entry says and nothing else; the last entry of all is where the branch ends; the header flag says whether there is one |
| PiParser.ParsingIgnoresGrowth | harness_pi.go:352-397 | from the start or from the line a large file was entered at: nodes, last id, sequence counter and header flag after any growth schedule are those of one read |
| PiParser.JunkIsTheOnlyTrouble | harness_pi.go:493-510 | every schedule finds the entries of one read exactly for the files whose records have only JSON's blanks around them |
| PiParser.AncestryIsAPath | harness_pi.go:596-611 | the branch walk visits each node once along parent links and stops only at a root, a missing parent or a closing cycle |
| PiParser.RowsFollowTheBranch | harness_pi.go:622-666 | a user node has one row exactly when it has text or images, an assistant node exactly when it has text or, failing that, an error; no other has one; rows keep branch order, show their node's text, time and images, are commentary exactly when it stopped for a tool, and carry the id of the user node that opened their turn |
| PiParser.RowsDiffer | harness_pi.go:622-666 | no two rows share an id or a sequence number |
| PiParser.PendingIsUnanswered | harness_pi.go:622-666 | the pending tool calls are exactly those made and not answered since the last user message |
| PiParser.ToolIsLastOpen | harness_pi.go:622-683 | the tool shown is the title of the last call of the branch whose id is unanswered, none when none is |
| PiParser.SnapshotShowsTheBranch | harness_pi.go:592-683 | the snapshot said of the branch: its rows, the last reply among them, the last time seen, working and state by the last node that talks, the tool of the last unanswered call; none exactly without a header |
| PiParser.BranchIsRootFirst | harness_pi.go:596-614 | the branch ends at the last entry, each node follows its parent, and only a root, a missing parent or a cycle stands first |
| PiParser.Parser.IngestLine | harness_pi.go:543-589 | one line's effect, and whether it was blank or a record |
| PiParser.Parser.FeedLine | harness_pi.go:493-541 | consumes a terminated, over-long, blank or decodable line, and leaves a torn one |
| PiParser.Parser.Feed | harness_pi.go:493-510 | the state after the records of the scan, the offset after the bytes it consumed |
| PiParser.Parser.FeedTail | harness_pi.go:468-487 | of a file above 64 MB the header line, then the lines that start in its last 16 MB |
| PiParser.Store.Load | harness_pi.go:352-397 | same size and time: the cache; growth is parsed from the offset; a shorter file by a parser of its own, kept only with a header |
| PiParser.Parser.Branch | harness_pi.go:596-614 | the active branch, root first |
| PiParser.Parser.ReverseInPlace | harness_pi.go:612-614 | the swapping loop reverses the path |
| PiParser.Parser.Build | harness_pi.go:592-683 | the snapshot of the branch, which SnapshotShowsTheBranch describes; none without a header |
| History.AddToJoin | history.go:186-198 | adding one entry commutes with joining at a boundary |
| History.ParsingJoins | history.go:427-496 | parsing is a homomorphism up to one join: a leading orphan output attached to a trailing open input |
| History.RowsShowEntries | history.go:186-198 | every row shows one entry, in entry order: a shell input with the first output that is not empty, when only empty ones came between; an output of its own exactly when it fills no input |
| History.JoinedIsFullParse | history.go:349-381 | joining at every read boundary gives the parse of the whole |
| History.CacheIsFullParseIff | history.go:349-381 | the concatenating cache equals the full parse if and only if no read severed an output from its input |
| History.SeveredReadsSplitRows | history.go:363-372 | each severed read costs exactly one extra row |
| History.SeveredExample | history.go:186-198 | the smallest severed read |
| History.GrowingTranscript | history.go:349-496 | the two results above for every growth schedule of a file, torn last lines included |
| History.Transcript.AddBash | history.go:186-198 | in place: an input appends, an output fills the open input, stands alone, or is dropped when empty |
| History.Transcript.ParseText | history.go:427-496 | messages and bytes consumed of the complete lines, a torn last line left |
| History.Transcript.ParseFile | history.go:349-381 | unchanged size: the cache; growth: only the new part; otherwise all again |
| CodexRollout.MirrorsCollapse | codex_rollout.go:436-475 | of each message as many copies are emitted as the source that repeats it most holds |
| CodexRollout.RecordsOffer | codex_rollout.go:206-333 | any list of records leaves the turn and, but for their numbers, the messages that the offers it makes leave |
| CodexRollout.RecordsCollapse | codex_rollout.go:206-333 | so the count of each message is as above for any list of records |
| CodexRollout.RecordsInterleave | codex_rollout.go:206-333 | and the same however the records come interleaved, if the same offers pass |
| CodexRollout.InterleavingDoesNotMatter | codex_rollout.go:436-475 | the same passing offers in another order leave the same number of each message |
| CodexRollout.AnyRecordsKeep | codex_rollout.go:206-222 | after any records the counts balance, sequence numbers strictly increase and one is used per record |
| CodexRollout.PassingIff | codex_rollout.go:439-455 | an offer passes exactly when it says something and carries no id of an earlier one that does |
| CodexRollout.TrimIs | codex_rollout.go:440-441 | trimming takes off the blanks around a text and nothing else |
| CodexRollout.RecordsLeave | codex_rollout.go:206-333 | working and state are those of the last record that starts or ends a task; the open calls are those since it without an output; the question is that of the last asking call, while it is open |
| CodexRollout.MessagesAreOffers | codex_rollout.go:436-475 | every message is what one record offered, under that record's number, and the last reply is the last of them that is one |
| CodexRollout.CommentIsLast | codex_rollout.go:241-243 | the comment shown previews the last commentary since the last task started, none when there is none |
| CodexRollout.TurnIsLast | codex_rollout.go:241-242 | the current turn is that of the last task started |
| CodexRollout.AddKeepsBalance | codex_rollout.go:439-475 | adding a message keeps emitted copies equal to the largest per-source count |
| CodexReader.TailsAreSafe | codex_rollout.go:185-203 | keeping the torn tail and parsing it with what comes later loses and doubles nothing |
| CodexReader.RestIsTorn | codex_rollout.go:186-192 | the tail holds no line break |
| CodexReader.SegmentStep | codex_rollout.go:143-147 | reading on in one segment keeps the records in path order if it gains none or no later one has contributed |
| CodexReader.PathOrderIff | codex_rollout.go:143-147 | it keeps them exactly when the records gained and those of the later segments are repetitions of one sequence |
| CodexReader.LateGrowthReorders | codex_rollout.go:143-147 | so it does not when their first records differ |
| CodexReader.LateGrowthExample | codex_rollout.go:143-147 | two segments of one record each, the first written last |
| CodexReader.AppendContinues | codex_rollout.go:114-137 | an append-only file never triggers a reset |
| CodexReader.GrownWhen | codex_rollout.go:114-137 | a segment counts as grown exactly when it is no shorter and shows the last 64 characters read where they were |
| CodexReader.Session.LargestCount | codex_rollout.go:456-461 | the loop finds the maximum of the counts |
| CodexReader.Session.AddMessage | codex_rollout.go:439-475 | the id filter, the mirror count and the emission, as specified |
| CodexReader.Session.Apply | codex_rollout.go:206-333 | one record's effect on the session |
| CodexReader.Session.Consume | codex_rollout.go:185-203 | applies the complete lines in order and returns the rest |
| CodexReader.Session.ReadPath | codex_rollout.go:161-204 | one segment read on from its offset: records, tail and checkpoint |
| CodexReader.Session.Check | codex_rollout.go:114-137 | a reset is asked for exactly when a segment shrank or its last 64 bytes changed |
| CodexReader.Session.Load | codex_rollout.go:102-150 | over any run of loads of ordered append-only segments the state is that of one pass over everything read |
| CodexRequests.SameTypedIgnoresSpaces | codex_requests.go:88-96 | the comparison ignores whitespace and nothing else |
| CodexRequests.ChoicesDiffer | codex_requests.go:45-62 | no two requests take the same user event in one call |
| CodexRequests.ChoiceIsFree | codex_requests.go:51-62 | a chosen event was free, after the baseline and of the same text |
| CodexRequests.EqualTextsBindInOrder | codex_requests.go:51-62 | requests of one text with non-decreasing baselines bind in order |
| CodexRequests.BindKeepsConsistent | codex_requests.go:38-62 | pending requests never share a user event, each above its baseline |
| CodexRequests.BindsFirstFree | codex_requests.go:45-62 | a request without a turn is bound to the first user message behind its baseline with its text, blanks aside, that is bound to no pending request and taken by no earlier one; without one it stays as it is |
| CodexRequests.BindingIsFinalIff | codex_requests.go:51-62 | a bound request stays bound if and only if its event has a turn id or every free event that fits is taken by an earlier request |
| CodexRequests.FinalWithoutRivals | codex_requests.go:51-62 | with no earlier request of its text still unbound to a turn: if and only if it has a turn id or no free event fits |
| CodexRequests.BindingMovesOn | codex_requests.go:51-62 | a request bound to an event without a turn id that the next call binds to another |
| CodexRequests.RequestsConserved | codex_requests.go:63-86 | the pending requests are exactly the kept and the replied ones |
| CodexRequests.KeptIsSubsequence | codex_requests.go:64-80 | the kept ones are a subsequence in the old order, and all that got no reply |
| CodexRequests.RepliesBelong | codex_requests.go:66-77 | every reply is of the bound turn and after its user event, itself after the baseline |
| CodexRequests.EveryAnswerIsGiven | codex_requests.go:63-86 | a bound request gets the first reply of its turn behind its event; one without such a reply is kept |
| CodexRequests.Tracker.Add | codex_requests.go:25-29 | appends an unbound request to the session's list |
| CodexRequests.Tracker.BindInPlace | codex_requests.go:45-62 | the binding loops over the shared slice, as specified |
| CodexRequests.Tracker.KeepInPlace | codex_requests.go:63-80 | the filter that overwrites the slice it reads keeps and replies as specified |
| CodexRequests.Tracker.Reconcile | codex_requests.go:38-86 | binding, then replying, and every other session untouched |
| PhoneLog.ClaimsAreMatching | phonelog.go:160-199 | the claims are one-to-one both ways and respect text and window |
| PhoneLog.ClaimsAreMaximum | phonelog.go:160-199 | oldest-first claiming is a maximum matching while the rows and the sends of each text are in time order |
| PhoneLog.OrderMatters | phonelog.go:160-199 | out of time order it need not be: two sends and two rows of which one row is claimed |
| PhoneLog.EchoesAreSends | phonelog.go:160-199 | the rows relabelled are peer rows without a sender that echo sends of the session only, in text and time, no two the same; each has the oldest that no earlier row has, and a row left alone echoes none but those |
| PhoneLog.Log.Remember | phonelog.go:112-117 | the log keeps the last 512 sends, normalised |
| PhoneLog.Log.ClaimEchoes | phonelog.go:160-199 | claimed rows become the operator's, all others and the caller's own array are unchanged |
| RecallRows.ApplyForm | recall.go:337-386 | closed form of a merge: untouched and merged rows in order, new ones behind them, absorbed ones in update order, minus the removed; ids stay distinct |
| RecallRows.AbsorbedInOrder | recall.go:372-378 | the absorbed ids are those with an absorbing update, ordered by the last one |
| RecallRows.LastUpdateWins | recall.go:348-371 | of all the updates to a row the last that gives a field a value sets it; every other field stays |
| RecallRows.LastTurnStays | recall.go:338-347 | a row is the last kept turn of its id, else what it was |
| RecallRows.NewIdsInOrder | recall.go:338-347 | new ids stand behind the old ones, each where its first kept turn puts it |
| RecallRows.ReplayIsIdempotent | recall.go:334-386 | replaying a response changes nothing |
| RecallRows.FramesMatchBatch | recall_follow.go:70-91 | the same rows, updates and removals as single frames give the same rows |
| RecallRows.PagingKeepsDistinctIff | recall.go:276-287 | prepending a page keeps ids distinct exactly when its kept rows differ and none but a boundary is cached |
| RecallRows.OlderInOrder | recall.go:276-284 | a page adds, in its order, exactly the kept rows but for boundaries the cache has |
| RecallRows.Session.IndexOf | recall.go:389-396 | the last row with the id, or -1 |
| RecallRows.Session.Absorb | recall.go:348-378 | one update merged field by field, in place or moved to the end |
| RecallRows.Session.ApplyTimeline | recall.go:337-386 | the three loops compute the specified merge |
| RecallRows.Session.TakeFrame | recall_follow.go:70-91 | one frame's effect, its cursor, and whether to reopen |
| RecallRows.Session.AddPage | recall.go:272-287 | older rows in front, cached ones unchanged; an empty page ends the paging |
| RecallRows.DropQueuedTwin | recall.go:494-504 | takes out the newest queued copy among the last twelve rows and nothing else |
| RecallFollow.SlotsAreCounted | recall_follow.go:97-139 | in every interleaving the counter equals the loops holding a slot plus those about to start, within 0..8, and each current follower has such a loop |
| RecallFollow.RetiredForGood | recall_follow.go:239-247 | a follower once replaced, stopped or let go is never current again and none of its frames is merged |
| RecallFollow.EveryLoopIsMinded | recall_follow.go:97-279 | in every interleaving a loop that may start a process again is that of its session's current follower, or it is cancelled, or its watchdog is about to cancel it |
| RecallFollow.StoppedGivesBack | recall_follow.go:111-165 | a follower whose session is stopped, reopened or cleared is cancelled at once and for good; whatever comes between, its run is its last, resync or not, and with its cleanup and release its slot is free again |
| RecallFollow.WhoTouchesRows | recall_follow.go:134-193 | rows and cursor of a session change only by its current follower's frames, its own reads, or a resync reaction |
| RecallFollow.ReadsLeave | recall.go:196-290 | what a session's own reads leave: a failed one nothing cached and no follower, a fresh one its rows and, if it has one, its cursor, a poll and an older page the merged rows |
| RecallFollow.RetiredTouchesIff | recall_follow.go:134-193 | a follower that is not current changes them exactly when its loop reacts to a resync and there is something to forget |
| RecallFollow.LateClear | recall_follow.go:158-165 | the resync reaction of a retired follower drops the rows and the cursor of any fresh read made meanwhile |
| RecallFollow.WaitsStayShort | recall_follow.go:145-190 | the loop gives up at the third quick exit in a row and never before; no wait exceeds four seconds |
| RecallFollow.Store.Swap | recall_follow.go:118-128 | the compare-and-swap loop takes a slot only below eight |
| RecallFollow.Store.Start | recall_follow.go:97-108 | the new follower becomes current and its loop runs |
| RecallFollow.Store.StopFollow | recall_follow.go:111-116 | the session has no follower any more, and the one it had is cancelled |
| RecallFollow.Store.LetGo | recall_follow.go:272-277 | the watchdog's follower is no longer current, and due to be cancelled |
| RecallFollow.Store.CancelDue | recall_follow.go:272-279 | ... and then is |
| RecallFollow.Store.TakeFrame | recall_follow.go:239-252 | merges only while current; the cursor moves only with a frame that carries one |
| RecallFollow.Store.RunEnded | recall_follow.go:154-165 | cancelled loops leave, a resync goes on to clear the cache |
| RecallFollow.Store.DropCache | recall_follow.go:158-165 | forgets the session's rows and cursor |
| RecallFollow.Store.CleanUp | recall_follow.go:137-144 | the deferred cleanup unsets only its own follower |
| RecallFollow.Store.ReleaseFollower | recall_follow.go:130-136 | gives exactly one slot back |
| TmuxBudget.RateIsBounded | tmuxbudget.go:93-156 | any window holds at most width/interval + 1 sweep slots and width/40 ms + 1 operator slots |
| TmuxBudget.BackoffDoubles | tmuxbudget.go:160-171 | after k consecutive faults the backoff is min(30 s, 2^(k-1) s) |
| TmuxBudget.NoSlotDuringBackoff | tmuxbudget.go:95-156 | neither lane grants a slot before a backoff in force ends |
| TmuxBudget.OperatorsAreInvisible | tmuxbudget.go:128-156 | the sweep's slots are those of the run without any operator request |
| TmuxBudget.ReservedSlotsOutliveFaults | tmuxbudget.go:95-126 | over all runs: no slot is taken back, and the slots inside a backoff in force are exactly those granted before its fault |
| TmuxBudget.SlotInsideBackoff | tmuxbudget.go:95-126 | a sweep slot 499 ms into a backoff |
| TmuxBudget.Budget.Acquire | tmuxbudget.go:95-126 | the slot is the earliest allowed; refused, consuming nothing, exactly when that lies behind the limit |
| TmuxBudget.Budget.AcquireOperator | tmuxbudget.go:130-156 | the same on its own gate, never moving the sweep's |
| TmuxBudget.Budget.NoteFault | tmuxbudget.go:161-171 | doubles the backoff up to its cap and restarts it |
| TmuxBudget.Budget.NoteSuccess | tmuxbudget.go:173-177 | ends the backoff and touches nothing else |
| Pairing.OffersAreOneShot | pair.go:61-115 | in every interleaving each offer is in one place, so it mints at most one token, with the name and rights it was made with |
| Pairing.GoneForGood | pair.go:205-233 | a lost or minted offer never comes back and mints nothing more |
| Pairing.OffersOut | pair.go:61-115 | with r concurrent redeemers at most 4 + r offers are live or in hand |
| Pairing.CapStep | pair.go:61-115 | from at most four live offers a step leaves at most four, except exactly when one in hand is put back at four |
| Pairing.CapHoldsIff | pair.go:61-115 | over any run at most four are live throughout exactly when no step is such a put-back |
| Pairing.BoundIsReached | pair.go:205-233 | for every r some run with r redeemers ends with 4 + r live |
| Pairing.PutBackExceedsCap | pair.go:213-228 | putting back can leave five live |
| Pairing.UnexpiredInOrder | pair.go:78-87 | pruning keeps exactly the offers whose time has not come, in order |
| Pairing.RedeemedInTime | pair.go:61-115 | over every run, what is held or minted was taken by its code within three minutes of being made |
| Pairing.Hub.Add | pair.go:61-75 | prunes, appends and keeps the newest four |
| Pairing.Hub.Prune | pair.go:78-87 | keeps exactly the unexpired, in order |
| Pairing.Hub.TakeOffer | pair.go:91-115 | takes the last match out, expired or not, or prunes |
| Pairing.Hub.Redeem | pair.go:205-233 | an uninterrupted redemption: refused exactly without a live offer, put back exactly when identity or rate refuse, else minted or lost |
| Passkeys.AtMostTenAMinute | passkeys.go:267-284 | any window of one minute holds at most ten calls let through |
| Passkeys.AllowedIff | passkeys.go:267-284 | a call is let through exactly when fewer than ten of those let through were in the minute before it |
| Passkeys.PasskeysArePaidFor | passkeys.go:326-391 | in every interleaving stored credentials never exceed codes issued plus grants given; no code fails more than three times; credentials are distinct |
| Passkeys.AcceptedIff | passkeys.go:326-359 | of one state: accepted exactly when a code is live, unexpired and right; then it failed at most twice, and the third failure voids it |
| Passkeys.CodeAcceptedIff | passkeys.go:298-359 | over every run: accepted exactly when the last code asked for was written, has failed less than three times and was not spent, timed out or voided with its device, it is less than five minutes old, the digits among the characters typed are its six, and no try from another device was accepted before |
| Passkeys.GrantAcceptedIff | passkeys.go:365-391 | over every run: an empty code is accepted exactly when the device's last grant is unspent and less than five minutes old |
| Passkeys.OneDevicePerCode | passkeys.go:343-345 | once accepted from one device it is never accepted from another |
| Passkeys.ChallengesAreSingleUse | passkeys.go:916-928 | a presented challenge is spent whatever the outcome; none is accepted twice |
| Passkeys.AcceptedInTime | passkeys.go:839-851 | and only within its minute |
| Passkeys.ChallengeAcceptedIff | passkeys.go:839-928 | over every run: a challenge is accepted exactly when it was kept less than a minute before, not presented since, and no other was kept after that minute |
| Passkeys.KeyHub.Allow | passkeys.go:268-284 | the in-place filter keeps the last minute, and a refused call is not counted |
| Passkeys.KeyHub.IssueCode | passkeys.go:298-322 | a fresh code replaces any live one; a failed write leaves none |
| Passkeys.KeyHub.CheckEnrolCode | passkeys.go:326-359 | the step that CodeAcceptedIff speaks of: the verdict, the failure count and what consuming spends |
| Passkeys.KeyHub.CheckEnrolment | passkeys.go:373-391 | an empty code asks for the device's grant and never counts as a failure |
| Passkeys.KeyHub.GrantPair | passkeys.go:365-369 | one grant per device, renewed |
| Passkeys.KeyHub.SpendEnrolment | passkeys.go:616-620 | an accepted consuming check leaves the request with what it paid for |
| Passkeys.KeyHub.StorePasskey | passkeys.go:621-634 | stores an unknown credential, and rolls back when the write fails |
| Passkeys.KeyHub.RevokeDevice | passkeys.go:241-265 | exactly the device's credentials go, with its code and challenges; all others stay |
| Passkeys.KeyHub.StoreChallenge | passkeys.go:839-851 | drops exactly the expired and records the new one |
| Passkeys.KeyHub.SpendChallenge | passkeys.go:916-928 | always removes it, and finds it only unexpired |
| SendTracker.NoWakeUpIsLost | askqueue.go:296-345 | in every interleaving at most one poller, running says so exactly, and open sends lack one only while a call is about to start it |
| SendTracker.PositionsAreABijection | askqueue.go:225-235 | the positions of a session's open sends are exactly 1..n, in send-id order |
| SendTracker.SameIdSamePosition | askqueue.go:227-235 | sends with one id would share a position |
| SendTracker.MapState | askqueue.go:125-146 | delivered exactly for landed and settled submitted records, unconfirmed exactly for settled typed ones, failed and retryable exactly for failed ones; those three are the final states |
| SendTracker.Tracker.PositionOf | askqueue.go:227-235 | the loop counts the session's earlier sends |
| SendTracker.Tracker.Track | askqueue.go:239-248 | registers the send under its request id |
| SendTracker.AnyStepsFollow | askqueue.go:239-286 | in every interleaving a send is tracked exactly until its first final look, its changes are each published once or still held, and at most one goes behind a final one |
| SendTracker.BehindFinalIff | askqueue.go:239-286 | in every interleaving one goes there exactly when a final change is published while the other observer holds one, or a later look differs |
| SendTracker.LastWordIff | askqueue.go:239-286 | with nothing held, the last state published is the first final one exactly when no step did that |
| SendTracker.LateFirstLook | askqueue.go:239-248 | a run that publishes delivered and then queued: the tracking call looks after the poller |
| SendTracker.HeldFirstLook | askqueue.go:252-286 | another: it looks before the poller and publishes after it |
| SendTracker.Tracker.Observe | askqueue.go:252-286 | for any send, still tracked or not: reports exactly the changes of state or position, and drops a finished one |
| SendTracker.Tracker.StartPoller | askqueue.go:296-314 | starts a poller only when none runs and something is open |
| SendTracker.Tracker.RoundBegins | askqueue.go:320-326 | a round looks at exactly the sends tracked when it begins |
| SendTracker.Tracker.RoundEnds | askqueue.go:338-345 | the poller stops, clearing the flag, exactly when nothing is open |
| Stall.StalledIff | activitycache.go:45-85 | stalled exactly when the last max(1, threshold) observations were working with one non-empty key |
| Stall.ChangeIsRunStart | activitycache.go:56-80 | the change time is that of the frozen run's first observation |
| Stall.OnePushPerRun | watcher.go:340-373 | at most one push per frozen run |
| Stall.LongFreezeIsPushed | watcher.go:340-373 | with every sweep watched and a threshold of at least two, a five-minute freeze is pushed |
| Stall.PushAfterFiveMinutes | watcher.go:340-373 | no push earlier than five minutes after the first observation of the run it belongs to |
| Stall.NotifiesOnChange | watcher.go:256-269 | an attention notification goes out exactly when a pending id differs from what the sweep before showed pending, first sight of the session aside |
| Stall.ActivityCache.Update | activitycache.go:45-95 | one observation's transition, the other sessions untouched |
| Stall.Watch.WatchStall | watcher.go:340-373 | the latch is that of the sweeps so far and the push the one they call for, so the results above hold of it; a push needs a stall seen before, not yet pushed and five minutes old |
| Stall.Watch.WatchAttention | watcher.go:256-269 | the remembered id is that of the sweeps so far, and the notification the one they call for |
| Markdown.EscapingIsSafe | web/markdown.js:14-16 | escaping is reversible and leaves no character that could open a tag or end an attribute |
| Markdown.ListsAreWellNested | web/markdown.js:77-97 | every item list gives well-nested lists with one li per item and the texts in source order |
| Markdown.MarkersIff | web/markdown.js:77-97 | every item opens in the list its home started, and has that list's marker exactly unless it joins one of smaller indent and the other marker |
| Markdown.InnerSwitchMovesOut | web/markdown.js:77-97 | three items of which the last changes marker, with a dedent or without, and lands in the outer list |
| Markdown.Renderer.List | web/markdown.js:81-93 | the recursive renderer refines a machine with an explicit stack of open lists |
| Markdown.Renderer.Html | web/markdown.js:77-97 | terminates, raises dedents in place and writes the specified lists |
| Markdown.Renderer.Clamp | web/markdown.js:78-79 | raises exactly the indents below the first item's |
| Markdown.TableRows | web/markdown.js:123-131 | a table takes the rows up to the first without a bar |
| Markdown.Prose | web/markdown.js:110-149 | every line that is not blank appears in exactly one block, in order; paragraphs, lists, headings and tables hold lines of their kind only |

## Left out

- PiParser.ParsingIgnoresGrowth: speaks of files whose lines stay within the 32 MB limit, because a longer line is skipped or not depending on where a read cuts it; `Parser.FeedLine` has the limit itself.
- History.GrowingTranscript: assumes that no proper prefix of a line is complete JSON up to blanks, which holds for one object per line; bare numbers are outside it.
- CodexReader.Session.Load: does not say what the state is after a segment is replaced by one with the same last 64 bytes at the old offset, which the code cannot notice.
- CodexRollout.InterleavingDoesNotMatter: takes the offers that pass the id filter as given, because which mirror of an id comes first does depend on the interleaving.
- RecallRows.FramesMatchBatch: excludes an empty removed id, which a frame ignores and a response does not.
- Passkeys.ChallengesAreSingleUse: takes challenges as drawn afresh; randomness, hashes, WebAuthn signatures and clone counters are not part of this model.
- Stall.Watch.WatchStall: takes one observation per sweep; a Claude sweep that cannot read the pane decides on the cached state again.
- RecallFollow.Store: the reads of a session, `Reopen`, `Poll`, `Page` and `Clear`, are steps of `RecallFollow.Do` only; `RecallRows.Session` has them on fields.
- SendTracker.PositionsAreABijection: takes the send ids of a session as distinct, as agent-deck makes them.
- SendTracker.BehindFinalIff: takes request ids as drawn afresh for every send, and lets a round look at its sends in any order, where the code sorts them by send id.
- HTTP handlers, SSE, TLS, the reverse proxy, push delivery and access control: plumbing around libraries.
- Subprocesses and files (tmux, agent-deck, sqlite): oracles, text values, or a boolean for a failed write.
- Parsing a captured pane, JSON, regular expressions, ANSI and case folding: parameters, with only the output facts the proofs use.
- Bytes: text is a sequence of characters, so offsets and limits count characters.
- The digest that compares two captured menus is equality of the menus; progress reports of the walk are dropped.
- The mirror key of a message is a tuple, where the code joins its parts with NUL characters.
- The projection of rollout state into activity and degraded-mode texts, and pi and Claude label formatting: each settled by reading one branch.
- The doc links, tables' cell alignment and code blocks of the renderer; inline forms are the text of their token.
- The document viewer, the tower runner and the browser application.
