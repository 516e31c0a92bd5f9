# serverless-HR-bot vacation lifecycle, in Dafny

A model of the vacation-booking core of the Slack HR bot. The model is pure Dafny:

- The DynamoDB user/vacation table is a `map<(pk, sk), Item>`. Its operations are
  functions from table to table: key building, the booking validator, save, get,
  status update, delete, and the user-vacation query (ascending sort-key order).
- The change-feed reactor (`process_vacations`) and the interactivity handler
  (`process_interactivities`) are pure functions. Each returns a `Run`: the ordered
  effects it performs (`Post` a Slack message, `SetStatus`, `DeleteItem`) and whether
  it returned or raised afterwards. `Effects.Apply` folds the store effects back into
  the table, so the handlers can be chained: booking → INSERT record → decision →
  MODIFY record.
- `send_message` is its argument checks plus the routing of text/blocks to a channel
  or a webhook. An empty string or list stands for an argument not passed, because the
  source tests truthiness.
- `uncaught_exceptions_handler` is a function from a `Run` to a `Run`.
- Dates are day ordinals in the convention of Python's `toordinal()`: day 1 is a
  Monday and `weekday(d) = (d + 6) % 7`. The year and month of a day come from a
  `Calendar` parameter. Public holidays are an abstract `iset<Day>`.
- Working days are counted over `[start, end)`, as `range(0, (end - start).days)` in
  `compute_working_days_in_vacation` does; the end date is not counted.

Files, one module each: `wrappers.dfy` (Option/Result), `errors.dfy`, `dates.dfy`,
`strings.dfy` (prefix test and the lexicographic order of sort keys), `store.dfy`,
`working_days.dfy`, `texts.dfy` (what each message says), `messages.dfy`, `effects.dfy`,
`decorators.dfy`, `reactor.dfy`, `interactivity.dfy`, `lifecycle.dfy` (properties
across handlers).

## Model

| member | source | states |
|---|---|---|
| Store.GenerateKey | src/layers/main_layer/aws/dynamodb.py:21-22 | no contract of its own; specified by `Store.KeyLayout` and `Store.GenerateKeyInjective` |
| Store.KeyLayout | src/layers/main_layer/aws/dynamodb.py:21-22 | a user record uses `USER#uid` as both keys; a vacation has key (`USER#uid`, `VACATION#vid`), so it shares the user's partition but never the user's key |
| Store.GenerateKeyInjective | src/layers/main_layer/aws/dynamodb.py:21-22 | keys of one entity type built from different names differ |
| Store.UserKeyIsNotVacationKey | src/layers/main_layer/aws/dynamodb.py:69-83 | the user record is never returned by any user's vacation query |
| Store.VacationKeyIsVacationKeyOf | src/layers/main_layer/aws/dynamodb.py:51-52 | a saved vacation's key is matched by its own user's query and by no other user's |
| Store.OverlapsIffCommonDay | src/layers/main_layer/aws/dynamodb.py:38-41 | for ordered ranges, the validator's test holds exactly when the two closed ranges share a day (a shared boundary day conflicts) |
| Store.CheckExisting | src/layers/main_layer/aws/dynamodb.py:35-42 | with all existing vacations dated: succeeds iff none intersects the new range, and fails only with the intersect error; the first vacation the loop reaches that is undated fails with `KeyError`, and the first it reaches that is dated and intersects fails with the intersect error, whatever follows it |
| Store.ValidateNewVacation | src/layers/main_layer/aws/dynamodb.py:29-42 | start after end fails with the date-order error before any existing vacation is read; success iff ordered and no existing vacation intersects; with no existing vacations, success iff start <= end; for ordered dates, the first existing vacation in list order that is undated or intersecting decides between `KeyError` and the intersect error |
| Store.SaveUser | src/layers/main_layer/aws/dynamodb.py:74-77 | the user key now holds exactly (user_id, username); every other key is unchanged |
| Store.GetUser | src/layers/main_layer/aws/dynamodb.py:68-71 | `None` exactly when the user key is absent, otherwise the stored item |
| Store.GetUserAfterSave | src/layers/main_layer/aws/dynamodb.py:68-77 | reading a user back after `save_user_to_db` gives exactly the saved (user_id, username) record |
| Store.GetUserAfterOtherSave | src/layers/main_layer/aws/dynamodb.py:68-77 | saving one user leaves what every other user reads back unchanged |
| Store.QueryKeys | src/layers/main_layer/aws/dynamodb.py:80-85 | the sort keys returned are exactly those in the user's partition that begin with `VACATION`, strictly ascending |
| Store.GetUserVacations | src/layers/main_layer/aws/dynamodb.py:80-85 | the i-th result is the item stored under the i-th matched key |
| Store.QueryCoversVacations | src/layers/main_layer/aws/dynamodb.py:80-85 | every stored item the key condition matches is among the results |
| Store.GetVacation | src/layers/main_layer/aws/dynamodb.py:88-92 | succeeds exactly when the vacation key is present, with the stored item; otherwise a `KeyError` |
| Store.GetVacationAfterSave | src/layers/main_layer/aws/dynamodb.py:45-92 | after a successful save the vacation reads back as exactly the item written, with its dates, username and status |
| Store.GetVacationAfterUpdate | src/layers/main_layer/aws/dynamodb.py:88-101 | after a status update a stored vacation reads back with the new status and every other attribute unchanged |
| Store.GetVacationAfterDelete | src/layers/main_layer/aws/dynamodb.py:88-108 | after a delete the vacation read fails with `KeyError`, and every other vacation reads as before |
| Store.SaveVacation | src/layers/main_layer/aws/dynamodb.py:45-65 | the user record is upserted in every case; on validation failure nothing else changes; on success exactly one vacation item is added at (`USER#uid`, `VACATION#vid`) with the given dates and status |
| Store.SaveVacationAgainstTable | src/layers/main_layer/aws/dynamodb.py:45-53 | a save succeeds iff the range is ordered and no vacation of that user stored before it intersects the range (all dated) |
| Store.SaveVacationPreservesDisjoint | src/layers/main_layer/aws/dynamodb.py:45-65 | if every user's vacations are pairwise non-intersecting before a save, they are after it |
| Store.UpdateVacationStatus | src/layers/main_layer/aws/dynamodb.py:95-101 | only the status attribute of that key changes and every other item is unchanged; on an absent key the store creates an item holding only the status and no other attribute |
| Store.UpdateVacationStatusPreservesDisjoint | src/layers/main_layer/aws/dynamodb.py:95-101 | a status change keeps every user's vacations pairwise non-intersecting |
| Store.DeleteVacation | src/layers/main_layer/aws/dynamodb.py:104-108 | only that key is removed; deleting an absent key changes nothing |
| Store.DeleteVacationPreservesDisjoint | src/layers/main_layer/aws/dynamodb.py:104-108 | a delete keeps every user's vacations pairwise non-intersecting |
| WorkingDays.BumpFacts | src/handlers/process_interactivities/index.py:87-90 | counting a day adds 1 to that year's figure and to the sum, leaves every other year as it was, appends a new year at the end and keeps years distinct |
| WorkingDays.Bump | src/handlers/process_interactivities/index.py:87-90 | no contract of its own; stated by `WorkingDays.BumpFacts` |
| WorkingDays.CountWorking | src/handlers/process_interactivities/index.py:81-85 | the count is at most the number of days in the range, and 0 for an empty range |
| WorkingDays.CountWorkingIn | src/handlers/process_interactivities/index.py:87-90 | the days counted for one year never exceed the range's count |
| WorkingDays.CountWorkingIsSetSize | src/handlers/process_interactivities/index.py:81-85 | the count is the size of the set of days d with start <= d < end, weekday at most 4 and d not a holiday |
| WorkingDays.CountWorkingInOwnYear | src/handlers/process_interactivities/index.py:87-90 | a range inside one year puts all of its count into that year |
| WorkingDays.TallyRangeFacts | src/handlers/process_interactivities/index.py:83-90 | each year's figure grows by the counted days in that year, the sum grows by the range's count, existing entries keep their positions, and only years with a counted day are added |
| WorkingDays.TallyRange | src/handlers/process_interactivities/index.py:83-90 | no contract of its own; stated by `WorkingDays.TallyRangeFacts` |
| WorkingDays.ComputeWorkingDaysInVacation | src/handlers/process_interactivities/index.py:78-92 | returns the number of working days in [start, end), at most (end - start); the dictionary grows by that count in total and by each year's share per year |
| Messages.GenerateBlockWithText | src/layers/main_layer/slack/messages.py:20-21 | no contract of its own; the section it builds is stated by `Messages.SendMessage` and `Messages.TextToChannel` |
| Messages.Route | src/layers/main_layer/slack/messages.py:34-43 | no contract of its own; its routing is stated by `Messages.SendMessage` and `Messages.SendMessageAsWritten` |
| Messages.SendMessageAsWritten | src/layers/main_layer/slack/messages.py:24-43 | as written: accepted iff some content and exactly one destination; text, when given, replaces the blocks with one section; the channel wins over the webhook; "channel and webhook_url cannot be passed together" is never raised |
| Messages.SendMessageAsWrittenMislabels | src/layers/main_layer/slack/messages.py:27-28 | a channel plus a webhook is rejected with the "text and blocks" message, while text plus blocks is accepted |
| Messages.SendMessage | src/layers/main_layer/slack/messages.py:24-43 | accepted iff exactly one kind of content and exactly one destination; no content gives "text or blocks must be passed.", text with blocks "text and blocks cannot be passed together.", no destination "channel or webhook_url must be passed.", both destinations "channel and webhook_url cannot be passed together."; routing as above |
| Messages.SendMessageAgreesWithAsWritten | src/layers/main_layer/slack/messages.py:25-32 | for calls passing at most one kind of content and one destination, the corrected checks and the checks as written agree |
| Messages.TextToChannel | src/layers/main_layer/slack/messages.py:34-41 | a text to a non-empty channel is delivered to that channel as a single section holding the text |
| Messages.PositionalTextCallAsWritten | src/handlers/streams_processors/vacations/index.py:64 | a `send_message(text, channel=...)` call against the current signature always fails with "text or blocks must be passed." |
| Messages.PositionalTextIsLost | src/layers/main_layer/slack/messages.py:24-26 | the positional call fails, and the same text passed by name is delivered |
| Decorators.UncaughtExceptionsHandler | src/layers/main_layer/decorators.py:17-31 | a normal return passes through unchanged and nothing is sent; an exception becomes exactly one health-channel report naming the function and the error, followed by `{statusCode: 200}`; if the report itself cannot be sent, its error escapes |
| Reactor.SeasonOfMonth | src/handlers/streams_processors/vacations/index.py:41-50 | winter iff month in {12, 1, 2}, spring iff in {3, 4, 5}, summer iff in {6, 7, 8}, autumn iff in {9, 10, 11} |
| Reactor.SeasonEmoji | src/handlers/streams_processors/vacations/index.py:34-38 | no contract of its own; the emoji string of each season, stated through `Reactor.GenerateEmojiSetBySeason` and the team announcement of `Lifecycle.AutoApprovalEndToEnd` |
| Reactor.GenerateEmojiSetBySeason | src/handlers/streams_processors/vacations/index.py:41-50 | no contract of its own; the season of the start month is stated by `Reactor.SeasonOfMonth` |
| Reactor.GenerateBlockIdForVacationDecision | src/handlers/streams_processors/vacations/index.py:53-54 | no contract of its own; the prompt's block id naming the vacation is stated by `Reactor.InsertWithDecisionMaker`, and its round trip into a decision by `Interactivity.PromptButtonsDecide` |
| Reactor.NotifyTeam | src/handlers/streams_processors/vacations/index.py:57-64 | no contract of its own; stated by `Reactor.ModifyToApproved` |
| Reactor.NotifyRequester | src/handlers/streams_processors/vacations/index.py:67-77 | no contract of its own; stated by `Reactor.ModifyToApproved`, `Reactor.ModifyToDeclined` and `Reactor.ModifyToOtherStatusFails` |
| Reactor.SendForApproval | src/handlers/streams_processors/vacations/index.py:80-129 | no contract of its own; stated by `Reactor.InsertWithDecisionMaker` |
| Reactor.ApprovalPrompt | src/handlers/streams_processors/vacations/index.py:83-128 | no contract of its own; stated by `Reactor.InsertWithDecisionMaker` and `Interactivity.PromptButtonsDecide` |
| Reactor.ProcessModify | src/handlers/streams_processors/vacations/index.py:143-151 | no contract of its own; stated by `Reactor.ModifyToApproved`, `Reactor.ModifyToDeclined` and `Reactor.ModifyToOtherStatusFails` |
| Reactor.DeleteDeclined | src/handlers/streams_processors/vacations/index.py:149-150 | no contract of its own; stated by `Reactor.ModifyToDeclined` |
| Reactor.ProcessInsert | src/handlers/streams_processors/vacations/index.py:153-162 | no contract of its own; stated by `Reactor.InsertWithDecisionMaker` and `Reactor.InsertWithoutDecisionMaker` |
| Reactor.ProcessRecord | src/handlers/streams_processors/vacations/index.py:136-162 | no contract of its own; stated by `Reactor.NonVacationRecordsIgnored`, `Reactor.RemoveIgnored` and the INSERT/MODIFY lemmas |
| Reactor.ProcessVacations | src/handlers/streams_processors/vacations/index.py:132-162 | no contract of its own; stated by `Reactor.BatchInDeliveryOrder` and `Reactor.BatchStopsAtFirstFailure` |
| Reactor.SeasonsCoverYear | src/handlers/streams_processors/vacations/index.py:41-50 | the months of each season are exactly those three |
| Reactor.StatusResponse | src/handlers/streams_processors/vacations/index.py:28-31 | an outcome remark exists exactly for APPROVED and DECLINED |
| Reactor.NonVacationRecordsIgnored | src/handlers/streams_processors/vacations/index.py:136-137 | a record whose sort key does not start with `VACATION#` has no effects |
| Reactor.RemoveIgnored | src/handlers/streams_processors/vacations/index.py:143-162 | a REMOVE record has no effects |
| Reactor.InsertWithDecisionMaker | src/handlers/streams_processors/vacations/index.py:153-160 | INSERT with a decision maker: exactly "sent for approval" to the requester, then the five-block prompt whose block id names the vacation, to the decision maker; no store write |
| Reactor.InsertWithoutDecisionMaker | src/handlers/streams_processors/vacations/index.py:161-162 | INSERT without a decision maker: exactly one write setting the status to APPROVED, and no message |
| Reactor.ModifyToApproved | src/handlers/streams_processors/vacations/index.py:143-151 | MODIFY to APPROVED: the team announcement with the season's emoji exactly when a notifications channel exists, then the requester's notice; no store write |
| Reactor.ModifyToDeclined | src/handlers/streams_processors/vacations/index.py:149-151 | MODIFY to DECLINED: delete the vacation, then the requester's notice; no team announcement |
| Reactor.ModifyToOtherStatusFails | src/handlers/streams_processors/vacations/index.py:70-75 | MODIFY with any other status raises `KeyError` on the outcome lookup, having done nothing |
| Reactor.BatchInDeliveryOrder | src/handlers/streams_processors/vacations/index.py:134-135 | when no record raises, the batch performs each record's effects in delivery order and returns None |
| Reactor.BatchStopsAtFirstFailure | src/handlers/streams_processors/vacations/index.py:132-135 | the first record that raises ends the batch: the records before it keep their effects, the later ones contribute none |
| Interactivity.ProcessBlockActions | src/handlers/process_interactivities/index.py:30-47 | no contract of its own; stated by `Interactivity.IgnoredActionsTouchNothing`, `Interactivity.StaleDecisionIsNoOp`, `Interactivity.PendingDecisionApplied` and `Interactivity.RepeatedDecisionIsNoOp` |
| Interactivity.IgnoredActionsTouchNothing | src/handlers/process_interactivities/index.py:30-36 | an action other than approve/decline, or a block id event other than `vacation_decision`, does nothing, whatever the table holds |
| Interactivity.StaleDecisionIsNoOp | src/handlers/process_interactivities/index.py:39-41 | a decision on a vacation whose status is not PENDING writes nothing and sends nothing |
| Interactivity.PendingDecisionApplied | src/handlers/process_interactivities/index.py:39-47 | on PENDING: one write of the button's value, then one confirmation to the response URL; the table changes only in that status |
| Interactivity.RepeatedDecisionIsNoOp | src/handlers/process_interactivities/index.py:39-43 | once a decision has been applied, a second decision on the same vacation does nothing |
| Interactivity.PromptButtonsDecide | src/handlers/streams_processors/vacations/index.py:102-126 | pressing either button of the reactor's prompt on a PENDING vacation stores that button's status (APPROVED or DECLINED) |
| Interactivity.SortByStart | src/handlers/process_interactivities/index.py:102-104 | the result is a permutation of the vacations in ascending start order |
| Interactivity.AccumulateFacts | src/handlers/process_interactivities/index.py:107-119 | the loop fails iff some vacation lacks an end date; otherwise line i reports vacation i with its index and working-day count, and the total grows by the lines' sum, as does the by-year sum |
| Interactivity.Accumulate | src/handlers/process_interactivities/index.py:107-119 | no contract of its own; stated by `Interactivity.AccumulateFacts` |
| Interactivity.ReportSummaryFacts | src/handlers/process_interactivities/index.py:107-122 | one line per vacation, numbered from 1; the total equals the lines' sum and the sum of the per-year figures |
| Interactivity.SendUserVacations | src/handlers/process_interactivities/index.py:95-125 | no contract of its own; stated by `Interactivity.NoVacationsReport`, `Interactivity.VacationsReportRun` and `Interactivity.VacationsReport` |
| Interactivity.SummaryDescribesVacations | src/handlers/process_interactivities/index.py:102-123 | the text built from the sorted vacations' summary describes them: one line per vacation with its dates, in ascending start order, numbered from 1, with its working days, and the two totals agree |
| Interactivity.NoVacationsReport | src/handlers/process_interactivities/index.py:95-100 | with no vacations the requester gets the "doesn't have booked vacations" text under the stored name or "Selected user" |
| Interactivity.ReportName | src/handlers/process_interactivities/index.py:96-97 | no contract of its own; stated by `Interactivity.ReportNameAfterSave` and `Interactivity.NoVacationsReport` |
| Interactivity.ReportNameAfterSave | src/handlers/process_interactivities/index.py:96-97 | the report names a user by the username `save_user_to_db` stored for them; saving another user leaves the name unchanged; a user never saved is called "Selected user" |
| Interactivity.VacationsReportRun | src/handlers/process_interactivities/index.py:95-125 | with dated vacations the only effect is one report to the requester, built from the sorted vacations |
| Interactivity.VacationsReport | src/handlers/process_interactivities/index.py:95-125 | one report goes to the requester under the stored name or "Selected user"; line i carries the dates of the i-th vacation of the start-sorted list, which is a permutation of the stored vacations, numbered i + 1 with its working days; the total equals the lines' sum and the per-year sum |
| Interactivity.ProcessViewSubmission | src/handlers/process_interactivities/index.py:50-69 | no contract of its own; stated by `Interactivity.RejectedBookingNotifiesSubmitter` and `Interactivity.AcceptedBookingIsPending` |
| Interactivity.RejectedBookingNotifiesSubmitter | src/handlers/process_interactivities/index.py:50-65 | a booking the validator rejects becomes one message to the submitter with the reason, not an exception; only the user record is written |
| Interactivity.AcceptedBookingIsPending | src/handlers/process_interactivities/index.py:52-60 | an accepted booking is stored PENDING under the fresh id and nothing is sent |
| Lifecycle.VacationSortKeyIsVacationRecord | src/handlers/streams_processors/vacations/index.py:136-137 | the sort key of every saved vacation passes the reactor's `VACATION#` filter |
| Lifecycle.AutoApprovalEndToEnd | src/handlers/streams_processors/vacations/index.py:143-162 | without a decision maker a saved booking's INSERT sets it APPROVED; the MODIFY that follows first sends the team announcement with the season's emoji when a channel exists, and tells the requester last |
| Lifecycle.PromptAfterBooking | src/handlers/streams_processors/vacations/index.py:153-160 | with a decision maker, a saved booking's INSERT sends two messages, the second being the prompt for that very vacation |
| Lifecycle.DecidedModify | src/handlers/streams_processors/vacations/index.py:143-151 | after a decision, the MODIFY leaves an approved vacation in the table and deletes a declined one, telling the requester last |
| Lifecycle.DecisionOnBooked | src/handlers/process_interactivities/index.py:30-47 | on a stored PENDING vacation, either prompt button stores its status; the following MODIFY keeps an approved vacation APPROVED and removes a declined one |
| Lifecycle.PromptThenDecision | src/handlers/streams_processors/vacations/index.py:153-160 | the INSERT's prompt for a stored PENDING vacation carries the buttons whose press settles it as above |
| Lifecycle.DecisionEndToEnd | src/handlers/process_interactivities/index.py:30-47 | booking → prompt → button → MODIFY: the pressed status is stored; an approved vacation stays APPROVED and a declined one is gone |
| Lifecycle.DeclinedRedeliveryIsHarmless | src/handlers/streams_processors/vacations/index.py:149-151 | a DECLINED MODIFY delivered twice never raises, and the second delivery leaves the table as the first did |
| Lifecycle.WrappedBatchFailure | src/layers/main_layer/decorators.py:17-28 | a wrapped batch failing on record k keeps the effects of the records before it, skips the rest, sends one report and answers 200 |
| Lifecycle.WrappedBatchSuccess | src/layers/main_layer/decorators.py:29-30 | a wrapped batch without failures performs every record's effects in order and returns the batch's own None |

## Left out

- Date parsing and display: `strptime`/`strftime` with `%Y-%m-%d` and `%d.%m.%Y`. Dates are day ordinals and texts are data constructors, not formatted strings.
- The calendar: the year and month of a day are the `Calendar` parameter, not computed from the Gregorian rules.
- `holidays.UA()`: an abstract holiday set.
- `uuid4()`: the fresh vacation id is a parameter of the save.
- `json.dumps`/`json.loads` of the block id: the block id is a record, and decoding is taken to invert encoding.
- The decision-maker and notifications-channel lookups (`get_decision_maker_from_db`, `get_notifications_channel_from_db`): they are not defined in the `dynamodb.py` this model follows, so they are fields of `ReactorConfig`.
- The chat user-name lookup (`get_user`): the function `nameOf`. Its Slack API failures are not modelled.
- The workspace token lookup in `send_message` (`VacationsTable.get_workspace`): `VacationsTable` is not part of this model. The model keeps the single-tenant `USER#`/`VACATION#` layout of the `dynamodb.py` this model follows.
- The actual Slack and webhook HTTP calls, and the re-raised `SlackApiError`.
- The handlers' calls to `send_message`: these call sites still use the older signature with no workspace parameter. Apart from the finding below, the model sends their texts as the text argument, which is what they evidently mean.
- The parameter-store reads in the wrapper (`get_parameter`): the health channel is a parameter, and a failure of the read is not modelled.
- Logging, `TypeDeserializer`, the request-body parsing and the top-level `process_interactivities` dispatcher, which opens modal views (`open_modal_view`, views and modals are UI rendering).
- Query pagination: the query returns all matching items in one response.
- Concurrency: the race between the overlap check and `put_item`. Saves are modelled sequentially.
- Store write failures (exceptions from `put_item`, `update_item`, `delete_item`).
- Store.SaveVacationPreservesDisjoint: assumes every read sees the latest write. The source's `query` (dynamodb.py:82-84) passes no `ConsistentRead`, so DynamoDB may serve it eventually consistent, and a save right after another save may not see the first. The model has one current table.
- Interactivity.RepeatedDecisionIsNoOp: assumes the same. The `get_item` at dynamodb.py:91 is eventually consistent, so a second click soon after the first may still read PENDING and write again.
- Store.GetUser, Store.GetVacation: read the current table, with the same assumption (dynamodb.py:70, 91).

## Findings

| source | as written | input that shows it | evidently intended | confidence | as-written member | corrected member |
|---|---|---|---|---|---|---|
| src/layers/main_layer/slack/messages.py:27-28 | the second check tests `channel and webhook_url` again, with the message "text and blocks cannot be passed together." | `text="x"`, `channel="C1"`, `webhook_url="https://hook"` raises the text-and-blocks message; `text="x"`, `blocks=[b]`, `channel="C1"` is accepted | reject text together with blocks under that message, and leave both destinations to the check at lines 31-32 | medium; not executed | Messages.SendMessageAsWrittenMislabels | Messages.SendMessage |
| src/handlers/streams_processors/vacations/index.py:64 | `send_message(text, channel=...)` while `send_message` now takes `workspace_id` first, so the text lands in `workspace_id` (the same pattern appears at lines 77, 156 and in the interactivity handler; at line 129 `send_message(blocks=blocks, channel=...)` omits `workspace_id` altogether and raises `TypeError`) | any team announcement: `send_message("...", channel="C1")` raises "text or blocks must be passed." | pass the workspace id first and the text as `text` | medium; not executed | Messages.PositionalTextCallAsWritten | Messages.PositionalTextIsLost |
