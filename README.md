# Transfer engine of the channel cloner, in Dafny

This project models the transfer engine of a Telegram channel cloner: the
`Cloner` class of `src/core/cloner.py`. It has two parts.

- **The copy-strategy chain** (`_copy_message`, `_resend_content`,
  `_get_msg_info`). It tries to transfer one message in up to five ways, in a
  fixed order, and stops at the first that works:
  1. `copy`
  2. `resend` with entities and markup
  3. `resend_limpo` without them
  4. `texto_puro` as plain text
  5. `raw_forward` with the author dropped

  When every strategy fails, the result is a bracketed diagnostic of the message
  followed by the errors that were raised.
- **The clone orchestrator** (`clone_chat`, `stop`, `pause`, `resume`).
  - It counts the history of the origin chat, collects it and reverses it to
    oldest first.
  - It hands each message to the chain while honouring stop and pause requests.
  - It keeps the copied and failed counters and at most fifteen failure reasons.
  - It reports through a progress callback and a log callback.

Files:

- `messages.dfy` (module `Messages`): the message record, the content kinds,
  and the diagnostic string of `_get_msg_info`.
- `strategies.dfy` (module `Strategies`):
  - the send call that `_resend_content` makes;
  - the chain as a function (`Transfer`, `Errors`, `Issued`);
  - the method `CopyMessage` that runs the chain, proved equal to `Transfer`.
- `cloning.dfy` (module `Cloning`):
  - `clone_chat` as a function of its inputs (`Clone`, `Loop`, `Visit`,
    `Finish`);
  - the accounting, stop, pause and progress properties proved about it.
- `cloner.dfy` (module `Orchestrator`): the `Cloner` class.
  - Its fields are `stopRequested`, `pauseRequested` and `isRunning`.
  - `Stop`, `Pause` and `Resume` change those fields.
  - `CloneChat` runs the loops of `clone_chat`. It is proved to return exactly
    `Cloning.Clone` and to leave `isRunning` false.

Modelling choices:

- **The endpoint is an oracle.** The endpoint stands for the Telegram client:
  `msg.copy`, the `send_*` calls, and `resolve_peer` plus
  `invoke(ForwardMessages)`. It is a total function from (strategy, request) to
  `Ok` or `Err(detail)`.
- **A run is described by its inputs.** It takes the two enumerations of the
  history and, for each check point of the loop, a `Turn`:
  - the `stop()`, `pause()` and `resume()` calls made since the previous check
    point;
  - how a pause at that check point ends;
  - whether something raises inside that message's try block.
- **The callbacks form a trace.** It is the sequence of callback calls,
  `Progress(current, total)` and `Log(level, note)`. `Wording` gives each
  note's text.

## Model

| member | source | states |
|---|---|---|
| `Messages.InfoPartsOrdered` | src/core/cloner.py:85-107 | the diagnostic's parts open with `id=<id>` and follow the fixed order id, text, caption, media, service, empty, web_page, reply_markup, entities, forwarded |
| `Messages.InfoPartsContent` | src/core/cloner.py:88-93 | the text excerpt, the caption excerpt and the entity type names are reported exactly when the message has them. Any text, caption or entities part is that excerpt and appears only when the field is set. The media type is reported when present, and any media part reported is the message's own |
| `Messages.InfoPartsFlags` | src/core/cloner.py:94-106 | `service`, `empty`, `web_page`, `reply_markup` and `forwarded` are each reported exactly when the message's field is set |
| `Messages.InfoPartsBounded` | src/core/cloner.py:88-104 | text and caption excerpts hold at most 40 characters; the entities part lists between one and three type names |
| `Messages.DiagnosticShape` | src/core/cloner.py:86-107 | the diagnostic string always starts with `[id=<id>` and ends with `]` |
| `Strategies.ResendCall` | src/core/cloner.py:109-202 | the one send call of `_resend_content` goes to the destination and carries the payload of its kind. The caption is passed exactly for captioned kinds. The caption entities, text entities and reply markup are passed only without `skip_markup`. Sticker and video note carry no caption and no entities |
| `Strategies.ResendPicksFirstPresentKind` | src/core/cloner.py:116-202 | `_resend_content` sends nothing exactly when no kind is present. Otherwise it sends the first present kind in the order photo, video, document, audio, voice, sticker, video note, animation, text |
| `Strategies.FirstSentIsFirst` | src/core/cloner.py:27-79 | every strategy before the one that sends failed, and the one found does send |
| `Strategies.IssuedEndsWithSuccess` | src/core/cloner.py:27-79 | the chain succeeds exactly when the last request it issued was accepted: nothing runs after the first success |
| `Strategies.IssuedRejectedBeforeLast` | src/core/cloner.py:27-79 | every request issued before the last one was rejected |
| `Strategies.IssuedArePlanned` | src/core/cloner.py:27-79 | the requests issued are a prefix of the planned requests in chain order; when nothing succeeds they are all of them |
| `Strategies.ErrorsAreRejections` | src/core/cloner.py:25-80 | the error list holds one entry per rejected request, in issue order, and nothing else. A strategy that returns without sending adds no entry |
| `Strategies.FailedChainEndsWithLast` | src/core/cloner.py:62-80 | when nothing succeeds and the last strategy issued a request, the last error recorded is that request's |
| `Strategies.ErrorsBounded` | src/core/cloner.py:25-80 | the chain records at most one error per strategy |
| `Strategies.TotalFailureErrors` | src/core/cloner.py:18-83 | a message that is not copied records between two and five errors: copy's first and raw_forward's last. The reason is the diagnostic, ` -> `, then the labelled errors joined by a vertical bar with a space on each side |
| `Strategies.OnlyCopyAndForward` | src/core/cloner.py:27-80 | when only copy and raw_forward have a request and both are rejected, those are the only two requests and the only two errors |
| `Strategies.ContentlessFailure` | src/core/cloner.py:34-83 | a message with no content kind and blank text and caption is tried only by copy and raw_forward; its failure records exactly those two errors |
| `Strategies.CopyMessage` | src/core/cloner.py:18-83 | `_copy_message` returns `Transfer` of the message and issues exactly the requests `TransferCalls` lists |
| `Strategies.CopyFallbacks` | src/core/cloner.py:50-83 | after copy and both re-sends failed, plain text, raw_forward and the diagnostic complete `Transfer` and `TransferCalls` |
| `Strategies.AttemptStrategy` | src/core/cloner.py:34-40 | one try block issues its strategy's request if it has one, reports whether it sent, and otherwise appends the labelled error of a rejection to what the chain has recorded so far |
| `Cloning.StopLatches` | src/core/cloner.py:315-323 | after any sequence of control calls a stop request is set exactly when it was already set or the sequence holds a `stop()` |
| `Cloning.LastCommandDecidesPause` | src/core/cloner.py:315-323 | after a non-empty sequence of control calls the pause request is set exactly when the last call was `pause()` |
| `Cloning.CountsCoverVisited` | src/core/cloner.py:265-289 | over the messages visited, copied plus failed equals the number visited plus the number of progress callbacks that raised |
| `Cloning.VisitAccounted` | src/core/cloner.py:265-289 | one message's try block keeps the counters equal to those of the messages visited and only appends to the trace |
| `Cloning.LoopAccounted` | src/core/cloner.py:251-289 | the loop's counters are those of the messages it visited, and it visits them all exactly when it runs out. A loop that breaks leaves a stop request; one that returns from a pause leaves only the stop request |
| `Cloning.StopIsHonoured` | src/core/cloner.py:251-263 | a stop delivered before check point k means no message from index k on is handed to `_copy_message` |
| `Cloning.PausesAreTransparent` | src/core/cloner.py:257-263 | without a stop, pausing and resuming leave the counters and the trace exactly as in a run that was never paused, and every message is visited |
| `Cloning.MilestoneRule` | src/core/cloner.py:265-289 | progress `i + 1` is reported unless the diagnostic raised. The milestone log follows exactly when nothing raised and the copied count is then a positive multiple of ten |
| `Cloning.LoopNeverFinishes` | src/core/cloner.py:251-289 | the loop writes none of the logs that follow it: no success-level log, no failure header, no failure detail |
| `Cloning.LoopEndLogs` | src/core/cloner.py:251-263 | a loop that breaks on a stop ends on the cancellation warning carrying the copied count; one that returns from a pause ends on the pause-cancellation warning |
| `Cloning.CopyingAccounting` | src/core/cloner.py:243-303 | after the loop and summary the counters are those of the messages visited, and at most fifteen reasons are kept. A run that did not visit every message was stopped, and a stop during a pause leaves only the stop request |
| `Cloning.PausedStopRun` | src/core/cloner.py:258-263 | a stop during a pause ends the run on the pause-cancellation warning. The run has no closing summary, no failure header or detail logs, and nothing after that warning, and it leaves messages unvisited |
| `Cloning.ClosingLogs` | src/core/cloner.py:291-307 | after a loop trace holding none of the closing logs, the summary section ends with the failure header and each kept reason in order (when reasons were kept) and then `(total, total)`. The closing summary appears exactly when no stop was requested, and the failure header appears only there |
| `Cloning.CopyingSummary` | src/core/cloner.py:291-307 | a run that reaches the summary ends with the failure header and each kept reason in order (when reasons were kept), then progress `(total, total)`. It logs the closing summary exactly when no stop was requested, and a failure header only when reasons were kept |
| `Cloning.StoppedRun` | src/core/cloner.py:253-255 | a run cut short by a stop between messages is left with the stop request set. It logs the cancellation warning with the copied count, followed only by the failure report and `(total, total)`, so there is no closing summary |
| `Cloning.CloneExits` | src/core/cloner.py:222-241 | a failed enumeration ends in the fatal handler with an error log last. An empty origin ends on the empty-origin warning before any message. Both leave zero counters, reset flags and no progress call |
| `Cloning.OldestFirst` | src/core/cloner.py:243-244 | the message at loop index j is the j-th from the end of the history as enumerated |
| `Cloning.SmoothLoop` | src/core/cloner.py:251-289 | with every message copied, nothing raising and no stop, the loop copies every remaining message and appends exactly their progress reports and milestones |
| `Cloning.SmoothTraceCounts` | src/core/cloner.py:276-282 | in such a loop progress is reported once per message, and one milestone is logged per multiple of ten passed |
| `Cloning.SmoothRun` | src/core/cloner.py:243-307 | a smooth run of n messages copies all n and fails none. Its trace is the preamble, the per-message reports, the summary and `(total, total)`: n + 1 progress calls and n / 10 milestone logs |
| `Cloning.SmoothCounts` | src/core/cloner.py:276-307 | the trace of a smooth run of n messages holds n + 1 progress calls and n / 10 milestone logs |
| `Orchestrator.Cloner.constructor` | src/core/cloner.py:11-16 | a new cloner has no request pending and is not running |
| `Orchestrator.Cloner.Stop` | src/core/cloner.py:315-317 | `stop()` sets the stop request and clears the pause request |
| `Orchestrator.Cloner.Pause` | src/core/cloner.py:319-320 | `pause()` sets the pause request only |
| `Orchestrator.Cloner.Resume` | src/core/cloner.py:322-323 | `resume()` clears the pause request only |
| `Orchestrator.Cloner.Deliver` | src/core/cloner.py:315-323 | a sequence of control calls leaves the requests as `ApplyAll` says and does not touch `isRunning` |
| `Orchestrator.Cloner.CloneChat` | src/core/cloner.py:204-313 | `clone_chat` produces exactly the run `Clone` describes, and leaves `isRunning` false on every exit path |
| `Orchestrator.Cloner.CopyAndReport` | src/core/cloner.py:243-307 | from the loop on, `clone_chat` produces the run `Copying` describes and leaves `isRunning` false |
| `Orchestrator.Cloner.CopyAll` | src/core/cloner.py:251-289 | the for loop produces the pass `Loop` describes and is still running unless it returned from a pause |
| `Orchestrator.Cloner.AwaitResume` | src/core/cloner.py:257-263 | the pause wait returns stopped exactly when a pause was pending and ended with a stop. The requests are then those after that stop or resume |
| `Orchestrator.Cloner.Report` | src/core/cloner.py:291-307 | what follows the loop produces the run `Finish` describes and leaves `isRunning` false |
| `Orchestrator.Cloner.VisitMessage` | src/core/cloner.py:265-289 | the try block and its except branch produce the counters and trace `Visit` describes |

## Behaviour worth knowing

These are facts about the code, each proved in the model.

- **A message with no content fails with two errors.** A re-send that finds
  no content kind returns `False` (src/core/cloner.py:202), and a blank plain
  text skips the send (src/core/cloner.py:53). Neither raises, so neither
  appends to the error list. Only copy and raw_forward record errors for such
  a message (`Strategies.ContentlessFailure`).
- **The milestone log can repeat.** The copied count is tested after every
  message (src/core/cloner.py:281-282), not only when it grows. So the log
  repeats after failed messages while the count stays at a multiple of ten.
  It is skipped when the progress callback raised (`Cloning.MilestoneRule`).
- **Copied plus failed need not equal the total.**
  - A progress callback that raises sends control to the except branch
    (src/core/cloner.py:287-288). That branch counts one more failure for a
    message that already moved a counter (`Cloning.CountsCoverVisited`).
  - The total comes from the first enumeration (src/core/cloner.py:226-228),
    while the loop walks the second (src/core/cloner.py:240-241).
- **Progress is not reported for every message.** Building the diagnostic
  (src/core/cloner.py:82) happens inside the try block. If it raises, the
  message's progress call at src/core/cloner.py:277-278 is skipped.

## Left out

- **Python logging.** The calls to the module logger (`logger.info`,
  `logger.warning`, `logger.error` with traceback text) are I/O. Only the log
  callback's calls are in the trace.
- **Absent or raising callbacks.** `progress_callback` and `log_callback` are
  assumed present.
  - A log callback that raises is not modelled.
  - A final `(total, total)` progress callback that raises is not modelled;
    it would end in the fatal handler.
- **Timing.** The `asyncio.sleep` pacing is not modelled: neither the
  half-second rate limit nor the half-second pause polling. It changes no state.
- **Concurrency.**
  - Control calls are modelled as arriving at the loop's check points, after
    the loop, or during a pause wait.
  - Calls made while the history is being enumerated are not modelled.
- **Peer resolution and `random_id`.** Both are folded into the raw forward
  request. A failing `resolve_peer` is the same as a rejected request.
- **Exception texts.** The text of each exception (`str(e)`) is whatever the
  endpoint oracle returns.
- **Message fields.**
  - `msg.media` is given as its rendered name.
  - Entity type names are assumed to hold no quote characters, so that
    Python's list repr is plain.
- `Orchestrator.Cloner.AwaitResume`: the calls made during the pause wait are
  reduced to how the wait ends (`PauseEnd`). A `stop()` followed by a `pause()`
  within one sleep leaves `pause_requested` set in the code, but cleared in the
  model.
