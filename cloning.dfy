/** The behaviour of Cloner.clone_chat as a function of its inputs: the history of
    the origin chat as its two enumerations return it, the control commands the
    user interface delivers while the run is under way, the endpoint's replies and
    the callbacks that raise. A run is described by its exit, the final request
    flags, the counters and the sequence of callback invocations (the trace). */
module Cloning {
  import opened Messages
  import opened Strategies

  /** At most this many failure reasons are kept for the final report. */
  const DetailCapacity: nat := 15
  /** The progress message is logged when the copied count is a multiple of this. */
  const MilestoneEvery: nat := 10

  // ---------------------------------------------------------------------------
  // Control requests

  /** A call from the user interface: stop(), pause() or resume(). */
  datatype Command = StopCmd | PauseCmd | ResumeCmd

  /** The cloner's stop_requested and pause_requested fields. */
  datatype Flags = Flags(stop: bool, pause: bool)

  const Idle := Flags(false, false)

  /** stop() sets the stop request and clears the pause request; pause() and
      resume() set and clear the pause request. */
  function Apply(f: Flags, c: Command): Flags
  {
    match c
    case StopCmd => Flags(true, false)
    case PauseCmd => f.(pause := true)
    case ResumeCmd => f.(pause := false)
  }

  function ApplyAll(f: Flags, cs: seq<Command>): Flags
    decreases |cs|
  {
    if cs == [] then f else ApplyAll(Apply(f, cs[0]), cs[1..])
  }

  lemma {:induction false} ApplyAllSnoc(f: Flags, cs: seq<Command>, c: Command)
    ensures ApplyAll(f, cs + [c]) == Apply(ApplyAll(f, cs), c)
    decreases |cs|
  {
    if cs != [] {
      assert (cs + [c])[1..] == cs[1..] + [c];
      ApplyAllSnoc(Apply(f, cs[0]), cs[1..], c);
    }
  }

  /** A stop request is never withdrawn: after a batch of commands it is set
      exactly when it was set before or the batch holds a stop. */
  lemma {:induction false} StopLatches(f: Flags, cs: seq<Command>)
    ensures ApplyAll(f, cs).stop <==> f.stop || StopCmd in cs
    decreases |cs|
  {
    if cs != [] {
      StopLatches(Apply(f, cs[0]), cs[1..]);
      assert cs == [cs[0]] + cs[1..];
    }
  }

  /** After a non-empty batch the pause request is set exactly when the last
      command was a pause: a stop clears it like a resume does. */
  lemma {:induction false} LastCommandDecidesPause(f: Flags, cs: seq<Command>)
    requires cs != []
    ensures ApplyAll(f, cs).pause <==> cs[|cs| - 1] == PauseCmd
    decreases |cs|
  {
    if |cs| > 1 {
      LastCommandDecidesPause(Apply(f, cs[0]), cs[1..]);
    }
  }

  // ---------------------------------------------------------------------------
  // What happens around each message

  /** How a pause ends: by resume(), or by stop() while paused. */
  datatype PauseEnd = Resumed | StoppedWhilePaused

  /** An exception inside the per-message try block: the diagnostic of a message
      that could not be copied fails to format, or the progress callback raises. */
  datatype Fault = NoFault | DiagnosticRaised | ProgressRaised

  /** What the outside world does at the check point before message i: the
      commands delivered since the previous check point, how a pause would end,
      and the fault, if any, of message i's try block. */
  datatype Turn = Turn(arrivals: seq<Command>, pauseEnd: PauseEnd, fault: Fault)

  function TurnAt(turns: seq<Turn>, i: nat): Turn
  {
    if i < |turns| then turns[i] else Turn([], Resumed, NoFault)
  }

  datatype Level = Info | Warning | Error | Success

  /** The messages clone_chat logs, by what they report. */
  datatype Note =
    | Analyzing
    | Found(count: nat)
    | OriginEmpty
    | Collecting
    | Starting
    | CancelledAt(copied: nat)
    | CancelledWhilePaused
    | Milestone(copied: nat, total: nat)
    | Finished(copied: nat, failed: nat)
    | FailureHeader(count: nat)
    | FailureDetail(reason: string)
    | Critical(error: string)

  /** The text each note is logged with. */
  function Wording(n: Note): string
  {
    match n
    case Analyzing => "Analisando canal de origem..."
    case Found(c) => "Encontradas " + NatStr(c) + " mensagens para clonar."
    case OriginEmpty => "Canal de origem esta vazio!"
    case Collecting => "Coletando mensagens..."
    case Starting => "Iniciando clonagem..."
    case CancelledAt(c) => "Clonagem cancelada! Copiadas: " + NatStr(c)
    case CancelledWhilePaused => "Clonagem cancelada durante pausa!"
    case Milestone(c, t) => "Progresso: " + NatStr(c) + "/" + NatStr(t) + " mensagens copiadas"
    case Finished(c, f) =>
      "Clonagem finalizada! Copiadas: " + NatStr(c) + (if f > 0 then ", Falhas: " + NatStr(f) else "")
    case FailureHeader(c) => "--- Detalhes de " + NatStr(c) + " mensagens com falha ---"
    case FailureDetail(r) => r
    case Critical(e) => "Erro critico: " + e
  }

  /** A call of the progress callback or of the log callback. */
  datatype Event = Progress(current: nat, total: nat) | Log(level: Level, note: Note)

  /** One pass of get_chat_history: the messages it yields, newest first, or the
      error it raises. */
  datatype Enumeration = Listed(messages: seq<Msg>) | Failed(error: string)

  /** copied_count, failed_count and failed_details. */
  datatype Tally = Tally(copied: nat, failed: nat, details: seq<string>)

  const NoTally := Tally(0, 0, [])

  /** The loop's inputs: the counted total, the messages oldest first and the
      turns. The loop is stated for any `copy`, the outcome of _copy_message for
      each message; a run uses `CopyTo` below. */
  datatype Job = Job(total: nat, msgs: seq<Msg>, turns: seq<Turn>)

  datatype LoopEnd = Exhausted | Broke | Returned

  /** Where the loop leaves the run: flags, counters, how many messages were
      handed to _copy_message, the trace so far and how the loop ended. */
  datatype Pass = Pass(flags: Flags, tally: Tally, visited: nat, trace: seq<Event>, end: LoopEnd)

  // ---------------------------------------------------------------------------
  // The loop over the messages

  /** What _copy_message returns for the message at index j. */
  function OutcomeAt(job: Job, copy: Msg -> Outcome, j: nat): Outcome
    requires j < |job.msgs|
  {
    copy(job.msgs[j])
  }

  /** The counters after one more outcome. */
  function Record(t: Tally, o: Outcome): Tally
  {
    if o.Copied? then t.(copied := t.copied + 1)
    else t.(failed := t.failed + 1,
            details := if |t.details| < DetailCapacity then t.details + [o.reason] else t.details)
  }

  /** The body of the try block for message i, with its except branch. */
  function Visit(job: Job, copy: Msg -> Outcome, i: nat, t: Tally, trace: seq<Event>): (Tally, seq<Event>)
    requires i < |job.msgs|
  {
    var outcome := OutcomeAt(job, copy, i);
    var fault := TurnAt(job.turns, i).fault;
    if outcome.NotCopied? && fault == DiagnosticRaised then
      (t.(failed := t.failed + 1), trace)
    else
      var t' := Record(t, outcome);
      var trace' := trace + [Progress(i + 1, job.total)];
      if fault == ProgressRaised then (t'.(failed := t'.failed + 1), trace')
      else if t'.copied > 0 && t'.copied % MilestoneEvery == 0 then
        (t', trace' + [Log(Info, Milestone(t'.copied, job.total))])
      else (t', trace')
  }

  /** The for loop of clone_chat from message i on, with `flags` the requests
      before this check point's commands are delivered. */
  function Loop(job: Job, copy: Msg -> Outcome, i: nat, flags: Flags, t: Tally, trace: seq<Event>): Pass
    requires i <= |job.msgs|
    decreases |job.msgs| - i
  {
    if i == |job.msgs| then Pass(flags, t, i, trace, Exhausted)
    else
      var turn := TurnAt(job.turns, i);
      var f := ApplyAll(flags, turn.arrivals);
      if f.stop then Pass(f, t, i, trace + [Log(Warning, CancelledAt(t.copied))], Broke)
      else if f.pause && turn.pauseEnd == StoppedWhilePaused then
        Pass(Apply(f, StopCmd), t, i, trace + [Log(Warning, CancelledWhilePaused)], Returned)
      else
        var g := if f.pause then Apply(f, ResumeCmd) else f;
        var (t', trace') := Visit(job, copy, i, t, trace);
        Loop(job, copy, i + 1, g, t', trace')
  }

  // ---------------------------------------------------------------------------
  // The whole run

  /** How clone_chat left: empty origin, stop during a pause, after the summary
      (the loop ran out or was cancelled), or through the fatal-error handler. */
  datatype Exit = EmptyOrigin | StoppedInPause | Summarised | Fatal

  datatype Run = Run(exit: Exit, flags: Flags, tally: Tally, visited: nat, trace: seq<Event>)

  /** The messages oldest first (list.reverse). */
  function Reverse<T>(s: seq<T>): (r: seq<T>)
    ensures |r| == |s| && forall i :: 0 <= i < |s| ==> r[i] == s[|s| - 1 - i]
  {
    seq(|s|, i requires 0 <= i < |s| => s[|s| - 1 - i])
  }

  function DetailLogs(details: seq<string>): (r: seq<Event>)
    ensures |r| == |details| && forall i :: 0 <= i < |details| ==> r[i] == Log(Warning, FailureDetail(details[i]))
  {
    seq(|details|, i requires 0 <= i < |details| => Log(Warning, FailureDetail(details[i])))
  }

  /** What follows the loop: the closing summary unless a stop was requested, the
      failure details if any, and the final progress report. */
  function Summary(flags: Flags, t: Tally, total: nat): seq<Event>
  {
    (if flags.stop then [] else [Log(Success, Finished(t.copied, t.failed))]) + ClosingReport(t.details, total)
  }

  /** _copy_message towards `dest`. */
  function CopyTo(dest: int, ep: Endpoint): Msg -> Outcome
  {
    m => Transfer(m, dest, ep)
  }

  /** clone_chat. `counting` and `collecting` are the two passes over the history,
      `turns` the outside world at each check point, `late` the commands delivered
      between the end of the loop and the summary. */
  function Clone(dest: int, counting: Enumeration, collecting: Enumeration, turns: seq<Turn>,
                 late: seq<Command>, ep: Endpoint): Run
  {
    if counting.Failed? then
      Run(Fatal, Idle, NoTally, 0, [Log(Info, Analyzing), Log(Error, Critical(counting.error))])
    else
      var total := |counting.messages|;
      if total == 0 then
        Run(EmptyOrigin, Idle, NoTally, 0, [Log(Info, Analyzing), Log(Info, Found(0)), Log(Warning, OriginEmpty)])
      else if collecting.Failed? then
        Run(Fatal, Idle, NoTally, 0, [Log(Info, Analyzing), Log(Info, Found(total)), Log(Info, Collecting),
                                      Log(Error, Critical(collecting.error))])
      else
        Copying(Job(total, Reverse(collecting.messages), turns), CopyTo(dest, ep), late)
  }

  /** The logs before the loop of a run that collected its messages. */
  function Preamble(total: nat): seq<Event>
  {
    [Log(Info, Analyzing), Log(Info, Found(total)), Log(Info, Collecting), Log(Info, Starting)]
  }

  /** clone_chat from the loop on. */
  function Copying(job: Job, copy: Msg -> Outcome, late: seq<Command>): Run
  {
    Finish(Loop(job, copy, 0, Idle, NoTally, Preamble(job.total)), late, job.total)
  }

  /** The run after the loop: a stop during a pause returns at once; otherwise
      the commands of `late` are delivered and the summary follows. */
  function Finish(pass: Pass, late: seq<Command>, total: nat): Run
  {
    if pass.end == Returned then Run(StoppedInPause, pass.flags, pass.tally, pass.visited, pass.trace)
    else
      var flags := ApplyAll(pass.flags, late);
      Run(Summarised, flags, pass.tally, pass.visited, pass.trace + Summary(flags, pass.tally, total))
  }


  // ---------------------------------------------------------------------------
  // Accounting: what the counters say about the messages visited

  /** How many of the first k messages were copied. */
  function Copies(job: Job, copy: Msg -> Outcome, k: nat): nat
    requires k <= |job.msgs|
  {
    if k == 0 then 0
    else Copies(job, copy, k - 1) + (if OutcomeAt(job, copy, k - 1).Copied? then 1 else 0)
  }

  /** How many progress callbacks raised among the first k messages. */
  function ProgressFaults(job: Job, k: nat): nat
  {
    if k == 0 then 0
    else ProgressFaults(job, k - 1) + (if TurnAt(job.turns, k - 1).fault == ProgressRaised then 1 else 0)
  }

  /** What the failure counter should hold after the first k messages: one per
      message not copied, and one more per progress callback that raised. */
  function Failures(job: Job, copy: Msg -> Outcome, k: nat): nat
    requires k <= |job.msgs|
  {
    if k == 0 then 0
    else
      Failures(job, copy, k - 1)
      + (if OutcomeAt(job, copy, k - 1).NotCopied? then 1 else 0)
      + (if TurnAt(job.turns, k - 1).fault == ProgressRaised then 1 else 0)
  }

  /** The reasons of the first k messages not copied whose diagnostic formatted. */
  function Reasons(job: Job, copy: Msg -> Outcome, k: nat): seq<string>
    requires k <= |job.msgs|
  {
    if k == 0 then []
    else
      var o := OutcomeAt(job, copy, k - 1);
      Reasons(job, copy, k - 1)
      + (if o.NotCopied? && TurnAt(job.turns, k - 1).fault != DiagnosticRaised then [o.reason] else [])
  }

  /** The counters are those of the first k messages. */
  ghost predicate Accounted(job: Job, copy: Msg -> Outcome, k: nat, t: Tally)
    requires k <= |job.msgs|
  {
    && t.copied == Copies(job, copy, k)
    && t.failed == Failures(job, copy, k)
    && t.details == Take(Reasons(job, copy, k), DetailCapacity)
  }

  /** Every message visited is counted once as copied or failed, and once more
      as failed when its progress callback raised. */
  lemma {:induction false} CountsCoverVisited(job: Job, copy: Msg -> Outcome, k: nat)
    requires k <= |job.msgs|
    ensures Copies(job, copy, k) + Failures(job, copy, k) == k + ProgressFaults(job, k)
  {
    if k > 0 {
      CountsCoverVisited(job, copy, k - 1);
    }
  }

  lemma TakeSnoc<T>(s: seq<T>, x: T, n: nat)
    ensures Take(s + [x], n) == if |Take(s, n)| < n then Take(s, n) + [x] else Take(s, n)
  {
    if |s| < n {
      assert Take(s + [x], n) == s + [x];
    } else {
      assert (s + [x])[..n] == s[..n];
    }
  }

  /** One message keeps the counters accounted, and the try block only appends
      to the trace. */
  lemma VisitAccounted(job: Job, copy: Msg -> Outcome, i: nat, t: Tally, trace: seq<Event>)
    requires i < |job.msgs| && Accounted(job, copy, i, t)
    ensures var (t', trace') := Visit(job, copy, i, t, trace);
            Accounted(job, copy, i + 1, t') && trace <= trace'
  {
    var o := OutcomeAt(job, copy, i);
    var fault := TurnAt(job.turns, i).fault;
    if o.NotCopied? && fault != DiagnosticRaised {
      TakeSnoc(Reasons(job, copy, i), o.reason, DetailCapacity);
    }
  }

  /** The loop keeps the counters accounted up to the messages it visits, visits
      them all exactly when it runs out, and leaves a stop request behind when it
      is cut short. */
  lemma {:induction false} LoopAccounted(job: Job, copy: Msg -> Outcome, i: nat, flags: Flags, t: Tally, trace: seq<Event>)
    requires i <= |job.msgs| && Accounted(job, copy, i, t)
    ensures var p := Loop(job, copy, i, flags, t, trace);
      && i <= p.visited <= |job.msgs|
      && Accounted(job, copy, p.visited, p.tally)
      && trace <= p.trace
      && (p.end == Exhausted <==> p.visited == |job.msgs|)
      && (p.end == Broke ==> p.flags.stop)
      && (p.end == Returned ==> p.flags == Flags(true, false))
    decreases |job.msgs| - i
  {
    if i < |job.msgs| {
      var turn := TurnAt(job.turns, i);
      var f := ApplyAll(flags, turn.arrivals);
      if !f.stop && !(f.pause && turn.pauseEnd == StoppedWhilePaused) {
        var g := if f.pause then Apply(f, ResumeCmd) else f;
        var (t', trace') := Visit(job, copy, i, t, trace);
        VisitAccounted(job, copy, i, t, trace);
        LoopAccounted(job, copy, i + 1, g, t', trace');
      }
    }
  }

  // ---------------------------------------------------------------------------
  // Stop and pause

  /** A stop delivered at check point k is honoured there: the loop hands no
      message from index k on to _copy_message. */
  lemma {:induction false} StopIsHonoured(job: Job, copy: Msg -> Outcome, i: nat, flags: Flags, t: Tally,
                                          trace: seq<Event>, k: nat)
    requires i <= k < |job.msgs| && StopCmd in TurnAt(job.turns, k).arrivals
    ensures var p := Loop(job, copy, i, flags, t, trace);
            p.visited <= k && p.end != Exhausted
    decreases k - i
  {
    var turn := TurnAt(job.turns, i);
    var f := ApplyAll(flags, turn.arrivals);
    StopLatches(flags, turn.arrivals);
    if i < k && !f.stop && !(f.pause && turn.pauseEnd == StoppedWhilePaused) {
      var g := if f.pause then Apply(f, ResumeCmd) else f;
      var (t', trace') := Visit(job, copy, i, t, trace);
      StopIsHonoured(job, copy, i + 1, g, t', trace', k);
    }
  }

  /** The job with every command removed. */
  function Quiet(job: Job): (q: Job)
    ensures q.total == job.total && q.msgs == job.msgs && |q.turns| == |job.turns|
    ensures forall j :: 0 <= j < |job.turns| ==> q.turns[j] == job.turns[j].(arrivals := [])
  {
    job.(turns := seq(|job.turns|, j requires 0 <= j < |job.turns| => job.turns[j].(arrivals := [])))
  }

  /** No stop is ever delivered and every pause ends with a resume. */
  ghost predicate NeverStopped(job: Job)
  {
    forall j :: 0 <= j < |job.turns| ==> StopCmd !in job.turns[j].arrivals && job.turns[j].pauseEnd == Resumed
  }

  /** Pausing and resuming only delay the run: without a stop, the loop visits
      every message and leaves the counters and the trace exactly as a run that
      was never paused. */
  lemma {:induction false} PausesAreTransparent(job: Job, copy: Msg -> Outcome, i: nat, flags: Flags, t: Tally,
                                                trace: seq<Event>)
    requires i <= |job.msgs| && !flags.stop && NeverStopped(job)
    ensures var p := Loop(job, copy, i, flags, t, trace);
            var q := Loop(Quiet(job), copy, i, Idle, t, trace);
            p.end == Exhausted && p.visited == |job.msgs| && p.tally == q.tally && p.trace == q.trace
    decreases |job.msgs| - i
  {
    if i < |job.msgs| {
      var turn := TurnAt(job.turns, i);
      var f := ApplyAll(flags, turn.arrivals);
      StopLatches(flags, turn.arrivals);
      assert TurnAt(Quiet(job).turns, i) == turn.(arrivals := []);
      var g := if f.pause then Apply(f, ResumeCmd) else f;
      assert Visit(job, copy, i, t, trace) == Visit(Quiet(job), copy, i, t, trace);
      var (t', trace') := Visit(job, copy, i, t, trace);
      PausesAreTransparent(job, copy, i + 1, g, t', trace');
    }
  }

  // ---------------------------------------------------------------------------
  // Progress reports

  /** The try block reports progress i + 1 unless the diagnostic raised, and logs
      the milestone exactly when nothing raised and the copied count is then a
      positive multiple of ten, whether or not this message was the one copied. */
  lemma MilestoneRule(job: Job, copy: Msg -> Outcome, i: nat, t: Tally, trace: seq<Event>)
    requires i < |job.msgs|
    ensures var o := OutcomeAt(job, copy, i);
            var fault := TurnAt(job.turns, i).fault;
            var (t', trace') := Visit(job, copy, i, t, trace);
      && t'.copied == t.copied + (if o.Copied? then 1 else 0)
      && (o.NotCopied? && fault == DiagnosticRaised <==> trace' == trace)
      && (trace' != trace ==> trace'[|trace|] == Progress(i + 1, job.total))
      && (trace' == trace + [Progress(i + 1, job.total), Log(Info, Milestone(t'.copied, job.total))] <==>
            (fault == NoFault || (fault == DiagnosticRaised && o.Copied?)) && t'.copied > 0 && t'.copied % MilestoneEvery == 0)
  {
  }

  /** None of the logs that follow the loop: no Success-level log, no failure
      header and no failure detail. */
  ghost predicate Unfinished(trace: seq<Event>)
  {
    forall e :: e in trace ==> !(e.Log? && (e.level == Success || e.note.FailureHeader? || e.note.FailureDetail?))
  }

  lemma {:induction false} LoopNeverFinishes(job: Job, copy: Msg -> Outcome, i: nat, flags: Flags, t: Tally,
                                             trace: seq<Event>)
    requires i <= |job.msgs| && Unfinished(trace)
    ensures Unfinished(Loop(job, copy, i, flags, t, trace).trace)
    decreases |job.msgs| - i
  {
    if i < |job.msgs| {
      var turn := TurnAt(job.turns, i);
      var f := ApplyAll(flags, turn.arrivals);
      if !f.stop && !(f.pause && turn.pauseEnd == StoppedWhilePaused) {
        var g := if f.pause then Apply(f, ResumeCmd) else f;
        var (t', trace') := Visit(job, copy, i, t, trace);
        LoopNeverFinishes(job, copy, i + 1, g, t', trace');
      }
    }
  }

  /** A loop cut short ends on its cancellation warning: after a break the one
      carrying the copied count, after a stop during a pause the pause warning. */
  lemma {:induction false} LoopEndLogs(job: Job, copy: Msg -> Outcome, i: nat, flags: Flags, t: Tally,
                                       trace: seq<Event>)
    requires i <= |job.msgs|
    ensures var p := Loop(job, copy, i, flags, t, trace);
      && (p.end == Broke ==> |p.trace| > 0 && p.trace[|p.trace| - 1] == Log(Warning, CancelledAt(p.tally.copied)))
      && (p.end == Returned ==> |p.trace| > 0 && p.trace[|p.trace| - 1] == Log(Warning, CancelledWhilePaused))
    decreases |job.msgs| - i
  {
    if i < |job.msgs| {
      var turn := TurnAt(job.turns, i);
      var f := ApplyAll(flags, turn.arrivals);
      if !f.stop && !(f.pause && turn.pauseEnd == StoppedWhilePaused) {
        var g := if f.pause then Apply(f, ResumeCmd) else f;
        var (t', trace') := Visit(job, copy, i, t, trace);
        LoopEndLogs(job, copy, i + 1, g, t', trace');
      }
    }
  }

  // ---------------------------------------------------------------------------
  // The run as a whole

  /** The loop and the summary: the counters are those of the messages visited,
      at most fifteen failure reasons are kept, a run that did not visit every
      message was stopped, and a stop during a pause leaves only the stop request. */
  lemma CopyingAccounting(job: Job, copy: Msg -> Outcome, late: seq<Command>)
    ensures var run := Copying(job, copy, late);
      && run.exit in {StoppedInPause, Summarised}
      && run.visited <= |job.msgs|
      && Accounted(job, copy, run.visited, run.tally)
      && |run.tally.details| <= DetailCapacity
      && (run.visited < |job.msgs| ==> run.flags.stop)
      && (run.exit == StoppedInPause ==> run.flags == Flags(true, false))
  {
    var pass := Loop(job, copy, 0, Idle, NoTally, Preamble(job.total));
    LoopAccounted(job, copy, 0, Idle, NoTally, Preamble(job.total));
    StopLatches(pass.flags, late);
  }

  /** A stop during a pause returns at once: the run ends on the pause warning,
      with no summary, no failure report and no final progress call anywhere in it,
      and some message is left unvisited. */
  lemma PausedStopRun(job: Job, copy: Msg -> Outcome, late: seq<Command>)
    requires Copying(job, copy, late).exit == StoppedInPause
    ensures var run := Copying(job, copy, late);
      && |run.trace| > 0 && run.trace[|run.trace| - 1] == Log(Warning, CancelledWhilePaused)
      && Unfinished(run.trace)
      && run.visited < |job.msgs|
  {
    var pre := Preamble(job.total);
    LoopAccounted(job, copy, 0, Idle, NoTally, pre);
    LoopEndLogs(job, copy, 0, Idle, NoTally, pre);
    LoopNeverFinishes(job, copy, 0, Idle, NoTally, pre);
  }

  /** The logs after the loop, once the summary line (if any) is written: the
      failure header and each kept reason in order when reasons were kept, then
      the final progress report of the counted total. */
  function ClosingReport(d: seq<string>, total: nat): seq<Event>
  {
    (if d == [] then [] else [Log(Warning, FailureHeader(|d|))] + DetailLogs(d)) + [Progress(total, total)]
  }

  lemma DetailLogsAreDetails(d: seq<string>)
    ensures forall e :: e in DetailLogs(d) ==> e.Log? && e.level == Warning && e.note.FailureDetail?
  {
    forall e | e in DetailLogs(d)
      ensures e.Log? && e.level == Warning && e.note.FailureDetail?
    {
      var k :| 0 <= k < |DetailLogs(d)| && DetailLogs(d)[k] == e;
    }
  }

  /** The closing report holds no Success-level log, and its only failure header
      is the one announcing the kept reasons. */
  lemma ClosingReportLogs(d: seq<string>, total: nat)
    ensures forall e :: e in ClosingReport(d, total) ==> !(e.Log? && e.level == Success)
    ensures forall e :: e in ClosingReport(d, total) && e.Log? && e.note.FailureHeader? ==>
              d != [] && e == Log(Warning, FailureHeader(|d|))
  {
    DetailLogsAreDetails(d);
    if d != [] {
      assert ClosingReport(d, total) == [Log(Warning, FailureHeader(|d|))] + DetailLogs(d) + [Progress(total, total)];
    } else {
      assert ClosingReport(d, total) == [Progress(total, total)];
    }
  }

  /** The logs after a loop trace `before` that holds none of them: the closing
      report is the suffix, the closing summary appears exactly when no stop was
      requested, and the failure header only in the closing report. */
  lemma ClosingLogs(before: seq<Event>, flags: Flags, t: Tally, total: nat)
    requires Unfinished(before)
    ensures var trace := before + Summary(flags, t, total);
            var tail := ClosingReport(t.details, total);
      && |trace| >= |tail| && trace[|trace| - |tail|..] == tail
      && (Log(Success, Finished(t.copied, t.failed)) in trace <==> !flags.stop)
      && (forall e :: e in trace && e.Log? && e.note.FailureHeader? ==>
            t.details != [] && e == Log(Warning, FailureHeader(|t.details|)))
  {
    var tail := ClosingReport(t.details, total);
    var finished := Log(Success, Finished(t.copied, t.failed));
    var head: seq<Event> := if flags.stop then [] else [finished];
    var trace := before + Summary(flags, t, total);
    ClosingReportLogs(t.details, total);
    assert trace == (before + head) + tail;
    assert forall e :: e in trace ==> e in before || e in head || e in tail;
    if !flags.stop {
      assert finished == trace[|before|];
    }
  }

  /** A run that reaches the summary ends with the failure header and each kept
      reason, in order, when reasons were kept, then the progress report of the
      counted total. The failure header appears nowhere else, and the closing
      summary is logged exactly when no stop was requested. */
  lemma CopyingSummary(job: Job, copy: Msg -> Outcome, late: seq<Command>)
    requires Copying(job, copy, late).exit == Summarised
    ensures var run := Copying(job, copy, late);
            var tail := ClosingReport(run.tally.details, job.total);
      && |run.trace| >= |tail| && run.trace[|run.trace| - |tail|..] == tail
      && (Log(Success, Finished(run.tally.copied, run.tally.failed)) in run.trace <==> !run.flags.stop)
      && (forall e :: e in run.trace && e.Log? && e.note.FailureHeader? ==>
            run.tally.details != [] && e == Log(Warning, FailureHeader(|run.tally.details|)))
  {
    var run := Copying(job, copy, late);
    var pre := Preamble(job.total);
    var pass := Loop(job, copy, 0, Idle, NoTally, pre);
    LoopNeverFinishes(job, copy, 0, Idle, NoTally, pre);
    ClosingLogs(pass.trace, run.flags, pass.tally, job.total);
  }

  /** A run cut short by a stop between messages logs the cancellation warning
      with the copied count, and then only the failure report and the final
      progress report: no closing summary. */
  lemma StoppedRun(job: Job, copy: Msg -> Outcome, late: seq<Command>)
    requires Copying(job, copy, late).exit == Summarised && Copying(job, copy, late).visited < |job.msgs|
    ensures var run := Copying(job, copy, late);
            var tail := ClosingReport(run.tally.details, job.total);
      && run.flags.stop
      && |run.trace| > |tail|
      && run.trace[|run.trace| - |tail| - 1] == Log(Warning, CancelledAt(run.tally.copied))
      && run.trace[|run.trace| - |tail|..] == tail
  {
    var pre := Preamble(job.total);
    var pass := Loop(job, copy, 0, Idle, NoTally, pre);
    LoopAccounted(job, copy, 0, Idle, NoTally, pre);
    LoopEndLogs(job, copy, 0, Idle, NoTally, pre);
    StopLatches(pass.flags, late);
    var run := Copying(job, copy, late);
    assert run.trace == pass.trace + ClosingReport(pass.tally.details, job.total);
  }

  /** Where a run leaves: a failed enumeration ends in the fatal-error handler, an
      empty origin before any message is touched, and both without progress
      reports and with the request flags as reset. */
  lemma CloneExits(dest: int, counting: Enumeration, collecting: Enumeration, turns: seq<Turn>,
                   late: seq<Command>, ep: Endpoint)
    ensures var run := Clone(dest, counting, collecting, turns, late, ep);
      && (run.exit == Fatal <==> counting.Failed? || (|counting.messages| > 0 && collecting.Failed?))
      && (run.exit == EmptyOrigin <==> counting == Listed([]))
      && (run.exit in {Fatal, EmptyOrigin} ==>
            run.tally == NoTally && run.visited == 0 && run.flags == Idle
            && forall e :: e in run.trace ==> e.Log?)
      && (run.exit == Fatal ==> run.trace[|run.trace| - 1].level == Error)
      && (run.exit == EmptyOrigin ==> run.trace[|run.trace| - 1] == Log(Warning, OriginEmpty))
  {
    if counting.Listed? && |counting.messages| > 0 && collecting.Listed? {
      CopyingAccounting(Job(|counting.messages|, Reverse(collecting.messages), turns), CopyTo(dest, ep), late);
    }
  }

  /** The loop takes the collected messages oldest first: the message at index j
      is the j-th from the end of the history as enumerated. */
  lemma OldestFirst(dest: int, collected: seq<Msg>, total: nat, turns: seq<Turn>, ep: Endpoint)
    ensures var job := Job(total, Reverse(collected), turns);
            forall j :: 0 <= j < |collected| ==>
              OutcomeAt(job, CopyTo(dest, ep), j) == Transfer(collected[|collected| - 1 - j], dest, ep)
  {
  }

  // ---------------------------------------------------------------------------
  // A run where nothing goes wrong

  /** The number of progress-callback calls in a trace. */
  function Reports(trace: seq<Event>): nat
  {
    if trace == [] then 0 else Reports(trace[..|trace| - 1]) + (if trace[|trace| - 1].Progress? then 1 else 0)
  }

  /** The number of milestone logs in a trace. */
  function Milestones(trace: seq<Event>): nat
  {
    if trace == [] then 0
    else
      var e := trace[|trace| - 1];
      Milestones(trace[..|trace| - 1]) + (if e.Log? && e.note.Milestone? then 1 else 0)
  }

  lemma {:induction false} CountsAppend(a: seq<Event>, b: seq<Event>)
    ensures Reports(a + b) == Reports(a) + Reports(b)
    ensures Milestones(a + b) == Milestones(a) + Milestones(b)
    decreases |b|
  {
    if b == [] {
      assert a + b == a;
    } else {
      var b' := b[..|b| - 1];
      assert (a + b)[..|a + b| - 1] == a + b';
      assert (a + b)[|a + b| - 1] == b[|b| - 1];
      CountsAppend(a, b');
    }
  }

  /** A trace of logs other than milestones counts neither. */
  lemma {:induction false} PlainLogs(trace: seq<Event>)
    requires forall e :: e in trace ==> e.Log? && !e.note.Milestone?
    ensures Reports(trace) == 0 && Milestones(trace) == 0
    decreases |trace|
  {
    if trace != [] {
      assert trace[|trace| - 1] in trace;
      PlainLogs(trace[..|trace| - 1]);
    }
  }

  /** Every message is copied, no callback raises, no stop is ever delivered and
      every pause ends with a resume. */
  ghost predicate Smooth(job: Job, copy: Msg -> Outcome)
  {
    && NeverStopped(job)
    && (forall j :: 0 <= j < |job.msgs| ==> OutcomeAt(job, copy, j).Copied?)
    && (forall j :: 0 <= j < |job.msgs| ==> TurnAt(job.turns, j).fault == NoFault)
  }

  /** What the try block adds to the trace when message i is copied without a
      fault: its progress report, then the milestone at a multiple of ten. */
  function CopiedStep(total: nat, i: nat): seq<Event>
  {
    if (i + 1) % MilestoneEvery == 0 then [Progress(i + 1, total), Log(Info, Milestone(i + 1, total))]
    else [Progress(i + 1, total)]
  }

  /** What a smooth loop adds to the trace for messages i up to n. */
  function SmoothTrace(total: nat, i: nat, n: nat): seq<Event>
    decreases n - i
  {
    if i >= n then [] else CopiedStep(total, i) + SmoothTrace(total, i + 1, n)
  }

  /** In a smooth run, visiting message i copies it and adds its step. */
  lemma SmoothVisit(job: Job, copy: Msg -> Outcome, i: nat, t: Tally, trace: seq<Event>)
    requires i < |job.msgs| && Smooth(job, copy) && t.copied == i
    ensures Visit(job, copy, i, t, trace) == (t.(copied := i + 1), trace + CopiedStep(job.total, i))
  {
    assert OutcomeAt(job, copy, i).Copied? && TurnAt(job.turns, i).fault == NoFault;
    var t' := Record(t, Copied);
    assert t' == t.(copied := i + 1);
    var trace' := trace + [Progress(i + 1, job.total)];
    if (i + 1) % MilestoneEvery == 0 {
      assert Visit(job, copy, i, t, trace) == (t', trace' + [Log(Info, Milestone(i + 1, job.total))]);
      assert trace' + [Log(Info, Milestone(i + 1, job.total))] == trace + CopiedStep(job.total, i);
    } else {
      assert Visit(job, copy, i, t, trace) == (t', trace');
    }
  }

  /** Without a stop the loop visits message i and goes on with the next. */
  lemma UnstoppedStep(job: Job, copy: Msg -> Outcome, i: nat, flags: Flags, t: Tally, trace: seq<Event>)
    requires i < |job.msgs| && !flags.stop && NeverStopped(job)
    ensures var f := ApplyAll(flags, TurnAt(job.turns, i).arrivals);
            var g := if f.pause then Apply(f, ResumeCmd) else f;
            var (t', trace') := Visit(job, copy, i, t, trace);
            !g.stop && Loop(job, copy, i, flags, t, trace) == Loop(job, copy, i + 1, g, t', trace')
  {
    StopLatches(flags, TurnAt(job.turns, i).arrivals);
  }

  /** One iteration of a smooth run: the loop goes on with message i copied and
      its step added to the trace. */
  lemma SmoothStep(job: Job, copy: Msg -> Outcome, i: nat, flags: Flags, t: Tally, trace: seq<Event>)
    returns (g: Flags)
    requires i < |job.msgs| && Smooth(job, copy) && !flags.stop && t.copied == i
    ensures !g.stop
    ensures Loop(job, copy, i, flags, t, trace)
         == Loop(job, copy, i + 1, g, t.(copied := i + 1), trace + CopiedStep(job.total, i))
  {
    var f := ApplyAll(flags, TurnAt(job.turns, i).arrivals);
    g := if f.pause then Apply(f, ResumeCmd) else f;
    UnstoppedStep(job, copy, i, flags, t, trace);
    SmoothVisit(job, copy, i, t, trace);
  }

  lemma SmoothTraceUnroll(trace: seq<Event>, total: nat, i: nat, n: nat)
    requires i < n
    ensures trace + CopiedStep(total, i) + SmoothTrace(total, i + 1, n) == trace + SmoothTrace(total, i, n)
  {
  }

  /** In a smooth run the loop from message i copies every remaining message,
      ends without a stop and adds exactly their steps to the trace. */
  lemma {:induction false} SmoothLoop(job: Job, copy: Msg -> Outcome, i: nat, flags: Flags, t: Tally, trace: seq<Event>)
    requires i <= |job.msgs| && Smooth(job, copy) && !flags.stop && t.copied == i
    ensures var p := Loop(job, copy, i, flags, t, trace);
      && p.end == Exhausted && p.visited == |job.msgs| && !p.flags.stop && p.tally == t.(copied := |job.msgs|)
      && p.trace == trace + SmoothTrace(job.total, i, |job.msgs|)
    decreases |job.msgs| - i
  {
    if i < |job.msgs| {
      var g := SmoothStep(job, copy, i, flags, t, trace);
      SmoothLoop(job, copy, i + 1, g, t.(copied := i + 1), trace + CopiedStep(job.total, i));
      SmoothTraceUnroll(trace, job.total, i, |job.msgs|);
    }
  }

  /** One more message copied adds one to the milestone count exactly when the
      copied count reaches a multiple of ten. */
  lemma StepCounts(total: nat, i: nat)
    ensures Reports(CopiedStep(total, i)) == 1
    ensures Milestones(CopiedStep(total, i)) + i / MilestoneEvery == (i + 1) / MilestoneEvery
  {
    var step := CopiedStep(total, i);
    var first := [Progress(i + 1, total)];
    assert first[..0] == [];
    assert Reports(first) == 1 && Milestones(first) == 0;
    if |step| == 2 {
      assert step[..1] == first;
    }
  }

  /** A smooth loop reports progress once per message and logs one milestone per
      multiple of ten it passes. */
  lemma {:induction false} SmoothTraceCounts(total: nat, i: nat, n: nat)
    requires i <= n
    ensures Reports(SmoothTrace(total, i, n)) + i == n
    ensures Milestones(SmoothTrace(total, i, n)) + i / MilestoneEvery == n / MilestoneEvery
    decreases n - i
  {
    if i < n {
      SmoothTraceCounts(total, i + 1, n);
      StepCounts(total, i);
      CountsAppend(CopiedStep(total, i), SmoothTrace(total, i + 1, n));
    }
  }

  lemma SmoothSummary(flags: Flags, n: nat, total: nat)
    requires !flags.stop
    ensures Summary(flags, Tally(n, 0, []), total) == [Log(Success, Finished(n, 0)), Progress(total, total)]
  {
  }

  /** When nothing goes wrong every message is copied, no failure is counted,
      the trace is the preamble, each message's progress report (with the
      milestone after every tenth copy), the closing summary and the final
      progress report: progress is reported once per message and once more at
      the end, and the milestone is logged once per ten messages copied. */
  lemma SmoothRun(job: Job, copy: Msg -> Outcome, late: seq<Command>)
    requires Smooth(job, copy) && StopCmd !in late
    ensures var run := Copying(job, copy, late);
      && var n := |job.msgs|;
      && run.exit == Summarised && run.visited == n && run.tally == Tally(n, 0, [])
      && run.trace == Preamble(job.total) + SmoothTrace(job.total, 0, n)
                      + [Log(Success, Finished(n, 0)), Progress(job.total, job.total)]
      && Reports(run.trace) == n + 1
      && Milestones(run.trace) == n / MilestoneEvery
  {
    var n := |job.msgs|;
    var pre := Preamble(job.total);
    var pass := Loop(job, copy, 0, Idle, NoTally, pre);
    SmoothLoop(job, copy, 0, Idle, NoTally, pre);
    StopLatches(pass.flags, late);
    SmoothSummary(ApplyAll(pass.flags, late), n, job.total);
    SmoothCounts(job.total, n);
  }

  /** The counts of a smooth run's trace: n + 1 progress reports, n / 10 milestones. */
  lemma SmoothCounts(total: nat, n: nat)
    ensures var trace := Preamble(total) + SmoothTrace(total, 0, n) + [Log(Success, Finished(n, 0)), Progress(total, total)];
      && Reports(trace) == n + 1
      && Milestones(trace) == n / MilestoneEvery
  {
    var pre := Preamble(total);
    var body := SmoothTrace(total, 0, n);
    var summary := [Log(Success, Finished(n, 0)), Progress(total, total)];
    SmoothTraceCounts(total, 0, n);
    PlainLogs(pre);
    PlainLogs(summary[..1]);
    assert Reports(summary) == 1 && Milestones(summary) == 0;
    CountsAppend(pre, body);
    CountsAppend(pre + body, summary);
  }

}
