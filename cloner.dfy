/** The Cloner object: its request flags, the control calls the user interface
    makes on it, and clone_chat, proved to behave as `Cloning.Clone` says. */
module Orchestrator {
  import opened Messages
  import opened Strategies
  import opened Cloning

  class Cloner {
    var stopRequested: bool
    var pauseRequested: bool
    var isRunning: bool

    function Pending(): Flags
      reads this
    {
      Flags(stopRequested, pauseRequested)
    }

    constructor ()
      ensures Pending() == Idle && !isRunning
    {
      stopRequested := false;
      pauseRequested := false;
      isRunning := false;
    }

    method Stop()
      modifies this
      ensures Pending() == Apply(old(Pending()), StopCmd) && isRunning == old(isRunning)
    {
      stopRequested := true;
      pauseRequested := false;
    }

    method Pause()
      modifies this
      ensures Pending() == Apply(old(Pending()), PauseCmd) && isRunning == old(isRunning)
    {
      pauseRequested := true;
    }

    method Resume()
      modifies this
      ensures Pending() == Apply(old(Pending()), ResumeCmd) && isRunning == old(isRunning)
    {
      pauseRequested := false;
    }

    /** The control calls the user interface makes while clone_chat waits at an
        await, in the order they are made. */
    method Deliver(cs: seq<Command>)
      modifies this
      ensures Pending() == ApplyAll(old(Pending()), cs) && isRunning == old(isRunning)
    {
      for k := 0 to |cs|
        invariant Pending() == ApplyAll(old(Pending()), cs[..k]) && isRunning == old(isRunning)
      {
        ApplyAllSnoc(old(Pending()), cs[..k], cs[k]);
        assert cs[..k + 1] == cs[..k] + [cs[k]];
        match cs[k]
        case StopCmd => Stop();
        case PauseCmd => Pause();
        case ResumeCmd => Resume();
      }
      assert cs[..|cs|] == cs;
    }

    /** clone_chat: resets the requests, counts and collects the history, copies
        the messages oldest first while honouring stop and pause, and reports. The
        run returned is the sequence of callback calls and the final counters. */
    method CloneChat(dest: int, counting: Enumeration, collecting: Enumeration, turns: seq<Turn>,
                     late: seq<Command>, ep: Endpoint) returns (run: Run)
      modifies this
      ensures run == Clone(dest, counting, collecting, turns, late, ep)
      ensures Pending() == run.flags && !isRunning
    {
      stopRequested := false;
      pauseRequested := false;
      isRunning := true;
      var trace := [Log(Info, Analyzing)];
      if counting.Failed? {
        trace := trace + [Log(Error, Critical(counting.error))];
        isRunning := false;
        return Run(Fatal, Pending(), NoTally, 0, trace);
      }

      var total := 0;
      for k := 0 to |counting.messages|
        invariant total == k
      {
        total := total + 1;
      }
      trace := trace + [Log(Info, Found(total))];
      if total == 0 {
        trace := trace + [Log(Warning, OriginEmpty)];
        isRunning := false;
        return Run(EmptyOrigin, Pending(), NoTally, 0, trace);
      }

      trace := trace + [Log(Info, Collecting)];
      if collecting.Failed? {
        trace := trace + [Log(Error, Critical(collecting.error))];
        isRunning := false;
        return Run(Fatal, Pending(), NoTally, 0, trace);
      }
      var messages: seq<Msg> := [];
      for k := 0 to |collecting.messages|
        invariant messages == collecting.messages[..k]
      {
        messages := messages + [collecting.messages[k]];
      }
      assert messages == collecting.messages;
      messages := Reverse(messages);
      trace := trace + [Log(Info, Starting)];

      assert trace == Preamble(total);
      run := CopyAndReport(Job(total, messages, turns), dest, ep, late, trace);
    }

    /** clone_chat from the loop on: the loop, then the summary, the failure
        details and the final progress report. */
    method CopyAndReport(job: Job, dest: int, ep: Endpoint, late: seq<Command>, trace0: seq<Event>)
      returns (run: Run)
      requires isRunning && Pending() == Idle && trace0 == Preamble(job.total)
      modifies this
      ensures run == Copying(job, CopyTo(dest, ep), late)
      ensures Pending() == run.flags && !isRunning
    {
      var pass := CopyAll(job, dest, ep, trace0);
      run := Report(pass, late, job.total);
    }

    /** What follows the loop: return at once after a stop during a pause;
        otherwise the summary unless a stop was requested, the failure details
        and the final progress report. */
    method Report(pass: Pass, late: seq<Command>, total: nat) returns (run: Run)
      requires Pending() == pass.flags && isRunning == (pass.end != Returned)
      modifies this
      ensures run == Finish(pass, late, total)
      ensures Pending() == run.flags && !isRunning
    {
      if pass.end == Returned {
        return Run(StoppedInPause, Pending(), pass.tally, pass.visited, pass.trace);
      }
      var copied, failed, details := pass.tally.copied, pass.tally.failed, pass.tally.details;
      var trace := pass.trace;

      // the calls made while the loop's last await was pending
      Deliver(late);
      if !stopRequested {
        trace := trace + [Log(Success, Finished(copied, failed))];
      }
      if details != [] {
        trace := trace + [Log(Warning, FailureHeader(|details|))];
        ghost var heading := trace;
        for k := 0 to |details|
          invariant trace == heading + DetailLogs(details[..k])
        {
          trace := trace + [Log(Warning, FailureDetail(details[k]))];
        }
        assert details[..|details|] == details;
      }
      trace := trace + [Progress(total, total)];
      assert trace == pass.trace + Summary(Pending(), pass.tally, total);
      isRunning := false;
      run := Run(Summarised, Pending(), pass.tally, pass.visited, trace);
    }

    /** The for loop of clone_chat over `job.msgs`, which hold the messages oldest
        first: the stop check, the pause wait and the try block for each. */
    method CopyAll(job: Job, dest: int, ep: Endpoint, trace0: seq<Event>) returns (pass: Pass)
      requires isRunning
      modifies this
      ensures pass == Loop(job, CopyTo(dest, ep), 0, old(Pending()), NoTally, trace0)
      ensures Pending() == pass.flags && isRunning == (pass.end != Returned)
    {
      ghost var copy := CopyTo(dest, ep);
      ghost var result := Loop(job, copy, 0, Pending(), NoTally, trace0);
      var messages := job.msgs;
      var trace := trace0;
      var tally := NoTally;
      var i := 0;
      var end := Exhausted;
      while i < |messages|
        invariant i <= |messages| && end == Exhausted && isRunning
        invariant Loop(job, copy, i, Pending(), tally, trace) == result
      {
        var turn := TurnAt(job.turns, i);
        // the calls made while the previous iteration awaited
        Deliver(turn.arrivals);
        if stopRequested {
          trace := trace + [Log(Warning, CancelledAt(tally.copied))];
          end := Broke;
          break;
        }
        var stopped := AwaitResume(turn.pauseEnd);
        if stopped {
          trace := trace + [Log(Warning, CancelledWhilePaused)];
          isRunning := false;
          return Pass(Pending(), tally, i, trace, Returned);
        }
        var outcome, _ := CopyMessage(messages[i], dest, ep);
        tally, trace := VisitMessage(job, i, outcome, tally, trace, copy);
        i := i + 1;
      }
      return Pass(Pending(), tally, i, trace, end);
    }

    /** The pause wait of one iteration: sleeps while a pause is requested, and
        reports whether the calls made during a sleep requested a stop. */
    method AwaitResume(pauseEnd: PauseEnd) returns (stopped: bool)
      requires !stopRequested
      modifies this
      ensures var arrived := old(Pending());
        && stopped == (arrived.pause && pauseEnd == StoppedWhilePaused)
        && Pending() == (if stopped then Apply(arrived, StopCmd)
                         else if arrived.pause then Apply(arrived, ResumeCmd) else arrived)
      ensures isRunning == old(isRunning)
    {
      ghost var arrived := Pending();
      while pauseRequested
        invariant !stopRequested && isRunning == old(isRunning)
        invariant pauseRequested ==> Pending() == arrived
        invariant !pauseRequested ==> Pending() == (if arrived.pause then Apply(arrived, ResumeCmd) else arrived)
        invariant arrived.pause && !pauseRequested ==> pauseEnd == Resumed
        decreases if pauseRequested then 1 else 0
      {
        // the calls made during the half-second sleep
        if pauseEnd == StoppedWhilePaused {
          Stop();
        } else {
          Resume();
        }
        if stopRequested {
          return true;
        }
      }
      return false;
    }

    /** The try block for message i once _copy_message has returned `outcome`,
        with its except branch. */
    method VisitMessage(job: Job, i: nat, outcome: Outcome, tally: Tally, trace: seq<Event>, ghost copy: Msg -> Outcome)
      returns (tally': Tally, trace': seq<Event>)
      requires i < |job.msgs| && outcome == OutcomeAt(job, copy, i)
      ensures (tally', trace') == Visit(job, copy, i, tally, trace)
    {
      var fault := TurnAt(job.turns, i).fault;
      tally', trace' := tally, trace;
      if outcome.NotCopied? && fault == DiagnosticRaised {
        // the diagnostic raised inside _copy_message
        tally' := tally'.(failed := tally'.failed + 1);
        return;
      }
      if outcome.Copied? {
        tally' := tally'.(copied := tally'.copied + 1);
      } else {
        tally' := tally'.(failed := tally'.failed + 1);
        if |tally'.details| < DetailCapacity {
          tally' := tally'.(details := tally'.details + [outcome.reason]);
        }
      }
      trace' := trace' + [Progress(i + 1, job.total)];
      if fault == ProgressRaised {
        // the progress callback raised
        tally' := tally'.(failed := tally'.failed + 1);
      } else if tally'.copied > 0 && tally'.copied % MilestoneEvery == 0 {
        trace' := trace' + [Log(Info, Milestone(tally'.copied, job.total))];
      }
    }
  }
}
