/**
  The engine guardian after `fork`: a supervisor that waits for its child, watches the
  owner's lifeline and the exec-status pipe, and on shutdown asks the child to stop,
  forces it after a grace period, and reaps it.

  Signals, pipes, clock and child are a script: one `Turn` per turn of the event loop,
  one `Beat` per turn of the shutdown loop. Only the guardian can reap its child, so until
  it does, the child's process identifier cannot belong to anyone else.
 */
module Guardian {
  import opened Basics

  const GUARDIAN_FAILURE := 70
  const EXEC_FAILURE := 127
  const SIGTERM := 15
  const MIN_GRACE_MS := 100
  const MAX_GRACE_MS := 10000

  /** No signal, or one of the three the guardian handles: hangup, interrupt, terminate. */
  type StopSignal = n: nat | n == 0 || n == 1 || n == 2 || n == 15

  datatype Status = ExitedWith(code: nat) | SignalledBy(signal: nat)

  function ChildExitCode(st: Status): int {
    match st
    case ExitedWith(code) => code
    case SignalledBy(signal) => if 128 + signal <= 255 then 128 + signal else GUARDIAN_FAILURE
  }

  datatype WaitResult = Reaped(status: Status) | NotYet | WaitFailed

  datatype ReadResult = GotBytes | EndOfFile | TryAgain | ReadFailed

  datatype PollResult = PollFailed | Quiet | Ready

  /** Everything one turn of the event loop can observe. */
  datatype Turn = Turn(
    stop: StopSignal, wait: WaitResult, poll: PollResult,
    execReady: bool, execInvalid: bool, exec: ReadResult,
    lifeReady: bool, lifeInvalid: bool, lifeError: bool, life: ReadResult,
    lateReady: bool, lateExec: ReadResult)

  /** One turn of the shutdown loop; a negative clock reading is a failed one. */
  datatype Beat = Beat(wait: WaitResult, now: int, pollFailed: bool)

  /** Why the child was killed rather than asked again. */
  datatype Cause = DeadlinePassed(now: int, deadline: int) | ClockFailed | SleepFailed

  datatype Action = Term | Kill(cause: Cause) | Reap(status: Status)

  /** Nothing is sent to a reaped child, it is reaped at most once, and killed only after being asked. */
  ghost predicate Safe(log: seq<Action>) {
    && (forall i :: 0 <= i < |log| - 1 ==> !log[i].Reap?)
    && (forall j :: 0 <= j < |log| && log[j].Kill? ==> j > 0 && log[0] == Term)
    && (forall j :: 0 <= j < |log| && log[j].Kill? && log[j].cause.DeadlinePassed? ==> log[j].cause.now >= log[j].cause.deadline)
  }

  ghost predicate WasReaped(log: seq<Action>) {
    log != [] && log[|log| - 1].Reap?
  }

  /** The one child, and what the guardian has done to it. */
  class Child {
    ghost var log: seq<Action>
    var reaped: bool

    ghost predicate Valid()
      reads this
    {
      Safe(log) && reaped == WasReaped(log)
    }

    constructor ()
      ensures Valid() && log == [] && !reaped
    {
      log := [];
      reaped := false;
    }

    /** Signalling a child that has been reaped does not verify. */
    method SendTerm()
      requires Valid() && !reaped && log == []
      modifies this
      ensures Valid() && !reaped && log == [Term]
    {
      log := log + [Term];
    }

    method SendKill(cause: Cause)
      requires Valid() && !reaped && log == [Term]
      requires cause.DeadlinePassed? ==> cause.now >= cause.deadline
      modifies this
      ensures Valid() && !reaped && log == [Term, Kill(cause)]
    {
      log := log + [Kill(cause)];
    }

    method Wait(seen: WaitResult) returns (r: WaitResult)
      requires Valid() && !reaped
      modifies this
      ensures Valid() && r == seen && reaped == r.Reaped?
      ensures log == if r.Reaped? then old(log) + [Reap(r.status)] else old(log)
    {
      r := seen;
      if r.Reaped? {
        log := log + [Reap(r.status)];
        reaped := true;
      }
    }
  }

  /** At this look the clock works, the grace period is not over, and the sleep that follows succeeds. */
  ghost predicate TimeLeft(beat: Beat, started: int, graceMs: nat) {
    started >= 0 && 0 <= beat.now < started + graceMs && !beat.pollFailed
  }

  /** Why the child may be killed at this look: the whole grace period has passed, or the clock or the sleep failed. */
  ghost predicate Justified(cause: Cause, beat: Beat, started: int, graceMs: nat) {
    match cause
    case DeadlinePassed(now, deadline) =>
      started >= 0 && now == beat.now && deadline == started + graceMs && now >= started + graceMs
    case ClockFailed => started < 0 || beat.now < 0
    case SleepFailed => started >= 0 && 0 <= beat.now < started + graceMs && beat.pollFailed
  }

  /** However often it has been read, the clock moves on or fails; sleeps may be cut short meanwhile. */
  ghost predicate Ticks(beats: nat -> Beat) {
    forall i: nat :: MovesOn(beats, i)
  }

  ghost predicate MovesOn(beats: nat -> Beat, i: nat) {
    exists j: nat :: i < j && (beats(j).now < 0 || beats(i).now < beats(j).now)
  }

  /** The clock moves on at every reading, or fails. */
  ghost predicate Advances(beats: nat -> Beat) {
    forall i: nat :: beats(i + 1).now < 0 || beats(i).now < beats(i + 1).now
  }

  lemma AdvancingClockTicks(beats: nat -> Beat)
    requires Advances(beats)
    ensures Ticks(beats)
  {
    forall i: nat
      ensures MovesOn(beats, i)
    {
      assert beats(i + 1).now < 0 || beats(i).now < beats(i + 1).now;
    }
  }

  lemma {:induction false} ClockReaches(beats: nat -> Beat, k: nat) returns (n: nat)
    requires Ticks(beats)
    ensures beats(n).now < 0 || beats(n).now >= beats(0).now + k
  {
    if k == 0 {
      n := 0;
    } else {
      var m := ClockReaches(beats, k - 1);
      assert MovesOn(beats, m);
      n :| m < n && (beats(n).now < 0 || beats(m).now < beats(n).now);
      if beats(m).now < 0 {
        n := m;
      }
    }
  }

  /** A clock that ticks brings every shutdown to an end. */
  lemma ClockRunsOut(beats: nat -> Beat, started: int, graceMs: nat) returns (n: nat)
    requires Ticks(beats)
    ensures !TimeLeft(beats(n), started, graceMs)
  {
    if !TimeLeft(beats(0), started, graceMs) {
      n := 0;
    } else {
      n := ClockReaches(beats, started + graceMs - beats(0).now);
    }
  }

  lemma {:induction false} ClockCounts(beats: nat -> Beat, n: nat)
    requires Advances(beats) && forall i :: 0 <= i <= n ==> beats(i).now >= 0
    ensures beats(n).now >= beats(0).now + n
  {
    if n > 0 {
      ClockCounts(beats, n - 1);
      assert beats(n - 1 + 1).now < 0 || beats(n - 1).now < beats(n - 1 + 1).now;
    }
  }

  /** At every look that finds time left, the time left is a number of looks still possible. */
  lemma WaitsAreBounded(beats: nat -> Beat, started: int, graceMs: nat, waits: nat)
    requires forall i :: 0 <= i < waits ==> TimeLeft(beats(i), started, graceMs)
    ensures Advances(beats) && started <= beats(0).now ==> waits <= graceMs
  {
    if waits > 0 && Advances(beats) {
      ClockCounts(beats, waits - 1);
      assert TimeLeft(beats(waits - 1), started, graceMs);
    }
  }

  /** What shutdown did to a child not signalled before: asked it, perhaps killed it, perhaps reaped it. */
  ghost predicate ShutdownLog(log: seq<Action>, reaped: bool) {
    && |log| >= 1 && log[0] == Term
    && if reaped then
         || (|log| == 2 && log[1].Reap?)
         || (|log| == 3 && log[1].Kill? && log[2].Reap?)
       else
         || log == [Term]
         || (|log| == 2 && log[1].Kill?)
  }

  method TerminateAndReap(child: Child, graceMs: nat, started: int, beats: nat -> Beat, last: WaitResult)
    returns (ok: bool, waits: nat)
    requires child.Valid() && !child.reaped && child.log == []
    requires Ticks(beats)
    modifies child
    ensures child.Valid() && ok == child.reaped && ShutdownLog(child.log, ok)
    // Before the end, each look finds the child running and time left.
    ensures forall i :: 0 <= i < waits ==> beats(i).wait.NotYet? && TimeLeft(beats(i), started, graceMs)
    // A clock that advances at every look allows at most one look for each millisecond of grace.
    ensures Advances(beats) && started <= beats(0).now ==> waits <= graceMs
    // Then the child is reaped, cannot be waited for, or is killed because the time is over.
    ensures match beats(waits).wait
            case Reaped(st) => child.log == [Term, Reap(st)]
            case WaitFailed => child.log == [Term]
            case NotYet =>
              && |child.log| >= 2 && child.log[1].Kill? && Justified(child.log[1].cause, beats(waits), started, graceMs)
              && child.log[2..] == if last.Reaped? then [Reap(last.status)] else []
  {
    hide Ticks, Advances;
    var deadline := if started < 0 then -1 else started + graceMs;
    ghost var bound := ClockRunsOut(beats, started, graceMs);
    child.SendTerm();
    waits := 0;
    var cause;
    while true
      invariant child.Valid() && !child.reaped && child.log == [Term]
      invariant waits <= bound
      invariant forall i :: 0 <= i < waits ==> beats(i).wait.NotYet? && TimeLeft(beats(i), started, graceMs)
      decreases bound - waits
    {
      WaitsAreBounded(beats, started, graceMs, waits);
      var beat := beats(waits);
      var waited := child.Wait(beat.wait);
      if waited.Reaped? {
        return true, waits;
      }
      if waited.WaitFailed? {
        return false, waits;
      }
      var now := beat.now;
      if deadline < 0 || now < 0 {
        cause := ClockFailed;
        break;
      }
      if now >= deadline {
        cause := DeadlinePassed(now, deadline);
        break;
      }
      if beat.pollFailed {
        cause := SleepFailed;
        break;
      }
      waits := waits + 1;
    }
    child.SendKill(cause);
    var final := child.Wait(last);
    ok := final.Reaped?;
  }

  /** How the event loop ended. */
  datatype Ending = StillRunning | ChildEnded(status: Status) | Shutdown(reason: int)

  /** The exec pipe has delivered an error number: the engine was never executed. */
  predicate ExecError(turn: Turn, execOpen: bool) {
    execOpen && turn.execReady && turn.exec.GotBytes?
  }

  /** The exec pipe is still open after this turn's read: neither closed by a successful exec nor broken. */
  predicate ExecStillOpen(turn: Turn, execOpen: bool) {
    execOpen && !(turn.execReady && (turn.exec.EndOfFile? || turn.exec.ReadFailed? || turn.execInvalid))
  }

  /** The owner closed its end, and in the short wait that follows the exec pipe delivers its error. */
  predicate LateExecError(turn: Turn, execOpen: bool) {
    turn.lifeReady && turn.life.EndOfFile? && ExecStillOpen(turn, execOpen) && turn.lateReady && turn.lateExec.GotBytes?
  }

  /** The lifeline says that the owner is gone, or can no longer be trusted to say so. */
  predicate OwnerGone(turn: Turn) {
    turn.lifeReady && !turn.life.GotBytes?
    && (turn.life.EndOfFile? || turn.life.ReadFailed? || turn.lifeInvalid || turn.lifeError)
  }

  /** One turn of the event loop that neither ended the child nor was asked to stop. */
  method Observe(turn: Turn, execOpen: bool) returns (reason: Option<int>, open: bool)
    // An exec error wins over anything the lifeline says at the same time.
    ensures reason == Some(EXEC_FAILURE) <==> turn.poll.Ready? && (ExecError(turn, execOpen) || LateExecError(turn, execOpen))
    // Bytes on the lifeline are a protocol error.
    ensures reason == Some(GUARDIAN_FAILURE) <==>
              turn.poll.Ready? && turn.lifeReady && turn.life.GotBytes? && !ExecError(turn, execOpen)
    ensures reason == Some(SIGTERM) <==>
              turn.poll.PollFailed?
              || (turn.poll.Ready? && OwnerGone(turn) && !ExecError(turn, execOpen) && !LateExecError(turn, execOpen))
    ensures reason.None? || reason.value == SIGTERM || reason.value == GUARDIAN_FAILURE || reason.value == EXEC_FAILURE
    ensures reason.None? ==> open == if turn.poll.Ready? then ExecStillOpen(turn, execOpen) else execOpen
  {
    open := execOpen;
    if turn.poll.PollFailed? {
      return Some(SIGTERM), open;
    }
    if turn.poll.Quiet? {
      return None, open;
    }
    if open && turn.execReady {
      if turn.exec.GotBytes? {
        return Some(EXEC_FAILURE), open;
      }
      if turn.exec.EndOfFile? || turn.exec.ReadFailed? || turn.execInvalid {
        open := false;
      }
    }
    if turn.lifeReady {
      if turn.life.GotBytes? {
        return Some(GUARDIAN_FAILURE), open;
      }
      if turn.life.EndOfFile? && open && turn.lateReady {
        if turn.lateExec.GotBytes? {
          return Some(EXEC_FAILURE), open;
        }
        if turn.lateExec.EndOfFile? || turn.lateExec.ReadFailed? {
          open := false;
        }
      }
      if turn.life.EndOfFile? || turn.life.ReadFailed? || turn.lifeInvalid {
        return Some(SIGTERM), open;
      }
      if turn.life.TryAgain? && turn.lifeError {
        return Some(SIGTERM), open;
      }
    }
    return None, open;
  }

  /** The exec pipe is open before turn `n`, if no turn before gave a reason to stop. */
  function PipeOpen(turns: seq<Turn>, n: nat): bool
    requires n <= |turns|
  {
    n == 0
    || if turns[n - 1].poll.Ready? then ExecStillOpen(turns[n - 1], PipeOpen(turns, n - 1)) else PipeOpen(turns, n - 1)
  }

  lemma PipeStays(turns: seq<Turn>, n: nat)
    requires n < |turns|
    ensures PipeOpen(turns, n + 1)
            == if turns[n].poll.Ready? then ExecStillOpen(turns[n], PipeOpen(turns, n)) else PipeOpen(turns, n)
  {
  }

  /** An error number arrives on the open pipe, at once or in the short wait after the owner has gone. */
  predicate ReportsExec(turn: Turn, execOpen: bool) {
    turn.poll.Ready? && (ExecError(turn, execOpen) || LateExecError(turn, execOpen))
  }

  /** A turn that gives no reason to stop: no signal, no ended child, no exec error, no lost or misbehaving owner. */
  predicate Uneventful(turn: Turn, execOpen: bool) {
    && turn.stop == 0 && turn.wait.NotYet? && !turn.poll.PollFailed?
    && (turn.poll.Ready? ==>
          !OwnerGone(turn) && !(turn.lifeReady && turn.life.GotBytes?) && !ExecError(turn, execOpen))
  }

  predicate UneventfulAt(turns: seq<Turn>, i: nat)
    requires i < |turns|
  {
    Uneventful(turns[i], PipeOpen(turns, i))
  }

  ghost predicate UneventfulUntil(turns: seq<Turn>, at: nat)
    requires at <= |turns|
  {
    forall i :: 0 <= i < at ==> UneventfulAt(turns, i)
  }

  /** `at` is the first turn that gives a reason to stop. */
  ghost predicate FirstEvent(turns: seq<Turn>, at: nat) {
    at < |turns| && !UneventfulAt(turns, at) && UneventfulUntil(turns, at)
  }

  /** Before any other reason to stop, the engine was found not to have been executed. */
  ghost predicate ExecFailed(turns: seq<Turn>, at: nat) {
    FirstEvent(turns, at) && turns[at].stop == 0 && turns[at].wait.NotYet? && ReportsExec(turns[at], PipeOpen(turns, at))
  }

  lemma FirstEventIsUnique(turns: seq<Turn>, a: nat, b: nat)
    requires FirstEvent(turns, a) && FirstEvent(turns, b)
    ensures a == b
  {
    hide UneventfulAt;
  }

  lemma StoppedForExec(turns: seq<Turn>, at: nat)
    requires FirstEvent(turns, at) && Consequence(turns[at], PipeOpen(turns, at)).Shutdown?
    ensures Consequence(turns[at], PipeOpen(turns, at)).reason == EXEC_FAILURE <==> exists a :: ExecFailed(turns, a)
  {
    hide PipeOpen, UneventfulUntil;
    assert Consequence(turns[at], PipeOpen(turns, at)).reason == EXEC_FAILURE <==> ExecFailed(turns, at);
    forall a | ExecFailed(turns, a)
      ensures a == at
    {
      FirstEventIsUnique(turns, a, at);
    }
  }

  /** What a turn leads to: a stop signal comes first, then the child, then an exec error, then the lifeline. */
  function Consequence(turn: Turn, execOpen: bool): Ending {
    if turn.stop != 0 then Shutdown(turn.stop)
    else if turn.wait.Reaped? then ChildEnded(turn.wait.status)
    else if Uneventful(turn, execOpen) then StillRunning
    else if turn.wait.NotYet? && ReportsExec(turn, execOpen) then Shutdown(EXEC_FAILURE)
    else if turn.wait.NotYet? && turn.poll.Ready? && turn.lifeReady && turn.life.GotBytes? then Shutdown(GUARDIAN_FAILURE)
    else Shutdown(SIGTERM)
  }

  /** One turn of the event loop. */
  method TakeTurn(child: Child, turn: Turn, execOpen: bool) returns (end: Ending, open: bool)
    requires child.Valid() && child.log == [] && !child.reaped
    modifies child
    ensures child.Valid() && child.reaped == end.ChildEnded?
    ensures child.log == if end.ChildEnded? then [Reap(end.status)] else []
    ensures end == Consequence(turn, execOpen)
    ensures end.StillRunning? ==> open == if turn.poll.Ready? then ExecStillOpen(turn, execOpen) else execOpen
  {
    if turn.stop != 0 {
      return Shutdown(turn.stop), execOpen;
    }
    var waited := child.Wait(turn.wait);
    if waited.Reaped? {
      return ChildEnded(waited.status), execOpen;
    }
    if waited.WaitFailed? {
      return Shutdown(SIGTERM), execOpen;
    }
    var reason;
    reason, open := Observe(turn, execOpen);
    end := if reason.Some? then Shutdown(reason.value) else StillRunning;
  }

  lemma OnlyUneventfulGoesOn(turn: Turn, execOpen: bool)
    ensures Consequence(turn, execOpen).StillRunning? <==> Uneventful(turn, execOpen)
  {
  }

  /** The event loop ends at the first turn, `at`, that gives a reason to, and for that reason. */
  method Supervise(child: Child, turns: seq<Turn>) returns (end: Ending, at: nat)
    requires child.Valid() && child.log == [] && !child.reaped
    modifies child
    ensures child.Valid() && child.reaped == end.ChildEnded?
    ensures child.log == if end.ChildEnded? then [Reap(end.status)] else []
    ensures if end.StillRunning? then at == |turns| && UneventfulUntil(turns, at)
            else FirstEvent(turns, at) && end == Consequence(turns[at], PipeOpen(turns, at))
  {
    assert PipeOpen(turns, 0);
    hide Uneventful, Consequence, ExecStillOpen, PipeOpen;
    var execOpen := true;
    at := 0;
    while at < |turns|
      invariant at <= |turns| && child.Valid() && child.log == [] && !child.reaped
      invariant execOpen == PipeOpen(turns, at)
      invariant UneventfulUntil(turns, at)
    {
      PipeStays(turns, at);
      OnlyUneventfulGoesOn(turns[at], execOpen);
      end, execOpen := TakeTurn(child, turns[at], execOpen);
      if !end.StillRunning? {
        return;
      }
      at := at + 1;
    }
    end := StillRunning;
  }

  /**
    The guardian from `fork` to its exit status. In every run: no signal follows a successful wait, the
    child is reaped at most once, every status but `GUARDIAN_FAILURE` means it was reaped, and status 0
    means it exited with 0 and was never signalled. A child that had to be stopped and was reaped gives
    `EXEC_FAILURE` exactly if it was stopped for that.
   */
  method Guard(child: Child, turns: seq<Turn>, graceMs: nat, started: int, beats: nat -> Beat, last: WaitResult)
    returns (status: Option<int>)
    requires child.Valid() && child.log == [] && !child.reaped
    requires MIN_GRACE_MS <= graceMs <= MAX_GRACE_MS && Ticks(beats)
    modifies child
    ensures Safe(child.log)
    ensures status.None? <==> UneventfulUntil(turns, |turns|)
    ensures status.None? ==> child.log == []
    ensures status.Some? && status.value != GUARDIAN_FAILURE ==> WasReaped(child.log)
    // A child that ended by itself: its exit code, or 128 plus its signal if that fits a byte.
    ensures status.Some? && child.log != [] && child.log[0].Reap? ==>
              match child.log[0].status
              case ExitedWith(code) => status.value == code
              case SignalledBy(signal) => status.value == if signal <= 127 then 128 + signal else 70
    // A child that was killed had its whole grace period, unless the clock or the sleep failed.
    ensures forall i :: 0 <= i < |child.log| && child.log[i].Kill? ==>
              exists n :: Justified(child.log[i].cause, beats(n), started, graceMs)
    ensures status.Some? && (child.log == [] || !child.log[0].Reap?) ==>
              && child.log != [] && child.log[0] == Term
              && (status.value == EXEC_FAILURE || status.value == GUARDIAN_FAILURE)
              && (status.value == EXEC_FAILURE <==> WasReaped(child.log) && exists at :: ExecFailed(turns, at))
    ensures status == Some(0) ==> child.log == [Reap(ExitedWith(0))]
  {
    hide Consequence, UneventfulAt, ExecFailed, Ticks;
    var end, at := Supervise(child, turns);
    match end {
      case StillRunning => return None;
      case ChildEnded(st) => return Some(ChildExitCode(st));
      case Shutdown(reason) =>
        StoppedForExec(turns, at);
        var ok, waits := TerminateAndReap(child, graceMs, started, beats, last);
        if !ok {
          return Some(GUARDIAN_FAILURE);
        }
        if reason == EXEC_FAILURE {
          return Some(EXEC_FAILURE);
        }
        return Some(GUARDIAN_FAILURE);
    }
  }
}
