/**
  The bounded collector of the claim response: it drains a child's standard output
  without blocking, keeps at most `maximum` bytes, and gives up at a deadline.

  The child, its pipe and the clock are a script of rounds, one per turn of the loop.
 */
module ClaimCollector {
  import opened Basics

  const READ_BUFFER_BYTES: nat := 8 * 1024

  /** What one nonblocking read returns. */
  datatype ReadEvent = Data(bytes: seq<byte>) | Eof | WouldBlock | Interrupted | ReadError

  /** What one look at the process returns while it has not been reaped. */
  datatype WaitEvent = Running | Exited | WaitError

  datatype Round = Round(read: ReadEvent, wait: WaitEvent, timedOut: bool)

  datatype Outcome = Complete(stdout: seq<byte>) | TooLarge | TimedOut | Broken

  predicate FitsBuffer(r: Round) {
    r.read.Data? ==> 0 < |r.read.bytes| <= READ_BUFFER_BYTES
  }

  /** Time passes: some round that is not cut short by a signal is past the deadline. */
  predicate Script(rounds: seq<Round>) {
    && rounds != []
    && rounds[|rounds| - 1].timedOut && !rounds[|rounds| - 1].read.Interrupted?
    && forall i :: 0 <= i < |rounds| ==> FitsBuffer(rounds[i])
  }

  lemma ScriptTail(rounds: seq<Round>)
    requires Script(rounds) && (rounds[0].read.Interrupted? || !rounds[0].timedOut)
    ensures Script(rounds[1..])
  {
    if |rounds| == 1 {
      assert false;
    }
  }

  /** The loop as a function of the script. */
  function Collected(rounds: seq<Round>, got: seq<byte>, closed: bool, reaped: bool, maximum: nat): Outcome
    requires Script(rounds) && |got| <= maximum
    decreases |rounds|
  {
    var r := rounds[0];
    if !closed && r.read.Interrupted? then
      ScriptTail(rounds);
      Collected(rounds[1..], got, closed, reaped, maximum)
    else if !closed && r.read.ReadError? then Broken
    else if !closed && r.read.Data? && |r.read.bytes| > maximum - |got| then TooLarge
    else
      var got' := if !closed && r.read.Data? then got + r.read.bytes else got;
      var closed' := closed || r.read.Eof?;
      if !reaped && r.wait.WaitError? then Broken
      else if closed' && (reaped || r.wait.Exited?) then Complete(got')
      else if r.timedOut then TimedOut
      else
        ScriptTail(rounds);
        Collected(rounds[1..], got', closed', reaped || r.wait.Exited?, maximum)
  }

  // ----------------------------------------------------- what it amounts to

  /** The bytes a script delivers before the end of the stream. */
  function Stream(rounds: seq<Round>): seq<byte> {
    if rounds == [] || rounds[0].read.Eof? then []
    else (if rounds[0].read.Data? then rounds[0].read.bytes else []) + Stream(rounds[1..])
  }

  predicate Closes(rounds: seq<Round>) {
    exists i :: 0 <= i < |rounds| && rounds[i].read.Eof?
  }

  lemma StreamStep(rounds: seq<Round>, got: seq<byte>)
    requires rounds != [] && !rounds[0].read.Eof?
    ensures (if rounds[0].read.Data? then got + rounds[0].read.bytes else got) + Stream(rounds[1..]) == got + Stream(rounds)
  {
    var piece, rest := if rounds[0].read.Data? then rounds[0].read.bytes else [], Stream(rounds[1..]);
    assert Stream(rounds) == piece + rest;
    hide *;
    ConcatAssociates(got, piece, rest);
    assert got + [] == got;
  }

  lemma ConcatAssociates(a: seq<byte>, b: seq<byte>, c: seq<byte>)
    ensures (a + b) + c == a + (b + c)
  {
  }

  /** Success means the whole stream, in order and within the limit, for every way of cutting it up. */
  lemma {:induction false} SuccessIsWholeStream(rounds: seq<Round>, got: seq<byte>, closed: bool, reaped: bool, maximum: nat)
    requires Script(rounds) && |got| <= maximum
    requires Collected(rounds, got, closed, reaped, maximum).Complete?
    ensures var stdout := Collected(rounds, got, closed, reaped, maximum).stdout;
            && |stdout| <= maximum
            && if closed then stdout == got else Closes(rounds) && stdout == got + Stream(rounds)
    decreases |rounds|
  {
    var r, rest := rounds[0], rounds[1..];
    assert r.read.Eof? ==> Closes(rounds) && got + Stream(rounds) == got;
    hide Stream, FitsBuffer;
    if !r.read.Eof? {
      StreamStep(rounds, got);
    }
    if !closed && r.read.Interrupted? {
      ScriptTail(rounds);
      SuccessIsWholeStream(rest, got, closed, reaped, maximum);
      ClosesLater(rounds);
    } else {
      var got' := if !closed && r.read.Data? then got + r.read.bytes else got;
      var closed' := closed || r.read.Eof?;
      if !(closed' && (reaped || r.wait.Exited?)) {
        ScriptTail(rounds);
        SuccessIsWholeStream(rest, got', closed', reaped || r.wait.Exited?, maximum);
        ClosesLater(rounds);
      }
    }
  }

  lemma ClosesLater(rounds: seq<Round>)
    requires rounds != []
    ensures Closes(rounds[1..]) ==> Closes(rounds)
  {
    if Closes(rounds[1..]) {
      var i :| 0 <= i < |rounds[1..]| && rounds[1..][i].read.Eof?;
      assert rounds[i + 1].read.Eof?;
    }
  }

  ghost predicate Fails(rounds: seq<Round>) {
    exists i :: 0 <= i < |rounds| && (rounds[i].read.ReadError? || rounds[i].wait.WaitError?)
  }

  ghost predicate RunsLate(rounds: seq<Round>) {
    exists i :: 0 <= i < |rounds| && rounds[i].timedOut
  }

  lemma CausesPersist(rounds: seq<Round>)
    requires rounds != []
    ensures Fails(rounds[1..]) ==> Fails(rounds)
    ensures RunsLate(rounds[1..]) ==> RunsLate(rounds)
    ensures rounds[0].read.ReadError? || rounds[0].wait.WaitError? ==> Fails(rounds)
    ensures rounds[0].timedOut ==> RunsLate(rounds)
  {
    if i :| 0 <= i < |rounds[1..]| && (rounds[1..][i].read.ReadError? || rounds[1..][i].wait.WaitError?) {
      assert rounds[i + 1].read.ReadError? || rounds[i + 1].wait.WaitError?;
    }
    if i :| 0 <= i < |rounds[1..]| && rounds[1..][i].timedOut {
      assert rounds[i + 1].timedOut;
    }
  }

  /** Collection gives up only for a reason: too much output, the deadline, or a failed read or wait. */
  lemma {:induction false} FailureHasCause(rounds: seq<Round>, got: seq<byte>, closed: bool, reaped: bool, maximum: nat)
    requires Script(rounds) && |got| <= maximum
    ensures match Collected(rounds, got, closed, reaped, maximum)
            case Complete(_) => true
            case TooLarge => !closed && |got| + |Stream(rounds)| > maximum
            case TimedOut => RunsLate(rounds)
            case Broken => Fails(rounds)
    decreases |rounds|
  {
    var r, rest := rounds[0], rounds[1..];
    CausesPersist(rounds);
    assert !r.read.Eof? ==> |Stream(rounds)| == (if r.read.Data? then |r.read.bytes| else 0) + |Stream(rest)|;
    hide Stream, FitsBuffer, Fails, RunsLate;
    if !closed && r.read.Interrupted? {
      ScriptTail(rounds);
      FailureHasCause(rest, got, closed, reaped, maximum);
    } else if closed || (!r.read.ReadError? && (r.read.Data? ==> |got| + |r.read.bytes| <= maximum)) {
      var got' := if !closed && r.read.Data? then got + r.read.bytes else got;
      var closed' := closed || r.read.Eof?;
      if (reaped || !r.wait.WaitError?) && !(closed' && (reaped || r.wait.Exited?)) && !r.timedOut {
        ScriptTail(rounds);
        FailureHasCause(rest, got', closed', reaped || r.wait.Exited?, maximum);
      }
    }
  }

  /** Up to round `n` no read or wait fails and the deadline is not reached. */
  predicate Undisturbed(rounds: seq<Round>, n: nat) {
    n <= |rounds| && forall i :: 0 <= i < n ==> !rounds[i].timedOut && !rounds[i].read.ReadError? && !rounds[i].wait.WaitError?
  }

  /** The stream ends at round `n` and the process is seen to have ended at round `m`. */
  predicate EndsAt(rounds: seq<Round>, n: nat, m: nat) {
    && n <= m < |rounds|
    && rounds[n].read.Eof? && (forall i :: 0 <= i < n ==> !rounds[i].read.Eof?)
    && rounds[m].wait.Exited?
  }

  lemma {:induction false} ClosedStreamCompletes(rounds: seq<Round>, got: seq<byte>, reaped: bool, maximum: nat, m: nat)
    requires Script(rounds) && |got| <= maximum && m < |rounds|
    requires Undisturbed(rounds, m) && rounds[m].wait.Exited?
    ensures Collected(rounds, got, true, reaped, maximum) == Complete(got)
    decreases |rounds|
  {
    if m > 0 && !reaped && !rounds[0].wait.Exited? {
      ScriptTail(rounds);
      ClosedStreamCompletes(rounds[1..], got, reaped, maximum, m - 1);
    }
  }

  /** A stream that ends undisturbed is accepted if and only if it fits, however it is cut up. */
  lemma {:induction false} AcceptsExactlyWhatFits(rounds: seq<Round>, got: seq<byte>, reaped: bool, maximum: nat, n: nat, m: nat)
    requires Script(rounds) && |got| <= maximum
    requires EndsAt(rounds, n, m) && Undisturbed(rounds, m)
    ensures Collected(rounds, got, false, reaped, maximum)
            == if |got| + |Stream(rounds)| <= maximum then Complete(got + Stream(rounds)) else TooLarge
    decreases |rounds|
  {
    var r, rest := rounds[0], rounds[1..];
    if n == 0 {
      assert got + Stream(rounds) == got;
      hide Stream, FitsBuffer;
      if m > 0 && !reaped && !r.wait.Exited? {
        ScriptTail(rounds);
        ClosedStreamCompletes(rest, got, reaped, maximum, m - 1);
      }
    } else {
      assert Stream(rounds) == Piece(r) + Stream(rest);
      assert EndsAt(rest, n - 1, m - 1) && Undisturbed(rest, m - 1);
      ScriptTail(rounds);
      CollectedStep(rounds, got, reaped, maximum);
      hide *;
      ConcatAssociates(got, Piece(r), Stream(rest));
      if |got| + |Piece(r)| <= maximum {
        AcceptsExactlyWhatFits(rest, got + Piece(r), reaped || (!r.read.Interrupted? && r.wait.Exited?), maximum, n - 1, m - 1);
      }
    }
  }

  function Piece(r: Round): seq<byte> {
    if r.read.Data? then r.read.bytes else []
  }

  /** One round before the end of the stream that nothing disturbs. */
  lemma CollectedStep(rounds: seq<Round>, got: seq<byte>, reaped: bool, maximum: nat)
    requires Script(rounds) && Script(rounds[1..]) && |got| <= maximum
    requires var r := rounds[0]; !r.timedOut && !r.read.ReadError? && !r.wait.WaitError? && !r.read.Eof?
    ensures var r := rounds[0];
            Collected(rounds, got, false, reaped, maximum) ==
              if |got| + |Piece(r)| <= maximum then
                Collected(rounds[1..], got + Piece(r), false, reaped || (!r.read.Interrupted? && r.wait.Exited?), maximum)
              else TooLarge
  {
    hide FitsBuffer;
    assert got + [] == got;
  }

  // ----------------------------------------------------------------- the code

  /** A child process; `Wait` returns once it has ended, and reaps it. */
  class Child {
    var reaped: bool
    var killed: bool

    constructor ()
      ensures !reaped && !killed
    {
      reaped := false;
      killed := false;
    }

    method TryWait(seen: WaitEvent) returns (r: WaitEvent)
      modifies this`reaped
      ensures r == if old(reaped) then Exited else seen
      ensures reaped == (old(reaped) || seen.Exited?)
    {
      r := if reaped then Exited else seen;
      reaped := reaped || r.Exited?;
    }

    method Kill()
      modifies this`killed
      ensures killed
    {
      killed := true;
    }

    method Wait()
      modifies this`reaped
      ensures reaped
    {
      reaped := true;
    }
  }

  /** Kills only a child that is still running, and reaps it in every case. */
  method TerminateAndReap(child: Child, seen: WaitEvent)
    modifies child
    ensures child.reaped
    ensures child.killed <==> old(child.killed) || (!old(child.reaped) && seen.Running?)
  {
    var r := child.TryWait(seen);
    if r.Running? {
      child.Kill();
    }
    child.Wait();
  }

  /** The loop: never keeps more than `maximum` bytes, and returns what the script amounts to. */
  method CollectBounded(child: Child, rounds: seq<Round>, maximum: nat) returns (r: Outcome, peak: nat)
    requires Script(rounds)
    modifies child
    ensures r == Collected(rounds, [], false, old(child.reaped), maximum)
    ensures peak <= maximum && (r.Complete? ==> peak == |r.stdout|)
    ensures r.Complete? || r.TooLarge? || r.TimedOut? ==> child.reaped
  {
    var response: seq<byte> := [];
    var stdoutClosed := false;
    var i := 0;
    peak := 0;
    assert rounds[0..] == rounds;
    while true
      invariant i < |rounds| && Script(rounds[i..])
      invariant |response| <= maximum && peak == |response|
      invariant Collected(rounds[i..], response, stdoutClosed, child.reaped, maximum)
             == Collected(rounds, [], false, old(child.reaped), maximum)
      decreases |rounds| - i
    {
      var round := rounds[i];
      assert rounds[i..][0] == round && rounds[i..][1..] == rounds[i + 1..];
      if round.read.Interrupted? || !round.timedOut {
        ScriptTail(rounds[i..]);
      }
      if !stdoutClosed {
        match round.read {
          case Eof => stdoutClosed := true;
          case Data(bytes) =>
            if |bytes| > maximum - |response| {
              TerminateAndReap(child, round.wait);
              return TooLarge, peak;
            }
            response := response + bytes;
            peak := |response|;
          case WouldBlock =>
          case Interrupted =>
            i := i + 1;
            continue;
          case ReadError => return Broken, peak;
        }
      }
      var seen := child.TryWait(round.wait);
      if seen.WaitError? {
        return Broken, peak;
      }
      if stdoutClosed && seen.Exited? {
        return Complete(response), peak;
      }
      if round.timedOut {
        TerminateAndReap(child, round.wait);
        return TimedOut, peak;
      }
      i := i + 1;
    }
  }

  /** `curl_bootstrap_claim_with_curl`: whatever happens, no child is left unreaped. */
  method BootstrapClaim(rounds: seq<Round>, requestSent: bool, succeeded: bool, maximum: nat)
    returns (response: Outcome, child: Child)
    requires Script(rounds)
    ensures child.reaped
    ensures response.Complete? ==>
              requestSent && succeeded && Closes(rounds) && response.stdout == Stream(rounds) && |response.stdout| <= maximum
    ensures requestSent && succeeded && (exists n, m :: EndsAt(rounds, n, m) && Undisturbed(rounds, m)) ==>
              response == if |Stream(rounds)| <= maximum then Complete(Stream(rounds)) else TooLarge
  {
    forall n, m | EndsAt(rounds, n, m) && Undisturbed(rounds, m)
      ensures Collected(rounds, [], false, false, maximum)
              == if |Stream(rounds)| <= maximum then Complete(Stream(rounds)) else TooLarge
    {
      AcceptsExactlyWhatFits(rounds, [], false, maximum, n, m);
      assert [] + Stream(rounds) == Stream(rounds);
    }
    hide Collected, Stream;
    child := new Child();
    if requestSent {
      var peak;
      response, peak := CollectBounded(child, rounds, maximum);
    } else {
      response := Broken;
    }
    if !response.Complete? {
      TerminateAndReap(child, rounds[0].wait);
      return response, child;
    }
    SuccessIsWholeStream(rounds, [], false, false, maximum);
    if !succeeded {
      response := Broken;
    }
  }
}
