/**
  The first-run claim: a crash-recovery protocol over a journal, a private staging
  directory and one atomic rename.

  Any number of invocations may run at once, each with its own setup code, and each may
  fail or be killed between any two file-system operations. A failure and a crash look
  the same here: what a process has not yet published lives in temporary files that no
  other process looks at. The key derivation behind a claim proof is symbolic, so two
  proofs are equal exactly when they were made from the same code and nonce.
 */
module ClaimProtocol {
  import opened Basics

  type Code = nat
  type Nonce = nat

  /** `client_proof(stretch_claim_code(code), nonce)`. */
  datatype Proof = Proof(code: Code, nonce: Nonce)

  /** The journal's content; the digest binds it to one output path. */
  datatype Attempt = Attempt(pathDigest: nat, nonce: Nonce, proof: Proof)

  datatype Credentials = Credentials(ca: nat, token: nat)

  /** A credential directory, as far as it has been written. */
  datatype Directory = Directory(ca: Option<nat>, token: Option<nat>)

  /** Where an invocation is, with what it remembers. */
  datatype Pc =
    | Start
    | Loaded(existing: Option<Attempt>)
    | Creating
    | Journaled(attempt: Attempt)
    | Staged(attempt: Attempt)
    | Posted(attempt: Attempt)
    | Opened(attempt: Attempt, credentials: Credentials)
    | Checked(attempt: Attempt, credentials: Credentials)
    | CaSaved(attempt: Attempt, credentials: Credentials, staging: Directory)
    | TokenSaved(attempt: Attempt, staging: Directory)
    | Publishing(attempt: Attempt, staging: Directory)
    | Recovering(attempt: Attempt)
    | Closing(attempt: Attempt)
    | Removing(attempt: Attempt)
    | Done
    | Failed

  /** One invocation; `checked` is history: the credentials it has itself verified over HTTPS. */
  datatype Process = Process(code: Code, pc: Pc, checked: Option<Credentials>)

  /**
    `journal` and `output` are the shared files. `posts`, `verified` and `first` are history:
    the claim requests sent so far, the credentials that passed HTTPS verification so far, and
    the first attempt ever journaled.
   */
  datatype State = State(
    path: nat,
    journal: Option<Attempt>,
    output: Option<Directory>,
    processes: map<nat, Process>,
    posts: seq<Attempt>,
    verified: set<Credentials>,
    first: Option<Attempt>)

  /** What the world supplies to one step: a random nonce, a decrypted answer. */
  datatype Input = Input(nonce: Nonce, credentials: Credentials)

  datatype Event =
    | Invoke(p: nat, code: Code)
    | Advance(p: nat, input: Input)
    | Abort(p: nat)

  function Initial(path: nat): State {
    State(path, None, None, map[], [], {}, None)
  }

  function NewAttempt(path: nat, code: Code, nonce: Nonce): Attempt {
    Attempt(path, nonce, Proof(code, nonce))
  }

  /** `validate_claim_attempt`: made for this output path, and with this setup code. */
  predicate Matches(attempt: Attempt, path: nat, code: Code) {
    attempt.pathDigest == path && attempt.proof == Proof(code, attempt.nonce)
  }

  predicate Complete(d: Directory) {
    d.ca.Some? && d.token.Some?
  }

  function Contents(d: Directory): Credentials
    requires Complete(d)
  {
    Credentials(d.ca.value, d.token.value)
  }

  function At(s: State, p: nat, pc: Pc): State
    requires p in s.processes
  {
    s.(processes := s.processes[p := s.processes[p].(pc := pc)])
  }

  /** The same, with credentials just verified over HTTPS. */
  function AtVerified(s: State, p: nat, pc: Pc, credentials: Credentials): State
    requires p in s.processes
  {
    s.(processes := s.processes[p := s.processes[p].(pc := pc, checked := Some(credentials))],
       verified := s.verified + {credentials})
  }

  /** After the journal was read: look whether the output exists. */
  function Inspect(s: State, p: nat, existing: Option<Attempt>): State
    requires p in s.processes
  {
    var code := s.processes[p].code;
    if s.output.Some? then
      if existing.None? || !Matches(existing.value, s.path, code) then At(s, p, Failed)
      else At(s, p, Recovering(existing.value))
    else if existing.None? then At(s, p, Creating)
    else if !Matches(existing.value, s.path, code) then At(s, p, Failed)
    else At(s, p, Journaled(existing.value))
  }

  /** Publishing the journal never replaces one. */
  function Create(s: State, p: nat, nonce: Nonce): State
    requires p in s.processes
  {
    if s.journal.Some? then At(s, p, Failed)
    else
      var attempt := NewAttempt(s.path, s.processes[p].code, nonce);
      At(s, p, Journaled(attempt)).(journal := Some(attempt), first := if s.first.None? then Some(attempt) else s.first)
  }

  /** Up to the claim request: decide whether to recover or to claim, journal first, then send. */
  function StepToClaim(s: State, p: nat, input: Input): State
    requires p in s.processes
  {
    match s.processes[p].pc
    case Start => At(s, p, Loaded(s.journal))
    case Loaded(existing) => Inspect(s, p, existing)
    case Creating => Create(s, p, input.nonce)
    case Journaled(attempt) => At(s, p, if s.output.Some? then Failed else Staged(attempt))
    case Staged(attempt) => At(s, p, Posted(attempt)).(posts := s.posts + [attempt])
    case _ => s
  }

  /** From the answer on: verify, fill the staging directory, and rename it into place. */
  function StepToPublish(s: State, p: nat, input: Input): State
    requires p in s.processes
  {
    match s.processes[p].pc
    case Posted(attempt) => At(s, p, Opened(attempt, input.credentials))
    case Opened(attempt, credentials) => AtVerified(s, p, Checked(attempt, credentials), credentials)
    case Checked(attempt, credentials) =>
      At(s, p, CaSaved(attempt, credentials, Directory(Some(credentials.ca), None)))
    case CaSaved(attempt, credentials, staging) =>
      At(s, p, TokenSaved(attempt, staging.(token := Some(credentials.token))))
    case TokenSaved(attempt, staging) => At(s, p, if s.output.Some? then Failed else Publishing(attempt, staging))
    case Publishing(attempt, staging) =>
      // Renaming a directory onto one that is not empty fails.
      if s.output.Some? then At(s, p, Failed) else At(s, p, Closing(attempt)).(output := Some(staging))
    case _ => s
  }

  /** With the output in place: verify it if this invocation did not make it, then remove our own journal. */
  function StepToClose(s: State, p: nat): State
    requires p in s.processes
  {
    match s.processes[p].pc
    case Recovering(attempt) =>
      if s.output.Some? && Complete(s.output.value) then
        AtVerified(s, p, Closing(attempt), Contents(s.output.value))
      else At(s, p, Failed)
    case Closing(attempt) => At(s, p, if s.journal == Some(attempt) then Removing(attempt) else Failed)
    case Removing(attempt) => if s.journal.Some? then At(s, p, Done).(journal := None) else At(s, p, Failed)
    case _ => s
  }

  predicate BeforeClaim(pc: Pc) {
    pc.Start? || pc.Loaded? || pc.Creating? || pc.Journaled? || pc.Staged?
  }

  predicate AfterPublish(pc: Pc) {
    pc.Recovering? || pc.Closing? || pc.Removing?
  }

  function Step(s: State, p: nat, input: Input): State
    requires p in s.processes
  {
    var pc := s.processes[p].pc;
    if BeforeClaim(pc) then StepToClaim(s, p, input)
    else if AfterPublish(pc) then StepToClose(s, p)
    else StepToPublish(s, p, input)
  }

  predicate Enabled(s: State, e: Event) {
    match e
    case Invoke(p, _) => p !in s.processes
    case Advance(p, _) => p in s.processes
    case Abort(p) => p in s.processes
  }

  function Next(s: State, e: Event): State
    requires Enabled(s, e)
  {
    match e
    case Invoke(p, code) => s.(processes := s.processes[p := Process(code, Start, None)])
    case Advance(p, input) => Step(s, p, input)
    case Abort(p) => At(s, p, Failed)
  }

  // ---------------------------------------------------------------- invariant

  /** An invocation past its last look at the output before it sends the claim. */
  predicate Armed(pc: Pc) {
    pc.Staged? || pc.Posted? || pc.Opened? || pc.Checked? || pc.CaSaved? || pc.TokenSaved? || pc.Publishing?
  }

  /** The attempt an invocation holds, if it holds one. */
  function Held(pc: Pc): Option<Attempt> {
    match pc
    case Start => None
    case Loaded(existing) => existing
    case Creating => None
    case Done => None
    case Failed => None
    case _ => Some(pc.attempt)
  }

  predicate WellMade(a: Attempt, path: nat) {
    a.pathDigest == path && a.proof.nonce == a.nonce
  }

  /** What one invocation knows about the shared files. */
  predicate ProcessOk(process: Process, path: nat, output: Option<Directory>, first: Option<Attempt>, verified: set<Credentials>) {
    var pc := process.pc;
    && (Held(pc).Some? && !pc.Loaded? ==> Matches(Held(pc).value, path, process.code))
    && (Held(pc).Some? ==> first.Some?)
    && (Held(pc).Some? && (output.None? || Armed(pc)) ==> Held(pc) == first)
    && (pc.Recovering? ==> output.Some?)
    && (pc.Checked? || pc.CaSaved? ==> pc.credentials in verified && process.checked == Some(pc.credentials))
    && (pc.CaSaved? ==> pc.staging == Directory(Some(pc.credentials.ca), None))
    && (pc.TokenSaved? || pc.Publishing? ==>
          Complete(pc.staging) && Contents(pc.staging) in verified && process.checked == Some(Contents(pc.staging)))
    && (pc.Closing? || pc.Removing? || pc.Done? ==>
          output.Some? && Complete(output.value) && process.checked == Some(Contents(output.value)))
  }

  /** Until the output is published there is at most one attempt; afterwards no other can be sent. */
  ghost predicate Inv(s: State) {
    && (forall p :: p in s.processes ==> ProcessOk(s.processes[p], s.path, s.output, s.first, s.verified))
    && (s.output.Some? ==> Complete(s.output.value) && Contents(s.output.value) in s.verified)
    && (s.output.None? ==> s.journal == s.first)
    && (s.journal.Some? ==> s.first.Some? && WellMade(s.journal.value, s.path))
    && (forall i :: 0 <= i < |s.posts| ==> Some(s.posts[i]) == s.first)
  }

  /** How the shared files and the history can move. */
  ghost predicate Evolves(s: State, t: State) {
    && (t.output == s.output || s.output.None?)
    && (t.first == s.first || s.first.None?)
    && s.verified <= t.verified
    && t.path == s.path
  }

  /** What an invocation knows stays true while others work. */
  lemma ProcessOkIsStable(process: Process, s: State, t: State)
    requires Evolves(s, t) && ProcessOk(process, s.path, s.output, s.first, s.verified)
    ensures ProcessOk(process, t.path, t.output, t.first, t.verified)
  {
  }

  /** One step of `p`: how the files move, what `p` knows afterwards, and what stays true of the files. */
  ghost predicate StepOk(s: State, t: State, p: nat) {
    && p in t.processes
    && ProcessOk(t.processes[p], t.path, t.output, t.first, t.verified)
    && (t.output.Some? ==> Complete(t.output.value) && Contents(t.output.value) in t.verified)
    && (t.output.None? ==> t.journal == t.first)
    && (t.journal.Some? ==> t.first.Some? && WellMade(t.journal.value, t.path))
    && (forall i :: 0 <= i < |t.posts| ==> Some(t.posts[i]) == t.first)
  }

  ghost predicate StepMoves(s: State, t: State, p: nat)
    requires p in s.processes
  {
    && Evolves(s, t) && p in t.processes && t.processes == s.processes[p := t.processes[p]]
    && t.processes[p].code == s.processes[p].code
  }

  lemma ClaimMoves(s: State, p: nat, input: Input)
    requires p in s.processes
    ensures StepMoves(s, StepToClaim(s, p, input), p)
  {
  }

  lemma PublishMoves(s: State, p: nat, input: Input)
    requires p in s.processes
    ensures StepMoves(s, StepToPublish(s, p, input), p)
  {
  }

  lemma CloseMoves(s: State, p: nat)
    requires p in s.processes
    ensures StepMoves(s, StepToClose(s, p), p)
  {
  }

  lemma StepEvolves(s: State, p: nat, input: Input)
    requires p in s.processes
    ensures StepMoves(s, Step(s, p, input), p)
  {
    hide StepMoves, StepToClaim, StepToPublish, StepToClose;
    ClaimMoves(s, p, input);
    PublishMoves(s, p, input);
    CloseMoves(s, p);
  }

  lemma InspectOk(s: State, p: nat, existing: Option<Attempt>)
    requires Inv(s) && p in s.processes && s.processes[p].pc == Loaded(existing)
    ensures StepOk(s, Inspect(s, p, existing), p)
  {
    assert ProcessOk(s.processes[p], s.path, s.output, s.first, s.verified);
  }

  lemma CreateOk(s: State, p: nat, nonce: Nonce)
    requires Inv(s) && p in s.processes
    ensures StepOk(s, Create(s, p, nonce), p)
  {
  }

  lemma ClaimOk(s: State, p: nat, input: Input)
    requires Inv(s) && p in s.processes
    ensures StepOk(s, StepToClaim(s, p, input), p)
  {
    hide Inspect, Create;
    if s.processes[p].pc.Loaded? {
      InspectOk(s, p, s.processes[p].pc.existing);
    }
    CreateOk(s, p, input.nonce);
    assert ProcessOk(s.processes[p], s.path, s.output, s.first, s.verified);
  }

  lemma PublishOk(s: State, p: nat, input: Input)
    requires Inv(s) && p in s.processes
    ensures StepOk(s, StepToPublish(s, p, input), p)
  {
    hide Matches, WellMade;
    assert ProcessOk(s.processes[p], s.path, s.output, s.first, s.verified);
  }

  lemma CloseOk(s: State, p: nat)
    requires Inv(s) && p in s.processes
    ensures StepOk(s, StepToClose(s, p), p)
  {
    assert ProcessOk(s.processes[p], s.path, s.output, s.first, s.verified);
  }

  lemma StepIsOk(s: State, p: nat, input: Input)
    requires Inv(s) && p in s.processes
    ensures StepOk(s, Step(s, p, input), p)
  {
    hide StepOk, StepToClaim, StepToPublish, StepToClose;
    ClaimOk(s, p, input);
    PublishOk(s, p, input);
    CloseOk(s, p);
  }

  lemma AllProcessesOk(s: State, t: State, p: nat)
    requires Inv(s) && Evolves(s, t)
    requires p in t.processes && t.processes == s.processes[p := t.processes[p]]
    requires ProcessOk(t.processes[p], t.path, t.output, t.first, t.verified)
    ensures forall q :: q in t.processes ==> ProcessOk(t.processes[q], t.path, t.output, t.first, t.verified)
  {
    hide ProcessOk, Evolves;
    forall q | q in t.processes && q != p
      ensures ProcessOk(t.processes[q], t.path, t.output, t.first, t.verified)
    {
      ProcessOkIsStable(s.processes[q], s, t);
    }
  }

  /** Every step of every invocation, and every crash, keeps the invariant. */
  lemma NextKeeps(s: State, e: Event)
    requires Inv(s) && Enabled(s, e)
    ensures Inv(Next(s, e))
  {
    hide Step;
    var t := Next(s, e);
    if e.Advance? {
      StepEvolves(s, e.p, e.input);
      StepIsOk(s, e.p, e.input);
    }
    AllProcessesOk(s, t, e.p);
  }

  // --------------------------------------------------------------------- runs

  datatype Run = Run(states: seq<State>, events: seq<Event>)

  ghost predicate IsStep(s: State, e: Event, t: State) {
    Enabled(s, e) && t == Next(s, e)
  }

  ghost predicate IsRun(r: Run) {
    && |r.states| == |r.events| + 1
    && r.states[0] == Initial(r.states[0].path)
    && forall i :: 0 <= i < |r.events| ==> IsStep(r.states[i], r.events[i], r.states[i + 1])
  }

  lemma {:induction false} RunInv(r: Run, i: nat)
    requires IsRun(r) && i < |r.states|
    ensures Inv(r.states[i])
  {
    hide Next;
    if i > 0 {
      RunInv(r, i - 1);
      assert IsStep(r.states[i - 1], r.events[i - 1], r.states[i]);
      NextKeeps(r.states[i - 1], r.events[i - 1]);
    }
  }

  /**
    However many invocations run, overlap, fail or are killed, and whatever codes they use, all claim
    requests ever sent carry one and the same nonce and proof.
   */
  lemma AllPostsAreTheSame(r: Run, i: nat, a: nat, b: nat)
    requires IsRun(r) && i < |r.states| && a < |r.states[i].posts| && b < |r.states[i].posts|
    ensures r.states[i].posts[a].nonce == r.states[i].posts[b].nonce
    ensures r.states[i].posts[a].proof == r.states[i].posts[b].proof
  {
    hide IsRun;
    RunInv(r, i);
  }

  /** The published directory is absent, or holds both the CA and the token, verified over HTTPS. */
  lemma PublishedIsComplete(r: Run, i: nat)
    requires IsRun(r) && i < |r.states| && r.states[i].output.Some?
    ensures var directory := r.states[i].output.value;
            && directory.ca.Some? && directory.token.Some?
            && Credentials(directory.ca.value, directory.token.value) in r.states[i].verified
  {
    hide IsRun;
    RunInv(r, i);
  }

  /**
    A step that sends a claim sends one attempt, made for this path with the sender's own setup code,
    and until the output is published that is the attempt the journal holds.
   */
  lemma PostIsJournaled(r: Run, i: nat)
    requires IsRun(r) && i < |r.events| && r.states[i + 1].posts != r.states[i].posts
    ensures var s, e := r.states[i], r.events[i];
            && e.Advance? && e.p in s.processes && s.first.Some?
            && r.states[i + 1].posts == s.posts + [s.first.value]
            && s.first.value.pathDigest == s.path
            && s.first.value.proof == Proof(s.processes[e.p].code, s.first.value.nonce)
            && (s.output.None? ==> s.journal == s.first)
  {
    var s, e, t := r.states[i], r.events[i], r.states[i + 1];
    assert IsStep(s, e, t);
    RunInv(r, i);
    if e.Advance? {
      assert ProcessOk(s.processes[e.p], s.path, s.output, s.first, s.verified);
    }
  }

  /**
    A journal is never replaced, and it is removed only when the output is published with
    credentials that passed HTTPS verification.
   */
  lemma JournalIsRemovedOnlyWhenPublished(r: Run, i: nat)
    requires IsRun(r) && i < |r.events| && r.states[i].journal.Some?
    ensures r.states[i + 1].journal == r.states[i].journal
            || (&& r.states[i + 1].journal.None?
                && r.states[i].output.Some?
                && r.states[i].output.value.ca.Some? && r.states[i].output.value.token.Some?
                && Credentials(r.states[i].output.value.ca.value, r.states[i].output.value.token.value) in r.states[i].verified)
  {
    var s, e, t := r.states[i], r.events[i], r.states[i + 1];
    assert IsStep(s, e, t);
    RunInv(r, i);
    if e.Advance? {
      assert ProcessOk(s.processes[e.p], s.path, s.output, s.first, s.verified);
    }
  }

  /** An invocation that reports success has itself verified the credentials that are published. */
  lemma SuccessWasVerified(r: Run, i: nat, p: nat)
    requires IsRun(r) && i < |r.states| && p in r.states[i].processes && r.states[i].processes[p].pc == Done
    ensures var output := r.states[i].output;
            && output.Some? && output.value.ca.Some? && output.value.token.Some?
            && r.states[i].processes[p].checked == Some(Credentials(output.value.ca.value, output.value.token.value))
  {
    hide IsRun;
    RunInv(r, i);
    assert ProcessOk(r.states[i].processes[p], r.states[i].path, r.states[i].output, r.states[i].first, r.states[i].verified);
  }

  lemma RemovingStep(s: State, e: Event, t: State, p: nat)
    requires IsStep(s, e, t) && p in t.processes && t.processes[p].pc.Removing?
    ensures || (p in s.processes && s.processes[p].pc == t.processes[p].pc)
            || (&& e.Advance? && e.p == p && p in s.processes
                && s.processes[p].pc == Closing(t.processes[p].pc.attempt) && s.journal == Some(t.processes[p].pc.attempt))
  {
    if e.Advance? && e.p != p {
      hide Step;
      StepEvolves(s, e.p, e.input);
    }
  }

  /** An invocation about to remove the journal has seen, at its last look, that it was its own. */
  lemma {:induction false} RemovesWhatItSawAsItsOwn(r: Run, i: nat, p: nat) returns (j: nat)
    requires IsRun(r) && i < |r.states| && p in r.states[i].processes && r.states[i].processes[p].pc.Removing?
    ensures j < i && r.events[j].Advance? && r.events[j].p == p
    ensures r.states[j].journal == Some(r.states[i].processes[p].pc.attempt)
    decreases i
  {
    hide Next, Enabled;
    if i == 0 {
      assert false;
    } else {
      assert IsStep(r.states[i - 1], r.events[i - 1], r.states[i]);
      RemovingStep(r.states[i - 1], r.events[i - 1], r.states[i], p);
      if p in r.states[i - 1].processes && r.states[i - 1].processes[p].pc == r.states[i].processes[p].pc {
        j := RemovesWhatItSawAsItsOwn(r, i - 1, p);
      } else {
        j := i - 1;
      }
    }
  }

  /** What has been published never changes. */
  lemma {:induction false} PublishedIsFinal(r: Run, i: nat, j: nat)
    requires IsRun(r) && i <= j < |r.states| && r.states[i].output.Some?
    ensures r.states[j].output == r.states[i].output
    decreases j
  {
    hide Step;
    if i < j {
      PublishedIsFinal(r, i, j - 1);
      var s, e := r.states[j - 1], r.events[j - 1];
      assert IsStep(s, e, r.states[j]);
      if e.Advance? {
        StepEvolves(s, e.p, e.input);
      }
    }
  }

  // ------------------------------------------------------------ a wrong code

  /** An invocation that has loaded a journal made for another path or with another setup code. */
  ghost predicate LoadedForeign(s: State, p: nat) {
    && p in s.processes && s.processes[p].pc.Loaded? && s.processes[p].pc.existing.Some?
    && var attempt := s.processes[p].pc.existing.value;
       attempt.pathDigest != s.path || attempt.proof != Proof(s.processes[p].code, attempt.nonce)
  }

  /** It has done nothing yet, or it has failed. */
  ghost predicate Refused(s: State, p: nat) {
    LoadedForeign(s, p) || (p in s.processes && s.processes[p].pc == Failed)
  }

  /** Its only step is to fail, and that leaves every file and every request as it was. */
  lemma RefusedStep(s: State, e: Event, p: nat)
    requires Enabled(s, e) && Refused(s, p)
    ensures Refused(Next(s, e), p)
    ensures (e == Abort(p) || (e.Advance? && e.p == p)) ==>
              Next(s, e) == s.(processes := s.processes[p := s.processes[p].(pc := Failed)])
  {
    if e.Advance? && e.p == p {
      if s.processes[p].pc == Failed {
        assert s.processes == s.processes[p := s.processes[p]];
      }
    } else if e.Advance? {
      hide Step;
      StepEvolves(s, e.p, e.input);
    }
  }

  /**
    An invocation that finds the journal of another setup code or path sends nothing, publishes
    nothing and removes nothing: from then on the only thing it ever does is fail.
   */
  lemma {:induction false} ForeignJournalIsRefused(r: Run, i: nat, j: nat, p: nat)
    requires IsRun(r) && i <= j < |r.events| && LoadedForeign(r.states[i], p)
    ensures Refused(r.states[j], p)
    ensures var s, e := r.states[j], r.events[j];
            (e == Abort(p) || (e.Advance? && e.p == p)) ==>
              r.states[j + 1] == s.(processes := s.processes[p := s.processes[p].(pc := Failed)])
    decreases j
  {
    hide Next, LoadedForeign;
    assert IsStep(r.states[j], r.events[j], r.states[j + 1]);
    if i < j {
      ForeignJournalIsRefused(r, i, j - 1, p);
      assert IsStep(r.states[j - 1], r.events[j - 1], r.states[j]);
      RefusedStep(r.states[j - 1], r.events[j - 1], p);
    }
    RefusedStep(r.states[j], r.events[j], p);
  }

  // ------------------------------------------------------------------ recovery

  /** `n` consecutive steps of one invocation with no other activity. */
  function Alone(s: State, p: nat, input: Input, n: nat): (t: State)
    requires p in s.processes
    ensures p in t.processes
    decreases n
  {
    if n == 0 then s
    else
      StepEvolves(s, p, input);
      Alone(Step(s, p, input), p, input, n - 1)
  }

  /** The end of both paths: the journal is still ours, so it goes. */
  lemma FinishesClosing(s: State, p: nat, input: Input, attempt: Attempt)
    requires p in s.processes && s.processes[p].pc == Closing(attempt) && s.journal == Some(attempt)
    ensures var t := Alone(s, p, input, 2); t.processes[p].pc == Done && t.journal.None? && t.output == s.output && t.posts == s.posts
  {
    var s1 := Step(s, p, input);
    assert Alone(s, p, input, 2) == Alone(s1, p, input, 1) == Step(s1, p, input);
  }

  lemma FinishesSaving(s: State, p: nat, input: Input, attempt: Attempt)
    requires p in s.processes && s.processes[p].pc == Checked(attempt, input.credentials)
    requires s.journal == Some(attempt) && s.output.None?
    ensures var t := Alone(s, p, input, 6);
            && t.processes[p].pc == Done && t.journal.None? && t.posts == s.posts
            && t.output == Some(Directory(Some(input.credentials.ca), Some(input.credentials.token)))
  {
    var s1 := Step(s, p, input);
    var s2 := Step(s1, p, input);
    var s3 := Step(s2, p, input);
    var s4 := Step(s3, p, input);
    assert s4.processes[p].pc == Closing(attempt);
    FinishesClosing(s4, p, input, attempt);
    assert Alone(s, p, input, 6) == Alone(s1, p, input, 5);
    assert Alone(s1, p, input, 5) == Alone(s2, p, input, 4);
    assert Alone(s2, p, input, 4) == Alone(s3, p, input, 3);
    assert Alone(s3, p, input, 3) == Alone(s4, p, input, 2);
  }

  lemma FinishesJournaled(s: State, p: nat, input: Input, attempt: Attempt)
    requires p in s.processes && s.processes[p].pc == Journaled(attempt)
    requires s.journal == Some(attempt) && s.output.None?
    ensures var t := Alone(s, p, input, 10);
            && t.processes[p].pc == Done && t.journal.None? && t.posts == s.posts + [attempt]
            && t.output == Some(Directory(Some(input.credentials.ca), Some(input.credentials.token)))
  {
    var s1 := Step(s, p, input);
    var s2 := Step(s1, p, input);
    var s3 := Step(s2, p, input);
    var s4 := Step(s3, p, input);
    FinishesSaving(s4, p, input, attempt);
    assert Alone(s, p, input, 10) == Alone(s1, p, input, 9);
    assert Alone(s1, p, input, 9) == Alone(s2, p, input, 8);
    assert Alone(s2, p, input, 8) == Alone(s3, p, input, 7);
    assert Alone(s3, p, input, 7) == Alone(s4, p, input, 6);
  }

  /**
    From whatever crashes and failures have left behind, one undisturbed invocation with the fitting
    code, against a server that answers, ends with both credentials published and no journal. It sends
    the journaled attempt again, or a new one if there is none, or nothing if the output is there.
   */
  lemma OneRunFinishes(r: Run, i: nat, p: nat, code: Code, input: Input) returns (n: nat)
    requires IsRun(r) && i < |r.states| && p !in r.states[i].processes
    requires r.states[i].output.None? || r.states[i].journal.Some?
    requires r.states[i].journal.Some? ==> r.states[i].journal.value.proof.code == code
    ensures var s := r.states[i];
            var t := Alone(Next(s, Invoke(p, code)), p, input, n);
            && t.processes[p].pc == Done
            && t.journal.None?
            && t.output.Some? && t.output.value.ca.Some? && t.output.value.token.Some?
            && if s.output.Some? then t.output == s.output && t.posts == s.posts
               else
                 && t.output == Some(Directory(Some(input.credentials.ca), Some(input.credentials.token)))
                 && t.posts == s.posts + [if s.journal.Some? then s.journal.value else Attempt(s.path, input.nonce, Proof(code, input.nonce))]
  {
    hide IsRun, Next, Alone;
    var s := r.states[i];
    RunInv(r, i);
    if s.output.Some? {
      n := 5;
      FinishesRecovering(s, p, code, input);
    } else if s.journal.Some? {
      n := 12;
      FinishesRetrying(s, p, code, input);
    } else {
      n := 13;
      FinishesClaiming(s, p, code, input);
    }
  }

  lemma FinishesRecovering(s: State, p: nat, code: Code, input: Input)
    requires Inv(s) && s.output.Some? && s.journal.Some? && s.journal.value.proof.code == code && p !in s.processes
    ensures var t := Alone(Next(s, Invoke(p, code)), p, input, 5);
            t.processes[p].pc == Done && t.journal.None? && t.output == s.output && Complete(s.output.value) && t.posts == s.posts
  {
    hide Inv;
    JournalIsWellMade(s);
    var s0 := Next(s, Invoke(p, code));
    var s1 := Step(s0, p, input);
    var s2 := Step(s1, p, input);
    var s3 := Step(s2, p, input);
    FinishesClosing(s3, p, input, s.journal.value);
    assert Alone(s0, p, input, 5) == Alone(s1, p, input, 4);
    assert Alone(s1, p, input, 4) == Alone(s2, p, input, 3);
    assert Alone(s2, p, input, 3) == Alone(s3, p, input, 2);
  }

  ghost predicate Claimed(s: State, t: State, p: nat, input: Input, attempt: Attempt) {
    && p in t.processes && t.processes[p].pc == Done && t.journal.None? && t.posts == s.posts + [attempt]
    && t.output == Some(Directory(Some(input.credentials.ca), Some(input.credentials.token)))
  }

  lemma FinishesRetrying(s: State, p: nat, code: Code, input: Input)
    requires Inv(s) && s.output.None? && s.journal.Some? && s.journal.value.proof.code == code && p !in s.processes
    ensures Claimed(s, Alone(Next(s, Invoke(p, code)), p, input, 12), p, input, s.journal.value)
  {
    hide Inv;
    JournalIsWellMade(s);
    var s0 := Next(s, Invoke(p, code));
    var s1 := Step(s0, p, input);
    var s2 := Step(s1, p, input);
    FinishesJournaled(s2, p, input, s.journal.value);
    assert Alone(s0, p, input, 12) == Alone(s1, p, input, 11);
    assert Alone(s1, p, input, 11) == Alone(s2, p, input, 10);
  }

  lemma FinishesClaiming(s: State, p: nat, code: Code, input: Input)
    requires s.output.None? && s.journal.None? && p !in s.processes
    ensures Claimed(s, Alone(Next(s, Invoke(p, code)), p, input, 13), p, input,
                    Attempt(s.path, input.nonce, Proof(code, input.nonce)))
  {
    var s0 := Next(s, Invoke(p, code));
    var s1 := Step(s0, p, input);
    var s2 := Step(s1, p, input);
    var s3 := Step(s2, p, input);
    FinishesJournaled(s3, p, input, NewAttempt(s.path, code, input.nonce));
    assert Alone(s0, p, input, 13) == Alone(s1, p, input, 12);
    assert Alone(s1, p, input, 12) == Alone(s2, p, input, 11);
    assert Alone(s2, p, input, 11) == Alone(s3, p, input, 10);
  }

  lemma JournalIsWellMade(s: State)
    requires Inv(s)
    ensures s.journal.Some? ==> WellMade(s.journal.value, s.path)
    ensures s.output.Some? ==> Complete(s.output.value)
  {
  }
}
