/** Theorems about whole runs of the folder-sync coordinator. */
module FolderSyncRuns {
  import opened Basics
  import opened FolderStatus
  import opened FolderSync
  import opened FolderSyncInvariant
  import opened FolderSyncSteps

  /** A finite run: `states[i + 1]` is what `events[i]` makes of `states[i]`. */
  datatype Run = Run(states: seq<State>, events: seq<Event>)

  ghost predicate IsStep(s: State, e: Event, t: State) {
    Enabled(s, e) && t == Next(s, e)
  }

  ghost predicate IsRun(r: Run) {
    && |r.states| == |r.events| + 1
    && r.states[0] == INITIAL
    && forall i :: 0 <= i < |r.events| ==> IsStep(r.states[i], r.events[i], r.states[i + 1])
  }

  ghost function Last(r: Run): State
    requires r.states != []
  {
    r.states[|r.states| - 1]
  }

  /** The run with one more step. */
  ghost function Then(r: Run, e: Event, t: State): Run {
    Run(r.states + [t], r.events + [e])
  }

  lemma ThenIsRun(r: Run, e: Event, t: State)
    requires IsRun(r) && IsStep(Last(r), e, t)
    ensures IsRun(Then(r, e, t))
  {
    hide IsStep;
  }

  lemma {:induction false} RunInv(r: Run, i: nat)
    requires IsRun(r) && i < |r.states|
    ensures Inv(r.states[i])
  {
    hide Inv, Next, Enabled;
    if i == 0 {
      InitialInv();
    } else {
      RunInv(r, i - 1);
      assert IsStep(r.states[i - 1], r.events[i - 1], r.states[i]);
      NextKeeps(r.states[i - 1], r.events[i - 1]);
    }
  }

  // ------------------------------------------------------------------- access

  lemma AccessStep(s: State, e: Event, t: State)
    requires Inv(s) && IsStep(s, e, t)
    ensures if e.SetAccess? then t.deviceId == e.device && (t.unlocked <==> e.unlock && e.device.Some?)
            else t.deviceId == s.deviceId && t.unlocked == s.unlocked
    ensures if e.SetPolling? then t.pollingEnabled == e.enabled else t.pollingEnabled == s.pollingEnabled
  {
    hide Inv, DoAct, DoAnswer, Shows;
    match e {
      case Act(action) =>
        NextCallIsNew(s);
        ActStep(s, action);
      case Answer(id, reply, cleared) => AnswerStep(s, id, reply, cleared);
      case _ =>
    }
  }

  /** Access is as it was last set: this device, and unlocked only if that was asked for. */
  lemma {:induction false} AccessIsAsSet(r: Run, k: nat, i: nat)
    requires IsRun(r) && k < i < |r.states| && r.events[k].SetAccess?
    requires forall j :: k < j < i ==> !r.events[j].SetAccess?
    ensures r.states[i].deviceId == r.events[k].device
    ensures r.states[i].unlocked <==> r.events[k].unlock && r.events[k].device.Some?
    decreases i
  {
    hide Inv, IsStep;
    if k < i - 1 {
      AccessIsAsSet(r, k, i - 1);
    }
    RunInv(r, i - 1);
    assert IsStep(r.states[i - 1], r.events[i - 1], r.states[i]);
    AccessStep(r.states[i - 1], r.events[i - 1], r.states[i]);
  }

  lemma {:induction false} PollingIsAsSet(r: Run, k: nat, i: nat)
    requires IsRun(r) && k < i < |r.states| && r.events[k].SetPolling?
    requires forall j :: k < j < i ==> !r.events[j].SetPolling?
    ensures r.states[i].pollingEnabled == r.events[k].enabled
    decreases i
  {
    hide Inv, IsStep;
    if k < i - 1 {
      PollingIsAsSet(r, k, i - 1);
    }
    RunInv(r, i - 1);
    assert IsStep(r.states[i - 1], r.events[i - 1], r.states[i]);
    AccessStep(r.states[i - 1], r.events[i - 1], r.states[i]);
  }

  /** Without access nothing is sent and nothing shown, and without access or polling a refresh does nothing. */
  lemma SilentWithoutAccess(s: State, e: Event, t: State)
    requires Inv(s) && IsStep(s, e, t)
    ensures !s.unlocked ==> Sent(s, t).None? && !ShowsAt(s, e)
    ensures e.Refresh? && (!s.unlocked || !s.pollingEnabled) ==> t == s
  {
    hide Inv, DoAct, DoAnswer, ValidFor, SendsRetained;
    if !s.unlocked && Sent(s, t).Some? {
      SentIsRetained(s, e, t);
    }
  }

  /** From the moment the console is locked, or left without a device, until access is set again, it sends and shows nothing. */
  lemma LockedConsoleIsSilent(r: Run, k: nat, i: nat)
    requires IsRun(r) && k < i < |r.events|
    requires r.events[k].SetAccess? && !(r.events[k].unlock && r.events[k].device.Some?)
    requires forall j :: k < j < i ==> !r.events[j].SetAccess?
    ensures r.states[i].current.None?
    ensures Sent(r.states[i], r.states[i + 1]).None? && !ShowsAt(r.states[i], r.events[i])
    ensures r.events[i].Refresh? ==> r.states[i + 1] == r.states[i]
  {
    hide Inv, IsStep, Sent, ShowsAt;
    AccessIsAsSet(r, k, i);
    RunInv(r, i);
    assert IsStep(r.states[i], r.events[i], r.states[i + 1]);
    SilentWithoutAccess(r.states[i], r.events[i], r.states[i + 1]);
    NothingShownWhileLocked(r, k, i);
  }

  lemma {:induction false} NothingShownWhileLocked(r: Run, k: nat, i: nat)
    requires IsRun(r) && k < i < |r.states|
    requires r.events[k].SetAccess? && !(r.events[k].unlock && r.events[k].device.Some?)
    requires forall j :: k < j < i ==> !r.events[j].SetAccess?
    ensures r.states[i].current.None?
    decreases i
  {
    hide Inv, Next, Enabled, ShowsAt;
    RunInv(r, i - 1);
    var s, e, t := r.states[i - 1], r.events[i - 1], r.states[i];
    assert IsStep(s, e, t);
    if k < i - 1 {
      NothingShownWhileLocked(r, k, i - 1);
      AccessIsAsSet(r, k, i - 1);
      SilentWithoutAccess(s, e, t);
      StepShown(s, e, t);
    } else {
      AccessForgets(s, e, t);
    }
  }

  lemma AccessForgets(s: State, e: Event, t: State)
    requires IsStep(s, e, t) && e.SetAccess?
    ensures t.current.None? && t.pendingAddress.None?
  {
    hide DoAct, DoAnswer;
  }

  // --------------------------------------------------------- mutual exclusion

  /** The lock is held exactly while a mutation is in progress, and never two are, whatever access changes occur. */
  lemma OneMutationAtATime(r: Run, i: nat)
    requires IsRun(r) && i < |r.states|
    ensures var s := r.states[i];
            && (s.mutationLocked <==> exists id :: id in s.calls && InProgress(s.calls[id]))
            && (forall a, b :: a in s.calls && b in s.calls && InProgress(s.calls[a]) && InProgress(s.calls[b]) ==> a == b)
  {
    hide IsRun;
    RunInv(r, i);
  }

  /** What is shown was requested under the present access and validated for the present device. */
  lemma ShownBelongsToAccess(r: Run, i: nat)
    requires IsRun(r) && i < |r.states| && r.states[i].current.Some?
    ensures var s := r.states[i];
            && s.current.value.epoch == s.accessEpoch
            && s.deviceId == Some(s.current.value.device)
            && ValidFor(s.current.value.status, s.deviceId)
  {
    hide IsRun, ValidFor;
    RunInv(r, i);
  }

  /** While a settings or run request is outstanding, its device's stored receipt is its exact body. */
  lemma OutstandingRequestIsRetained(r: Run, i: nat, id: nat)
    requires IsRun(r) && i < |r.states| && id in r.states[i].calls && r.states[i].calls[id].purpose.Post?
    ensures var s := r.states[i];
            var call := s.calls[id];
            match call.purpose.mutation
            case ChangeSettings(body) => call.device in s.settingsReceipts && s.settingsReceipts[call.device] == body
            case RequestRun(body) => call.device in s.runReceipts && s.runReceipts[call.device] == body
            case _ => true
  {
    hide IsRun, ValidFor;
    RunInv(r, i);
  }

  // ------------------------------------------------------------ single steps

  /** Step `i` of the run shows a status, produced by the server at `Served`. */
  ghost predicate ShowsAt(s: State, e: Event) {
    e.Answer? && e.reply.Reported? && e.call in s.calls && Shows(s, s.calls[e.call], e.reply)
  }

  ghost predicate Acknowledges(s: State, e: Event) {
    e.Answer? && e.reply.Accepted?
  }

  ghost function Served(s: State, e: Event): nat
    requires Enabled(s, e) && e.Answer? && !e.reply.Refused?
  {
    s.calls[e.call].served.value
  }

  ghost predicate BeginsMutation(s: State, t: State) {
    !s.mutationLocked && t.mutationLocked
  }

  /** The steps that make earlier status reads obsolete. */
  ghost predicate Disturbs(s: State, e: Event, t: State) {
    || e.SetAccess?
    || (e.SetPolling? && !e.enabled)
    || (e.Refresh? && CanRefresh(s))
    || BeginsMutation(s, t)
  }

  /** How the counters and clocks move in one step. */
  lemma StepCounters(s: State, e: Event, t: State)
    requires Inv(s) && IsStep(s, e, t)
    ensures t.generation >= s.generation && (Disturbs(s, e, t) ==> t.generation > s.generation)
    ensures t.accessEpoch >= s.accessEpoch
    ensures t.ackedAt >= s.ackedAt && (Acknowledges(s, e) ==> t.ackedAt >= Served(s, e))
    ensures if ShowsAt(s, e) then t.shownAt == Served(s, e) && t.ackedAt == s.ackedAt else t.shownAt == s.shownAt
  {
    hide Inv, DoAct, DoAnswer, ValidFor;
    match e {
      case Act(action) =>
        NextCallIsNew(s);
        ActStep(s, action);
      case Answer(id, reply, cleared) => AnswerStep(s, id, reply, cleared);
      case _ =>
    }
  }

  /** The shown status changes only by being replaced or dropped. */
  lemma StepShown(s: State, e: Event, t: State)
    requires Inv(s) && IsStep(s, e, t)
    ensures if ShowsAt(s, e) then
              t.current == Some(Shown(e.reply.status, Served(s, e), s.calls[e.call].device, s.calls[e.call].epoch))
            else t.current == s.current || t.current == None
  {
    hide Inv, DoAct, DoAnswer, ValidFor;
    match e {
      case Act(action) =>
        NextCallIsNew(s);
        ActStep(s, action);
      case Answer(id, reply, cleared) => AnswerStep(s, id, reply, cleared);
      case _ =>
    }
  }

  /** A poll appears only by a refresh, which stamps it with a new generation. */
  lemma StepPolls(s: State, e: Event, t: State, id: nat)
    requires Inv(s) && IsStep(s, e, t)
    requires id in t.calls && t.calls[id].purpose.Poll?
    ensures || (id in s.calls && s.calls[id].purpose == t.calls[id].purpose)
            || (e.Refresh? && CanRefresh(s) && id == s.nextCall && t.calls[id].purpose.generation == t.generation)
  {
    hide Inv, DoAct, DoAnswer, Shows;
    match e {
      case Act(action) =>
        NextCallIsNew(s);
        ActStep(s, action);
      case Answer(_, reply, cleared) => AnswerStep(s, e.call, reply, cleared);
      case _ =>
    }
  }

  // ---------------------------------------------------------------- freshness

  lemma {:induction false} CountersGrow(r: Run, i: nat, j: nat)
    requires IsRun(r) && i <= j < |r.states|
    ensures r.states[i].generation <= r.states[j].generation
    ensures r.states[i].accessEpoch <= r.states[j].accessEpoch
    ensures r.states[i].ackedAt <= r.states[j].ackedAt
    decreases j
  {
    hide Inv, IsStep;
    if i < j {
      CountersGrow(r, i, j - 1);
      RunInv(r, j - 1);
      assert IsStep(r.states[j - 1], r.events[j - 1], r.states[j]);
      StepCounters(r.states[j - 1], r.events[j - 1], r.states[j]);
    }
  }

  /** A status about to be shown is no older than any acknowledged mutation or any status shown before. */
  lemma ShownIsNewest(s: State, e: Event)
    requires Inv(s) && Enabled(s, e) && ShowsAt(s, e)
    ensures s.ackedAt <= Served(s, e) && s.shownAt <= Served(s, e)
  {
    hide ValidFor;
  }

  /** The server's clock when it acted on the call that step `i` answers. */
  ghost function ServedAt(r: Run, i: nat): nat
    requires IsRun(r) && i < |r.events| && r.events[i].Answer? && !r.events[i].reply.Refused?
  {
    assert IsStep(r.states[i], r.events[i], r.states[i + 1]);
    Served(r.states[i], r.events[i])
  }

  /** A shown status reflects every mutation acknowledged before it was shown. */
  lemma ShownReflectsAcknowledged(r: Run, k: nat, i: nat)
    requires IsRun(r) && k < i < |r.events|
    requires Acknowledges(r.states[k], r.events[k]) && ShowsAt(r.states[i], r.events[i])
    ensures ServedAt(r, k) <= ServedAt(r, i)
  {
    hide Inv, Next, Shows, Enabled;
    assert IsStep(r.states[k], r.events[k], r.states[k + 1]);
    assert IsStep(r.states[i], r.events[i], r.states[i + 1]);
    RunInv(r, k);
    RunInv(r, i);
    StepCounters(r.states[k], r.events[k], r.states[k + 1]);
    CountersGrow(r, k + 1, i);
    ShownIsNewest(r.states[i], r.events[i]);
  }

  lemma {:induction false} ShownAtGrows(r: Run, i: nat, j: nat)
    requires IsRun(r) && i <= j < |r.states|
    ensures r.states[i].shownAt <= r.states[j].shownAt
    decreases j
  {
    hide Inv, Next, Enabled, Shows, ShowsAt;
    if i < j {
      ShownAtGrows(r, i, j - 1);
      RunInv(r, j - 1);
      var s, e, t := r.states[j - 1], r.events[j - 1], r.states[j];
      assert IsStep(s, e, t);
      StepCounters(s, e, t);
      if ShowsAt(s, e) {
        ShownIsNewest(s, e);
      }
    }
  }

  /** Statuses are shown in the order in which the server produced them. */
  lemma ShownInServerOrder(r: Run, k: nat, i: nat)
    requires IsRun(r) && k < i < |r.events|
    requires ShowsAt(r.states[k], r.events[k]) && ShowsAt(r.states[i], r.events[i])
    ensures ServedAt(r, k) <= ServedAt(r, i)
  {
    hide Inv, Next, Shows, Enabled;
    assert IsStep(r.states[k], r.events[k], r.states[k + 1]);
    assert IsStep(r.states[i], r.events[i], r.states[i + 1]);
    RunInv(r, k);
    RunInv(r, i);
    StepCounters(r.states[k], r.events[k], r.states[k + 1]);
    ShownAtGrows(r, k + 1, i);
    ShownIsNewest(r.states[i], r.events[i]);
  }

  /** The step at which a refresh issued this poll. */
  ghost predicate RequestedAt(r: Run, j: nat, id: nat, generation: nat)
    requires IsRun(r)
  {
    && j < |r.events|
    && r.events[j].Refresh? && CanRefresh(r.states[j]) && r.states[j].nextCall == id
    && r.states[j + 1].generation == generation
  }

  lemma {:induction false} PollWasRequested(r: Run, i: nat, id: nat) returns (j: nat)
    requires IsRun(r) && i < |r.states|
    requires id in r.states[i].calls && r.states[i].calls[id].purpose.Poll?
    ensures j < i && RequestedAt(r, j, id, r.states[i].calls[id].purpose.generation)
    decreases i
  {
    hide Inv, Next, Enabled;
    if i == 0 {
      assert false;
    } else {
      var s, e, t := r.states[i - 1], r.events[i - 1], r.states[i];
      assert IsStep(s, e, t);
      RunInv(r, i - 1);
      StepPolls(s, e, t, id);
      if id in s.calls && s.calls[id].purpose == t.calls[id].purpose {
        j := PollWasRequested(r, i - 1, id);
      } else {
        j := i - 1;
      }
    }
  }

  /**
    A status that a refresh shows was requested while the lock was free, and since then no
    mutation began, access did not change, polling was not switched off and no newer
    refresh was made.
   */
  lemma ShownPollWasUndisturbed(r: Run, i: nat) returns (j: nat)
    requires IsRun(r) && i < |r.events|
    requires ShowsAt(r.states[i], r.events[i]) && r.states[i].calls[r.events[i].call].purpose.Poll?
    ensures j < i && r.events[j].Refresh? && CanRefresh(r.states[j]) && !r.states[j].mutationLocked
    ensures r.states[j].nextCall == r.events[i].call
    ensures forall k :: j < k < i ==> !Disturbs(r.states[k], r.events[k], r.states[k + 1])
  {
    hide Inv, Next, ValidFor;
    var id := r.events[i].call;
    j := PollWasRequested(r, i, id);
    var generation := r.states[i].calls[id].purpose.generation;
    UndisturbedIfSameGeneration(r, j + 1, i);
  }

  predicate SameRequest(a: Call, b: Call) {
    a.purpose == b.purpose && a.device == b.device && a.epoch == b.epoch
  }

  /** A call older than a state's counter was already there, for the same purpose. */
  lemma StepCalls(s: State, e: Event, t: State, id: nat)
    requires Inv(s) && IsStep(s, e, t)
    ensures t.nextCall >= s.nextCall
    ensures id in t.calls && id < s.nextCall ==>
              id in s.calls && SameRequest(s.calls[id], t.calls[id])
  {
    hide Inv, DoAct, DoAnswer, Shows;
    match e {
      case Act(action) =>
        NextCallIsNew(s);
        ActStep(s, action);
      case Answer(_, reply, cleared) => AnswerStep(s, e.call, reply, cleared);
      case _ =>
    }
  }

  lemma {:induction false} OldCallsPersist(r: Run, k: nat, i: nat, id: nat)
    requires IsRun(r) && k <= i < |r.states| && id in r.states[i].calls && id < r.states[k].nextCall
    ensures id in r.states[k].calls && SameRequest(r.states[k].calls[id], r.states[i].calls[id])
    ensures r.states[k].nextCall <= r.states[i].nextCall
    decreases i
  {
    hide Inv, Next, Enabled;
    if k < i {
      NextCallGrows(r, k, i - 1);
      RunInv(r, i - 1);
      assert IsStep(r.states[i - 1], r.events[i - 1], r.states[i]);
      StepCalls(r.states[i - 1], r.events[i - 1], r.states[i], id);
      OldCallsPersist(r, k, i - 1, id);
    }
  }

  lemma {:induction false} NextCallGrows(r: Run, k: nat, i: nat)
    requires IsRun(r) && k <= i < |r.states|
    ensures r.states[k].nextCall <= r.states[i].nextCall
    decreases i
  {
    hide Inv, Next, Enabled;
    if k < i {
      NextCallGrows(r, k, i - 1);
      RunInv(r, i - 1);
      assert IsStep(r.states[i - 1], r.events[i - 1], r.states[i]);
      StepCalls(r.states[i - 1], r.events[i - 1], r.states[i], 0);
    }
  }

  /** Showing a status leaves no other call behind whose answer could still be shown. */
  lemma NothingElseToShow(s: State, e: Event, t: State)
    requires Inv(s) && IsStep(s, e, t) && ShowsAt(s, e)
    ensures e.call < t.nextCall
    ensures forall id :: id in t.calls && id < s.nextCall ==> !t.calls[id].purpose.Confirm? && !CurrentRead(s.generation, t.calls[id])
    ensures t.generation >= s.generation
  {
    hide Inv, DoAnswer, ValidFor;
    AnswerStep(s, e.call, e.reply, e.cleared);
    CallIsNumbered(s, e.call);
    if s.calls[e.call].purpose.Confirm? {
      ReleasedKeeps(s, e.call);
    } else {
      OnlyCurrentRead(s, e.call);
      IdleHasNoPost(s);
    }
  }

  lemma CallIsNumbered(s: State, id: nat)
    requires Inv(s) && id in s.calls
    ensures id < s.nextCall
    ensures Read(s.calls[id]) ==> s.calls[id].purpose.generation <= s.generation
  {
    hide LockOk, ClocksOk, ShownOk, ReceiptsOk;
  }

  /** Statuses are shown in the order in which they were requested; an overtaken answer is never shown. */
  lemma ShownInRequestOrder(r: Run, k: nat, i: nat)
    requires IsRun(r) && k < i < |r.events|
    requires ShowsAt(r.states[k], r.events[k]) && ShowsAt(r.states[i], r.events[i])
    ensures r.events[k].call < r.events[i].call
  {
    hide Inv, Next, ValidFor, Enabled;
    var s, t, u := r.states[k], r.states[k + 1], r.states[i];
    var id := r.events[i].call;
    assert IsStep(s, r.events[k], t);
    RunInv(r, k);
    RunInv(r, k + 1);
    NothingElseToShow(s, r.events[k], t);
    CallIsNumbered(s, r.events[k].call);
    if id < s.nextCall {
      NextCallGrows(r, k, k + 1);
      OldCallsPersist(r, k + 1, i, id);
      CallIsNumbered(t, id);
      StepCalls(s, r.events[k], t, id);
      CallIsNumbered(s, id);
      CountersGrow(r, k, i);
    }
  }

  /** The answer to `call` can never be shown again: its generation or its access is over. */
  predicate Superseded(s: State, call: Call) {
    match call.purpose
    case Poll(generation) => generation < s.generation
    case Reload(generation) => generation < s.generation
    case Confirm(_) => call.epoch < s.accessEpoch
    case Post(_) => true
  }

  /** The steps after which only what is requested from then on can be shown. */
  ghost predicate StartsAfresh(s: State, e: Event, t: State) {
    e.SetAccess? || (e.Refresh? && CanRefresh(s)) || BeginsMutation(s, t)
  }

  ghost predicate AllSuperseded(s: State, before: nat) {
    forall id :: id in s.calls && id < before ==> Superseded(s, s.calls[id])
  }

  lemma NoConfirmUnlocked(s: State, id: nat)
    requires Inv(s) && id in s.calls && s.calls[id].purpose.Confirm?
    ensures s.mutationLocked && s.calls[id].epoch <= s.accessEpoch
  {
    hide ReadsOk, ClocksOk, ShownOk, ReceiptsOk;
  }

  lemma StepSupersedes(s: State, e: Event, t: State)
    requires Inv(s) && IsStep(s, e, t)
    ensures StartsAfresh(s, e, t) ==> AllSuperseded(t, s.nextCall)
    ensures e.SetPolling? && !e.enabled ==>
              forall id :: id in t.calls && Read(t.calls[id]) ==> Superseded(t, t.calls[id])
  {
    hide Inv, Next, Enabled;
    StepCounters(s, e, t);
    forall id | id in t.calls && id < s.nextCall
      ensures StartsAfresh(s, e, t) ==> Superseded(t, t.calls[id])
      ensures e.SetPolling? && !e.enabled && Read(t.calls[id]) ==> Superseded(t, t.calls[id])
    {
      StepCalls(s, e, t, id);
      CallIsNumbered(s, id);
      if s.calls[id].purpose.Confirm? {
        NoConfirmUnlocked(s, id);
        SetAccessCounts(s, e, t);
      }
    }
    if e.SetPolling? {
      SetPollingKeepsCalls(s, e, t);
      forall id | id in t.calls ensures id < s.nextCall {
        CallIsNumbered(s, id);
      }
    }
  }

  lemma SetAccessCounts(s: State, e: Event, t: State)
    requires IsStep(s, e, t)
    ensures e.SetAccess? ==> t.accessEpoch > s.accessEpoch
  {
    hide DoAct, DoAnswer;
  }

  lemma SetPollingKeepsCalls(s: State, e: Event, t: State)
    requires IsStep(s, e, t) && e.SetPolling?
    ensures t.calls == s.calls
  {
    hide DoAct, DoAnswer;
  }

  /**
    After a change of access, a refresh or the beginning of a mutation, nothing that was
    requested before is ever shown.
   */
  lemma OnlyLaterRequestsAreShown(r: Run, k: nat, i: nat)
    requires IsRun(r) && k < i < |r.events|
    requires StartsAfresh(r.states[k], r.events[k], r.states[k + 1]) && ShowsAt(r.states[i], r.events[i])
    ensures r.events[i].call >= r.states[k].nextCall
  {
    hide Inv, Next, ValidFor, Enabled, StartsAfresh;
    var s, t, id := r.states[k], r.states[k + 1], r.events[i].call;
    assert IsStep(s, r.events[k], t);
    RunInv(r, k);
    if id < s.nextCall {
      NextCallGrows(r, k, k + 1);
      StepSupersedes(s, r.events[k], t);
      OldCallsPersist(r, k + 1, i, id);
      CountersGrow(r, k + 1, i);
    }
  }

  // ------------------------------------------------ when an answer is shown

  /** With the lock free, only a disturbance changes what the console waits for. */
  ghost predicate SameExpectation(s: State, t: State) {
    && t.deviceId == s.deviceId && t.unlocked == s.unlocked && t.accessEpoch == s.accessEpoch
    && t.generation == s.generation && !t.mutationLocked && (s.pollingEnabled ==> t.pollingEnabled)
  }

  lemma ReadAnswerKeepsGeneration(s: State, id: nat, reply: Reply, cleared: bool)
    requires Deliverable(s, id, reply) && Read(s.calls[id])
    ensures DoAnswer(s, id, reply, cleared).generation == s.generation
  {
    hide ValidFor, FindPeer, AnswerAccepted, AnswerRefused, AnswerConfirm;
  }

  lemma UndisturbedStep(s: State, e: Event, t: State)
    requires Inv(s) && IsStep(s, e, t) && !s.mutationLocked && !Disturbs(s, e, t)
    ensures SameExpectation(s, t)
  {
    hide Inv, DoAct, DoAnswer, Shows;
    match e {
      case Act(action) =>
        NextCallIsNew(s);
        ActStep(s, action);
      case Answer(id, reply, cleared) =>
        AnswerStep(s, id, reply, cleared);
        UnlockedCallIsRead(s, id);
        ReadAnswerKeepsGeneration(s, id, reply, cleared);
      case _ =>
    }
  }

  lemma UnlockedCallIsRead(s: State, id: nat)
    requires Inv(s) && !s.mutationLocked && id in s.calls
    ensures Read(s.calls[id])
  {
    hide CallsOk, ReadsOk, ClocksOk, ShownOk, ReceiptsOk;
  }

  ghost predicate Undisturbed(r: Run, k: nat, i: nat)
    requires k <= i < |r.states| && |r.states| == |r.events| + 1
  {
    forall j :: k <= j < i ==> !Disturbs(r.states[j], r.events[j], r.states[j + 1])
  }

  lemma {:induction false} UndisturbedKeeps(r: Run, k: nat, i: nat)
    requires IsRun(r) && k <= i < |r.states| && !r.states[k].mutationLocked && Undisturbed(r, k, i)
    ensures SameExpectation(r.states[k], r.states[i])
    decreases i
  {
    hide Inv, Next, Enabled, Disturbs;
    if k < i {
      UndisturbedKeeps(r, k, i - 1);
      assert IsStep(r.states[i - 1], r.events[i - 1], r.states[i]);
      RunInv(r, i - 1);
      UndisturbedStep(r.states[i - 1], r.events[i - 1], r.states[i]);
    }
  }

  lemma UndisturbedIfSameGeneration(r: Run, k: nat, i: nat)
    requires IsRun(r) && k <= i < |r.states| && r.states[k].generation == r.states[i].generation
    ensures Undisturbed(r, k, i)
  {
    hide Inv, Next, Disturbs;
    forall j | k <= j < i
      ensures !Disturbs(r.states[j], r.events[j], r.states[j + 1])
    {
      CountersGrow(r, k, j);
      CountersGrow(r, j + 1, i);
      RunInv(r, j);
      assert IsStep(r.states[j], r.events[j], r.states[j + 1]);
      StepCounters(r.states[j], r.events[j], r.states[j + 1]);
    }
  }

  /**
    The answer to a read that the console waits for is shown if and only if it is valid and
    nothing has disturbed the console since: no change of access, no mutation begun,
    polling not switched off, no newer refresh.
   */
  lemma ReadIsShownIffUndisturbed(r: Run, k: nat, i: nat)
    requires IsRun(r) && k <= i < |r.events| && r.events[i].Answer? && r.events[i].reply.Reported?
    requires r.events[i].call in r.states[k].calls && r.events[i].call in r.states[i].calls
    requires Read(r.states[k].calls[r.events[i].call]) && Awaited(r.states[k], r.states[k].calls[r.events[i].call])
    ensures ShowsAt(r.states[i], r.events[i]) <==>
              ValidFor(r.events[i].reply.status, r.states[i].deviceId) && Undisturbed(r, k, i)
  {
    hide Inv, Next, Enabled, ValidFor, Disturbs;
    var id := r.events[i].call;
    RunInv(r, k);
    CallIsNumbered(r.states[k], id);
    OldCallsPersist(r, k, i, id);
    if ShowsAt(r.states[i], r.events[i]) {
      UndisturbedIfSameGeneration(r, k, i);
    } else if Undisturbed(r, k, i) {
      UndisturbedKeeps(r, k, i);
    }
  }

  // ----------------------------------------------------------------- receipts

  /** The reasons for which a settings receipt may disappear, all about the very change it holds. */
  ghost predicate SettlesSettings(s: State, e: Event, device: Id)
    requires device in s.settingsReceipts
  {
    match e
    case Answer(id, reply, _) =>
      && reply.Accepted? && id in s.calls && s.calls[id].device == device
      && s.calls[id].purpose == Post(ChangeSettings(s.settingsReceipts[device]))
    case Act(action) => ActionSettles(s, action, device)
    case _ => false
  }

  ghost predicate SettlesRun(s: State, e: Event, device: Id)
    requires device in s.runReceipts
  {
    match e
    case Answer(id, reply, _) =>
      && (reply.Accepted? || reply == Refused(RunConflict) || reply == Refused(RunPending))
      && id in s.calls && s.calls[id].device == device
      && s.calls[id].purpose == Post(RequestRun(s.runReceipts[device]))
    case Act(action) => action.DiscardRun? && s.deviceId == Some(device)
    case _ => false
  }

  lemma OutstandingBody(s: State, id: nat)
    requires Inv(s) && id in s.calls && s.calls[id].purpose.Post?
    ensures s.calls[id].purpose.mutation.ChangeSettings? ==>
              s.calls[id].device in s.settingsReceipts
              && s.calls[id].purpose == Post(ChangeSettings(s.settingsReceipts[s.calls[id].device]))
    ensures s.calls[id].purpose.mutation.RequestRun? ==>
              s.calls[id].device in s.runReceipts
              && s.calls[id].purpose == Post(RequestRun(s.runReceipts[s.calls[id].device]))
  {
    hide CallsOk, LockOk, ReadsOk, ClocksOk, ShownOk;
  }

  /**
    In one step a receipt stays exactly as it is, or disappears because this very request was
    acknowledged, settled by the shown status, refused by the server or discarded. It is never
    overwritten by another request.
   */
  lemma ReceiptsAreKept(s: State, e: Event, t: State, device: Id)
    requires Inv(s) && IsStep(s, e, t)
    ensures device in s.settingsReceipts ==>
              KeepsSettings(s, t, device) || (device !in t.settingsReceipts && SettlesSettings(s, e, device))
    ensures device in s.runReceipts ==>
              KeepsRun(s, t, device) || (device !in t.runReceipts && SettlesRun(s, e, device))
  {
    hide Inv, DoAct, DoAnswer, ValidFor, Observe;
    match e {
      case Act(action) =>
        NextCallIsNew(s);
        ActStep(s, action);
      case Answer(id, reply, cleared) =>
        AnswerStep(s, id, reply, cleared);
        if s.calls[id].purpose.Post? {
          OutstandingBody(s, id);
        }
      case _ =>
    }
  }

  /** What a step sends is what it has stored; a settings change is sent only against the revision shown. */
  lemma SentIsRetained(s: State, e: Event, t: State)
    requires Inv(s) && IsStep(s, e, t) && Sent(s, t).Some?
    ensures e.Act? && CanMutate(s) && SendsRetained(s, t) && Began(s, t, Sent(s, t).value)
  {
    hide Inv, DoAct, DoAnswer, ValidFor, Observe;
    NextCallIsNew(s);
    match e {
      case Act(action) => ActStep(s, action);
      case Answer(id, reply, cleared) => AnswerStep(s, id, reply, cleared);
      case _ =>
    }
  }

  ghost predicate SendsSettings(s: State, t: State, body: SettingsBody) {
    Sent(s, t) == Some(ChangeSettings(body))
  }

  /**
    Every settings request carries the revision of its link in the status shown when it is
    sent, and that status shows the change neither as applied nor as pending or conflicted.
   */
  lemma SettingsAreSentAgainstShownRevision(r: Run, i: nat, body: SettingsBody)
    requires IsRun(r) && i < |r.events| && SendsSettings(r.states[i], r.states[i + 1], body)
    ensures var s := r.states[i];
            var link := CurrentLink(s, body.folderId);
            && link.Some? && link.value.linkSettings.Some?
            && link.value in s.current.value.status.shares && IsMember(link.value, body.folderId)
            && link.value.linkSettings.value.confirmed
            && body.expectedRevision == link.value.linkSettings.value.revision
            && !IsApplied(link.value.linkSettings.value, s.deviceId, body)
            && !IsRequest(link.value.linkSettings.value.pendingChange, body)
            && !IsRequest(link.value.linkSettings.value.conflictedChange, body)
            && s.deviceId == Some(s.current.value.device) && s.current.value.epoch == s.accessEpoch
  {
    hide Inv, Next, Enabled, ValidFor, Began;
    var s, e, t := r.states[i], r.events[i], r.states[i + 1];
    assert IsStep(s, e, t);
    RunInv(r, i);
    SentIsRetained(s, e, t);
    ShownBelongsToAccess(r, i);
    ObserveMeans(s, body);
    LinkOfShown(s, body.folderId);
  }

  lemma LinkOfShown(s: State, folderId: Id)
    requires s.current.Some? && ValidFor(s.current.value.status, s.deviceId)
    ensures CurrentLink(s, folderId).Some? ==>
              var share := CurrentLink(s, folderId).value;
              && share in s.current.value.status.shares && IsMember(share, folderId) && share.linkSettings.value.confirmed
              && ConsistentShare(share) && LocalShare(share, s.deviceId)
  {
    hide ConsistentShare, LocalShare;
    LinkIsConfirmed(s.current.value.status, folderId);
  }

  /** A link that is shown is confirmed, in force, and consistent with its policy and its roster. */
  lemma ShownLinkIsConsistent(r: Run, i: nat, folderId: Id)
    requires IsRun(r) && i < |r.states| && CurrentLink(r.states[i], folderId).Some?
    ensures var s := r.states[i];
            var share := CurrentLink(s, folderId).value;
            var state := share.linkSettings.value;
            && share.folderId == folderId && share.phase != Removed && !share.remoteRemovalPending && share.offerId != NIL
            && state.confirmed && (state.revision == 0 <==> state.changeId == NIL)
            && share.linkPolicy == Some(state.settings.deletionPolicy)
            && (share.endpointRoster.Some? ==>
                  var roster := share.endpointRoster.value;
                  && 1 <= |roster.destinations| <= 128 && roster.revision != 0
                  && Some(roster.source.deviceId) == (if share.incoming then Some(share.peerId) else s.deviceId)
                  && (forall d :: d in roster.destinations ==> d.deviceId != roster.source.deviceId)
                  && (forall a, b :: 0 <= a < b < |roster.destinations| ==>
                        roster.destinations[a].deviceId != roster.destinations[b].deviceId))
  {
    hide IsRun, ValidFor;
    ShownBelongsToAccess(r, i);
    LinkOfShown(r.states[i], folderId);
    var share := CurrentLink(r.states[i], folderId).value;
    if share.endpointRoster.Some? {
      RosterDevicesDiffer(share.endpointRoster.value);
    }
  }

  lemma RosterDevicesDiffer(roster: Roster)
    requires ValidRoster(roster)
    ensures forall d :: d in roster.destinations ==> d.deviceId != roster.source.deviceId
    ensures forall a, b :: 0 <= a < b < |roster.destinations| ==> roster.destinations[a].deviceId != roster.destinations[b].deviceId
  {
    var ids := [roster.source.deviceId] + DeviceIds(roster.destinations);
    assert forall a :: 0 <= a < |roster.destinations| ==> ids[a + 1] == roster.destinations[a].deviceId;
    forall d | d in roster.destinations
      ensures d.deviceId != roster.source.deviceId
    {
      var a :| 0 <= a < |roster.destinations| && roster.destinations[a] == d;
      assert ids[0] != ids[a + 1];
    }
    forall a, b | 0 <= a < b < |roster.destinations|
      ensures roster.destinations[a].deviceId != roster.destinations[b].deviceId
    {
      assert ids[a + 1] != ids[b + 1];
    }
  }

  /**
    What is pending or in conflict on a link that is shown was asked for by this device, of the
    peer that is the link's source, for that folder, and at or before the revision shown.
   */
  lemma ShownChangesAreOurs(r: Run, i: nat, folderId: Id, change: SettingsRequest)
    requires IsRun(r) && i < |r.states| && CurrentLink(r.states[i], folderId).Some?
    requires var state := CurrentLink(r.states[i], folderId).value.linkSettings.value;
             state.pendingChange == Some(change) || state.conflictedChange == Some(change)
    ensures var s := r.states[i];
            var share := CurrentLink(s, folderId).value;
            && share.incoming && s.deviceId == Some(change.requesterId) && change.sourceId == share.peerId
            && change.folderId == folderId && change.expectedRevision <= share.linkSettings.value.revision
  {
    hide IsRun, ValidFor;
    ShownBelongsToAccess(r, i);
    LinkOfShown(r.states[i], folderId);
  }

  ghost predicate SendsRun(s: State, t: State, body: RunBody) {
    Sent(s, t) == Some(RequestRun(body))
  }

  /** As long as a receipt is present it is the same receipt. */
  lemma {:induction false} ReceiptIsConstant(r: Run, i: nat, j: nat, device: Id)
    requires IsRun(r) && i <= j < |r.states|
    ensures (forall k :: i <= k <= j ==> device in r.states[k].settingsReceipts) ==>
              r.states[i].settingsReceipts[device] == r.states[j].settingsReceipts[device]
    ensures (forall k :: i <= k <= j ==> device in r.states[k].runReceipts) ==>
              r.states[i].runReceipts[device] == r.states[j].runReceipts[device]
    decreases j
  {
    hide Inv, Next, Enabled, SettlesSettings, SettlesRun;
    if i < j {
      ReceiptIsConstant(r, i, j - 1, device);
      assert IsStep(r.states[j - 1], r.events[j - 1], r.states[j]);
      RunInv(r, j - 1);
      ReceiptsAreKept(r.states[j - 1], r.events[j - 1], r.states[j], device);
    }
  }

  /** All settings requests made for one saved change have the same body, over any lost answers and retries. */
  lemma SettingsRetriesAreIdentical(r: Run, i: nat, j: nat, first: SettingsBody, second: SettingsBody, device: Id)
    requires IsRun(r) && i < j < |r.events|
    requires SendsSettings(r.states[i], r.states[i + 1], first) && r.states[i].deviceId == Some(device)
    requires SendsSettings(r.states[j], r.states[j + 1], second) && r.states[j].deviceId == Some(device)
    requires forall k :: i < k <= j ==> device in r.states[k].settingsReceipts
    ensures first == second
  {
    hide Inv, Next, Enabled, Began, Observe;
    assert IsStep(r.states[i], r.events[i], r.states[i + 1]);
    assert IsStep(r.states[j], r.events[j], r.states[j + 1]);
    RunInv(r, i);
    RunInv(r, j);
    SentIsRetained(r.states[i], r.events[i], r.states[i + 1]);
    SentIsRetained(r.states[j], r.events[j], r.states[j + 1]);
    ReceiptsAreKept(r.states[j], r.events[j], r.states[j + 1], device);
    ReceiptIsConstant(r, i + 1, j + 1, device);
  }

  /** The same for the requests of one saved run. */
  lemma RunRetriesAreIdentical(r: Run, i: nat, j: nat, first: RunBody, second: RunBody, device: Id)
    requires IsRun(r) && i < j < |r.events|
    requires SendsRun(r.states[i], r.states[i + 1], first) && r.states[i].deviceId == Some(device)
    requires SendsRun(r.states[j], r.states[j + 1], second) && r.states[j].deviceId == Some(device)
    requires forall k :: i < k <= j ==> device in r.states[k].runReceipts
    ensures first == second
  {
    hide Inv, Next, Enabled, Began, Observe;
    assert IsStep(r.states[i], r.events[i], r.states[i + 1]);
    assert IsStep(r.states[j], r.events[j], r.states[j + 1]);
    RunInv(r, i);
    RunInv(r, j);
    SentIsRetained(r.states[i], r.events[i], r.states[i + 1]);
    SentIsRetained(r.states[j], r.events[j], r.states[j + 1]);
    ReceiptsAreKept(r.states[j], r.events[j], r.states[j + 1], device);
    ReceiptIsConstant(r, i + 1, j + 1, device);
  }
}
