/**
  What the console guarantees against a server that keeps its word.

  `world(device, folder, at)` is the revision of a link on a server at a tick of its
  clock, and `waiting(device, folder, at)` the change that waits there for the source.
  The assumptions are that every status reports the tick at which the server produced it,
  that revisions only grow, and that a waiting change waits until the revision moves.
 */
module FolderSyncWorld {
  import opened Basics
  import opened FolderStatus
  import opened FolderSync
  import opened FolderSyncInvariant
  import opened FolderSyncSteps
  import opened FolderSyncRuns
  import opened FolderSyncSending

  type World = (Id, Id, nat) -> nat
  type Waiting = (Id, Id, nat) -> Option<SettingsBody>

  ghost predicate Growing(world: World) {
    forall d: Id, f: Id, a: nat, b: nat {:trigger world(d, f, a), world(d, f, b)} ::
      a <= b ==> world(d, f, a) <= world(d, f, b)
  }

  /** A waiting change stays until the link's revision moves. */
  ghost predicate Patient(world: World, waiting: Waiting) {
    forall d: Id, f: Id, a: nat, b: nat {:trigger waiting(d, f, a), waiting(d, f, b)} ::
      a <= b && world(d, f, a) == world(d, f, b) && waiting(d, f, a).Some? ==> waiting(d, f, b) == waiting(d, f, a)
  }

  ghost predicate Faithful(status: Status, device: Id, at: nat, world: World) {
    forall f :: FindLive(status.shares, f).Some? ==>
      FindLive(status.shares, f).value.linkSettings.value.revision == world(device, f, at)
  }

  function PendingBody(state: SettingsState): Option<SettingsBody> {
    if state.pendingChange.None? then None else Some(FromRequest(state.pendingChange.value))
  }

  ghost predicate FaithfulAboutPending(status: Status, device: Id, at: nat, waiting: Waiting) {
    forall f :: FindLive(status.shares, f).Some? ==>
      PendingBody(FindLive(status.shares, f).value.linkSettings.value) == waiting(device, f, at)
  }

  ghost predicate Reports(s: State, e: Event) {
    e.Answer? && e.reply.Reported? && e.call in s.calls && s.calls[e.call].served.Some?
  }

  /** Every status in the run is faithful to the server that produced it. */
  ghost predicate FaithfulRun(r: Run, world: World) {
    && IsRun(r)
    && forall i :: 0 <= i < |r.events| && Reports(r.states[i], r.events[i]) ==>
         var call := r.states[i].calls[r.events[i].call];
         Faithful(r.events[i].reply.status, call.device, call.served.value, world)
  }

  ghost predicate FaithfulAboutPendingRun(r: Run, waiting: Waiting) {
    && IsRun(r)
    && forall i :: 0 <= i < |r.events| && Reports(r.states[i], r.events[i]) ==>
         var call := r.states[i].calls[r.events[i].call];
         FaithfulAboutPending(r.events[i].reply.status, call.device, call.served.value, waiting)
  }

  /** Whatever is shown was reported by an answer, to the call it is attributed to. */
  lemma {:induction false} ShownWasReported(r: Run, i: nat) returns (k: nat)
    requires IsRun(r) && i < |r.states| && r.states[i].current.Some?
    ensures k < i && Reports(r.states[k], r.events[k])
    ensures var call := r.states[k].calls[r.events[k].call];
            r.states[i].current.value == Shown(r.events[k].reply.status, call.served.value, call.device, call.epoch)
    ensures r.states[i].current.value.asOf == r.states[i].shownAt
    decreases i
  {
    hide Next, ValidFor, LockOk, ReadsOk, ClocksOk, CallsOk, ReceiptsOk;
    RunInv(r, i);
    if i == 0 {
      assert false;
    } else {
      var s, e, t := r.states[i - 1], r.events[i - 1], r.states[i];
      assert IsStep(s, e, t);
      RunInv(r, i - 1);
      StepShown(s, e, t);
      if ShowsAt(s, e) {
        k := i - 1;
      } else {
        k := ShownWasReported(r, i - 1);
      }
    }
  }

  /** The revision a run shows for a link never goes back, as long as it is shown for the same device. */
  lemma ShownRevisionsGrow(r: Run, world: World, i: nat, j: nat, f: Id)
    requires FaithfulRun(r, world) && Growing(world) && i <= j < |r.states|
    requires CurrentLink(r.states[i], f).Some? && CurrentLink(r.states[j], f).Some?
    requires r.states[i].current.value.device == r.states[j].current.value.device
    ensures CurrentLink(r.states[i], f).value.linkSettings.value.revision
         <= CurrentLink(r.states[j], f).value.linkSettings.value.revision
  {
    hide IsStep;
    var k := ShownWasReported(r, i);
    var l := ShownWasReported(r, j);
    ShownAtGrows(r, i, j);
    var a, b := r.states[i].current.value, r.states[j].current.value;
    assert Faithful(a.status, a.device, a.asOf, world) && Faithful(b.status, b.device, b.asOf, world);
    assert world(a.device, f, a.asOf) <= world(b.device, f, b.asOf);
  }

  /**
    A change that the console has once seen applied is never sent again: every later
    settings request for that link carries a higher expected revision.
   */
  lemma AppliedChangeIsNeverSentAgain(r: Run, world: World, i: nat, j: nat, done: SettingsBody, body: SettingsBody)
    requires FaithfulRun(r, world) && Growing(world) && i <= j < |r.events|
    requires Observe(r.states[i], done) == Applied
    requires SendsSettings(r.states[j], r.states[j + 1], body)
    requires r.states[j].deviceId == r.states[i].deviceId && body.folderId == done.folderId
    ensures body.expectedRevision > done.expectedRevision && body != done
  {
    hide Next, ValidFor;
    ShownBelongsToAccess(r, i);
    SettingsAreSentAgainstShownRevision(r, j, body);
    ShownRevisionsGrow(r, world, i, j, done.folderId);
  }

  /** A pending change shown for a link was made at or before the revision shown. */
  lemma PendingIsNotAhead(s: State, body: SettingsBody)
    requires Observe(s, body) == Pending && ValidFor(s.current.value.status, s.deviceId)
    ensures body.expectedRevision <= CurrentLink(s, body.folderId).value.linkSettings.value.revision
  {
    var share := CurrentLink(s, body.folderId).value;
    assert share in s.current.value.status.shares;
    assert ConsistentShare(share);
  }

  /** A change once shown as pending is shown as pending or applied for as long as the revision it expects is. */
  lemma PendingIsStillShown(r: Run, world: World, waiting: Waiting, i: nat, j: nat, body: SettingsBody)
    requires FaithfulRun(r, world) && Growing(world)
    requires FaithfulAboutPendingRun(r, waiting) && Patient(world, waiting)
    requires i <= j < |r.states| && Observe(r.states[i], body) == Pending
    requires CurrentLink(r.states[j], body.folderId).Some?
    requires r.states[j].current.value.device == r.states[i].current.value.device
    requires CurrentLink(r.states[j], body.folderId).value.linkSettings.value.revision == body.expectedRevision
    ensures Observe(r.states[j], body) == Pending || Observe(r.states[j], body) == Applied
  {
    hide IsStep, ValidFor;
    var f := body.folderId;
    ShownBelongsToAccess(r, i);
    PendingIsNotAhead(r.states[i], body);
    ShownRevisionsGrow(r, world, i, j, f);
    var k := ShownWasReported(r, i);
    var l := ShownWasReported(r, j);
    ShownAtGrows(r, i, j);
    var a, b := r.states[i].current.value, r.states[j].current.value;
    assert Faithful(a.status, a.device, a.asOf, world) && Faithful(b.status, b.device, b.asOf, world);
    assert FaithfulAboutPending(a.status, a.device, a.asOf, waiting) && FaithfulAboutPending(b.status, b.device, b.asOf, waiting);
    assert waiting(b.device, f, b.asOf) == waiting(a.device, f, a.asOf);
  }

  /** So a change that the console has once seen waiting for the source is never sent again. */
  lemma PendingChangeIsNeverSentAgain(r: Run, world: World, waiting: Waiting, i: nat, j: nat, body: SettingsBody)
    requires FaithfulRun(r, world) && Growing(world)
    requires FaithfulAboutPendingRun(r, waiting) && Patient(world, waiting)
    requires i <= j < |r.events| && Observe(r.states[i], body) == Pending && r.states[j].deviceId == r.states[i].deviceId
    ensures !SendsSettings(r.states[j], r.states[j + 1], body)
  {
    hide IsStep, ValidFor;
    if SendsSettings(r.states[j], r.states[j + 1], body) {
      ShownBelongsToAccess(r, i);
      SettingsAreSentAgainstShownRevision(r, j, body);
      PendingIsStillShown(r, world, waiting, i, j, body);
    }
  }

  // ------------------------------------------------ a server that forgets

  /** An unlocked, polling console of a device with nothing outstanding. */
  ghost predicate AtRest(s: State) {
    CanRefresh(s) && s.calls == map[] && s.pendingAddress.None?
  }

  ghost function Showing(s: State, status: Status): State
    requires s.deviceId.Some?
  {
    s.(generation := s.generation + 1, nextCall := s.nextCall + 1, clock := s.clock + 1, shownAt := s.clock + 1,
       current := Some(Shown(status, s.clock + 1, s.deviceId.value, s.accessEpoch)))
  }

  lemma PollSteps(s: State, status: Status) returns (asked: State, served: State)
    requires AtRest(s) && ValidFor(status, s.deviceId)
    ensures IsStep(s, Refresh, asked) && IsStep(asked, Serve(s.nextCall), served)
    ensures IsStep(served, Answer(s.nextCall, Reported(status), false), Showing(s, status))
  {
    hide ValidFor;
    asked := DoRefresh(s);
    served := DoServe(asked, s.nextCall);
    assert served.calls - {s.nextCall} == map[];
  }

  /** Extends a run by a refresh that shows `status`. */
  lemma PollOnce(r: Run, status: Status) returns (q: Run)
    requires IsRun(r) && AtRest(Last(r)) && ValidFor(status, Last(r).deviceId)
    ensures IsRun(q) && r.states <= q.states && |q.states| == |r.states| + 3 && Last(q) == Showing(Last(r), status)
  {
    hide IsStep, ValidFor;
    var s := Last(r);
    var asked, served := PollSteps(s, status);
    ThenIsRun(r, Refresh, asked);
    q := Then(r, Refresh, asked);
    ThenIsRun(q, Serve(s.nextCall), served);
    q := Then(q, Serve(s.nextCall), served);
    ThenIsRun(q, Answer(s.nextCall, Reported(status), false), Showing(s, status));
    q := Then(q, Answer(s.nextCall, Reported(status), false), Showing(s, status));
  }

  /** One link of device 1 with device 2 as its source, at revision 0. */
  function OneLink(now: Settings, pending: Option<SettingsRequest>): Status {
    var state := SettingsState(0, now, NIL, 2, true, pending, None);
    Status([], [Share(1, 1, "", 2, true, Some(now.deletionPolicy), Some(state), None, None, Ready, None, false, false, [])])
  }

  function Wanted(wanted: Settings): SettingsRequest {
    SettingsRequest(1, 2, 1, 7, 0, wanted)
  }

  lemma OneShareIsDistinct(share: Share)
    requires share.supersededOfferIds == []
    ensures InvitationsDistinct([share])
  {
    var shares := [share];
    assert shares[..0] == [];
    assert SupersededIds(shares) == [];
  }

  lemma OneLinkIsValid(now: Settings, pending: Option<SettingsRequest>)
    requires pending.Some? ==>
               pending.value.folderId == 1 && pending.value.expectedRevision == 0
               && pending.value.sourceId == 2 && pending.value.requesterId == 1
    ensures ValidFor(OneLink(now, pending), Some(1))
  {
    hide InvitationsDistinct;
    OneShareIsDistinct(OneLink(now, pending).shares[0]);
  }

  lemma OneLinkObserved(s: State, now: Settings, wanted: Settings)
    requires s.deviceId == Some(1) && s.current.Some?
    ensures s.current.value.status == OneLink(now, None) ==> Observe(s, FromRequest(Wanted(wanted))) == Unknown
    ensures s.current.value.status == OneLink(now, Some(Wanted(wanted))) ==> Observe(s, FromRequest(Wanted(wanted))) == Pending
  {
  }

  /** The change is sent, and its answer is lost. */
  lemma LostAnswer(s: State, now: Settings, wanted: Settings) returns (sent: State, back: State)
    requires AtRest(s) && s.deviceId == Some(1) && s.settingsReceipts == map[]
    requires s.current.Some? && s.current.value.status == OneLink(now, None)
    ensures IsStep(s, Act(UpdateSettings(1, wanted, 7, true, true)), sent) && SendsSettings(s, sent, FromRequest(Wanted(wanted)))
    ensures IsStep(sent, Answer(s.nextCall, Refused(OtherError), false), back)
    ensures back == s.(generation := s.generation + 1, nextCall := s.nextCall + 1, settingsReceipts := map[1 := FromRequest(Wanted(wanted))])
  {
    hide Observe;
    var body := FromRequest(Wanted(wanted));
    var kept := s.(settingsReceipts := map[1 := body]);
    OneLinkObserved(kept, now, wanted);
    sent := Begin(kept, ChangeSettings(body));
    back := s.(generation := s.generation + 1, nextCall := s.nextCall + 1, settingsReceipts := map[1 := body]);
    assert sent.calls - {s.nextCall} == map[];
  }

  lemma StartPolling() returns (r: Run)
    ensures IsRun(r) && AtRest(Last(r)) && Last(r).deviceId == Some(1) && Last(r).settingsReceipts == map[]
  {
    var unlocked := DoSetAccess(INITIAL, Some(1), true);
    var polling := DoSetPolling(unlocked, true);
    assert IsStep(INITIAL, SetAccess(Some(1), true), unlocked);
    assert IsStep(unlocked, SetPolling(true), polling);
    r := Run([INITIAL, unlocked, polling], [SetAccess(Some(1), true), SetPolling(true)]);
  }

  /**
    Without a patient server it is sent again: the answer to the request is lost, a status
    shows the change as pending, the next one shows neither the change nor a new revision,
    and a retry sends the same body.
   */
  lemma ForgottenChangeIsSentAgain(now: Settings, wanted: Settings) returns (r: Run, h: nat, i: nat, j: nat)
    ensures IsRun(r) && h < i < j < |r.events|
    ensures var body := FromRequest(Wanted(wanted));
            && SendsSettings(r.states[h], r.states[h + 1], body)
            && Observe(r.states[i], body) == Pending
            && SendsSettings(r.states[j], r.states[j + 1], body)
  {
    hide IsStep, ValidFor, Observe, SendsSettings;
    var body := FromRequest(Wanted(wanted));
    OneLinkIsValid(now, None);
    OneLinkIsValid(now, Some(Wanted(wanted)));
    r := StartPolling();
    r := PollOnce(r, OneLink(now, None));
    h := |r.events|;
    var before := Last(r);
    var sent, back := LostAnswer(before, now, wanted);
    ThenIsRun(r, Act(UpdateSettings(1, wanted, 7, true, true)), sent);
    r := Then(r, Act(UpdateSettings(1, wanted, 7, true, true)), sent);
    ThenIsRun(r, Answer(before.nextCall, Refused(OtherError), false), back);
    r := Then(r, Answer(before.nextCall, Refused(OtherError), false), back);
    r := PollOnce(r, OneLink(now, Some(Wanted(wanted))));
    i := |r.events|;
    OneLinkObserved(Last(r), now, wanted);
    r := PollOnce(r, OneLink(now, None));
    j := |r.events|;
    OneLinkObserved(Last(r), now, wanted);
    var again := RetryAtRest(Last(r), body);
    ThenIsRun(r, Act(RetrySettings(true, true)), again);
    r := Then(r, Act(RetrySettings(true, true)), again);
  }

  lemma RetryAtRest(s: State, body: SettingsBody) returns (t: State)
    requires AtRest(s) && s.settingsReceipts == map[s.deviceId.value := body] && Observe(s, body) == Unknown
    ensures IsStep(s, Act(RetrySettings(true, true)), t) && SendsSettings(s, t, body)
  {
    hide Observe, DoAct;
    t := DoAct(s, RetrySettings(true, true));
    ActionSends(s, RetrySettings(true, true));
  }
}
